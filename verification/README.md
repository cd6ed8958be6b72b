# Booking and lottery backend: a verified model

The system sells places at events and later raffles the event among the people
who booked. A booking passes three layers: a first-come first-served gate per
event inside each replica, a Redis lock shared by the replicas, and a
transaction that holds the event's row lock. An event moves from open to closed
to drawn, or to cancelled. A draw shuffles the booked users, writes one audit
row per user with its rank, seals the rows with a digest, and from then on
anybody can read the results and check them against the seal.

The project models these parts as transition systems and as imperative code
that is proved to be a run of those systems:

| file | part of the system |
|---|---|
| `Shuffle.dfy`, `Fairness.dfy` | the Fisher-Yates shuffle on an array, its inverse, and how often each outcome occurs |
| `Text.dfy`, `Seal.dfy` | numbers and timestamps as text, the text that is hashed, and what it determines |
| `Tables.dfy`, `Results.dfy`, `Triggers.dfy` | rows and constraints, reading a draw back, and the append-only triggers |
| `Transactions.dfy` | createBooking, Close, Cancel and RunDraw, statement by statement |
| `Database.dfy`, `Guarantees.dfy` | all interleavings of those transactions, and what holds in every one |
| `DrawFairness.dfy` | the ranking in the tables as the outcome of the shuffle, and how often each ranking is stored |
| `Service.dfy`, `DrawService.dfy` | the service methods as sequential code among other sessions |
| `GateTable.dfy`, `Gates.dfy`, `GateOrder.dfy` | the gates as mutable objects, as a transition system, and their order of service |
| `RedisLock.dfy`, `Backoff.dfy` | the Redis lock with expiry, lost replies and crashes, and the polling loop |
| `Cluster.dfy`, `ClusterGuarantees.dfy`, `EarlyExpiry.dfy` | requests on any number of replicas through all three layers, and a run that shows why the Redis lock alone is not enough |
| `RequestView.dfy`, `BookingService.dfy` | a cluster run seen from one request, and BookWithLock as code with its deferred calls |
| `Migrations.dfy` | the migration runner, interrupted anywhere and started again |

How the parts fit together:

- `Database` lets any open transaction take the next statement at any time. It
  contains no gate and no Redis, so what `Guarantees` proves does not depend on
  layers one and two. `Cluster.DatabaseRuns` shows that every run of the whole
  cluster, with crashes, expired keys, lost replies and clients that go straight
  to the database, is a run of `Database` as far as the tables are concerned.
- `Guarantees.TransactionsAreAtomic` reduces the statement-level system to a
  one-line description of each request on the data of one event
  (`Transactions.Atomic`), and `Guarantees.RunsAreSerializable` carries this to
  whole runs.
- The classes `Service.Postgres` and `BookingService.Deployment` keep a ghost
  history. Their invariant says that the current state is what the transition
  system reaches by that history, so all lemmas about runs apply to the code.
  A method may add only its own steps and those its surroundings offer (`Grew`).
  The contracts also say when a method fails: `Answered`, with one predicate of
  the possible failures per method, for the transactions, and `Explained` for
  BookWithLock. Both are functions of the state at the call and the surroundings.
- `DrawFairness` joins the two halves of the draw: what the tables hold after a
  commit is the shuffle for the numbers drawn, so the counts of `Fairness` count
  stored rankings.

Time, the random source, row ids and the actions of other sessions are
parameters (`Surroundings`, `Luck`, `Input`): a contract that mentions none of
them holds for all of them.

Where the code and its documentation differ, the model follows the code. The
documentation gives the range of the polling backoff as 2 to 50 ms
(`docs/explanations/concurrency-protection.md:49`). The loop doubles while the
backoff is below 50 ms, so it reaches 64 ms; `Backoff.BackoffValues` proves this.

Three properties hold under a condition only. The text under the seal is
unambiguous if the entropy sources are free of newlines, which
`Seal.LinesHaveNewlines` turns into a count that both texts must share; RunDraw
writes one constant source, which meets the condition. Over arbitrary sources
the text determines n rows if and only if n <= 1
(`Seal.DeterminedExactlyUpToOneRow`), because from two rows on a newline can move
a row boundary (`Seal.NewlineInSourceIsAmbiguous`). The Redis lock excludes
others as long as no key expires under its owner. `EarlyExpiry` shows that in any
state of any cluster such an expiry lets another request in. A finished migration
run has applied every file if and only if no two files share a version.

## Model

| member | source | states |
|---|---|---|
| `Shuffle.FairShuffle` | internal/lottery/algorithm.go:42-68 | the in-place loop produces the functional shuffle of the participants for the numbers it drew, and fails exactly when a read of the random source that it performs fails, at the first such index |
| `Shuffle.ShuffledIsSwaps` | internal/lottery/algorithm.go:51-65 | the functional shuffle is what the exchanges leave that go from the last index down to 1 |
| `Shuffle.ShuffledPermutes` | internal/lottery/algorithm.go:51-65 | the result is a permutation of the participants for every choice vector |
| `Shuffle.ShuffleOfDecode` | internal/lottery/algorithm.go:51-65 | every permutation is the output for the choice vector the decoder computes from it |
| `Shuffle.ShuffleIsInjective` | internal/lottery/algorithm.go:51-65 | for distinct participants two choice vectors with the same output are the same vector |
| `Shuffle.DecodeOfShuffle` | internal/lottery/algorithm.go:51-65 | for distinct participants the decoder recovers the vector that was drawn |
| `Shuffle.EveryPermutationExactlyOnce` | internal/lottery/algorithm.go:42-68 | choice vectors and permutations correspond one to one, so a uniform vector gives a uniform permutation |
| `Shuffle.SelectWinners` | internal/lottery/algorithm.go:74-92 | winners followed by waitlist is the whole shuffle, cut at the smaller of count and number of participants; both input errors and the first failing read exactly characterised |
| `Fairness.VectorsCount` | internal/lottery/algorithm.go:51-65 | there are n! choice vectors for n participants |
| `Fairness.EveryRankEquallyLikely` | internal/lottery/algorithm.go:51-65 | each participant stands on each rank for exactly (n-1)! vectors, whatever the booking order |
| `Fairness.EveryoneWinsEquallyOften` | internal/lottery/algorithm.go:74-92 | with k winners each participant wins for exactly k*(n-1)! vectors |
| `Fairness.EveryWinningGroupEquallyLikely` | internal/lottery/algorithm.go:74-92 | each group of k people is the winning group for exactly k!*(n-k)! vectors |
| `Text.StampTextInjective` | internal/lottery/seal.go:32-33 | two instants with the same RFC 3339 text with fraction (section 5.6 of RFC 3339) are the same instant |
| `Text.StampTextIsRfc3339` | internal/lottery/seal.go:32-33 | the text is the UTC date-time of section 5.6 of RFC 3339 position by position: the padded fields read back as the fields of the instant, and a fraction that is there has no trailing zero and stands for the microseconds |
| `Text.ValueAppend` | internal/db/migrate.go:113 | the number a digit string stands for is that of its front, moved up by the length of its back, plus that of its back |
| `Text.PaddedRoundTrip` | internal/lottery/seal.go:32-33 | a number padded with zeros to any width that holds it reads back as that number |
| `Text.LastField` | internal/lottery/seal.go:35 | a field without its delimiter can be read off the end of a text even if the text before it contains the delimiter |
| `Seal.PreimageText` | internal/lottery/seal.go:30-36 | the hashed text in full: the algorithm, event, winner count, time and number of entrants on a line each, and then the lines of the rows |
| `Seal.LinesText` | internal/lottery/seal.go:34-36 | each further row adds its rank, user, source and total, with colons between them, and a newline |
| `Text.TrimSpace` | internal/event/service.go:42-43 | what is left begins and ends with something visible, and exactly white space was cut off at both ends |
| `Text.SpacesAreWhiteSpace` | internal/event/service.go:42-43 | the characters that are cut off are exactly those with the Unicode property White_Space |
| `Text.Utf8Lengths` | internal/event/service.go:48-53 | the number of UTF-8 bytes of a character never falls with its code point, and the last and first characters of each length are where they should be |
| `Text.ByteLengthAppend` | internal/event/service.go:48-53 | the byte length of a text is the sum over its parts |
| `Seal.LineInjective` | internal/lottery/seal.go:35 | a row's line determines rank, user, source and total, also when the source contains a colon |
| `Seal.LinesHaveNewlines` | internal/lottery/seal.go:34-36 | n rows give at least n newlines, and exactly n if and only if no source contains one |
| `Seal.PreimageInjective` | internal/lottery/seal.go:30-39 | equal hashed texts, one of them with newline-free sources, come from the same event, winner count, time, row count and covered row fields |
| `Seal.PreimageOfOneRow` | internal/lottery/seal.go:30-39 | a text with at most one row determines everything covered, whatever the source contains |
| `Seal.PreimageIffCovered` | internal/lottery/seal.go:30-39 | and conversely: the text depends on nothing else |
| `Seal.NewlineInSourceIsAmbiguous` | internal/lottery/seal.go:34-36 | for every event, winner count, time and further rows, two different draws with the same text when a source may contain a newline |
| `Seal.DeterminedExactlyUpToOneRow` | internal/lottery/seal.go:30-39 | over arbitrary sources the text determines all lists of n rows if and only if n is at most one |
| `Seal.DrawDigest` | internal/lottery/seal.go:30-39 | the loop that appends line by line hashes exactly that text |
| `Results.GetResults` | internal/lottery/service.go:206-279 | scanning the rows once yields the specified reading: nothing exactly if the event is missing or not drawn; else winners and waitlist are the rows by rank, time and total those of the first row that has a time, no digest and unsealed exactly without a seal, and otherwise verified exactly if the digest of the rows read is the stored one |
| `Results.ReadingReadsBack` | internal/lottery/service.go:206-279 | the reading itself has these properties for all rows, also rows out of order, without times or with foreign ranks |
| `Results.AnnouncementPublishes` | internal/lottery/service.go:187-201 | a result is the announcement if and only if its winners are the first min(count, n) rows, its waitlist the others, and event, title, total, time, digest and verdict are the stored ones |
| `Results.RankOrderIsUnique` | internal/lottery/service.go:222-227 | rows with ranks 1..n have one order by rank, however they are stored |
| `Results.ReadingReturnsTheAnnouncement` | internal/lottery/service.go:147-163 | what RunDraw announced is what reading its rows back returns, for every winner count, also one beyond the number of entrants |
| `Results.TamperingIsDetected` | internal/lottery/service.go:255-276 | after any rewriting of rows and winner count behind the triggers, the reading says verified if and only if nothing the seal covers differs |
| `Triggers.RejectedExactly` | internal/db/migrations/002_harden_audit.sql:13-77 | for every statement on the audit tables or an event, exactly when it has no effect, and its effect otherwise |
| `Triggers.DrawnIsFinal` | internal/db/migrations/002_harden_audit.sql:13-77 | over any sequence of statements by any role a drawn event keeps its status, winner count, capacity, seal and draw rows, and added rows have ranks beyond theirs |
| `Triggers.VerifiedUntilRowsAreAppended` | internal/db/migrations/002_harden_audit.sql:13-77 | its results then read as verified exactly as long as no row was appended |
| `Transactions.NextIsCurrent` | internal/lottery/service.go:56-113 | under the row lock every statement keeps what the transaction has read equal to what is committed; a draw goes on only once its time has come |
| `Transactions.FinishIsAtomic` | internal/booking/service.go:177-210 | a transaction that is refused gets the answer of an indivisible operation on the data committed at that moment |
| `Transactions.CommitIsAtomic` | internal/lottery/service.go:136-201 | a commit writes and answers what that operation writes and answers; for a booking the user must have an account |
| `Transactions.CommitOk` | internal/booking/service.go:200-215 | a commit keeps the event's data well formed and its answer is true of it |
| `Transactions.ReplyStaysOk` | internal/booking/service.go:157-216 | an answer that is true of an event stays true however the event evolves |
| `Database.StepKeepsInv` | internal/booking/service.go:157-216 | every step of every transaction keeps the invariant: lock owners, current reads, well-formed data, booked users with accounts, true answers, one transaction per seat and per draw |
| `Database.StepKeepsUsersKnown` | internal/db/migrations/001_init.sql:41-47 | whoever is booked, or inserted by an open transaction, has an account, after every step |
| `Database.RunKeepsInv` | internal/booking/service.go:157-216 | so does every run |
| `Database.StepIsQuiet` | internal/booking/service.go:162-162 | only commits and new events change tables: every refusal and rollback leaves nothing behind |
| `Guarantees.TransactionsAreAtomic` | internal/booking/service.go:153-216 | in every interleaving each transaction has the reply and the effect of one indivisible operation at the moment it ends, and touches no other event |
| `Guarantees.RunsAreSerializable` | internal/booking/service.go:153-216 | over any run the data of an event is what the transactions on it make of it one after the other, in the order in which they ended, each as an indivisible operation with the reply it was given |
| `Guarantees.EndingsAreTheLog` | internal/booking/service.go:153-216 | those are all transactions on the event that ended on the run, each once, with its request and its reply |
| `Guarantees.NeverOversold` | internal/booking/service.go:153-216 | in every reachable state no event has more bookings than capacity and no user is booked twice |
| `Guarantees.BookingsAreConserved` | internal/booking/service.go:157-216 | committed bookings are as many as successful returns plus commits whose reply was lost |
| `Guarantees.ExactlyTheFreeSeatsAreTaken` | internal/booking/service.go:177-215 | if N new users contend for an event that stays open, exactly min(N, free seats) get one |
| `Guarantees.EachUserSeesOneSuccessOrOnlyFull` | internal/booking/service.go:177-215 | each of them sees one success and otherwise already booked, or nothing but full |
| `Guarantees.OnlyCommitsChangeTables` | internal/booking/service.go:162-215 | if no transaction on an event ended in a commit over a run, the event's data is unchanged |
| `Guarantees.StatusOnlyMovesForward` | internal/event/service.go:193-265 | over any run the status follows open, closed, drawn or ends in cancelled; title, capacity, winner count and draw time never change, and 1 <= winner count <= capacity |
| `Guarantees.StatusEdges` | internal/event/service.go:212-224 | one step takes at most one edge of that machine |
| `Guarantees.BookingsAreFrozen` | internal/booking/service.go:187-189 | once an event has left open its bookings never change, whatever was in flight |
| `Guarantees.EntrantsAreTheBookingsAtClosing` | internal/lottery/service.go:89-113 | the people drawn are exactly those booked when the event was closed |
| `Guarantees.DrawsAreCompleteAndUnique` | internal/lottery/service.go:61-179 | drawn, sealed and having rows coincide; ranks are 1..n, users are the booked ones once each, totals n; at most one draw succeeds and it returned what is stored |
| `Guarantees.ResultsAreStable` | internal/lottery/service.go:206-279 | three reads with any commits in between still give the complete announcement, verified, and the same for ever |
| `Guarantees.ReadersSeeWhatTheDrawReturned` | internal/lottery/service.go:187-201 | every reader gets the very result RunDraw returned |
| `Guarantees.BackstopsNeverFire` | internal/db/migrations/001_init.sql:41-62 | in reachable states no unique key, foreign key of a draw row, or trigger is what stops a transaction: no statement under the row lock fails |
| `DrawFairness.StoredRankingIsTheShuffle` | internal/lottery/service.go:89-163 | whatever other sessions do until the draw commits and afterwards, the ranking in the tables is the shuffle of the entrants for the numbers drawn |
| `DrawFairness.EveryVectorCommits` | internal/lottery/service.go:115-179 | from the selection on the draw can always be completed, for every choice vector |
| `DrawFairness.StoredExactly` | internal/lottery/service.go:115-163 | a ranking can be stored for a choice vector if and only if it is the shuffle for that vector |
| `DrawFairness.EveryRankingFromOneVector` | internal/lottery/service.go:115-163 | in a reachable database the rankings a draw can store are exactly the orderings of the booked users, each from exactly one choice vector |
| `DrawFairness.EveryoneIsStoredAsWinnerEquallyOften` | internal/lottery/service.go:115-163 | each booked user is stored among the k winners for exactly k*(n-1)! of the n! vectors |
| `Service.ForeignStepIsIsolated` | internal/booking/service.go:166-169 | while a transaction holds the row lock no other session changes its event, its reads or its lock |
| `Service.RanIsTheRun` | internal/booking/service.go:166-169 | steps of others that can all be taken are all taken, in their order |
| `Service.Postgres.Others` | internal/booking/service.go:166-169 | any sequence of steps by other sessions is isolated in that sense, and exactly those offered steps that are possible are taken |
| `Service.Postgres.Open` | internal/booking/service.go:158-169 | the transaction gets its row lock exactly if the wait is not cut off and nobody holds the lock when the offered steps of others are done |
| `Service.CreateBooking` | internal/booking/service.go:157-216 | the method is a run of the database with no foreign step but the offered ones; without the row lock it fails; with it, it fails exactly by a fault of a statement it comes to, reports a lost commit exactly if the reply is lost, and otherwise has the reply and the effect of the atomic booking on the data under the lock, with no faulty statement on the way; its answer stays true |
| `Service.Postgres.Complete` | internal/booking/service.go:215 | a commit that is not faulty writes the data and gives the atomic reply, and is reported as failed only if its reply is lost |
| `Service.Create` | internal/event/service.go:41-89 | an event is inserted, open and empty, with trimmed texts and its creator, exactly if the texts are within their lengths, the draw time is not past, the capacity fits and the winner count is within capacity and limit, with a missing count meaning one and any other stored as it is, for values the columns can hold and a creator with an account; otherwise nothing changes |
| `Service.CloseEvent` | internal/event/service.go:196-230 | the same as for createBooking: given the row lock, an open or closed event is closed unless the UPDATE or the COMMIT it needs fails, and a drawn or cancelled one is refused |
| `Service.CancelEvent` | internal/event/service.go:233-265 | the same: every event but a drawn one is cancelled for good unless a statement it needs fails, and a drawn one is refused |
| `DrawService.RunDraw` | internal/lottery/service.go:50-201 | the same: given the row lock, a closed and due event with entrants is drawn unless reading, the random source or a writing statement fails, every other event is refused for its reason; a draw stores the shuffle of the entrants for the numbers the random source gave under the row ids drawn, and what it returns publishes the stored rows: a row is a winner exactly if its rank is at most the winner count, so there are min(count, n) |
| `DrawService.InsertRows` | internal/lottery/service.go:147-163 | the two loops insert winners and waitlist with consecutive ranks, and stop exactly at a fault, with nothing written |
| `DrawService.ReadResults` | internal/lottery/service.go:206-279 | with other sessions between its statements the method returns the complete verified draw, which publishes the stored rows, if the first read finds the event drawn; it reports unavailable or a failure exactly when the event is not drawn or a statement fails |
| `GateTable.EventGates.Register` | internal/booking/gate.go:30-37 | finds or makes the event's gate and counts the caller, leaving other gates alone |
| `GateTable.EventGates.Send` | internal/booking/gate.go:39-40 | takes a free slot or joins the end of the channel's queue |
| `GateTable.EventGates.Withdraw` | internal/booking/gate.go:45-47 | a sender that times out is taken out of the queue |
| `GateTable.EventGates.Receive` | internal/booking/gate.go:41-42 | frees the slot or hands it to the oldest sender |
| `GateTable.EventGates.Release` | internal/booking/gate.go:51-58 | drops a reference and removes the gate with the last one |
| `Gates.StepKeepsInv` | internal/booking/gate.go:29-58 | every atomic section of enter, leave and release keeps counts, map, slot and queue consistent |
| `GateOrder.GatesAreCounted` | internal/booking/gate.go:29-58 | in every reachable state a gate counts the requests between enter and release, all holding the gate in the map; the key exists exactly when there are any; one owner at most |
| `GateOrder.LeavingNeverBlocks` | internal/booking/gate.go:41-44 | the receive of leave always finds its own token in the channel |
| `GateOrder.FirstComeFirstServed` | internal/booking/gate.go:39-48 | a blocked request moves up by one with every departure in front of it, nobody gets in front, and after position plus one departures it owns the slot or has given up |
| `GateOrder.NoOvertaking` | internal/booking/gate.go:39-48 | while a request is blocked nobody who was not in front of it owns the slot |
| `RedisLock.StepKeepsInv` | internal/booking/service.go:100-118 | tokens stay apart and every key belongs to a holder or to a token orphaned by a lost reply, a failed release or a crash |
| `RedisLock.ReleaseIsOwnerSafe` | internal/booking/service.go:36-41 | a release deletes the releasing request's own key or nothing, and nobody else's lock |
| `RedisLock.CarefulStepKeepsOwnKeys` | internal/booking/service.go:128-139 | as long as no key expires under its owner, every holder's key is in Redis |
| `RedisLock.OneHolder` | internal/booking/service.go:128-139 | then two holders of one event's lock are the same request |
| `RedisLock.ExpiryLetsTwoIn` | internal/booking/service.go:31-33 | a run in which an early expiry lets two requests hold the lock |
| `Backoff.BackoffValues` | internal/booking/service.go:129-149 | the backoff is 2, 4, 8, 16, 32 and then 64 ms |
| `Backoff.WaitBounds` | internal/booking/service.go:140 | each wait lies in [backoff/2, 3*backoff/2) |
| `Backoff.EveryWaitFromOneJitter` | internal/booking/service.go:140 | every number of nanoseconds in that range is the wait for exactly one jitter below the backoff |
| `Backoff.LeastWaitValues` | internal/booking/service.go:128-151 | m waits take at least 2^m-1 ms for m <= 5 and 31+32(m-5) ms beyond |
| `Backoff.AcquireRedisLock` | internal/booking/service.go:128-151 | the loop ends; it retries exactly while SET NX finds the key taken and the wait ends within the budget, so it is busy exactly if the last reply was taken and its wait does not fit; locked and failed are decided by the last reply; the time it took is the sum of all replies and waits, cut at the deadline |
| `Backoff.DeadlineDecides` | internal/booking/service.go:140-148 | after a taken reply the loop goes on if the wait ends before the deadline, stops if it ends after it, and is decided by the select if both are due at once |
| `Backoff.AttemptsAreBounded` | internal/booking/service.go:128-151 | a bound on the number of SET NX for every wait budget: with m attempts at least 2^(m-1)-1 ms up to six, and 31+32(m-6) ms beyond |
| `Cluster.DatabaseRuns` | internal/booking/service.go:71-85 | whatever gates, Redis and crashes do, the database goes through one of its own runs |
| `Cluster.StepKeepsInv` | internal/booking/service.go:86-121 | every step of the cluster keeps the components in agreement about every request's stage |
| `ClusterGuarantees.DatabaseIsReachable` | internal/booking/service.go:81-82 | the database behind any cluster run is reachable in its own system, so every guarantee above applies |
| `ClusterGuarantees.ClusterNeverOversells` | internal/booking/service.go:81-82 | no cluster run, with layers one and two bypassed or not, oversells or double-books |
| `ClusterGuarantees.AnswersAreTrue` | internal/booking/service.go:86-121 | what BookWithLock answered agrees with the tables from then on, and a seat was taken exactly for success or a lost commit reply |
| `ClusterGuarantees.GateReferencesAreDropped` | internal/booking/service.go:94-98 | on every path the gate reference is dropped: counts equal the unfinished requests |
| `ClusterGuarantees.RedisKeysAreAccountedFor` | internal/booking/service.go:105-118 | a key without a request in its critical section has a step on the run at which the request that set it lost its SET NX reply, failed to release or crashed |
| `ClusterGuarantees.OrphanHasCause` | internal/booking/service.go:105-118 | a token is left behind on a run only by such a step of its own request |
| `ClusterGuarantees.OrphanedByRelease` | internal/booking/service.go:105-118 | a request that is done, and not because a SET NX reply was lost, has left a token behind only by a release that did not get through |
| `ClusterGuarantees.ReleaseLeavesNothing` | internal/booking/service.go:105-118 | so if its release got through, neither a key nor an orphaned token of its is left |
| `ClusterGuarantees.DrawnTokenIsForgotten` | internal/booking/service.go:100-118 | and that holds of every token it drew on the run |
| `ClusterGuarantees.OneRequestInsideCreateBooking` | internal/booking/service.go:78-80 | without early expiry at most one request of all replicas is between acquire and release for an event |
| `EarlyExpiry.ExpiryLetsTwoInside` | internal/booking/service.go:31-33 | for every event a run of the whole cluster in which an early expiry lets two requests of different replicas into createBooking |
| `EarlyExpiry.EveryEarlyExpiryLetsAnotherIn` | internal/booking/service.go:31-33 | in any consistent state of any cluster, an expiry under a request in its critical section lets a new request of a new replica into createBooking for the same event at once |
| `EarlyExpiry.GoesStraight` | internal/booking/service.go:86-120 | a request that finds no gate and no key gets through to its transaction |
| `RequestView.ForeignStepIsUndisturbing` | internal/booking/service.go:86-121 | others can only crash a request's replica or hand it the slot |
| `RequestView.DeferredCallsNeverBlock` | internal/booking/service.go:98-118 | releasing the lock, leaving the gate and dropping the reference are always possible when they are due |
| `RequestView.InterleavedIsTheRun` | internal/booking/service.go:86-121 | steps of others that can all be taken are all taken, in their order |
| `RequestView.BookStatement` | internal/booking/service.go:164-213 | with the row lock free or its own, the next statement of a booking is possible and does not fail; it goes on, or answers what the atomic booking answers on the data it finds |
| `RequestView.CrashedByACrash` | internal/booking/service.go:86-121 | a request found crashed was on a replica that crashed |
| `BookingService.Deployment.BookWithLock` | internal/booking/service.go:86-121 | the method is a run of the cluster with no foreign step but the offered ones; unless these crash its replica it gets through its deferred calls and leaves no gate reference, lock or transaction behind; unless its SET NX reply or its release was lost, none of its tokens is left in Redis; its answer is true, and an answer other than the transaction's own has its cause, computed from the state at the call: busy after a wait in which slot or Redis lock never came free, a failed random source, a lost SET NX reply, a failed begin, a taken row lock or a faulty statement, a lost commit reply |
| `Migrations.FilenameRoundTrip` | internal/db/migrate.go:106-118 | every version with any number of leading zeros and any name is read back from its file name |
| `Migrations.FilenameExactly` | internal/db/migrate.go:106-118 | a file name is read as a version and a name if and only if the version is what stands before its first underscore and the name what stands behind it |
| `Migrations.ParseIntExactly` | internal/db/migrate.go:113 | a text is read as a number if and only if it is digits, with a sign or without, that stand for it, and it fits into 64 bits |
| `Migrations.ItoaRoundTrip` | internal/lottery/seal.go:32-35 | the decimal text of every 64-bit integer, negative ones included, is read back as that integer |
| `Migrations.RepositoryFiles` | internal/db/migrate.go:106-118 | the prefixes of the two files of this repository are read as versions 1 and 2 |
| `Migrations.MigrationFiles` | internal/db/migrate.go:51-54 | migration files are exactly the entries that end in .sql and are no directories |
| `Migrations.SelectedKeeps` | internal/db/migrate.go:50-60 | every migration file is kept, once and in order, and nothing else; the whole fails exactly if one of them has a malformed name |
| `Migrations.Discover` | internal/db/migrate.go:50-60 | the loop returns exactly the migration files of the listing, in order, or stops if one has a malformed name |
| `Migrations.SortByVersion` | internal/db/migrate.go:61 | the order is a sorted permutation, strictly ascending for distinct versions |
| `Migrations.Migrator.ApplyAll` | internal/db/migrate.go:64-101 | the loop over the files, cut off anywhere, has the specified effect on schema and ledger |
| `Migrations.Migrator.RunMigrations` | internal/db/migrate.go:26-104 | a malformed name leaves the schema alone; otherwise the sorted files are applied |
| `Migrations.RunAdvances` | internal/db/migrate.go:64-101 | a run from the first k files applied, cut off anywhere, ends with some first k' >= k applied, all of them if it finishes; no failing body is among the new ones, and a run that reports one stands right before it |
| `Migrations.InterruptedRunsLeaveAPrefix` | internal/db/migrate.go:19-25 | after any sequence of interrupted runs the applied bodies are a prefix of the sorted files and the ledger holds exactly their versions, with their names |
| `Migrations.FinishedRunsAgree` | internal/db/migrate.go:19-25 | a finished run ends where an uninterrupted one ends, and running again changes nothing |
| `Migrations.RunFinishes` | internal/db/migrate.go:64-103 | a run that is not cut off finishes or comes to a failing body, and finishes if there is none |
| `Migrations.AllAppliedIffVersionsDiffer` | internal/db/migrate.go:61-73 | a finished run has applied every file if and only if all versions differ |

## Left out

- HTTP handlers, router, JSON, logging, health probes, configuration, authentication, rate limiting, event and booking lists: plumbing that would only add easy members.
- GetByID after Close and Cancel: the model ends with the commit and does not return the event that is read afterwards.
- SHA-256 is a free constructor: equal digests mean equal texts, so statements about integrity are statements about the text.
- Timestamps have microseconds, a four-digit year and the UTC zone, and their fields are not checked against a calendar.
- Ids are unbounded integers; the 32-bit columns of an event are modelled only in Create, where they can be exceeded.
- Service.Create: takes strings as sequences of Unicode characters, because invalid UTF-8 does not survive the decoding of the request.
- An INSERT that waits for another session's uncommitted row with the same key: under the event's row lock no such wait arises.
- Events, bookings and draws are never deleted in `Database`, because the runtime role has no DELETE; deletions by other roles appear in `Triggers`.
- A superuser who disables triggers appears only in Results.TamperingIsDetected.
- A SET NX that fails before it reaches Redis: in the tables of Redis this is a lost reply followed by the expiry of the key.
- BookingService.Deployment.BookWithLock: counts looks at the gate and polls of Redis instead of measuring the wait budget, because time is modelled in Backoff only.
- Migrations.SortByVersion: is an insertion sort in place of the library's sort, because only sortedness and the permutation matter.
- Two migrators at work at the same time.
- The statistics of the load tests and the set_updated_at trigger.
