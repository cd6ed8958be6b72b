/** What every run of the database system guarantees. */
module Guarantees {
  import opened Prelude
  import opened Tables
  import opened Results
  import opened Transactions
  import opened Database

  ghost predicate Reachable(db: Db) {
    exists steps :: Runs(EMPTY_DB, steps) && Final(EMPTY_DB, steps) == db
  }

  lemma ReachableIsOk(db: Db)
    requires Reachable(db)
    ensures Inv(db)
  {
    var steps :| Runs(EMPTY_DB, steps) && Final(EMPTY_DB, steps) == db;
    EmptyIsOk();
    RunKeepsInv(EMPTY_DB, steps);
  }

  lemma RunStaysReachable(db: Db, steps: seq<Step>)
    requires Reachable(db) && Runs(db, steps)
    ensures Reachable(Final(db, steps))
  {
    var before :| Runs(EMPTY_DB, before) && Final(EMPTY_DB, before) == db;
    RunsAppend(EMPTY_DB, before, steps);
  }

  /* ---- Atomicity ---- */

  /** Any number of transactions interleave statement by statement, and yet each
      has the reply and the effect of one indivisible operation on what is
      committed when it ends; no other event is touched. A transaction that
      fails changes nothing, and one whose commit reply is lost has the effect
      of a success. */
  lemma TransactionsAreAtomic(db: Db, step: Step, t: TxId)
    requires Reachable(db) && Enabled(db, step) && t in db.txs && t in Apply(db, step).log
    requires db.txs[t].req.event in db.events
    ensures ActsAtomically(db, Apply(db, step), t)
  {
    ReachableIsOk(db);
    assert t !in db.log;
    match step
    case Statement(_, input) => RefusalIsAtomic(db, t, input);
    case Commit(_, replied) => SuccessIsAtomic(db, t, replied);
    case _ =>
  }

  /** From `db` to `db'` the transaction `t` has ended, as an indivisible
      operation on its event. */
  ghost predicate ActsAtomically(db: Db, db': Db, t: TxId)
    requires t in db.txs && db.txs[t].req.event in db.events && t in db'.log
  {
    var req := db.txs[t].req;
    && db'.events.Keys == db.events.Keys
    && (forall f :: f in db.events && f != req.event ==> db'.events[f] == db.events[f])
    && db'.log[t].req == req
    && Effected(req, db.users, db.events[req.event], db'.log[t].reply, db'.events[req.event])
  }

  lemma RefusalIsAtomic(db: Db, t: TxId, input: Input)
    requires Inv(db) && t in db.txs && Enabled(db, Statement(t, input)) && t in Apply(db, Statement(t, input)).log
    requires db.txs[t].req.event in db.events && t !in db.log
    ensures ActsAtomically(db, Apply(db, Statement(t, input)), t)
  {
    var tx := db.txs[t];
    assert TxOk(db, t) && DataOk(tx.req.event, db.events[tx.req.event]);
    FinishIsEffected(tx.req, tx.at, db.events[tx.req.event], db.users, input);
  }

  lemma SuccessIsAtomic(db: Db, t: TxId, replied: bool)
    requires Inv(db) && t in db.txs && Enabled(db, Commit(t, replied))
    ensures t in Apply(db, Commit(t, replied)).log && ActsAtomically(db, Apply(db, Commit(t, replied)), t)
  {
    var tx := db.txs[t];
    assert TxOk(db, t) && DataOk(tx.req.event, db.events[tx.req.event]);
    CommitIsEffected(tx.req, tx.at, db.events[tx.req.event], db.users, replied);
  }

  /** A transaction that ended: what it asked for, what it was told, and who had
      an account then. */
  datatype Ending = Ending(tx: TxId, req: Request, reply: Reply, users: set<UserId>)

  /** The transaction on `e` that the step ends, if it ends one. */
  function EndedBy(db: Db, step: Step, e: EventId): Option<Ending>
    requires Enabled(db, step)
  {
    if (step.Statement? || step.Commit? || step.Abort?) && step.tx in Apply(db, step).log && db.txs[step.tx].req.event == e
    then Some(Ending(step.tx, db.txs[step.tx].req, Apply(db, step).log[step.tx].reply, db.users))
    else None
  }

  /** The transactions on `e` that end on a run, in the order in which they end. */
  function Endings(db: Db, steps: seq<Step>, e: EventId): seq<Ending>
    requires Runs(db, steps)
    decreases |steps|
  {
    if steps == [] then []
    else
      var rest := Endings(Apply(db, steps[0]), steps[1..], e);
      match EndedBy(db, steps[0], e)
      case None => rest
      case Some(ending) => [ending] + rest
  }

  /** What one of them makes of the event's data, as an indivisible operation. */
  ghost predicate Performs(ending: Ending, d: EventData, d': EventData) {
    Effected(ending.req, ending.users, d, ending.reply, d')
  }

  /** One after the other they lead from `d` to `d'`. */
  ghost predicate Serial(d: EventData, endings: seq<Ending>, d': EventData)
    decreases |endings|
  {
    if endings == [] then d' == d
    else exists next :: Performs(endings[0], d, next) && Serial(next, endings[1..], d')
  }

  lemma StepIsSerial(db: Db, step: Step, e: EventId)
    requires Reachable(db) && Enabled(db, step) && e in db.events
    ensures e in Apply(db, step).events
    ensures var d, d' := db.events[e], Apply(db, step).events[e];
            var ending := EndedBy(db, step, e);
            if ending.Some? then Performs(ending.value, d, d') else d' == d
  {
    ReachableIsOk(db);
    if (step.Statement? || step.Commit? || step.Abort?) && step.tx in Apply(db, step).log {
      assert TxOk(db, step.tx);
      if db.txs[step.tx].req.event in db.events {
        TransactionsAreAtomic(db, step, step.tx);
      }
    } else if !step.CreateEvent? {
      StepIsQuiet(db, step);
    }
  }

  /** Over any run the data of an event is what the transactions on it make of it
      when they are performed one after the other, in the order in which they
      ended, each as an indivisible operation with the reply it was given. */
  lemma {:induction false} RunsAreSerializable(db: Db, steps: seq<Step>, e: EventId)
    requires Reachable(db) && Runs(db, steps) && e in db.events
    ensures e in Final(db, steps).events
    ensures Serial(db.events[e], Endings(db, steps, e), Final(db, steps).events[e])
    decreases |steps|
  {
    if steps != [] {
      var next := Apply(db, steps[0]);
      StepIsSerial(db, steps[0], e);
      OneStepStaysReachable(db, steps[0]);
      RunsAreSerializable(next, steps[1..], e);
      var ending, rest := EndedBy(db, steps[0], e), Endings(next, steps[1..], e);
      if ending.Some? {
        assert ([ending.value] + rest)[1..] == rest;
        assert Performs(ending.value, db.events[e], next.events[e]);
      }
    }
  }

  lemma OneStepStaysReachable(db: Db, step: Step)
    requires Reachable(db) && Enabled(db, step)
    ensures Reachable(Apply(db, step))
  {
    assert [step][1..] == [] && Runs(Apply(db, step), []);
    assert Final(db, [step]) == Apply(db, step);
    RunStaysReachable(db, [step]);
  }

  /** The entries of one transaction. */
  function Of(endings: seq<Ending>, t: TxId): seq<Ending> {
    if endings == [] then []
    else (if endings[0].tx == t then [endings[0]] else []) + Of(endings[1..], t)
  }

  /** These are all of them: every transaction on `e` that the log has gained is
      there once, with its request and its reply, and nothing else is. */
  lemma {:induction false} EndingsAreTheLog(db: Db, steps: seq<Step>, e: EventId, t: TxId)
    requires Inv(db) && Runs(db, steps)
    ensures var log, mine := Final(db, steps).log, Of(Endings(db, steps, e), t);
            if t in log && t !in db.log && log[t].req.event == e
            then |mine| == 1 && log[t] == Outcome(mine[0].req, mine[0].reply)
            else mine == []
    decreases |steps|
  {
    if steps != [] {
      var next := Apply(db, steps[0]);
      StepKeepsInv(db, steps[0]);
      RunIsLater(next, steps[1..]);
      LogGrows(db, steps[0], e, t);
      EndingsAreTheLog(next, steps[1..], e, t);
      var ending, rest := EndedBy(db, steps[0], e), Endings(next, steps[1..], e);
      if ending.Some? {
        assert ([ending.value] + rest)[1..] == rest;
      }
    }
  }

  lemma LogGrows(db: Db, step: Step, e: EventId, t: TxId)
    requires Inv(db) && Enabled(db, step)
    ensures var log, ending := Apply(db, step).log, EndedBy(db, step, e);
            && (t in db.log ==> t in log && log[t] == db.log[t])
            && (t in log && t !in db.log && log[t].req.event == e <==> ending.Some? && ending.value.tx == t)
            && (ending.Some? && ending.value.tx == t ==> log[t] == Outcome(ending.value.req, ending.value.reply))
  {
  }

  /* ---- Booking ---- */

  /** No interleaving oversells an event or books a user twice. */
  lemma NeverOversold(db: Db, e: EventId)
    requires Reachable(db) && e in db.events
    ensures |db.events[e].bookings| <= db.events[e].row.capacity
    ensures Distinct(Users(db.events[e].bookings))
  {
    ReachableIsOk(db);
    assert DataOk(e, db.events[e]);
  }

  ghost function SeatTakers(db: Db, e: EventId): set<TxId> {
    set t | t in db.log && TookSeat(db, e, t)
  }

  ghost function People(bookings: seq<Booking>): set<UserId> {
    set u | u in Users(bookings)
  }

  lemma PeopleCount(bookings: seq<Booking>)
    requires Distinct(Users(bookings))
    ensures |People(bookings)| == |bookings|
  {
    DistinctSize(Users(bookings));
  }

  /** An injective image of a finite set is as large as the set. */
  lemma {:induction false} UsersOfTakers(log: map<TxId, Outcome>, ts: set<TxId>, us: set<UserId>)
    requires forall t :: t in ts ==> t in log && log[t].req.Book?
    requires forall t, t' :: t in ts && t' in ts && log[t].req.user == log[t'].req.user ==> t == t'
    requires us == set t | t in ts :: log[t].req.user
    ensures |us| == |ts|
    decreases |ts|
  {
    if ts == {} {
      assert us == {};
    } else {
      var t :| t in ts;
      var rest := ts - {t};
      var us' := set x | x in rest :: log[x].req.user;
      UsersOfTakers(log, rest, us');
      assert us == us' + {log[t].req.user};
      assert log[t].req.user !in us';
    }
  }

  /** Conservation: the bookings in the table are as many as the booking
      transactions that returned success plus those whose commit reply was lost. */
  lemma BookingsAreConserved(db: Db, e: EventId)
    requires Reachable(db) && e in db.events
    ensures |db.events[e].bookings| == |SeatTakers(db, e)|
  {
    ReachableIsOk(db);
    assert DataOk(e, db.events[e]) && Accounted(db, e);
    var ts, people := SeatTakers(db, e), People(db.events[e].bookings);
    var us := set t | t in ts :: db.log[t].req.user;
    forall u
      ensures u in us <==> u in people
    {
      if u in us {
        var t :| t in ts && db.log[t].req.user == u;
        assert LogOk(db, t);
      }
      if u in people {
        var t :| TookSeat(db, e, t) && db.log[t].req.user == u;
        assert t in ts;
      }
    }
    assert us == people;
    UsersOfTakers(db.log, ts, us);
    PeopleCount(db.events[e].bookings);
  }

  /* ---- How many of N requests succeed ---- */

  /** A booking request for `e` that ended between `db` and `db'`. */
  ghost predicate Ended(db: Db, db': Db, e: EventId, t: TxId) {
    t in db'.log && t !in db.log && db'.log[t].req.Book? && db'.log[t].req.event == e
  }

  /** Between `db` and `db'` exactly the users in `us`, none of them booked
      before, sent booking requests for `e`, at least one each, and every one of
      these ended in success, AlreadyBooked or EventFull. */
  ghost predicate Contest(db: Db, db': Db, e: EventId, us: set<UserId>) {
    && e in db.events && e in db'.events
    && (forall u :: u in us ==> u !in Users(db.events[e].bookings))
    && (forall u :: u in us ==> exists t :: Ended(db, db', e, t) && db'.log[t].req.user == u)
    && (forall t :: Ended(db, db', e, t) ==>
                      && db'.log[t].req.user in us
                      && (db'.log[t].reply == Booked || db'.log[t].reply == AlreadyBooked || db'.log[t].reply == Full))
  }

  lemma NewPeopleContested(db: Db, db': Db, e: EventId, us: set<UserId>, u: UserId)
    requires Inv(db) && Inv(db') && Later(db, db') && Contest(db, db', e, us)
    requires u in Users(db'.events[e].bookings) && u !in Users(db.events[e].bookings)
    ensures u in us
    ensures exists t :: Ended(db, db', e, t) && db'.log[t].req.user == u && db'.log[t].reply == Booked
  {
    assert Accounted(db', e);
    var t :| TookSeat(db', e, t) && db'.log[t].req.user == u;
    assert t in db.log ==> LogOk(db, t);
    assert Ended(db, db', e, t);
  }

  /** Exactly min(N, seats left) of the N users get a seat. */
  lemma ExactlyTheFreeSeatsAreTaken(db: Db, steps: seq<Step>, e: EventId, us: set<UserId>)
    requires Reachable(db) && Runs(db, steps) && Contest(db, Final(db, steps), e, us)
    ensures var before, after := db.events[e], Final(db, steps).events[e];
            var free := before.row.capacity - |before.bookings|;
            |after.bookings| - |before.bookings| == if |us| <= free then |us| else free
  {
    var db' := Final(db, steps);
    ReachableIsOk(db);
    RunKeepsInv(db, steps);
    RunIsLater(db, steps);
    var b, b' := db.events[e].bookings, db'.events[e].bookings;
    assert DataOk(e, db.events[e]) && DataOk(e, db'.events[e]);
    PeopleCount(b);
    PeopleCount(b');
    PeopleGrow(b, b');
    ContestIsDecided(db, db', e, us);
    SubsetSize(People(b') - People(b), us);
  }

  /** The newcomers are among the contestants; either the event is full or all
      the contestants are in. */
  lemma ContestIsDecided(db: Db, db': Db, e: EventId, us: set<UserId>)
    requires Inv(db) && Inv(db') && Later(db, db') && Contest(db, db', e, us)
    ensures var d, d' := db.events[e], db'.events[e];
            var gained := People(d'.bookings) - People(d.bookings);
            gained <= us && (|d'.bookings| == d'.row.capacity || gained == us)
  {
    var gained := People(db'.events[e].bookings) - People(db.events[e].bookings);
    forall u | u in gained
      ensures u in us
    {
      NewPeopleContested(db, db', e, us, u);
    }
    forall t | Ended(db, db', e, t)
      ensures db'.log[t].req.user in gained || |db'.events[e].bookings| == db'.events[e].row.capacity
    {
      assert LogOk(db', t);
    }
    forall u | u in us
      ensures u in gained || |db'.events[e].bookings| == db'.events[e].row.capacity
    {
      var t :| Ended(db, db', e, t) && db'.log[t].req.user == u;
    }
  }

  lemma PeopleGrow(b: seq<Booking>, b': seq<Booking>)
    requires b <= b'
    ensures People(b) <= People(b')
    ensures |People(b') - People(b)| == |People(b')| - |People(b)|
  {
    forall u | u in People(b)
      ensures u in People(b')
    {
      var i :| 0 <= i < |b| && Users(b)[i] == u;
      assert Users(b')[i] == u;
    }
    assert People(b') == (People(b') - People(b)) + People(b);
  }

  lemma SubsetSize<T>(a: set<T>, b: set<T>)
    requires a <= b
    ensures |a| <= |b|
  {
    assert b == a + (b - a);
  }

  /** Each user sees one success and otherwise only AlreadyBooked, or nothing
      but EventFull. */
  lemma EachUserSeesOneSuccessOrOnlyFull(db: Db, steps: seq<Step>, e: EventId, us: set<UserId>, u: UserId)
    requires Reachable(db) && Runs(db, steps) && Contest(db, Final(db, steps), e, us) && u in us
    ensures var db' := Final(db, steps);
            if u in Users(db'.events[e].bookings) then
              exists t :: Ended(db, db', e, t) && db'.log[t] == Outcome(Book(e, u), Booked)
                          && forall t' :: Ended(db, db', e, t') && db'.log[t'].req.user == u && t' != t
                                          ==> db'.log[t'].reply == AlreadyBooked
            else
              forall t :: Ended(db, db', e, t) && db'.log[t].req.user == u ==> db'.log[t].reply == Full
  {
    var db' := Final(db, steps);
    ReachableIsOk(db);
    RunKeepsInv(db, steps);
    RunIsLater(db, steps);
    assert Accounted(db', e);
    forall t | Ended(db, db', e, t) && db'.log[t].req.user == u
      ensures db'.log[t].reply == Full <==> u !in Users(db'.events[e].bookings)
    {
      assert LogOk(db', t);
    }
    if u in Users(db'.events[e].bookings) {
      NewPeopleContested(db, db', e, us, u);
      var t :| Ended(db, db', e, t) && db'.log[t].req.user == u && db'.log[t].reply == Booked;
      assert db'.log[t] == Outcome(Book(e, u), Booked);
      forall t' | Ended(db, db', e, t') && db'.log[t'].req.user == u && t' != t
        ensures db'.log[t'].reply == AlreadyBooked
      {
        assert TookSeat(db', e, t);
        assert db'.log[t'].reply == Booked ==> TookSeat(db', e, t');
      }
    }
  }

  /* ---- Life cycle ---- */

  /** Over any stretch of any run an event moves only along open, closed, drawn
      or to cancelled, and its capacity, winner count, title and draw time stay
      as created, with 1 <= winner count <= capacity. */
  lemma StatusOnlyMovesForward(db: Db, steps: seq<Step>, e: EventId)
    requires Reachable(db) && Runs(db, steps) && e in db.events
    ensures e in Final(db, steps).events
    ensures var a, b := db.events[e].row, Final(db, steps).events[e].row;
            && StatusReach(a.status, b.status)
            && b == a.(status := b.status)
            && 1 <= b.winnerCount <= b.capacity
  {
    ReachableIsOk(db);
    RunKeepsInv(db, steps);
    RunIsLater(db, steps);
    assert DataOk(e, Final(db, steps).events[e]);
  }

  /** A single step takes at most one edge of the status machine. */
  lemma StatusEdges(db: Db, step: Step, e: EventId)
    requires Reachable(db) && Enabled(db, step) && e in db.events
    ensures e in Apply(db, step).events
    ensures StatusStep(db.events[e].row.status, Apply(db, step).events[e].row.status)
  {
    ReachableIsOk(db);
    if step.Commit? {
      var tx := db.txs[step.tx];
      assert TxOk(db, step.tx);
      CommitEvolves(tx.req, tx.at, db.events[tx.req.event]);
    } else if !step.CreateEvent? {
      StepIsQuiet(db, step);
    }
  }

  /** Once an event has left open its bookings never change again, whatever
      booking transactions were in flight at that moment. */
  lemma BookingsAreFrozen(db: Db, steps: seq<Step>, e: EventId)
    requires Reachable(db) && Runs(db, steps) && e in db.events && db.events[e].row.status != Open
    ensures e in Final(db, steps).events
    ensures Final(db, steps).events[e].bookings == db.events[e].bookings
  {
    ReachableIsOk(db);
    RunIsLater(db, steps);
  }

  /** The people drawn are those who were booked when the event was closed,
      however much happened between closing and drawing. */
  lemma EntrantsAreTheBookingsAtClosing(db: Db, steps: seq<Step>, e: EventId)
    requires Reachable(db) && Runs(db, steps) && e in db.events && db.events[e].row.status == Closed
    requires e in Final(db, steps).events && Final(db, steps).events[e].row.status == Drawn
    ensures multiset(DrawnUsers(Final(db, steps).events[e].draws)) == multiset(Users(db.events[e].bookings))
  {
    BookingsAreFrozen(db, steps, e);
    ReachableIsOk(db);
    RunKeepsInv(db, steps);
    assert DataOk(e, Final(db, steps).events[e]);
  }

  /** If an event's data changed between two states, some transaction on that
      event committed in between: every other outcome left the tables alone. */
  lemma {:induction false} OnlyCommitsChangeTables(db: Db, steps: seq<Step>, e: EventId)
    requires Inv(db) && Runs(db, steps) && e in db.events
    requires forall t :: t in Final(db, steps).log && t !in db.log && Final(db, steps).log[t].req.event == e
                         ==> !Committing(Final(db, steps).log[t].reply)
    ensures e in Final(db, steps).events && Final(db, steps).events[e] == db.events[e]
    decreases |steps|
  {
    if steps != [] {
      var next, last := Apply(db, steps[0]), Final(db, steps);
      StepKeepsInv(db, steps[0]);
      StepIsLater(db, steps[0]);
      RunIsLater(next, steps[1..]);
      StepChangesOnlyByCommit(db, steps[0], e);
      OnlyCommitsChangeTables(next, steps[1..], e);
    }
  }

  lemma StepChangesOnlyByCommit(db: Db, step: Step, e: EventId)
    requires Inv(db) && Enabled(db, step) && e in db.events
    ensures e in Apply(db, step).events
    ensures Apply(db, step).events[e] != db.events[e] ==>
              exists t :: t in Apply(db, step).log && t !in db.log && Apply(db, step).log[t].req.event == e
                          && Committing(Apply(db, step).log[t].reply)
  {
    if step.Commit? {
      var tx := db.txs[step.tx];
      assert TxOk(db, step.tx);
      assert step.tx !in db.log;
      assert Apply(db, step).log[step.tx].req == tx.req;
      assert Committing(Apply(db, step).log[step.tx].reply);
    } else if !step.CreateEvent? {
      StepIsQuiet(db, step);
    }
  }

  /* ---- Draws ---- */

  /** An event is drawn exactly when it has a seal and exactly when it has draw
      rows; then the rows carry ranks 1..n, the booked users once each, total n,
      and the seal covers them. At most one RunDraw ever succeeds, and what it
      returned is what is stored. */
  lemma DrawsAreCompleteAndUnique(db: Db, e: EventId)
    requires Reachable(db) && e in db.events
    ensures var d := db.events[e];
            && (d.row.status == Drawn <==> d.seal.Some?) && (d.seal.Some? <==> d.draws != [])
            && (d.row.status == Drawn ==> CompleteDraw(e, d))
            && (d.row.status == Drawn <==> exists t :: Drew(db, e, t))
    ensures forall t, t' :: Drew(db, e, t) && Drew(db, e, t') ==> t == t'
    ensures forall t :: t in db.log && db.log[t].req == RunDraw(e) && db.log[t].reply.DrawDone? ==>
                          var d := db.events[e];
                          d.seal.Some? && db.log[t].reply.result == Announced(e, d.row.title, d.row.winnerCount, d.draws, d.seal.value)
  {
    ReachableIsOk(db);
    var d := db.events[e];
    assert DataOk(e, d) && Accounted(db, e);
    if d.row.status == Drawn {
      assert |DrawnUsers(d.draws)| == |multiset(DrawnUsers(d.draws))| == |multiset(Users(d.bookings))| == |d.bookings|;
    }
    forall t | t in db.log
      ensures LogOk(db, t)
    {
    }
    if t :| Drew(db, e, t) {
      assert LogOk(db, t);
    }
  }

  /** GetResults reads the event, its rows and its seal at three moments, with
      any commits in between. Once the first read finds the event drawn, the
      result is the complete announcement with integrity "verified", and it is
      the same for every later reader. */
  lemma ResultsAreStable(db1: Db, then2: seq<Step>, then3: seq<Step>, e: EventId, rows: seq<DrawRow>)
    requires Reachable(db1) && Runs(db1, then2) && Runs(Final(db1, then2), then3)
    requires e in db1.events && db1.events[e].row.status == Drawn
    requires e in Final(db1, then2).events && OrderedByRank(rows, Final(db1, then2).events[e].draws)
    ensures var db3 := Final(Final(db1, then2), then3);
            var d := db1.events[e];
            && e in db3.events && d.seal.Some?
            && Reading(e, Some(d.row), rows, db3.events[e].seal)
               == Some(Announced(e, d.row.title, d.row.winnerCount, d.draws, d.seal.value))
            && db3.events[e] == d
  {
    ReachableIsOk(db1);
    var db2 := Final(db1, then2);
    RunIsLater(db1, then2);
    RunStaysReachable(db1, then2);
    ReachableIsOk(db2);
    RunIsLater(db2, then3);
    assert DataOk(e, db1.events[e]);
    DrawnReadsBack(e, db1.events[e], rows);
  }

  /** In particular every reader gets what the one successful RunDraw returned. */
  lemma ReadersSeeWhatTheDrawReturned(db1: Db, then2: seq<Step>, then3: seq<Step>, e: EventId, rows: seq<DrawRow>, t: TxId)
    requires Reachable(db1) && Runs(db1, then2) && Runs(Final(db1, then2), then3)
    requires e in db1.events && t in db1.log && db1.log[t].req == RunDraw(e) && db1.log[t].reply.DrawDone?
    requires e in Final(db1, then2).events && OrderedByRank(rows, Final(db1, then2).events[e].draws)
    ensures var db3 := Final(Final(db1, then2), then3);
            && e in db3.events
            && Reading(e, Some(db1.events[e].row), rows, db3.events[e].seal) == Some(db1.log[t].reply.result)
  {
    DrawsAreCompleteAndUnique(db1, e);
    assert Drew(db1, e, t);
    ResultsAreStable(db1, then2, then3, e, rows);
  }

  /* ---- Backstops ---- */

  lemma StatementsSucceed(db: Db, t: TxId, input: Input)
    requires Inv(db) && t in db.txs && Enabled(db, Statement(t, input)) && db.txs[t].at != Begun
    ensures var tx := db.txs[t];
            var m := Next(tx.req, tx.at, db.events[tx.req.event], db.users, input).value;
            && (tx.at.BookRoom? ==> m != Finish(AlreadyBooked))
            && m != Finish(Failed(false))
  {
    var tx := db.txs[t];
    var d := db.events[tx.req.event];
    assert TxOk(db, t) && DataOk(tx.req.event, d);
    if tx.at.DrawInserting? && |tx.at.rows| < |tx.at.plan.users| {
      var u := tx.at.plan.users[|tx.at.rows|];
      assert u in multiset(tx.at.plan.users);
      assert u in multiset(Users(d.bookings));
      assert u in db.users;
      assert d.draws + tx.at.rows == tx.at.rows;
    }
  }

  /** The constraints and triggers behind the services' own checks are never
      what stops a transaction: no booking hits UNIQUE (event_id, user_id), no
      status update hits the drawn-event trigger, no draw row or seal collides
      with an existing one, and no draw row names an unknown user. */
  lemma BackstopsNeverFire(db: Db, t: TxId, input: Input)
    requires Reachable(db) && t in db.txs && Enabled(db, Statement(t, input))
    requires db.txs[t].at != Begun
    ensures var tx := db.txs[t];
            var m := Next(tx.req, tx.at, db.events[tx.req.event], db.users, input).value;
            && (tx.at.BookRoom? ==> m != Finish(AlreadyBooked))
            && m != Finish(Failed(false))
  {
    ReachableIsOk(db);
    StatementsSucceed(db, t, input);
  }
}
