/** Where the shuffle and the database meet: the ranking in the tables after a
    draw is the Fisher-Yates outcome for the numbers that were drawn, so the
    counts of module Fairness are counts of what is stored. */
module DrawFairness {
  import opened Prelude
  import opened Text
  import opened Tables
  import opened Shuffle
  import opened Results
  import opened Transactions
  import opened Database
  import Fairness
  import Guarantees

  /** A point at which the draw has settled its plan. */
  predicate Planned(at: Point) {
    at.DrawInserting? || at.DrawSealed? || at.DrawMarked?
  }

  /** Transaction `t` writes `plan` for `e`: it is on its way with this plan, or
      it has ended, and if it has committed the tables hold the plan's ranking. */
  ghost predicate Follows(db: Db, t: TxId, e: EventId, plan: Plan) {
    || (t in db.txs && db.txs[t].req == RunDraw(e) && Planned(db.txs[t].at) && db.txs[t].at.plan == plan)
    || (t in db.log && db.log[t].req == RunDraw(e)
        && (Committing(db.log[t].reply) ==>
              e in db.events && db.events[e].row.status == Drawn && DrawnUsers(db.events[e].draws) == plan.users))
  }

  lemma CommitStoresThePlan(req: Request, at: Point, d: EventData)
    requires DataOk(req.event, d) && Current(req, at, d) && at.DrawMarked?
    ensures Written(at, d).row.status == Drawn && DrawnUsers(Written(at, d).draws) == at.plan.users
  {
    assert d.draws + at.rows == at.rows;
    assert DrawnUsers(at.rows) == at.plan.users;
  }

  /** The draw's own steps keep to the plan. */
  lemma OwnStepFollows(db: Db, step: Step, t: TxId, e: EventId, plan: Plan)
    requires Inv(db) && Enabled(db, step) && t in db.txs && Follows(db, t, e, plan)
    requires (step.Statement? || step.Commit? || step.Abort?) && step.tx == t
    ensures Follows(Apply(db, step), t, e, plan)
  {
    var tx := db.txs[t];
    assert TxOk(db, t) && DataOk(e, db.events[e]);
    if step.Statement? {
      NextReplyOk(tx.req, tx.at, db.events[e], db.users, step.input);
    } else if step.Commit? {
      CommitStoresThePlan(tx.req, tx.at, db.events[e]);
    }
  }

  lemma StepFollows(db: Db, step: Step, t: TxId, e: EventId, plan: Plan)
    requires Inv(db) && Enabled(db, step) && Follows(db, t, e, plan)
    ensures Follows(Apply(db, step), t, e, plan)
  {
    if t in db.txs && (step.Statement? || step.Commit? || step.Abort?) && step.tx == t {
      OwnStepFollows(db, step, t, e, plan);
    } else {
      StepIsLater(db, step);
    }
  }

  lemma {:induction false} RunFollows(db: Db, steps: seq<Step>, t: TxId, e: EventId, plan: Plan)
    requires Inv(db) && Runs(db, steps) && Follows(db, t, e, plan)
    ensures Follows(Final(db, steps), t, e, plan)
    decreases |steps|
  {
    if steps != [] {
      StepKeepsInv(db, steps[0]);
      StepFollows(db, steps[0], t, e, plan);
      RunFollows(Apply(db, steps[0]), steps[1..], t, e, plan);
    }
  }

  /** The draw `t` has locked its event and reads the entrants in `order`. */
  ghost predicate Selecting(db: Db, t: TxId, order: seq<Booking>) {
    && t in db.txs && db.txs[t].at.DrawLocked? && db.txs[t].req.event in db.events
    && order != [] && OrderedByBooking(order, db.events[db.txs[t].req.event].bookings)
  }

  /** With the numbers `c` the run `steps` lets the draw commit. */
  ghost predicate Commits(db: Db, t: TxId, order: seq<Booking>, c: seq<nat>, now: Timestamp, steps: seq<Step>) {
    && Enabled(db, Statement(t, Entrants(order, c, now)))
    && Runs(Apply(db, Statement(t, Entrants(order, c, now))), steps)
    && var db' := Final(Apply(db, Statement(t, Entrants(order, c, now))), steps);
       t in db'.log && Committing(db'.log[t].reply)
  }

  /** The ranking in the tables after such a run. */
  ghost function Stored(db: Db, t: TxId, order: seq<Booking>, c: seq<nat>, now: Timestamp, steps: seq<Step>): seq<UserId>
    requires Selecting(db, t, order) && Commits(db, t, order, c, now, steps)
  {
    var db' := Final(Apply(db, Statement(t, Entrants(order, c, now))), steps);
    var e := db.txs[t].req.event;
    if e in db'.events then DrawnUsers(db'.events[e].draws) else []
  }

  /** Whatever other sessions do until the draw commits and afterwards, the
      stored ranking is the shuffle of the entrants for the numbers drawn. */
  lemma StoredRankingIsTheShuffle(db: Db, t: TxId, order: seq<Booking>, c: seq<nat>, now: Timestamp, steps: seq<Step>)
    requires Inv(db) && Selecting(db, t, order) && Commits(db, t, order, c, now, steps)
    ensures IsVector(c, |order|)
    ensures Stored(db, t, order, c, now, steps) == Shuffled(Users(order), c)
  {
    var tx, step := db.txs[t], Statement(t, Entrants(order, c, now));
    var d := db.events[tx.req.event];
    assert TxOk(db, t) && DataOk(tx.req.event, d);
    assert tx.req == RunDraw(tx.req.event);
    var plan := Plan(tx.at.title, tx.at.winnerCount, Shuffled(Users(order), c), now);
    assert Follows(Apply(db, step), t, tx.req.event, plan);
    StepKeepsInv(db, step);
    RunFollows(Apply(db, step), steps, t, tx.req.event, plan);
    RunKeepsInv(Apply(db, step), steps);
  }

  /* ---- A draw can always be completed ---- */

  /** From any point behind the selection the draw's own statements lead to its
      commit, with nobody else taking a step. */
  lemma {:induction false} DrawCanFinish(db: Db, t: TxId) returns (steps: seq<Step>)
    requires Inv(db) && t in db.txs && db.txs[t].at.DrawInserting?
    ensures Runs(db, steps)
    ensures t in Final(db, steps).log && Final(db, steps).log[t].reply.DrawDone?
    decreases |db.txs[t].at.plan.users| - |db.txs[t].at.rows|
  {
    var at := db.txs[t].at;
    var step := Statement(t, if |at.rows| < |at.plan.users| then RowId(0) else Plain);
    assert TxOk(db, t);
    Guarantees.StatementsSucceed(db, t, step.input);
    StepKeepsInv(db, step);
    var rest;
    if |at.rows| < |at.plan.users| {
      rest := DrawCanFinish(Apply(db, step), t);
    } else {
      rest := SealedCanFinish(Apply(db, step), t);
    }
    steps := [step] + rest;
    assert steps[1..] == rest;
  }

  lemma SealedCanFinish(db: Db, t: TxId) returns (steps: seq<Step>)
    requires Inv(db) && t in db.txs && db.txs[t].at.DrawSealed?
    ensures Runs(db, steps)
    ensures t in Final(db, steps).log && Final(db, steps).log[t].reply.DrawDone?
  {
    var step := Statement(t, Plain);
    assert TxOk(db, t);
    Guarantees.StatementsSucceed(db, t, Plain);
    StepKeepsInv(db, step);
    var rest := MarkedCanFinish(Apply(db, step), t);
    steps := [step] + rest;
    assert steps[1..] == rest;
  }

  lemma MarkedCanFinish(db: Db, t: TxId) returns (steps: seq<Step>)
    requires Inv(db) && t in db.txs && db.txs[t].at.DrawMarked?
    ensures Runs(db, steps)
    ensures t in Final(db, steps).log && Final(db, steps).log[t].reply.DrawDone?
  {
    var commit := Commit(t, true);
    assert TxOk(db, t);
    steps := [commit];
    assert steps[1..] == [];
    assert Runs(Apply(db, commit), []) && Final(Apply(db, commit), []) == Apply(db, commit);
  }

  /** Whatever numbers are drawn, the draw can commit. */
  lemma EveryVectorCommits(db: Db, t: TxId, order: seq<Booking>, c: seq<nat>, now: Timestamp) returns (steps: seq<Step>)
    requires Inv(db) && Selecting(db, t, order) && IsVector(c, |order|)
    ensures Commits(db, t, order, c, now, steps)
  {
    var step := Statement(t, Entrants(order, c, now));
    assert TxOk(db, t) && DataOk(db.txs[t].req.event, db.events[db.txs[t].req.event]);
    StepKeepsInv(db, step);
    steps := DrawCanFinish(Apply(db, step), t);
  }

  /* ---- Fairness of what is stored ---- */

  /** Some run on which the numbers are `c` stores `ranking`. */
  ghost predicate CanStore(db: Db, t: TxId, order: seq<Booking>, now: Timestamp, c: seq<nat>, ranking: seq<UserId>)
    requires Selecting(db, t, order)
  {
    exists steps :: Commits(db, t, order, c, now, steps) && Stored(db, t, order, c, now, steps) == ranking
  }

  lemma StoredExactly(db: Db, t: TxId, order: seq<Booking>, now: Timestamp, c: seq<nat>, ranking: seq<UserId>)
    requires Inv(db) && Selecting(db, t, order)
    ensures CanStore(db, t, order, now, c, ranking) <==> IsVector(c, |order|) && Shuffled(Users(order), c) == ranking
  {
    if CanStore(db, t, order, now, c, ranking) {
      var steps :| Commits(db, t, order, c, now, steps) && Stored(db, t, order, c, now, steps) == ranking;
      StoredRankingIsTheShuffle(db, t, order, c, now, steps);
    }
    if IsVector(c, |order|) {
      var steps := EveryVectorCommits(db, t, order, c, now);
      StoredRankingIsTheShuffle(db, t, order, c, now, steps);
    }
  }

  /** The people of a draw are different from each other. */
  lemma EntrantsAreDistinct(db: Db, t: TxId, order: seq<Booking>)
    requires Inv(db) && Selecting(db, t, order)
    ensures Distinct(Users(order))
    ensures multiset(Users(order)) == multiset(Users(db.events[db.txs[t].req.event].bookings))
  {
    var d := db.events[db.txs[t].req.event];
    assert DataOk(db.txs[t].req.event, d);
    SamePeople(order, d.bookings);
    DistinctPermutation(Users(d.bookings), Users(order));
  }

  /** The rankings a draw can store are the orderings of the booked users, and
      each of them comes from exactly one choice vector: with numbers drawn
      uniformly every ranking is equally likely to end up in the tables. */
  lemma EveryRankingFromOneVector(db: Db, t: TxId, order: seq<Booking>, now: Timestamp, ranking: seq<UserId>)
    requires Guarantees.Reachable(db) && Selecting(db, t, order)
    ensures multiset(ranking) == multiset(Users(db.events[db.txs[t].req.event].bookings))
       <==> exists c :: CanStore(db, t, order, now, c, ranking)
    ensures forall c, c' :: CanStore(db, t, order, now, c, ranking) && CanStore(db, t, order, now, c', ranking) ==> c == c'
  {
    Guarantees.ReachableIsOk(db);
    EntrantsAreDistinct(db, t, order);
    EveryPermutationExactlyOnce(Users(order), ranking);
    forall c
      ensures CanStore(db, t, order, now, c, ranking) <==> IsVector(c, |order|) && Shuffled(Users(order), c) == ranking
    {
      StoredExactly(db, t, order, now, c, ranking);
    }
    if multiset(ranking) == multiset(Users(order)) {
      var c :| IsVector(c, |Users(order)|) && Shuffled(Users(order), c) == ranking;
      assert CanStore(db, t, order, now, c, ranking);
    }
  }

  /** The vectors after which `x` is stored among the winners. */
  ghost function WinningVectors(db: Db, t: TxId, order: seq<Booking>, now: Timestamp, x: UserId): set<seq<nat>>
    requires Selecting(db, t, order)
  {
    var k := WinnersAmong(db.events[db.txs[t].req.event].row.winnerCount, |order|);
    set c | c in Fairness.Vectors(|order|)
            && exists ranking :: CanStore(db, t, order, now, c, ranking) && |ranking| == |order| && x in ranking[..k]
  }

  /** Every booked user is stored among the k winners for exactly k * (n-1)! of
      the n! vectors. */
  lemma EveryoneIsStoredAsWinnerEquallyOften(db: Db, t: TxId, order: seq<Booking>, now: Timestamp, x: UserId, n: nat, k: nat)
    requires Guarantees.Reachable(db) && Selecting(db, t, order)
    requires x in Users(db.events[db.txs[t].req.event].bookings)
    requires n == |order| && k == WinnersAmong(db.events[db.txs[t].req.event].row.winnerCount, n)
    ensures |WinningVectors(db, t, order, now, x)| == k * Fairness.Factorial(n - 1)
  {
    Guarantees.ReachableIsOk(db);
    WinningVectorsAreWinning(db, t, order, now, x);
    BookedIsEntrant(db, t, order, x);
    WinningCount(Users(order), n, k, x, WinningVectors(db, t, order, now, x));
  }

  lemma WinningCount(us: seq<UserId>, n: nat, k: nat, x: UserId, vs: set<seq<nat>>)
    requires Distinct(us) && x in us && n == |us| && k <= n && vs == Fairness.Winning(us, k, x)
    ensures |vs| == k * Fairness.Factorial(n - 1)
  {
    Fairness.EveryoneWinsEquallyOften(us, k, x);
  }

  lemma BookedIsEntrant(db: Db, t: TxId, order: seq<Booking>, x: UserId)
    requires Inv(db) && Selecting(db, t, order) && x in Users(db.events[db.txs[t].req.event].bookings)
    ensures Distinct(Users(order)) && x in Users(order)
  {
    EntrantsAreDistinct(db, t, order);
    assert x in multiset(Users(db.events[db.txs[t].req.event].bookings));
    assert x in multiset(Users(order));
  }

  lemma WinningVectorsAreWinning(db: Db, t: TxId, order: seq<Booking>, now: Timestamp, x: UserId)
    requires Inv(db) && Selecting(db, t, order)
    ensures WinningVectors(db, t, order, now, x)
            == Fairness.Winning(Users(order), WinnersAmong(db.events[db.txs[t].req.event].row.winnerCount, |order|), x)
  {
    var k := WinnersAmong(db.events[db.txs[t].req.event].row.winnerCount, |order|);
    Fairness.VectorsAreTheVectors(|order|);
    forall c | c in Fairness.Vectors(|order|)
      ensures c in WinningVectors(db, t, order, now, x) <==> c in Fairness.Winning(Users(order), k, x)
    {
      StoredWinner(db, t, order, now, c, x, k);
    }
  }

  lemma StoredWinner(db: Db, t: TxId, order: seq<Booking>, now: Timestamp, c: seq<nat>, x: UserId, k: nat)
    requires Inv(db) && Selecting(db, t, order) && IsVector(c, |order|) && k <= |order|
    ensures (exists ranking :: CanStore(db, t, order, now, c, ranking) && |ranking| == |order| && x in ranking[..k])
       <==> x in Shuffled(Users(order), c)[..k]
  {
    StoredExactly(db, t, order, now, c, Shuffled(Users(order), c));
    forall ranking | CanStore(db, t, order, now, c, ranking)
      ensures ranking == Shuffled(Users(order), c)
    {
      StoredExactly(db, t, order, now, c, ranking);
    }
  }
}
