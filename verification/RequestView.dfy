/** A cluster run seen from one request: what others can do to it, which of its
    own steps are always possible, and why it can end without a booking. */
module RequestView {
  import opened Prelude
  import opened Tables
  import opened Transactions
  import opened Cluster
  import D = Database
  import G = Gates
  import R = RedisLock
  import S = Service

  /** Not a step of request `me` itself. */
  predicate Foreign(step: Step, me: ReqId) {
    !ByRequest(step) || step.r != me
  }

  /** Where the gates have the request. */
  function Place(s: State, r: ReqId): Option<G.Place>
    requires r in s.reqs
  {
    var g := GatesOf(s, s.reqs[r].replica);
    if r in g.clients then Some(g.clients[r].place) else None
  }

  /** What others can do to a request: crash its replica, or wake it up. */
  ghost predicate Undisturbed(s: State, s': State, me: ReqId)
    requires me in s.reqs
  {
    && me in s'.reqs
    && (s'.reqs[me] == s.reqs[me] || s'.reqs[me] == s.reqs[me].(stage := Crashed))
    && (s'.reqs[me].stage == AtGate ==> Place(s', me).Some? && Place(s, me).Some?
                                        && (Place(s', me) == Place(s, me)
                                            || (Place(s, me) == Some(G.Waiting) && Place(s', me) == Some(G.Owner))))
    && (s'.reqs[me].stage == InTx ==> SameTx(s.db, s'.db, me))
  }

  /** The transaction is where it was, and if it holds its row lock, so is the
      data of its event. */
  ghost predicate SameTx(db: D.Db, db': D.Db, t: ReqId) {
    && (t in db'.txs <==> t in db.txs) && (t in db.txs ==> db'.txs[t] == db.txs[t])
    && (t in db'.log <==> t in db.log) && db.users <= db'.users
    && (t in db.txs && db.txs[t].at != Begun && db.txs[t].req.event in db.events ==>
          var e := db.txs[t].req.event;
          e in db'.events && db'.events[e] == db.events[e])
  }

  lemma ForeignStepIsUndisturbing(s: State, step: Step, me: ReqId)
    requires Enabled(s, step) && Foreign(step, me) && me in s.reqs
    requires Linked(s, me) && ReplicaOk(s, s.reqs[me].replica) && D.Inv(s.db)
    ensures Undisturbed(s, Apply(s, step), me)
  {
    if !(step.Crash? && step.replica == s.reqs[me].replica) {
      ElsewhereKeepsRequest(s, step, me);
      ForeignStepAtGate(s, step, me);
      ForeignStepInTx(s, step, me);
    }
  }

  lemma ForeignStepAtGate(s: State, step: Step, me: ReqId)
    requires Enabled(s, step) && me in s.reqs && Elsewhere(s, step, me)
    requires GateLink(s, me) && ReplicaOk(s, s.reqs[me].replica)
    ensures me in Apply(s, step).reqs
    ensures s.reqs[me].stage == AtGate ==>
              var s' := Apply(s, step);
              Place(s', me).Some? && Place(s, me).Some?
              && (Place(s', me) == Place(s, me) || (Place(s, me) == Some(G.Waiting) && Place(s', me) == Some(G.Owner)))
  {
    ElsewhereKeepsRequest(s, step, me);
    var gs := GateStep(s, step);
    if gs.Some? && gs.value.0 == s.reqs[me].replica {
      GateFrame(GatesOf(s, gs.value.0), gs.value.1, me);
    } else {
      assert GatesOf(Apply(s, step), s.reqs[me].replica) == GatesOf(s, s.reqs[me].replica);
    }
  }

  lemma ForeignStepInTx(s: State, step: Step, me: ReqId)
    requires Enabled(s, step) && me in s.reqs && Elsewhere(s, step, me) && D.Inv(s.db)
    ensures s.reqs[me].stage == InTx ==> SameTx(s.db, Apply(s, step).db, me)
  {
    if s.reqs[me].stage == InTx && DbStep(s, step).Some? {
      var dbStep := DbStep(s, step).value;
      DbFrame(s.db, dbStep, me);
      UsersStay(s.db, dbStep);
      S.ForeignStepIsIsolated(s.db, dbStep, me);
    }
  }

  lemma UsersStay(db: D.Db, dbStep: D.Step)
    requires D.Enabled(db, dbStep)
    ensures db.users <= D.Apply(db, dbStep).users
  {
  }

  /** Who is found crashed was on a replica that crashed. */
  lemma {:induction false} CrashedByACrash(s: State, steps: seq<Step>, r: ReqId)
    requires Runs(s, steps) && r in s.reqs && s.reqs[r].stage != Crashed
    requires r in Final(s, steps).reqs && Final(s, steps).reqs[r].stage == Crashed
    ensures Crash(s.reqs[r].replica) in steps
    decreases |steps|
  {
    var s' := Apply(s, steps[0]);
    if s'.reqs[r].stage != Crashed {
      CrashedByACrash(s', steps[1..], r);
    }
  }

  /* ---- Steps that are always possible ---- */

  /** The deferred calls are always possible: releasing the Redis lock, receiving
      from the gate's channel and dropping the reference never block. */
  lemma DeferredCallsNeverBlock(s: State, r: ReqId, end: R.ReleaseEnd)
    requires r in s.reqs && Linked(s, r) && ReplicaOk(s, s.reqs[r].replica)
    ensures s.reqs[r].stage.Releasing? ==> Enabled(s, Unlock(r, end))
    ensures s.reqs[r].stage.Leaving? ==> Enabled(s, LeaveGate(r))
    ensures s.reqs[r].stage.Exiting? ==> Enabled(s, DropGate(r))
  {
    UnlockNeverBlocks(s, r, end);
    LeavingNeverBlocks(s, r);
  }

  lemma UnlockNeverBlocks(s: State, r: ReqId, end: R.ReleaseEnd)
    requires r in s.reqs && RedisLink(s, r)
    ensures s.reqs[r].stage.Releasing? ==> Enabled(s, Unlock(r, end))
  {
  }

  lemma LeavingNeverBlocks(s: State, r: ReqId)
    requires r in s.reqs && GateLink(s, r) && ReplicaOk(s, s.reqs[r].replica)
    ensures s.reqs[r].stage.Leaving? ==> Enabled(s, LeaveGate(r))
    ensures s.reqs[r].stage.Exiting? ==> Enabled(s, DropGate(r))
  {
    var g := GatesOf(s, s.reqs[r].replica);
    assert r in g.clients ==> G.ClientOk(g, r);
  }

  /** So are the steps of the way there. */
  lemma GateStepsNeverBlock(s: State, r: ReqId)
    requires r in s.reqs && Linked(s, r) && ReplicaOk(s, s.reqs[r].replica) && s.reqs[r].stage == AtGate
    ensures Place(s, r) == Some(G.Arrived) ==> Enabled(s, Send(r))
    ensures Place(s, r) == Some(G.Waiting) ==> Enabled(s, GateTimeout(r))
    ensures Place(s, r) == Some(G.Owner) ==> Enabled(s, NoToken(r))
    ensures Place(s, r) == Some(G.Owner) ==> forall token :: token !in s.redis.used ==> Enabled(s, NewToken(r, token))
  {
    var g := GatesOf(s, s.reqs[r].replica);
    assert r in g.clients ==> G.ClientOk(g, r);
  }

  lemma LockStepsNeverBlock(s: State, r: ReqId, replied: bool)
    requires r in s.reqs && RedisLink(s, r) && DbLink(s, r)
    ensures s.reqs[r].stage == AtRedis ==> Enabled(s, SetNx(r, replied)) && Enabled(s, LockTimeout(r))
    ensures s.reqs[r].stage == Locked ==> Enabled(s, BeginTx(r)) && Enabled(s, NoTx(r))
    ensures s.reqs[r].stage == InTx ==> Enabled(s, TxStep(r, D.Abort(r)))
  {
  }

  lemma GateSend(s: State, r: ReqId)
    requires r in s.reqs && ReplicaOk(s, s.reqs[r].replica) && Enabled(s, Send(r))
    ensures var s' := Apply(s, Send(r));
            r in s'.reqs && s'.reqs[r].stage == AtGate && (Place(s', r) == Some(G.Waiting) || Place(s', r) == Some(G.Owner))
  {
    GateOwn(GatesOf(s, s.reqs[r].replica), G.Send(r));
  }

  lemma ArrivalNeverBlocks(s: State, r: ReqId, p: ReplicaId, e: EventId, u: UserId, unused: G.Addr)
    requires Inv(s) && r !in s.reqs && r !in s.db.txs && r !in s.db.log
    requires r !in GatesOf(s, p).seen && unused !in GatesOf(s, p).table.heap
    ensures Enabled(s, Arrive(r, p, e, u, unused))
    ensures e > 0 && u > 0 ==> var s' := Apply(s, Arrive(r, p, e, u, unused));
                               r in s'.reqs && Place(s', r) == Some(G.Arrived)
  {
    var g := GatesOf(s, p);
    assert ReplicaOk(s, p);
    assert e in g.table.m ==> G.GateOk(g, e);
  }

  ghost function Above(xs: set<nat>): (n: nat)
    ensures n !in xs && forall x :: x in xs ==> x < n
  {
    if xs == {} then 0
    else
      var x :| x in xs;
      var n := Above(xs - {x});
      assert forall y :: y in xs ==> y == x || y in xs - {x};
      if x < n then n else x + 1
  }

  /* ---- The statements of createBooking ---- */

  /** What the k-th statement needs: only the INSERT reads the clock. */
  function InputAt(k: nat, now: int): Input {
    if k == 3 then Clock(now) else Plain
  }

  /** The point after `k` statements: lock, duplicate, count, insert. */
  predicate Reached(at: Point, k: nat) {
    match k
    case 0 => at == Begun
    case 1 => at.BookLocked?
    case 2 => at.BookNew?
    case 3 => at.BookRoom?
    case 4 => at.BookInserted?
    case _ => false
  }

  /** What statement `k` finds when it ends the transaction with an answer. */
  ghost predicate Decides(k: nat, d: EventData, u: UserId, users: set<UserId>) {
    match k
    case 1 => u in Users(d.bookings) || d.row.status != Open
    case 2 => |d.bookings| >= d.row.capacity
    case 3 => u !in users
    case _ => false
  }

  /** Once the row lock is free, or held by `t`, its next statement succeeds or
      answers the request as the atomic booking does; it does not fail. */
  lemma BookStatement(db: D.Db, t: ReqId, k: nat, now: int)
    requires D.Inv(db) && t in db.txs && t !in db.log && db.txs[t].req.Book? && Reached(db.txs[t].at, k) && k < 4
    requires k == 0 ==> db.txs[t].req.event !in db.locks
    ensures var step := D.Statement(t, InputAt(k, now));
            && D.Enabled(db, step)
            && var db' := D.Apply(db, step);
               && db'.events == db.events && db'.users == db.users
               && (t in db'.log ==> StatementAnswers(db, t, k, db'.log[t].reply))
               && (t !in db'.log ==> t in db'.txs && db'.txs[t].req == db.txs[t].req && Reached(db'.txs[t].at, k + 1)
                                     && db.txs[t].req.event in db.events)
  {
    assert D.TxOk(db, t);
    var tx := db.txs[t];
    var e := tx.req.event;
    if e in db.events {
      assert DataOk(e, db.events[e]);
      var m := Next(tx.req, tx.at, db.events[e], db.users, InputAt(k, now));
      assert m.Some?;
      if m.value.Finish? {
        FinishIsEffected(tx.req, tx.at, db.events[e], db.users, InputAt(k, now));
      }
    }
  }

  ghost predicate StatementAnswers(db: D.Db, t: ReqId, k: nat, reply: Reply)
    requires t in db.txs && db.txs[t].req.Book?
  {
    var req := db.txs[t].req;
    && !reply.Failed? && !Committing(reply)
    && if req.event in db.events then
         k >= 1 && Decides(k, db.events[req.event], req.user, db.users)
         && Effected(req, db.users, db.events[req.event], reply, db.events[req.event])
       else k == 0 && reply == NotFound
  }

  lemma BookCommit(db: D.Db, t: ReqId, committed: bool)
    requires D.Inv(db) && t in db.txs && db.txs[t].req.Book? && Reached(db.txs[t].at, 4)
    ensures db.txs[t].req.event in db.events
    ensures var step, req := D.Commit(t, committed), db.txs[t].req;
            && D.Enabled(db, step)
            && var db' := D.Apply(db, step);
               && t in db'.log && db'.users == db.users && req.event in db'.events
               && db'.log[t].reply == (if committed then Booked else Failed(true))
               && Effected(req, db.users, db.events[req.event], db'.log[t].reply, db'.events[req.event])
  {
    var tx := db.txs[t];
    assert D.TxOk(db, t) && DataOk(tx.req.event, db.events[tx.req.event]);
    CommitIsEffected(tx.req, tx.at, db.events[tx.req.event], db.users, committed);
  }

  lemma TxStepEffect(s: State, r: ReqId, dbStep: D.Step)
    requires Enabled(s, TxStep(r, dbStep))
    ensures var s' := Apply(s, TxStep(r, dbStep));
            && s'.db == D.Apply(s.db, dbStep) && r in s'.reqs
            && s'.reqs[r] == s.reqs[r].(stage := if r in s'.db.log then Releasing(FromTx(s'.db.log[r].reply)) else InTx)
  {
  }

  lemma BeginEffect(s: State, r: ReqId)
    requires Enabled(s, BeginTx(r)) && r !in s.db.log
    ensures var s' := Apply(s, BeginTx(r));
            && r in s'.reqs && s'.reqs[r] == s.reqs[r].(stage := InTx)
            && r in s'.db.txs && s'.db.txs[r] == D.Tx(Book(s.reqs[r].event, s.reqs[r].user), Begun) && r !in s'.db.log
  {
  }

  lemma NewTokenEffect(s: State, r: ReqId, token: R.Token)
    requires Enabled(s, NewToken(r, token))
    ensures r in Apply(s, NewToken(r, token)).reqs && Apply(s, NewToken(r, token)).reqs[r].stage == AtRedis
  {
  }

  lemma SetNxEffect(s: State, r: ReqId, replied: bool)
    requires Enabled(s, SetNx(r, replied))
    ensures r in Apply(s, SetNx(r, replied)).reqs
    ensures var stage := Apply(s, SetNx(r, replied)).reqs[r].stage;
            stage == AtRedis || stage == Locked || (stage == Leaving(LockFailed) && !replied)
  {
  }

  /* ---- The surroundings of a request ---- */

  /** What happens around a request: the steps of others between its own in each
      of its phases, how often it looks at the gate and polls Redis before its
      wait budget is spent, and which calls fail. `fault(k)` is the failure of
      statement k of its transaction, `committed` that the reply to COMMIT
      arrives. */
  datatype Surroundings = Surroundings(
    atGate: nat -> seq<Step>, looks: nat, tokenFails: bool,
    atRedis: nat -> seq<Step>, polls: nat, replied: nat -> bool,
    beginFails: bool, inTx: nat -> seq<Step>, fault: nat -> bool, now: int, committed: bool,
    leaving: nat -> seq<Step>, unlock: R.ReleaseEnd)

  function Try(s: State, step: Step): State {
    if Enabled(s, step) then Apply(s, step) else s
  }

  /** Others take those of `steps` that are theirs and that they can take. */
  function Interleaved(s: State, steps: seq<Step>, me: ReqId): State {
    if steps == [] then s
    else
      var before, last := Interleaved(s, steps[..|steps| - 1], me), steps[|steps| - 1];
      if Foreign(last, me) then Try(before, last) else before
  }

  /** If they are all theirs and can all be taken, that is the run. */
  lemma {:induction false} InterleavedIsTheRun(s: State, steps: seq<Step>, me: ReqId)
    requires Runs(s, steps) && forall i :: 0 <= i < |steps| ==> Foreign(steps[i], me)
    ensures Interleaved(s, steps, me) == Final(s, steps)
    decreases |steps|
  {
    if steps != [] {
      var front, last := steps[..|steps| - 1], steps[|steps| - 1];
      RunsSplit(s, front, steps);
      assert steps[|front|..] == [last] && [last][1..] == [];
      InterleavedIsTheRun(s, front, me);
    }
  }

  /** `k` looks at the gate. */
  function Looked(s: State, me: ReqId, env: Surroundings, k: nat): State {
    if k == 0 then s else Interleaved(Looked(s, me, env, k - 1), env.atGate(k - 1), me)
  }

  /** `k` polls of Redis. */
  function Polled(s: State, me: ReqId, env: Surroundings, k: nat): State {
    if k == 0 then s
    else Interleaved(Try(Polled(s, me, env, k - 1), SetNx(me, env.replied(k - 1))), env.atRedis(k - 1), me)
  }

  ghost predicate FromEnv(step: Step, env: Surroundings) {
    || (exists k :: 0 <= k < env.looks && step in env.atGate(k))
    || (exists k :: 0 <= k < env.polls && step in env.atRedis(k))
    || (exists k :: 0 <= k <= 4 && step in env.inTx(k))
    || (exists k :: 0 <= k < 3 && step in env.leaving(k))
  }

  /** A step of the request itself takes what its surroundings give: whether the
      random source, BEGIN and the calls to Redis and PostgreSQL get through. */
  ghost predicate Allowed(step: Step, env: Surroundings) {
    match step
    case NoToken(_) => env.tokenFails
    case NewToken(_, _) => !env.tokenFails
    case SetNx(_, replied) => exists k :: 0 <= k < env.polls && replied == env.replied(k)
    case NoTx(_) => env.beginFails
    case BeginTx(_) => !env.beginFails
    case TxStep(_, dbStep) =>
      && (dbStep.Statement? ==> dbStep.input == Plain || dbStep.input == Clock(env.now))
      && (dbStep.Commit? ==> dbStep.replied == env.committed)
    case Unlock(_, end) => end == env.unlock
    case _ => true
  }

  ghost predicate Fits(step: Step, me: ReqId, env: Surroundings) {
    if Foreign(step, me) then FromEnv(step, env) else Allowed(step, env)
  }

  /** Since `before` only the request and its surroundings have taken steps. */
  ghost predicate Grew(before: seq<Step>, history: seq<Step>, me: ReqId, env: Surroundings) {
    before <= history && forall i :: |before| <= i < |history| ==> Fits(history[i], me, env)
  }

  lemma ReleaseFromEnv(before: seq<Step>, history: seq<Step>, me: ReqId, env: Surroundings)
    requires Grew(before, history, me, env) && env.unlock != R.NotApplied
    ensures Unlock(me, R.NotApplied) !in history[|before|..]
  {
    forall i | 0 <= i < |history[|before|..]|
      ensures history[|before|..][i] != Unlock(me, R.NotApplied)
    {
      assert Fits(history[|before| + i], me, env);
    }
  }

  lemma CrashFromEnv(before: seq<Step>, history: seq<Step>, me: ReqId, env: Surroundings, p: ReplicaId)
    requires Grew(before, history, me, env) && Crash(p) in history[|before|..]
    ensures FromEnv(Crash(p), env)
  {
    var i :| 0 <= i < |history[|before|..]| && history[|before|..][i] == Crash(p);
    assert Fits(history[|before| + i], me, env);
  }

  /* ---- Why a request ends as it does ---- */

  /** From `s`, where the request has sent, it is still blocked at the gate when
      its wait budget is spent. */
  ghost predicate StillWaiting(s: State, me: ReqId, env: Surroundings) {
    var w := Looked(s, me, env, env.looks);
    me in w.reqs && w.reqs[me].stage == AtGate && Place(w, me) == Some(G.Waiting)
  }

  ghost predicate Owns(s: State, me: ReqId) {
    me in s.reqs && s.reqs[me].stage == AtGate && Place(s, me) == Some(G.Owner)
  }

  /** The k-th look is the first that finds it owning the slot. */
  ghost predicate OwnsFirst(s: State, me: ReqId, env: Surroundings, k: nat) {
    k <= env.looks && Owns(Looked(s, me, env, k), me) && NotYet(s, me, env, k)
  }

  /** None of the first `k` looks finds it owning the slot. */
  ghost predicate NotYet(s: State, me: ReqId, env: Surroundings, k: nat) {
    k == 0 || (NotYet(s, me, env, k - 1) && !Owns(Looked(s, me, env, k - 1), me))
  }

  /** From `s`, where the request has its token, no poll finds the Redis lock free
      until the wait budget is spent. */
  ghost predicate StillPolling(s: State, me: ReqId, env: Surroundings) {
    var w := Polled(s, me, env, env.polls);
    me in w.reqs && w.reqs[me].stage == AtRedis
  }

  /** The k-th poll is the one that ends the polling: it gets the lock, or its
      reply is lost. */
  ghost predicate PollEnds(s: State, me: ReqId, env: Surroundings, k: nat) {
    && k < env.polls
    && var w, s' := Polled(s, me, env, k), AfterPoll(s, me, env, k);
       && me in w.reqs && w.reqs[me].stage == AtRedis && me in s'.reqs
       && s'.reqs[me].stage == if env.replied(k) then Locked else Leaving(LockFailed)
  }

  function AfterPoll(s: State, me: ReqId, env: Surroundings, k: nat): State {
    Try(Polled(s, me, env, k), SetNx(me, env.replied(k)))
  }

  /** The database when the wait for the row lock is over. */
  function AtRow(s: State, me: ReqId, env: Surroundings): D.Db
    requires Enabled(s, BeginTx(me))
  {
    Interleaved(Apply(s, BeginTx(me)), env.inTx(0), me).db
  }

  /** What the statements of createBooking meet. */
  function Faults(env: Surroundings): S.Surroundings {
    S.Surroundings(k => [], env.fault, env.now, env.committed)
  }

  /** The reply of the transaction that found `d` under its row lock: it fails
      exactly by a fault of a statement it comes to, reports a lost commit exactly
      if the reply is lost, and otherwise is the reply of the atomic booking. */
  ghost predicate TxSettled(reply: Reply, d: EventData, e: EventId, u: UserId, users: set<UserId>, env: Surroundings) {
    && (reply == Failed(false) <==> S.BookFaults(Faults(env), d, u, users))
    && (Committing(reply) ==> (reply == Failed(true) <==> !env.committed))
    && exists d' :: Effected(Book(e, u), users, d, reply, d')
  }

  ghost predicate TxAnswered(reply: Reply, seen: D.Db, e: EventId, u: UserId, users: set<UserId>, env: Surroundings) {
    && seen.users <= users
    && if env.fault(0) || e in seen.locks then reply == Failed(false)
       else if e !in seen.events then reply == NotFound
       else TxSettled(reply, seen.events[e], e, u, users, env)
  }

  /** Why a request ends with this answer: from `s`, where it has the Redis lock, */
  ghost predicate ExplainedByTx(answer: Answer, s: State, me: ReqId, env: Surroundings) {
    if env.beginFails then answer == BeginFailed
    else
      && Enabled(s, BeginTx(me)) && answer.FromTx?
      && exists users :: TxAnswered(answer.reply, AtRow(s, me, env), s.reqs[me].event, s.reqs[me].user, users, env)
  }

  lemma RowDecides(answer: Answer, s: State, me: ReqId, env: Surroundings, seen: D.Db, users: set<UserId>)
    requires Enabled(s, BeginTx(me)) && !env.beginFails && answer.FromTx? && seen == AtRow(s, me, env)
    requires TxAnswered(answer.reply, seen, s.reqs[me].event, s.reqs[me].user, users, env)
    ensures ExplainedByTx(answer, s, me, env)
  {
  }

  /** where it has its token, */
  ghost predicate ExplainedByPolls(answer: Answer, s: State, me: ReqId, env: Surroundings) {
    || (answer == Busy && StillPolling(s, me, env))
    || exists k :: PollEnds(s, me, env, k)
                   && if env.replied(k) then ExplainedByTx(answer, AfterPoll(s, me, env, k), me, env)
                      else answer == LockFailed
  }

  /** where it owns the slot, */
  ghost predicate ExplainedByLock(answer: Answer, s: State, me: ReqId, env: Surroundings) {
    if env.tokenFails then answer == TokenFailed
    else exists token :: Enabled(s, NewToken(me, token)) && ExplainedByPolls(answer, Apply(s, NewToken(me, token)), me, env)
  }

  /** where it is about to send, */
  ghost predicate ExplainedByGate(answer: Answer, s: State, me: ReqId, env: Surroundings) {
    Enabled(s, Send(me)) &&
    var s' := Apply(s, Send(me));
    || (answer == Busy && StillWaiting(s', me, env))
    || exists k :: OwnsFirst(s', me, env, k) && ExplainedByLock(answer, Looked(s', me, env, k), me, env)
  }

  /** and from the call of BookWithLock in `s`. */
  ghost predicate Explained(answer: Answer, s: State, me: ReqId, p: ReplicaId, e: EventId, u: UserId, env: Surroundings) {
    exists gate :: Enabled(s, Arrive(me, p, e, u, gate))
                   && ExplainedByGate(answer, Apply(s, Arrive(me, p, e, u, gate)), me, env)
  }

  /* ---- Faults and answers of a booking ---- */

  /** A fault of statement `k`, which the transaction has come to. */
  lemma FaultStops(k: nat, at: Point, d: EventData, e: EventId, u: UserId, users: set<UserId>, env: Surroundings)
    requires 1 <= k <= 4 && Reached(at, k) && Current(Book(e, u), at, d) && env.fault(k)
    requires k == 4 ==> u in users
    ensures S.BookFaults(Faults(env), d, u, users) && TxSettled(Failed(false), d, e, u, users, env)
  {
    assert Effected(Book(e, u), users, d, Failed(false), d);
  }

  lemma FaultStopsTx(db: D.Db, t: ReqId, k: nat, d: EventData, e: EventId, u: UserId, env: Surroundings)
    requires D.Inv(db) && t in db.txs && db.txs[t].req == Book(e, u) && Reached(db.txs[t].at, k)
    requires 1 <= k <= 4 && e in db.events && db.events[e] == d && env.fault(k)
    ensures TxSettled(Failed(false), d, e, u, db.users, env)
  {
    assert D.TxOk(db, t);
    FaultStops(k, db.txs[t].at, d, e, u, db.users, env);
  }

  /** None of the statements 1 to `k` fails. */
  ghost predicate Clear(env: Surroundings, k: nat) {
    k == 0 || (Clear(env, k - 1) && !env.fault(k))
  }

  /** An answer of statement `k`, before which nothing failed. */
  lemma AnswerSettles(k: nat, d: EventData, e: EventId, u: UserId, users: set<UserId>, env: Surroundings, reply: Reply)
    requires 1 <= k <= 3 && Decides(k, d, u, users) && Clear(env, k)
    requires !reply.Failed? && !Committing(reply) && Effected(Book(e, u), users, d, reply, d)
    ensures TxSettled(reply, d, e, u, users, env)
  {
    assert k == 2 ==> Clear(env, 1);
    assert k == 3 ==> Clear(env, 2) && Clear(env, 1);
  }

  lemma CommitSettles(d: EventData, d': EventData, e: EventId, u: UserId, users: set<UserId>, env: Surroundings)
    requires Clear(env, 4)
    requires Effected(Book(e, u), users, d, if env.committed then Booked else Failed(true), d')
    ensures TxSettled(if env.committed then Booked else Failed(true), d, e, u, users, env)
  {
    assert Clear(env, 3) && Clear(env, 2) && Clear(env, 1);
  }
}
