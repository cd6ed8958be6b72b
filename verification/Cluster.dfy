/** The whole booking protocol: requests on any number of replicas run
    BookWithLock (internal/booking/service.go) step by step over the gates of
    their replica, the shared Redis and the shared database, while replicas
    crash, keys expire, replies get lost, and other clients work on the database
    directly. A request and its transaction carry the same identifier. */
module Cluster {
  import opened Prelude
  import opened Tables
  import opened Transactions
  import D = Database
  import G = Gates
  import R = RedisLock

  type ReqId = nat
  type ReplicaId = nat

  /** What BookWithLock returns. */
  datatype Answer =
    | FromTx(reply: Reply)
    | InvalidInput
    | Busy
    | TokenFailed
    | LockFailed
    | BeginFailed

  /** Where a request is in BookWithLock. Releasing, Leaving and Exiting are the
      deferred calls: release the Redis lock, receive from the gate's channel,
      drop the gate reference. */
  datatype Stage =
    | AtGate
    | AtRedis
    | Locked
    | InTx
    | Releasing(answer: Answer)
    | Leaving(answer: Answer)
    | Exiting(answer: Answer)
    | Done(answer: Answer)
    | Crashed

  datatype Req = Req(replica: ReplicaId, event: EventId, user: UserId, stage: Stage)

  datatype State = State(db: D.Db, redis: R.State, gates: map<ReplicaId, G.State>, reqs: map<ReqId, Req>)

  const START := State(D.EMPTY_DB, R.NO_LOCKS, map[], map[])

  datatype Step =
    | Arrive(r: ReqId, replica: ReplicaId, event: EventId, user: UserId, unused: G.Addr)
    | Send(r: ReqId)
    | GateTimeout(r: ReqId)
    | NoToken(r: ReqId)
    | NewToken(r: ReqId, token: R.Token)
    | SetNx(r: ReqId, replied: bool)
    | LockTimeout(r: ReqId)
    | BeginTx(r: ReqId)
    | NoTx(r: ReqId)
    | TxStep(r: ReqId, step: D.Step)
    | Unlock(r: ReqId, end: R.ReleaseEnd)
    | LeaveGate(r: ReqId)
    | DropGate(r: ReqId)
    | Expire(event: EventId)
    | Crash(replica: ReplicaId)
    | Direct(dbStep: D.Step)

  function GatesOf(s: State, p: ReplicaId): G.State {
    if p in s.gates then s.gates[p] else G.IDLE
  }

  /** The component steps a request's step consists of. */
  function GateStep(s: State, step: Step): Option<(ReplicaId, G.Step)> {
    match step
    case Arrive(r, p, e, u, unused) => if e <= 0 || u <= 0 then None else Some((p, G.Enter(r, e, unused)))
    case Send(r) => if r in s.reqs then Some((s.reqs[r].replica, G.Send(r))) else None
    case GateTimeout(r) => if r in s.reqs then Some((s.reqs[r].replica, G.GiveUp(r))) else None
    case LeaveGate(r) => if r in s.reqs then Some((s.reqs[r].replica, G.Leave(r))) else None
    case DropGate(r) => if r in s.reqs then Some((s.reqs[r].replica, G.Release(r))) else None
    case _ => None
  }

  function RedisStep(s: State, step: Step): Option<R.Step> {
    match step
    case NewToken(r, token) => if r in s.reqs then Some(R.NewToken(r, s.reqs[r].event, token)) else None
    case SetNx(r, replied) => Some(R.SetNx(r, replied))
    case LockTimeout(r) => Some(R.GiveUp(r))
    case Unlock(r, end) => Some(R.Release(r, end))
    case Expire(e) => Some(R.Expire(e))
    case Crash(p) => Some(R.Crash(set r | r in s.reqs && s.reqs[r].replica == p))
    case _ => None
  }

  function DbStep(s: State, step: Step): Option<D.Step> {
    match step
    case BeginTx(r) => if r in s.reqs then Some(D.Begin(r, Book(s.reqs[r].event, s.reqs[r].user))) else None
    case TxStep(_, dbStep) => Some(dbStep)
    case Direct(dbStep) => Some(dbStep)
    case _ => None
  }

  /** The transaction a database step belongs to. */
  function TxOf(dbStep: D.Step): Option<ReqId> {
    match dbStep
    case AddUser(_) => None
    case CreateEvent(_, _) => None
    case Begin(t, _) => Some(t)
    case Statement(t, _) => Some(t)
    case Commit(t, _) => Some(t)
    case Abort(t) => Some(t)
  }

  predicate OwnsSlot(s: State, r: ReqId)
    requires r in s.reqs
  {
    var g := GatesOf(s, s.reqs[r].replica);
    r in g.clients && g.clients[r].place == G.Owner
  }

  /** The stage from which a request takes a step. */
  predicate StageFits(s: State, step: Step) {
    match step
    case Arrive(r, _, _, _, _) => r !in s.reqs && r !in s.db.txs && r !in s.db.log
    case Send(r) => r in s.reqs && s.reqs[r].stage == AtGate
    case GateTimeout(r) => r in s.reqs && s.reqs[r].stage == AtGate
    case NoToken(r) => r in s.reqs && s.reqs[r].stage == AtGate && OwnsSlot(s, r)
    case NewToken(r, _) => r in s.reqs && s.reqs[r].stage == AtGate && OwnsSlot(s, r)
    case SetNx(r, _) => r in s.reqs && s.reqs[r].stage == AtRedis
    case LockTimeout(r) => r in s.reqs && s.reqs[r].stage == AtRedis
    case BeginTx(r) => r in s.reqs && s.reqs[r].stage == Locked
    case NoTx(r) => r in s.reqs && s.reqs[r].stage == Locked
    case TxStep(r, dbStep) => r in s.reqs && s.reqs[r].stage == InTx && TxOf(dbStep) == Some(r) && !dbStep.Begin?
    case Unlock(r, _) => r in s.reqs && s.reqs[r].stage.Releasing?
    case LeaveGate(r) => r in s.reqs && s.reqs[r].stage.Leaving?
    case DropGate(r) => r in s.reqs && s.reqs[r].stage.Exiting?
    case Expire(_) => true
    case Crash(_) => true
    case Direct(dbStep) =>
      TxOf(dbStep).Some? && TxOf(dbStep).value in s.reqs ==>
        s.reqs[TxOf(dbStep).value].stage == Crashed && (dbStep.Abort? || (dbStep.Commit? && !dbStep.replied))
  }

  predicate Enabled(s: State, step: Step) {
    && StageFits(s, step)
    && (GateStep(s, step).Some? ==> G.Enabled(GatesOf(s, GateStep(s, step).value.0), GateStep(s, step).value.1))
    && (RedisStep(s, step).Some? ==> R.Enabled(s.redis, RedisStep(s, step).value))
    && (DbStep(s, step).Some? ==> D.Enabled(s.db, DbStep(s, step).value))
  }

  predicate ByRequest(step: Step) {
    !step.Expire? && !step.Crash? && !step.Direct?
  }

  /** The stage a request goes to, given the components after the step. */
  function NextStage(s: State, step: Step, redis: R.State, db: D.Db): Stage
    requires ByRequest(step) && (step.Arrive? || step.r in s.reqs)
  {
    match step
    case Arrive(_, _, e, u, _) => if e <= 0 || u <= 0 then Done(InvalidInput) else AtGate
    case Send(_) => AtGate
    case GateTimeout(_) => Exiting(Busy)
    case NoToken(_) => Leaving(TokenFailed)
    case NewToken(_, _) => AtRedis
    case SetNx(r, _) =>
      if r !in redis.clients then Leaving(LockFailed) else if redis.clients[r].phase == R.Held then Locked else AtRedis
    case LockTimeout(_) => Leaving(Busy)
    case BeginTx(_) => InTx
    case NoTx(_) => Releasing(BeginFailed)
    case TxStep(r, _) => if r in db.log then Releasing(FromTx(db.log[r].reply)) else InTx
    case Unlock(r, _) => Leaving(AnswerOf(s.reqs[r].stage))
    case LeaveGate(r) => Exiting(AnswerOf(s.reqs[r].stage))
    case DropGate(r) => Done(AnswerOf(s.reqs[r].stage))
  }

  function AnswerOf(stage: Stage): Answer {
    match stage
    case Releasing(a) => a
    case Leaving(a) => a
    case Exiting(a) => a
    case Done(a) => a
    case _ => Busy
  }

  /** A crashed replica starts again with empty gates. */
  function Cleared(g: G.State): G.State {
    G.IDLE.(seen := g.seen)
  }

  function GatesAfter(s: State, step: Step): map<ReplicaId, G.State>
    requires Enabled(s, step)
  {
    if step.Crash? then s.gates[step.replica := Cleared(GatesOf(s, step.replica))]
    else match GateStep(s, step)
      case None => s.gates
      case Some((p, g)) => s.gates[p := G.Apply(GatesOf(s, p), g)]
  }

  function RedisAfter(s: State, step: Step): R.State
    requires Enabled(s, step)
  {
    match RedisStep(s, step)
    case None => s.redis
    case Some(x) => R.Apply(s.redis, x)
  }

  function DbAfter(s: State, step: Step): D.Db
    requires Enabled(s, step)
  {
    match DbStep(s, step)
    case None => s.db
    case Some(x) => D.Apply(s.db, x)
  }

  function ReqsAfter(s: State, step: Step): map<ReqId, Req>
    requires Enabled(s, step)
  {
    if step.Crash? then
      map r | r in s.reqs ::
        if s.reqs[r].replica == step.replica && !s.reqs[r].stage.Done? then s.reqs[r].(stage := Crashed) else s.reqs[r]
    else if !ByRequest(step) then s.reqs
    else
      var stage := NextStage(s, step, RedisAfter(s, step), DbAfter(s, step));
      if step.Arrive? then s.reqs[step.r := Req(step.replica, step.event, step.user, stage)]
      else s.reqs[step.r := s.reqs[step.r].(stage := stage)]
  }

  function Apply(s: State, step: Step): State
    requires Enabled(s, step)
  {
    State(DbAfter(s, step), RedisAfter(s, step), GatesAfter(s, step), ReqsAfter(s, step))
  }

  predicate Runs(s: State, steps: seq<Step>)
    decreases |steps|
  {
    steps == [] || (Enabled(s, steps[0]) && Runs(Apply(s, steps[0]), steps[1..]))
  }

  function Final(s: State, steps: seq<Step>): State
    requires Runs(s, steps)
    decreases |steps|
  {
    if steps == [] then s else Final(Apply(s, steps[0]), steps[1..])
  }

  lemma {:induction false} RunsAppend(s: State, a: seq<Step>, b: seq<Step>)
    requires Runs(s, a) && Runs(Final(s, a), b)
    ensures Runs(s, a + b) && Final(s, a + b) == Final(Final(s, a), b)
    decreases |a|
  {
    if a == [] {
      assert a + b == b;
    } else {
      assert (a + b)[0] == a[0] && (a + b)[1..] == a[1..] + b;
      RunsAppend(Apply(s, a[0]), a[1..], b);
    }
  }

  lemma {:induction false} RunsSplit(s: State, a: seq<Step>, c: seq<Step>)
    requires Runs(s, c) && a <= c
    ensures Runs(s, a) && Runs(Final(s, a), c[|a|..]) && Final(s, c) == Final(Final(s, a), c[|a|..])
    decreases |a|
  {
    if a == [] {
      assert c[0..] == c;
    } else {
      assert c[1..][|a[1..]|..] == c[|a|..];
      RunsSplit(Apply(s, a[0]), a[1..], c[1..]);
    }
  }

  /** A request stays on its replica, with its event and its user. */
  lemma {:induction false} RequestsKeepTheirIdentity(s: State, steps: seq<Step>, r: ReqId)
    requires Runs(s, steps) && r in s.reqs
    ensures r in Final(s, steps).reqs
    ensures Final(s, steps).reqs[r] == s.reqs[r].(stage := Final(s, steps).reqs[r].stage)
    decreases |steps|
  {
    if steps != [] {
      RequestsKeepTheirIdentity(Apply(s, steps[0]), steps[1..], r);
    }
  }

  /* ---- The database sees a run of its own ---- */

  /** The database steps of a run, in order. */
  function DbSteps(s: State, steps: seq<Step>): seq<D.Step>
    requires Runs(s, steps)
    decreases |steps|
  {
    if steps == [] then []
    else
      var rest := DbSteps(Apply(s, steps[0]), steps[1..]);
      if DbStep(s, steps[0]).Some? then [DbStep(s, steps[0]).value] + rest else rest
  }

  /** Whatever the gates, Redis and crashes do, the database goes through one of
      its own runs: what holds of all those runs holds of every cluster. */
  lemma {:induction false} DatabaseRuns(s: State, steps: seq<Step>)
    requires Runs(s, steps)
    ensures D.Runs(s.db, DbSteps(s, steps)) && D.Final(s.db, DbSteps(s, steps)) == Final(s, steps).db
    decreases |steps|
  {
    if steps != [] {
      DatabaseRuns(Apply(s, steps[0]), steps[1..]);
    }
  }

  /* ---- The components agree about every request ---- */

  /** The request holds a gate reference. */
  predicate HasGate(stage: Stage) {
    !stage.Done? && stage != Crashed
  }

  predicate PlaceFits(stage: Stage, place: G.Place) {
    match stage
    case AtGate => place == G.Arrived || place == G.Waiting || place == G.Owner
    case Exiting(_) => place == G.Left || place == G.GaveUp
    case Done(_) => false
    case Crashed => false
    case _ => place == G.Owner
  }

  function RedisPhase(stage: Stage): Option<R.Phase> {
    match stage
    case AtRedis => Some(R.Polling)
    case Locked => Some(R.Held)
    case InTx => Some(R.Held)
    case Releasing(_) => Some(R.Held)
    case _ => None
  }

  ghost predicate GateLink(s: State, r: ReqId)
    requires r in s.reqs
  {
    var req, g := s.reqs[r], GatesOf(s, s.reqs[r].replica);
    if HasGate(req.stage) then
      r in g.clients && g.clients[r].event == req.event && PlaceFits(req.stage, g.clients[r].place)
    else r !in g.clients
  }

  ghost predicate RedisLink(s: State, r: ReqId)
    requires r in s.reqs
  {
    var phase := RedisPhase(s.reqs[r].stage);
    if phase.None? then r !in s.redis.clients
    else r in s.redis.clients && s.redis.clients[r].phase == phase.value && s.redis.clients[r].event == s.reqs[r].event
  }

  ghost predicate DbLink(s: State, r: ReqId)
    requires r in s.reqs
  {
    var req := s.reqs[r];
    var book := Book(req.event, req.user);
    match req.stage
    case AtGate => r !in s.db.txs && r !in s.db.log
    case AtRedis => r !in s.db.txs && r !in s.db.log
    case Locked => r !in s.db.txs && r !in s.db.log
    case InTx => r in s.db.txs && s.db.txs[r].req == book && r !in s.db.log
    case Crashed => (r in s.db.txs ==> s.db.txs[r].req == book) && (r in s.db.log ==> s.db.log[r].req == book)
    case _ =>
      r !in s.db.txs &&
      if AnswerOf(req.stage).FromTx? then r in s.db.log && s.db.log[r] == D.Outcome(book, AnswerOf(req.stage).reply)
      else r !in s.db.log
  }

  ghost predicate Linked(s: State, r: ReqId)
    requires r in s.reqs
  {
    GateLink(s, r) && RedisLink(s, r) && DbLink(s, r)
  }

  /** The gates of a replica are in order and serve its own requests only. */
  ghost predicate ReplicaOk(s: State, p: ReplicaId) {
    && G.Inv(GatesOf(s, p))
    && forall r :: r in GatesOf(s, p).clients ==> r in s.reqs && s.reqs[r].replica == p
  }

  ghost predicate Inv(s: State) {
    && D.Inv(s.db) && R.Inv(s.redis)
    && (forall p :: ReplicaOk(s, p))
    && (forall r :: r in s.redis.clients ==> r in s.reqs)
    && (forall r :: r in s.reqs ==> Linked(s, r))
  }

  /* ---- What a component step does to other requests ---- */

  lemma GateFrame(g: G.State, step: G.Step, x: ReqId)
    requires G.Inv(g) && G.Enabled(g, step) && x != step.r
    ensures var g' := G.Apply(g, step);
            && (x in g'.clients <==> x in g.clients)
            && (x in g.clients ==> g'.clients[x].event == g.clients[x].event)
            && (x in g.clients ==> g'.clients[x].place == g.clients[x].place
                                   || (g.clients[x].place == G.Waiting && g'.clients[x].place == G.Owner))
  {
    if step.Leave? {
      var q := g.table.heap[g.clients[step.r].gate].queue;
      assert G.ClientOk(g, step.r) && G.GateOk(g, g.clients[step.r].event);
      assert q != [] ==> G.ClientOk(g, q[0]);
    }
  }

  lemma GateOwn(g: G.State, step: G.Step)
    requires G.Inv(g) && G.Enabled(g, step)
    ensures var g', r := G.Apply(g, step), step.r;
            && (step.Enter? ==> r !in g.clients && r in g'.clients && g'.clients[r].event == step.event && g'.clients[r].place == G.Arrived)
            && (step.Send? ==> r in g'.clients && g'.clients[r].event == g.clients[r].event
                               && (g'.clients[r].place == G.Owner || g'.clients[r].place == G.Waiting))
            && (step.GiveUp? ==> r in g'.clients && g'.clients[r].event == g.clients[r].event && g'.clients[r].place == G.GaveUp)
            && (step.Leave? ==> r in g'.clients && g'.clients[r].event == g.clients[r].event && g'.clients[r].place == G.Left)
            && (step.Release? ==> r !in g'.clients)
  {
    assert step.r in g.clients ==> G.ClientOk(g, step.r);
    if step.Leave? {
      var q := g.table.heap[g.clients[step.r].gate].queue;
      assert G.GateOk(g, g.clients[step.r].event);
      assert q != [] ==> G.ClientOk(g, q[0]);
    }
  }

  lemma DbFrame(db: D.Db, step: D.Step, x: ReqId)
    requires D.Enabled(db, step) && TxOf(step) != Some(x)
    ensures var db' := D.Apply(db, step);
            && (x in db'.txs <==> x in db.txs) && (x in db.txs ==> db'.txs[x] == db.txs[x])
            && (x in db'.log <==> x in db.log) && (x in db.log ==> db'.log[x] == db.log[x])
  {
  }

  lemma DbOwn(db: D.Db, step: D.Step, r: ReqId)
    requires db.txs.Keys !! db.log.Keys && D.Enabled(db, step) && TxOf(step) == Some(r) && !step.Begin?
    ensures var db' := D.Apply(db, step);
            && r in db.txs && r !in db.log
            && ((r in db'.txs && db'.txs[r].req == db.txs[r].req && r !in db'.log)
                || (r !in db'.txs && r in db'.log && db'.log[r].req == db.txs[r].req))
  {
  }

  /* ---- Preservation ---- */

  lemma ReplicasKept(s: State, step: Step, r: ReqId)
    requires Enabled(s, step) && r in s.reqs
    ensures r in Apply(s, step).reqs && Apply(s, step).reqs[r].replica == s.reqs[r].replica
    ensures Apply(s, step).reqs[r].event == s.reqs[r].event && Apply(s, step).reqs[r].user == s.reqs[r].user
  {
  }

  lemma StepKeepsReplicas(s: State, step: Step, p: ReplicaId)
    requires Inv(s) && Enabled(s, step)
    ensures ReplicaOk(Apply(s, step), p)
  {
    var s' := Apply(s, step);
    assert ReplicaOk(s, p);
    var gs := GateStep(s, step);
    if gs.Some? && gs.value.0 == p {
      GateStepKeepsReplica(s, step);
    } else {
      assert GatesOf(s', p) == GatesOf(s, p) || GatesOf(s', p) == Cleared(GatesOf(s, p));
      forall r | r in GatesOf(s', p).clients
        ensures r in s'.reqs && s'.reqs[r].replica == p
      {
        ReplicasKept(s, step, r);
      }
    }
  }

  lemma GateStepKeepsReplica(s: State, step: Step)
    requires Enabled(s, step) && GateStep(s, step).Some? && ReplicaOk(s, GateStep(s, step).value.0)
    ensures ReplicaOk(Apply(s, step), GateStep(s, step).value.0)
  {
    var s' := Apply(s, step);
    var (p, gs) := GateStep(s, step).value;
    GatesAfterStep(s, step);
    G.StepKeepsInv(GatesOf(s, p), gs);
    forall r | r in GatesOf(s', p).clients
      ensures r in s'.reqs && s'.reqs[r].replica == p
    {
      ClientsStayHome(s, step, r);
    }
  }

  /** A request's gate step is taken on its own replica, and by itself. */
  lemma GatesAfterStep(s: State, step: Step)
    requires Enabled(s, step) && GateStep(s, step).Some?
    ensures var (p, gs) := GateStep(s, step).value;
            && GatesOf(Apply(s, step), p) == G.Apply(GatesOf(s, p), gs)
            && gs.r == step.r && step.r in Apply(s, step).reqs && Apply(s, step).reqs[step.r].replica == p
  {
  }

  lemma ClientsStayHome(s: State, step: Step, r: ReqId)
    requires Enabled(s, step) && GateStep(s, step).Some? && ReplicaOk(s, GateStep(s, step).value.0)
    requires r in G.Apply(GatesOf(s, GateStep(s, step).value.0), GateStep(s, step).value.1).clients
    ensures r in Apply(s, step).reqs && Apply(s, step).reqs[r].replica == GateStep(s, step).value.0
  {
    var (p, gs) := GateStep(s, step).value;
    GatesAfterStep(s, step);
    if r != gs.r {
      GateFrame(GatesOf(s, p), gs, r);
      ReplicasKept(s, step, r);
    }
  }

  /** A step of another request, of the environment, or of another replica's
      crash leaves this request where it is. */
  ghost predicate Elsewhere(s: State, step: Step, x: ReqId)
    requires x in s.reqs
  {
    !(ByRequest(step) && step.r == x) && !(step.Crash? && step.replica == s.reqs[x].replica)
  }

  lemma ElsewhereKeepsRequest(s: State, step: Step, x: ReqId)
    requires Enabled(s, step) && x in s.reqs && Elsewhere(s, step, x)
    ensures x in Apply(s, step).reqs && Apply(s, step).reqs[x] == s.reqs[x]
  {
  }

  lemma ElsewhereKeepsGateLink(s: State, step: Step, x: ReqId)
    requires Enabled(s, step) && x in s.reqs && Elsewhere(s, step, x)
    requires ReplicaOk(s, s.reqs[x].replica) && GateLink(s, x)
    ensures GateLink(Apply(s, step), x)
  {
    ElsewhereKeepsRequest(s, step, x);
    var p := s.reqs[x].replica;
    var gs := GateStep(s, step);
    if gs.Some? && gs.value.0 == p {
      GateFrame(GatesOf(s, p), gs.value.1, x);
    } else {
      assert GatesOf(Apply(s, step), p) == GatesOf(s, p);
    }
  }

  lemma CrashKeepsLinks(s: State, p: ReplicaId, x: ReqId)
    requires x in s.reqs && s.reqs[x].replica == p && GateLink(s, x) && RedisLink(s, x)
    ensures GateLink(Apply(s, Crash(p)), x) && RedisLink(Apply(s, Crash(p)), x)
  {
    var s' := Apply(s, Crash(p));
    assert GatesOf(s', p) == Cleared(GatesOf(s, p));
  }

  lemma OwnKeepsGateLink(s: State, step: Step)
    requires Enabled(s, step) && ByRequest(step)
    requires if step.Arrive? then ReplicaOk(s, step.replica)
             else GateLink(s, step.r) && ReplicaOk(s, s.reqs[step.r].replica)
    ensures step.r in Apply(s, step).reqs && GateLink(Apply(s, step), step.r)
  {
    if GateStep(s, step).Some? {
      OwnGateStepKeepsLink(s, step);
    } else {
      OwnOtherStepKeepsGateLink(s, step);
    }
  }

  lemma OwnGateStepKeepsLink(s: State, step: Step)
    requires Enabled(s, step) && ByRequest(step) && GateStep(s, step).Some?
    requires if step.Arrive? then ReplicaOk(s, step.replica)
             else GateLink(s, step.r) && ReplicaOk(s, s.reqs[step.r].replica)
    ensures step.r in Apply(s, step).reqs && GateLink(Apply(s, step), step.r)
  {
    GatesAfterStep(s, step);
    GateOwn(GatesOf(s, GateStep(s, step).value.0), GateStep(s, step).value.1);
    OwnRequest(s, step);
  }

  lemma OwnOtherStepKeepsGateLink(s: State, step: Step)
    requires Enabled(s, step) && ByRequest(step) && GateStep(s, step).None?
    requires if step.Arrive? then ReplicaOk(s, step.replica)
             else GateLink(s, step.r) && ReplicaOk(s, s.reqs[step.r].replica)
    ensures step.r in Apply(s, step).reqs && GateLink(Apply(s, step), step.r)
  {
    assert Apply(s, step).gates == s.gates;
    OwnRequest(s, step);
  }

  lemma OwnRequest(s: State, step: Step)
    requires Enabled(s, step) && ByRequest(step)
    ensures var s' := Apply(s, step);
            var stage := NextStage(s, step, s'.redis, s'.db);
            && step.r in s'.reqs
            && s'.reqs[step.r] == if step.Arrive? then Req(step.replica, step.event, step.user, stage)
                                  else s.reqs[step.r].(stage := stage)
  {
  }

  lemma ElsewhereKeepsRedisLink(s: State, step: Step, x: ReqId)
    requires Enabled(s, step) && x in s.reqs && Elsewhere(s, step, x) && RedisLink(s, x)
    ensures RedisLink(Apply(s, step), x)
  {
    ElsewhereKeepsRequest(s, step, x);
    var rs := RedisStep(s, step);
    if rs.Some? {
      RedisFrame(s.redis, rs.value, x);
    }
  }

  lemma RedisFrame(redis: R.State, step: R.Step, x: ReqId)
    requires R.Enabled(redis, step)
    requires match step
             case Crash(gone) => x !in gone
             case Expire(_) => true
             case _ => step.r != x
    ensures var redis' := R.Apply(redis, step);
            (x in redis'.clients <==> x in redis.clients) && (x in redis.clients ==> redis'.clients[x] == redis.clients[x])
  {
  }

  lemma RedisOwn(redis: R.State, step: R.Step)
    requires R.Enabled(redis, step) && !step.Expire? && !step.Crash?
    ensures var redis', r := R.Apply(redis, step), step.r;
            && (step.NewToken? ==> r in redis'.clients && redis'.clients[r] == R.Client(step.event, step.token, R.Polling))
            && (step.SetNx? && r in redis'.clients ==> redis'.clients[r].event == redis.clients[r].event)
            && (step.GiveUp? || step.Release? ==> r !in redis'.clients)
  {
  }

  lemma SamePhase(s: State, step: Step)
    requires Enabled(s, step) && ByRequest(step) && !step.Arrive? && RedisStep(s, step).None?
    ensures RedisPhase(NextStage(s, step, RedisAfter(s, step), DbAfter(s, step))) == RedisPhase(s.reqs[step.r].stage)
  {
  }

  lemma OwnKeepsRedisLink(s: State, step: Step)
    requires Enabled(s, step) && ByRequest(step)
    requires if step.Arrive? then step.r !in s.redis.clients else RedisLink(s, step.r)
    ensures step.r in Apply(s, step).reqs && RedisLink(Apply(s, step), step.r)
  {
    var x, s' := step.r, Apply(s, step);
    if !step.Arrive? {
      var stage := NextStage(s, step, s'.redis, s'.db);
      assert s'.reqs[x] == s.reqs[x].(stage := stage);
      if RedisStep(s, step).Some? {
        RedisOwn(s.redis, RedisStep(s, step).value);
      } else {
        SamePhase(s, step);
      }
    }
  }

  lemma ElsewhereKeepsDbLink(s: State, step: Step, x: ReqId)
    requires Enabled(s, step) && x in s.reqs && Elsewhere(s, step, x)
    requires DbLink(s, x) && s.db.txs.Keys !! s.db.log.Keys
    ensures DbLink(Apply(s, step), x)
  {
    ElsewhereKeepsRequest(s, step, x);
    var ds := DbStep(s, step);
    if ds.Some? {
      if TxOf(ds.value) != Some(x) {
        DbFrame(s.db, ds.value, x);
      } else {
        DbOwn(s.db, ds.value, x);
      }
    }
  }

  lemma CrashKeepsDbLink(s: State, p: ReplicaId, x: ReqId)
    requires x in s.reqs && DbLink(s, x)
    ensures DbLink(Apply(s, Crash(p)), x)
  {
  }

  lemma OwnKeepsDbLink(s: State, step: Step)
    requires Enabled(s, step) && ByRequest(step) && s.db.txs.Keys !! s.db.log.Keys
    requires step.Arrive? || DbLink(s, step.r)
    ensures step.r in Apply(s, step).reqs && DbLink(Apply(s, step), step.r)
  {
    var x := step.r;
    if step.TxStep? {
      DbOwn(s.db, step.step, x);
    }
  }

  lemma StepKeepsLinks(s: State, step: Step, x: ReqId)
    requires Inv(s) && Enabled(s, step) && x in Apply(s, step).reqs
    ensures Linked(Apply(s, step), x)
  {
    assert x in s.reqs ==> Linked(s, x) && ReplicaOk(s, s.reqs[x].replica);
    if ByRequest(step) && step.r == x {
      assert step.Arrive? ==> ReplicaOk(s, step.replica);
      OwnKeepsGateLink(s, step);
      OwnKeepsRedisLink(s, step);
      OwnKeepsDbLink(s, step);
    } else if step.Crash? && s.reqs[x].replica == step.replica {
      CrashKeepsLinks(s, step.replica, x);
      CrashKeepsDbLink(s, step.replica, x);
    } else {
      ElsewhereKeepsGateLink(s, step, x);
      ElsewhereKeepsRedisLink(s, step, x);
      ElsewhereKeepsDbLink(s, step, x);
    }
  }

  lemma ComponentsKeepInv(s: State, step: Step)
    requires D.Inv(s.db) && R.Inv(s.redis) && Enabled(s, step)
    ensures D.Inv(Apply(s, step).db) && R.Inv(Apply(s, step).redis)
  {
    if DbStep(s, step).Some? {
      D.StepKeepsInv(s.db, DbStep(s, step).value);
    }
    if RedisStep(s, step).Some? {
      R.StepKeepsInv(s.redis, RedisStep(s, step).value);
    }
  }

  lemma RedisServesRequests(s: State, step: Step)
    requires Enabled(s, step) && forall r :: r in s.redis.clients ==> r in s.reqs
    ensures forall r :: r in Apply(s, step).redis.clients ==> r in Apply(s, step).reqs
  {
  }

  lemma StepKeepsInv(s: State, step: Step)
    requires Inv(s) && Enabled(s, step)
    ensures Inv(Apply(s, step))
  {
    var s' := Apply(s, step);
    ComponentsKeepInv(s, step);
    RedisServesRequests(s, step);
    forall p
      ensures ReplicaOk(s', p)
    {
      StepKeepsReplicas(s, step, p);
    }
    forall r | r in s'.reqs
      ensures Linked(s', r)
    {
      StepKeepsLinks(s, step, r);
    }
  }

  lemma StartIsOk()
    ensures Inv(START)
  {
    D.EmptyIsOk();
  }

  lemma {:induction false} RunKeepsInv(s: State, steps: seq<Step>)
    requires Inv(s) && Runs(s, steps)
    ensures Inv(Final(s, steps))
    decreases |steps|
  {
    if steps != [] {
      StepKeepsInv(s, steps[0]);
      RunKeepsInv(Apply(s, steps[0]), steps[1..]);
    }
  }
}
