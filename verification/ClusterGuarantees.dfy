/** What every run of the whole booking protocol guarantees. */
module ClusterGuarantees {
  import opened Prelude
  import opened Tables
  import opened Transactions
  import opened Cluster
  import D = Database
  import G = Gates
  import R = RedisLock
  import Guarantees

  /** Layer three is enough: the database behind any cluster run, with bypasses,
      crashes, lost replies and expired keys, is in a state its own transition
      system can reach, so all its guarantees apply. */
  lemma DatabaseIsReachable(steps: seq<Step>)
    requires Runs(START, steps)
    ensures Guarantees.Reachable(Final(START, steps).db)
  {
    DatabaseRuns(START, steps);
    assert D.Runs(D.EMPTY_DB, DbSteps(START, steps));
  }

  /** No cluster run oversells an event or books a user twice. */
  lemma ClusterNeverOversells(steps: seq<Step>, e: EventId)
    requires Runs(START, steps) && e in Final(START, steps).db.events
    ensures var d := Final(START, steps).db.events[e];
            |d.bookings| <= d.row.capacity && Distinct(Users(d.bookings))
  {
    DatabaseIsReachable(steps);
    Guarantees.NeverOversold(Final(START, steps).db, e);
  }

  /* ---- Answers ---- */

  /** The answer of a finished request agrees with the tables: success and
      "already booked" mean the user has a seat, "full" that there is none, and
      every answer given before the transaction began means that this request
      has put nothing into the tables. A seat was taken exactly if the answer is
      success or the reply of the commit was lost. */
  ghost predicate Truthful(s: State, r: ReqId)
    requires r in s.reqs && s.reqs[r].stage.Done?
  {
    var req := s.reqs[r];
    var a := req.stage.answer;
    && (a == FromTx(Booked) || a == FromTx(AlreadyBooked) ==>
          req.event in s.db.events && req.user in Users(s.db.events[req.event].bookings))
    && (a == FromTx(Full) ==>
          && req.event in s.db.events && req.user !in Users(s.db.events[req.event].bookings)
          && |s.db.events[req.event].bookings| == s.db.events[req.event].row.capacity)
    && (D.TookSeat(s.db, req.event, r) <==> a == FromTx(Booked) || a == FromTx(Failed(true)))
    && (!a.FromTx? ==> r !in s.db.txs && r !in s.db.log)
  }

  lemma DoneIsTruthful(s: State, r: ReqId)
    requires D.Inv(s.db) && r in s.reqs && s.reqs[r].stage.Done? && DbLink(s, r)
    ensures Truthful(s, r)
  {
    assert r in s.db.log ==> D.LogOk(s.db, r);
  }

  /** What BookWithLock answered is true of the tables from then on. */
  lemma AnswersAreTrue(steps: seq<Step>, r: ReqId)
    requires Runs(START, steps) && r in Final(START, steps).reqs && Final(START, steps).reqs[r].stage.Done?
    ensures Truthful(Final(START, steps), r)
  {
    StartIsOk();
    RunKeepsInv(START, steps);
    assert Linked(Final(START, steps), r);
    DoneIsTruthful(Final(START, steps), r);
  }

  /* ---- Nothing is left behind ---- */

  /** Requests of a replica for an event that still hold their gate reference. */
  ghost function Live(s: State, p: ReplicaId, e: EventId): set<ReqId> {
    set r | r in s.reqs && s.reqs[r].replica == p && s.reqs[r].event == e && HasGate(s.reqs[r].stage)
  }

  /** On every path through BookWithLock, failing or not, the gate reference is
      dropped: a gate's count is the number of unfinished requests, and the gate
      is gone when there are none. */
  lemma GateReferencesAreDropped(steps: seq<Step>, p: ReplicaId, e: EventId)
    requires Runs(START, steps)
    ensures var s := Final(START, steps);
            var t := GatesOf(s, p).table;
            && (e in t.m <==> Live(s, p, e) != {})
            && (e in t.m ==> t.m[e] in t.heap && t.heap[t.m[e]].refs == |Live(s, p, e)|)
  {
    StartIsOk();
    RunKeepsInv(START, steps);
    var s := Final(START, steps);
    var g := GatesOf(s, p);
    assert ReplicaOk(s, p);
    forall r
      ensures r in Live(s, p, e) <==> r in G.Holders(g.clients, e)
    {
      assert r in s.reqs ==> Linked(s, r);
    }
    assert Live(s, p, e) == G.Holders(g.clients, e);
    if e in g.table.m {
      assert G.GateOk(g, e);
    } else {
      G.NoHolders(g, e);
    }
  }

  /** The request is between acquiring the Redis lock and releasing it. */
  predicate HoldsLock(stage: Stage) {
    stage == Locked || stage == InTx || stage.Releasing?
  }

  /** The step leaves a token behind that its request will never delete: the
      reply of its SET NX is lost, its release does not get through, or its
      replica crashes. */
  ghost predicate Orphans(s: State, step: Step, token: R.Token) {
    exists r :: r in s.redis.clients && s.redis.clients[r].token == token
                && (step == SetNx(r, false) || step == Unlock(r, R.NotApplied)
                    || (step.Crash? && r in s.reqs && s.reqs[r].replica == step.replica))
  }

  ghost predicate OrphanedAt(s: State, steps: seq<Step>, i: nat, token: R.Token) {
    i < |steps| && Runs(s, steps[..i]) && Orphans(Final(s, steps[..i]), steps[i], token)
  }

  lemma OrphanedLater(s: State, steps: seq<Step>, i: nat, token: R.Token)
    requires steps != [] && Enabled(s, steps[0]) && OrphanedAt(Apply(s, steps[0]), steps[1..], i, token)
    ensures OrphanedAt(s, steps, i + 1, token)
  {
    assert steps[..i + 1][0] == steps[0] && steps[..i + 1][1..] == steps[1..][..i];
  }

  lemma StepOrphans(s: State, step: Step, token: R.Token)
    requires Enabled(s, step) && token !in s.redis.orphans && token in Apply(s, step).redis.orphans
    ensures Orphans(s, step, token)
  {
  }

  /** A token is recorded as orphaned only after such a step. */
  lemma {:induction false} OrphanHasCause(s: State, steps: seq<Step>, token: R.Token)
    requires Runs(s, steps) && token !in s.redis.orphans && token in Final(s, steps).redis.orphans
    ensures exists i :: OrphanedAt(s, steps, i, token)
    decreases |steps|
  {
    var s' := Apply(s, steps[0]);
    if token in s'.redis.orphans {
      StepOrphans(s, steps[0], token);
      assert Runs(s, steps[..0]) && Final(s, steps[..0]) == s;
      assert OrphanedAt(s, steps, 0, token);
    } else {
      OrphanHasCause(s', steps[1..], token);
      var i :| OrphanedAt(s', steps[1..], i, token);
      OrphanedLater(s, steps, i, token);
    }
  }

  /** The key of `e` belongs to a request that is in its critical section. */
  ghost predicate KeyIsHeld(s: State, e: EventId)
    requires e in s.redis.keys
  {
    exists r :: r in s.reqs && s.reqs[r].event == e && HoldsLock(s.reqs[r].stage)
                && r in s.redis.clients && s.redis.clients[r].token == s.redis.keys[e]
  }

  /** A key outlives its request only after a lost SET NX reply, a release that
      did not get through, or a crash, of the very request that set it. */
  lemma RedisKeysAreAccountedFor(steps: seq<Step>, e: EventId)
    requires Runs(START, steps) && e in Final(START, steps).redis.keys
    ensures KeyIsHeld(Final(START, steps), e)
            || exists i :: OrphanedAt(START, steps, i, Final(START, steps).redis.keys[e])
  {
    StartIsOk();
    RunKeepsInv(START, steps);
    var s := Final(START, steps);
    assert R.KeyOk(s.redis, e);
    if s.redis.keys[e] in s.redis.orphans {
      OrphanHasCause(START, steps, s.redis.keys[e]);
    } else {
      var r :| r in s.redis.clients && s.redis.clients[r] == R.Client(e, s.redis.keys[e], R.Held);
      assert r in s.reqs && Linked(s, r);
    }
  }

  /* ---- What a finished request leaves behind ---- */

  /** The token is in no key and recorded as nobody's leftover. */
  ghost predicate Forgotten(redis: R.State, token: R.Token) {
    token !in redis.orphans && forall e :: e in redis.keys ==> redis.keys[e] != token
  }

  /** Only `r` can have the token. */
  ghost predicate OnlyOf(s: State, r: ReqId, token: R.Token) {
    token in s.redis.used && forall q :: q in s.redis.clients && s.redis.clients[q].token == token ==> q == r
  }

  lemma StepKeepsOnlyOf(s: State, step: Step, r: ReqId, token: R.Token)
    requires Enabled(s, step) && OnlyOf(s, r, token)
    ensures OnlyOf(Apply(s, step), r, token)
  {
  }

  lemma {:induction false} RunKeepsOnlyOf(s: State, steps: seq<Step>, r: ReqId, token: R.Token)
    requires Runs(s, steps) && OnlyOf(s, r, token)
    ensures OnlyOf(Final(s, steps), r, token)
    decreases |steps|
  {
    if steps != [] {
      StepKeepsOnlyOf(s, steps[0], r, token);
      RunKeepsOnlyOf(Apply(s, steps[0]), steps[1..], r, token);
    }
  }

  /** A crashed request stays crashed, and one whose SET NX reply was lost ends
      with LockFailed or crashes. */
  ghost predicate Doomed(stage: Stage, answer: Answer) {
    stage == Crashed || stage == Leaving(answer) || stage == Exiting(answer) || stage == Done(answer)
  }

  lemma {:induction false} DoomedForGood(s: State, steps: seq<Step>, r: ReqId, answer: Answer)
    requires Runs(s, steps) && r in s.reqs && Doomed(s.reqs[r].stage, answer)
    ensures r in Final(s, steps).reqs && Doomed(Final(s, steps).reqs[r].stage, answer)
    ensures s.reqs[r].stage == Crashed ==> Final(s, steps).reqs[r].stage == Crashed
    decreases |steps|
  {
    if steps != [] {
      DoomedForGood(Apply(s, steps[0]), steps[1..], r, answer);
    }
  }

  lemma LostReplyDooms(s: State, r: ReqId)
    requires Enabled(s, SetNx(r, false))
    ensures r in Apply(s, SetNx(r, false)).reqs && Apply(s, SetNx(r, false)).reqs[r].stage == Leaving(LockFailed)
  {
  }

  lemma CrashDooms(s: State, r: ReqId)
    requires r in s.reqs && RedisLink(s, r) && r in s.redis.clients
    ensures r in Apply(s, Crash(s.reqs[r].replica)).reqs
    ensures Apply(s, Crash(s.reqs[r].replica)).reqs[r].stage == Crashed
  {
  }

  /** A request that is done with another answer than LockFailed has orphaned a
      token of its own only by a release that did not get through. */
  lemma OrphanedByRelease(s: State, steps: seq<Step>, i: nat, r: ReqId, token: R.Token)
    requires Inv(s) && Runs(s, steps) && OnlyOf(s, r, token) && OrphanedAt(s, steps, i, token)
    requires r in Final(s, steps).reqs && Final(s, steps).reqs[r].stage.Done?
    requires Final(s, steps).reqs[r].stage.answer != LockFailed
    ensures steps[i] == Unlock(r, R.NotApplied)
  {
    var before := steps[..i];
    RunsSplit(s, before, steps);
    var mid := Final(s, before);
    RunKeepsInv(s, before);
    RunKeepsOnlyOf(s, before, r, token);
    assert steps[i..][0] == steps[i] && steps[i..][1..] == steps[i + 1..];
    assert r in mid.redis.clients && r in mid.reqs && Linked(mid, r);
    if steps[i] == SetNx(r, false) {
      LostReplyDooms(mid, r);
      DoomedForGood(Apply(mid, steps[i]), steps[i + 1..], r, LockFailed);
    } else if steps[i].Crash? {
      CrashDooms(mid, r);
      DoomedForGood(Apply(mid, steps[i]), steps[i + 1..], r, LockFailed);
    }
  }

  /** A request that is done, not with LockFailed, and whose release got through
      has left nothing of its token in Redis. */
  lemma ReleaseLeavesNothing(s: State, steps: seq<Step>, r: ReqId, token: R.Token)
    requires Inv(s) && Runs(s, steps) && OnlyOf(s, r, token) && token !in s.redis.orphans
    requires r in Final(s, steps).reqs && Final(s, steps).reqs[r].stage.Done?
    requires Final(s, steps).reqs[r].stage.answer != LockFailed
    requires Unlock(r, R.NotApplied) !in steps
    ensures Forgotten(Final(s, steps).redis, token)
  {
    var s' := Final(s, steps);
    if token in s'.redis.orphans {
      OrphanHasCause(s, steps, token);
      var i :| OrphanedAt(s, steps, i, token);
      OrphanedByRelease(s, steps, i, r, token);
      assert false;
    }
    RunKeepsInv(s, steps);
    RunKeepsOnlyOf(s, steps, r, token);
    NoKeyWithoutClient(s', r, token);
  }

  lemma NoKeyWithoutClient(s: State, r: ReqId, token: R.Token)
    requires Inv(s) && OnlyOf(s, r, token) && token !in s.redis.orphans && r in s.reqs && s.reqs[r].stage.Done?
    ensures Forgotten(s.redis, token)
  {
    assert Linked(s, r);
    forall e | e in s.redis.keys
      ensures s.redis.keys[e] != token
    {
      assert R.KeyOk(s.redis, e);
    }
  }

  /** The same for a token that the request draws on the run. */
  lemma DrawnTokenIsForgotten(s: State, steps: seq<Step>, i: nat, r: ReqId)
    requires Inv(s) && Runs(s, steps) && i < |steps| && steps[i].NewToken? && steps[i].r == r
    requires r in Final(s, steps).reqs && Final(s, steps).reqs[r].stage.Done?
    requires Final(s, steps).reqs[r].stage.answer != LockFailed
    requires Unlock(r, R.NotApplied) !in steps
    ensures Forgotten(Final(s, steps).redis, steps[i].token)
  {
    var before, rest := steps[..i], steps[i + 1..];
    RunsSplit(s, before, steps);
    var mid := Final(s, before);
    RunKeepsInv(s, before);
    assert steps[i..][0] == steps[i] && steps[i..][1..] == rest;
    StepKeepsInv(mid, steps[i]);
    DrawsToken(mid, r, steps[i].token);
    assert Unlock(r, R.NotApplied) !in rest;
    ReleaseLeavesNothing(Apply(mid, steps[i]), rest, r, steps[i].token);
  }

  lemma DrawsToken(s: State, r: ReqId, token: R.Token)
    requires Inv(s) && Enabled(s, NewToken(r, token))
    ensures OnlyOf(Apply(s, NewToken(r, token)), r, token) && token !in Apply(s, NewToken(r, token)).redis.orphans
  {
    assert forall q :: q in s.redis.clients ==> R.ClientOk(s.redis, q);
  }

  /* ---- Mutual exclusion across replicas ---- */

  /** No key expires while a request for its event is between acquire and release. */
  ghost predicate NoEarlyExpiry(s: State, steps: seq<Step>)
    requires Runs(s, steps)
    decreases |steps|
  {
    steps != [] ==>
      && (steps[0].Expire? ==>
            forall r :: r in s.reqs && s.reqs[r].event == steps[0].event ==> !HoldsLock(s.reqs[r].stage))
      && NoEarlyExpiry(Apply(s, steps[0]), steps[1..])
  }

  lemma StepKeepsOwnKeys(s: State, step: Step)
    requires Inv(s) && R.OwnKeys(s.redis) && Enabled(s, step)
    requires step.Expire? ==>
               forall r :: r in s.reqs && s.reqs[r].event == step.event ==> !HoldsLock(s.reqs[r].stage)
    ensures R.OwnKeys(Apply(s, step).redis)
  {
    var rs := RedisStep(s, step);
    if rs.Some? {
      forall r | r in s.redis.clients && s.redis.clients[r].phase == R.Held
        ensures rs.value.Expire? ==> s.redis.clients[r].event != rs.value.event
      {
        assert r in s.reqs && Linked(s, r);
      }
      R.CarefulStepKeepsOwnKeys(s.redis, rs.value);
    }
  }

  lemma {:induction false} RunKeepsOwnKeys(s: State, steps: seq<Step>)
    requires Inv(s) && R.OwnKeys(s.redis) && Runs(s, steps) && NoEarlyExpiry(s, steps)
    ensures Inv(Final(s, steps)) && R.OwnKeys(Final(s, steps).redis)
    decreases |steps|
  {
    if steps != [] {
      StepKeepsInv(s, steps[0]);
      StepKeepsOwnKeys(s, steps[0]);
      RunKeepsOwnKeys(Apply(s, steps[0]), steps[1..]);
    }
  }

  /** Then at most one request of all replicas is inside createBooking for an
      event; the lock covers its whole critical section. */
  lemma OneRequestInsideCreateBooking(steps: seq<Step>, r: ReqId, q: ReqId)
    requires Runs(START, steps) && NoEarlyExpiry(START, steps)
    requires r in Final(START, steps).reqs && q in Final(START, steps).reqs
    requires var s := Final(START, steps);
             && HoldsLock(s.reqs[r].stage) && HoldsLock(s.reqs[q].stage)
             && s.reqs[r].event == s.reqs[q].event
    ensures r == q
  {
    StartIsOk();
    RunKeepsOwnKeys(START, steps);
    var s := Final(START, steps);
    assert Linked(s, r) && Linked(s, q);
    R.OneHolder(s.redis, r, q);
  }
}
