/** Why ClusterGuarantees.OneRequestInsideCreateBooking needs its condition: a
    run of the whole cluster in which a key expires under its owner and two
    requests are inside createBooking for the same event. */
module EarlyExpiry {
  import opened Tables
  import opened Cluster
  import G = Gates
  import R = RedisLock
  import CG = ClusterGuarantees
  import V = RequestView

  /** The steps of a request that goes straight through to its transaction. */
  function Straight(r: ReqId, p: ReplicaId, e: EventId, u: UserId, gate: G.Addr, token: R.Token): seq<Step> {
    [Arrive(r, p, e, u, gate), Send(r)] + [NewToken(r, token), SetNx(r, true), BeginTx(r)]
  }

  /** Nothing stands in its way: it is new, its replica has no gate for the
      event, and the key is free. */
  ghost predicate Unhindered(s: State, r: ReqId, p: ReplicaId, e: EventId, u: UserId, gate: G.Addr, token: R.Token) {
    && e > 0 && u > 0 && r !in s.reqs && r !in s.db.txs && r !in s.db.log
    && e !in GatesOf(s, p).table.m && r !in GatesOf(s, p).seen && gate !in GatesOf(s, p).table.heap
    && r !in s.redis.clients && token !in s.redis.used && e !in s.redis.keys
  }

  /** What a straight run leaves. */
  ghost predicate Inside(s: State, s': State, r: ReqId, p: ReplicaId, e: EventId, u: UserId, token: R.Token) {
    && s'.reqs == s.reqs[r := Req(p, e, u, InTx)]
    && s'.db.txs.Keys == s.db.txs.Keys + {r} && s'.db.log == s.db.log
    && s'.redis.keys == s.redis.keys[e := token] && s'.redis.used == s.redis.used + {token}
    && s'.redis.clients.Keys == s.redis.clients.Keys + {r}
    && forall q :: q != p ==> GatesOf(s', q) == GatesOf(s, q)
  }

  lemma OwnsAtOnce(s: State, r: ReqId, p: ReplicaId, e: EventId, u: UserId, gate: G.Addr, token: R.Token)
    requires Unhindered(s, r, p, e, u, gate, token)
    ensures Enabled(s, Arrive(r, p, e, u, gate))
    ensures var s1 := Apply(s, Arrive(r, p, e, u, gate));
            && Enabled(s1, Send(r))
            && var s2 := Apply(s1, Send(r));
               && s2.reqs == s.reqs[r := Req(p, e, u, AtGate)] && s2.db == s.db && s2.redis == s.redis
               && OwnsSlot(s2, r) && forall q :: q != p ==> GatesOf(s2, q) == GatesOf(s, q)
  {
  }

  lemma LocksAtOnce(s: State, r: ReqId, token: R.Token)
    requires r in s.reqs && s.reqs[r].stage == AtGate && OwnsSlot(s, r)
    requires r !in s.redis.clients && token !in s.redis.used && s.reqs[r].event !in s.redis.keys
    ensures Enabled(s, NewToken(r, token))
    ensures var s1 := Apply(s, NewToken(r, token));
            && Enabled(s1, SetNx(r, true))
            && var s2 := Apply(s1, SetNx(r, true));
               && s2.reqs == s.reqs[r := s.reqs[r].(stage := Locked)] && s2.gates == s.gates && s2.db == s.db
               && s2.redis.keys == s.redis.keys[s.reqs[r].event := token] && s2.redis.used == s.redis.used + {token}
               && s2.redis.clients.Keys == s.redis.clients.Keys + {r}
  {
  }

  lemma BeginsAtOnce(s: State, r: ReqId)
    requires r in s.reqs && s.reqs[r].stage == Locked && r !in s.db.txs && r !in s.db.log
    ensures Enabled(s, BeginTx(r))
    ensures var s' := Apply(s, BeginTx(r));
            && s'.reqs == s.reqs[r := s.reqs[r].(stage := InTx)] && s'.gates == s.gates && s'.redis == s.redis
            && s'.db.txs.Keys == s.db.txs.Keys + {r} && s'.db.log == s.db.log
  {
  }

  lemma OneStep(s: State, a: Step)
    requires Enabled(s, a)
    ensures Runs(s, [a]) && Final(s, [a]) == Apply(s, a)
  {
    assert [a][1..] == [];
    assert Runs(Apply(s, a), []);
  }

  lemma TwoSteps(s: State, a: Step, b: Step)
    requires Enabled(s, a) && Enabled(Apply(s, a), b)
    ensures Runs(s, [a, b]) && Final(s, [a, b]) == Apply(Apply(s, a), b)
  {
    OneStep(Apply(s, a), b);
    assert [a, b][1..] == [b];
  }

  lemma ThreeSteps(s: State, a: Step, b: Step, c: Step)
    requires Enabled(s, a) && Enabled(Apply(s, a), b) && Enabled(Apply(Apply(s, a), b), c)
    ensures Runs(s, [a, b, c]) && Final(s, [a, b, c]) == Apply(Apply(Apply(s, a), b), c)
  {
    TwoSteps(Apply(s, a), b, c);
    assert [a, b, c][1..] == [b, c];
  }

  lemma GetsSlot(s: State, r: ReqId, p: ReplicaId, e: EventId, u: UserId, gate: G.Addr, token: R.Token)
    requires Unhindered(s, r, p, e, u, gate, token)
    ensures Runs(s, [Arrive(r, p, e, u, gate), Send(r)])
    ensures var s' := Final(s, [Arrive(r, p, e, u, gate), Send(r)]);
            && s'.reqs == s.reqs[r := Req(p, e, u, AtGate)] && s'.db == s.db && s'.redis == s.redis
            && OwnsSlot(s', r) && forall q :: q != p ==> GatesOf(s', q) == GatesOf(s, q)
  {
    OwnsAtOnce(s, r, p, e, u, gate, token);
    TwoSteps(s, Arrive(r, p, e, u, gate), Send(r));
  }

  lemma GetsLock(s: State, r: ReqId, token: R.Token)
    requires r in s.reqs && s.reqs[r].stage == AtGate && OwnsSlot(s, r) && r !in s.db.txs && r !in s.db.log
    requires r !in s.redis.clients && token !in s.redis.used && s.reqs[r].event !in s.redis.keys
    ensures Runs(s, [NewToken(r, token), SetNx(r, true), BeginTx(r)])
    ensures var s' := Final(s, [NewToken(r, token), SetNx(r, true), BeginTx(r)]);
            && s'.reqs == s.reqs[r := s.reqs[r].(stage := InTx)] && s'.gates == s.gates
            && s'.db.txs.Keys == s.db.txs.Keys + {r} && s'.db.log == s.db.log
            && s'.redis.keys == s.redis.keys[s.reqs[r].event := token] && s'.redis.used == s.redis.used + {token}
            && s'.redis.clients.Keys == s.redis.clients.Keys + {r}
  {
    LocksAtOnce(s, r, token);
    var s2 := Apply(Apply(s, NewToken(r, token)), SetNx(r, true));
    BeginsAtOnce(s2, r);
    ThreeSteps(s, NewToken(r, token), SetNx(r, true), BeginTx(r));
  }

  /** An unhindered request gets inside createBooking. */
  lemma GoesStraight(s: State, r: ReqId, p: ReplicaId, e: EventId, u: UserId, gate: G.Addr, token: R.Token)
    requires Unhindered(s, r, p, e, u, gate, token)
    ensures Runs(s, Straight(r, p, e, u, gate, token))
    ensures Inside(s, Final(s, Straight(r, p, e, u, gate, token)), r, p, e, u, token)
  {
    var a, b := [Arrive(r, p, e, u, gate), Send(r)], [NewToken(r, token), SetNx(r, true), BeginTx(r)];
    GetsSlot(s, r, p, e, u, gate, token);
    var s' := Final(s, a);
    GetsLock(s', r, token);
    InsideByParts(s, s', Final(s', b), r, p, e, u, token);
    RunsAppend(s, a, b);
  }

  lemma InsideByParts(s: State, mid: State, s': State, r: ReqId, p: ReplicaId, e: EventId, u: UserId, token: R.Token)
    requires mid.reqs == s.reqs[r := Req(p, e, u, AtGate)] && mid.db == s.db && mid.redis == s.redis
    requires forall q :: q != p ==> GatesOf(mid, q) == GatesOf(s, q)
    requires s'.reqs == mid.reqs[r := mid.reqs[r].(stage := InTx)] && s'.gates == mid.gates
    requires s'.db.txs.Keys == mid.db.txs.Keys + {r} && s'.db.log == mid.db.log
    requires s'.redis.keys == mid.redis.keys[e := token] && s'.redis.used == mid.redis.used + {token}
    requires s'.redis.clients.Keys == mid.redis.clients.Keys + {r}
    ensures Inside(s, s', r, p, e, u, token)
  {
    assert s'.reqs == s.reqs[r := Req(p, e, u, InTx)];
  }

  lemma KeyExpires(s: State, e: EventId)
    requires e in s.redis.keys
    ensures Enabled(s, Expire(e))
    ensures Apply(s, Expire(e)) == s.(redis := s.redis.(keys := s.redis.keys - {e}))
  {
  }

  /** Request 1 on replica 0, the expiry of its key, request 2 on replica 1. */
  function TwoInside(e: EventId): seq<Step> {
    Straight(1, 0, e, 1, 0, 100) + [Expire(e)] + Straight(2, 1, e, 2, 0, 101)
  }

  /** For every event there is a run in which an early expiry lets two requests
      of different replicas into createBooking. */
  lemma ExpiryLetsTwoInside(e: EventId)
    requires e > 0
    ensures Runs(START, TwoInside(e)) && !CG.NoEarlyExpiry(START, TwoInside(e))
    ensures var s := Final(START, TwoInside(e));
            && 1 in s.reqs && 2 in s.reqs && s.reqs[1].event == e && s.reqs[2].event == e
            && s.reqs[1].stage == InTx && s.reqs[2].stage == InTx
  {
    BothInside(e);
    if CG.NoEarlyExpiry(START, TwoInside(e)) {
      CG.OneRequestInsideCreateBooking(TwoInside(e), 1, 2);
    }
  }

  lemma FirstInside(e: EventId)
    requires e > 0
    ensures Runs(START, Straight(1, 0, e, 1, 0, 100) + [Expire(e)])
    ensures var s := Final(START, Straight(1, 0, e, 1, 0, 100) + [Expire(e)]);
            s.reqs == map[1 := Req(0, e, 1, InTx)] && Unhindered(s, 2, 1, e, 2, 0, 101)
  {
    var first := Straight(1, 0, e, 1, 0, 100);
    GoesStraight(START, 1, 0, e, 1, 0, 100);
    var s := Final(START, first);
    KeyExpires(s, e);
    OneStep(s, Expire(e));
    RunsAppend(START, first, [Expire(e)]);
    RoomForAnother(s, e);
  }

  lemma RoomForAnother(s: State, e: EventId)
    requires e > 0 && Inside(START, s, 1, 0, e, 1, 100)
    ensures var s' := s.(redis := s.redis.(keys := s.redis.keys - {e}));
            s'.reqs == map[1 := Req(0, e, 1, InTx)] && Unhindered(s', 2, 1, e, 2, 0, 101)
  {
    assert GatesOf(s, 1) == GatesOf(START, 1);
  }

  lemma BothInside(e: EventId)
    requires e > 0
    ensures Runs(START, TwoInside(e))
    ensures var s := Final(START, TwoInside(e));
            && 1 in s.reqs && 2 in s.reqs && s.reqs[1].event == e && s.reqs[2].event == e
            && s.reqs[1].stage == InTx && s.reqs[2].stage == InTx
  {
    var first := Straight(1, 0, e, 1, 0, 100) + [Expire(e)];
    FirstInside(e);
    GoesStraight(Final(START, first), 2, 1, e, 2, 0, 101);
    RunsAppend(START, first, Straight(2, 1, e, 2, 0, 101));
  }

  /* ---- Every early expiry ---- */

  /** The steps after which a second request is inside. */
  function Intrusion(q: ReqId, p: ReplicaId, e: EventId, u: UserId, token: R.Token): seq<Step> {
    [Expire(e)] + Straight(q, p, e, u, 0, token)
  }

  /** Whenever in any state of any cluster a key expires while a request is in its
      critical section, a new request on a new replica can get inside
      createBooking for the same event at once. */
  lemma EveryEarlyExpiryLetsAnotherIn(s: State, r: ReqId, u: UserId)
    returns (q: ReqId, p: ReplicaId, token: R.Token)
    requires Inv(s) && r in s.reqs && CG.HoldsLock(s.reqs[r].stage) && s.reqs[r].event in s.redis.keys
    requires s.reqs[r].event > 0 && u > 0
    ensures q != r && Runs(s, Intrusion(q, p, s.reqs[r].event, u, token))
    ensures var s' := Final(s, Intrusion(q, p, s.reqs[r].event, u, token));
            && r in s'.reqs && s'.reqs[r] == s.reqs[r]
            && q in s'.reqs && s'.reqs[q] == Req(p, s.reqs[r].event, u, InTx)
  {
    var e := s.reqs[r].event;
    KeyExpires(s, e);
    OneStep(s, Expire(e));
    var s' := Apply(s, Expire(e));
    q, p, token := Newcomer(s);
    assert GatesOf(s', p) == G.IDLE;
    GoesStraight(s', q, p, e, u, 0, token);
    RunsAppend(s, [Expire(e)], Straight(q, p, e, u, 0, token));
  }

  /** Identifiers that nobody has used. */
  lemma Newcomer(s: State) returns (q: ReqId, p: ReplicaId, token: R.Token)
    ensures q !in s.reqs && q !in s.db.txs && q !in s.db.log && q !in s.redis.clients
    ensures p !in s.gates && token !in s.redis.used
  {
    var taken := s.reqs.Keys + s.db.txs.Keys + s.db.log.Keys + s.redis.clients.Keys;
    q, p, token := V.Above(taken), V.Above(s.gates.Keys), V.Above(s.redis.used);
    assert q !in taken;
  }
}
