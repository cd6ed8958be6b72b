/** The Redis lock of BookWithLock (internal/booking/service.go): SET NX with a
    token and a TTL, and compare-and-delete release, used by requests of any
    number of replicas. */
module RedisLock {
  import opened Tables

  type ReqId = nat
  type Token = nat

  datatype Phase = Polling | Held

  datatype Client = Client(event: EventId, token: Token, phase: Phase)

  /** `clients` are the requests between newToken and the end of their release;
      `used` the tokens handed out; `orphans` the tokens whose request ended
      without deleting the key: a lost SET NX reply, a failed release, a crash. */
  datatype State = State(keys: map<EventId, Token>, clients: map<ReqId, Client>, used: set<Token>, orphans: set<Token>)

  const NO_LOCKS := State(map[], map[], {}, {})

  /** How the release script ends: applied, refused before it ran, or applied
      with the reply lost. */
  datatype ReleaseEnd = Clean | NotApplied | ReplyLost

  datatype Step =
    | NewToken(r: ReqId, event: EventId, token: Token)
    | SetNx(r: ReqId, replied: bool)
    | GiveUp(r: ReqId)
    | Release(r: ReqId, end: ReleaseEnd)
    | Expire(event: EventId)
    | Crash(gone: set<ReqId>)

  predicate Enabled(s: State, step: Step) {
    match step
    case NewToken(r, _, token) => r !in s.clients && token !in s.used
    case SetNx(r, _) => r in s.clients && s.clients[r].phase == Polling
    case GiveUp(r) => r in s.clients && s.clients[r].phase == Polling
    case Release(r, _) => r in s.clients && s.clients[r].phase == Held
    case Expire(e) => e in s.keys
    case Crash(_) => true
  }

  /** SET key token NX: sets the key only if it is free. */
  function SetIfFree(keys: map<EventId, Token>, e: EventId, token: Token): map<EventId, Token> {
    if e in keys then keys else keys[e := token]
  }

  /** The release script: deletes the key only if it holds this token. */
  function CompareAndDelete(keys: map<EventId, Token>, e: EventId, token: Token): map<EventId, Token> {
    if e in keys && keys[e] == token then keys - {e} else keys
  }

  function Apply(s: State, step: Step): State
    requires Enabled(s, step)
  {
    match step
    case NewToken(r, e, token) => s.(clients := s.clients[r := Client(e, token, Polling)], used := s.used + {token})
    case SetNx(r, replied) =>
      var c := s.clients[r];
      var acquired := c.event !in s.keys;
      var s' := s.(keys := SetIfFree(s.keys, c.event, c.token));
      if !replied then s'.(clients := s.clients - {r}, orphans := if acquired then s.orphans + {c.token} else s.orphans)
      else if acquired then s'.(clients := s.clients[r := c.(phase := Held)])
      else s'
    case GiveUp(r) => s.(clients := s.clients - {r})
    case Release(r, end) =>
      var c := s.clients[r];
      s.(keys := if end == NotApplied then s.keys else CompareAndDelete(s.keys, c.event, c.token),
      clients := s.clients - {r},
      orphans := if end == NotApplied then s.orphans + {c.token} else s.orphans)
    case Expire(e) => s.(keys := s.keys - {e})
    case Crash(gone) =>
      s.(clients := s.clients - gone,
      orphans := s.orphans + set r | r in gone && r in s.clients :: s.clients[r].token)
  }

  /* ---- Tokens ---- */

  ghost predicate ClientOk(s: State, r: ReqId)
    requires r in s.clients
  {
    s.clients[r].token in s.used && s.clients[r].token !in s.orphans
  }

  /** A key belongs to a request that holds the lock, or it was orphaned. */
  ghost predicate KeyOk(s: State, e: EventId)
    requires e in s.keys
  {
    && s.keys[e] in s.used
    && (s.keys[e] in s.orphans
        || exists r :: r in s.clients && s.clients[r] == Client(e, s.keys[e], Held))
  }

  ghost predicate Inv(s: State) {
    && (forall r :: r in s.clients ==> ClientOk(s, r))
    && (forall e :: e in s.keys ==> KeyOk(s, e))
    && (forall r, q :: r in s.clients && q in s.clients && s.clients[r].token == s.clients[q].token ==> r == q)
    && s.orphans <= s.used
  }

  lemma ClientsStayOk(s: State, step: Step, r: ReqId)
    requires Inv(s) && Enabled(s, step) && r in Apply(s, step).clients
    ensures ClientOk(Apply(s, step), r)
  {
    assert r in s.clients ==> ClientOk(s, r);
  }

  lemma KeysStayOk(s: State, step: Step, e: EventId)
    requires Inv(s) && Enabled(s, step) && e in Apply(s, step).keys
    ensures KeyOk(Apply(s, step), e)
  {
    var s' := Apply(s, step);
    if e in s.keys {
      assert KeyOk(s, e);
      if s.keys[e] !in s.orphans {
        var r :| r in s.clients && s.clients[r] == Client(e, s.keys[e], Held);
        assert r in s'.clients ==> s'.clients[r] == s.clients[r];
        assert r !in s'.clients ==> s.keys[e] in s'.orphans;
      }
    } else {
      assert step.SetNx? && ClientOk(s, step.r);
      assert step.replied ==> s'.clients[step.r] == Client(e, s'.keys[e], Held);
    }
  }

  /** Every step keeps tokens apart and accounts for every key. */
  lemma StepKeepsInv(s: State, step: Step)
    requires Inv(s) && Enabled(s, step)
    ensures Inv(Apply(s, step))
  {
    var s' := Apply(s, step);
    forall r | r in s'.clients
      ensures ClientOk(s', r)
    {
      ClientsStayOk(s, step, r);
    }
    forall e | e in s'.keys
      ensures KeyOk(s', e)
    {
      KeysStayOk(s, step, e);
    }
    TokensStayApart(s, step);
  }

  lemma TokensStayApart(s: State, step: Step)
    requires Inv(s) && Enabled(s, step)
    ensures var s' := Apply(s, step);
            && (forall r, q :: r in s'.clients && q in s'.clients && s'.clients[r].token == s'.clients[q].token ==> r == q)
            && s'.orphans <= s'.used
  {
    assert forall r :: r in s.clients ==> ClientOk(s, r);
  }

  /** A release deletes the releasing request's own key or nothing: in
      particular it never frees the lock of another request. */
  lemma ReleaseIsOwnerSafe(s: State, r: ReqId, end: ReleaseEnd)
    requires Inv(s) && Enabled(s, Release(r, end))
    ensures var s', e := Apply(s, Release(r, end)), s.clients[r].event;
            && (s'.keys == s.keys || (e in s.keys && s.keys[e] == s.clients[r].token && s'.keys == s.keys - {e}))
            && forall q :: q in s.clients && q != r && s.clients[q].event in s.keys
                           && s.keys[s.clients[q].event] == s.clients[q].token
                           ==> s.clients[q].event in s'.keys && s'.keys[s.clients[q].event] == s.clients[q].token
  {
  }

  /* ---- Mutual exclusion ---- */

  /** The step lets no key expire whose owner is between acquire and release. */
  ghost predicate Careful(s: State, step: Step) {
    step.Expire? ==> forall r :: r in s.clients && s.clients[r].phase == Held ==> s.clients[r].event != step.event
  }

  /** Whoever holds the lock owns the key. */
  ghost predicate OwnKeys(s: State) {
    forall r :: r in s.clients && s.clients[r].phase == Held ==>
                  s.clients[r].event in s.keys && s.keys[s.clients[r].event] == s.clients[r].token
  }

  lemma CarefulStepKeepsOwnKeys(s: State, step: Step)
    requires Inv(s) && OwnKeys(s) && Enabled(s, step) && Careful(s, step)
    ensures OwnKeys(Apply(s, step))
  {
    var s' := Apply(s, step);
    forall r | r in s'.clients && s'.clients[r].phase == Held
      ensures s'.clients[r].event in s'.keys && s'.keys[s'.clients[r].event] == s'.clients[r].token
    {
      assert r in s.clients;
      if step.Release? {
        ReleaseIsOwnerSafe(s, step.r, step.end);
      }
    }
  }

  lemma OneHolder(s: State, r: ReqId, q: ReqId)
    requires Inv(s) && OwnKeys(s) && r in s.clients && q in s.clients
    requires s.clients[r].phase == Held && s.clients[q].phase == Held && s.clients[r].event == s.clients[q].event
    ensures r == q
  {
  }

  predicate Runs(s: State, steps: seq<Step>)
    decreases |steps|
  {
    steps == [] || (Enabled(s, steps[0]) && Runs(Apply(s, steps[0]), steps[1..]))
  }

  function Final(s: State, steps: seq<Step>): State
    requires Runs(s, steps)
    decreases |steps|
  {
    if steps == [] then s else Final(Apply(s, steps[0]), steps[1..])
  }

  /** Request 1 takes the lock of event 7, its key expires, and request 2 takes it. */
  const EARLY_EXPIRY := [NewToken(1, 7, 100), SetNx(1, true), Expire(7), NewToken(2, 7, 101), SetNx(2, true)]

  /** Mutual exclusion needs that condition: when a key expires early, two
      requests hold the same lock. */
  lemma ExpiryLetsTwoIn()
    ensures Runs(NO_LOCKS, EARLY_EXPIRY)
    ensures Final(NO_LOCKS, EARLY_EXPIRY).clients == map[1 := Client(7, 100, Held), 2 := Client(7, 101, Held)]
  {
    var x := EARLY_EXPIRY;
    var s2 := State(map[7 := 100], map[1 := Client(7, 100, Held)], {100}, {});
    var s3 := s2.(keys := map[]);
    var s5 := State(map[7 := 101], map[1 := Client(7, 100, Held), 2 := Client(7, 101, Held)], {100, 101}, {});
    assert s2 == Apply(Apply(NO_LOCKS, x[0]), x[1]);
    assert s3 == Apply(s2, x[2]);
    assert s5 == Apply(Apply(s3, x[3]), x[4]);
    assert Runs(s5, x[5..]) && Final(s5, x[5..]) == s5;
    assert x[3..][1..] == x[4..] && x[4..][1..] == x[5..];
    assert Runs(s3, x[3..]) && Final(s3, x[3..]) == s5;
    assert x[2..][1..] == x[3..];
    assert Runs(s2, x[2..]) && Final(s2, x[2..]) == s5;
    assert x[1..][1..] == x[2..];
  }
}
