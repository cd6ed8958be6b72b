/** The gates of one replica with any number of requests passing through them,
    as a transition system over the atomic sections of enter, leave and release. */
module Gates {
  import opened Prelude
  import opened Tables
  import opened GateTable

  type Addr = nat

  /** Where a request is: between the increment of enter and its send, blocked
      in the channel, past the send, past the receive of leave, or past the
      timeout; the last two still have to call release. */
  datatype Place = Arrived | Waiting | Owner | Left | GaveUp

  datatype Client = Client(event: EventId, gate: Addr, place: Place)

  /** `clients` are the requests between enter's increment and release's
      decrement, `seen` all that ever entered. */
  datatype State = State(table: Table<Addr>, clients: map<ReqId, Client>, seen: set<ReqId>)

  const IDLE := State(Table(map[], map[]), map[], {})

  datatype Step =
    | Enter(r: ReqId, event: EventId, unused: Addr)
    | Send(r: ReqId)
    | GiveUp(r: ReqId)
    | Leave(r: ReqId)
    | Release(r: ReqId)

  predicate Enabled(s: State, step: Step) {
    match step
    case Enter(r, e, unused) => r !in s.seen && unused !in s.table.heap && (e in s.table.m ==> s.table.m[e] in s.table.heap)
    case Send(r) => r in s.clients && s.clients[r].place == Arrived && s.clients[r].gate in s.table.heap
    case GiveUp(r) =>
      r in s.clients && (s.clients[r].place == Arrived || s.clients[r].place == Waiting) && s.clients[r].gate in s.table.heap
    case Leave(r) =>
      && r in s.clients && s.clients[r].place == Owner
      && s.clients[r].gate in s.table.heap && s.table.heap[s.clients[r].gate].slot.Some?
    case Release(r) =>
      r in s.clients && (s.clients[r].place == Left || s.clients[r].place == GaveUp) && s.clients[r].gate in s.table.heap
  }

  function Moved(clients: map<ReqId, Client>, r: ReqId, place: Place): map<ReqId, Client>
    requires r in clients
  {
    clients[r := clients[r].(place := place)]
  }

  /** A woken sender goes on as the owner. */
  function Woken(clients: map<ReqId, Client>, g: Gate): map<ReqId, Client> {
    if g.queue != [] && g.queue[0] in clients then Moved(clients, g.queue[0], Owner) else clients
  }

  function Apply(s: State, step: Step): State
    requires Enabled(s, step)
  {
    match step
    case Enter(r, e, unused) =>
      State(Registered(s.table, e, unused), s.clients[r := Client(e, GateFor(s.table, e, unused), Arrived)], s.seen + {r})
    case Send(r) =>
      var a := s.clients[r].gate;
      var g := s.table.heap[a];
      s.(table := OnGate(s.table, a, SentGate(g, r)),
      clients := Moved(s.clients, r, if g.slot.None? then Owner else Waiting))
    case GiveUp(r) =>
      var a := s.clients[r].gate;
      var g := s.table.heap[a];
      s.(table := if s.clients[r].place == Waiting then OnGate(s.table, a, WithdrawnGate(g, r)) else s.table,
      clients := Moved(s.clients, r, GaveUp))
    case Leave(r) =>
      var a := s.clients[r].gate;
      var g := s.table.heap[a];
      s.(table := OnGate(s.table, a, ReceivedGate(g)), clients := Moved(Woken(s.clients, g), r, Left))
    case Release(r) =>
      s.(table := Released(s.table, s.clients[r].event, s.clients[r].gate), clients := s.clients - {r})
  }

  predicate Runs(s: State, steps: seq<Step>)
    decreases |steps|
  {
    steps == [] || (Enabled(s, steps[0]) && Runs(Apply(s, steps[0]), steps[1..]))
  }

  function Final(s: State, steps: seq<Step>): State
    requires Runs(s, steps)
    decreases |steps|
  {
    if steps == [] then s else Final(Apply(s, steps[0]), steps[1..])
  }

  /* ---- The invariant ---- */

  /** The requests that hold a reference to the gate of `e`. */
  ghost function Holders(clients: map<ReqId, Client>, e: EventId): set<ReqId> {
    set r | r in clients && clients[r].event == e
  }

  /** A request holds the gate the map has for its event, and it is in the slot
      or in the queue of that gate exactly when it is an owner or blocked. */
  ghost predicate ClientOk(s: State, r: ReqId)
    requires r in s.clients
  {
    var c := s.clients[r];
    && r in s.seen
    && c.event in s.table.m && s.table.m[c.event] == c.gate && c.gate in s.table.heap
    && (c.place == Owner <==> s.table.heap[c.gate].slot == Some(r))
    && (c.place == Waiting <==> r in s.table.heap[c.gate].queue)
  }

  /** A gate in the map counts its holders, of which there is at least one; its
      slot and queue hold requests for this event, and nobody waits at a free
      slot. */
  ghost predicate GateOk(s: State, e: EventId)
    requires e in s.table.m
  {
    s.table.m[e] in s.table.heap &&
    var g := s.table.heap[s.table.m[e]];
    && g.refs == |Holders(s.clients, e)| && g.refs > 0
    && Distinct(g.queue)
    && (g.slot.Some? ==> g.slot.value in s.clients && s.clients[g.slot.value].event == e)
    && (forall r :: r in g.queue ==> r in s.clients && s.clients[r].event == e)
    && (g.queue != [] ==> g.slot.Some?)
    && forall f :: f in s.table.m && s.table.m[f] == s.table.m[e] ==> f == e
  }

  ghost predicate Inv(s: State) {
    && (forall r :: r in s.clients ==> ClientOk(s, r))
    && (forall e :: e in s.table.m ==> GateOk(s, e))
  }

  lemma RemoveFrom(q: seq<ReqId>, r: ReqId)
    requires Distinct(q)
    ensures Distinct(Remove(q, r))
    ensures forall x :: x in Remove(q, r) <==> x in q && x != r
    decreases |q|
  {
    if q != [] {
      var rest := q[1..];
      assert q == [q[0]] + rest;
      assert forall i :: 0 <= i < |rest| ==> rest[i] == q[i + 1];
      RemoveFrom(rest, r);
      if q[0] != r {
        var t := Remove(rest, r);
        assert q[0] !in rest;
        assert forall i :: 0 < i < |[q[0]] + t| ==> ([q[0]] + t)[i] == t[i - 1];
      }
    }
  }

  /** Requests for different events hold different gates. */
  lemma GatesApart(s: State, x: ReqId, y: ReqId)
    requires Inv(s) && x in s.clients && y in s.clients
    ensures s.clients[x].event == s.clients[y].event <==> s.clients[x].gate == s.clients[y].gate
  {
    assert ClientOk(s, x) && ClientOk(s, y) && GateOk(s, s.clients[x].event);
  }

  lemma EnterClient(s: State, r: ReqId, e: EventId, unused: Addr, x: ReqId)
    requires Inv(s) && Enabled(s, Enter(r, e, unused)) && (x == r || x in s.clients)
    ensures ClientOk(Apply(s, Enter(r, e, unused)), x)
  {
    if x == r {
      if e in s.table.m {
        assert GateOk(s, e);
        assert r in s.clients ==> ClientOk(s, r);
      }
    } else {
      assert ClientOk(s, x) && GateOk(s, s.clients[x].event);
    }
  }

  lemma HoldersGrow(clients: map<ReqId, Client>, r: ReqId, c: Client, f: EventId)
    requires r !in clients
    ensures |Holders(clients[r := c], f)| == |Holders(clients, f)| + if c.event == f then 1 else 0
  {
    if c.event == f {
      assert Holders(clients[r := c], f) == Holders(clients, f) + {r};
    } else {
      assert Holders(clients[r := c], f) == Holders(clients, f);
    }
  }

  lemma NoHolders(s: State, f: EventId)
    requires Inv(s) && f !in s.table.m
    ensures Holders(s.clients, f) == {}
  {
    assert forall x :: x in s.clients ==> ClientOk(s, x);
  }

  lemma EnterGate(s: State, r: ReqId, e: EventId, unused: Addr, f: EventId)
    requires Inv(s) && Enabled(s, Enter(r, e, unused)) && (f == e || f in s.table.m)
    ensures GateOk(Apply(s, Enter(r, e, unused)), f)
  {
    var s' := Apply(s, Enter(r, e, unused));
    assert r in s.clients ==> ClientOk(s, r);
    HoldersGrow(s.clients, r, s'.clients[r], f);
    if f in s.table.m {
      assert GateOk(s, f);
    } else {
      NoHolders(s, f);
    }
    forall h | h in s'.table.m && s'.table.m[h] == s'.table.m[f]
      ensures h == f
    {
      assert h in s.table.m ==> GateOk(s, h);
    }
  }

  lemma SendClient(s: State, r: ReqId, x: ReqId)
    requires Inv(s) && Enabled(s, Send(r)) && x in s.clients
    ensures ClientOk(Apply(s, Send(r)), x)
  {
    assert ClientOk(s, r) && ClientOk(s, x);
    GatesApart(s, r, x);
  }

  /** Requests come and go only at Enter and Release. */
  lemma SameHolders(s: State, s': State, e: EventId)
    requires s'.clients.Keys == s.clients.Keys
    requires forall x :: x in s.clients ==> s'.clients[x].event == s.clients[x].event
    ensures Holders(s'.clients, e) == Holders(s.clients, e)
  {
  }

  /** A step that neither adds nor drops requests or map entries keeps a gate
      in order if it keeps its reference count and its queue. */
  lemma GateStays(s: State, s': State, f: EventId)
    requires Inv(s) && f in s.table.m && s'.table.m == s.table.m && s'.clients.Keys == s.clients.Keys
    requires forall x :: x in s.clients ==> s'.clients[x].event == s.clients[x].event
    requires var a := s.table.m[f];
             a in s'.table.heap &&
             var g := s'.table.heap[a];
             && a in s.table.heap && g.refs == s.table.heap[a].refs
             && Distinct(g.queue) && (g.queue != [] ==> g.slot.Some?)
             && (g.slot.Some? ==> g.slot.value in s.clients && s.clients[g.slot.value].event == f)
             && forall r :: r in g.queue ==> r in s.clients && s.clients[r].event == f
    ensures GateOk(s', f)
  {
    assert GateOk(s, f);
    SameHolders(s, s', f);
  }

  lemma SendGate(s: State, r: ReqId, f: EventId)
    requires Inv(s) && Enabled(s, Send(r)) && f in s.table.m
    ensures GateOk(Apply(s, Send(r)), f)
  {
    assert ClientOk(s, r) && GateOk(s, f);
    if f == s.clients[r].event {
      DistinctAppend(s.table.heap[s.table.m[f]].queue, r);
    }
    GateStays(s, Apply(s, Send(r)), f);
  }

  lemma GiveUpClient(s: State, r: ReqId, x: ReqId)
    requires Inv(s) && Enabled(s, GiveUp(r)) && x in s.clients
    ensures ClientOk(Apply(s, GiveUp(r)), x)
  {
    assert ClientOk(s, r) && ClientOk(s, x) && GateOk(s, s.clients[r].event);
    GatesApart(s, r, x);
    RemoveFrom(s.table.heap[s.clients[r].gate].queue, r);
  }

  lemma GiveUpGate(s: State, r: ReqId, f: EventId)
    requires Inv(s) && Enabled(s, GiveUp(r)) && f in s.table.m
    ensures GateOk(Apply(s, GiveUp(r)), f)
  {
    assert ClientOk(s, r) && GateOk(s, f) && GateOk(s, s.clients[r].event);
    RemoveFrom(s.table.heap[s.clients[r].gate].queue, r);
    GateStays(s, Apply(s, GiveUp(r)), f);
  }

  lemma TailOf(q: seq<ReqId>)
    requires Distinct(q) && q != []
    ensures Distinct(q[1..]) && forall x :: x in q[1..] <==> x in q && x != q[0]
  {
    assert forall i :: 0 <= i < |q| - 1 ==> q[1..][i] == q[i + 1];
    assert q == [q[0]] + q[1..];
  }

  lemma LeaveClient(s: State, r: ReqId, x: ReqId)
    requires Inv(s) && Enabled(s, Leave(r)) && x in s.clients
    ensures ClientOk(Apply(s, Leave(r)), x)
  {
    assert ClientOk(s, r) && ClientOk(s, x) && GateOk(s, s.clients[r].event);
    GatesApart(s, r, x);
    var q := s.table.heap[s.clients[r].gate].queue;
    if q != [] {
      TailOf(q);
      assert ClientOk(s, q[0]);
      GatesApart(s, r, q[0]);
    }
  }

  lemma LeaveGate(s: State, r: ReqId, f: EventId)
    requires Inv(s) && Enabled(s, Leave(r)) && f in s.table.m
    ensures GateOk(Apply(s, Leave(r)), f)
  {
    assert ClientOk(s, r) && GateOk(s, f) && GateOk(s, s.clients[r].event);
    var q := s.table.heap[s.clients[r].gate].queue;
    if q != [] {
      TailOf(q);
    }
    GateStays(s, Apply(s, Leave(r)), f);
  }

  lemma ReleaseClient(s: State, r: ReqId, x: ReqId)
    requires Inv(s) && Enabled(s, Release(r)) && x in s.clients && x != r
    ensures ClientOk(Apply(s, Release(r)), x)
  {
    assert ClientOk(s, r) && ClientOk(s, x) && GateOk(s, s.clients[r].event);
    GatesApart(s, r, x);
    if s.clients[x].event == s.clients[r].event {
      TwoHolders(Holders(s.clients, s.clients[r].event), x, r);
    }
  }

  lemma TwoHolders(h: set<ReqId>, x: ReqId, y: ReqId)
    requires x in h && y in h && x != y
    ensures |h| >= 2
  {
    assert {x, y} <= h;
    assert h == {x, y} + (h - {x, y});
  }

  lemma ReleaseHolders(s: State, r: ReqId, f: EventId)
    requires Enabled(s, Release(r))
    ensures |Holders(Apply(s, Release(r)).clients, f)| == |Holders(s.clients, f)| - if f == s.clients[r].event then 1 else 0
  {
    var h, h' := Holders(s.clients, f), Holders(Apply(s, Release(r)).clients, f);
    assert h' == h - {r};
    assert r in h <==> f == s.clients[r].event;
    assert r in h ==> h == h' + {r};
    assert r !in h ==> h == h';
  }

  lemma ReleaseGate(s: State, r: ReqId, f: EventId)
    requires Inv(s) && Enabled(s, Release(r)) && f in Apply(s, Release(r)).table.m
    ensures GateOk(Apply(s, Release(r)), f)
  {
    var e := s.clients[r].event;
    assert ClientOk(s, r) && GateOk(s, f) && GateOk(s, e);
    ReleaseHolders(s, r, f);
  }

  lemma StepKeepsInv(s: State, step: Step)
    requires Inv(s) && Enabled(s, step)
    ensures Inv(Apply(s, step))
  {
    var s' := Apply(s, step);
    forall x | x in s'.clients
      ensures ClientOk(s', x)
    {
      match step
      case Enter(r, e, unused) => EnterClient(s, r, e, unused, x);
      case Send(r) => SendClient(s, r, x);
      case GiveUp(r) => GiveUpClient(s, r, x);
      case Leave(r) => LeaveClient(s, r, x);
      case Release(r) => ReleaseClient(s, r, x);
    }
    forall f | f in s'.table.m
      ensures GateOk(s', f)
    {
      match step
      case Enter(r, e, unused) => EnterGate(s, r, e, unused, f);
      case Send(r) => SendGate(s, r, f);
      case GiveUp(r) => GiveUpGate(s, r, f);
      case Leave(r) => LeaveGate(s, r, f);
      case Release(r) => ReleaseGate(s, r, f);
    }
  }

  lemma {:induction false} RunKeepsInv(s: State, steps: seq<Step>)
    requires Inv(s) && Runs(s, steps)
    ensures Inv(Final(s, steps))
    decreases |steps|
  {
    if steps != [] {
      StepKeepsInv(s, steps[0]);
      RunKeepsInv(Apply(s, steps[0]), steps[1..]);
    }
  }
}
