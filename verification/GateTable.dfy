/** The data of internal/booking/gate.go: a map from events to reference-counted
    gates, each with a channel of capacity one. A channel is the request whose
    value is in the buffer and the queue of blocked senders; a receive hands the
    slot to the oldest blocked sender. `A` is the type of gate addresses. */
module GateTable {
  import opened Prelude
  import opened Tables

  type ReqId = nat

  datatype Gate = Gate(refs: int, slot: Option<ReqId>, queue: seq<ReqId>)

  datatype Table<A> = Table(m: map<EventId, A>, heap: map<A, Gate>)

  const NEW_GATE := Gate(0, None, [])

  /** The first part of enter, under the mutex: find or make the gate and count
      a reference. `unused` is the address a new gate would get. */
  function GateFor<A>(t: Table<A>, e: EventId, unused: A): A {
    if e in t.m then t.m[e] else unused
  }

  function Registered<A>(t: Table<A>, e: EventId, unused: A): Table<A>
    requires e in t.m ==> t.m[e] in t.heap
  {
    var a := GateFor(t, e, unused);
    var g := if e in t.m then t.heap[a] else NEW_GATE;
    Table(t.m[e := a], t.heap[a := g.(refs := g.refs + 1)])
  }

  /** The send of enter: take the free slot or join the queue. */
  function SentGate(g: Gate, r: ReqId): Gate {
    if g.slot.None? then g.(slot := Some(r)) else g.(queue := g.queue + [r])
  }

  /** A blocked sender whose context is done leaves the queue. */
  function WithdrawnGate(g: Gate, r: ReqId): Gate {
    g.(queue := Remove(g.queue, r))
  }

  /** The receive of leave. */
  function ReceivedGate(g: Gate): Gate {
    if g.queue == [] then g.(slot := None) else g.(slot := Some(g.queue[0]), queue := g.queue[1..])
  }

  function OnGate<A>(t: Table<A>, a: A, g: Gate): Table<A> {
    t.(heap := t.heap[a := g])
  }

  /** release, under the mutex: drop a reference, and the map entry with the last. */
  function Released<A>(t: Table<A>, e: EventId, a: A): Table<A>
    requires a in t.heap
  {
    var g := t.heap[a];
    Table(if g.refs == 1 then t.m - {e} else t.m, t.heap[a := g.(refs := g.refs - 1)])
  }

  function Remove(q: seq<ReqId>, r: ReqId): seq<ReqId> {
    if q == [] then [] else if q[0] == r then q[1..] else [q[0]] + Remove(q[1..], r)
  }

  /* ---- The same data as mutable objects ---- */

  class GateCell {
    var refs: int
    var slot: Option<ReqId>
    var queue: seq<ReqId>

    constructor ()
      ensures Value() == NEW_GATE
    {
      refs, slot, queue := 0, None, [];
    }

    function Value(): Gate
      reads this
    {
      Gate(refs, slot, queue)
    }
  }

  /** All gates ever made, of which `m` points to the live ones. */
  class EventGates {
    var m: map<EventId, GateCell>
    ghost var cells: set<GateCell>

    ghost predicate Valid()
      reads this
    {
      forall e :: e in m ==> m[e] in cells
    }

    ghost function View(): Table<GateCell>
      reads this, cells
    {
      Table(m, map g | g in cells :: g.Value())
    }

    constructor ()
      ensures Valid() && View() == Table(map[], map[])
    {
      m, cells := map[], {};
    }

    method Register(e: EventId) returns (gt: GateCell)
      requires Valid()
      modifies this, cells
      ensures Valid() && (e in old(m) ==> gt == old(m[e])) && (e !in old(m) ==> fresh(gt))
      ensures View() == Registered(old(View()), e, gt)
    {
      if e in m {
        gt := m[e];
      } else {
        gt := new GateCell();
        m := m[e := gt];
        cells := cells + {gt};
      }
      gt.refs := gt.refs + 1;
    }

    /** Tries to send for request `r`; on a full channel `r` is left blocked. */
    method Send(gt: GateCell, r: ReqId) returns (owns: bool)
      requires Valid() && gt in cells
      modifies gt
      ensures Valid() && owns == old(gt.slot).None?
      ensures View() == OnGate(old(View()), gt, SentGate(old(gt.Value()), r))
    {
      owns := gt.slot.None?;
      if owns {
        gt.slot := Some(r);
      } else {
        gt.queue := gt.queue + [r];
      }
    }

    method Withdraw(gt: GateCell, r: ReqId)
      requires Valid() && gt in cells
      modifies gt
      ensures Valid() && View() == OnGate(old(View()), gt, WithdrawnGate(old(gt.Value()), r))
    {
      gt.queue := Remove(gt.queue, r);
    }

    /** Receives from a full channel; `next` is the sender that was woken. */
    method Receive(gt: GateCell) returns (next: Option<ReqId>)
      requires Valid() && gt in cells && gt.slot.Some?
      modifies gt
      ensures Valid() && next == gt.slot
      ensures View() == OnGate(old(View()), gt, ReceivedGate(old(gt.Value())))
    {
      if gt.queue == [] {
        gt.slot := None;
      } else {
        gt.slot := Some(gt.queue[0]);
        gt.queue := gt.queue[1..];
      }
      next := gt.slot;
    }

    method Release(e: EventId, gt: GateCell)
      requires Valid() && gt in cells
      modifies this, gt
      ensures Valid() && cells == old(cells)
      ensures View() == Released(old(View()), e, gt)
    {
      gt.refs := gt.refs - 1;
      if gt.refs == 0 {
        m := m - {e};
      }
    }
  }
}
