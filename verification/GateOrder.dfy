/** What the gates guarantee over whole runs: bookkeeping, mutual exclusion and
    first come, first served. */
module GateOrder {
  import opened Prelude
  import opened Tables
  import opened GateTable
  import opened Gates

  /* ---- Bookkeeping ---- */

  /** In every reachable state a gate's count is the number of requests between
      enter and release, all of them hold the gate in the map, the map has an
      event's key exactly when there are such requests, and at most one of them
      owns the slot. Gates may have been removed and made again any number of
      times before. */
  lemma GatesAreCounted(steps: seq<Step>, e: EventId)
    requires Runs(IDLE, steps)
    ensures var s := Final(IDLE, steps);
            && (e in s.table.m <==> Holders(s.clients, e) != {})
            && (e in s.table.m ==> s.table.m[e] in s.table.heap && s.table.heap[s.table.m[e]].refs == |Holders(s.clients, e)|)
            && (forall r :: r in Holders(s.clients, e) ==> e in s.table.m && s.clients[r].gate == s.table.m[e])
            && (forall r, q :: r in Holders(s.clients, e) && q in Holders(s.clients, e) ==>
                                 s.clients[r].place == Owner && s.clients[q].place == Owner ==> r == q)
  {
    RunKeepsInv(IDLE, steps);
    var s := Final(IDLE, steps);
    assert forall r :: r in s.clients ==> ClientOk(s, r);
    if e in s.table.m {
      assert GateOk(s, e);
    } else {
      NoHolders(s, e);
    }
  }

  /** An owner can always leave: the receive never blocks. */
  lemma LeavingNeverBlocks(s: State, r: ReqId)
    requires Inv(s) && r in s.clients && s.clients[r].place == Owner
    ensures Enabled(s, Leave(r)) && s.table.heap[s.clients[r].gate].slot == Some(r)
  {
    assert ClientOk(s, r);
  }

  /* ---- Order ---- */

  ghost predicate IsWaiting(s: State, b: ReqId) {
    b in s.clients && s.clients[b].place == Waiting
  }

  /** The part of the queue in front of `b`. */
  ghost function Front(q: seq<ReqId>, b: ReqId): seq<ReqId> {
    if q == [] || q[0] == b then [] else [q[0]] + Front(q[1..], b)
  }

  ghost function QueueOf(s: State, b: ReqId): seq<ReqId>
    requires Inv(s) && b in s.clients
  {
    assert ClientOk(s, b);
    s.table.heap[s.clients[b].gate].queue
  }

  /** How many blocked requests are in front of `b`. */
  ghost function Position(s: State, b: ReqId): nat
    requires Inv(s) && IsWaiting(s, b)
  {
    assert ClientOk(s, b);
    |Front(QueueOf(s, b), b)|
  }

  /** Those blocked in front of `b`, and the owner of the slot. */
  ghost function Ahead(s: State, b: ReqId): set<ReqId>
    requires Inv(s) && IsWaiting(s, b)
  {
    assert ClientOk(s, b);
    var slot := s.table.heap[s.clients[b].gate].slot;
    (set c | c in Front(QueueOf(s, b), b)) + if slot.Some? then {slot.value} else {}
  }

  /** The step takes away one of those in front of `b`, or the owner leaves. */
  ghost predicate Departs(s: State, step: Step, b: ReqId)
    requires Inv(s) && IsWaiting(s, b) && Enabled(s, step)
  {
    match step
    case Leave(r) => s.clients[r].gate == s.clients[b].gate
    case GiveUp(r) => r in Front(QueueOf(s, b), b)
    case _ => false
  }

  /** Taking somebody else out of the queue takes them out of the front part. */
  lemma {:induction false} FrontAfterRemove(q: seq<ReqId>, c: ReqId, b: ReqId)
    requires Distinct(q) && c != b
    ensures Front(Remove(q, c), b) == Remove(Front(q, b), c)
    decreases |q|
  {
    if q != [] && q[0] != b {
      var rest := q[1..];
      assert forall k :: 0 <= k < |rest| ==> rest[k] == q[k + 1];
      if q[0] == c {
        assert Front(q, b)[1..] == Front(rest, b);
      } else {
        FrontAfterRemove(rest, c, b);
        assert ([q[0]] + Remove(rest, c))[1..] == Remove(rest, c);
        assert ([q[0]] + Front(rest, b))[1..] == Front(rest, b);
      }
    }
  }

  lemma {:induction false} FrontOf(q: seq<ReqId>, b: ReqId)
    requires Distinct(q)
    ensures Distinct(Front(q, b)) && forall x :: x in Front(q, b) ==> x in q && x != b
    decreases |q|
  {
    if q != [] && q[0] != b {
      var rest := q[1..];
      assert forall k :: 0 <= k < |rest| ==> rest[k] == q[k + 1];
      FrontOf(rest, b);
      var f := Front(rest, b);
      assert q[0] !in f;
      assert forall k :: 0 < k < |[q[0]] + f| ==> ([q[0]] + f)[k] == f[k - 1];
    }
  }

  lemma {:induction false} RemoveLength(q: seq<ReqId>, c: ReqId)
    ensures |Remove(q, c)| == |q| - if c in q then 1 else 0
    decreases |q|
  {
    if q != [] {
      assert q == [q[0]] + q[1..];
      RemoveLength(q[1..], c);
    }
  }

  /** Appending to a queue changes nothing for those in it. */
  lemma {:induction false} FrontAfterAppend(q: seq<ReqId>, c: ReqId, b: ReqId)
    requires b in q
    ensures Front(q + [c], b) == Front(q, b)
    decreases |q|
  {
    if q[0] != b {
      assert (q + [c])[1..] == q[1..] + [c];
      FrontAfterAppend(q[1..], c, b);
    }
  }

  /** What one step does to a blocked request. */
  lemma StepAndOrder(s: State, step: Step, b: ReqId)
    requires Inv(s) && Enabled(s, step) && IsWaiting(s, b)
    ensures Inv(Apply(s, step))
    ensures var s' := Apply(s, step);
            if IsWaiting(s', b) then
              && Position(s', b) == Position(s, b) - (if Departs(s, step, b) then 1 else 0)
              && Ahead(s', b) <= Ahead(s, b)
            else
              step == GiveUp(b) || (step.Leave? && Departs(s, step, b) && Position(s, b) == 0 && s'.clients[b].place == Owner)
  {
    StepKeepsInv(s, step);
    var s' := Apply(s, step);
    assert ClientOk(s, b) && GateOk(s, s.clients[b].event) && (b in s'.clients ==> ClientOk(s', b));
    match step
    case Enter(r, _, _) => EnterAndOrder(s, step, b);
    case Send(r) => SendAndOrder(s, r, b);
    case GiveUp(r) => GiveUpAndOrder(s, r, b);
    case Leave(r) => LeaveAndOrder(s, r, b);
    case Release(r) => ReleaseAndOrder(s, r, b);
  }

  ghost predicate OrderKept(s: State, step: Step, b: ReqId)
    requires Inv(s) && Enabled(s, step) && IsWaiting(s, b) && Inv(Apply(s, step))
  {
    var s' := Apply(s, step);
    && IsWaiting(s', b)
    && Position(s', b) == Position(s, b) - (if Departs(s, step, b) then 1 else 0)
    && Ahead(s', b) <= Ahead(s, b)
  }

  lemma EnterAndOrder(s: State, step: Step, b: ReqId)
    requires Inv(s) && Enabled(s, step) && IsWaiting(s, b) && Inv(Apply(s, step)) && step.Enter?
    ensures OrderKept(s, step, b)
  {
    assert ClientOk(s, b) && ClientOk(Apply(s, step), b);
    assert QueueOf(Apply(s, step), b) == QueueOf(s, b);
  }

  lemma ReleaseAndOrder(s: State, r: ReqId, b: ReqId)
    requires Inv(s) && Enabled(s, Release(r)) && IsWaiting(s, b) && Inv(Apply(s, Release(r)))
    ensures OrderKept(s, Release(r), b)
  {
    assert ClientOk(s, b) && ClientOk(Apply(s, Release(r)), b);
    assert QueueOf(Apply(s, Release(r)), b) == QueueOf(s, b);
  }

  lemma SendAndOrder(s: State, r: ReqId, b: ReqId)
    requires Inv(s) && Enabled(s, Send(r)) && IsWaiting(s, b) && Inv(Apply(s, Send(r)))
    ensures OrderKept(s, Send(r), b)
  {
    assert ClientOk(s, b) && ClientOk(s, r) && ClientOk(Apply(s, Send(r)), b) && GateOk(s, s.clients[b].event);
    GatesApart(s, r, b);
    FrontAfterAppend(QueueOf(s, b), r, b);
  }

  lemma GiveUpAndOrder(s: State, r: ReqId, b: ReqId)
    requires Inv(s) && Enabled(s, GiveUp(r)) && IsWaiting(s, b) && Inv(Apply(s, GiveUp(r)))
    ensures r == b || OrderKept(s, GiveUp(r), b)
  {
    assert ClientOk(s, b) && ClientOk(s, r);
    if r != b {
      if r in QueueOf(s, b) {
        GiveUpInQueue(s, r, b);
      } else {
        GiveUpElsewhere(s, r, b);
      }
    }
  }

  lemma GiveUpElsewhere(s: State, r: ReqId, b: ReqId)
    requires Inv(s) && Enabled(s, GiveUp(r)) && IsWaiting(s, b) && Inv(Apply(s, GiveUp(r)))
    requires s.clients[b].gate in s.table.heap && r != b && r !in QueueOf(s, b)
    ensures OrderKept(s, GiveUp(r), b)
  {
    var s' := Apply(s, GiveUp(r));
    assert ClientOk(s, b) && ClientOk(s, r) && ClientOk(s', b);
    assert QueueOf(s', b) == QueueOf(s, b);
    assert r !in Front(QueueOf(s, b), b) by {
      assert GateOk(s, s.clients[b].event);
      FrontOf(QueueOf(s, b), b);
    }
  }

  lemma GiveUpInQueue(s: State, r: ReqId, b: ReqId)
    requires Inv(s) && Enabled(s, GiveUp(r)) && IsWaiting(s, b) && Inv(Apply(s, GiveUp(r)))
    requires s.clients[b].gate in s.table.heap && r != b && r in QueueOf(s, b)
    ensures OrderKept(s, GiveUp(r), b)
  {
    var s' := Apply(s, GiveUp(r));
    assert ClientOk(s, b) && ClientOk(s, r) && ClientOk(s', b) && GateOk(s, s.clients[b].event);
    assert QueueOf(s', b) == Remove(QueueOf(s, b), r);
    FrontShrinks(QueueOf(s, b), r, b);
  }

  lemma FrontShrinks(q: seq<ReqId>, r: ReqId, b: ReqId)
    requires Distinct(q) && r != b
    ensures |Front(Remove(q, r), b)| == |Front(q, b)| - if r in Front(q, b) then 1 else 0
    ensures forall x :: x in Front(Remove(q, r), b) ==> x in Front(q, b)
  {
    FrontAfterRemove(q, r, b);
    FrontOf(q, b);
    RemoveLength(Front(q, b), r);
    RemoveFrom(Front(q, b), r);
  }

  lemma LeaveAndOrder(s: State, r: ReqId, b: ReqId)
    requires Inv(s) && Enabled(s, Leave(r)) && IsWaiting(s, b) && Inv(Apply(s, Leave(r)))
    ensures if Departs(s, Leave(r), b) && Position(s, b) == 0 then Apply(s, Leave(r)).clients[b].place == Owner
            else OrderKept(s, Leave(r), b)
  {
    assert ClientOk(s, b) && ClientOk(s, r);
    if s.clients[r].gate == s.clients[b].gate {
      LeaveOwnGate(s, r, b);
    } else {
      LeaveOtherGate(s, r, b);
    }
  }

  lemma LeaveOtherGate(s: State, r: ReqId, b: ReqId)
    requires Inv(s) && Enabled(s, Leave(r)) && IsWaiting(s, b) && Inv(Apply(s, Leave(r)))
    requires s.clients[r].gate != s.clients[b].gate
    ensures OrderKept(s, Leave(r), b)
  {
    var s' := Apply(s, Leave(r));
    assert ClientOk(s, b) && ClientOk(s, r) && ClientOk(s', b) && GateOk(s, s.clients[r].event);
    var q := s.table.heap[s.clients[r].gate].queue;
    assert q != [] ==> ClientOk(s, q[0]);
    assert QueueOf(s', b) == QueueOf(s, b);
  }

  lemma LeaveOwnGate(s: State, r: ReqId, b: ReqId)
    requires Inv(s) && Enabled(s, Leave(r)) && IsWaiting(s, b) && Inv(Apply(s, Leave(r)))
    requires s.clients[r].gate == s.clients[b].gate
    ensures if Position(s, b) == 0 then Apply(s, Leave(r)).clients[b].place == Owner else OrderKept(s, Leave(r), b)
  {
    var s' := Apply(s, Leave(r));
    assert ClientOk(s, b) && ClientOk(s, r) && ClientOk(s', b) && GateOk(s, s.clients[b].event);
    var q := QueueOf(s, b);
    if q[0] != b {
      assert Front(q, b)[0] == q[0] && Front(q, b)[1..] == Front(q[1..], b);
      assert QueueOf(s', b) == q[1..];
    }
  }

  /* ---- Whole runs ---- */

  /** How many of those in front of `b` departed while it was blocked. */
  ghost function Departures(s: State, steps: seq<Step>, b: ReqId): nat
    requires Inv(s) && Runs(s, steps)
    decreases |steps|
  {
    if steps == [] || !IsWaiting(s, b) then 0
    else
      StepKeepsInv(s, steps[0]);
      (if Departs(s, steps[0], b) then 1 else 0) + Departures(Apply(s, steps[0]), steps[1..], b)
  }

  /** A request that has gone through the channel or given up does not block again. */
  ghost predicate Past(s: State, b: ReqId) {
    b in s.seen && (b in s.clients ==> s.clients[b].place != Arrived && s.clients[b].place != Waiting)
  }

  lemma {:induction false} PastStays(s: State, steps: seq<Step>, b: ReqId)
    requires Inv(s) && Runs(s, steps) && Past(s, b)
    ensures Past(Final(s, steps), b)
    decreases |steps|
  {
    if steps != [] {
      StepKeepsInv(s, steps[0]);
      PastStep(s, steps[0], b);
      PastStays(Apply(s, steps[0]), steps[1..], b);
    }
  }

  lemma PastStep(s: State, step: Step, b: ReqId)
    requires Inv(s) && Enabled(s, step) && Past(s, b)
    ensures Past(Apply(s, step), b)
  {
    if step.Leave? {
      var q := s.table.heap[s.clients[step.r].gate].queue;
      assert ClientOk(s, step.r) && GateOk(s, s.clients[step.r].event);
      assert q != [] ==> ClientOk(s, q[0]);
    }
  }

  /** First come, first served: as long as `b` stays blocked its position drops
      by one with every departure in front of it, and nobody who was not in
      front of it gets there. So after at most as many departures as there were
      requests in front, plus the owner's leave, `b` owns the slot or has given
      up. */
  lemma {:induction false} FirstComeFirstServed(s: State, steps: seq<Step>, b: ReqId)
    requires Inv(s) && Runs(s, steps) && IsWaiting(s, b)
    ensures Inv(Final(s, steps))
    ensures var s' := Final(s, steps);
            IsWaiting(s', b) ==>
              && Position(s', b) + Departures(s, steps, b) == Position(s, b)
              && Ahead(s', b) <= Ahead(s, b)
    ensures Departures(s, steps, b) > Position(s, b) ==> Past(Final(s, steps), b)
    decreases |steps|
  {
    RunKeepsInv(s, steps);
    if steps != [] {
      var step, rest := steps[0], steps[1..];
      var next := Apply(s, step);
      StepAndOrder(s, step, b);
      assert ClientOk(s, b);
      if IsWaiting(next, b) {
        FirstComeFirstServed(next, rest, b);
      } else {
        PastStays(next, rest, b);
      }
    }
  }

  /** No overtaking: who is not in front of a blocked request does not own the
      slot while that request is still blocked. */
  lemma NoOvertaking(s: State, steps: seq<Step>, b: ReqId, c: ReqId)
    requires Inv(s) && Runs(s, steps) && IsWaiting(s, b) && c !in Ahead(s, b) && c in Final(s, steps).clients
    requires Final(s, steps).clients[c].place == Owner && IsWaiting(Final(s, steps), b)
    ensures Final(s, steps).clients[c].event != Final(s, steps).clients[b].event
  {
    FirstComeFirstServed(s, steps, b);
    var s' := Final(s, steps);
    assert ClientOk(s', c) && ClientOk(s', b);
    GatesApart(s', b, c);
  }
}
