/** The triggers and uniqueness constraints that protect a draw, as decisions
    on single statements (002_harden_audit.sql and 001_init.sql). They fire for
    every role, so the statements here are arbitrary, not only the service's. */
module Triggers {
  import opened Prelude
  import opened Tables
  import opened Results

  /** forbid_drawn_event_change on UPDATE. */
  predicate UpdateAllowed(before: EventRow, after: EventRow) {
    before.status == Drawn ==>
      after.status == before.status && after.winnerCount == before.winnerCount && after.capacity == before.capacity
  }

  /** forbid_drawn_event_change on DELETE. */
  predicate DeleteAllowed(before: EventRow) {
    before.status != Drawn
  }

  /** CHECK (draw_rank > 0) and UNIQUE (event_id, draw_rank). */
  predicate DrawInsertAllowed(table: seq<DrawRow>, row: DrawRow) {
    row.rank > 0 && forall i :: 0 <= i < |table| ==> table[i].rank != row.rank
  }

  /** One statement by anybody, restricted to what it does to one event. */
  datatype Statement =
    | UpdateEvent(row: EventRow)
    | DeleteEvent
    | InsertDraw(draw: DrawRow)
    | ChangeDraws(draws: seq<DrawRow>)
    | InsertSeal(seal: SealRow)
    | ChangeSeal(newSeal: Option<SealRow>)
    | ChangeBookings(bookings: seq<Booking>)

  /** The effect of a statement; a rejected one changes nothing. ChangeDraws and
      ChangeSeal stand for any UPDATE, DELETE or TRUNCATE of the audit tables,
      which forbid_audit_mutation rejects whatever it would have written. */
  function Execute(d: Option<EventData>, s: Statement): Option<EventData> {
    if d.None? then None
    else
      var e := d.value;
      match s
      case UpdateEvent(row) => if UpdateAllowed(e.row, row) then Some(e.(row := row)) else d
      case DeleteEvent => if DeleteAllowed(e.row) && e.draws == [] && e.seal.None? then None else d
      case InsertDraw(r) => if DrawInsertAllowed(e.draws, r) then Some(e.(draws := e.draws + [r])) else d
      case ChangeDraws(_) => d
      case InsertSeal(seal) => if e.seal.None? then Some(e.(seal := Some(seal))) else d
      case ChangeSeal(_) => d
      case ChangeBookings(bookings) => Some(e.(bookings := bookings))
  }

  /** What is rejected, exactly: an UPDATE of a drawn event that touches its
      status, winner count or capacity; a DELETE of an event that is drawn or has
      audit rows or a seal; a draw row whose rank is taken or not positive; a
      second seal; and every change of the audit tables. Everything else has its
      effect, the title of a drawn event included. */
  lemma RejectedExactly(e: EventData, s: Statement)
    ensures var protected := s.UpdateEvent? && e.row.status == Drawn
                             && (s.row.status, s.row.winnerCount, s.row.capacity)
                                != (e.row.status, e.row.winnerCount, e.row.capacity);
            match s
            case UpdateEvent(row) => Execute(Some(e), s) == Some(if protected then e else e.(row := row))
            case DeleteEvent => Execute(Some(e), s) == None <==> e.row.status != Drawn && e.draws == [] && e.seal.None?
            case InsertDraw(r) =>
              Execute(Some(e), s) == Some(if r.rank <= 0 || exists d :: d in e.draws && d.rank == r.rank then e
                                          else e.(draws := e.draws + [r]))
            case ChangeDraws(_) => Execute(Some(e), s) == Some(e)
            case InsertSeal(seal) => Execute(Some(e), s) == Some(if e.seal.Some? then e else e.(seal := Some(seal)))
            case ChangeSeal(_) => Execute(Some(e), s) == Some(e)
            case ChangeBookings(bookings) => Execute(Some(e), s) == Some(e.(bookings := bookings))
  {
    if s.InsertDraw? {
      assert forall d :: d in e.draws ==> exists i :: 0 <= i < |e.draws| && e.draws[i] == d;
      assert forall i :: 0 <= i < |e.draws| ==> e.draws[i] in e.draws;
    }
  }

  function ExecuteAll(d: Option<EventData>, ss: seq<Statement>): Option<EventData>
    decreases |ss|
  {
    if ss == [] then d else ExecuteAll(Execute(d, ss[0]), ss[1..])
  }

  /** Nothing that shapes a published result was changed or removed, and every
      added draw row has a rank beyond those that were there. */
  ghost predicate DrawKept(before: EventData, after: Option<EventData>) {
    && after.Some?
    && after.value.row.status == before.row.status
    && after.value.row.winnerCount == before.row.winnerCount
    && after.value.row.capacity == before.row.capacity
    && after.value.seal == before.seal
    && before.draws <= after.value.draws
    && forall i :: |before.draws| <= i < |after.value.draws| ==> after.value.draws[i].rank > |before.draws|
  }

  lemma ExecuteKeepsDraw(before: EventData, d: Option<EventData>, s: Statement)
    requires before.row.status == Drawn && before.seal.Some? && RanksFromOne(before.draws) && DrawKept(before, d)
    ensures DrawKept(before, Execute(d, s))
  {
    match s
    case InsertDraw(r) =>
      var e := d.value;
      assert 1 <= r.rank <= |before.draws| ==> e.draws[r.rank - 1].rank == r.rank;
    case _ =>
  }

  /** Over any sequence of statements by any roles a drawn event stays drawn and
      its draw rows, its seal and the numbers that split them stay as they are. */
  lemma {:induction false} DrawnIsFinal(before: EventData, d: Option<EventData>, ss: seq<Statement>)
    requires before.row.status == Drawn && before.seal.Some? && RanksFromOne(before.draws) && DrawKept(before, d)
    ensures DrawKept(before, ExecuteAll(d, ss))
    decreases |ss|
  {
    if ss != [] {
      ExecuteKeepsDraw(before, d, ss[0]);
      DrawnIsFinal(before, Execute(d, ss[0]), ss[1..]);
    }
  }

  /** Hence GetResults goes on saying "verified" exactly as long as nobody has
      appended a row to the draw. */
  lemma VerifiedUntilRowsAreAppended(event: EventId, users: seq<UserId>, before: EventData, ss: seq<Statement>,
                                     rows: seq<DrawRow>)
    requires before.row.status == Drawn && before.seal.Some? && users != []
    requires |before.draws| == |users| && RowsFor(before.draws, event, users, before.seal.value.sealedAt)
    requires Seals(before.seal.value, event, before.row.winnerCount, before.draws)
    requires var after := ExecuteAll(Some(before), ss); after.Some? && OrderedByRank(rows, after.value.draws)
    ensures ExecuteAll(Some(before), ss).value.row.status == Drawn
    ensures var after := ExecuteAll(Some(before), ss).value;
            (Reading(event, Some(after.row), rows, after.seal).value.integrity == Verified
             <==> after.draws == before.draws)
  {
    DrawnIsFinal(before, Some(before), ss);
    var after := ExecuteAll(Some(before), ss).value;
    assert |rows| == |multiset(rows)| == |multiset(after.draws)| == |after.draws|;
    TamperingIsDetected(event, before.row, users, before.draws, before.seal.value, after.row, rows, after.draws);
    if after.draws == before.draws {
      RankOrderIsUnique(rows, after.draws);
      StampOfRows(rows, before.seal.value.sealedAt, |users|);
    }
  }
}
