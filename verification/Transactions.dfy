/** The four transactions that lock an event row, statement by statement:
    createBooking (internal/booking/service.go), Close and Cancel
    (internal/event/service.go) and RunDraw (internal/lottery/service.go).

    Here a transaction sees only the committed data of its own event; who may
    run when is the business of module Database. */
module Transactions {
  import opened Prelude
  import opened Text
  import opened Tables
  import opened Seal
  import opened Shuffle
  import opened Results
  import opened Triggers

  datatype Request =
    | Book(event: EventId, user: UserId)
    | Close(event: EventId)
    | Cancel(event: EventId)
    | RunDraw(event: EventId)

  /** What a draw has settled before it writes: everybody in shuffle order. */
  datatype Plan = Plan(title: string, winnerCount: int, users: seq<UserId>, drawnAt: Timestamp)

  /** Where a transaction stands: the last statement that succeeded, with the
      values it read and the rows it wrote and has not committed. */
  datatype Point =
    | Begun
    | BookLocked(status: Status, capacity: int)
    | BookNew(capacity: int)
    | BookRoom
    | BookInserted(booking: Booking)
    | ChangeLocked(status: Status)
    | ChangeReady(status: Status)
    | DrawLocked(title: string, winnerCount: int)
    | DrawInserting(plan: Plan, rows: seq<DrawRow>)
    | DrawSealed(plan: Plan, rows: seq<DrawRow>, seal: SealRow)
    | DrawMarked(plan: Plan, rows: seq<DrawRow>, seal: SealRow)

  /** What the caller is told. Failed(true) is a commit whose reply was lost. */
  datatype Reply =
    | Booked | AlreadyBooked | NotOpen(status: Status) | Full
    | Changed | InvalidTransition
    | DrawDone(result: DrawResult) | AlreadyDrawn | WasCancelled | NotClosed | NotDue | NoEntrants
    | NotFound
    | Failed(committed: bool)

  /** What a statement gets from outside the tables: the database clock, an
      order of the entrants with the random draws, or a row id. */
  datatype Input =
    | Plain
    | Clock(now: int)
    | Entrants(order: seq<Booking>, choices: seq<nat>, drawnAt: Timestamp)
    | RowId(id: int)

  datatype Move = Continue(at: Point) | Finish(reply: Reply)

  /** SELECT user_id ... ORDER BY booked_at: ties may come in any order. */
  predicate OrderedByBooking(order: seq<Booking>, table: seq<Booking>) {
    && multiset(order) == multiset(table)
    && forall i, j :: 0 <= i < j < |order| ==> order[i].bookedAt <= order[j].bookedAt
  }

  /* ---- The statements ---- */

  /** SELECT ... FOR UPDATE, once the row lock is granted. */
  function Locking(req: Request, d: EventData, input: Input): Option<Move> {
    match req
    case Book(_, _) => Some(Continue(BookLocked(d.row.status, d.row.capacity)))
    case Close(_) => Some(Continue(ChangeLocked(d.row.status)))
    case Cancel(_) => Some(Continue(ChangeLocked(d.row.status)))
    case RunDraw(_) =>
      if !input.Clock? then None
      else match d.row.status
        case Drawn => Some(Finish(AlreadyDrawn))
        case Cancelled => Some(Finish(WasCancelled))
        case Open => Some(Finish(NotClosed))
        case Closed =>
          if d.row.drawAt <= input.now then Some(Continue(DrawLocked(d.row.title, d.row.winnerCount)))
          else Some(Finish(NotDue))
  }

  function BookNext(user: UserId, at: Point, d: EventData, users: set<UserId>, input: Input): Option<Move> {
    match at
    case BookLocked(status, capacity) =>
      if user in Users(d.bookings) then Some(Finish(AlreadyBooked))
      else if status != Open then Some(Finish(NotOpen(status)))
      else Some(Continue(BookNew(capacity)))
    case BookNew(capacity) =>
      if |d.bookings| >= capacity then Some(Finish(Full)) else Some(Continue(BookRoom))
    case BookRoom =>
      if !input.Clock? then None
      else if user in Users(d.bookings) then Some(Finish(AlreadyBooked))
      else if user !in users then Some(Finish(NotFound))
      else Some(Continue(BookInserted(Tables.Booking(user, input.now))))
    case _ => None
  }

  /** The status an UPDATE of Close or Cancel sets, if it is permitted. */
  function Target(req: Request, status: Status): Option<Status> {
    match req
    case Close(_) => if status == Open || status == Closed then Some(Closed) else None
    case Cancel(_) => if status == Drawn then None else Some(Cancelled)
    case _ => None
  }

  function Changing(req: Request, at: Point, d: EventData): Option<Move> {
    if !at.ChangeLocked? then None
    else
      var target := Target(req, at.status);
      if target.None? then Some(Finish(InvalidTransition))
      else if !UpdateAllowed(d.row, d.row.(status := target.value)) then Some(Finish(Failed(false)))
      else Some(Continue(ChangeReady(target.value)))
  }

  function NextRow(event: EventId, plan: Plan, rank: nat, id: int): DrawRow
    requires 1 <= rank <= |plan.users|
  {
    DrawRow(id, event, plan.users[rank - 1], rank, ENTROPY_SOURCE, |plan.users|, plan.drawnAt)
  }

  function SealOf(event: EventId, plan: Plan, rows: seq<DrawRow>): SealRow {
    SealRow(Sha256(Preimage(event, plan.winnerCount, plan.drawnAt, rows)), SEAL_ALGORITHM, plan.drawnAt)
  }

  function Drawing(event: EventId, at: Point, d: EventData, users: set<UserId>, input: Input): Option<Move> {
    match at
    case DrawLocked(title, winnerCount) =>
      if !input.Entrants? || !OrderedByBooking(input.order, d.bookings) then None
      else if input.order == [] then Some(Finish(NoEntrants))
      else if winnerCount < 1 then Some(Finish(Failed(false)))
      else if !IsVector(input.choices, |input.order|) then None
      else
        var everyone := Shuffled(Users(input.order), input.choices);
        Some(Continue(DrawInserting(Plan(title, winnerCount, everyone, input.drawnAt), [])))
    case DrawInserting(plan, rows) =>
      if |rows| < |plan.users| then
        if !input.RowId? then None
        else
          var row := NextRow(event, plan, |rows| + 1, input.id);
          if !DrawInsertAllowed(d.draws + rows, row) || row.user !in users then Some(Finish(Failed(false)))
          else Some(Continue(DrawInserting(plan, rows + [row])))
      else if d.seal.Some? then Some(Finish(Failed(false)))
      else Some(Continue(DrawSealed(plan, rows, SealOf(event, plan, rows))))
    case DrawSealed(plan, rows, seal) =>
      if !UpdateAllowed(d.row, d.row.(status := Drawn)) then Some(Finish(Failed(false)))
      else Some(Continue(DrawMarked(plan, rows, seal)))
    case _ => None
  }

  /** The next statement of a transaction; None when the input does not fit or
      when only COMMIT is left. */
  function Next(req: Request, at: Point, d: EventData, users: set<UserId>, input: Input): Option<Move> {
    if at == Begun then Locking(req, d, input)
    else match req
      case Book(_, user) => BookNext(user, at, d, users, input)
      case Close(_) => Changing(req, at, d)
      case Cancel(_) => Changing(req, at, d)
      case RunDraw(event) => Drawing(event, at, d, users, input)
  }

  predicate Committable(at: Point) {
    at.BookInserted? || at.ChangeReady? || at.DrawMarked?
  }

  /** The event's data with the transaction's writes applied. */
  function Written(at: Point, d: EventData): EventData
    requires Committable(at)
  {
    match at
    case BookInserted(booking) => d.(bookings := d.bookings + [booking])
    case ChangeReady(status) => d.(row := d.row.(status := status))
    case DrawMarked(plan, rows, seal) =>
      EventData(d.row.(status := Drawn), d.bookings, d.draws + rows, Some(seal))
  }

  function CommitReply(req: Request, at: Point): Reply
    requires Committable(at)
  {
    match at
    case BookInserted(_) => Booked
    case ChangeReady(_) => Changed
    case DrawMarked(plan, rows, seal) => DrawDone(Announced(req.event, plan.title, plan.winnerCount, rows, seal))
  }

  /* ---- What the committed data of an event satisfies ---- */

  /** A drawn event: one row per booking with ranks 1..n, the booked users once
      each, every total n, and the seal over exactly these rows. */
  ghost predicate CompleteDraw(event: EventId, d: EventData) {
    && d.bookings != [] && d.seal.Some?
    && multiset(DrawnUsers(d.draws)) == multiset(Users(d.bookings))
    && RowsFor(d.draws, event, DrawnUsers(d.draws), d.seal.value.sealedAt)
    && Seals(d.seal.value, event, d.row.winnerCount, d.draws)
  }

  ghost predicate DataOk(event: EventId, d: EventData) {
    && EventChecks(d.row)
    && |d.bookings| <= d.row.capacity
    && Distinct(Users(d.bookings))
    && (if d.row.status == Drawn then CompleteDraw(event, d) else d.draws == [] && d.seal.None?)
  }

  /** The values a transaction has read still describe the committed data, and
      its unfinished writes fit on top of it. */
  ghost predicate Current(req: Request, at: Point, d: EventData) {
    match at
    case Begun => true
    case BookLocked(status, capacity) => req.Book? && status == d.row.status && capacity == d.row.capacity
    case BookNew(capacity) => capacity == d.row.capacity && BookingFits(req, d)
    case BookRoom => BookingFits(req, d) && |d.bookings| < d.row.capacity
    case BookInserted(b) => BookingFits(req, d) && |d.bookings| < d.row.capacity && b.user == req.user
    case ChangeLocked(status) => (req.Close? || req.Cancel?) && status == d.row.status
    case ChangeReady(status) => Target(req, d.row.status) == Some(status)
    case DrawLocked(title, winnerCount) =>
      req.RunDraw? && d.row.status == Closed && title == d.row.title && winnerCount == d.row.winnerCount
    case DrawInserting(plan, rows) => DrawFits(req, plan, rows, d)
    case DrawSealed(plan, rows, seal) =>
      DrawFits(req, plan, rows, d) && |rows| == |plan.users| && seal == SealOf(req.event, plan, rows)
    case DrawMarked(plan, rows, seal) =>
      DrawFits(req, plan, rows, d) && |rows| == |plan.users| && seal == SealOf(req.event, plan, rows)
  }

  ghost predicate BookingFits(req: Request, d: EventData) {
    req.Book? && d.row.status == Open && req.user !in Users(d.bookings)
  }

  ghost predicate DrawFits(req: Request, plan: Plan, rows: seq<DrawRow>, d: EventData) {
    && req.RunDraw? && d.row.status == Closed
    && plan.title == d.row.title && plan.winnerCount == d.row.winnerCount
    && plan.users != [] && multiset(plan.users) == multiset(Users(d.bookings))
    && RowsFor(rows, req.event, plan.users, plan.drawnAt)
  }

  lemma {:induction false} SamePeople(a: seq<Booking>, b: seq<Booking>)
    requires multiset(a) == multiset(b)
    ensures multiset(Users(a)) == multiset(Users(b))
    decreases |a|
  {
    assert |a| == |multiset(a)| == |multiset(b)| == |b|;
    if a != [] {
      assert a[0] in multiset(b);
      var k :| 0 <= k < |b| && b[k] == a[0];
      TakeOut(a, 0);
      TakeOut(b, k);
      assert multiset(Without(a, 0)) == multiset(a) - multiset{a[0]};
      assert multiset(Without(b, k)) == multiset(b) - multiset{a[0]};
      SamePeople(Without(a, 0), Without(b, k));
      UsersTakeOut(a, 0);
      UsersTakeOut(b, k);
    }
  }

  ghost function Without<T>(s: seq<T>, k: nat): seq<T>
    requires k < |s|
  {
    s[..k] + s[k + 1..]
  }

  lemma TakeOut<T>(s: seq<T>, k: nat)
    requires k < |s|
    ensures multiset(s) == multiset(Without(s, k)) + multiset{s[k]}
  {
    assert s == s[..k] + [s[k]] + s[k + 1..];
  }

  lemma UsersTakeOut(b: seq<Booking>, k: nat)
    requires k < |b|
    ensures multiset(Users(b)) == multiset(Users(Without(b, k))) + multiset{b[k].user}
  {
    assert Users(Without(b, k)) == Without(Users(b), k);
    TakeOut(Users(b), k);
  }

  lemma SelectionIsCurrent(req: Request, at: Point, d: EventData, users: set<UserId>, input: Input)
    requires DataOk(req.event, d) && Current(req, at, d) && at.DrawLocked?
    ensures var m := Next(req, at, d, users, input);
            m.Some? && m.value.Continue? ==> Current(req, m.value.at, d)
  {
    var m := Next(req, at, d, users, input);
    if m.Some? && m.value.Continue? {
      SamePeople(input.order, d.bookings);
      ShuffledPermutes(Users(input.order), input.choices);
    }
  }

  lemma WritingIsCurrent(req: Request, at: Point, d: EventData, users: set<UserId>, input: Input)
    requires DataOk(req.event, d) && Current(req, at, d) && (at.DrawInserting? || at.DrawSealed?)
    ensures var m := Next(req, at, d, users, input);
            m.Some? && m.value.Continue? ==> Current(req, m.value.at, d)
  {
  }

  /** Every statement leaves the transaction with current values, and a draw
      goes on only when its time has come. */
  lemma NextIsCurrent(req: Request, at: Point, d: EventData, users: set<UserId>, input: Input)
    requires DataOk(req.event, d) && Current(req, at, d)
    ensures var m := Next(req, at, d, users, input);
            m.Some? && m.value.Continue? ==> Current(req, m.value.at, d) && m.value.at != Begun
                                             && (m.value.at.DrawLocked? ==> input.Clock? && d.row.drawAt <= input.now)
  {
    if at.DrawLocked? {
      SelectionIsCurrent(req, at, d, users, input);
    } else if at.DrawInserting? || at.DrawSealed? {
      WritingIsCurrent(req, at, d, users, input);
    }
  }

  /** What each reply says about the event's committed data. */
  ghost predicate ReplyOk(req: Request, reply: Reply, d: EventData) {
    match reply
    case Booked => req.Book? && req.user in Users(d.bookings)
    case AlreadyBooked => req.Book? && req.user in Users(d.bookings)
    case NotOpen(_) => req.Book? && d.row.status != Open
    case Full => req.Book? && req.user !in Users(d.bookings) && |d.bookings| == d.row.capacity
    case Failed(committed) =>
      && (committed && req.Book? ==> req.user in Users(d.bookings))
      && (committed && req.Close? ==> d.row.status != Open)
      && (committed && req.Cancel? ==> d.row.status == Cancelled)
      && (committed && req.RunDraw? ==> d.row.status == Drawn)
    case DrawDone(result) =>
      req.RunDraw? && d.row.status == Drawn && d.seal.Some?
      && result == Announced(req.event, d.row.title, d.row.winnerCount, d.draws, d.seal.value)
    case AlreadyDrawn => req.RunDraw? && d.row.status == Drawn
    case WasCancelled => req.RunDraw? && d.row.status == Cancelled
    case NotDue => req.RunDraw? && d.row.status != Open
    case NoEntrants => req.RunDraw? && d.row.status != Open && d.bookings == []
    case Changed => (req.Close? && d.row.status != Open) || (req.Cancel? && d.row.status == Cancelled)
    case InvalidTransition => (req.Close? && (d.row.status == Drawn || d.row.status == Cancelled))
                              || (req.Cancel? && d.row.status == Drawn)
    case NotClosed => req.RunDraw?
    case NotFound => true
  }

  lemma NextReplyOk(req: Request, at: Point, d: EventData, users: set<UserId>, input: Input)
    requires DataOk(req.event, d) && Current(req, at, d)
    ensures var m := Next(req, at, d, users, input);
            m.Some? && m.value.Finish? ==> ReplyOk(req, m.value.reply, d) && !Committing(m.value.reply)
  {
  }

  /** The replies that mean the transaction's writes are in the tables. */
  predicate Committing(reply: Reply) {
    reply == Booked || reply == Changed || reply.DrawDone? || reply == Failed(true)
  }

  /* ---- Commits ---- */

  lemma BookingCommit(req: Request, at: Point, d: EventData)
    requires DataOk(req.event, d) && Current(req, at, d) && at.BookInserted?
    ensures DataOk(req.event, Written(at, d)) && ReplyOk(req, Booked, Written(at, d))
  {
    assert Users(Written(at, d).bookings) == Users(d.bookings) + [req.user];
    DistinctAppend(Users(d.bookings), req.user);
  }

  lemma DrawCommit(req: Request, at: Point, d: EventData)
    requires DataOk(req.event, d) && Current(req, at, d) && at.DrawMarked?
    ensures DataOk(req.event, Written(at, d)) && ReplyOk(req, CommitReply(req, at), Written(at, d))
  {
    assert d.draws + at.rows == at.rows;
    PlanCompletes(req.event, at.plan, at.rows, d.row, d.bookings);
  }

  lemma PlanCompletes(event: EventId, plan: Plan, rows: seq<DrawRow>, row: EventRow, bookings: seq<Booking>)
    requires plan.users != [] && multiset(plan.users) == multiset(Users(bookings))
    requires RowsFor(rows, event, plan.users, plan.drawnAt) && |rows| == |plan.users|
    requires plan.winnerCount == row.winnerCount
    ensures CompleteDraw(event, EventData(row.(status := Drawn), bookings, rows, Some(SealOf(event, plan, rows))))
  {
    assert DrawnUsers(rows) == plan.users;
    assert |plan.users| == |multiset(plan.users)| == |multiset(Users(bookings))| == |Users(bookings)|;
  }

  /** A commit keeps the event's data well formed and its reply is true of it. */
  lemma CommitOk(req: Request, at: Point, d: EventData)
    requires DataOk(req.event, d) && Current(req, at, d) && Committable(at)
    ensures DataOk(req.event, Written(at, d))
    ensures ReplyOk(req, CommitReply(req, at), Written(at, d)) && ReplyOk(req, Failed(true), Written(at, d))
  {
    match at
    case BookInserted(_) => BookingCommit(req, at, d);
    case ChangeReady(_) =>
    case DrawMarked(_, _, _) => DrawCommit(req, at, d);
  }

  /* ---- Atomicity ---- */

  /** Each request as one indivisible operation that turns the event's data `d`
      into `d'` and answers `reply`. */
  ghost predicate Atomic(req: Request, users: set<UserId>, d: EventData, reply: Reply, d': EventData) {
    match req
    case Book(_, user) =>
      if user in Users(d.bookings) then reply == AlreadyBooked && d' == d
      else if d.row.status != Open then reply == NotOpen(d.row.status) && d' == d
      else if |d.bookings| == d.row.capacity then reply == Full && d' == d
      else if user !in users then reply == NotFound && d' == d
      else reply == Booked && exists now :: d' == d.(bookings := d.bookings + [Tables.Booking(user, now)])
    case Close(_) =>
      if d.row.status == Open || d.row.status == Closed then reply == Changed && d' == d.(row := d.row.(status := Closed))
      else reply == InvalidTransition && d' == d
    case Cancel(_) =>
      if d.row.status == Drawn then reply == InvalidTransition && d' == d
      else reply == Changed && d' == d.(row := d.row.(status := Cancelled))
    case RunDraw(event) =>
      match d.row.status
      case Open => reply == NotClosed && d' == d
      case Drawn => reply == AlreadyDrawn && d' == d
      case Cancelled => reply == WasCancelled && d' == d
      case Closed =>
        || (reply == NotDue && d' == d)
        || (reply == NoEntrants && d.bookings == [] && d' == d)
        || (d'.row == d.row.(status := Drawn) && d'.bookings == d.bookings && CompleteDraw(event, d')
            && reply == DrawDone(Announced(event, d.row.title, d.row.winnerCount, d'.draws, d'.seal.value)))
  }

  /** What a transaction that ended with `reply` has made of `d`: nothing if it
      failed, what a success makes of it if its commit reply was lost, and else
      what the operation with this reply makes of it. */
  ghost predicate Effected(req: Request, users: set<UserId>, d: EventData, reply: Reply, d': EventData) {
    match reply
    case Failed(false) => d' == d
    case Failed(true) => exists success :: Committing(success) && Atomic(req, users, d, success, d')
    case _ => Atomic(req, users, d, reply, d')
  }

  /** A statement that ends a transaction without failing gives the answer of
      the atomic operation on what is committed now; a draw is put off only
      before its time. */
  lemma FinishIsAtomic(req: Request, at: Point, d: EventData, users: set<UserId>, input: Input)
    requires DataOk(req.event, d) && Current(req, at, d) && Next(req, at, d, users, input).Some?
    requires Next(req, at, d, users, input).value.Finish? && !Next(req, at, d, users, input).value.reply.Failed?
    ensures Atomic(req, users, d, Next(req, at, d, users, input).value.reply, d)
    ensures Next(req, at, d, users, input).value.reply == NotDue ==> input.Clock? && input.now < d.row.drawAt
  {
    if at.DrawLocked? {
      assert input.order == [];
      assert |d.bookings| == |multiset(d.bookings)| == |multiset(input.order)| == 0;
    }
  }

  /** So does a commit, which also writes what that operation writes. */
  lemma CommitIsAtomic(req: Request, at: Point, d: EventData, users: set<UserId>)
    requires DataOk(req.event, d) && Current(req, at, d) && Committable(at)
    requires at.BookInserted? ==> req.user in users
    ensures Atomic(req, users, d, CommitReply(req, at), Written(at, d))
  {
    match at
    case BookInserted(b) => assert b == Tables.Booking(req.user, b.bookedAt);
    case ChangeReady(_) =>
    case DrawMarked(_, rows, _) =>
      DrawCommit(req, at, d);
      assert d.draws + rows == rows;
  }

  lemma FinishIsEffected(req: Request, at: Point, d: EventData, users: set<UserId>, input: Input)
    requires DataOk(req.event, d) && Current(req, at, d) && Next(req, at, d, users, input).Some?
    requires Next(req, at, d, users, input).value.Finish?
    ensures Effected(req, users, d, Next(req, at, d, users, input).value.reply, d)
  {
    NextReplyOk(req, at, d, users, input);
    if !Next(req, at, d, users, input).value.reply.Failed? {
      FinishIsAtomic(req, at, d, users, input);
    }
  }

  lemma CommitIsEffected(req: Request, at: Point, d: EventData, users: set<UserId>, replied: bool)
    requires DataOk(req.event, d) && Current(req, at, d) && Committable(at)
    requires at.BookInserted? ==> req.user in users
    ensures Effected(req, users, d, if replied then CommitReply(req, at) else Failed(true), Written(at, d))
  {
    CommitIsAtomic(req, at, d, users);
    assert Committing(CommitReply(req, at));
  }

  /* ---- How an event's data may change over time ---- */

  /** The status machine: open to closed to drawn, open or closed to cancelled. */
  ghost predicate StatusReach(a: Status, b: Status) {
    a == b || a == Open || (a == Closed && (b == Drawn || b == Cancelled))
  }

  /** `d'` can be a later version of `d`. */
  ghost predicate Evolves(d: EventData, d': EventData) {
    && d'.row == d.row.(status := d'.row.status)
    && StatusReach(d.row.status, d'.row.status)
    && d.bookings <= d'.bookings
    && (d.row.status != Open ==> d'.bookings == d.bookings)
    && (d.row.status == Drawn ==> d' == d)
  }

  lemma EvolvesTransitive(a: EventData, b: EventData, c: EventData)
    requires Evolves(a, b) && Evolves(b, c)
    ensures Evolves(a, c)
  {
  }

  /** The edges of the status machine that a commit can take. */
  ghost predicate StatusStep(a: Status, b: Status) {
    a == b || (a == Open && b == Closed) || (a == Closed && b == Drawn) || ((a == Open || a == Closed) && b == Cancelled)
  }

  lemma CommitEvolves(req: Request, at: Point, d: EventData)
    requires DataOk(req.event, d) && Current(req, at, d) && Committable(at)
    ensures Evolves(d, Written(at, d)) && StatusStep(d.row.status, Written(at, d).row.status)
    ensures Written(at, d).bookings != d.bookings ==> at.BookInserted?
    ensures at.BookInserted? ==> Users(Written(at, d).bookings) == Users(d.bookings) + [req.user]
    ensures req.Book? <==> at.BookInserted?
    ensures at.DrawMarked? <==> d.row.status != Drawn && Written(at, d).row.status == Drawn
    ensures req.RunDraw? <==> at.DrawMarked?
  {
    if at.BookInserted? {
      assert Users(Written(at, d).bookings) == Users(d.bookings) + [req.user];
    }
  }

  /** A reply that was true stays true: seats are never given back, a full event
      stays full, and a drawn event never changes. */
  lemma ReplyStaysOk(req: Request, reply: Reply, d: EventData, d': EventData)
    requires DataOk(req.event, d') && ReplyOk(req, reply, d) && Evolves(d, d')
    ensures ReplyOk(req, reply, d')
  {
    assert forall i :: 0 <= i < |d.bookings| ==> d'.bookings[i] == d.bookings[i];
    assert forall i :: 0 <= i < |d.bookings| ==> Users(d'.bookings)[i] == Users(d.bookings)[i];
    if |d.bookings| == d.row.capacity {
      assert d'.bookings == d.bookings;
    }
  }

  /** A published draw reads back as it was announced, in whatever order the
      rows are scanned from storage. */
  lemma DrawnReadsBack(event: EventId, d: EventData, rows: seq<DrawRow>)
    requires DataOk(event, d) && d.row.status == Drawn && OrderedByRank(rows, d.draws)
    ensures Reading(event, Some(d.row), rows, d.seal)
            == Some(Announced(event, d.row.title, d.row.winnerCount, d.draws, d.seal.value))
  {
    var users := DrawnUsers(d.draws);
    assert |users| == |multiset(users)| == |multiset(Users(d.bookings))| == |Users(d.bookings)|;
    ReadingReturnsTheAnnouncement(event, d.row, users, d.draws, d.seal.value, rows);
  }
}
