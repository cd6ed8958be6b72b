/** RunDraw and GetResults (internal/lottery/service.go) as sequential code
    against the shared database of module Service. */
module DrawService {
  import opened Prelude
  import opened Text
  import opened Tables
  import opened Seal
  import opened Shuffle
  import opened Results
  import opened Transactions
  import opened Database
  import opened Service

  /** What a draw gets from outside besides its surroundings: the order in which
      the entrants are read, the random source, the wall clock, and row ids. */
  datatype Luck = Luck(order: seq<Booking>, entropy: seq<Option<nat>>, drawnAt: Timestamp, id: nat -> int)

  /** The order is one in which the entrants of `d` can be read, and there is a
      number for each of them. */
  ghost predicate Fits(luck: Luck, d: EventData) {
    OrderedByBooking(luck.order, d.bookings) && IsEntropy(luck.entropy, |luck.order|)
  }

  /** Which failures stop a draw that finds `d` under the row lock: if the event
      is closed and due, of reading the entrants, of the random source, and of
      one of the statements that write the draw. */
  ghost predicate DrawFaults(env: Surroundings, luck: Luck, d: EventData) {
    d.row.status == Closed && d.row.drawAt <= env.now && SelectFaults(env, luck, d)
  }

  ghost predicate SelectFaults(env: Surroundings, luck: Luck, d: EventData) {
    env.fault(1) || !Fits(luck, d) || (luck.order != [] && AmongFaults(env, luck))
  }

  ghost predicate AmongFaults(env: Surroundings, luck: Luck) {
    !NeverFails(luck.entropy) || WriteFaults(env, |luck.order|)
  }

  /** Of one of the n INSERTs, the seal, the UPDATE or the COMMIT. */
  ghost predicate WriteFaults(env: Surroundings, n: nat) {
    (exists k :: 2 <= k < 2 + n && env.fault(k)) || SealFaults(env, n)
  }

  ghost predicate SealFaults(env: Surroundings, n: nat) {
    env.fault(2 + n) || MarkFaults(env, n)
  }

  ghost predicate MarkFaults(env: Surroundings, n: nat) {
    env.fault(3 + n) || env.fault(4 + n)
  }

  ghost predicate MayFail(env: Surroundings, luck: Luck, seen: Db, e: EventId) {
    e in seen.events && DrawFaults(env, luck, seen.events[e])
  }

  /** The ranking in the tables is the shuffle of the entrants for the numbers
      that the random source gave. */
  ghost predicate Ranked(luck: Luck, d: EventData) {
    && Fits(luck, d) && DrawnUsers(d.draws) == Shuffled(Users(luck.order), Vector(luck.entropy))
    && d.seal.Some? && d.seal.value.sealedAt == luck.drawnAt
    && forall i :: 0 <= i < |d.draws| ==> d.draws[i].id == luck.id(i)
  }

  /** The result is the publication of what is stored. */
  ghost predicate PublishesStored(result: DrawResult, e: EventId, d: EventData) {
    d.seal.Some? && Publishes(result, e, d.row.title, d.row.winnerCount, d.draws, d.seal.value)
  }

  lemma StoredIsPublished(e: EventId, d: EventData)
    requires DataOk(e, d) && d.row.status == Drawn
    ensures d.seal.Some?
    ensures PublishesStored(Announced(e, d.row.title, d.row.winnerCount, d.draws, d.seal.value), e, d)
  {
    AnnouncementPublishes(Announced(e, d.row.title, d.row.winnerCount, d.draws, d.seal.value),
                          e, d.row.title, d.row.winnerCount, d.draws, d.seal.value);
  }

  predicate HasDrawn(reply: Reply) {
    reply.DrawDone? || reply == Failed(true)
  }

  /** A closed event is drawn from its draw time on, not before. */
  ghost predicate OnTime(env: Surroundings, d: EventData, reply: Reply) {
    d.row.status == Closed && reply != Failed(false) ==> (reply == NotDue <==> env.now < d.row.drawAt)
  }

  /** No statement of the draw of `n` entrants fails. */
  ghost predicate Clean(env: Surroundings, n: nat) {
    forall k :: 0 <= k <= 4 + n ==> !env.fault(k)
  }

  lemma WritesClean(env: Surroundings, n: nat)
    requires !env.fault(0) && !env.fault(1) && !WriteFaults(env, n)
    ensures Clean(env, n)
  {
  }

  /** RunDraw. Its reply is on record and stays true of the tables. Without the
      row lock at the end of its wait it fails. With it, it fails exactly by a
      fault it meets, and otherwise acts as one indivisible operation on what is
      committed under the lock; a draw stores the shuffle. */
  method RunDraw(pg: Postgres, me: TxId, e: EventId, luck: Luck, env: Surroundings) returns (reply: Reply)
    requires pg.Valid() && me !in pg.db.txs && me !in pg.db.log
    modifies pg
    ensures pg.Valid() && pg.start == old(pg.start) && Grew(old(pg.history), pg.history, me, env)
    ensures pg.Ended(me, Transactions.RunDraw(e), reply)
    ensures var seen := AtLock(old(pg.db), me, Transactions.RunDraw(e), env);
            && pg.Answered(Transactions.RunDraw(e), seen, reply, env.fault(0), MayFail(env, luck, seen, e), env.replied)
            && (e in seen.events ==> OnTime(env, seen.events[e], reply))
    ensures HasDrawn(reply) ==> e in pg.db.events && Ranked(luck, pg.db.events[e])
    ensures HasDrawn(reply) ==> Clean(env, |luck.order|)
    ensures reply.DrawDone? ==> e in pg.db.events && PublishesStored(reply.result, e, pg.db.events[e])
    ensures e in pg.db.events ==> ReplyOk(Transactions.RunDraw(e), reply, pg.db.events[e])
    ensures e !in pg.db.events ==> reply == NotFound || reply == Failed(false)
  {
    pg.Answer(me, env);
    reply := LockClosedEvent(pg, me, e, luck, env);
    assert pg.history[..|old(pg.history)|] == old(pg.history);
    pg.Sound();
    assert LogOk(pg.db, me);
    if reply.DrawDone? {
      StoredIsPublished(e, pg.db.events[e]);
    }
  }

  /** Wait for the row lock. */
  method LockClosedEvent(pg: Postgres, me: TxId, e: EventId, luck: Luck, env: Surroundings) returns (reply: Reply)
    requires pg.Serving(me, env) && me !in pg.db.txs && me !in pg.db.log
    modifies pg
    ensures pg.Continues(old(pg.start), old(pg.history), old(pg.call))
    ensures pg.Ended(me, Transactions.RunDraw(e), reply)
    ensures var seen := AtLock(old(pg.db), me, Transactions.RunDraw(e), env);
            && pg.Answered(Transactions.RunDraw(e), seen, reply, env.fault(0), MayFail(env, luck, seen, e), env.replied)
            && (e in seen.events ==> OnTime(env, seen.events[e], reply))
    ensures HasDrawn(reply) ==> e in pg.db.events && Ranked(luck, pg.db.events[e]) && Clean(env, |luck.order|)
  {
    var req := Transactions.RunDraw(e);
    var ok := pg.Open(me, req, env);
    if !ok {
      return Failed(false);
    }
    if e !in pg.db.events {
      pg.Conclude(me, Plain, req, Begun, NotFound);
      return NotFound;
    }
    ghost var d := pg.db.events[e];
    reply := CheckStatus(pg, me, e, luck, env, d);
    if HasDrawn(reply) {
      WritesClean(env, |luck.order|);
    }
  }

  /** Enforce the status machine. */
  method CheckStatus(pg: Postgres, me: TxId, e: EventId, luck: Luck, env: Surroundings, ghost d: EventData)
    returns (reply: Reply)
    requires pg.Serving(me, env) && me in pg.db.txs && pg.db.txs[me] == Tx(Transactions.RunDraw(e), Begun)
    requires e in pg.db.events && e !in pg.db.locks && d == pg.db.events[e]
    modifies pg
    ensures pg.Continues(old(pg.start), old(pg.history), old(pg.call))
    ensures pg.Ended(me, Transactions.RunDraw(e), reply)
    ensures pg.Settled(Transactions.RunDraw(e), d, reply, DrawFaults(env, luck, d), env.replied) && OnTime(env, d, reply)
    ensures HasDrawn(reply) ==> Ranked(luck, pg.db.events[e]) && !env.fault(1) && !WriteFaults(env, |luck.order|)
  {
    ghost var req := Transactions.RunDraw(e);
    var row := pg.db.events[e].row;
    var refusal :=
      match row.status
      case Closed => if row.drawAt <= env.now then None else Some(NotDue)
      case Drawn => Some(AlreadyDrawn)
      case Cancelled => Some(WasCancelled)
      case Open => Some(NotClosed);
    if refusal.Some? {
      pg.Conclude(me, Clock(env.now), req, Begun, refusal.value);
      return refusal.value;
    }
    pg.Lock(me, Clock(env.now), req, DrawLocked(row.title, row.winnerCount));
    reply := DrawEntrants(pg, me, e, row.title, row.winnerCount, luck, env, d);
  }

  /** Read the entrants and select the winners. */
  method DrawEntrants(pg: Postgres, me: TxId, e: EventId, title: string, winnerCount: int, luck: Luck, env: Surroundings,
                      ghost d: EventData) returns (reply: Reply)
    requires pg.Serving(me, env) && pg.Holding(me, Transactions.RunDraw(e), DrawLocked(title, winnerCount), d)
    modifies pg
    ensures pg.Continues(old(pg.start), old(pg.history), old(pg.call))
    ensures pg.Ended(me, Transactions.RunDraw(e), reply) && reply != NotDue
    ensures pg.Settled(Transactions.RunDraw(e), d, reply, SelectFaults(env, luck, d), env.replied)
    ensures HasDrawn(reply) ==> Ranked(luck, pg.db.events[e]) && !env.fault(1) && !WriteFaults(env, |luck.order|)
  {
    ghost var req := Transactions.RunDraw(e);
    ghost var at := DrawLocked(title, winnerCount);
    var fault := env.fault(1) || !OrderedByBooking(luck.order, pg.db.events[e].bookings)
    || !IsEntropy(luck.entropy, |luck.order|);
    pg.Pause(me, env, 1, fault, req, at, d);
    if fault {
      return Failed(false);
    }
    if luck.order == [] {
      NobodyEntered(pg, me, e, title, winnerCount, luck, env, d);
      return NoEntrants;
    }
    reply := DrawAmong(pg, me, e, title, winnerCount, luck, env, d);
  }

  method NobodyEntered(pg: Postgres, me: TxId, e: EventId, title: string, winnerCount: int, luck: Luck, env: Surroundings,
                       ghost d: EventData)
    requires pg.Serving(me, env) && pg.Holding(me, Transactions.RunDraw(e), DrawLocked(title, winnerCount), d)
    requires luck.order == [] && Fits(luck, d)
    modifies pg
    ensures pg.Continues(old(pg.start), old(pg.history), old(pg.call))
    ensures pg.Ended(me, Transactions.RunDraw(e), NoEntrants)
    ensures pg.Settled(Transactions.RunDraw(e), d, NoEntrants, false, env.replied)
  {
    pg.Conclude(me, Entrants(luck.order, Vector(luck.entropy), luck.drawnAt), Transactions.RunDraw(e),
                DrawLocked(title, winnerCount), NoEntrants);
  }

  /** Select the winners among entrants that were read, and write the draw. */
  method DrawAmong(pg: Postgres, me: TxId, e: EventId, title: string, winnerCount: int, luck: Luck, env: Surroundings,
                   ghost d: EventData) returns (reply: Reply)
    requires pg.Serving(me, env) && pg.Holding(me, Transactions.RunDraw(e), DrawLocked(title, winnerCount), d)
    requires luck.order != [] && Fits(luck, d)
    modifies pg
    ensures pg.Continues(old(pg.start), old(pg.history), old(pg.call))
    ensures pg.Ended(me, Transactions.RunDraw(e), reply) && (reply.DrawDone? || reply.Failed?)
    ensures pg.Settled(Transactions.RunDraw(e), d, reply, AmongFaults(env, luck), env.replied)
    ensures HasDrawn(reply) ==> Ranked(luck, pg.db.events[e]) && !WriteFaults(env, |luck.order|)
  {
    ghost var req := Transactions.RunDraw(e);
    ghost var at := DrawLocked(title, winnerCount);
    var participants := Users(luck.order);
    var selection := SelectFrom(participants, winnerCount, luck.entropy);
    if selection.None? {
      pg.Fail(me, req);
      return Failed(false);
    }
    var winners, waitlist := selection.value.winners, selection.value.waitlist;
    var plan := Plan(title, winnerCount, winners + waitlist, luck.drawnAt);
    assert |luck.order| == |multiset(luck.order)| == |multiset(d.bookings)| == |d.bookings|;
    pg.Advance(me, Entrants(luck.order, Vector(luck.entropy), luck.drawnAt), req, at, d, DrawInserting(plan, []));
    reply := WriteDraw(pg, me, e, plan, winners, waitlist, luck, env, d);
  }

  /** SelectWinners on the entrants that were read. */
  method SelectFrom(participants: seq<UserId>, winnerCount: int, entropy: seq<Option<nat>>) returns (r: Option<Selection>)
    requires participants != [] && IsEntropy(entropy, |participants|)
    ensures r.Some? <==> winnerCount >= 1 && NeverFails(entropy)
    ensures r.Some? ==> && r.value.winners + r.value.waitlist == Shuffled(participants, Vector(entropy))
                        && |r.value.winners| == WinnersAmong(winnerCount, |participants|)
  {
    var pool := new int[|participants|](i requires 0 <= i < |participants| => participants[i]);
    assert pool[..] == participants;
    var selection := SelectWinners(pool, winnerCount, entropy);
    r := if selection.Ok? then Some(selection.value) else None;
  }

  ghost predicate Unchanged(pg: Postgres, e: EventId, d: EventData)
    reads pg
  {
    e in pg.db.events && pg.db.events[e] == d
  }

  lemma PlannedIsBooked(planned: seq<UserId>, d: EventData, k: nat)
    requires multiset(planned) == multiset(Users(d.bookings)) && k < |planned|
    ensures planned[k] in Users(d.bookings)
  {
    assert planned[k] in multiset(planned);
    assert planned[k] in multiset(Users(d.bookings));
  }

  /** The next row of a plan collides with nothing. */
  lemma RowFits(e: EventId, plan: Plan, rows: seq<DrawRow>, row: DrawRow, d: EventData, users: set<UserId>)
    requires DataOk(e, d) && Current(Transactions.RunDraw(e), DrawInserting(plan, rows), d)
    requires |rows| < |plan.users| && row == NextRow(e, plan, |rows| + 1, row.id) && row.user in users
    ensures Next(Transactions.RunDraw(e), DrawInserting(plan, rows), d, users, RowId(row.id))
         == Some(Continue(DrawInserting(plan, rows + [row])))
  {
    assert d.draws + rows == rows;
  }

  /** INSERT one audit row; None if that failed and the transaction is over. */
  method InsertRow(pg: Postgres, me: TxId, e: EventId, plan: Plan, rows: seq<DrawRow>, user: UserId, rank: nat, id: int,
                   env: Surroundings, k: nat, ghost d: EventData) returns (r: Option<DrawRow>)
    requires pg.Serving(me, env) && pg.Holding(me, Transactions.RunDraw(e), DrawInserting(plan, rows), d)
    requires rank == |rows| + 1 && |rows| < |plan.users| && user == plan.users[|rows|]
    modifies pg
    ensures pg.Continues(old(pg.start), old(pg.history), old(pg.call))
    ensures r.None? <==> env.fault(k)
    ensures r.None? ==> pg.Ended(me, Transactions.RunDraw(e), Failed(false)) && Unchanged(pg, e, d)
    ensures r.Some? ==> pg.Holding(me, Transactions.RunDraw(e), DrawInserting(plan, rows + [r.value]), d)
                        && r.value == NextRow(e, plan, rank, id)
  {
    ghost var req := Transactions.RunDraw(e);
    pg.Pause(me, env, k, env.fault(k), req, DrawInserting(plan, rows), d);
    if env.fault(k) {
      return None;
    }
    var row := DrawRow(id, e, user, rank, ENTROPY_SOURCE, |plan.users|, plan.drawnAt);
    assert user in pg.db.users by {
      PlannedIsBooked(plan.users, d, |rows|);
      pg.BookedAreKnown(e, user);
    }
    RowFits(e, plan, rows, row, d, pg.db.users);
    pg.Advance(me, RowId(id), req, DrawInserting(plan, rows), d, DrawInserting(plan, rows + [row]));
    r := Some(row);
  }

  /** The rows carry the ids that the sequence handed out, from `first` on. */
  ghost predicate Numbered(rows: seq<DrawRow>, luck: Luck, first: nat) {
    forall i :: 0 <= i < |rows| ==> rows[i].id == luck.id(first + i)
  }

  /** The two insert loops. */
  method InsertRows(pg: Postgres, me: TxId, e: EventId, plan: Plan, winners: seq<UserId>, waitlist: seq<UserId>, luck: Luck,
                    env: Surroundings, ghost d: EventData)
    returns (ok: bool, winnerRecords: seq<DrawRow>, waitlistRecords: seq<DrawRow>)
    requires pg.Serving(me, env) && pg.Holding(me, Transactions.RunDraw(e), DrawInserting(plan, []), d)
    requires plan.users == winners + waitlist
    modifies pg
    ensures pg.Continues(old(pg.start), old(pg.history), old(pg.call))
    ensures ok <==> forall k :: 2 <= k < 2 + |plan.users| ==> !env.fault(k)
    ensures !ok ==> pg.Ended(me, Transactions.RunDraw(e), Failed(false)) && Unchanged(pg, e, d)
    ensures ok ==> |winnerRecords| == |winners| && |waitlistRecords| == |waitlist|
                   && Numbered(winnerRecords + waitlistRecords, luck, 0)
                   && pg.Holding(me, Transactions.RunDraw(e), DrawInserting(plan, winnerRecords + waitlistRecords), d)
  {
    waitlistRecords := [];
    ok, winnerRecords := InsertWinners(pg, me, e, plan, winners, luck, env, d);
    if ok {
      ok, waitlistRecords := InsertWaitlist(pg, me, e, plan, winnerRecords, waitlist, luck, env, d);
    }
  }

  method InsertWinners(pg: Postgres, me: TxId, e: EventId, plan: Plan, winners: seq<UserId>, luck: Luck, env: Surroundings,
                       ghost d: EventData) returns (ok: bool, records: seq<DrawRow>)
    requires pg.Serving(me, env) && pg.Holding(me, Transactions.RunDraw(e), DrawInserting(plan, []), d)
    requires winners <= plan.users
    modifies pg
    ensures pg.Continues(old(pg.start), old(pg.history), old(pg.call))
    ensures ok <==> forall k :: 2 <= k < 2 + |winners| ==> !env.fault(k)
    ensures !ok ==> pg.Ended(me, Transactions.RunDraw(e), Failed(false)) && Unchanged(pg, e, d)
    ensures Numbered(records, luck, 0)
    ensures ok ==> |records| == |winners| && pg.Holding(me, Transactions.RunDraw(e), DrawInserting(plan, records), d)
  {
    records := [];
    for i := 0 to |winners|
      invariant pg.Continues(old(pg.start), old(pg.history), old(pg.call))
      invariant |records| == i && (forall k :: 2 <= k < 2 + i ==> !env.fault(k)) && Numbered(records, luck, 0)
      invariant pg.Holding(me, Transactions.RunDraw(e), DrawInserting(plan, records), d)
    {
      var row := InsertRow(pg, me, e, plan, records, winners[i], i + 1, luck.id(i), env, 2 + i, d);
      if row.None? {
        return false, records;
      }
      records := records + [row.value];
    }
    ok := true;
  }

  /** One more row of the waitlist; its rank goes on where the winners' end. */
  method InsertAfter(pg: Postgres, me: TxId, e: EventId, plan: Plan, winnerRecords: seq<DrawRow>, records: seq<DrawRow>,
                     user: UserId, luck: Luck, env: Surroundings, ghost d: EventData) returns (row: Option<DrawRow>)
    requires pg.Serving(me, env) && pg.Holding(me, Transactions.RunDraw(e), DrawInserting(plan, winnerRecords + records), d)
    requires |winnerRecords| + |records| < |plan.users| && user == plan.users[|winnerRecords| + |records|]
    modifies pg
    ensures pg.Continues(old(pg.start), old(pg.history), old(pg.call))
    ensures row.None? <==> env.fault(2 + |winnerRecords| + |records|)
    ensures row.None? ==> pg.Ended(me, Transactions.RunDraw(e), Failed(false)) && Unchanged(pg, e, d)
    ensures row.Some? ==> row.value.id == luck.id(|winnerRecords| + |records|)
                          && pg.Holding(me, Transactions.RunDraw(e), DrawInserting(plan, winnerRecords + (records + [row.value])), d)
  {
    var rank := |winnerRecords| + |records| + 1;
    row := InsertRow(pg, me, e, plan, winnerRecords + records, user, rank, luck.id(rank - 1), env, 1 + rank, d);
    if row.Some? {
      assert winnerRecords + records + [row.value] == winnerRecords + (records + [row.value]);
    }
  }

  method InsertWaitlist(pg: Postgres, me: TxId, e: EventId, plan: Plan, winnerRecords: seq<DrawRow>, waitlist: seq<UserId>,
                        luck: Luck, env: Surroundings, ghost d: EventData) returns (ok: bool, records: seq<DrawRow>)
    requires pg.Serving(me, env) && pg.Holding(me, Transactions.RunDraw(e), DrawInserting(plan, winnerRecords), d)
    requires |winnerRecords| <= |plan.users| && waitlist == plan.users[|winnerRecords|..]
    modifies pg
    ensures pg.Continues(old(pg.start), old(pg.history), old(pg.call))
    ensures ok <==> forall k :: 2 + |winnerRecords| <= k < 2 + |plan.users| ==> !env.fault(k)
    ensures !ok ==> pg.Ended(me, Transactions.RunDraw(e), Failed(false)) && Unchanged(pg, e, d)
    ensures Numbered(records, luck, |winnerRecords|)
    ensures ok ==> |records| == |waitlist|
                   && pg.Holding(me, Transactions.RunDraw(e), DrawInserting(plan, winnerRecords + records), d)
  {
    records := [];
    assert winnerRecords + records == winnerRecords;
    for i := 0 to |waitlist|
      invariant pg.Continues(old(pg.start), old(pg.history), old(pg.call))
      invariant |records| == i && Numbered(records, luck, |winnerRecords|)
      invariant forall k :: 2 + |winnerRecords| <= k < 2 + |winnerRecords| + i ==> !env.fault(k)
      invariant pg.Holding(me, Transactions.RunDraw(e), DrawInserting(plan, winnerRecords + records), d)
    {
      var row := InsertAfter(pg, me, e, plan, winnerRecords, records, waitlist[i], luck, env, d);
      if row.None? {
        return false, records;
      }
      records := records + [row.value];
    }
    ok := true;
  }

  /** The tables hold the plan's ranking of the people booked in `d`. */
  ghost predicate Stores(pg: Postgres, e: EventId, plan: Plan, rows: seq<DrawRow>, d: EventData)
    reads pg
  {
    && e in pg.db.events && pg.db.events[e].bookings == d.bookings && DrawnUsers(pg.db.events[e].draws) == plan.users
    && pg.db.events[e].seal.Some? && pg.db.events[e].seal.value.sealedAt == plan.drawnAt && pg.db.events[e].draws == rows
  }

  /** Persist the audit rows and their seal, flip the status, and commit. */
  method WriteDraw(pg: Postgres, me: TxId, e: EventId, plan: Plan, winners: seq<UserId>, waitlist: seq<UserId>, luck: Luck,
                   env: Surroundings, ghost d: EventData) returns (reply: Reply)
    requires pg.Serving(me, env) && pg.Holding(me, Transactions.RunDraw(e), DrawInserting(plan, []), d)
    requires plan.users == winners + waitlist && |winners| == WinnersAmong(plan.winnerCount, |plan.users|)
    modifies pg
    ensures pg.Continues(old(pg.start), old(pg.history), old(pg.call))
    ensures pg.Ended(me, Transactions.RunDraw(e), reply) && (reply.DrawDone? || reply.Failed?)
    ensures pg.Settled(Transactions.RunDraw(e), d, reply, WriteFaults(env, |plan.users|), env.replied)
    ensures HasDrawn(reply) ==> e in pg.db.events && Stores(pg, e, plan, pg.db.events[e].draws, d)
                                && Numbered(pg.db.events[e].draws, luck, 0)
  {
    var ok, winnerRecords, waitlistRecords := InsertRows(pg, me, e, plan, winners, waitlist, luck, env, d);
    if !ok {
      return Failed(false);
    }
    var n := |plan.users|;
    var all := winnerRecords + waitlistRecords;
    var digest := DrawDigest(e, plan.winnerCount, plan.drawnAt, all);
    var seal := SealRow(digest, SEAL_ALGORITHM, plan.drawnAt);
    assert all[..|winners|] == winnerRecords && all[|winners|..] == waitlistRecords;
    var result := DrawResult(e, plan.title, n, winnerRecords, waitlistRecords, plan.drawnAt, Some(digest), Verified);
    reply := SealAndCommit(pg, me, e, plan, all, seal, result, env, d);
  }

  /** INSERT the seal. */
  method InsertSeal(pg: Postgres, me: TxId, e: EventId, plan: Plan, all: seq<DrawRow>, seal: SealRow,
                    env: Surroundings, k: nat, ghost d: EventData) returns (ok: bool)
    requires pg.Serving(me, env) && pg.Holding(me, Transactions.RunDraw(e), DrawInserting(plan, all), d) && |all| == |plan.users|
    requires seal == SealOf(e, plan, all)
    modifies pg
    ensures pg.Continues(old(pg.start), old(pg.history), old(pg.call))
    ensures ok <==> !env.fault(k)
    ensures if ok then pg.Holding(me, Transactions.RunDraw(e), DrawSealed(plan, all, seal), d)
            else pg.Ended(me, Transactions.RunDraw(e), Failed(false))
                 && pg.Settled(Transactions.RunDraw(e), d, Failed(false), true, env.replied)
  {
    ghost var req := Transactions.RunDraw(e);
    pg.Pause(me, env, k, env.fault(k), req, DrawInserting(plan, all), d);
    ok := !env.fault(k);
    if ok {
      pg.Advance(me, Plain, req, DrawInserting(plan, all), d, DrawSealed(plan, all, seal));
    }
  }

  /** UPDATE the status. */
  method MarkDrawn(pg: Postgres, me: TxId, e: EventId, plan: Plan, all: seq<DrawRow>, seal: SealRow,
                   env: Surroundings, k: nat, ghost d: EventData) returns (ok: bool)
    requires pg.Serving(me, env) && pg.Holding(me, Transactions.RunDraw(e), DrawSealed(plan, all, seal), d)
    modifies pg
    ensures pg.Continues(old(pg.start), old(pg.history), old(pg.call))
    ensures ok <==> !env.fault(k)
    ensures if ok then pg.Holding(me, Transactions.RunDraw(e), DrawMarked(plan, all, seal), d)
            else pg.Ended(me, Transactions.RunDraw(e), Failed(false))
                 && pg.Settled(Transactions.RunDraw(e), d, Failed(false), true, env.replied)
  {
    ghost var req := Transactions.RunDraw(e);
    pg.Pause(me, env, k, env.fault(k), req, DrawSealed(plan, all, seal), d);
    ok := !env.fault(k);
    if ok {
      pg.Advance(me, Plain, req, DrawSealed(plan, all, seal), d, DrawMarked(plan, all, seal));
    }
  }

  method SealAndCommit(pg: Postgres, me: TxId, e: EventId, plan: Plan, all: seq<DrawRow>, seal: SealRow, result: DrawResult,
                       env: Surroundings, ghost d: EventData) returns (reply: Reply)
    requires pg.Serving(me, env) && pg.Holding(me, Transactions.RunDraw(e), DrawInserting(plan, all), d) && |all| == |plan.users|
    requires seal == SealOf(e, plan, all) && result == Announced(e, plan.title, plan.winnerCount, all, seal)
    modifies pg
    ensures pg.Continues(old(pg.start), old(pg.history), old(pg.call))
    ensures pg.Ended(me, Transactions.RunDraw(e), reply) && (reply.DrawDone? || reply.Failed?)
    ensures pg.Settled(Transactions.RunDraw(e), d, reply, SealFaults(env, |plan.users|), env.replied)
    ensures HasDrawn(reply) ==> Stores(pg, e, plan, all, d)
  {
    var n := |plan.users|;
    var ok := InsertSeal(pg, me, e, plan, all, seal, env, 2 + n, d);
    if !ok {
      return Failed(false);
    }
    reply := MarkAndCommit(pg, me, e, plan, all, seal, result, env, d);
  }

  method MarkAndCommit(pg: Postgres, me: TxId, e: EventId, plan: Plan, all: seq<DrawRow>, seal: SealRow, result: DrawResult,
                       env: Surroundings, ghost d: EventData) returns (reply: Reply)
    requires pg.Serving(me, env) && pg.Holding(me, Transactions.RunDraw(e), DrawSealed(plan, all, seal), d)
    requires result == Announced(e, plan.title, plan.winnerCount, all, seal)
    modifies pg
    ensures pg.Continues(old(pg.start), old(pg.history), old(pg.call))
    ensures pg.Ended(me, Transactions.RunDraw(e), reply) && (reply.DrawDone? || reply.Failed?)
    ensures pg.Settled(Transactions.RunDraw(e), d, reply, MarkFaults(env, |plan.users|), env.replied)
    ensures HasDrawn(reply) ==> Stores(pg, e, plan, all, d)
  {
    var n := |plan.users|;
    var ok := MarkDrawn(pg, me, e, plan, all, seal, env, 3 + n, d);
    if !ok {
      return Failed(false);
    }
    reply := CommitDraw(pg, me, e, plan, all, seal, result, env, d);
  }

  lemma WrittenDraw(e: EventId, plan: Plan, all: seq<DrawRow>, seal: SealRow, d: EventData)
    requires DataOk(e, d) && Current(Transactions.RunDraw(e), DrawMarked(plan, all, seal), d)
    ensures var d' := Written(DrawMarked(plan, all, seal), d);
            && d'.bookings == d.bookings && DrawnUsers(d'.draws) == plan.users
            && d'.seal.Some? && d'.seal.value.sealedAt == plan.drawnAt && d'.draws == all
  {
    assert d.draws + all == all;
    assert DrawnUsers(d.draws + all) == plan.users;
  }

  method CommitDraw(pg: Postgres, me: TxId, e: EventId, plan: Plan, all: seq<DrawRow>, seal: SealRow, result: DrawResult,
                    env: Surroundings, ghost d: EventData) returns (reply: Reply)
    requires pg.Serving(me, env) && pg.Holding(me, Transactions.RunDraw(e), DrawMarked(plan, all, seal), d)
    requires result == Announced(e, plan.title, plan.winnerCount, all, seal)
    modifies pg
    ensures pg.Continues(old(pg.start), old(pg.history), old(pg.call))
    ensures pg.Ended(me, Transactions.RunDraw(e), reply) && (reply.DrawDone? || reply.Failed?)
    ensures pg.Settled(Transactions.RunDraw(e), d, reply, env.fault(4 + |plan.users|), env.replied)
    ensures HasDrawn(reply) ==> Stores(pg, e, plan, all, d)
  {
    var n := |plan.users|;
    WrittenDraw(e, plan, all, seal, d);
    reply := pg.Complete(me, env, 4 + n, DrawDone(result), Transactions.RunDraw(e), DrawMarked(plan, all, seal), d);
  }

  datatype ReadError = ResultsUnavailable | ReadFailed

  /** GetResults: three statements, each of which may fail, with other sessions
      at work in between. If the first finds the event drawn, the answer is the
      complete announcement, with integrity "verified". */
  method ReadResults(pg: Postgres, reader: TxId, e: EventId, env: Surroundings) returns (r: Result<DrawResult, ReadError>)
    requires pg.Valid()
    modifies pg
    ensures pg.Valid() && pg.start == old(pg.start) && Grew(old(pg.history), pg.history, reader, env)
    ensures var drawn := e in old(pg.db).events && old(pg.db).events[e].row.status == Drawn;
            && (r == Err(ResultsUnavailable) <==> !env.fault(0) && !drawn)
            && (r == Err(ReadFailed) <==> env.fault(0) || (drawn && (env.fault(1) || env.fault(2))))
    ensures r.Ok? ==> var d := old(pg.db).events[e];
                      && d.seal.Some? && r.value == Announced(e, d.row.title, d.row.winnerCount, d.draws, d.seal.value)
                      && PublishesStored(r.value, e, d) && e in pg.db.events && pg.db.events[e] == d
  {
    pg.Answer(reader, env);
    r := ReadStatements(pg, reader, e, env);
    assert pg.history[..|old(pg.history)|] == old(pg.history);
  }

  method ReadStatements(pg: Postgres, reader: TxId, e: EventId, env: Surroundings) returns (r: Result<DrawResult, ReadError>)
    requires pg.Serving(reader, env)
    modifies pg
    ensures pg.Continues(old(pg.start), old(pg.history), old(pg.call))
    ensures var drawn := e in old(pg.db).events && old(pg.db).events[e].row.status == Drawn;
            && (r == Err(ResultsUnavailable) <==> !env.fault(0) && !drawn)
            && (r == Err(ReadFailed) <==> env.fault(0) || (drawn && (env.fault(1) || env.fault(2))))
    ensures r.Ok? ==> var d := old(pg.db).events[e];
                      && d.seal.Some? && r.value == Announced(e, d.row.title, d.row.winnerCount, d.draws, d.seal.value)
                      && PublishesStored(r.value, e, d) && e in pg.db.events && pg.db.events[e] == d
  {
    if env.fault(0) {
      return Err(ReadFailed);
    }
    if e !in pg.db.events || pg.db.events[e].row.status != Drawn {
      return Err(ResultsUnavailable);
    }
    ghost var d := pg.db.events[e];
    var row := pg.db.events[e].row;
    assert DataOk(e, d) by {
      pg.Sound();
    }
    Elapse(pg, reader, env, 0);
    if env.fault(1) {
      return Err(ReadFailed);
    }
    var rows := pg.db.events[e].draws;
    assert OrderedByRank(rows, d.draws);
    Elapse(pg, reader, env, 1);
    if env.fault(2) {
      return Err(ReadFailed);
    }
    DrawnReadsBack(e, d, rows);
    StoredIsPublished(e, d);
    var result := GetResults(e, Some(row), rows, pg.db.events[e].seal);
    r := Ok(result.value);
  }

  /** Other sessions run; committed data evolves. */
  method Elapse(pg: Postgres, reader: TxId, env: Surroundings, k: nat)
    requires pg.Serving(reader, env)
    modifies pg
    ensures pg.Continues(old(pg.start), old(pg.history), old(pg.call))
    ensures Later(old(pg.db), pg.db)
  {
    pg.Sound();
    pg.Others(reader, env, k);
    RanIsLater(old(pg.db), env.others(k), reader);
  }
}
