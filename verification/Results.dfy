/** Publishing a draw: the record RunDraw returns, and GetResults, which puts
    it together again from the audit rows (internal/lottery/service.go). */
module Results {
  import opened Prelude
  import opened Text
  import opened Tables
  import opened Seal

  const ENTROPY_SOURCE := "crypto/rand+fisher-yates"

  datatype Integrity = Verified | Mismatch | Unsealed

  datatype DrawResult = DrawResult(event: EventId, title: string, total: int, winners: seq<DrawRow>,
                                   waitlist: seq<DrawRow>, drawnAt: Timestamp, digest: Option<Digest>,
                                   integrity: Integrity)

  /** How many of `n` ranked rows the winner count takes: as many as it says, but
      no more than there are. */
  function WinnersAmong(winnerCount: int, n: nat): (k: nat)
    ensures k <= n && (winnerCount >= 0 ==> k <= winnerCount && (k == winnerCount || k == n))
    ensures winnerCount < 0 ==> k == 0
  {
    if winnerCount <= 0 then 0 else if winnerCount < n then winnerCount else n
  }

  /** `rows` are the audit rows of the first |rows| of `users`, in rank order. */
  ghost predicate RowsFor(rows: seq<DrawRow>, event: EventId, users: seq<UserId>, drawnAt: Timestamp) {
    && |rows| <= |users|
    && forall i :: 0 <= i < |rows| ==>
                     && rows[i].event == event && rows[i].user == users[i] && rows[i].rank == i + 1
                     && rows[i].source == ENTROPY_SOURCE && rows[i].total == |users| && rows[i].drawnAt == drawnAt
  }

  /** The seal belongs to these rows and this winner count. */
  ghost predicate Seals(seal: SealRow, event: EventId, winnerCount: int, rows: seq<DrawRow>) {
    seal == SealRow(Sha256(Preimage(event, winnerCount, seal.sealedAt, rows)), SEAL_ALGORITHM, seal.sealedAt)
  }

  /** What RunDraw returns for the rows it inserted: the first `winnerCount` of
      them as winners, the others as waitlist. */
  function Announced(event: EventId, title: string, winnerCount: int, rows: seq<DrawRow>, seal: SealRow): DrawResult
  {
    var k := WinnersAmong(winnerCount, |rows|);
    DrawResult(event, title, |rows|, rows[..k], rows[k..], seal.sealedAt, Some(seal.digest), Verified)
  }

  /** A result that publishes `rows` as the outcome of the draw sealed by `seal`:
      all rows in rank order, of which those with ranks up to the winner count
      have won, the others wait, and the smaller of winner count and number of
      entrants is the number of winners. */
  ghost predicate Publishes(result: DrawResult, event: EventId, title: string, winnerCount: int, rows: seq<DrawRow>,
                            seal: SealRow)
  {
    && result.event == event && result.title == title && result.total == |rows|
    && result.winners + result.waitlist == rows
    && |result.winners| <= winnerCount && (|result.winners| == winnerCount || result.waitlist == [])
    && (forall i :: 0 <= i < |result.winners| ==> result.winners[i].rank <= winnerCount)
    && (forall i :: 0 <= i < |result.waitlist| ==> result.waitlist[i].rank > winnerCount)
    && result.drawnAt == seal.sealedAt && result.digest == Some(seal.digest) && result.integrity == Verified
  }

  /** That determines it. */
  lemma AnnouncementPublishes(result: DrawResult, event: EventId, title: string, winnerCount: int, rows: seq<DrawRow>,
                              seal: SealRow)
    requires winnerCount >= 1 && RanksFromOne(rows)
    ensures Publishes(result, event, title, winnerCount, rows, seal)
       <==> result == Announced(event, title, winnerCount, rows, seal)
  {
    var k := WinnersAmong(winnerCount, |rows|);
    assert rows[..k] + rows[k..] == rows;
    if Publishes(result, event, title, winnerCount, rows, seal) {
      var w := result.winners;
      assert |w| == k;
      assert w == (w + result.waitlist)[..k] && result.waitlist == (w + result.waitlist)[k..];
    }
  }

  /* ---- Reading the rows back ---- */

  /** Go's zero time, which marks that no row was scanned yet. */
  const ZERO_TIME: Timestamp := Instant(1, 1, 1, 0, 0, 0, 0)

  function WinnersIn(rows: seq<DrawRow>, winnerCount: int): seq<DrawRow> {
    if rows == [] then []
    else
      var last := rows[|rows| - 1];
      WinnersIn(rows[..|rows| - 1], winnerCount) + if last.rank <= winnerCount then [last] else []
  }

  function WaitlistIn(rows: seq<DrawRow>, winnerCount: int): seq<DrawRow> {
    if rows == [] then []
    else
      var last := rows[|rows| - 1];
      WaitlistIn(rows[..|rows| - 1], winnerCount) + if last.rank <= winnerCount then [] else [last]
  }

  /** The instant and the number of entrants taken from the scanned rows. */
  function StampIn(rows: seq<DrawRow>): (Timestamp, int) {
    if rows == [] then (ZERO_TIME, 0)
    else
      var last, before := rows[|rows| - 1], StampIn(rows[..|rows| - 1]);
      if before.0 == ZERO_TIME then (last.drawnAt, last.total) else before
  }

  function IntegrityOf(event: EventId, winnerCount: int, drawnAt: Timestamp, rows: seq<DrawRow>,
                       seal: Option<SealRow>): Integrity
  {
    if seal.None? then Unsealed
    else if Sha256(Preimage(event, winnerCount, drawnAt, rows)) == seal.value.digest then Verified
    else Mismatch
  }

  /** What GetResults makes of what its three statements returned. */
  function Reading(event: EventId, found: Option<EventRow>, rows: seq<DrawRow>, seal: Option<SealRow>)
    : Option<DrawResult>
  {
    if found.None? || found.value.status != Drawn then None
    else
      var k := found.value.winnerCount;
      var winners, waitlist, stamp := WinnersIn(rows, k), WaitlistIn(rows, k), StampIn(rows);
      Some(DrawResult(event, found.value.title, stamp.1, winners, waitlist, stamp.0,
                      if seal.None? then None else Some(seal.value.digest),
                      IntegrityOf(event, k, stamp.0, winners + waitlist, seal)))
  }

  /** What GetResults owes to its caller: every row, in rank order and on the side
      its rank decides; the time and the total of the first row that has a
      time; the stored digest; and an integrity that says whether there is a seal
      and whether the rows still hash to it. */
  ghost predicate ReadsBack(result: DrawResult, event: EventId, row: EventRow, rows: seq<DrawRow>, seal: Option<SealRow>) {
    && result.event == event && result.title == row.title
    && (InRankOrder(rows) ==> result.winners + result.waitlist == rows)
    && (forall i :: 0 <= i < |result.winners| ==> result.winners[i].rank <= row.winnerCount)
    && (forall i :: 0 <= i < |result.waitlist| ==> result.waitlist[i].rank > row.winnerCount)
    && IsStamp(result.drawnAt, result.total, rows)
    && (result.digest == if seal.Some? then Some(seal.value.digest) else None)
    && (result.integrity == Unsealed <==> seal.None?)
    && (result.integrity == Verified <==>
          seal.Some? && seal.value.digest
                        == Sha256(Preimage(event, row.winnerCount, result.drawnAt, result.winners + result.waitlist)))
  }

  ghost predicate InRankOrder(rows: seq<DrawRow>) {
    forall i, j :: 0 <= i < j < |rows| ==> rows[i].rank <= rows[j].rank
  }

  /** No row, no time; otherwise the first row that has a time, or the last row. */
  ghost predicate IsStamp(drawnAt: Timestamp, total: int, rows: seq<DrawRow>) {
    if rows == [] then drawnAt == ZERO_TIME && total == 0
    else
      exists i :: 0 <= i < |rows| && drawnAt == rows[i].drawnAt && total == rows[i].total
                  && (i == |rows| - 1 || drawnAt != ZERO_TIME)
                  && forall j :: 0 <= j < i ==> rows[j].drawnAt == ZERO_TIME
  }

  lemma ReadingReadsBack(event: EventId, row: EventRow, rows: seq<DrawRow>, seal: Option<SealRow>)
    requires row.status == Drawn
    ensures ReadsBack(Reading(event, Some(row), rows, seal).value, event, row, rows, seal)
  {
    RankDecides(rows, row.winnerCount);
    StampIsFirst(rows);
    if InRankOrder(rows) {
      SplitIsCut(rows, row.winnerCount);
    }
  }

  lemma {:induction false} RankDecides(rows: seq<DrawRow>, winnerCount: int)
    ensures forall i :: 0 <= i < |WinnersIn(rows, winnerCount)| ==> WinnersIn(rows, winnerCount)[i].rank <= winnerCount
    ensures forall i :: 0 <= i < |WaitlistIn(rows, winnerCount)| ==> WaitlistIn(rows, winnerCount)[i].rank > winnerCount
  {
    if rows != [] {
      RankDecides(rows[..|rows| - 1], winnerCount);
    }
  }

  lemma {:induction false} StampIsFirst(rows: seq<DrawRow>)
    ensures IsStamp(StampIn(rows).0, StampIn(rows).1, rows)
    ensures StampIn(rows).0 == ZERO_TIME ==> forall j :: 0 <= j < |rows| ==> rows[j].drawnAt == ZERO_TIME
  {
    if rows != [] {
      var last := |rows| - 1;
      var front := rows[..last];
      StampIsFirst(front);
      assert forall j :: 0 <= j < last ==> front[j] == rows[j];
      if StampIn(front).0 == ZERO_TIME {
        assert StampIn(rows) == (rows[last].drawnAt, rows[last].total);
      }
    }
  }

  /** The scan of the rows. */
  method ScanRows(rows: seq<DrawRow>, winnerCount: int)
    returns (winners: seq<DrawRow>, waitlist: seq<DrawRow>, drawnAt: Timestamp, total: int)
    ensures winners == WinnersIn(rows, winnerCount) && waitlist == WaitlistIn(rows, winnerCount)
    ensures (drawnAt, total) == StampIn(rows)
  {
    winners, waitlist, drawnAt, total := [], [], ZERO_TIME, 0;
    for i := 0 to |rows|
      invariant winners == WinnersIn(rows[..i], winnerCount)
      invariant waitlist == WaitlistIn(rows[..i], winnerCount)
      invariant (drawnAt, total) == StampIn(rows[..i])
    {
      var d := rows[i];
      assert rows[..i + 1][..i] == rows[..i];
      if drawnAt == ZERO_TIME {
        drawnAt, total := d.drawnAt, d.total;
      }
      if d.rank <= winnerCount {
        winners := winners + [d];
      } else {
        waitlist := waitlist + [d];
      }
    }
    assert rows[..|rows|] == rows;
  }

  /** GetResults, given what its three statements returned. */
  method GetResults(event: EventId, found: Option<EventRow>, rows: seq<DrawRow>, seal: Option<SealRow>)
    returns (r: Option<DrawResult>)
    ensures r == Reading(event, found, rows, seal)
    ensures r.None? <==> found.None? || found.value.status != Drawn
    ensures r.Some? ==> ReadsBack(r.value, event, found.value, rows, seal)
  {
    if found.None? || found.value.status != Drawn {
      return None;
    }
    ReadingReadsBack(event, found.value, rows, seal);
    var winnerCount := found.value.winnerCount;
    var winners, waitlist, drawnAt, total := ScanRows(rows, winnerCount);
    if seal.None? {
      return Some(DrawResult(event, found.value.title, total, winners, waitlist, drawnAt, None, Unsealed));
    }
    var recomputed := DrawDigest(event, winnerCount, drawnAt, winners + waitlist);
    var integrity := if recomputed == seal.value.digest then Verified else Mismatch;
    r := Some(DrawResult(event, found.value.title, total, winners, waitlist, drawnAt, Some(seal.value.digest), integrity));
  }

  /* ---- Round trip ---- */

  /** A SELECT ... ORDER BY draw_rank over `table`. */
  ghost predicate OrderedByRank(rows: seq<DrawRow>, table: seq<DrawRow>) {
    && multiset(rows) == multiset(table)
    && forall i, j :: 0 <= i < j < |rows| ==> rows[i].rank <= rows[j].rank
  }

  ghost predicate RanksFromOne(table: seq<DrawRow>) {
    forall i :: 0 <= i < |table| ==> table[i].rank == i + 1
  }

  lemma HighestRankComesLast(rows: seq<DrawRow>, table: seq<DrawRow>)
    requires OrderedByRank(rows, table) && RanksFromOne(table) && table != []
    ensures |rows| == |table| && rows[|table| - 1] == table[|table| - 1]
  {
    assert |rows| == |multiset(rows)| == |multiset(table)| == |table|;
    var m := |table| - 1;
    assert table[m] in multiset(rows);
    var i :| 0 <= i < |rows| && rows[i] == table[m];
    assert rows[m] in multiset(table);
    var j :| 0 <= j < |table| && table[j] == rows[m];
    assert rows[i].rank <= rows[m].rank;
  }

  /** Rows with ranks 1..n have only one order by rank. */
  lemma {:induction false} RankOrderIsUnique(rows: seq<DrawRow>, table: seq<DrawRow>)
    requires OrderedByRank(rows, table) && RanksFromOne(table)
    ensures rows == table
  {
    if table == [] {
      assert |rows| == |multiset(rows)| == |multiset(table)| == 0;
    } else {
      var m := |table| - 1;
      HighestRankComesLast(rows, table);
      DropLast(rows, table);
      RankOrderIsUnique(rows[..m], table[..m]);
      assert rows == rows[..m] + [rows[m]];
    }
  }

  lemma DropLast<T>(a: seq<T>, b: seq<T>)
    requires multiset(a) == multiset(b) && a != [] && |a| == |b| && a[|a| - 1] == b[|b| - 1]
    ensures multiset(a[..|a| - 1]) == multiset(b[..|b| - 1])
  {
    LastElement(a);
    LastElement(b);
    assert multiset(a[..|a| - 1]) == multiset(a) - multiset{a[|a| - 1]};
    assert multiset(b[..|b| - 1]) == multiset(b) - multiset{b[|b| - 1]};
  }

  /** Splitting rows that are ordered by rank is cutting them in two. */
  lemma {:induction false} SplitIsCut(rows: seq<DrawRow>, winnerCount: int)
    requires forall i, j :: 0 <= i < j < |rows| ==> rows[i].rank <= rows[j].rank
    ensures WinnersIn(rows, winnerCount) + WaitlistIn(rows, winnerCount) == rows
    ensures WaitlistIn(rows, winnerCount) == [] || rows[|rows| - 1].rank > winnerCount
  {
    if rows != [] {
      SplitIsCut(rows[..|rows| - 1], winnerCount);
      assert rows == rows[..|rows| - 1] + [rows[|rows| - 1]];
    }
  }

  lemma {:induction false} WinnersCount(rows: seq<DrawRow>, winnerCount: int)
    requires RanksFromOne(rows)
    ensures |WinnersIn(rows, winnerCount)| == WinnersAmong(winnerCount, |rows|)
  {
    if rows != [] {
      WinnersCount(rows[..|rows| - 1], winnerCount);
    }
  }

  lemma SplitAtWinnerCount(rows: seq<DrawRow>, winnerCount: int)
    requires RanksFromOne(rows)
    ensures var k := WinnersAmong(winnerCount, |rows|);
            var w, l := WinnersIn(rows, winnerCount), WaitlistIn(rows, winnerCount);
            w == rows[..k] && l == rows[k..] && w + l == rows
  {
    SplitIsCut(rows, winnerCount);
    WinnersCount(rows, winnerCount);
    var w, l := WinnersIn(rows, winnerCount), WaitlistIn(rows, winnerCount);
    assert w == (w + l)[..|w|] && l == (w + l)[|w|..];
  }

  lemma {:induction false} StampOfRows(rows: seq<DrawRow>, drawnAt: Timestamp, total: int)
    requires rows != [] && forall i :: 0 <= i < |rows| ==> rows[i].drawnAt == drawnAt && rows[i].total == total
    ensures StampIn(rows) == (drawnAt, total)
  {
    if |rows| > 1 {
      StampOfRows(rows[..|rows| - 1], drawnAt, total);
    } else {
      assert rows[..0] == [];
    }
  }

  /** The round trip: whatever order the rows are stored in, reading back a
      complete draw gives exactly what RunDraw announced, including the case
      where the winner count reaches the number of entrants. */
  lemma ReadingReturnsTheAnnouncement(event: EventId, row: EventRow, users: seq<UserId>, table: seq<DrawRow>,
                                      seal: SealRow, rows: seq<DrawRow>)
    requires row.status == Drawn && row.winnerCount >= 1 && users != []
    requires RowsFor(table, event, users, seal.sealedAt) && |table| == |users|
    requires Seals(seal, event, row.winnerCount, table)
    requires OrderedByRank(rows, table)
    ensures Reading(event, Some(row), rows, Some(seal)) == Some(Announced(event, row.title, row.winnerCount, table, seal))
  {
    RankOrderIsUnique(rows, table);
    SplitAtWinnerCount(table, row.winnerCount);
    StampOfRows(table, seal.sealedAt, |users|);
  }

  /* ---- Tampering ---- */

  lemma RowsHaveNoNewline(rows: seq<DrawRow>, event: EventId, users: seq<UserId>, drawnAt: Timestamp)
    requires RowsFor(rows, event, users, drawnAt)
    ensures SourcesWithoutNewline(rows)
  {
    assert '\n' !in ENTROPY_SOURCE;
  }

  /** After any rewriting of the audit rows and of the winner count behind the
      seal's back, GetResults still says "verified" exactly when nothing the
      seal covers was changed. */
  lemma TamperingIsDetected(event: EventId, row: EventRow, users: seq<UserId>, table: seq<DrawRow>, seal: SealRow,
                            row': EventRow, rows': seq<DrawRow>, table': seq<DrawRow>)
    requires RowsFor(table, event, users, seal.sealedAt) && Seals(seal, event, row.winnerCount, table)
    requires row'.status == Drawn && OrderedByRank(rows', table')
    ensures Reading(event, Some(row'), rows', Some(seal)).value.integrity == Verified
       <==> row'.winnerCount == row.winnerCount && StampIn(rows').0 == seal.sealedAt && SameCovered(table, rows')
  {
    IntegrityOfReading(event, row', rows', seal);
    RowsHaveNoNewline(table, event, users, seal.sealedAt);
    PreimageIffCovered(event, row.winnerCount, seal.sealedAt, table, event, row'.winnerCount, StampIn(rows').0, rows');
  }

  lemma IntegrityOfReading(event: EventId, row: EventRow, rows: seq<DrawRow>, seal: SealRow)
    requires row.status == Drawn && forall i, j :: 0 <= i < j < |rows| ==> rows[i].rank <= rows[j].rank
    ensures Reading(event, Some(row), rows, Some(seal)).value.integrity == Verified
       <==> Sha256(Preimage(event, row.winnerCount, StampIn(rows).0, rows)) == seal.digest
  {
    SplitIsCut(rows, row.winnerCount);
  }
}
