/** The text that internal/lottery/seal.go hashes, and what it determines. */
module Seal {
  import opened Text
  import opened Tables

  const SEAL_ALGORITHM := "sha256-v1"
  const EVENT_KEY := "event:"
  const WINNER_COUNT_KEY := "winner_count:"
  const DRAWN_AT_KEY := "drawn_at:"
  const ENTRANTS_KEY := "entrants:"

  /** `rank:user:source:total`, without the line end. */
  function Line(r: DrawRow): string {
    Field(Itoa(r.rank), ':', Field(Itoa(r.user), ':', Field(r.source, ':', Itoa(r.total))))
  }

  function Lines(rows: seq<DrawRow>): string {
    if rows == [] then [] else Field(Line(rows[0]), '\n', Lines(rows[1..]))
  }

  function CountedRows(rows: seq<DrawRow>): string {
    Field(ENTRANTS_KEY + Itoa(|rows|), '\n', Lines(rows))
  }

  function DatedRows(drawnAt: Timestamp, rows: seq<DrawRow>): string {
    Field(DRAWN_AT_KEY + StampText(drawnAt), '\n', CountedRows(rows))
  }

  function SplitRows(winnerCount: int, drawnAt: Timestamp, rows: seq<DrawRow>): string {
    Field(WINNER_COUNT_KEY + Itoa(winnerCount), '\n', DatedRows(drawnAt, rows))
  }

  function EventRows(event: EventId, winnerCount: int, drawnAt: Timestamp, rows: seq<DrawRow>): string {
    Field(EVENT_KEY + Itoa(event), '\n', SplitRows(winnerCount, drawnAt, rows))
  }

  /** The hashed text: five header lines followed by one line per row. */
  function Preimage(event: EventId, winnerCount: int, drawnAt: Timestamp, rows: seq<DrawRow>): string {
    Field(SEAL_ALGORITHM, '\n', EventRows(event, winnerCount, drawnAt, rows))
  }

  /** The text in full: five header lines, and then one line for each row. */
  lemma PreimageText(event: EventId, winnerCount: int, drawnAt: Timestamp, rows: seq<DrawRow>)
    ensures Preimage(event, winnerCount, drawnAt, rows)
         == "sha256-v1" + "\n" + ("event:" + Itoa(event)) + "\n" + ("winner_count:" + Itoa(winnerCount)) + "\n"
            + ("drawn_at:" + StampText(drawnAt)) + "\n" + ("entrants:" + Itoa(|rows|)) + "\n" + Lines(rows)
  {
    HeaderText("sha256-v1", "event:" + Itoa(event), "winner_count:" + Itoa(winnerCount), "drawn_at:" + StampText(drawnAt),
               "entrants:" + Itoa(|rows|), Lines(rows));
  }

  lemma LinesText(rows: seq<DrawRow>, r: DrawRow)
    ensures Lines([]) == ""
    ensures Lines(rows + [r])
         == Lines(rows) + (Itoa(r.rank) + ":" + Itoa(r.user) + ":" + r.source + ":" + Itoa(r.total) + "\n")
  {
    LinesAppend(rows, [r]);
    OneLine([r]);
    LineText(r);
  }

  /* ---- What the text determines ---- */

  /** The part of a row that is hashed: not its id and not its own drawn_at. */
  datatype Covered = Covered(rank: int, user: UserId, source: string, total: int)

  function CoveredPart(r: DrawRow): Covered {
    Covered(r.rank, r.user, r.source, r.total)
  }

  ghost predicate SameCovered(a: seq<DrawRow>, b: seq<DrawRow>) {
    |a| == |b| && forall i :: 0 <= i < |a| ==> CoveredPart(a[i]) == CoveredPart(b[i])
  }

  ghost predicate SourcesWithoutNewline(rows: seq<DrawRow>) {
    forall i :: 0 <= i < |rows| ==> '\n' !in rows[i].source
  }

  /** A line determines the four fields, even when the source contains ':'. */
  lemma LineInjective(a: DrawRow, b: DrawRow)
    requires Line(a) == Line(b)
    ensures CoveredPart(a) == CoveredPart(b)
  {
    ItoaCharacters(a.rank);
    ItoaCharacters(b.rank);
    ItoaCharacters(a.user);
    ItoaCharacters(b.user);
    ItoaCharacters(a.total);
    ItoaCharacters(b.total);
    var a3, b3 := Field(a.source, ':', Itoa(a.total)), Field(b.source, ':', Itoa(b.total));
    var a2, b2 := Field(Itoa(a.user), ':', a3), Field(Itoa(b.user), ':', b3);
    FirstField(Itoa(a.rank), a2, Itoa(b.rank), b2, ':');
    FirstField(Itoa(a.user), a3, Itoa(b.user), b3, ':');
    LastField(a.source, Itoa(a.total), b.source, Itoa(b.total), ':');
    ItoaInjective(a.rank, b.rank);
    ItoaInjective(a.user, b.user);
    ItoaInjective(a.total, b.total);
  }

  /* Line ends in a text; a source with a newline adds to them. */
  function Newlines(s: string): nat {
    multiset(s)['\n']
  }

  lemma NewlinesOfLine(r: DrawRow)
    ensures Newlines(Line(r)) == Newlines(r.source)
  {
    ItoaCharacters(r.rank);
    ItoaCharacters(r.user);
    ItoaCharacters(r.total);
    NoNewlineCount(Itoa(r.rank));
    NoNewlineCount(Itoa(r.user));
    NoNewlineCount(Itoa(r.total));
    NewlinesOfField(r.source, ':', Itoa(r.total));
    NewlinesOfField(Itoa(r.user), ':', Field(r.source, ':', Itoa(r.total)));
    NewlinesOfField(Itoa(r.rank), ':', Field(Itoa(r.user), ':', Field(r.source, ':', Itoa(r.total))));
  }

  lemma NoNewlineCount(s: string)
    ensures '\n' !in s <==> Newlines(s) == 0
  {
    assert '\n' in s <==> '\n' in multiset(s);
  }

  lemma NewlinesOfField(a: string, d: char, rest: string)
    ensures Newlines(Field(a, d, rest)) == Newlines(a) + (if d == '\n' then 1 else 0) + Newlines(rest)
  {
  }

  lemma SourcesSplit(rows: seq<DrawRow>)
    requires rows != []
    ensures SourcesWithoutNewline(rows) <==> '\n' !in rows[0].source && SourcesWithoutNewline(rows[1..])
  {
    assert forall i :: 0 <= i < |rows| - 1 ==> rows[1..][i] == rows[i + 1];
    assert forall i :: 1 <= i < |rows| ==> rows[i] == rows[1..][i - 1];
  }

  /** A text of |rows| lines leaves no room for a newline in a source. */
  lemma {:induction false} LinesHaveNewlines(rows: seq<DrawRow>)
    ensures Newlines(Lines(rows)) >= |rows|
    ensures Newlines(Lines(rows)) == |rows| <==> SourcesWithoutNewline(rows)
  {
    if rows != [] {
      LinesHaveNewlines(rows[1..]);
      NewlinesOfLine(rows[0]);
      NewlinesOfField(Line(rows[0]), '\n', Lines(rows[1..]));
      NoNewlineCount(rows[0].source);
      SourcesSplit(rows);
    }
  }

  lemma FirstLine(r: DrawRow, x: string, q: DrawRow, y: string)
    requires '\n' !in r.source && '\n' !in q.source && Field(Line(r), '\n', x) == Field(Line(q), '\n', y)
    ensures CoveredPart(r) == CoveredPart(q) && x == y
  {
    NewlinesOfLine(r);
    NewlinesOfLine(q);
    NoNewlineCount(r.source);
    NoNewlineCount(q.source);
    NoNewlineCount(Line(r));
    NoNewlineCount(Line(q));
    FirstField(Line(r), x, Line(q), y, '\n');
    LineInjective(r, q);
  }

  lemma {:induction false} LinesInjective(a: seq<DrawRow>, b: seq<DrawRow>)
    requires |a| == |b| && Lines(a) == Lines(b) && SourcesWithoutNewline(a) && SourcesWithoutNewline(b)
    ensures SameCovered(a, b)
  {
    if a != [] {
      FirstLine(a[0], Lines(a[1..]), b[0], Lines(b[1..]));
      SourcesSplit(a);
      SourcesSplit(b);
      LinesInjective(a[1..], b[1..]);
      forall i | 1 <= i < |a|
        ensures CoveredPart(a[i]) == CoveredPart(b[i])
      {
        assert CoveredPart(a[1..][i - 1]) == CoveredPart(b[1..][i - 1]);
      }
    }
  }

  lemma KeyedField(key: string, v: string, x: string, w: string, y: string)
    requires '\n' !in key && '\n' !in v && '\n' !in w && Field(key + v, '\n', x) == Field(key + w, '\n', y)
    ensures v == w && x == y
  {
    FirstField(key + v, x, key + w, y, '\n');
    EqualFronts(key, v, key, w);
  }

  lemma KeyedNumber(key: string, m: int, x: string, n: int, y: string)
    requires '\n' !in key && Field(key + Itoa(m), '\n', x) == Field(key + Itoa(n), '\n', y)
    ensures m == n && x == y
  {
    ItoaCharacters(m);
    ItoaCharacters(n);
    KeyedField(key, Itoa(m), x, Itoa(n), y);
    ItoaInjective(m, n);
  }

  lemma KeysAreOneLine()
    ensures '\n' !in SEAL_ALGORITHM && '\n' !in EVENT_KEY && '\n' !in WINNER_COUNT_KEY
    ensures '\n' !in DRAWN_AT_KEY && '\n' !in ENTRANTS_KEY
  {
  }

  lemma DatedRowsInjective(t1: Timestamp, a: seq<DrawRow>, t2: Timestamp, b: seq<DrawRow>)
    requires DatedRows(t1, a) == DatedRows(t2, b)
    ensures t1 == t2 && |a| == |b| && Lines(a) == Lines(b)
  {
    KeysAreOneLine();
    StampTextHasNoNewline(t1);
    StampTextHasNoNewline(t2);
    KeyedField(DRAWN_AT_KEY, StampText(t1), CountedRows(a), StampText(t2), CountedRows(b));
    StampTextInjective(t1, t2);
    KeyedNumber(ENTRANTS_KEY, |a|, Lines(a), |b|, Lines(b));
  }

  lemma SplitRowsInjective(k1: int, t1: Timestamp, a: seq<DrawRow>, k2: int, t2: Timestamp, b: seq<DrawRow>)
    requires SplitRows(k1, t1, a) == SplitRows(k2, t2, b)
    ensures k1 == k2 && t1 == t2 && |a| == |b| && Lines(a) == Lines(b)
  {
    KeysAreOneLine();
    KeyedNumber(WINNER_COUNT_KEY, k1, DatedRows(t1, a), k2, DatedRows(t2, b));
    DatedRowsInjective(t1, a, t2, b);
  }

  lemma EventRowsInjective(e1: EventId, k1: int, t1: Timestamp, a: seq<DrawRow>,
                           e2: EventId, k2: int, t2: Timestamp, b: seq<DrawRow>)
    requires EventRows(e1, k1, t1, a) == EventRows(e2, k2, t2, b)
    ensures e1 == e2 && SplitRows(k1, t1, a) == SplitRows(k2, t2, b)
  {
    KeysAreOneLine();
    KeyedNumber(EVENT_KEY, e1, SplitRows(k1, t1, a), e2, SplitRows(k2, t2, b));
  }

  lemma HeaderInjective(e1: EventId, k1: int, t1: Timestamp, a: seq<DrawRow>,
                        e2: EventId, k2: int, t2: Timestamp, b: seq<DrawRow>)
    requires Preimage(e1, k1, t1, a) == Preimage(e2, k2, t2, b)
    ensures e1 == e2 && k1 == k2 && t1 == t2 && |a| == |b| && Lines(a) == Lines(b)
  {
    KeysAreOneLine();
    FirstField(SEAL_ALGORITHM, EventRows(e1, k1, t1, a), SEAL_ALGORITHM, EventRows(e2, k2, t2, b), '\n');
    EventRowsInjective(e1, k1, t1, a, e2, k2, t2, b);
    SplitRowsInjective(k1, t1, a, k2, t2, b);
  }

  /** The hashed text determines everything it covers, as soon as the sources
      of one of the two inputs are free of newlines; those of the other then
      are as well. */
  lemma PreimageInjective(e1: EventId, k1: int, t1: Timestamp, a: seq<DrawRow>,
                          e2: EventId, k2: int, t2: Timestamp, b: seq<DrawRow>)
    requires SourcesWithoutNewline(a)
    requires Preimage(e1, k1, t1, a) == Preimage(e2, k2, t2, b)
    ensures e1 == e2 && k1 == k2 && t1 == t2 && SameCovered(a, b) && SourcesWithoutNewline(b)
  {
    HeaderInjective(e1, k1, t1, a, e2, k2, t2, b);
    LinesHaveNewlines(a);
    LinesHaveNewlines(b);
    LinesInjective(a, b);
  }

  /** One row, or none, is determined whatever its source contains. */
  lemma PreimageOfOneRow(e1: EventId, k1: int, t1: Timestamp, a: seq<DrawRow>,
                         e2: EventId, k2: int, t2: Timestamp, b: seq<DrawRow>)
    requires |a| <= 1 && Preimage(e1, k1, t1, a) == Preimage(e2, k2, t2, b)
    ensures e1 == e2 && k1 == k2 && t1 == t2 && SameCovered(a, b)
  {
    HeaderInjective(e1, k1, t1, a, e2, k2, t2, b);
    if |a| == 1 {
      OneLine(a);
      OneLine(b);
      EqualFronts(Line(a[0]), ['\n'], Line(b[0]), ['\n']);
      LineInjective(a[0], b[0]);
    }
  }

  /** Conversely, what the text does not cover does not matter. */
  lemma {:induction false} LinesCovered(a: seq<DrawRow>, b: seq<DrawRow>)
    requires SameCovered(a, b)
    ensures Lines(a) == Lines(b)
  {
    if a != [] {
      assert CoveredPart(a[0]) == CoveredPart(b[0]);
      assert forall i :: 0 <= i < |a| - 1 ==> CoveredPart(a[1..][i]) == CoveredPart(a[i + 1])
                                              && CoveredPart(b[1..][i]) == CoveredPart(b[i + 1]);
      LinesCovered(a[1..], b[1..]);
    }
  }

  /** For newline-free sources, equal pre-images are exactly equal covered data. */
  lemma PreimageIffCovered(e1: EventId, k1: int, t1: Timestamp, a: seq<DrawRow>,
                           e2: EventId, k2: int, t2: Timestamp, b: seq<DrawRow>)
    requires SourcesWithoutNewline(a)
    ensures Preimage(e1, k1, t1, a) == Preimage(e2, k2, t2, b)
       <==> e1 == e2 && k1 == k2 && t1 == t2 && SameCovered(a, b)
  {
    if Preimage(e1, k1, t1, a) == Preimage(e2, k2, t2, b) {
      PreimageInjective(e1, k1, t1, a, e2, k2, t2, b);
    } else if SameCovered(a, b) {
      LinesCovered(a, b);
    }
  }

  function AmbiguousLeft(e: EventId, t: Timestamp): seq<DrawRow> {
    [DrawRow(0, e, 1, 1, ":1\n2:2:", 1, t), DrawRow(0, e, 3, 3, "", 1, t)]
  }

  function AmbiguousRight(e: EventId, t: Timestamp): seq<DrawRow> {
    [DrawRow(0, e, 1, 1, "", 1, t), DrawRow(0, e, 2, 2, ":1\n3:3:", 1, t)]
  }

  /** Without that condition the text is ambiguous as soon as there are two rows:
      a newline in a source can move a row boundary, whatever the event, the
      winner count and the other rows. */
  lemma NewlineInSourceIsAmbiguous(e: EventId, k: int, t: Timestamp, rest: seq<DrawRow>)
    ensures Preimage(e, k, t, AmbiguousLeft(e, t) + rest) == Preimage(e, k, t, AmbiguousRight(e, t) + rest)
    ensures !SameCovered(AmbiguousLeft(e, t) + rest, AmbiguousRight(e, t) + rest)
  {
    var a, b := AmbiguousLeft(e, t), AmbiguousRight(e, t);
    TwoLines(a);
    TwoLines(b);
    AmbiguousLines(e, t);
    LinesAppend(a, rest);
    LinesAppend(b, rest);
    assert |a + rest| == |b + rest|;
    assert CoveredPart((a + rest)[0]) != CoveredPart((b + rest)[0]);
  }

  lemma {:induction false} LinesAppend(a: seq<DrawRow>, c: seq<DrawRow>)
    ensures Lines(a + c) == Lines(a) + Lines(c)
    decreases |a|
  {
    if a == [] {
      assert a + c == c;
    } else {
      assert (a + c)[1..] == a[1..] + c;
      LinesAppend(a[1..], c);
      FieldAppend(Line(a[0]), '\n', Lines(a[1..]), Lines(c));
    }
  }

  /** The text determines everything it covers, for every list of `n` rows and
      whatever their sources contain. */
  ghost predicate Determines(n: nat) {
    forall e1, k1, t1, a, e2, k2, t2, b ::
      |a| == n && Preimage(e1, k1, t1, a) == Preimage(e2, k2, t2, b) ==>
        e1 == e2 && k1 == k2 && t1 == t2 && SameCovered(a, b)
  }

  /** Over arbitrary sources that is so exactly for no row and for one row. */
  lemma DeterminedExactlyUpToOneRow(n: nat, t: Timestamp)
    ensures Determines(n) <==> n <= 1
  {
    if n <= 1 {
      forall e1, k1, t1, a, e2, k2, t2, b | |a| == n && Preimage(e1, k1, t1, a) == Preimage(e2, k2, t2, b)
        ensures e1 == e2 && k1 == k2 && t1 == t2 && SameCovered(a, b)
      {
        PreimageOfOneRow(e1, k1, t1, a, e2, k2, t2, b);
      }
    } else {
      var rest := seq(n - 2, i => DrawRow(0, 5, 4, 4, "", 1, t));
      NewlineInSourceIsAmbiguous(5, 1, t, rest);
      assert |AmbiguousLeft(5, t) + rest| == n;
    }
  }

  lemma AmbiguousLines(e: EventId, t: Timestamp)
    ensures var a, b := AmbiguousLeft(e, t), AmbiguousRight(e, t);
            Field(Line(a[0]), '\n', Line(a[1])) == Field(Line(b[0]), '\n', Line(b[1]))
  {
    SmallNumbers();
    var a, b := AmbiguousLeft(e, t), AmbiguousRight(e, t);
    assert Line(a[0]) == "1:1::1\n2:2::1";
    assert Line(a[1]) == "3:3::1";
    assert Line(b[0]) == "1:1::1";
    assert Line(b[1]) == "2:2::1\n3:3::1";
  }

  lemma TwoLines(rows: seq<DrawRow>)
    requires |rows| == 2
    ensures Lines(rows) == Field(Line(rows[0]), '\n', Line(rows[1])) + ['\n']
  {
    OneLine(rows[1..]);
    FieldAppend(Line(rows[0]), '\n', Line(rows[1]), ['\n']);
  }

  lemma FieldAppend(a: string, d: char, b: string, c: string)
    ensures Field(a, d, b + c) == Field(a, d, b) + c
  {
  }

  lemma OneLine(rows: seq<DrawRow>)
    requires |rows| == 1
    ensures Lines(rows) == Line(rows[0]) + ['\n']
  {
    assert rows[1..] == [];
  }

  lemma SmallNumbers()
    ensures Itoa(1) == "1" && Itoa(2) == "2" && Itoa(3) == "3"
  {
    assert Decimal(1) == "1";
  }

  /* ---- The code ---- */

  /** Appends to a builder line by line, then hashes what was written. */
  method DrawDigest(event: EventId, winnerCount: int, drawnAt: Timestamp, rows: seq<DrawRow>) returns (digest: Digest)
    ensures digest == Sha256(Preimage(event, winnerCount, drawnAt, rows))
  {
    var b := SEAL_ALGORITHM + "\n" + (EVENT_KEY + Itoa(event)) + "\n" + (WINNER_COUNT_KEY + Itoa(winnerCount)) + "\n"
    + (DRAWN_AT_KEY + StampText(drawnAt)) + "\n" + (ENTRANTS_KEY + Itoa(|rows|)) + "\n";
    ghost var target := Preimage(event, winnerCount, drawnAt, rows);
    HeaderText(SEAL_ALGORITHM, EVENT_KEY + Itoa(event), WINNER_COUNT_KEY + Itoa(winnerCount),
               DRAWN_AT_KEY + StampText(drawnAt), ENTRANTS_KEY + Itoa(|rows|), Lines(rows));
    assert rows[0..] == rows;
    for i := 0 to |rows|
      invariant b + Lines(rows[i..]) == target
    {
      ghost var before := b;
      b := b + (Itoa(rows[i].rank) + ":" + Itoa(rows[i].user) + ":" + rows[i].source + ":" + Itoa(rows[i].total) + "\n");
      AppendLine(before, rows, i);
    }
    NoMoreLines(b, rows);
    digest := Sha256(b);
  }

  lemma NoMoreLines(b: string, rows: seq<DrawRow>)
    ensures b + Lines(rows[|rows|..]) == b
  {
  }

  lemma AppendLine(b: string, rows: seq<DrawRow>, i: nat)
    requires i < |rows|
    ensures var r := rows[i];
            b + (Itoa(r.rank) + ":" + Itoa(r.user) + ":" + r.source + ":" + Itoa(r.total) + "\n") + Lines(rows[i + 1..])
            == b + Lines(rows[i..])
  {
    LineText(rows[i]);
    assert rows[i..][1..] == rows[i + 1..];
    assert rows[i..][0] == rows[i];
    Associate(b, Line(rows[i]), Lines(rows[i + 1..]));
  }

  lemma Associate(b: string, line: string, rest: string)
    ensures b + (line + ['\n']) + rest == b + Field(line, '\n', rest)
  {
  }

  lemma LineText(r: DrawRow)
    ensures Itoa(r.rank) + ":" + Itoa(r.user) + ":" + r.source + ":" + Itoa(r.total) + "\n" == Line(r) + ['\n']
  {
    FourFields(Itoa(r.rank), Itoa(r.user), r.source, Itoa(r.total));
  }

  lemma FourFields(a: string, b: string, c: string, d: string)
    ensures a + ":" + b + ":" + c + ":" + d + "\n" == Field(a, ':', Field(b, ':', Field(c, ':', d))) + ['\n']
  {
    assert c + ":" + d == Field(c, ':', d);
  }

  lemma HeaderText(a: string, b: string, c: string, d: string, e: string, rest: string)
    ensures a + "\n" + b + "\n" + c + "\n" + d + "\n" + e + "\n" + rest ==
            Field(a, '\n', Field(b, '\n', Field(c, '\n', Field(d, '\n', Field(e, '\n', rest)))))
  {
    assert e + "\n" + rest == Field(e, '\n', rest);
  }
}
