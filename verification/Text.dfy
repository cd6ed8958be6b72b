/** Rendering numbers and instants as text, and taking delimited text apart. */
module Text {

  function Digit(d: nat): (c: char)
    requires d < 10
    ensures '0' <= c <= '9' && c as int - '0' as int == d
  {
    '0' + d as char
  }

  ghost predicate IsDigit(c: char) {
    '0' <= c <= '9'
  }

  ghost predicate AllDigits(s: string) {
    forall i :: 0 <= i < |s| ==> IsDigit(s[i])
  }

  /** The `%d` rendering of a non-negative number. */
  function Decimal(n: nat): (s: string)
    ensures |s| >= 1
  {
    if n < 10 then [Digit(n)] else Decimal(n / 10) + [Digit(n % 10)]
  }

  /** The `%d` rendering of any integer. */
  function Itoa(n: int): string {
    if n < 0 then ['-'] + Decimal(-n) else Decimal(n)
  }

  /** The number a string of digits stands for. */
  function Value(s: string): nat
    requires AllDigits(s)
  {
    if s == [] then 0 else Value(s[..|s| - 1]) * 10 + (s[|s| - 1] as int - '0' as int)
  }

  lemma {:induction false} DecimalRoundTrip(n: nat)
    ensures AllDigits(Decimal(n)) && Value(Decimal(n)) == n
  {
    if n >= 10 {
      DecimalRoundTrip(n / 10);
      var s := Decimal(n);
      assert s[..|s| - 1] == Decimal(n / 10);
    } else {
      assert Decimal(n)[..0] == [];
    }
  }

  /** No leading zero: with the round trip this makes the rendering the only one. */
  lemma {:induction false} DecimalHasNoLeadingZero(n: nat)
    ensures Decimal(n)[0] == '0' <==> n == 0
    ensures n == 0 ==> Decimal(n) == "0"
  {
    if n >= 10 {
      DecimalHasNoLeadingZero(n / 10);
    }
  }

  /** The value of a text is the value of its front, moved up by the length of
      its back, plus the value of its back: leading zeros count for nothing. */
  lemma {:induction false} ValueAppend(a: string, b: string)
    requires AllDigits(a) && AllDigits(b)
    ensures AllDigits(a + b) && Value(a + b) == Value(a) * Pow10(|b|) + Value(b)
    decreases |b|
  {
    if b == [] {
      assert a + b == a;
    } else {
      var last := |b| - 1;
      assert (a + b)[..|a + b| - 1] == a + b[..last];
      ValueAppend(a, b[..last]);
      MoveUp(Value(a), Pow10(last), Value(b[..last]));
    }
  }

  lemma MoveUp(a: nat, p: nat, b: nat)
    ensures (a * p + b) * 10 == a * (10 * p) + b * 10
  {
  }

  /** One digit stands for its distance from '0'. */
  lemma ValueOfDigit(c: char)
    requires IsDigit(c)
    ensures Value([c]) == c as int - '0' as int
  {
    assert [c][..0] == [];
  }

  /** The rendering is never empty, starts with '-' or a digit, and uses no
      delimiter of the sealed text. */
  lemma ItoaCharacters(n: int)
    ensures Itoa(n) != []
    ensures '\n' !in Itoa(n) && ':' !in Itoa(n) && '_' !in Itoa(n)
  {
    DecimalRoundTrip(if n < 0 then -n else n);
  }

  lemma ItoaInjective(a: int, b: int)
    requires Itoa(a) == Itoa(b)
    ensures a == b
  {
    DecimalRoundTrip(if a < 0 then -a else a);
    DecimalRoundTrip(if b < 0 then -b else b);
    assert a < 0 ==> Itoa(a)[1..] == Decimal(-a) && Itoa(a)[0] == '-';
    assert b < 0 ==> Itoa(b)[1..] == Decimal(-b) && Itoa(b)[0] == '-';
    assert a >= 0 ==> IsDigit(Itoa(a)[0]);
    assert b >= 0 ==> IsDigit(Itoa(b)[0]);
  }

  /* ---- Delimited text ---- */

  /** `a`, the delimiter `d`, then `rest`. */
  function Field(a: string, d: char, rest: string): string {
    a + ([d] + rest)
  }

  /** A field that does not contain its delimiter can be read off the front. */
  lemma FirstField(a: string, x: string, b: string, y: string, d: char)
    requires d !in a && d !in b && Field(a, d, x) == Field(b, d, y)
    ensures a == b && x == y
  {
    var s := Field(a, d, x);
    assert s[|a|] == d && s[|b|] == d;
    assert forall i :: 0 <= i < |a| ==> s[i] == a[i];
    assert forall i :: 0 <= i < |b| ==> s[i] == b[i];
    assert |a| == |b|;
    assert a == s[..|a|] && b == s[..|b|];
    assert x == s[|a| + 1..] && y == s[|b| + 1..];
  }

  /** A field that does not contain its delimiter can be read off the back,
      even when the text before it does contain the delimiter. */
  lemma LastField(x: string, a: string, y: string, b: string, d: char)
    requires d !in a && d !in b && Field(x, d, a) == Field(y, d, b)
    ensures a == b && x == y
  {
    var s := Field(x, d, a);
    assert s[|x|] == d && s[|y|] == d;
    assert forall i :: 0 <= i < |a| ==> s[|x| + 1 + i] == a[i];
    assert forall i :: 0 <= i < |b| ==> s[|y| + 1 + i] == b[i];
    assert forall i :: |x| < i < |s| ==> s[i] == a[i - |x| - 1];
    assert forall i :: |y| < i < |s| ==> s[i] == b[i - |y| - 1];
    assert |x| == |y|;
    assert a == s[|x| + 1..] && b == s[|y| + 1..];
    assert x == s[..|x|] && y == s[..|y|];
  }

  /** Two texts with the same front, or fronts of equal length. */
  lemma EqualFronts(a: string, x: string, b: string, y: string)
    requires |a| == |b| && a + x == b + y
    ensures a == b && x == y
  {
    assert a == (a + x)[..|a|] && b == (b + y)[..|b|];
    assert x == (a + x)[|a|..] && y == (b + y)[|b|..];
  }

  /* ---- Instants, with the microsecond precision PostgreSQL stores ---- */

  datatype Instant = Instant(year: nat, month: nat, day: nat, hour: nat, minute: nat, second: nat, micro: nat) {
    ghost predicate Valid() {
      year < 10_000 && month < 100 && day < 100 && hour < 100 && minute < 100 && second < 100 && micro < 1_000_000
    }
  }

  /** An instant whose fields fit their columns in the RFC 3339 text. */
  type Timestamp = t: Instant | t.Valid() witness Instant(1, 1, 1, 0, 0, 0, 0)

  /** `n` in exactly `w` digits. */
  function Padded(n: nat, w: nat): (s: string)
    ensures |s| == w && AllDigits(s)
  {
    if w == 0 then [] else Padded(n / 10, w - 1) + [Digit(n % 10)]
  }

  function Pow10(w: nat): nat {
    if w == 0 then 1 else 10 * Pow10(w - 1)
  }

  /** The padded rendering stands for the number, however wide it is. */
  lemma {:induction false} PaddedRoundTrip(n: nat, w: nat)
    requires n < Pow10(w)
    ensures Value(Padded(n, w)) == n
  {
    if w > 0 {
      PaddedRoundTrip(n / 10, w - 1);
      var s := Padded(n, w);
      assert s[..|s| - 1] == Padded(n / 10, w - 1);
    }
  }

  lemma {:induction false} PaddedInjective(a: nat, b: nat, w: nat)
    requires a < Pow10(w) && b < Pow10(w) && Padded(a, w) == Padded(b, w)
    ensures a == b
  {
    if w > 0 {
      EqualFronts(Padded(a / 10, w - 1), [Digit(a % 10)], Padded(b / 10, w - 1), [Digit(b % 10)]);
      assert [Digit(a % 10)][0] == [Digit(b % 10)][0];
      PaddedInjective(a / 10, b / 10, w - 1);
    }
  }

  /** Drops trailing zeros, as the `.999999999` layout does. */
  function Trimmed(s: string): (t: string)
    ensures |t| <= |s| && s[..|t|] == t && (t != [] ==> t[|t| - 1] != '0')
    ensures forall i :: |t| <= i < |s| ==> s[i] == '0'
  {
    if s == [] || s[|s| - 1] != '0' then s else Trimmed(s[..|s| - 1])
  }

  lemma TrimmedInjective(s: string, t: string)
    requires |s| == |t| && Trimmed(s) == Trimmed(t)
    ensures s == t
  {
    var m := |Trimmed(s)|;
    forall i | 0 <= i < |s|
      ensures s[i] == t[i]
    {
      if i < m {
        assert s[i] == Trimmed(s)[i] && t[i] == Trimmed(t)[i];
      }
    }
  }

  function Fraction(micro: nat): string {
    if micro == 0 then [] else ['.'] + Trimmed(Padded(micro, 6))
  }

  /** The RFC3339Nano text of a UTC instant. */
  function StampText(t: Timestamp): string {
    Padded(t.year, 4) + (['-'] + (Padded(t.month, 2) + (['-'] + (Padded(t.day, 2) + (['T'] + ClockText(t))))))
  }

  function ClockText(t: Timestamp): string {
    Padded(t.hour, 2) + ([':'] + (Padded(t.minute, 2) + ([':'] + (Padded(t.second, 2) + (Fraction(t.micro) + ['Z'])))))
  }

  lemma FractionInjective(a: nat, b: nat)
    requires a < 1_000_000 && b < 1_000_000 && Fraction(a) + ['Z'] == Fraction(b) + ['Z']
    ensures a == b
  {
    assert Pow10(6) == 1_000_000 by {
      assert Pow10(3) == 1_000;
    }
    LastSame(Fraction(a), Fraction(b), 'Z');
    if a > 0 && b > 0 {
      EqualFronts(['.'], Trimmed(Padded(a, 6)), ['.'], Trimmed(Padded(b, 6)));
      TrimmedInjective(Padded(a, 6), Padded(b, 6));
      PaddedInjective(a, b, 6);
    }
  }

  lemma LastSame(x: string, y: string, c: char)
    requires x + [c] == y + [c]
    ensures x == y
  {
    assert |x + [c]| == |x| + 1 && |y + [c]| == |y| + 1;
    EqualFronts(x, [c], y, [c]);
  }

  lemma PaddedField(a: nat, x: string, b: nat, y: string, w: nat)
    requires a < Pow10(w) && b < Pow10(w) && Padded(a, w) + x == Padded(b, w) + y
    ensures a == b && x == y
  {
    EqualFronts(Padded(a, w), x, Padded(b, w), y);
    PaddedInjective(a, b, w);
  }

  lemma PunctuatedField(c: char, a: nat, x: string, b: nat, y: string)
    requires a < 100 && b < 100 && [c] + (Padded(a, 2) + x) == [c] + (Padded(b, 2) + y)
    ensures a == b && x == y
  {
    assert Pow10(2) == 100;
    EqualFronts([c], Padded(a, 2) + x, [c], Padded(b, 2) + y);
    PaddedField(a, x, b, y, 2);
  }

  lemma ClockTextInjective(t: Timestamp, u: Timestamp)
    requires ClockText(t) == ClockText(u)
    ensures t.hour == u.hour && t.minute == u.minute && t.second == u.second && t.micro == u.micro
  {
    assert Pow10(2) == 100;
    var ft, fu := Fraction(t.micro) + ['Z'], Fraction(u.micro) + ['Z'];
    var st, su := [':'] + (Padded(t.second, 2) + ft), [':'] + (Padded(u.second, 2) + fu);
    PaddedField(t.hour, [':'] + (Padded(t.minute, 2) + st), u.hour, [':'] + (Padded(u.minute, 2) + su), 2);
    PunctuatedField(':', t.minute, st, u.minute, su);
    PunctuatedField(':', t.second, ft, u.second, fu);
    FractionInjective(t.micro, u.micro);
  }

  /** Two instants with the same text are the same instant. */
  lemma StampTextInjective(t: Timestamp, u: Timestamp)
    requires StampText(t) == StampText(u)
    ensures t == u
  {
    assert Pow10(4) == 10_000 by {
      assert Pow10(2) == 100;
    }
    var ct, cu := ['T'] + ClockText(t), ['T'] + ClockText(u);
    var dt, du := ['-'] + (Padded(t.day, 2) + ct), ['-'] + (Padded(u.day, 2) + cu);
    PaddedField(t.year, ['-'] + (Padded(t.month, 2) + dt), u.year, ['-'] + (Padded(u.month, 2) + du), 4);
    PunctuatedField('-', t.month, dt, u.month, du);
    PunctuatedField('-', t.day, ct, u.day, cu);
    EqualFronts(['T'], ClockText(t), ['T'], ClockText(u));
    ClockTextInjective(t, u);
  }

  /** `s[i..i + w]` are digits that stand for `n`. */
  ghost predicate Reads(s: string, i: nat, w: nat, n: nat) {
    i + w <= |s| && AllDigits(s[i..i + w]) && Value(s[i..i + w]) == n
  }

  /** The text is the date and time of section 5.6 of RFC 3339, in UTC: four
      digits of the year, two each of month, day, hour, minute and second, with
      the punctuation between them; then, unless the second is full, a point and
      as many decimals as are needed; and a Z. */
  lemma StampTextIsRfc3339(t: Timestamp)
    ensures var s := StampText(t);
            && Reads(s, 0, 4, t.year) && s[4] == '-' && Reads(s, 5, 2, t.month) && s[7] == '-' && Reads(s, 8, 2, t.day)
            && s[10] == 'T' && Reads(s, 11, 2, t.hour) && s[13] == ':' && Reads(s, 14, 2, t.minute) && s[16] == ':'
            && Reads(s, 17, 2, t.second) && s[|s| - 1] == 'Z'
    ensures var s := StampText(t);
            if t.micro == 0 then |s| == 20
            else
              && 22 <= |s| <= 27 && s[19] == '.' && s[|s| - 2] != '0' && AllDigits(s[20..|s| - 1])
              && Value(s[20..|s| - 1]) * Pow10(27 - |s|) == t.micro
  {
    DateReads(t);
    ClockReads(t);
    FractionReads(t.micro);
    TailReads(StampText(t), Fraction(t.micro), t.micro);
  }

  lemma TailReads(s: string, f: string, micro: nat)
    requires |s| >= 20 && s[19..] == f + ['Z']
    requires if micro == 0 then f == []
             else 2 <= |f| <= 7 && f[0] == '.' && f[|f| - 1] != '0' && AllDigits(f[1..])
                  && Value(f[1..]) * Pow10(7 - |f|) == micro
    ensures s[|s| - 1] == 'Z'
    ensures if micro == 0 then |s| == 20
            else
              && 22 <= |s| <= 27 && s[19] == '.' && s[|s| - 2] != '0' && AllDigits(s[20..|s| - 1])
              && Value(s[20..|s| - 1]) * Pow10(27 - |s|) == micro
  {
    assert |s| == 20 + |f|;
    assert s[|s| - 1] == s[19..][|f|];
    if micro > 0 {
      assert s[19] == s[19..][0];
      assert s[|s| - 2] == s[19..][|f| - 1];
      assert s[20..|s| - 1] == f[1..];
    }
  }

  lemma DateReads(t: Timestamp)
    ensures var s := StampText(t);
            && |s| >= 11 && Reads(s, 0, 4, t.year) && s[4] == '-' && Reads(s, 5, 2, t.month) && s[7] == '-'
            && Reads(s, 8, 2, t.day) && s[10] == 'T' && s[11..] == ClockText(t)
  {
    var s := StampText(t);
    PowersOfTen();
    PaddedRoundTrip(t.year, 4);
    PaddedRoundTrip(t.month, 2);
    PaddedRoundTrip(t.day, 2);
    assert s[0..4] == Padded(t.year, 4);
    assert s[5..7] == Padded(t.month, 2);
    assert s[8..10] == Padded(t.day, 2);
  }

  lemma ClockReads(t: Timestamp)
    ensures var s := StampText(t);
            && |s| >= 20 && Reads(s, 11, 2, t.hour) && s[13] == ':' && Reads(s, 14, 2, t.minute) && s[16] == ':'
            && Reads(s, 17, 2, t.second) && s[19..] == Fraction(t.micro) + ['Z']
  {
    var s, c := StampText(t), ClockText(t);
    PowersOfTen();
    PaddedRoundTrip(t.hour, 2);
    PaddedRoundTrip(t.minute, 2);
    PaddedRoundTrip(t.second, 2);
    assert c[0..2] == Padded(t.hour, 2) && c[3..5] == Padded(t.minute, 2) && c[6..8] == Padded(t.second, 2);
    assert s[11..] == c by {
      DateReads(t);
    }
    ClockPart(s, c);
  }

  lemma ClockPart(s: string, c: string)
    requires |s| >= 20 && s[11..] == c
    ensures s[11..13] == c[0..2] && s[13] == c[2] && s[14..16] == c[3..5] && s[16] == c[5] && s[17..19] == c[6..8]
    ensures s[19..] == c[8..]
  {
    Shifted(s, 11, 0, 2);
    Shifted(s, 11, 3, 2);
    Shifted(s, 11, 6, 2);
  }

  lemma Shifted(s: string, from: nat, i: nat, w: nat)
    requires from + i + w <= |s|
    ensures s[from + i..from + i + w] == s[from..][i..i + w]
  {
  }

  lemma PowersOfTen()
    ensures Pow10(2) == 100 && Pow10(4) == 10_000 && Pow10(6) == 1_000_000
  {
    assert Pow10(3) == 1_000;
  }

  lemma {:induction false} ZerosAreWorthNothing(s: string)
    requires AllDigits(s) && forall i :: 0 <= i < |s| ==> s[i] == '0'
    ensures Value(s) == 0
  {
    if s != [] {
      ZerosAreWorthNothing(s[..|s| - 1]);
    }
  }

  lemma FractionReads(micro: nat)
    requires micro < 1_000_000
    ensures var f := Fraction(micro);
            if micro == 0 then f == []
            else 2 <= |f| <= 7 && f[0] == '.' && f[|f| - 1] != '0' && AllDigits(f[1..])
                 && Value(f[1..]) * Pow10(7 - |f|) == micro
  {
    PowersOfTen();
    if micro > 0 {
      var p := Padded(micro, 6);
      var t := Trimmed(p);
      PaddedRoundTrip(micro, 6);
      assert p == t + p[|t|..];
      assert AllDigits(t) by {
        assert forall i :: 0 <= i < |t| ==> t[i] == p[i];
      }
      assert forall i :: 0 <= i < |p[|t|..]| ==> p[|t|..][i] == p[|t| + i];
      ZerosAreWorthNothing(p[|t|..]);
      ValueAppend(t, p[|t|..]);
      assert Fraction(micro)[1..] == t;
    }
  }

  lemma NoNewlineInDigits(s: string)
    requires AllDigits(s)
    ensures '\n' !in s
  {
  }

  lemma StampTextHasNoNewline(t: Timestamp)
    ensures '\n' !in StampText(t)
  {
    var padded := Padded(t.micro, 6);
    assert forall i :: 0 <= i < |Trimmed(padded)| ==> Trimmed(padded)[i] == padded[i];
    assert '\n' !in Fraction(t.micro);
    assert '\n' !in ClockText(t) by {
      NoNewlineInDigits(Padded(t.hour, 2));
      NoNewlineInDigits(Padded(t.minute, 2));
      NoNewlineInDigits(Padded(t.second, 2));
    }
    NoNewlineInDigits(Padded(t.year, 4));
    NoNewlineInDigits(Padded(t.month, 2));
    NoNewlineInDigits(Padded(t.day, 2));
  }

  /* ---- Input text ---- */

  /** unicode.IsSpace. */
  predicate IsSpace(c: char) {
    var n := c as int;
    || 0x09 <= n <= 0x0D || n == 0x20 || n == 0x85 || n == 0xA0 || n == 0x1680 || 0x2000 <= n <= 0x200A
    || n == 0x2028 || n == 0x2029 || n == 0x202F || n == 0x205F || n == 0x3000
  }

  /** The characters with the Unicode property White_Space. */
  const WHITE_SPACE := "\t\n\U{B}\U{C}\r \U{85}\U{A0}\U{1680}"
                       + "\U{2000}\U{2001}\U{2002}\U{2003}\U{2004}\U{2005}\U{2006}\U{2007}\U{2008}\U{2009}\U{200A}"
                       + "\U{2028}\U{2029}\U{202F}\U{205F}\U{3000}"

  /** These are the characters that are cut off, and no others. */
  lemma SpacesAreWhiteSpace(c: char)
    ensures IsSpace(c) <==> c in WHITE_SPACE
  {
    var w := WHITE_SPACE;
    assert |w| == 25;
    assert w[0] as int == 0x09 && w[1] as int == 0x0A && w[2] as int == 0x0B && w[3] as int == 0x0C && w[4] as int == 0x0D;
    assert w[5] as int == 0x20 && w[6] as int == 0x85 && w[7] as int == 0xA0 && w[8] as int == 0x1680;
    assert forall i :: 9 <= i < 20 ==> w[i] as int == 0x2000 + i - 9;
    assert w[20] as int == 0x2028 && w[21] as int == 0x2029 && w[22] as int == 0x202F;
    assert w[23] as int == 0x205F && w[24] as int == 0x3000;
    if IsSpace(c) {
      var n := c as int;
      var k := if n <= 0x0D then n - 9 else if n == 0x20 then 5 else if n == 0x85 then 6 else if n == 0xA0 then 7
      else if n == 0x1680 then 8 else if n <= 0x200A then n - 0x2000 + 9 else if n == 0x2028 then 20
      else if n == 0x2029 then 21 else if n == 0x202F then 22 else if n == 0x205F then 23 else 24;
      assert w[k] as int == n;
      assert w[k] == c;
    }
  }

  function TrimLeft(s: string): (t: string)
    ensures |t| <= |s| && t == s[|s| - |t|..] && (t != [] ==> !IsSpace(t[0]))
    ensures forall i :: 0 <= i < |s| - |t| ==> IsSpace(s[i])
  {
    if s != [] && IsSpace(s[0]) then TrimLeft(s[1..]) else s
  }

  function TrimRight(s: string): (t: string)
    ensures |t| <= |s| && t == s[..|t|] && (t != [] ==> !IsSpace(t[|t| - 1]))
    ensures forall i :: |t| <= i < |s| ==> IsSpace(s[i])
  {
    if s != [] && IsSpace(s[|s| - 1]) then TrimRight(s[..|s| - 1]) else s
  }

  /** strings.TrimSpace: what is left begins and ends with something visible, and
      only white space was cut off. */
  function TrimSpace(s: string): (t: string)
    ensures t != [] ==> !IsSpace(t[0]) && !IsSpace(t[|t| - 1])
    ensures exists i, j :: 0 <= i <= j <= |s| && t == s[i..j]
                           && forall k :: 0 <= k < |s| && !(i <= k < j) ==> IsSpace(s[k])
  {
    var u := TrimLeft(s);
    var t := TrimRight(u);
    assert t == s[|s| - |u|..|s| - |u| + |t|];
    assert forall k :: |s| - |u| + |t| <= k < |s| ==> s[k] == u[k - (|s| - |u|)];
    t
  }

  /** Bytes of a character in UTF-8 (section 3 of RFC 3629). */
  function Utf8Bytes(c: char): (n: nat)
    ensures 1 <= n <= 4
  {
    var n := c as int;
    if n < 0x80 then 1 else if n < 0x800 then 2 else if n < 0x1_0000 then 3 else 4
  }

  /** A character needs the more bytes the higher it is, and these are the last
      and the first of each length. */
  lemma Utf8Lengths(c: char, d: char)
    ensures c <= d ==> Utf8Bytes(c) <= Utf8Bytes(d)
    ensures Utf8Bytes('\U{7F}') == 1 && Utf8Bytes('\U{80}') == 2 && Utf8Bytes('\U{7FF}') == 2
    ensures Utf8Bytes('\U{800}') == 3 && Utf8Bytes('\U{FFFF}') == 3 && Utf8Bytes('\U{10000}') == 4
  {
  }

  /** The length of a text is the sum of the lengths of its characters. */
  lemma {:induction false} ByteLengthAppend(a: string, b: string)
    ensures ByteLength(a + b) == ByteLength(a) + ByteLength(b)
    ensures forall c :: ByteLength([c]) == Utf8Bytes(c)
    decreases |a|
  {
    if a == [] {
      assert a + b == b;
      forall c
        ensures ByteLength([c]) == Utf8Bytes(c)
      {
        assert [c][1..] == [];
      }
    } else {
      assert (a + b)[1..] == a[1..] + b;
      ByteLengthAppend(a[1..], b);
    }
  }

  /** len of a Go string. */
  function ByteLength(s: string): (n: nat)
    ensures |s| <= n <= 4 * |s|
  {
    if s == [] then 0 else Utf8Bytes(s[0]) + ByteLength(s[1..])
  }
}
