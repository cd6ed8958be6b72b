/** The migration runner of internal/db/migrate.go, cut off at any step and
    started again any number of times, one migrator at a time. */
module Migrations {
  import opened Prelude
  import opened Text

  /* ---- File names ---- */

  const SUFFIX := ".sql"
  const MAX_INT64 := 0x7fff_ffff_ffff_ffff

  predicate HasSuffix(s: string, suffix: string) {
    |suffix| <= |s| && s[|s| - |suffix|..] == suffix
  }

  function TrimSuffix(s: string, suffix: string): string {
    if HasSuffix(s, suffix) then s[..|s| - |suffix|] else s
  }

  /** The first position of `c`, or |s|. */
  function IndexOf(s: string, c: char): (i: nat)
    ensures i <= |s| && c !in s[..i] && (i < |s| ==> s[i] == c)
  {
    if s == [] || s[0] == c then 0
    else
      var i := 1 + IndexOf(s[1..], c);
      assert s[..i] == [s[0]] + s[1..][..i - 1];
      i
  }

  predicate Digits(s: string) {
    s != [] && forall i :: 0 <= i < |s| ==> '0' <= s[i] <= '9'
  }

  /** strconv.ParseInt(s, 10, 64). */
  function ParseInt64(s: string): Option<int> {
    if s != [] && (s[0] == '-' || s[0] == '+') then
      if !Digits(s[1..]) then None
      else
        var n: int := Value(s[1..]);
        var v := if s[0] == '-' then -n else n;
        if -MAX_INT64 - 1 <= v <= MAX_INT64 then Some(v) else None
    else if !Digits(s) || Value(s) > MAX_INT64 then None
    else Some(Value(s))
  }

  /** It undoes the `%d` rendering. */
  lemma ItoaRoundTrip(n: int)
    requires -MAX_INT64 - 1 <= n <= MAX_INT64
    ensures ParseInt64(Itoa(n)) == Some(n)
  {
    var m := if n < 0 then -n else n;
    DecimalRoundTrip(m);
    DecimalHasNoLeadingZero(m);
    assert n < 0 ==> Itoa(n)[1..] == Decimal(m);
    assert n >= 0 ==> IsDigit(Itoa(n)[0]);
  }

  /** Version and name of a migration file, or None for a malformed name. The
      name splits at its first underscore, which must not come first. */
  function ParseFilename(name: string): Option<(int, string)> {
    var base := TrimSuffix(name, SUFFIX);
    var i := IndexOf(base, '_');
    if i == 0 || i == |base| then None
    else
      var v := ParseInt64(base[..i]);
      if v.None? then None else Some((v.value, base[i + 1..]))
  }

  /** The numbers ParseInt accepts: digits, with a sign before them or not, that
      stand for a 64-bit integer. */
  lemma ParseIntExactly(s: string, v: int)
    ensures ParseInt64(s) == Some(v) <==>
              -0x8000_0000_0000_0000 <= v <= 0x7fff_ffff_ffff_ffff && exists digits :: Writes(s, digits, v)
  {
    if ParseInt64(s) == Some(v) {
      var digits := if s[0] == '-' || s[0] == '+' then s[1..] else s;
      assert s == s[..1] + s[1..];
      assert Writes(s, digits, v);
    }
    forall digits | Writes(s, digits, v) && -0x8000_0000_0000_0000 <= v <= 0x7fff_ffff_ffff_ffff
      ensures ParseInt64(s) == Some(v)
    {
      assert (['-'] + digits)[1..] == digits && (['+'] + digits)[1..] == digits;
    }
  }

  ghost predicate Writes(s: string, digits: string, v: int) {
    Digits(digits) && ((s == digits && v == Value(digits)) || (s == ['+'] + digits && v == Value(digits))
                       || (s == ['-'] + digits && v == 0 - Value(digits)))
  }

  /** A version and a name, put together as a file name, are read back. */
  lemma FilenameReads(prefix: string, name: string, v: int)
    requires '_' !in prefix && ParseInt64(prefix) == Some(v)
    ensures ParseFilename(prefix + ['_'] + name + SUFFIX) == Some((v, name))
  {
    var base := prefix + ['_'] + name;
    assert (base + SUFFIX)[|base|..] == SUFFIX && (base + SUFFIX)[..|base|] == base;
    FirstUnderscore(prefix, name);
  }

  /** Every version is read back, with as many leading zeros as one likes. */
  lemma FilenameRoundTrip(n: nat, w: nat, name: string)
    requires w >= 1 && n < Pow10(w) && n <= MAX_INT64
    ensures ParseFilename(Padded(n, w) + "_" + name + ".sql") == Some((n, name))
  {
    PaddedRoundTrip(n, w);
    FilenameReads(Padded(n, w), name, n);
  }

  /** A file name is well formed exactly if an acceptable number stands before its
      first underscore, and then what stands behind it is the name. */
  lemma FilenameExactly(stem: string, v: int, name: string)
    ensures ParseFilename(stem + SUFFIX) == Some((v, name)) <==> exists prefix :: Splits(stem, prefix, v, name)
  {
    var base := TrimSuffix(stem + SUFFIX, SUFFIX);
    assert (stem + SUFFIX)[|stem|..] == SUFFIX && base == stem;
    if ParseFilename(stem + SUFFIX) == Some((v, name)) {
      assert Splits(stem, stem[..IndexOf(stem, '_')], v, name);
    }
    forall prefix | Splits(stem, prefix, v, name)
      ensures ParseFilename(stem + SUFFIX) == Some((v, name))
    {
      FilenameReads(prefix, name, v);
    }
  }

  ghost predicate Splits(stem: string, prefix: string, v: int, name: string) {
    stem == prefix + ['_'] + name && '_' !in prefix && ParseInt64(prefix) == Some(v)
  }

  /** The versions of this repository's files, "001_init.sql" and
      "002_harden_audit.sql". */
  lemma RepositoryFiles(one: string, two: string, init: string, harden: string)
    requires one == "001" && two == "002"
    ensures ParseFilename(one + "_" + init + ".sql") == Some((1, init))
    ensures ParseFilename(two + "_" + harden + ".sql") == Some((2, harden))
  {
    ThreeDigits();
    FilenameRoundTrip(1, 3, init);
    FilenameRoundTrip(2, 3, harden);
  }

  lemma ThreeDigits()
    ensures Padded(1, 3) == "001" && Padded(2, 3) == "002" && Pow10(3) == 1000
  {
    assert Padded(0, 1) == "0" && Padded(0, 2) == "00";
  }

  lemma {:induction false} FirstUnderscore(p: string, rest: string)
    requires '_' !in p
    ensures IndexOf(p + ['_'] + rest, '_') == |p|
    ensures (p + ['_'] + rest)[..|p|] == p && (p + ['_'] + rest)[|p| + 1..] == rest
  {
    if p != [] {
      assert (p + ['_'] + rest)[1..] == p[1..] + ['_'] + rest;
      FirstUnderscore(p[1..], rest);
    }
  }

  datatype Entry = Entry(name: string, isDir: bool, fails: bool)

  predicate IsMigration(e: Entry) {
    !e.isDir && HasSuffix(e.name, SUFFIX)
  }

  /** The files that end in .sql, and no directory. */
  lemma MigrationFiles(e: Entry)
    ensures IsMigration(e) <==> !e.isDir && exists stem :: e.name == stem + ".sql"
  {
    if HasSuffix(e.name, SUFFIX) {
      assert e.name == e.name[..|e.name| - 4] + ".sql";
    }
  }

  /** The migrations in a directory listing, or None if a name is malformed. */
  function Selected(es: seq<Entry>): Option<seq<Migration>> {
    if es == [] then Some([])
    else
      var front, e := Selected(es[..|es| - 1]), es[|es| - 1];
      if front.None? || !IsMigration(e) then front
      else
        var parsed := ParseFilename(e.name);
        if parsed.None? then None
        else Some(front.value + [Migration(parsed.value.0, parsed.value.1, e.fails)])
  }

  lemma {:induction false} MalformedStops(es: seq<Entry>, i: nat)
    requires i <= |es| && Selected(es[..i]).None?
    ensures Selected(es).None?
    decreases |es| - i
  {
    if i < |es| {
      assert es[..i + 1][..i] == es[..i];
      MalformedStops(es, i + 1);
    } else {
      assert es[..i] == es;
    }
  }

  /** Where the migration files stand in a listing, in order. */
  function Positions(es: seq<Entry>): (at: seq<nat>)
    ensures forall j, k :: 0 <= j < k < |at| ==> at[j] < at[k]
    ensures forall i: nat :: i in at <==> i < |es| && IsMigration(es[i])
  {
    if es == [] then []
    else
      var last := |es| - 1;
      var front := Positions(es[..last]);
      assert forall i :: 0 <= i < last ==> es[..last][i] == es[i];
      assert forall j :: 0 <= j < |front| ==> front[j] in front;
      if IsMigration(es[last]) then front + [last] else front
  }

  /** `m` is the migration in the file `e`. */
  predicate IsFrom(m: Migration, e: Entry) {
    ParseFilename(e.name) == Some((m.version, m.name)) && m.fails == e.fails
  }

  lemma {:induction false} SelectedFails(es: seq<Entry>)
    ensures Selected(es).None? <==> exists e :: e in es && IsMigration(e) && ParseFilename(e.name).None?
  {
    if es != [] {
      var last := |es| - 1;
      SelectedFails(es[..last]);
      assert es == es[..last] + [es[last]];
    }
  }

  /** `ms` are the migrations in the files at the positions `at`. */
  ghost predicate AreFrom(ms: seq<Migration>, at: seq<nat>, es: seq<Entry>) {
    |ms| == |at| && forall j :: 0 <= j < |ms| ==> at[j] < |es| && IsFrom(ms[j], es[at[j]])
  }

  lemma AreFromMore(ms: seq<Migration>, at: seq<nat>, es: seq<Entry>, e: Entry)
    requires AreFrom(ms, at, es)
    ensures AreFrom(ms, at, es + [e])
    ensures forall m :: IsFrom(m, e) ==> AreFrom(ms + [m], at + [|es|], es + [e])
  {
  }

  lemma {:induction false} SelectedInOrder(es: seq<Entry>)
    requires Selected(es).Some?
    ensures AreFrom(Selected(es).value, Positions(es), es)
  {
    if es != [] {
      var last := |es| - 1;
      SelectedInOrder(es[..last]);
      assert es == es[..last] + [es[last]];
      AreFromMore(Selected(es[..last]).value, Positions(es[..last]), es[..last], es[last]);
    }
  }

  /** Every migration file is kept, once and in order, and nothing else is; one
      malformed name among them spoils the whole. */
  lemma SelectedKeeps(es: seq<Entry>)
    ensures Selected(es).None? <==> exists e :: e in es && IsMigration(e) && ParseFilename(e.name).None?
    ensures Selected(es).Some? ==> AreFrom(Selected(es).value, Positions(es), es)
  {
    SelectedFails(es);
    if Selected(es).Some? {
      SelectedInOrder(es);
    }
  }

  method Discover(es: seq<Entry>) returns (r: Option<seq<Migration>>)
    ensures r == Selected(es)
    ensures r.None? <==> exists e :: e in es && IsMigration(e) && ParseFilename(e.name).None?
    ensures r.Some? ==> AreFrom(r.value, Positions(es), es)
  {
    SelectedKeeps(es);
    var ms: seq<Migration> := [];
    for i := 0 to |es|
      invariant Selected(es[..i]) == Some(ms)
    {
      assert es[..i + 1][..i] == es[..i];
      if IsMigration(es[i]) {
        var parsed := ParseFilename(es[i].name);
        if parsed.None? {
          MalformedStops(es, i + 1);
          return None;
        }
        ms := ms + [Migration(parsed.value.0, parsed.value.1, es[i].fails)];
      }
    }
    assert es[..|es|] == es;
    r := Some(ms);
  }

  /* ---- Applying the files ---- */

  /** `fails` says that PostgreSQL rejects the body. */
  datatype Migration = Migration(version: int, name: string, fails: bool)

  /** The committed state: the ledger and the bodies that took effect, in order. */
  datatype Schema = Schema(ledger: map<int, string>, applied: seq<Migration>)

  const EMPTY_SCHEMA := Schema(map[], [])

  datatype End = Finished | CutOff | BodyFailed(version: int)

  /** The body and its ledger row, committed together; ON CONFLICT DO NOTHING
      covers a body that has recorded itself, as 001_init.sql does. */
  function Recorded(s: Schema, m: Migration): Schema {
    Schema(if m.version in s.ledger then s.ledger else s.ledger[m.version := m.name], s.applied + [m])
  }

  /** One run over the sorted files that gets `fuel` statements far: the check of
      the ledger is one, and BEGIN, the body, the ledger row and COMMIT are four
      more, of which only the last changes the committed state. */
  function RunOnce(s: Schema, ms: seq<Migration>, fuel: nat): (Schema, End)
    decreases |ms|
  {
    if ms == [] then (s, Finished)
    else if fuel == 0 then (s, CutOff)
    else if ms[0].version in s.ledger then RunOnce(s, ms[1..], fuel - 1)
    else if fuel < 3 then (s, CutOff)
    else if ms[0].fails then (s, BodyFailed(ms[0].version))
    else if fuel < 5 then (s, CutOff)
    else RunOnce(Recorded(s, ms[0]), ms[1..], fuel - 5)
  }

  /** The database connection of a migrator. */
  class Migrator {
    var schema: Schema

    constructor (s: Schema)
      ensures schema == s
    {
      schema := s;
    }

    /** The loop of RunMigrations over the sorted files, executed until it is
        done, fails or is cut off after `fuel` statements. */
    method ApplyAll(ms: seq<Migration>, fuel: nat) returns (end: End)
      modifies this
      ensures (schema, end) == RunOnce(old(schema), ms, fuel)
    {
      var left := fuel;
      assert ms[0..] == ms;
      for i := 0 to |ms|
        invariant RunOnce(schema, ms[i..], left) == RunOnce(old(schema), ms, fuel)
      {
        assert ms[i..][0] == ms[i] && ms[i..][1..] == ms[i + 1..];
        if left == 0 {
          return CutOff;
        }
        var exists_ := ms[i].version in schema.ledger;
        left := left - 1;
        if !exists_ {
          if left < 2 {
            return CutOff;
          }
          if ms[i].fails {
            return BodyFailed(ms[i].version);
          }
          var pending := Recorded(schema, ms[i]);
          if left < 4 {
            return CutOff;
          }
          schema := pending;
          left := left - 4;
        }
      }
      end := Finished;
    }

    /** RunMigrations: nothing is touched when a file name is malformed;
        otherwise the files are applied in version order. */
    method RunMigrations(es: seq<Entry>, fuel: nat) returns (end: Option<End>, order: seq<Migration>)
      modifies this
      ensures end.None? <==> Selected(es).None?
      ensures end.None? ==> schema == old(schema)
      ensures end.Some? ==> multiset(order) == multiset(Selected(es).value) && Sorted(order)
                            && (schema, end.value) == RunOnce(old(schema), order, fuel)
      ensures end.Some? && Distinct(Versions(Selected(es).value)) ==> Ascending(order)
    {
      var found := Discover(es);
      if found.None? {
        return None, [];
      }
      order := SortByVersion(found.value);
      var e := ApplyAll(order, fuel);
      end := Some(e);
    }
  }

  /* ---- Sorting ---- */

  ghost predicate Ascending(ms: seq<Migration>) {
    forall i, j :: 0 <= i < j < |ms| ==> ms[i].version < ms[j].version
  }

  function Versions(ms: seq<Migration>): (vs: seq<int>)
    ensures |vs| == |ms| && forall i :: 0 <= i < |vs| ==> vs[i] == ms[i].version
  {
    seq(|ms|, i requires 0 <= i < |ms| => ms[i].version)
  }

  ghost predicate Sorted(ms: seq<Migration>) {
    forall i, j :: 0 <= i < j < |ms| ==> ms[i].version <= ms[j].version
  }

  method InsertByVersion(s: seq<Migration>, m: Migration) returns (r: seq<Migration>)
    requires Sorted(s)
    ensures Sorted(r) && multiset(r) == multiset(s) + multiset{m}
  {
    var k := 0;
    while k < |s| && s[k].version <= m.version
      invariant 0 <= k <= |s|
      invariant forall a :: 0 <= a < k ==> s[a].version <= m.version
    {
      k := k + 1;
    }
    assert s == s[..k] + s[k..];
    r := s[..k] + [m] + s[k..];
  }

  /** Sorting by version, as sort.Slice does. */
  method SortByVersion(ms: seq<Migration>) returns (r: seq<Migration>)
    ensures multiset(r) == multiset(ms) && Sorted(r)
    ensures Distinct(Versions(ms)) ==> Ascending(r)
  {
    r := [];
    for i := 0 to |ms|
      invariant multiset(r) == multiset(ms[..i]) && Sorted(r)
    {
      assert ms[..i + 1] == ms[..i] + [ms[i]];
      r := InsertByVersion(r, ms[i]);
    }
    assert ms[..|ms|] == ms;
    SortedDistinct(ms, r);
  }

  lemma SortedDistinct(ms: seq<Migration>, r: seq<Migration>)
    requires multiset(r) == multiset(ms) && Sorted(r)
    ensures Distinct(Versions(ms)) ==> Ascending(r)
  {
    if Distinct(Versions(ms)) {
      assert Distinct(ms) by {
        assert forall i, j :: 0 <= i < j < |ms| ==> Versions(ms)[i] != Versions(ms)[j];
      }
      DistinctPermutation(ms, r);
      forall i, j | 0 <= i < j < |r|
        ensures r[i].version != r[j].version
      {
        assert r[i] in ms && r[j] in ms && r[i] != r[j];
        var a :| 0 <= a < |ms| && ms[a] == r[i];
        var b :| 0 <= b < |ms| && ms[b] == r[j];
        assert Versions(ms)[a] != Versions(ms)[b];
      }
    }
  }

  /* ---- Crash and resume ---- */

  function LedgerOf(ms: seq<Migration>): map<int, string> {
    if ms == [] then map[] else LedgerOf(ms[..|ms| - 1])[ms[|ms| - 1].version := ms[|ms| - 1].name]
  }

  /** The state in which exactly the first `k` files have been applied. */
  function After(ms: seq<Migration>, k: nat): Schema
    requires k <= |ms|
  {
    Schema(LedgerOf(ms[..k]), ms[..k])
  }

  lemma {:induction false} LedgerKeys(ms: seq<Migration>)
    ensures forall v :: v in LedgerOf(ms) <==> v in Versions(ms)
  {
    if ms != [] {
      var front := ms[..|ms| - 1];
      LedgerKeys(front);
      assert Versions(ms) == Versions(front) + [ms[|ms| - 1].version];
    }
  }

  /** In ascending files the ledger of the first k has no later version. */
  lemma NotYetRecorded(ms: seq<Migration>, k: nat, i: nat)
    requires Ascending(ms) && k <= |ms| && i < |ms|
    ensures ms[i].version in After(ms, k).ledger <==> i < k
  {
    LedgerKeys(ms[..k]);
    if i < k {
      assert Versions(ms[..k])[i] == ms[i].version;
    }
  }

  lemma OneMore(ms: seq<Migration>, k: nat)
    requires Ascending(ms) && k < |ms|
    ensures Recorded(After(ms, k), ms[k]) == After(ms, k + 1)
  {
    NotYetRecorded(ms, k, k);
    assert ms[..k + 1] == ms[..k] + [ms[k]];
    assert ms[..k + 1][..k] == ms[..k];
  }

  /** A run that finds the first `k` files applied leaves some first k' applied,
      with k' >= k, and all of them if it finishes. No failing body is among the
      new ones, and a run that reports one stands right before it. */
  lemma {:induction false} RunAdvances(ms: seq<Migration>, k: nat, i: nat, fuel: nat) returns (k': nat)
    requires Ascending(ms) && k <= |ms| && i <= k
    ensures k <= k' <= |ms| && RunOnce(After(ms, k), ms[i..], fuel).0 == After(ms, k')
    ensures RunOnce(After(ms, k), ms[i..], fuel).1 == Finished ==> k' == |ms|
    ensures forall j :: k <= j < k' ==> !ms[j].fails
    ensures forall v :: RunOnce(After(ms, k), ms[i..], fuel).1 == BodyFailed(v) ==>
                          k' < |ms| && ms[k'].fails && ms[k'].version == v
    decreases |ms| - i
  {
    k' := k;
    if i < |ms| {
      assert ms[i..][0] == ms[i] && ms[i..][1..] == ms[i + 1..];
      NotYetRecorded(ms, k, i);
      if fuel == 0 {
      } else if i < k {
        k' := RunAdvances(ms, k, i + 1, fuel - 1);
      } else if fuel >= 5 && !ms[i].fails {
        OneMore(ms, k);
        k' := RunAdvances(ms, k + 1, i + 1, fuel - 5);
      }
    }
  }

  /** Any number of runs, each cut off after its own number of statements. */
  function RunMany(s: Schema, ms: seq<Migration>, fuels: seq<nat>): Schema
    decreases |fuels|
  {
    if fuels == [] then s else RunMany(RunOnce(s, ms, fuels[0]).0, ms, fuels[1..])
  }

  lemma {:induction false} RunManyAdvances(ms: seq<Migration>, k: nat, fuels: seq<nat>) returns (k': nat)
    requires Ascending(ms) && k <= |ms|
    ensures k <= k' <= |ms| && RunMany(After(ms, k), ms, fuels) == After(ms, k')
    decreases |fuels|
  {
    k' := k;
    if fuels != [] {
      assert ms[0..] == ms;
      var k1 := RunAdvances(ms, k, 0, fuels[0]);
      k' := RunManyAdvances(ms, k1, fuels[1..]);
    }
  }

  /** Partial application is impossible: after any sequence of interrupted runs
      on an empty database the bodies in effect are a prefix of the files in
      version order and the ledger records exactly those. */
  lemma InterruptedRunsLeaveAPrefix(ms: seq<Migration>, fuels: seq<nat>)
    requires Ascending(ms)
    ensures exists k: nat :: k <= |ms| && Records(RunMany(EMPTY_SCHEMA, ms, fuels), ms[..k])
  {
    assert EMPTY_SCHEMA == After(ms, 0);
    var k := RunManyAdvances(ms, 0, fuels);
    LedgerRecords(ms[..k]);
  }

  /** The bodies in effect are `done`, in this order, and the ledger has a row
      with version and name for each of them and none besides. */
  ghost predicate Records(s: Schema, done: seq<Migration>) {
    && s.applied == done
    && (forall i :: 0 <= i < |done| ==> done[i].version in s.ledger && s.ledger[done[i].version] == done[i].name)
    && forall v :: v in s.ledger ==> exists i :: 0 <= i < |done| && done[i].version == v
  }

  lemma {:induction false} LedgerRecords(done: seq<Migration>)
    requires Ascending(done)
    ensures Records(Schema(LedgerOf(done), done), done)
  {
    if done != [] {
      var last := |done| - 1;
      var front := done[..last];
      LedgerRecords(front);
      assert forall i :: 0 <= i < last ==> front[i] == done[i];
    }
  }

  /** A run that finishes, whatever was interrupted before it, ends where a
      single uninterrupted run ends, and running again changes nothing. */
  lemma FinishedRunsAgree(ms: seq<Migration>, fuels: seq<nat>, fuel: nat, again: nat)
    requires Ascending(ms) && RunOnce(RunMany(EMPTY_SCHEMA, ms, fuels), ms, fuel).1 == Finished
    ensures RunOnce(RunMany(EMPTY_SCHEMA, ms, fuels), ms, fuel).0 == After(ms, |ms|)
    ensures RunOnce(After(ms, |ms|), ms, again).0 == After(ms, |ms|)
  {
    assert EMPTY_SCHEMA == After(ms, 0) && ms[0..] == ms;
    var k := RunManyAdvances(ms, 0, fuels);
    var k1 := RunAdvances(ms, k, 0, fuel);
    var k2 := RunAdvances(ms, |ms|, 0, again);
  }

  /** With enough statements a run finishes or comes to a failing body; without
      a failing body it finishes. */
  lemma {:induction false} RunFinishes(s: Schema, ms: seq<Migration>, fuel: nat)
    requires fuel >= 5 * |ms|
    ensures RunOnce(s, ms, fuel).1 != CutOff
    ensures (forall i :: 0 <= i < |ms| ==> !ms[i].fails) ==> RunOnce(s, ms, fuel).1 == Finished
    decreases |ms|
  {
    if ms != [] {
      if ms[0].version in s.ledger {
        RunFinishes(s, ms[1..], fuel - 1);
      } else if !ms[0].fails {
        RunFinishes(Recorded(s, ms[0]), ms[1..], fuel - 5);
      }
    }
  }

  /* ---- Two files with one version ---- */

  ghost predicate LedgerMatches(s: Schema) {
    Distinct(Versions(s.applied)) && forall v :: v in s.ledger <==> v in Versions(s.applied)
  }

  lemma {:induction false} NoVersionTwice(s: Schema, ms: seq<Migration>, fuel: nat)
    requires LedgerMatches(s)
    ensures LedgerMatches(RunOnce(s, ms, fuel).0)
    decreases |ms|
  {
    if ms != [] && fuel > 0 {
      if ms[0].version in s.ledger {
        NoVersionTwice(s, ms[1..], fuel - 1);
      } else if fuel >= 5 && !ms[0].fails {
        var next := Recorded(s, ms[0]);
        assert Versions(next.applied) == Versions(s.applied) + [ms[0].version];
        DistinctAppend(Versions(s.applied), ms[0].version);
        NoVersionTwice(next, ms[1..], fuel - 5);
      }
    }
  }

  /** The runner keeps one body per version: a finished run on an empty database
      has applied every file if and only if no two files share a version. */
  lemma AllAppliedIffVersionsDiffer(ms: seq<Migration>, fuel: nat)
    requires Sorted(ms)
    requires RunOnce(EMPTY_SCHEMA, ms, fuel).1 == Finished
    ensures RunOnce(EMPTY_SCHEMA, ms, fuel).0.applied == ms <==> Distinct(Versions(ms))
  {
    NoVersionTwice(EMPTY_SCHEMA, ms, fuel);
    if Distinct(Versions(ms)) {
      assert Ascending(ms) by {
        assert forall i, j :: 0 <= i < j < |ms| ==> Versions(ms)[i] != Versions(ms)[j];
      }
      assert EMPTY_SCHEMA == After(ms, 0) && ms[0..] == ms;
      var k := RunAdvances(ms, 0, 0, fuel);
    }
  }
}
