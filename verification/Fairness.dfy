/** Exact counting of the shuffle's outcomes over all choice vectors.

    A uniform draw of each c[i] from [0, i] makes the n! choice vectors equally
    likely, so "fair" means: the vectors that produce an outcome are as many as
    the vectors that produce any outcome of the same kind. */
module Fairness {
  import opened Prelude
  import opened Shuffle

  function Factorial(n: nat): (f: nat)
    ensures f >= 1
  {
    if n == 0 then 1 else n * Factorial(n - 1)
  }

  /** All choice vectors for `n` participants. */
  ghost function Vectors(n: nat): set<seq<nat>> {
    if n == 0 then {[]} else set c, j: nat | c in Vectors(n - 1) && j < n :: c + [j]
  }

  lemma {:induction false} VectorsAreTheVectors(n: nat)
    ensures forall c :: c in Vectors(n) <==> IsVector(c, n)
  {
    if n > 0 {
      VectorsAreTheVectors(n - 1);
      forall c | IsVector(c, n)
        ensures c in Vectors(n)
      {
        assert c == c[..n - 1] + [c[n - 1]];
        assert c[..n - 1] in Vectors(n - 1);
      }
    }
  }

  /* ---- Counting by the last entry ---- */

  ghost function Extend(vs: set<seq<nat>>, j: nat): set<seq<nat>> {
    set c | c in vs :: c + [j]
  }

  lemma {:induction false} ExtendSize(vs: set<seq<nat>>, j: nat)
    ensures |Extend(vs, j)| == |vs|
    decreases |vs|
  {
    if vs == {} {
      assert Extend(vs, j) == {};
    } else {
      var c :| c in vs;
      var rest := vs - {c};
      ExtendSize(rest, j);
      assert Extend(vs, j) == Extend(rest, j) + {c + [j]};
      forall d | d in rest
        ensures d + [j] != c + [j]
      {
        assert (d + [j])[..|d|] == d && (c + [j])[..|c|] == c;
      }
    }
  }

  ghost function EndingIn(vs: set<seq<nat>>, j: nat): set<seq<nat>> {
    set c | c in vs && c != [] && c[|c| - 1] == j
  }

  /** The vectors in `vs` with last entry `j` are those in `ws` with `j` appended. */
  lemma EndingInIsExtend(vs: set<seq<nat>>, ws: set<seq<nat>>, j: nat)
    requires forall c :: c in ws ==> c + [j] in vs
    requires forall c :: c in EndingIn(vs, j) ==> c[..|c| - 1] in ws
    ensures EndingIn(vs, j) == Extend(ws, j)
  {
    forall c | c in EndingIn(vs, j)
      ensures c in Extend(ws, j)
    {
      assert c == c[..|c| - 1] + [j];
    }
  }

  /** Vectors whose last entry lies in `js`, with `k` of them for each. */
  lemma {:induction false} CountByLastEntry(vs: set<seq<nat>>, js: set<nat>, k: nat)
    requires forall c :: c in vs ==> c != [] && c[|c| - 1] in js
    requires forall j :: j in js ==> |EndingIn(vs, j)| == k
    ensures |vs| == |js| * k
    decreases |js|
  {
    if js == {} {
      assert vs == {};
    } else {
      var j :| j in js;
      var part, rest, less := EndingIn(vs, j), vs - EndingIn(vs, j), js - {j};
      assert vs == part + rest && |js| == |less| + 1;
      forall i | i in less
        ensures |EndingIn(rest, i)| == k
      {
        assert EndingIn(rest, i) == EndingIn(vs, i);
      }
      CountByLastEntry(rest, less, k);
      OneMore(|less|, k);
    }
  }

  lemma OneMore(m: nat, k: nat)
    ensures (m + 1) * k == m * k + k
  {
  }

  ghost function Below(n: nat): (js: set<nat>)
    ensures |js| == n && forall j: nat :: j in js <==> j < n
  {
    if n == 0 then {} else Below(n - 1) + {n - 1}
  }

  /** There are n! choice vectors. */
  lemma {:induction false} VectorsCount(n: nat)
    ensures |Vectors(n)| == Factorial(n)
  {
    if n > 0 {
      VectorsCount(n - 1);
      VectorsAreTheVectors(n);
      forall j | j in Below(n)
        ensures |EndingIn(Vectors(n), j)| == Factorial(n - 1)
      {
        VectorsEndingIn(n, j);
        ExtendSize(Vectors(n - 1), j);
      }
      CountByLastEntry(Vectors(n), Below(n), Factorial(n - 1));
    }
  }

  lemma VectorsEndingIn(n: nat, j: nat)
    requires j < n
    ensures EndingIn(Vectors(n), j) == Extend(Vectors(n - 1), j)
  {
    VectorsAreTheVectors(n);
    VectorsAreTheVectors(n - 1);
    forall c | c in EndingIn(Vectors(n), j)
      ensures c in Extend(Vectors(n - 1), j)
    {
      assert c == c[..n - 1] + [j] && c[..n - 1] in Vectors(n - 1);
    }
  }

  /* ---- Who stands on rank r + 1 ---- */

  /** The vectors that put `x` at index `r` of the output. */
  ghost function Placing<T(!new)>(s: seq<T>, r: nat, x: T): set<seq<nat>>
    requires r < |s|
  {
    VectorsAreTheVectors(|s|);
    set c | c in Vectors(|s|) && Shuffled(s, c)[r] == x
  }

  /** What is left to shuffle after the last place went to s[j]. */
  ghost function Others<T>(s: seq<T>, j: nat): (t: seq<T>)
    requires j < |s|
    ensures |t| == |s| - 1
  {
    Swap(s, |s| - 1, j)[..|s| - 1]
  }

  lemma OthersOf<T>(s: seq<T>, j: nat)
    requires Distinct(s) && j < |s|
    ensures Distinct(Others(s, j)) && s[j] !in Others(s, j)
    ensures forall x :: x in s && x != s[j] ==> x in Others(s, j)
    ensures forall x :: x in Others(s, j) ==> x in s
  {
    var t := Swap(s, |s| - 1, j);
    SwapKeepsDistinct(s, |s| - 1, j);
    assert t == Others(s, j) + [s[j]];
    DistinctInit(Others(s, j), s[j]);
    assert forall x :: x in s <==> x in Others(s, j) + [s[j]];
  }

  lemma SwapKeepsDistinct<T>(s: seq<T>, i: nat, j: nat)
    requires Distinct(s) && i < |s| && j < |s|
    ensures Distinct(Swap(s, i, j))
    ensures forall x :: x in s <==> x in Swap(s, i, j)
  {
    SwapPermutes(s, i, j);
    DistinctPermutation(s, Swap(s, i, j));
  }

  lemma DistinctInit<T>(a: seq<T>, x: T)
    requires Distinct(a + [x])
    ensures Distinct(a) && x !in a
    ensures forall y :: y in a + [x] <==> y in a || y == x
  {
    assert forall i :: 0 <= i < |a| ==> (a + [x])[i] == a[i];
    assert (a + [x])[|a|] == x;
  }

  lemma ShuffledExtend<T>(s: seq<T>, c: seq<nat>, j: nat)
    requires j < |s| && IsVector(c, |s| - 1)
    ensures IsVector(c + [j], |s|)
    ensures Shuffled(s, c + [j]) == Shuffled(Others(s, j), c) + [s[j]]
  {
    ShuffledStep(s, c + [j], []);
    assert (c + [j])[..|s| - 1] == c;
  }

  lemma PlacingEndingIn<T(!new)>(s: seq<T>, r: nat, x: T, j: nat)
    requires j < |s| && r < |s| - 1
    ensures EndingIn(Placing(s, r, x), j) == Extend(Placing(Others(s, j), r, x), j)
  {
    var vs, ws := Placing(s, r, x), Placing(Others(s, j), r, x);
    VectorsAreTheVectors(|s|);
    VectorsAreTheVectors(|s| - 1);
    forall c | c in ws
      ensures c + [j] in vs
    {
      ShuffledExtend(s, c, j);
    }
    forall c | c in EndingIn(vs, j)
      ensures c[..|c| - 1] in ws
    {
      ShuffledInit(s, c);
    }
    EndingInIsExtend(vs, ws, j);
  }

  lemma ShuffledInit<T>(s: seq<T>, c: seq<nat>)
    requires s != [] && IsVector(c, |s|)
    ensures var i := |s| - 1;
            IsVector(c[..i], i) && Shuffled(s, c)[..i] == Shuffled(Others(s, c[i]), c[..i])
  {
    ShuffledStep(s, c, []);
  }

  /** The last place goes to the person drawn first. */
  lemma LastPlace<T>(s: seq<T>, c: seq<nat>)
    requires Distinct(s) && s != [] && IsVector(c, |s|)
    ensures var p := Shuffled(s, c);
            Distinct(p) && p[|s| - 1] == s[c[|s| - 1]]
  {
    ShuffledStep(s, c, []);
    ShuffledPermutes(s, c);
    DistinctPermutation(s, Shuffled(s, c));
  }

  lemma PlacingLast<T(!new)>(s: seq<T>, j: nat)
    requires Distinct(s) && j < |s|
    ensures Placing(s, |s| - 1, s[j]) == Extend(Vectors(|s| - 1), j)
  {
    var m := |s| - 1;
    VectorsAreTheVectors(|s|);
    forall c
      ensures c in Placing(s, m, s[j]) <==> c in Extend(Vectors(m), j)
    {
      if IsVector(c, |s|) {
        LastPlace(s, c);
      }
      ExtendedVectors(m, j, c);
    }
  }

  lemma ExtendedVectors(m: nat, j: nat, c: seq<nat>)
    requires j <= m
    ensures c in Extend(Vectors(m), j) <==> IsVector(c, m + 1) && c[m] == j
  {
    VectorsAreTheVectors(m);
    if IsVector(c, m + 1) && c[m] == j {
      assert c == c[..m] + [j] && c[..m] in Vectors(m);
    }
  }

  lemma PlacingEnds<T(!new)>(s: seq<T>, r: nat, j: nat, c: seq<nat>)
    requires Distinct(s) && j < |s| && r < |s| - 1 && c in Placing(s, r, s[j])
    ensures c != [] && c[|c| - 1] in Below(|s|) - {j}
  {
    VectorsAreTheVectors(|s|);
    LastPlace(s, c);
  }

  /** Every participant stands on every rank for exactly (n-1)! of the n!
      vectors, whatever the booking order `s`. */
  lemma {:induction false} EveryRankEquallyLikely<T(!new)>(s: seq<T>, r: nat, x: T)
    requires Distinct(s) && x in s && r < |s|
    ensures |Placing(s, r, x)| == Factorial(|s| - 1)
    decreases |s|
  {
    var n := |s|;
    var j0 := IndexOf(s, x);
    if r == n - 1 {
      PlacingLastSize(s, j0);
      VectorsCount(n - 1);
    } else {
      var vs, js, f := Placing(s, r, x), Below(n) - {j0}, Factorial(n - 2);
      forall c | c in vs
        ensures c != [] && c[|c| - 1] in js
      {
        PlacingEnds(s, r, j0, c);
      }
      forall j | j in js
        ensures |EndingIn(vs, j)| == f
      {
        StillThere(s, j, j0);
        EveryRankEquallyLikely(Others(s, j), r, x);
        PlacingEndingInSize(s, r, x, j);
      }
      CountByLastEntry(vs, js, f);
      AllButOne(n, j0, f);
    }
  }

  lemma PlacingLastSize<T(!new)>(s: seq<T>, j: nat)
    requires Distinct(s) && j < |s|
    ensures |Placing(s, |s| - 1, s[j])| == |Vectors(|s| - 1)|
  {
    PlacingLast(s, j);
    ExtendSize(Vectors(|s| - 1), j);
  }

  lemma StillThere<T>(s: seq<T>, j: nat, k: nat)
    requires Distinct(s) && j < |s| && k < |s| && j != k
    ensures Distinct(Others(s, j)) && s[k] in Others(s, j)
  {
    OthersOf(s, j);
  }

  lemma PlacingEndingInSize<T(!new)>(s: seq<T>, r: nat, x: T, j: nat)
    requires j < |s| && r < |s| - 1
    ensures |EndingIn(Placing(s, r, x), j)| == |Placing(Others(s, j), r, x)|
  {
    PlacingEndingIn(s, r, x, j);
    ExtendSize(Placing(Others(s, j), r, x), j);
  }

  lemma AllButOne(n: nat, j: nat, f: nat)
    requires j < n && n >= 2 && f == Factorial(n - 2)
    ensures |Below(n) - {j}| * f == Factorial(n - 1)
  {
    assert |Below(n) - {j}| == n - 1;
  }

  /* ---- Who wins ---- */

  /** The vectors for which `x` is among the first `k`. */
  ghost function Winning<T(!new)>(s: seq<T>, k: nat, x: T): set<seq<nat>>
    requires k <= |s|
  {
    VectorsAreTheVectors(|s|);
    set c | c in Vectors(|s|) && x in Shuffled(s, c)[..k]
  }

  /** With k winners every participant wins for exactly k * (n-1)! vectors. */
  lemma {:induction false} EveryoneWinsEquallyOften<T(!new)>(s: seq<T>, k: nat, x: T)
    requires Distinct(s) && x in s && k <= |s|
    ensures |Winning(s, k, x)| == k * Factorial(|s| - 1)
    decreases k
  {
    if k == 0 {
      assert Winning(s, k, x) == {};
    } else {
      var before, now := Winning(s, k - 1, x), Placing(s, k - 1, x);
      EveryoneWinsEquallyOften(s, k - 1, x);
      EveryRankEquallyLikely(s, k - 1, x);
      WinningSplit(s, k, x);
      SizeOfSplit(before, now, Winning(s, k, x), k, Factorial(|s| - 1));
    }
  }

  lemma SizeOfSplit<T>(a: set<T>, b: set<T>, w: set<T>, k: nat, f: nat)
    requires w == a + b && a !! b && k >= 1 && |a| == (k - 1) * f && |b| == f
    ensures |w| == k * f
  {
    OneMore(k - 1, f);
  }

  lemma WinningSplit<T(!new)>(s: seq<T>, k: nat, x: T)
    requires Distinct(s) && 1 <= k <= |s|
    ensures Winning(s, k, x) == Winning(s, k - 1, x) + Placing(s, k - 1, x)
    ensures Winning(s, k - 1, x) !! Placing(s, k - 1, x)
  {
    VectorsAreTheVectors(|s|);
    forall c | c in Vectors(|s|)
      ensures c in Winning(s, k, x) <==> c in Winning(s, k - 1, x) || c in Placing(s, k - 1, x)
      ensures !(c in Winning(s, k - 1, x) && c in Placing(s, k - 1, x))
    {
      LastPlace(s, c);
      var p := Shuffled(s, c);
      assert p[..k] == p[..k - 1] + [p[k - 1]];
    }
  }

  /** The vectors whose first |w| places are taken by exactly the people in `w`. */
  ghost function WinningSet<T(!new)>(s: seq<T>, w: set<T>): set<seq<nat>>
    requires |w| <= |s|
  {
    VectorsAreTheVectors(|s|);
    set c | c in Vectors(|s|) && (set x | x in Shuffled(s, c)[..|w|]) == w
  }

  /** Every group of k people is the winning group for exactly k! * (n-k)! of
      the n! vectors: no group is favoured over another. */
  lemma {:induction false} EveryWinningGroupEquallyLikely<T(!new)>(s: seq<T>, w: set<T>)
    requires Distinct(s) && (forall x :: x in w ==> x in s) && |w| <= |s|
    ensures |WinningSet(s, w)| == Factorial(|w|) * Factorial(|s| - |w|)
    decreases |s|
  {
    var n, k := |s|, |w|;
    VectorsAreTheVectors(n);
    if k == n {
      EveryoneWins(s, w);
      VectorsCount(n);
    } else {
      var js := Losers(s, w);
      LosersCount(s, w);
      forall c | c in WinningSet(s, w)
        ensures c != [] && c[|c| - 1] in js
      {
        LastIsNoWinner(s, w, c);
      }
      var f := Factorial(k) * Factorial(n - 1 - k);
      forall j | j in js
        ensures |EndingIn(WinningSet(s, w), j)| == f
      {
        WinningSetEndingIn(s, w, j);
        OthersOf(s, j);
        EveryWinningGroupEquallyLikely(Others(s, j), w);
        ExtendSize(WinningSet(Others(s, j), w), j);
      }
      CountByLastEntry(WinningSet(s, w), js, f);
      Regroup(n - k, Factorial(k), Factorial(n - 1 - k));
    }
  }

  lemma Regroup(a: nat, b: nat, c: nat)
    ensures a * (b * c) == b * (a * c)
  {
    assert a * (b * c) == (a * b) * c == (b * a) * c == b * (a * c);
  }

  lemma EveryoneWins<T(!new)>(s: seq<T>, w: set<T>)
    requires Distinct(s) && (forall x :: x in w ==> x in s) && |w| == |s|
    ensures WinningSet(s, w) == Vectors(|s|)
  {
    VectorsAreTheVectors(|s|);
    var all := set x | x in s;
    DistinctSize(s);
    SubsetOfSameSize(w, all);
    forall c | c in Vectors(|s|)
      ensures c in WinningSet(s, w)
    {
      var p := Shuffled(s, c);
      ShuffledPermutes(s, c);
      DistinctPermutation(s, p);
      assert p[..|w|] == p;
      assert (set x | x in p) == all;
    }
  }

  lemma SubsetOfSameSize<T>(a: set<T>, b: set<T>)
    requires a <= b && |a| == |b|
    ensures a == b
  {
    assert |b| == |a| + |b - a|;
    assert b - a == {};
  }

  /** Positions held by people outside `w`. */
  ghost function Losers<T>(s: seq<T>, w: set<T>): set<nat> {
    set j: nat | j < |s| && s[j] !in w
  }

  lemma {:induction false} LosersCount<T>(s: seq<T>, w: set<T>)
    requires Distinct(s) && forall x :: x in w ==> x in s
    ensures |Losers(s, w)| == |s| - |w|
    decreases |s|
  {
    if s == [] {
      assert w == {} && Losers(s, w) == {};
    } else {
      var last := |s| - 1;
      var front, v := s[..last], w - {s[last]};
      assert forall x :: x in v ==> x in front by {
        assert s == front + [s[last]];
      }
      LosersCount(front, v);
      LosersSplit(s, w);
      OneMoreLoser(Losers(s, w), Losers(front, v), last, w, s[last]);
    }
  }

  lemma OneMoreLoser<T>(all: set<nat>, others: set<nat>, last: nat, w: set<T>, x: T)
    requires all == others + if x in w then {} else {last}
    requires last !in others
    ensures |all| == |others| + if x in w then 0 else 1
    ensures |w - {x}| == |w| - if x in w then 1 else 0
  {
    assert x in w ==> all == others;
    assert x !in w ==> w - {x} == w;
  }

  lemma LosersSplit<T>(s: seq<T>, w: set<T>)
    requires Distinct(s) && s != []
    ensures var last := |s| - 1;
            Losers(s, w) == Losers(s[..last], w - {s[last]}) + if s[last] in w then {} else {last}
  {
    var last := |s| - 1;
    var front, v := s[..last], w - {s[last]};
    assert forall j: nat :: j < last ==> front[j] == s[j] && (front[j] in v <==> s[j] in w);
  }

  lemma LastIsNoWinner<T(!new)>(s: seq<T>, w: set<T>, c: seq<nat>)
    requires Distinct(s) && |w| < |s| && IsVector(c, |s|)
    requires (set x | x in Shuffled(s, c)[..|w|]) == w
    ensures s[c[|s| - 1]] !in w
  {
    LastPlace(s, c);
    var p := Shuffled(s, c);
    assert p[|s| - 1] !in p[..|w|];
  }

  lemma WinningSetEndingIn<T(!new)>(s: seq<T>, w: set<T>, j: nat)
    requires j < |s| && |w| < |s|
    ensures EndingIn(WinningSet(s, w), j) == Extend(WinningSet(Others(s, j), w), j)
  {
    var vs, ws := WinningSet(s, w), WinningSet(Others(s, j), w);
    VectorsAreTheVectors(|s|);
    VectorsAreTheVectors(|s| - 1);
    forall c | c in ws
      ensures c + [j] in vs
    {
      ShuffledExtend(s, c, j);
      assert Shuffled(s, c + [j])[..|w|] == Shuffled(Others(s, j), c)[..|w|];
    }
    forall c | c in EndingIn(vs, j)
      ensures c[..|c| - 1] in ws
    {
      ShuffledInit(s, c);
      assert Shuffled(s, c)[..|w|] == Shuffled(Others(s, j), c[..|s| - 1])[..|w|];
    }
    EndingInIsExtend(vs, ws, j);
  }
}
