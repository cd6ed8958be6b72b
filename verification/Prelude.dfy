/** Small building blocks shared by the other modules. */
module Prelude {

  datatype Option<+T> = None | Some(value: T)

  datatype Result<+T, +E> = Ok(value: T) | Err(error: E)

  /** No element of `s` occurs twice. */
  ghost predicate Distinct<T>(s: seq<T>) {
    forall i, j :: 0 <= i < j < |s| ==> s[i] != s[j]
  }

  lemma DistinctAppend<T>(s: seq<T>, x: T)
    requires Distinct(s) && x !in s
    ensures Distinct(s + [x])
  {
  }

  /** In a sequence without repetitions every element has multiplicity one. */
  lemma {:induction false} DistinctMultiplicity<T>(s: seq<T>, x: T)
    requires Distinct(s)
    ensures multiset(s)[x] == if x in s then 1 else 0
  {
    if s != [] {
      var last := |s| - 1;
      assert s == s[..last] + [s[last]];
      DistinctMultiplicity(s[..last], x);
    }
  }

  lemma LastElement<T>(s: seq<T>)
    requires s != []
    ensures multiset(s) == multiset(s[..|s| - 1]) + multiset{s[|s| - 1]}
  {
    assert s == s[..|s| - 1] + [s[|s| - 1]];
  }

  lemma RepeatedMultiplicity<T>(s: seq<T>, i: nat, j: nat)
    requires i < j < |s| && s[i] == s[j]
    ensures multiset(s)[s[i]] >= 2
  {
    assert s == s[..j] + ([s[j]] + s[j + 1..]);
    assert s[..j][i] == s[i];
    assert s[i] in multiset(s[..j]);
  }

  /** Permuting a sequence keeps it free of repetitions. */
  lemma DistinctPermutation<T>(s: seq<T>, p: seq<T>)
    requires Distinct(s) && multiset(p) == multiset(s)
    ensures Distinct(p) && |p| == |s|
    ensures forall x :: x in p <==> x in s
  {
    assert |p| == |multiset(p)| == |multiset(s)| == |s|;
    forall x
      ensures x in p <==> x in s
    {
      assert x in p <==> x in multiset(p);
      assert x in s <==> x in multiset(s);
    }
    forall i, j | 0 <= i < j < |p|
      ensures p[i] != p[j]
    {
      DistinctMultiplicity(s, p[i]);
      if p[i] == p[j] {
        RepeatedMultiplicity(p, i, j);
      }
    }
  }

  /** A sequence without repetitions has as many elements as its set of values. */
  lemma {:induction false} DistinctSize<T>(s: seq<T>)
    requires Distinct(s)
    ensures |set x | x in s| == |s|
  {
    if s == [] {
      assert (set x | x in s) == {};
    } else {
      var last := |s| - 1;
      DistinctSize(s[..last]);
      assert s == s[..last] + [s[last]];
      assert (set x | x in s) == (set x | x in s[..last]) + {s[last]};
    }
  }
}
