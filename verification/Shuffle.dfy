/** The Fisher-Yates shuffle of internal/lottery/algorithm.go.

    The random draws are an explicit choice vector `c`: entry `c[i]` is the
    number drawn at loop index `i`, so `0 <= c[i] <= i`. The loop stops before
    index 0, where the only admissible value is 0; keeping that entry makes the
    vector as long as the participant list. */
module Shuffle {
  import opened Prelude

  predicate IsVector(c: seq<nat>, n: nat) {
    |c| == n && forall i :: 0 <= i < n ==> c[i] <= i
  }

  function Swap<T>(s: seq<T>, i: nat, j: nat): (r: seq<T>)
    requires i < |s| && j < |s|
    ensures |r| == |s|
  {
    s[i := s[j]][j := s[i]]
  }

  /** What the loop leaves behind: position `|s| - 1` is settled by the first
      swap, the rest by shuffling the prefix. */
  function Shuffled<T>(s: seq<T>, c: seq<nat>): (r: seq<T>)
    requires IsVector(c, |s|)
    ensures |r| == |s|
    decreases |s|
  {
    if |s| == 0 then []
    else
      var i := |s| - 1;
      var t := Swap(s, i, c[i]);
      Shuffled(t[..i], c[..i]) + [t[i]]
  }

  /** Two elements change places and the others stay. */
  lemma SwapExchanges<T>(s: seq<T>, i: nat, j: nat, k: nat)
    requires i < |s| && j < |s| && k < |s|
    ensures Swap(s, i, j)[k] == if k == i then s[j] else if k == j then s[i] else s[k]
  {
  }

  lemma SwapPermutes<T>(s: seq<T>, i: nat, j: nat)
    requires i < |s| && j < |s|
    ensures multiset(Swap(s, i, j)) == multiset(s)
  {
  }

  lemma ShuffledLast<T>(s: seq<T>, c: seq<nat>)
    requires s != [] && IsVector(c, |s|)
    ensures var i := |s| - 1;
            Shuffled(s, c) == Shuffled(Swap(s, i, c[i])[..i], c[..i]) + [s[c[i]]]
  {
    SwapExchanges(s, |s| - 1, c[|s| - 1], |s| - 1);
  }

  /** One turn of the loop, with the settled suffix beside it. */
  lemma ShuffledStep<T>(s: seq<T>, c: seq<nat>, done: seq<T>)
    requires s != [] && IsVector(c, |s|)
    ensures var i := |s| - 1;
            var t := Swap(s, i, c[i]);
            && Shuffled(s, c) == Shuffled(t[..i], c[..i]) + [s[c[i]]]
            && Shuffled(s, c) + done == Shuffled(t[..i], c[..i]) + ([s[c[i]]] + done)
  {
    var i := |s| - 1;
    var t := Swap(s, i, c[i]);
    ShuffledLast(s, c);
    Associative(Shuffled(t[..i], c[..i]), [s[c[i]]], done);
  }

  lemma Associative<T>(a: seq<T>, b: seq<T>, c: seq<T>)
    ensures (a + b) + c == a + (b + c)
  {
  }

  /** Nobody is lost, invented or repeated by the shuffle. */
  lemma {:induction false} ShuffledPermutes<T>(s: seq<T>, c: seq<nat>)
    requires IsVector(c, |s|)
    ensures multiset(Shuffled(s, c)) == multiset(s)
    decreases |s|
  {
    if s != [] {
      var i := |s| - 1;
      var t := Swap(s, i, c[i]);
      SwapPermutes(s, i, c[i]);
      ShuffledPermutes(t[..i], c[..i]);
      ShuffledStep(s, c, []);
      Completed(Shuffled(t[..i], c[..i]), t);
    }
  }

  lemma Completed<T>(head: seq<T>, t: seq<T>)
    requires |t| == |head| + 1 && multiset(head) == multiset(t[..|head|])
    ensures multiset(head + [t[|head|]]) == multiset(t)
  {
    assert (head + [t[|head|]])[..|head|] == head;
    SameInit(head + [t[|head|]], t);
  }

  /** Sequences with the same last element are permutations of each other
      exactly if the parts before it are. */
  lemma SameInit<T>(a: seq<T>, b: seq<T>)
    requires |a| == |b| > 0 && a[|a| - 1] == b[|b| - 1]
    ensures multiset(a) == multiset(b) <==> multiset(a[..|a| - 1]) == multiset(b[..|b| - 1])
  {
    LastElement(a);
    LastElement(b);
    MultisetCancels(multiset(a[..|a| - 1]), multiset(b[..|b| - 1]), multiset{a[|a| - 1]});
  }

  lemma MultisetCancels<T>(a: multiset<T>, b: multiset<T>, c: multiset<T>)
    ensures a + c == b + c <==> a == b
  {
    assert a == (a + c) - c && b == (b + c) - c;
  }

  /* ---- The inverse: reading the choices off the output ---- */

  ghost function IndexOf<T>(s: seq<T>, x: T): (k: nat)
    requires x in s
    ensures k < |s| && s[k] == x
  {
    var k :| 0 <= k < |s| && s[k] == x;
    k
  }

  /** Recovers the choice vector that turns `s` into `p`. */
  ghost function Decode<T>(s: seq<T>, p: seq<T>): (c: seq<nat>)
    requires multiset(p) == multiset(s)
    ensures IsVector(c, |s|)
    decreases |s|
  {
    assert |p| == |multiset(p)| == |multiset(s)| == |s|;
    if |s| == 0 then []
    else
      var i := |s| - 1;
      assert p[i] in multiset(p);
      var j := IndexOf(s, p[i]);
      var t := Swap(s, i, j);
      RestPermutes(s, p, j);
      Decode(t[..i], p[..i]) + [j]
  }

  lemma LastChoice<T>(s: seq<T>, c: seq<nat>, j: nat)
    requires j < |s| && IsVector(c, |s| - 1)
    ensures IsVector(c + [j], |s|)
    ensures Shuffled(s, c + [j]) == Shuffled(Swap(s, |s| - 1, j)[..|s| - 1], c) + [s[j]]
  {
    assert (c + [j])[..|s| - 1] == c;
    ShuffledLast(s, c + [j]);
  }

  lemma ChoiceCompletes<T>(s: seq<T>, c: seq<nat>, j: nat, p: seq<T>)
    requires j < |s| == |p| && IsVector(c, |s| - 1) && s[j] == p[|s| - 1]
    requires Shuffled(Swap(s, |s| - 1, j)[..|s| - 1], c) == p[..|s| - 1]
    ensures IsVector(c + [j], |s|) && Shuffled(s, c + [j]) == p
  {
    LastChoice(s, c, j);
    assert p == p[..|s| - 1] + [p[|s| - 1]];
  }

  lemma RestPermutes<T>(s: seq<T>, p: seq<T>, j: nat)
    requires |p| == |s| > 0 && multiset(p) == multiset(s)
    requires j < |s| && s[j] == p[|s| - 1]
    ensures multiset(p[..|s| - 1]) == multiset(Swap(s, |s| - 1, j)[..|s| - 1])
  {
    var i := |s| - 1;
    var t := Swap(s, i, j);
    SwapPermutes(s, i, j);
    SameInit(p, t);
  }

  /** Shuffling with the decoded vector gives the output back: every
      permutation is produced by some choice vector. */
  lemma {:induction false} ShuffleOfDecode<T>(s: seq<T>, p: seq<T>)
    requires multiset(p) == multiset(s)
    ensures Shuffled(s, Decode(s, p)) == p
    decreases |s|
  {
    assert |p| == |multiset(p)| == |multiset(s)| == |s|;
    if |s| > 0 {
      var i := |s| - 1;
      assert p[i] in multiset(p);
      var j := IndexOf(s, p[i]);
      var t := Swap(s, i, j);
      RestPermutes(s, p, j);
      ShuffleOfDecode(t[..i], p[..i]);
      ChoiceCompletes(s, Decode(t[..i], p[..i]), j, p);
    }
  }

  /** With distinct participants no permutation is produced by two choice
      vectors. */
  lemma {:induction false} ShuffleIsInjective<T>(s: seq<T>, c: seq<nat>, d: seq<nat>)
    requires Distinct(s) && IsVector(c, |s|) && IsVector(d, |s|) && Shuffled(s, c) == Shuffled(s, d)
    ensures c == d
    decreases |s|
  {
    if |s| > 0 {
      var i := |s| - 1;
      LastAgrees(s, c, d);
      DistinctRest(s, c[i]);
      ShuffleIsInjective(Swap(s, i, c[i])[..i], c[..i], d[..i]);
      assert c == c[..i] + [c[i]] && d == d[..i] + [d[i]];
    }
  }

  lemma LastAgrees<T>(s: seq<T>, c: seq<nat>, d: seq<nat>)
    requires Distinct(s) && s != [] && IsVector(c, |s|) && IsVector(d, |s|) && Shuffled(s, c) == Shuffled(s, d)
    ensures var i := |s| - 1;
            c[i] == d[i] && Shuffled(Swap(s, i, c[i])[..i], c[..i]) == Shuffled(Swap(s, i, c[i])[..i], d[..i])
  {
    var i := |s| - 1;
    var rest, other := Swap(s, i, c[i])[..i], Swap(s, i, d[i])[..i];
    ShuffledLast(s, c);
    ShuffledLast(s, d);
    SameLast(Shuffled(rest, c[..i]), s[c[i]], Shuffled(other, d[..i]), s[d[i]]);
  }

  lemma SameLast<T>(a: seq<T>, x: T, b: seq<T>, y: T)
    requires a + [x] == b + [y]
    ensures a == b && x == y
  {
    assert |a + [x]| == |a| + 1 && |b + [y]| == |b| + 1;
    assert a == (a + [x])[..|a|] && b == (b + [y])[..|b|];
    assert x == (a + [x])[|a|] && y == (b + [y])[|b|];
  }

  lemma DistinctRest<T>(s: seq<T>, j: nat)
    requires Distinct(s) && j < |s|
    ensures Distinct(Swap(s, |s| - 1, j)[..|s| - 1])
  {
    SwapPermutes(s, |s| - 1, j);
    DistinctPermutation(s, Swap(s, |s| - 1, j));
  }

  /** So the decoder recovers the very vector that was drawn. */
  lemma DecodeOfShuffle<T>(s: seq<T>, c: seq<nat>)
    requires Distinct(s) && IsVector(c, |s|)
    ensures multiset(Shuffled(s, c)) == multiset(s)
    ensures Decode(s, Shuffled(s, c)) == c
  {
    ShuffledPermutes(s, c);
    ShuffleOfDecode(s, Shuffled(s, c));
    ShuffleIsInjective(s, c, Decode(s, Shuffled(s, c)));
  }

  /** The bijection: for distinct participants, the permutations of `s` are
      exactly the outputs, each produced by exactly one choice vector. */
  lemma EveryPermutationExactlyOnce<T(!new)>(s: seq<T>, p: seq<T>)
    requires Distinct(s)
    ensures multiset(p) == multiset(s) <==> exists c :: IsVector(c, |s|) && Shuffled(s, c) == p
    ensures forall c, d :: IsVector(c, |s|) && IsVector(d, |s|) && Shuffled(s, c) == Shuffled(s, d) ==> c == d
  {
    if multiset(p) == multiset(s) {
      ShuffleOfDecode(s, p);
      assert IsVector(Decode(s, p), |s|);
    }
    forall c | IsVector(c, |s|) && Shuffled(s, c) == p
      ensures multiset(p) == multiset(s)
    {
      ShuffledPermutes(s, c);
    }
    forall c, d | IsVector(c, |s|) && IsVector(d, |s|) && Shuffled(s, c) == Shuffled(s, d)
      ensures c == d
    {
      ShuffleIsInjective(s, c, d);
    }
  }

  /* ---- The code ---- */

  /** `entropy[i]` is what crypto/rand returns at loop index `i`: a number in
      [0, i], or None when the read fails. */
  predicate IsEntropy(entropy: seq<Option<nat>>, n: nat) {
    |entropy| == n && forall i :: 0 <= i < n && entropy[i].Some? ==> entropy[i].value <= i
  }

  /** No read fails at an index the loop visits. */
  predicate NeverFails(entropy: seq<Option<nat>>) {
    forall i :: 1 <= i < |entropy| ==> entropy[i].Some?
  }

  function Vector(entropy: seq<Option<nat>>): (c: seq<nat>)
    requires IsEntropy(entropy, |entropy|)
    ensures IsVector(c, |entropy|)
    ensures forall i :: 0 <= i < |c| && entropy[i].Some? ==> c[i] == entropy[i].value
  {
    seq(|entropy|, i requires 0 <= i < |entropy| => if entropy[i].Some? then entropy[i].value else 0)
  }

  method Exchange(a: array<int>, i: nat, j: nat)
    requires i < a.Length && j < a.Length
    modifies a
    ensures a[..] == Swap(old(a[..]), i, j)
  {
    a[i], a[j] := a[j], a[i];
  }

  /** Shuffles a copy of `participants` in place, from the last index down. A
      failed read of the random source aborts with the index it happened at. */
  method FairShuffle(participants: array<int>, entropy: seq<Option<nat>>) returns (r: Result<seq<int>, nat>)
    requires IsEntropy(entropy, participants.Length)
    ensures r.Ok? <==> NeverFails(entropy)
    ensures r.Ok? ==> r.value == Shuffled(participants[..], Vector(entropy))
    ensures r.Err? ==> 1 <= r.error < |entropy| && entropy[r.error].None?
                       && forall i :: r.error < i < |entropy| ==> entropy[i].Some?
  {
    var n := participants.Length;
    ghost var s, c := participants[..], Vector(entropy);
    if n == 0 {
      return Ok([]);
    }
    var result := new int[n](i requires 0 <= i < n reads participants => participants[i]);
    assert result[..] == s;
    var i := n - 1;
    RemainingStart(s, c);
    while i > 0
      invariant 0 <= i < n
      invariant Remaining(result[..], c, i) == Shuffled(s, c)
      invariant forall k :: i < k < n ==> entropy[k].Some?
    {
      if entropy[i].None? {
        return Err(i);
      }
      assert forall k :: i - 1 < k < n ==> entropy[k].Some?;
      var j := entropy[i].value;
      ghost var before := result[..];
      Exchange(result, i, j);
      RemainingStep(before, c, i);
      i := i - 1;
    }
    RemainingDone(result[..], c);
    r := Ok(result[..]);
  }

  /** The textbook form: for each index from `i` down to 1, exchange the element
      there with the one at the index drawn. */
  function SwappedDown<T>(a: seq<T>, c: seq<nat>, i: int): seq<T>
    requires IsVector(c, |a|) && i < |a|
    decreases i
  {
    if i <= 0 then a else SwappedDown(Swap(a, i, c[i]), c, i - 1)
  }

  /** The shuffle is what the exchanges leave. */
  lemma ShuffledIsSwaps<T>(s: seq<T>, c: seq<nat>)
    requires IsVector(c, |s|)
    ensures Shuffled(s, c) == SwappedDown(s, c, |s| - 1)
  {
    if s != [] {
      RemainingStart(s, c);
      RemainingIsSwaps(s, c, |s| - 1);
    }
  }

  lemma {:induction false} RemainingIsSwaps<T>(a: seq<T>, c: seq<nat>, i: nat)
    requires IsVector(c, |a|) && i < |a|
    ensures Remaining(a, c, i) == SwappedDown(a, c, i)
    decreases i
  {
    if i == 0 {
      RemainingDone(a, c);
    } else {
      RemainingStep(a, c, i);
      RemainingIsSwaps(Swap(a, i, c[i]), c, i - 1);
    }
  }

  /** The output the loop is heading for when it is about to treat index `i`
      of the array contents `a`. */
  ghost function Remaining<T>(a: seq<T>, c: seq<nat>, i: nat): seq<T>
    requires IsVector(c, |a|) && i < |a|
  {
    Shuffled(a[..i + 1], c[..i + 1]) + a[i + 1..]
  }

  lemma RemainingStart<T>(a: seq<T>, c: seq<nat>)
    requires IsVector(c, |a|) && a != []
    ensures Remaining(a, c, |a| - 1) == Shuffled(a, c)
  {
    assert a[..|a|] == a && c[..|a|] == c;
  }

  lemma RemainingStep<T>(a: seq<T>, c: seq<nat>, i: nat)
    requires IsVector(c, |a|) && 0 < i < |a|
    ensures Remaining(Swap(a, i, c[i]), c, i - 1) == Remaining(a, c, i)
  {
    var t := Swap(a, i, c[i]);
    ShuffledStep(a[..i + 1], c[..i + 1], a[i + 1..]);
    assert t[..i] == Swap(a[..i + 1], i, c[i])[..i];
    assert t[i..] == [a[c[i]]] + a[i + 1..];
    assert c[..i + 1][..i] == c[..i];
  }

  lemma RemainingDone<T>(a: seq<T>, c: seq<nat>)
    requires IsVector(c, |a|) && a != []
    ensures Remaining(a, c, 0) == a
  {
    ShuffledStep(a[..1], c[..1], a[1..]);
    assert Shuffled(Swap(a[..1], 0, 0)[..0], c[..1][..0]) == [];
  }

  datatype SelectError = NoParticipants | WinnerCountTooSmall | RandomSourceFailed(index: nat)

  datatype Selection = Selection(winners: seq<int>, waitlist: seq<int>)

  /** The first `count` places win, the others wait in shuffle order; everyone
      wins when `count` reaches the number of participants. */
  method SelectWinners(participants: array<int>, count: int, entropy: seq<Option<nat>>)
    returns (r: Result<Selection, SelectError>)
    requires IsEntropy(entropy, participants.Length)
    ensures r == Err(NoParticipants) <==> participants.Length == 0
    ensures r == Err(WinnerCountTooSmall) <==> participants.Length > 0 && count < 1
    ensures r.Ok? <==> participants.Length > 0 && count >= 1 && NeverFails(entropy)
    ensures r.Ok? ==>
              var all := Shuffled(participants[..], Vector(entropy));
              && r.value.winners + r.value.waitlist == all
              && |r.value.winners| == if count < |all| then count else |all|
    ensures r.Err? && r.error.RandomSourceFailed? ==>
              1 <= r.error.index < |entropy| && entropy[r.error.index].None?
              && forall i :: r.error.index < i < |entropy| ==> entropy[i].Some?
  {
    if participants.Length == 0 {
      return Err(NoParticipants);
    }
    if count < 1 {
      return Err(WinnerCountTooSmall);
    }
    var shuffled := FairShuffle(participants, entropy);
    if shuffled.Err? {
      return Err(RandomSourceFailed(shuffled.error));
    }
    var all := shuffled.value;
    if count >= |all| {
      return Ok(Selection(all, []));
    }
    assert all[..count] + all[count..] == all;
    return Ok(Selection(all[..count], all[count..]));
  }
}
