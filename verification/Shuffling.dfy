// The Fisher-Yates shuffle and its choices.
module Shuffling {
  function Swap<T>(s: seq<T>, i: nat, j: nat): seq<T>
    requires i < |s| && j < |s|
  {
    s[i := s[j]][j := s[i]]
  }

  /** For every place `i` the place it is swapped with, at or before `i`. */
  predicate ValidChoices(c: seq<nat>, n: nat) {
    |c| == n && forall i :: 0 <= i < n ==> c[i] <= i
  }

  function Shuffle<T>(s: seq<T>, c: seq<nat>): (r: seq<T>)
    requires ValidChoices(c, |s|)
    ensures |r| == |s|
    decreases |s|
  {
    if |s| <= 1 then s else
      var i := |s| - 1;
      var t := Swap(s, i, c[i]);
      Shuffle(t[..i], c[..i]) + [t[i]]
  }

  lemma SwapKeeps<T>(s: seq<T>, i: nat, j: nat)
    requires i < |s| && j < |s|
    ensures multiset(Swap(s, i, j)) == multiset(s)
  {}

  lemma LastApart<T>(s: seq<T>)
    requires s != []
    ensures multiset(s) == multiset(s[..|s| - 1]) + multiset{s[|s| - 1]}
  {
    assert s == s[..|s| - 1] + [s[|s| - 1]];
  }

  lemma SameFront<T>(t: seq<T>, front: seq<T>)
    requires t != [] && multiset(front) == multiset(t[..|t| - 1])
    ensures multiset(front + [t[|t| - 1]]) == multiset(t)
  {
    LastApart(t);
  }

  /** Whatever the choices, the result has the same elements. */
  lemma {:induction false} ShuffleKeeps<T>(s: seq<T>, c: seq<nat>)
    requires ValidChoices(c, |s|)
    ensures multiset(Shuffle(s, c)) == multiset(s)
    decreases |s|
  {
    if |s| > 1 {
      var i := |s| - 1;
      var t := Swap(s, i, c[i]);
      SwapKeeps(s, i, c[i]);
      ShuffleKeeps(t[..i], c[..i]);
      SameFront(t, Shuffle(t[..i], c[..i]));
    }
  }

  ghost predicate Distinct<T>(s: seq<T>) {
    forall i, j :: 0 <= i < j < |s| ==> s[i] != s[j]
  }

  lemma SwapDistinct<T>(s: seq<T>, i: nat, j: nat)
    requires i < |s| && j < |s| && Distinct(s)
    ensures Distinct(Swap(s, i, j))
  {}

  lemma LastChosen<T>(s: seq<T>, c: seq<nat>)
    requires ValidChoices(c, |s|) && s != []
    ensures Shuffle(s, c)[|s| - 1] == s[c[|s| - 1]]
  {
    if |s| > 1 {
      var i := |s| - 1;
      var t := Swap(s, i, c[i]);
      LastOf(Shuffle(t[..i], c[..i]), t[i]);
    }
  }

  lemma LastOf<T>(s: seq<T>, x: T)
    ensures (s + [x])[|s|] == x
  {}

  /** Different choices give different orders. */
  lemma {:induction false} ShuffleInjective<T>(s: seq<T>, c: seq<nat>, d: seq<nat>)
    requires Distinct(s) && ValidChoices(c, |s|) && ValidChoices(d, |s|)
    requires Shuffle(s, c) == Shuffle(s, d)
    ensures c == d
    decreases |s|
  {
    if |s| > 1 {
      var i := |s| - 1;
      LastChosen(s, c);
      LastChosen(s, d);
      assert c[i] == d[i];
      var t := Swap(s, i, c[i]);
      SwapDistinct(s, i, c[i]);
      assert Shuffle(s, c)[..i] == Shuffle(t[..i], c[..i]) && Shuffle(s, d)[..i] == Shuffle(t[..i], d[..i]);
      ShuffleInjective(t[..i], c[..i], d[..i]);
      assert c == c[..i] + [c[i]] && d == d[..i] + [d[i]];
    }
  }

  function IndexOf<T(==)>(s: seq<T>, x: T): (k: nat)
    requires x in s
    ensures k < |s| && s[k] == x
  {
    if s[0] == x then 0 else 1 + IndexOf(s[1..], x)
  }

  lemma Cancel<T>(a: multiset<T>, b: multiset<T>, x: T)
    requires a + multiset{x} == b + multiset{x}
    ensures a == b
  {
    assert a == a + multiset{x} - multiset{x};
    assert b == b + multiset{x} - multiset{x};
  }

  lemma SameLast<T>(s: seq<T>, p: seq<T>, j: nat)
    requires multiset(s) == multiset(p) && s != [] && |s| == |p| && j < |s| && s[j] == p[|p| - 1]
    ensures multiset(Swap(s, |s| - 1, j)[..|s| - 1]) == multiset(p[..|s| - 1])
  {
    var i := |s| - 1;
    SwapKeeps(s, i, j);
    LastApart(Swap(s, i, j));
    LastApart(p);
    Cancel(multiset(Swap(s, i, j)[..i]), multiset(p[..i]), p[i]);
  }

  lemma SameLength<T>(s: seq<T>, p: seq<T>)
    requires multiset(s) == multiset(p)
    ensures |s| == |p|
  {
    assert |multiset(s)| == |s| && |multiset(p)| == |p|;
  }

  lemma LastOccurs<T>(s: seq<T>, p: seq<T>)
    requires multiset(s) == multiset(p) && p != []
    ensures p[|p| - 1] in s
  {
    assert p[|p| - 1] in multiset(p);
  }

  /** The choices that produce a given order. */
  ghost function ChoicesFor<T>(s: seq<T>, p: seq<T>): (c: seq<nat>)
    requires multiset(s) == multiset(p)
    ensures ValidChoices(c, |s|)
    decreases |s|
  {
    SameLength(s, p);
    if |s| == 0 then [] else
      LastOccurs(s, p);
      var i := |s| - 1;
      var j := IndexOf(s, p[i]);
      SameLast(s, p, j);
      ChoicesFor(Swap(s, i, j)[..i], p[..i]) + [j]
  }

  lemma {:induction false} ChoicesWork<T>(s: seq<T>, p: seq<T>)
    requires multiset(s) == multiset(p)
    ensures Shuffle(s, ChoicesFor(s, p)) == p
    decreases |s|
  {
    SameLength(s, p);
    if |s| > 0 {
      LastOccurs(s, p);
      var i := |s| - 1;
      var j := IndexOf(s, p[i]);
      SameLast(s, p, j);
      var t := Swap(s, i, j);
      ChoicesWork(t[..i], p[..i]);
      ShuffleOf(s, ChoicesFor(t[..i], p[..i]), j, p);
    }
  }

  lemma ShuffleOf<T>(s: seq<T>, c: seq<nat>, j: nat, p: seq<T>)
    requires s != [] && |p| == |s| && j < |s| && ValidChoices(c, |s| - 1) && s[j] == p[|s| - 1]
    requires Shuffle(Swap(s, |s| - 1, j)[..|s| - 1], c) == p[..|s| - 1]
    ensures Shuffle(s, c + [j]) == p
  {
    assert (c + [j])[..|s| - 1] == c;
    assert p == p[..|s| - 1] + [p[|s| - 1]];
  }

  /** Every order of distinct elements comes from exactly one sequence of choices, and every choice gives an order. */
  lemma ShuffleIsBijection<T>(s: seq<T>, p: seq<T>)
    requires Distinct(s)
    ensures multiset(p) == multiset(s) ==>
      forall c :: ValidChoices(c, |s|) ==> (Shuffle(s, c) == p <==> c == ChoicesFor(s, p))
    ensures multiset(p) != multiset(s) ==> forall c :: ValidChoices(c, |s|) ==> Shuffle(s, c) != p
  {
    if multiset(p) == multiset(s) {
      ChoicesWork(s, p);
    }
    forall c | ValidChoices(c, |s|) && Shuffle(s, c) == p
      ensures multiset(p) == multiset(s) && c == ChoicesFor(s, p)
    {
      ShuffleKeeps(s, c);
      ShuffleInjective(s, c, ChoicesFor(s, p));
    }
  }

  /** Every place stays, from place `n` on. */
  predicate StayFrom(c: seq<nat>, n: nat) {
    forall i :: n <= i < |c| ==> c[i] == i
  }

  lemma {:induction false} StaysAll<T>(s: seq<T>, c: seq<nat>)
    requires ValidChoices(c, |s|) && StayFrom(c, 0)
    ensures Shuffle(s, c) == s
    decreases |s|
  {
    if |s| > 1 {
      var i := |s| - 1;
      assert Swap(s, i, c[i]) == s;
      StaysAll(s[..i], c[..i]);
      assert s == s[..i] + [s[i]];
    }
  }

  /** If only place `k` does not stay, it and its choice change places and nothing else moves. */
  lemma {:induction false} OneSwap<T>(s: seq<T>, c: seq<nat>, k: nat)
    requires ValidChoices(c, |s|) && k < |s| && StayFrom(c, k + 1) && StayFrom(c[..k], 0)
    ensures Shuffle(s, c)[k] == s[c[k]] && Shuffle(s, c)[c[k]] == s[k]
    ensures forall i :: 0 <= i < |s| && i != k && i != c[k] ==> Shuffle(s, c)[i] == s[i]
    decreases |s|
  {
    if |s| > 1 {
      var i := |s| - 1;
      var t := Swap(s, i, c[i]);
      if k == i {
        StaysAll(t[..i], c[..i]);
      } else {
        assert t == s;
        assert c[..i][..k] == c[..k];
        OneSwap(s[..i], c[..i], k);
      }
    }
  }

  /** The loop; `choices[i]` is the number drawn for place `i`. */
  method ShuffleInPlace<T>(slice: array<T>, choices: seq<nat>)
    requires ValidChoices(choices, slice.Length)
    modifies slice
    ensures slice[..] == Shuffle(old(slice[..]), choices)
  {
    ghost var before := slice[..];
    var i := slice.Length;
    assert slice[..] + [] == slice[..] && choices[..i] == choices && slice[..i] == slice[..] && slice[i..] == [];
    while i > 1
      invariant 0 <= i <= slice.Length
      invariant Shuffle(slice[..i], choices[..i]) + slice[i..] == Shuffle(before, choices)
    {
      i := i - 1;
      ghost var was := slice[..];
      var j := choices[i];
      slice[i], slice[j] := slice[j], slice[i];
      ShuffleStep(was, slice[..], choices, i);
    }
    assert slice[..] == slice[..i] + slice[i..];
  }

  lemma ShuffleStep<T>(was: seq<T>, now: seq<T>, choices: seq<nat>, i: nat)
    requires 0 < i < |was| && ValidChoices(choices, |was|) && now == Swap(was, i, choices[i])
    ensures Shuffle(was[..i + 1], choices[..i + 1]) + was[i + 1..] == Shuffle(now[..i], choices[..i]) + now[i..]
  {
    var t := Swap(was[..i + 1], i, choices[..i + 1][i]);
    assert t[..i] == now[..i] && t[i] == now[i];
    assert choices[..i + 1][..i] == choices[..i];
    assert now[i..] == [now[i]] + was[i + 1..];
    var front := Shuffle(now[..i], choices[..i]);
    assert front + [now[i]] + was[i + 1..] == front + ([now[i]] + was[i + 1..]);
  }
}
