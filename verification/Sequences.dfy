/**
 Selections that keep their order, and facts about slices and regrouped concatenations that the solver does
 not find in large contexts.
 */
module Sequences {
  lemma DropOfConcat<T>(s: seq<T>, t: seq<T>, k: nat)
    requires k <= |s|
    ensures (s + t)[k..] == s[k..] + t
  {
  }

  lemma DropOfTake<T>(s: seq<T>, n: nat, k: nat)
    requires k <= n <= |s|
    ensures s[..n][k..] == s[k..][..n - k]
  {
  }

  lemma HeadTail<T>(s: seq<T>)
    requires s != []
    ensures s == [s[0]] + s[1..]
  {
  }

  lemma TailOfCons<T>(x: T, s: seq<T>)
    ensures ([x] + s)[1..] == s
  {
  }

  lemma InitLast<T>(s: seq<T>)
    requires s != []
    ensures s == s[..|s| - 1] + [s[|s| - 1]]
  {
  }

  lemma InitOfSnoc<T>(s: seq<T>, x: T)
    ensures (s + [x])[..|s|] == s
  {
  }

  lemma TakeOneMore<T>(s: seq<T>, i: nat)
    requires i < |s|
    ensures s[..i + 1] == s[..i] + [s[i]]
  {
  }

  lemma TakeDropOfConcat<T>(a: seq<T>, b: seq<T>)
    ensures (a + b)[..|a|] == a && (a + b)[|a|..] == b
  {
  }

  lemma Assoc<T>(a: seq<T>, b: seq<T>, c: seq<T>)
    ensures a + (b + c) == a + b + c
  {
  }

  lemma Assoc4<T>(a: seq<T>, b: seq<T>, c: seq<T>, d: seq<T>)
    ensures a + (b + (c + d)) == a + b + c + d
    ensures a + (b + c + d) == a + b + c + d
    ensures a + b + (c + d) == a + b + c + d
  {
  }

  lemma Assoc5<T>(a: seq<T>, b: seq<T>, c: seq<T>, d: seq<T>, e: seq<T>)
    ensures a + (b + (c + d + e)) == a + b + c + d + e
    ensures a + (b + c + d) + e == a + b + c + d + e
    ensures a + b + (c + d + e) == a + b + c + d + e
    ensures a + b + c + (d + e) == a + b + c + d + e
  {
  }

  // ---------------------------------------------------------------- selections

  predicate Increasing(ks: seq<nat>) {
    forall i, j | 0 <= i < j < |ks| :: ks[i] < ks[j]
  }

  /** `ys` are the elements of `xs` at the indices `ks`, in their order and each once. */
  predicate Selection<T(==)>(ks: seq<nat>, xs: seq<T>, ys: seq<T>) {
    Increasing(ks) && |ys| == |ks| && forall j | 0 <= j < |ks| :: ks[j] < |xs| && ys[j] == xs[ks[j]]
  }

  lemma IncreasingIsShort(ks: seq<nat>, n: nat)
    requires Increasing(ks) && forall j | 0 <= j < |ks| :: ks[j] < n
    ensures |ks| <= n
  {
    if ks != [] {
      IncreasingIsShort(ks[..|ks| - 1], ks[|ks| - 1]);
    }
  }

  /** One more element, taken or not. */
  lemma SelectionGrows<T>(ks: seq<nat>, xs: seq<T>, ys: seq<T>, x: T, taken: bool) returns (more: seq<nat>)
    requires Selection(ks, xs, ys)
    ensures Selection(more, xs + [x], if taken then ys + [x] else ys)
    ensures forall i :: i in more <==> i in ks || (taken && i == |xs|)
  {
    more := if taken then ks + [|xs|] else ks;
  }

  /** The elements with the property. */
  function Filter<T(!new)>(xs: seq<T>, p: T -> bool): (ys: seq<T>)
    ensures forall y :: y in ys <==> y in xs && p(y)
  {
    if xs == [] then []
    else
      var last := xs[|xs| - 1];
      Filter(xs[..|xs| - 1], p) + if p(last) then [last] else []
  }

  lemma FilterSnoc<T(!new)>(xs: seq<T>, x: T, p: T -> bool)
    ensures Filter(xs + [x], p) == Filter(xs, p) + if p(x) then [x] else []
  {
    InitOfSnoc(xs, x);
  }

  /** The indices with the property. */
  predicate AreWhere<T>(ks: seq<nat>, xs: seq<T>, p: T -> bool) {
    forall i | 0 <= i < |xs| :: i in ks <==> p(xs[i])
  }

  /** They come in the order of the sequence, each as often as there. */
  lemma {:induction false} FilterSelects<T(!new)>(xs: seq<T>, p: T -> bool) returns (ks: seq<nat>)
    ensures Selection(ks, xs, Filter(xs, p)) && AreWhere(ks, xs, p)
  {
    if xs == [] {
      ks := [];
    } else {
      var n := |xs| - 1;
      var before := FilterSelects(xs[..n], p);
      ks := SelectionGrows(before, xs[..n], Filter(xs[..n], p), xs[n], p(xs[n]));
      InitLast(xs);
      hide Selection;
      assert forall i | 0 <= i < n :: xs[..n][i] == xs[i];
    }
  }
}
