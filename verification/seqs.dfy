/** Order-preserving selection over sequences.

    Both scripts select elements left to right: `reduce` with a conditional
    `push`, `map(...).filter(Boolean)`, and `filter(...).map(...)`.  All three
    are `FilterMap` here, defined by appending at the end as `push` does. */
module Seqs {
  import opened Wrappers

  /** Keeps the `Some` results of `f` over `xs`, in the order of `xs`. */
  function FilterMap<A, B>(f: A -> Option<B>, xs: seq<A>): (r: seq<B>)
    ensures |r| <= |xs|
    decreases |xs|
  {
    if |xs| == 0 then []
    else
      var last := xs[|xs| - 1];
      FilterMap(f, xs[..|xs| - 1]) + (match f(last) case Some(y) => [y] case None => [])
  }

  /** The positions in `xs` whose element `FilterMap` keeps, in increasing order. */
  function KeptIndices<A, B>(f: A -> Option<B>, xs: seq<A>): (ix: seq<nat>)
    ensures |ix| <= |xs|
    ensures forall j :: 0 <= j < |ix| ==> ix[j] < |xs|
    decreases |xs|
  {
    if |xs| == 0 then []
    else KeptIndices(f, xs[..|xs| - 1]) + (if f(xs[|xs| - 1]).Some? then [|xs| - 1] else [])
  }

  /** `r` is exactly the `f`-images kept from `xs` at the strictly increasing
      positions `ix`, and `ix` holds every position where `f` gives a value. */
  ghost predicate OrderedSelection<A, B>(f: A -> Option<B>, xs: seq<A>, ix: seq<nat>, r: seq<B>)
  {
    && |ix| == |r|
    && (forall j :: 0 <= j < |ix| ==> ix[j] < |xs| && f(xs[ix[j]]) == Some(r[j]))
    && (forall j, k :: 0 <= j < k < |ix| ==> ix[j] < ix[k])
    && (forall i :: 0 <= i < |xs| ==> (i in ix <==> f(xs[i]).Some?))
  }

  /** `FilterMap` is an order-preserving, complete selection. */
  lemma {:induction false} FilterMapSelectsInOrder<A, B>(f: A -> Option<B>, xs: seq<A>)
    ensures OrderedSelection(f, xs, KeptIndices(f, xs), FilterMap(f, xs))
    decreases |xs|
  {
    if |xs| > 0 {
      var init := xs[..|xs| - 1];
      FilterMapSelectsInOrder(f, init);
      var ix0, r0 := KeptIndices(f, init), FilterMap(f, init);
      assert forall j :: 0 <= j < |ix0| ==> xs[ix0[j]] == init[ix0[j]];
      assert forall i :: 0 <= i < |init| ==> xs[i] == init[i];
    }
  }

  /** Selecting from a concatenation selects from each part in turn. */
  lemma {:induction false} FilterMapAppend<A, B>(f: A -> Option<B>, xs: seq<A>, ys: seq<A>)
    ensures FilterMap(f, xs + ys) == FilterMap(f, xs) + FilterMap(f, ys)
    decreases |ys|
  {
    if |ys| > 0 {
      var ys0 := ys[..|ys| - 1];
      assert (xs + ys)[..|xs + ys| - 1] == xs + ys0;
      FilterMapAppend(f, xs, ys0);
    } else {
      assert xs + ys == xs;
    }
  }

  /** When `f` gives a value everywhere nothing is dropped: the result is `f` pointwise. */
  lemma {:induction false} FilterMapKeepsAll<A, B>(f: A -> Option<B>, xs: seq<A>)
    requires forall i :: 0 <= i < |xs| ==> f(xs[i]).Some?
    ensures |FilterMap(f, xs)| == |xs|
    ensures forall i :: 0 <= i < |xs| ==> FilterMap(f, xs)[i] == f(xs[i]).value
    decreases |xs|
  {
    if |xs| > 0 {
      var init := xs[..|xs| - 1];
      assert forall i :: 0 <= i < |init| ==> init[i] == xs[i];
      FilterMapKeepsAll(f, init);
    }
  }

  /** When `f` gives no value anywhere the selection is empty. */
  lemma {:induction false} FilterMapKeepsNone<A, B>(f: A -> Option<B>, xs: seq<A>)
    requires forall i :: 0 <= i < |xs| ==> f(xs[i]).None?
    ensures FilterMap(f, xs) == []
    decreases |xs|
  {
    if |xs| > 0 {
      var init := xs[..|xs| - 1];
      assert forall i :: 0 <= i < |init| ==> init[i] == xs[i];
      FilterMapKeepsNone(f, init);
    }
  }

  /** `join('')`: the concatenation of `parts` in order. */
  function Concat(parts: seq<string>): (s: string)
    ensures s == "" <==> forall i :: 0 <= i < |parts| ==> parts[i] == ""
    ensures |parts| == 1 ==> s == parts[0]
    decreases |parts|
  {
    if |parts| == 0 then ""
    else
      var init := parts[..|parts| - 1];
      assert forall i :: 0 <= i < |init| ==> init[i] == parts[i];
      Concat(init) + parts[|parts| - 1]
  }

  /** Joining a concatenation joins each part in turn. */
  lemma {:induction false} ConcatAppend(xs: seq<string>, ys: seq<string>)
    ensures Concat(xs + ys) == Concat(xs) + Concat(ys)
    decreases |ys|
  {
    if |ys| > 0 {
      var ys0 := ys[..|ys| - 1];
      assert (xs + ys)[..|xs + ys| - 1] == xs + ys0;
      ConcatAppend(xs, ys0);
    } else {
      assert xs + ys == xs;
    }
  }
}
