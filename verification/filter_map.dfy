/**
 Mapping a partial function over a sequence and keeping only the results:
 the shape of both the submission filter (submission to candidate) and the
 resolver (candidate to first search hit).
 */
module FilterMap {
  import opened Text

  /** The value of `o` as a sequence of zero or one elements. */
  function ToSeq<B>(o: Option<B>): (r: seq<B>)
    ensures |r| <= 1
    ensures o.Some? <==> |r| == 1
    ensures o.Some? ==> r[0] == o.value
  {
    match o
    case None => []
    case Some(v) => [v]
  }

  /** The results of `f` on `xs`, in order, with every `None` dropped. */
  function FilterMap<A, B>(xs: seq<A>, f: A -> Option<B>): (ys: seq<B>)
    ensures |ys| <= |xs|
    decreases |xs|
  {
    if |xs| == 0 then [] else ToSeq(f(xs[0])) + FilterMap(xs[1..], f)
  }

  /** Filtering a concatenation filters each part: one element at a time gives the same output as the whole list at once. */
  lemma {:induction false} FilterMapAppend<A, B>(xs: seq<A>, ys: seq<A>, f: A -> Option<B>)
    ensures FilterMap(xs + ys, f) == FilterMap(xs, f) + FilterMap(ys, f)
    decreases |xs|
  {
    if |xs| == 0 {
      assert xs + ys == ys;
    } else {
      assert (xs + ys)[1..] == xs[1..] + ys;
      FilterMapAppend(xs[1..], ys, f);
    }
  }

  /** The indices of `xs` at which `f` gives a value, in increasing order. */
  function Kept<A, B>(xs: seq<A>, f: A -> Option<B>): (idx: seq<nat>)
    ensures forall j :: 0 <= j < |idx| ==> idx[j] < |xs| && f(xs[idx[j]]).Some?
    ensures forall j, k :: 0 <= j < k < |idx| ==> idx[j] < idx[k]
    ensures forall i :: 0 <= i < |xs| && f(xs[i]).Some? ==> i in idx
    decreases |xs|
  {
    if |xs| == 0 then []
    else
      var front := xs[..|xs| - 1];
      var last := |xs| - 1;
      var idx := Kept(front, f);
      assert forall j :: 0 <= j < |idx| ==> xs[idx[j]] == front[idx[j]];
      if f(xs[last]).Some? then idx + [last] else idx
  }

  /**
   The output of `FilterMap` is exactly the subsequence of values of `f` at the
   kept indices: one output per input that yields a value, in input order.
   */
  lemma {:induction false} FilterMapIsKept<A, B>(xs: seq<A>, f: A -> Option<B>)
    ensures |FilterMap(xs, f)| == |Kept(xs, f)|
    ensures forall j :: 0 <= j < |Kept(xs, f)| ==> FilterMap(xs, f)[j] == f(xs[Kept(xs, f)[j]]).value
    decreases |xs|
  {
    if |xs| > 0 {
      var front := xs[..|xs| - 1];
      var last := |xs| - 1;
      assert xs == front + [xs[last]];
      FilterMapAppend(front, [xs[last]], f);
      FilterMapIsKept(front, f);
      assert FilterMap([xs[last]], f) == ToSeq(f(xs[last])) + FilterMap([xs[last]][1..], f);
      assert FilterMap([xs[last]], f) == ToSeq(f(xs[last]));
    }
  }
}
