/** `Array.prototype.filter` over an immutable list, with the laws the screens
    rely on when they delete by id or count today's tasks. */
module ListOps {

  /** The elements of `xs` for which `keep` holds, in their original order. */
  function Filter<T>(xs: seq<T>, keep: T -> bool): (r: seq<T>)
    ensures |r| <= |xs|
    ensures forall i :: 0 <= i < |r| ==> r[i] in xs && keep(r[i])
    ensures forall i :: 0 <= i < |xs| && keep(xs[i]) ==> xs[i] in r
  {
    if xs == [] then []
    else (if keep(xs[0]) then [xs[0]] else []) + Filter(xs[1..], keep)
  }

  /** Filtering distributes over concatenation: the kept elements of `xs`
      all come before the kept elements of `ys`, so the relative order of
      survivors is the order of the input. */
  lemma {:induction false} FilterAppend<T>(xs: seq<T>, ys: seq<T>, keep: T -> bool)
    ensures Filter(xs + ys, keep) == Filter(xs, keep) + Filter(ys, keep)
  {
    if xs == [] {
      assert xs + ys == ys;
    } else {
      assert (xs + ys)[0] == xs[0];
      assert (xs + ys)[1..] == xs[1..] + ys;
      FilterAppend(xs[1..], ys, keep);
    }
  }

  /** When every element is kept the list comes back unchanged. */
  lemma {:induction false} FilterKeepsAll<T>(xs: seq<T>, keep: T -> bool)
    requires forall i :: 0 <= i < |xs| ==> keep(xs[i])
    ensures Filter(xs, keep) == xs
  {
    if xs != [] {
      FilterKeepsAll(xs[1..], keep);
    }
  }

  /** Filtering twice by the same predicate is filtering once. */
  lemma {:induction false} FilterIdempotent<T>(xs: seq<T>, keep: T -> bool)
    ensures Filter(Filter(xs, keep), keep) == Filter(xs, keep)
  {
    FilterKeepsAll(Filter(xs, keep), keep);
  }

  /** A predicate that implies another keeps no more elements than it. */
  lemma {:induction false} FilterStronger<T>(xs: seq<T>, strong: T -> bool, weak: T -> bool)
    requires forall i :: 0 <= i < |xs| && strong(xs[i]) ==> weak(xs[i])
    ensures |Filter(xs, strong)| <= |Filter(xs, weak)|
  {
    if xs != [] {
      FilterStronger(xs[1..], strong, weak);
    }
  }
}
