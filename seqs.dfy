/**
  The JavaScript array operations the flight data layer is built from:
  `Array.prototype.filter`, `flatMap` over fixed-size groups and `find`,
  with the lemmas that characterise them.
 */
module Seqs {
  import opened Wrappers

  /** `xs.filter(p)`: the elements satisfying `p`, in their original order. */
  function Filter<T>(p: T -> bool, xs: seq<T>): (r: seq<T>)
    ensures |r| <= |xs|
    ensures forall x :: x in r ==> x in xs && p(x)
  {
    if xs == [] then []
    else if p(xs[0]) then [xs[0]] + Filter(p, xs[1..])
    else Filter(p, xs[1..])
  }

  /** How many elements of `xs` satisfy `p`. */
  function Count<T>(p: T -> bool, xs: seq<T>): nat
  {
    if xs == [] then 0 else (if p(xs[0]) then 1 else 0) + Count(p, xs[1..])
  }

  /** `ys` is `xs` with some elements dropped and the rest in their order. */
  ghost predicate IsSubsequence<T>(ys: seq<T>, xs: seq<T>)
    decreases |xs|
  {
    if ys == [] then true
    else if xs == [] then false
    else (ys[0] == xs[0] && IsSubsequence(ys[1..], xs[1..])) || IsSubsequence(ys, xs[1..])
  }

  /**
    The result of `Filter` is an order-preserving subsequence of the input,
    every element of it satisfies `p`, every element of the input that
    satisfies `p` is in it, and it is as long as the number of such elements.
   */
  lemma {:induction false} FilterCharacterised<T>(p: T -> bool, xs: seq<T>)
    ensures IsSubsequence(Filter(p, xs), xs)
    ensures forall j :: 0 <= j < |Filter(p, xs)| ==> p(Filter(p, xs)[j])
    ensures forall k :: 0 <= k < |xs| && p(xs[k]) ==> xs[k] in Filter(p, xs)
    ensures |Filter(p, xs)| == Count(p, xs)
  {
    if xs != [] {
      FilterCharacterised(p, xs[1..]);
      var r := Filter(p, xs);
      if p(xs[0]) {
        assert r[1..] == Filter(p, xs[1..]);
      }
      forall k | 0 <= k < |xs| && p(xs[k]) ensures xs[k] in r {
        if k > 0 {
          assert xs[k] == xs[1..][k - 1];
        }
      }
    }
  }

  /** A subsequence whose elements all satisfy `p` has at most `Count(p, xs)` elements. */
  lemma {:induction false} SubsequenceBound<T>(p: T -> bool, ys: seq<T>, xs: seq<T>)
    requires IsSubsequence(ys, xs)
    requires forall j :: 0 <= j < |ys| ==> p(ys[j])
    ensures |ys| <= Count(p, xs)
    decreases |xs|
  {
    if ys != [] {
      if ys[0] == xs[0] && IsSubsequence(ys[1..], xs[1..]) {
        SubsequenceBound(p, ys[1..], xs[1..]);
      } else {
        SubsequenceBound(p, ys, xs[1..]);
      }
    }
  }

  /**
    The characterisation determines the filter: the only order-preserving
    subsequence of `xs` made of elements satisfying `p` and as long as the
    number of such elements is `Filter(p, xs)`.
   */
  lemma {:induction false} FilterUnique<T>(p: T -> bool, ys: seq<T>, xs: seq<T>)
    requires IsSubsequence(ys, xs)
    requires forall j :: 0 <= j < |ys| ==> p(ys[j])
    requires |ys| == Count(p, xs)
    ensures ys == Filter(p, xs)
    decreases |xs|
  {
    if xs == [] {
    } else if ys == [] {
      FilterCharacterised(p, xs);
    } else if ys[0] == xs[0] && IsSubsequence(ys[1..], xs[1..]) {
      FilterUnique(p, ys[1..], xs[1..]);
    } else {
      SubsequenceBound(p, ys, xs[1..]);
      FilterUnique(p, ys, xs[1..]);
    }
  }

  /** A filter that every element passes returns its input unchanged. */
  lemma {:induction false} FilterAllPass<T>(p: T -> bool, xs: seq<T>)
    requires forall j :: 0 <= j < |xs| ==> p(xs[j])
    ensures Filter(p, xs) == xs
  {
    if xs != [] {
      FilterAllPass(p, xs[1..]);
    }
  }

  /** Filters whose predicates agree on the input return the same result. */
  lemma {:induction false} FilterExtensional<T>(p: T -> bool, q: T -> bool, xs: seq<T>)
    requires forall j :: 0 <= j < |xs| ==> p(xs[j]) == q(xs[j])
    ensures Filter(p, xs) == Filter(q, xs)
  {
    if xs != [] {
      FilterExtensional(p, q, xs[1..]);
    }
  }

  /** A filter that no element passes returns the empty sequence. */
  lemma {:induction false} FilterNonePass<T>(p: T -> bool, xs: seq<T>)
    requires forall j :: 0 <= j < |xs| ==> !p(xs[j])
    ensures Filter(p, xs) == []
  {
    if xs != [] {
      FilterNonePass(p, xs[1..]);
    }
  }

  /** A filter that exactly one element passes returns that element alone. */
  lemma FilterExactlyOne<T>(p: T -> bool, xs: seq<T>, k: nat)
    requires k < |xs| && p(xs[k])
    requires forall j :: 0 <= j < |xs| && j != k ==> !p(xs[j])
    ensures Filter(p, xs) == [xs[k]]
  {
    assert xs == xs[..k] + [xs[k]] + xs[k + 1..];
    FilterAppend(p, xs[..k] + [xs[k]], xs[k + 1..]);
    FilterAppend(p, xs[..k], [xs[k]]);
    FilterNonePass(p, xs[..k]);
    FilterNonePass(p, xs[k + 1..]);
  }

  /** When exactly the first `k` elements pass, the filter keeps the prefix of length `k`. */
  lemma FilterPrefix<T>(p: T -> bool, xs: seq<T>, k: nat)
    requires k <= |xs|
    requires forall n :: 0 <= n < |xs| ==> (p(xs[n]) <==> n < k)
    ensures Filter(p, xs) == xs[..k]
  {
    var front, back := xs[..k], xs[k..];
    assert xs == front + back;
    assert forall j :: 0 <= j < |front| ==> p(front[j]) by {
      forall j | 0 <= j < |front| ensures p(front[j]) { assert front[j] == xs[j]; }
    }
    assert forall j :: 0 <= j < |back| ==> !p(back[j]) by {
      forall j | 0 <= j < |back| ensures !p(back[j]) { assert back[j] == xs[k + j]; }
    }
    FilterAppend(p, front, back);
    FilterAllPass(p, front);
    FilterNonePass(p, back);
  }

  /** Filtering distributes over concatenation. */
  lemma {:induction false} FilterAppend<T>(p: T -> bool, xs: seq<T>, ys: seq<T>)
    ensures Filter(p, xs + ys) == Filter(p, xs) + Filter(p, ys)
  {
    if xs != [] {
      assert (xs + ys)[1..] == xs[1..] + ys;
      FilterAppend(p, xs[1..], ys);
    } else {
      assert xs + ys == ys;
    }
  }

  /** Two successive filters are one filter by the conjunction of their predicates. */
  lemma {:induction false} FilterFusion<T>(p: T -> bool, q: T -> bool, both: T -> bool, xs: seq<T>)
    requires forall j :: 0 <= j < |xs| ==> both(xs[j]) == (p(xs[j]) && q(xs[j]))
    ensures Filter(q, Filter(p, xs)) == Filter(both, xs)
  {
    if xs != [] {
      FilterFusion(p, q, both, xs[1..]);
    }
  }

  /** `groups.flat()`: the groups laid end to end. */
  function Flatten<T>(groups: seq<seq<T>>): seq<T>
  {
    if groups == [] then [] else groups[0] + Flatten(groups[1..])
  }

  /** Laying out groups of a common size `m` puts element `i` of group `g` at position `g * m + i`. */
  lemma {:induction false} FlattenUniform<T>(groups: seq<seq<T>>, m: nat, g: nat, i: nat)
    requires forall h :: 0 <= h < |groups| ==> |groups[h]| == m
    requires g < |groups| && i < m
    ensures |Flatten(groups)| == |groups| * m
    ensures g * m + i < |Flatten(groups)| && Flatten(groups)[g * m + i] == groups[g][i]
  {
    FlattenLength(groups, m);
    if g > 0 {
      FlattenUniform(groups[1..], m, g - 1, i);
      assert (g - 1) * m + i == g * m + i - m;
    }
  }

  lemma {:induction false} FlattenLength<T>(groups: seq<seq<T>>, m: nat)
    requires forall h :: 0 <= h < |groups| ==> |groups[h]| == m
    ensures |Flatten(groups)| == |groups| * m
  {
    if groups != [] {
      FlattenLength(groups[1..], m);
    }
  }

  /** Element `pick` of every group, in group order. */
  function Column<T>(groups: seq<seq<T>>, pick: nat): seq<T>
    requires forall g :: 0 <= g < |groups| ==> pick < |groups[g]|
  {
    seq(|groups|, g requires 0 <= g < |groups| => groups[g][pick])
  }

  /**
    When the filter keeps exactly element `pick` of every group, filtering
    the flattened groups yields element `pick` of each group, in group order.
   */
  lemma {:induction false} FilterFlattenPick<T>(p: T -> bool, groups: seq<seq<T>>, pick: nat)
    requires forall g :: 0 <= g < |groups| ==> pick < |groups[g]|
    requires forall g :: 0 <= g < |groups| ==> Filter(p, groups[g]) == [groups[g][pick]]
    ensures Filter(p, Flatten(groups)) == Column(groups, pick)
  {
    if groups != [] {
      FilterFlattenPick(p, groups[1..], pick);
      FilterAppend(p, groups[0], Flatten(groups[1..]));
      assert Column(groups, pick) == [groups[0][pick]] + Column(groups[1..], pick);
    }
  }

  /**
    `xs.find(p)`: the first element satisfying `p`, or `None` when there is
    none (the source turns JavaScript's `undefined` into `null`).
   */
  function Find<T>(p: T -> bool, xs: seq<T>): (r: Option<T>)
    ensures r.None? <==> forall k :: 0 <= k < |xs| ==> !p(xs[k])
    ensures r.Some? ==> exists k :: 0 <= k < |xs| && xs[k] == r.value && p(xs[k]) && forall j :: 0 <= j < k ==> !p(xs[j])
  {
    if xs == [] then None
    else if p(xs[0]) then Some(xs[0])
    else
      var r := Find(p, xs[1..]);
      assert forall k :: 1 <= k < |xs| ==> xs[k] == xs[1..][k - 1];
      r
  }
}
