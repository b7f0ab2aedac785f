/** Order-preserving filtering and mapping, as done by JavaScript's
    `Array.prototype.filter` and `Array.prototype.map`. */
module Seqs {
  import opened Wrappers

  /** `s.filter(keep)`: the elements of `s` that satisfy `keep`, in their order. */
  function Filter<T>(s: seq<T>, keep: T -> bool): (r: seq<T>)
    ensures |r| <= |s|
    ensures forall x :: x in r ==> x in s && keep(x)
    ensures forall x :: x in s && keep(x) ==> x in r
  {
    if s == [] then []
    else if keep(s[0]) then [s[0]] + Filter(s[1..], keep)
    else Filter(s[1..], keep)
  }

  /** `a` can be obtained from `b` by deleting elements: the order of `a` is the order of `b`. */
  predicate IsSubsequence<T(==)>(a: seq<T>, b: seq<T>)
  {
    if a == [] then true
    else if b == [] then false
    else if a[0] == b[0] then IsSubsequence(a[1..], b[1..])
    else IsSubsequence(a, b[1..])
  }

  lemma {:induction false} FilterIsSubsequence<T>(s: seq<T>, keep: T -> bool)
    ensures IsSubsequence(Filter(s, keep), s)
  {
    if s != [] {
      FilterIsSubsequence(s[1..], keep);
      if !keep(s[0]) {
        SubsequenceOfTail(Filter(s[1..], keep), s);
      }
    }
  }

  lemma {:induction false} SubsequenceOfTail<T>(a: seq<T>, b: seq<T>)
    requires b != [] && IsSubsequence(a, b[1..])
    ensures IsSubsequence(a, b)
    decreases |a| + |b|
  {
    if a != [] && a[0] == b[0] {
      SubsequenceDropHead(a, b[1..]);
    }
  }

  lemma {:induction false} SubsequenceDropHead<T>(a: seq<T>, b: seq<T>)
    requires a != [] && IsSubsequence(a, b)
    ensures IsSubsequence(a[1..], b)
    decreases |a| + |b|
  {
    if a[0] == b[0] {
      SubsequenceOfTail(a[1..], b);
    } else {
      SubsequenceDropHead(a, b[1..]);
      SubsequenceOfTail(a[1..], b);
    }
  }

  /** Every sequence is a subsequence of itself. */
  lemma {:induction false} SubsequenceOfSelf<T>(s: seq<T>)
    ensures IsSubsequence(s, s)
  {
    if s != [] {
      SubsequenceOfSelf(s[1..]);
    }
  }

  /** Filtering a concatenation filters each part. */
  lemma {:induction false} FilterAppend<T>(a: seq<T>, b: seq<T>, keep: T -> bool)
    ensures Filter(a + b, keep) == Filter(a, keep) + Filter(b, keep)
  {
    if a == [] {
      assert a + b == b;
    } else {
      assert (a + b)[1..] == a[1..] + b;
      FilterAppend(a[1..], b, keep);
    }
  }

  /** Filtering keeps every kept element as many times as it occurs. */
  lemma {:induction false} FilterMultiplicity<T>(s: seq<T>, keep: T -> bool, x: T)
    ensures multiset(Filter(s, keep))[x] == if keep(x) then multiset(s)[x] else 0
  {
    if s != [] {
      FilterMultiplicity(s[1..], keep, x);
      assert s == [s[0]] + s[1..];
    }
  }

  /** A filter that keeps everything is the identity. */
  lemma {:induction false} FilterAll<T>(s: seq<T>, keep: T -> bool)
    requires forall x :: x in s ==> keep(x)
    ensures Filter(s, keep) == s
  {
    if s != [] {
      FilterAll(s[1..], keep);
    }
  }

  /** `s.map(f)` for an `f` that may throw (None): the mapped sequence when
      no element throws, None as soon as one does. */
  function MapAll<A, B>(s: seq<A>, f: A -> Option<B>): (r: Option<seq<B>>)
    ensures r.Some? <==> forall i :: 0 <= i < |s| ==> f(s[i]).Some?
    ensures r.Some? ==> |r.value| == |s| && forall i :: 0 <= i < |s| ==> f(s[i]) == Some(r.value[i])
  {
    if s == [] then Some([])
    else
      match (f(s[0]), MapAll(s[1..], f))
      case (Some(y), Some(ys)) =>
        assert forall i :: 1 <= i < |s| ==> s[i] == s[1..][i - 1];
        Some([y] + ys)
      case (Some(_), None) =>
        var i :| 0 <= i < |s| - 1 && f(s[1..][i]).None?;
        assert s[1..][i] == s[i + 1];
        None
      case (None, _) => None
  }

  /** A position at which an element of a sequence sits. */
  lemma PositionOf<T>(s: seq<T>, x: T) returns (i: nat)
    requires x in s
    ensures i < |s| && s[i] == x
  {
    i :| 0 <= i < |s| && s[i] == x;
  }

  /** `xs.map((x, k) => tag(x, ys[start + k]))`: each element paired with
      the label at its position, counted from `start`. */
  function LabelFrom<A, B, C>(xs: seq<A>, ys: seq<B>, start: nat, tag: (A, B) -> C): (r: seq<C>)
    requires start + |xs| <= |ys|
    ensures |r| == |xs|
    ensures forall k :: 0 <= k < |r| ==> r[k] == tag(xs[k], ys[start + k])
  {
    if xs == [] then []
    else [tag(xs[0], ys[start])] + LabelFrom(xs[1..], ys, start + 1, tag)
  }

  /** Labelling a concatenation labels the second part where the first stops. */
  lemma LabelFromAppend<A, B, C>(a: seq<A>, b: seq<A>, ys: seq<B>, start: nat, tag: (A, B) -> C)
    requires start + |a| + |b| <= |ys|
    ensures LabelFrom(a + b, ys, start, tag) == LabelFrom(a, ys, start, tag) + LabelFrom(b, ys, start + |a|, tag)
  {
    var l := LabelFrom(a + b, ys, start, tag);
    var r := LabelFrom(a, ys, start, tag) + LabelFrom(b, ys, start + |a|, tag);
    forall k | 0 <= k < |l|
      ensures l[k] == r[k]
    {
      if k < |a| {
        assert (a + b)[k] == a[k];
      } else {
        assert (a + b)[k] == b[k - |a|];
      }
    }
  }

  /** `events.reduce(step, s)`: the state after applying `step` to each element in turn. */
  function FoldLeft<S, E>(step: (S, E) -> S, s: S, events: seq<E>): S
  {
    if events == [] then s else FoldLeft(step, step(s, events[0]), events[1..])
  }

  /** Folding a concatenation folds the second part from where the first leaves off. */
  lemma {:induction false} FoldLeftAppend<S, E>(step: (S, E) -> S, s: S, a: seq<E>, b: seq<E>)
    ensures FoldLeft(step, s, a + b) == FoldLeft(step, FoldLeft(step, s, a), b)
  {
    if a == [] {
      assert a + b == b;
    } else {
      assert (a + b)[1..] == a[1..] + b;
      FoldLeftAppend(step, step(s, a[0]), a[1..], b);
    }
  }

  lemma FoldLeftTwo<S, E>(step: (S, E) -> S, s: S, a: E, b: E)
    ensures FoldLeft(step, s, [a, b]) == step(step(s, a), b)
  {
    assert [a, b][1..] == [b];
    assert [b][1..] == [];
    assert FoldLeft(step, s, [a, b]) == FoldLeft(step, step(s, a), [b]);
    assert FoldLeft(step, step(s, a), [b]) == FoldLeft(step, step(step(s, a), b), []);
  }

  lemma FoldLeftThree<S, E>(step: (S, E) -> S, s: S, a: E, b: E, c: E)
    ensures FoldLeft(step, s, [a, b, c]) == step(step(step(s, a), b), c)
  {
    assert [a, b, c][1..] == [b, c];
    FoldLeftTwo(step, step(s, a), b, c);
  }
}
