/** Sequence operations the application uses through JavaScript's
    `Array.prototype.filter`, `find`, `findIndex` and `some`. */
module Seqs {
  import opened Wrappers

  /** `a` is an order-preserving subsequence of `b`: `b` with some elements
      dropped and nothing reordered. */
  ghost predicate IsSubseq<T>(a: seq<T>, b: seq<T>)
    decreases |b|
  {
    if |b| == 0 then |a| == 0
    else IsSubseq(a, b[1..]) || (|a| > 0 && a[0] == b[0] && IsSubseq(a[1..], b[1..]))
  }

  /** `Array.prototype.filter`. */
  function Filter<T>(p: T -> bool, s: seq<T>): (r: seq<T>)
    ensures |r| <= |s|
    ensures forall i :: 0 <= i < |r| ==> r[i] in s && p(r[i])
    ensures forall i :: 0 <= i < |s| && p(s[i]) ==> s[i] in r
    ensures IsSubseq(r, s)
    ensures (forall i :: 0 <= i < |s| ==> p(s[i])) ==> r == s
    ensures forall x {:trigger multiset(r)[x]} :: x in s ==> multiset(r)[x] == if p(x) then multiset(s)[x] else 0
    decreases |s|
  {
    if |s| == 0 then []
    else
      assert s == [s[0]] + s[1..];
      var t := Filter(p, s[1..]);
      var r := if p(s[0]) then [s[0]] + t else t;
      FilterCountStep(p, s, t, r);
      r
  }

  /** The multiplicity step of `Filter`: keeping or dropping the head
      extends the per-element counts from the tail to the whole sequence. */
  lemma {:induction false} FilterCountStep<T>(p: T -> bool, s: seq<T>, t: seq<T>, r: seq<T>)
    requires |s| > 0
    requires forall i :: 0 <= i < |t| ==> t[i] in s[1..]
    requires forall x {:trigger multiset(t)[x]} :: x in s[1..] ==>
               multiset(t)[x] == if p(x) then multiset(s[1..])[x] else 0
    requires r == if p(s[0]) then [s[0]] + t else t
    ensures forall x {:trigger multiset(r)[x]} :: x in s ==>
              multiset(r)[x] == if p(x) then multiset(s)[x] else 0
  {
    assert s == [s[0]] + s[1..];
    forall x | x in s
      ensures multiset(r)[x] == if p(x) then multiset(s)[x] else 0
    {
      assert multiset(s)[x] == multiset([s[0]])[x] + multiset(s[1..])[x];
      if p(s[0]) {
        assert multiset(r)[x] == multiset([s[0]])[x] + multiset(t)[x];
      }
      if x !in s[1..] {
        assert x !in t;
      }
    }
  }

  /** `Array.prototype.some`. */
  function Any<T>(p: T -> bool, s: seq<T>): (r: bool)
    ensures r <==> exists i :: 0 <= i < |s| && p(s[i])
    decreases |s|
  {
    if |s| == 0 then false
    else p(s[0]) || Any(p, s[1..])
  }

  /** `Array.prototype.findIndex`, with `None` for -1. */
  function FindIndex<T>(p: T -> bool, s: seq<T>): (r: Option<nat>)
    ensures r.Some? ==> r.value < |s| && p(s[r.value])
    ensures r.Some? ==> forall j :: 0 <= j < r.value ==> !p(s[j])
    ensures r.None? <==> forall j :: 0 <= j < |s| ==> !p(s[j])
    decreases |s|
  {
    if |s| == 0 then None
    else if p(s[0]) then Some(0)
    else
      match FindIndex(p, s[1..])
      case None => None
      case Some(k) => Some(k + 1)
  }

  /** `Array.prototype.find`: the first element satisfying `p`, if any. */
  function Find<T>(p: T -> bool, s: seq<T>): (r: Option<T>)
    ensures r.Some? <==> exists i :: 0 <= i < |s| && p(s[i])
    ensures r.Some? ==> r.value in s && p(r.value)
  {
    match FindIndex(p, s)
    case None => None
    case Some(i) => Some(s[i])
  }

  /** Prepending an element to the longer sequence keeps the relation. */
  lemma {:induction false} SubseqSkip<T>(a: seq<T>, x: T, b: seq<T>)
    requires IsSubseq(a, b)
    ensures IsSubseq(a, [x] + b)
  {
    assert ([x] + b)[1..] == b;
  }

  /** Prepending the same element to both sides keeps the relation. */
  lemma {:induction false} SubseqCons<T>(x: T, a: seq<T>, b: seq<T>)
    requires IsSubseq(a, b)
    ensures IsSubseq([x] + a, [x] + b)
  {
    assert ([x] + a)[1..] == a;
    assert ([x] + b)[1..] == b;
  }

  /** Filtering with a stronger predicate keeps a subsequence of what the
      weaker predicate keeps. */
  lemma {:induction false} FilterMonotone<T>(p: T -> bool, q: T -> bool, s: seq<T>)
    requires forall x :: p(x) ==> q(x)
    ensures IsSubseq(Filter(p, s), Filter(q, s))
    decreases |s|
  {
    if |s| == 0 {
    } else {
      FilterMonotone(p, q, s[1..]);
      if p(s[0]) {
        SubseqCons(s[0], Filter(p, s[1..]), Filter(q, s[1..]));
      } else if q(s[0]) {
        SubseqSkip(Filter(p, s[1..]), s[0], Filter(q, s[1..]));
      }
    }
  }

  /** Predicates that agree on every element of `s` filter it identically. */
  lemma {:induction false} FilterAgree<T>(p: T -> bool, q: T -> bool, s: seq<T>)
    requires forall i :: 0 <= i < |s| ==> p(s[i]) == q(s[i])
    ensures Filter(p, s) == Filter(q, s)
    decreases |s|
  {
    if |s| > 0 {
      FilterAgree(p, q, s[1..]);
    }
  }

  /** Filtering distributes over concatenation. */
  lemma {:induction false} FilterAppend<T>(p: T -> bool, a: seq<T>, b: seq<T>)
    ensures Filter(p, a + b) == Filter(p, a) + Filter(p, b)
    decreases |a|
  {
    if |a| == 0 {
      assert a + b == b;
    } else {
      assert (a + b)[1..] == a[1..] + b;
      FilterAppend(p, a[1..], b);
    }
  }

  /** Predicates that agree position by position find the same index. */
  lemma {:induction false} FindIndexAgree<T, U>(p: T -> bool, s: seq<T>, q: U -> bool, t: seq<U>)
    requires |s| == |t|
    requires forall i :: 0 <= i < |s| ==> p(s[i]) == q(t[i])
    ensures FindIndex(p, s) == FindIndex(q, t)
    decreases |s|
  {
    if |s| > 0 {
      FindIndexAgree(p, s[1..], q, t[1..]);
    }
  }
}
