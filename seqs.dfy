/**
 * The JavaScript array queries the services are written with:
 * `findIndex`, `find`, `some` and `filter`, over sequences and a total predicate.
 */
module Seqs {
  import opened Wrappers

  /** `s.findIndex(p)`: the index of the first element satisfying `p` (`None` for -1). */
  function FindIndex<T(!new)>(s: seq<T>, p: T -> bool): (r: Option<nat>)
    ensures r.Some? ==> r.value < |s| && p(s[r.value])
    ensures r.Some? ==> forall j :: 0 <= j < r.value ==> !p(s[j])
    ensures r.None? <==> forall j :: 0 <= j < |s| ==> !p(s[j])
  {
    if |s| == 0 then None
    else if p(s[0]) then Some(0)
    else
      match FindIndex(s[1..], p)
      case None => None
      case Some(i) => Some(i + 1)
  }

  /** `s.find(p)`: the first element satisfying `p`, if any. */
  function Find<T(!new)>(s: seq<T>, p: T -> bool): (r: Option<T>)
    ensures r.Some? <==> exists j :: 0 <= j < |s| && p(s[j])
    ensures r.Some? ==> p(r.value) && r.value in s
    ensures r.Some? ==> exists i :: 0 <= i < |s| && s[i] == r.value && forall j :: 0 <= j < i ==> !p(s[j])
  {
    match FindIndex(s, p)
    case None => None
    case Some(i) => Some(s[i])
  }

  /** `s.some(p)`. */
  function Any<T(!new)>(s: seq<T>, p: T -> bool): (r: bool)
    ensures r <==> exists j :: 0 <= j < |s| && p(s[j])
  {
    FindIndex(s, p).Some?
  }

  /** `s.filter(p)`: the elements satisfying `p`, each as often as in `s`. */
  function Filter<T(!new)>(s: seq<T>, p: T -> bool): (r: seq<T>)
    ensures |r| <= |s|
    ensures forall i :: 0 <= i < |r| ==> p(r[i])
    ensures forall x {:trigger multiset(r)[x]} :: multiset(r)[x] == if p(x) then multiset(s)[x] else 0
  {
    if |s| == 0 then []
    else
      assert s == [s[0]] + s[1..];
      if p(s[0]) then [s[0]] + Filter(s[1..], p) else Filter(s[1..], p)
  }

  /** Filtering keeps the order of the input: it distributes over concatenation. */
  lemma {:induction false} FilterConcat<T(!new)>(a: seq<T>, b: seq<T>, p: T -> bool)
    ensures Filter(a + b, p) == Filter(a, p) + Filter(b, p)
  {
    if |a| == 0 {
      assert a + b == b;
    } else {
      assert (a + b)[1..] == a[1..] + b;
      FilterConcat(a[1..], b, p);
    }
  }

  /** Together with FilterConcat this pins the filter down uniquely. */
  lemma FilterSingleton<T(!new)>(x: T, p: T -> bool)
    ensures Filter([x], p) == if p(x) then [x] else []
  {
    assert [x][1..] == [];
  }

  /** Removing an element the predicate rejects does not change the filter. */
  lemma FilterRemoveRejected<T(!new)>(s: seq<T>, i: nat, p: T -> bool)
    requires i < |s| && !p(s[i])
    ensures Filter(s[..i] + s[i + 1..], p) == Filter(s, p)
  {
    var a, b := s[..i], s[i + 1..];
    assert s == a + ([s[i]] + b);
    FilterConcat([s[i]], b, p);
    FilterSingleton(s[i], p);
    assert Filter([s[i]] + b, p) == Filter(b, p);
    FilterConcat(a, [s[i]] + b, p);
    FilterConcat(a, b, p);
  }

  /** Replacing an element the predicate rejects by another it rejects does not change the filter. */
  lemma FilterReplaceRejected<T(!new)>(s: seq<T>, i: nat, x: T, p: T -> bool)
    requires i < |s| && !p(s[i]) && !p(x)
    ensures Filter(s[i := x], p) == Filter(s, p)
  {
    var a, b := s[..i], s[i + 1..];
    assert s == a + ([s[i]] + b);
    assert s[i := x] == a + ([x] + b);
    FilterConcat(a, [s[i]] + b, p);
    FilterConcat([s[i]], b, p);
    FilterConcat(a, [x] + b, p);
    FilterConcat([x], b, p);
    FilterSingleton(s[i], p);
    FilterSingleton(x, p);
  }

  /**
   * Looking for the first element satisfying `q` and `p` is the same as looking
   * for the first element satisfying `p` among those satisfying `q`.
   */
  lemma {:induction false} FindThroughFilter<T(!new)>(s: seq<T>, q: T -> bool, p: T -> bool, pq: T -> bool)
    requires forall x :: pq(x) == (q(x) && p(x))
    ensures Find(s, pq) == Find(Filter(s, q), p)
  {
    if |s| > 0 {
      FindThroughFilter(s[1..], q, p, pq);
    }
  }

  /** Every element lies on exactly one side of a predicate and its negation. */
  lemma {:induction false} FilterPartition<T(!new)>(s: seq<T>, p: T -> bool, np: T -> bool)
    requires forall x :: np(x) == !p(x)
    ensures |Filter(s, p)| + |Filter(s, np)| == |s|
  {
    if |s| > 0 {
      FilterPartition(s[1..], p, np);
    }
  }

  /** Filtering twice with the same predicate is filtering once. */
  lemma {:induction false} FilterIdempotent<T(!new)>(s: seq<T>, p: T -> bool)
    ensures Filter(Filter(s, p), p) == Filter(s, p)
  {
    if |s| > 0 {
      FilterIdempotent(s[1..], p);
      if p(s[0]) {
        assert ([s[0]] + Filter(s[1..], p))[1..] == Filter(s[1..], p);
      }
    }
  }

  /** Two sequences that agree on `p` position by position have the same first match. */
  lemma FindIndexSameTests<T(!new)>(s: seq<T>, t: seq<T>, p: T -> bool)
    requires |s| == |t| && forall j :: 0 <= j < |s| ==> p(s[j]) == p(t[j])
    ensures FindIndex(s, p) == FindIndex(t, p)
  {
    var a, b := FindIndex(s, p), FindIndex(t, p);
    if a.Some? {
      assert p(t[a.value]);
      assert b.Some? && !(b.value < a.value) && !(a.value < b.value);
    }
  }
}
