/** Order-preserving list operations shared by the store's scans. Each is
    defined on the last element, so extending a prefix by one element, as a
    loop does, unfolds the definition once. */
module Seqs {
  import opened Outcomes

  /** The elements of `s` that satisfy `p`, in their original order. */
  function Filter<T>(s: seq<T>, p: T -> bool): (r: seq<T>)
    ensures |r| <= |s|
    ensures forall x :: x in r ==> x in s && p(x)
  {
    if s == [] then []
    else Filter(s[..|s| - 1], p) + (if p(s[|s| - 1]) then [s[|s| - 1]] else [])
  }

  /** Nothing that satisfies `p` is dropped. */
  lemma {:induction false} FilterKeepsMatches<T>(s: seq<T>, p: T -> bool, x: T)
    requires x in s && p(x)
    ensures x in Filter(s, p)
  {
    if x != s[|s| - 1] {
      assert s == s[..|s| - 1] + [s[|s| - 1]];
      FilterKeepsMatches(s[..|s| - 1], p, x);
    }
  }

  /** Filtering distributes over concatenation: the relative order of the kept
      elements is the order they had in `a + b`. */
  lemma {:induction false} FilterConcat<T>(a: seq<T>, b: seq<T>, p: T -> bool)
    ensures Filter(a + b, p) == Filter(a, p) + Filter(b, p)
  {
    if b == [] {
      assert a + b == a;
    } else {
      var b' := b[..|b| - 1];
      assert (a + b)[..|a + b| - 1] == a + b';
      FilterConcat(a, b', p);
    }
  }

  /** When every element satisfies `p`, filtering changes nothing. */
  lemma {:induction false} FilterAllKept<T>(s: seq<T>, p: T -> bool)
    requires forall i :: 0 <= i < |s| ==> p(s[i])
    ensures Filter(s, p) == s
  {
    if s != [] {
      FilterAllKept(s[..|s| - 1], p);
    }
  }

  /** When no element satisfies `p`, nothing is kept. */
  lemma {:induction false} FilterNoneKept<T>(s: seq<T>, p: T -> bool)
    requires forall i :: 0 <= i < |s| ==> !p(s[i])
    ensures Filter(s, p) == []
  {
    if s != [] {
      FilterNoneKept(s[..|s| - 1], p);
    }
  }

  /** Filtering twice is filtering once. */
  lemma {:induction false} FilterIdempotent<T>(s: seq<T>, p: T -> bool)
    ensures Filter(Filter(s, p), p) == Filter(s, p)
  {
    var r := Filter(s, p);
    forall i | 0 <= i < |r| ensures p(r[i]) {
      assert r[i] in r;
    }
    FilterAllKept(r, p);
  }

  /** The first fault that `f` reports for an element of `s`, in order. */
  function FirstFault<T, E>(s: seq<T>, f: T -> Option<E>): (r: Option<E>)
    ensures r.None? <==> forall i :: 0 <= i < |s| ==> f(s[i]).None?
  {
    if s == [] then None
    else
      var before := FirstFault(s[..|s| - 1], f);
      if before.Some? then before else f(s[|s| - 1])
  }

  /** Once a prefix has faulted, the rest of the sequence does not change the
      fault that is reported: the scan stopped there. */
  lemma {:induction false} FirstFaultSettles<T, E>(s: seq<T>, i: nat, f: T -> Option<E>)
    requires i <= |s|
    requires FirstFault(s[..i], f).Some?
    ensures FirstFault(s, f) == FirstFault(s[..i], f)
  {
    if i < |s| {
      var s' := s[..|s| - 1];
      assert s'[..i] == s[..i];
      FirstFaultSettles(s', i, f);
    } else {
      assert s[..i] == s;
    }
  }

  /** The last element of `s` that satisfies `p`, if any. */
  function LastWhere<T>(s: seq<T>, p: T -> bool): (r: Option<T>)
    ensures r.Some? ==> r.value in s && p(r.value)
    ensures r.None? <==> forall i :: 0 <= i < |s| ==> !p(s[i])
  {
    if s == [] then None
    else if p(s[|s| - 1]) then Some(s[|s| - 1])
    else LastWhere(s[..|s| - 1], p)
  }

  /** Elements after the last match do not change which element is the last match. */
  lemma {:induction false} LastWhereSkips<T>(a: seq<T>, b: seq<T>, p: T -> bool)
    requires forall i :: 0 <= i < |b| ==> !p(b[i])
    ensures LastWhere(a + b, p) == LastWhere(a, p)
  {
    if b == [] {
      assert a + b == a;
    } else {
      var b' := b[..|b| - 1];
      assert (a + b)[..|a + b| - 1] == a + b';
      LastWhereSkips(a, b', p);
    }
  }

  /** Filtering out a single element that fails `p` between two runs that
      satisfy it keeps the two runs, in order. */
  lemma DropsSole<T>(a: seq<T>, x: T, b: seq<T>, p: T -> bool)
    requires forall i :: 0 <= i < |a| ==> p(a[i])
    requires forall i :: 0 <= i < |b| ==> p(b[i])
    requires !p(x)
    ensures Filter(a + [x] + b, p) == a + b
  {
    var ax := a + [x];
    assert ax[..|ax| - 1] == a && ax[|ax| - 1] == x;
    assert Filter(ax, p) == Filter(a, p);
    FilterAllKept(a, p);
    FilterAllKept(b, p);
    FilterConcat(ax, b, p);
  }

  /** An element matching `p` followed only by non-matches is the last match. */
  lemma LastIsSole<T>(a: seq<T>, x: T, b: seq<T>, p: T -> bool)
    requires p(x)
    requires forall i :: 0 <= i < |b| ==> !p(b[i])
    ensures LastWhere(a + [x] + b, p) == Some(x)
  {
    LastWhereSkips(a + [x], b, p);
    assert (a + [x])[|a + [x]| - 1] == x;
  }
}
