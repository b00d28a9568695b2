/**
 * Array helpers shared by the models: `filter`, `slice`, de-duplication
 * through a `Set`, and counting.
 */
module Lists {

  function Min(a: int, b: int): int { if a <= b then a else b }

  /** `xs.filter(f)`, the kept elements in their original order. */
  function Filter<T>(s: seq<T>, f: T -> bool): (r: seq<T>)
    ensures |r| <= |s|
    ensures forall i :: 0 <= i < |r| ==> f(r[i])
    decreases |s|
  {
    if s == [] then []
    else
      var kept := Filter(s[..|s| - 1], f);
      if f(s[|s| - 1]) then kept + [s[|s| - 1]] else kept
  }

  /** An element is kept exactly when it is in the input and passes the test. */
  lemma {:induction false} FilterMembers<T>(s: seq<T>, f: T -> bool, x: T)
    ensures x in Filter(s, f) <==> x in s && f(x)
    decreases |s|
  {
    if s != [] {
      FilterMembers(s[..|s| - 1], f, x);
      assert s == s[..|s| - 1] + [s[|s| - 1]];
    }
  }

  /** Filtering distributes over concatenation. */
  lemma {:induction false} FilterConcat<T>(a: seq<T>, b: seq<T>, f: T -> bool)
    ensures Filter(a + b, f) == Filter(a, f) + Filter(b, f)
    decreases |b|
  {
    if b != [] {
      var b' := b[..|b| - 1];
      assert (a + b)[..|a + b| - 1] == a + b';
      FilterConcat(a, b', f);
    } else {
      assert a + b == a;
    }
  }

  /** Filtering everything through a test every element passes keeps the sequence. */
  lemma {:induction false} FilterAll<T>(s: seq<T>, f: T -> bool)
    requires forall i :: 0 <= i < |s| ==> f(s[i])
    ensures Filter(s, f) == s
    decreases |s|
  {
    if s != [] {
      FilterAll(s[..|s| - 1], f);
    }
  }

  /** Filtering out everything leaves nothing. */
  lemma {:induction false} FilterNone<T>(s: seq<T>, f: T -> bool)
    requires forall i :: 0 <= i < |s| ==> !f(s[i])
    ensures Filter(s, f) == []
    decreases |s|
  {
    if s != [] {
      FilterNone(s[..|s| - 1], f);
    }
  }

  /** Cutting off ends whose elements all fail the test does not change a filter. */
  lemma FilterMiddle<T>(s: seq<T>, k: nat, m: nat, f: T -> bool)
    requires k <= m <= |s|
    requires forall i :: 0 <= i < k ==> !f(s[i])
    requires forall i :: m <= i < |s| ==> !f(s[i])
    ensures Filter(s[k..m], f) == Filter(s, f)
  {
    var pre, mid, suf := s[..k], s[k..m], s[m..];
    ThreeParts(s, k, m);
    FilterConcat(pre, mid + suf, f);
    FilterConcat(mid, suf, f);
    forall i | 0 <= i < |pre| ensures !f(pre[i]) {
      assert pre[i] == s[i];
    }
    FilterNone(pre, f);
    forall i | 0 <= i < |suf| ensures !f(suf[i]) {
      assert suf[i] == s[m + i];
    }
    FilterNone(suf, f);
  }

  /** Concatenation regroups freely. */
  lemma AppendAssoc<T>(a: seq<T>, b: seq<T>, c: seq<T>)
    ensures (a + b) + c == a + (b + c)
  {
  }

  /** The head and the tail of a concatenation with a non-empty front. */
  lemma TailOfConcat<T>(a: seq<T>, b: seq<T>)
    requires a != []
    ensures (a + b)[0] == a[0] && (a + b)[1..] == a[1..] + b
  {
  }

  lemma ThreeParts<T>(s: seq<T>, k: nat, m: nat)
    requires k <= m <= |s|
    ensures s == s[..k] + (s[k..m] + s[m..])
  {
  }

  /** A second, narrower filter makes the first one redundant. */
  lemma {:induction false} FilterFilter<T>(s: seq<T>, g: T -> bool, f: T -> bool)
    requires forall i :: 0 <= i < |s| ==> f(s[i]) ==> g(s[i])
    ensures Filter(Filter(s, g), f) == Filter(s, f)
    decreases |s|
  {
    if s != [] {
      var init := s[..|s| - 1];
      FilterFilter(init, g, f);
      if g(s[|s| - 1]) {
        FilterConcat(Filter(init, g), [s[|s| - 1]], f);
      }
    }
  }

  /** Array position of a `slice` bound: negative counts from the end, both clamped. */
  function SliceBound(x: int, len: nat): (r: nat)
    ensures r <= len
    ensures 0 <= x <= len ==> r == x
    ensures x > len ==> r == len
  {
    if x < 0 then (if len + x < 0 then 0 else len + x)
    else if x > len then len
    else x
  }

  /** JavaScript's `xs.slice(start, end)` (and Python's `xs[start:end]`). */
  function Slice<T>(s: seq<T>, start: int, end: int): (r: seq<T>)
    ensures |r| <= |s|
  {
    var lo := SliceBound(start, |s|);
    var hi := SliceBound(end, |s|);
    if lo < hi then s[lo..hi] else []
  }

  /** `xs.slice(0, n)` for `n >= 0` is the first `min(n, |xs|)` elements. */
  lemma SliceFromZero<T>(s: seq<T>, n: int)
    requires n >= 0
    ensures Slice(s, 0, n) == s[..Min(n, |s|)]
    ensures |Slice(s, 0, n)| <= n
  {
  }

  predicate NoDup<T(==)>(s: seq<T>) {
    forall i, j :: 0 <= i < j < |s| ==> s[i] != s[j]
  }

  /**
   * `[...new Set(xs)]` / `Array.from(new Set(xs))`: the first occurrence of
   * each distinct element, in order of first appearance.
   */
  function Dedup<T(==)>(s: seq<T>): (r: seq<T>)
    ensures NoDup(r)
    ensures |r| <= |s|
    ensures forall i :: 0 <= i < |r| ==> r[i] in s
    ensures forall i :: 0 <= i < |s| ==> s[i] in r
    decreases |s|
  {
    if s == [] then []
    else
      var seen := Dedup(s[..|s| - 1]);
      assert s == s[..|s| - 1] + [s[|s| - 1]];
      if s[|s| - 1] in seen then seen else seen + [s[|s| - 1]]
  }

  /** De-duplication keeps exactly the elements of its input. */
  lemma DedupElements<T>(s: seq<T>)
    ensures forall x :: x in Dedup(s) <==> x in s
  {
    forall x | x in s ensures x in Dedup(s) {
      var i :| 0 <= i < |s| && s[i] == x;
    }
  }

  /** A sequence without repeats passes through a `Set` unchanged. */
  lemma {:induction false} DedupNoDup<T>(s: seq<T>)
    requires NoDup(s)
    ensures Dedup(s) == s
    decreases |s|
  {
    if s != [] {
      var init := s[..|s| - 1];
      DedupNoDup(init);
      assert s[|s| - 1] !in init;
      assert init + [s[|s| - 1]] == s;
    }
  }

  /** Appending an element already seen does not change the de-duplicated sequence. */
  lemma DedupSnocSeen<T>(s: seq<T>, x: T)
    requires x in s
    ensures Dedup(s + [x]) == Dedup(s)
  {
    assert (s + [x])[..|s|] == s;
  }

  /** Position of the first occurrence of `x`. */
  function FirstIndex<T(==)>(s: seq<T>, x: T): (k: nat)
    requires x in s
    ensures k < |s| && s[k] == x
    ensures forall i :: 0 <= i < k ==> s[i] != x
    decreases |s|
  {
    if s[0] == x then 0 else 1 + FirstIndex(s[1..], x)
  }

  /** Appending an element does not move the first occurrence of an earlier one. */
  lemma FirstIndexSnoc<T>(s: seq<T>, y: T, x: T)
    requires x in s
    ensures x in s + [y] && FirstIndex(s + [y], x) == FirstIndex(s, x)
  {
    var k := FirstIndex(s, x);
    var t := s + [y];
    assert t[k] == x;
    assert forall i :: 0 <= i < k ==> t[i] == s[i];
  }

  /** The de-duplicated elements come in the order of their first occurrences. */
  lemma {:induction false} DedupOrder<T>(s: seq<T>)
    ensures forall i, j :: 0 <= i < j < |Dedup(s)| ==> FirstIndex(s, Dedup(s)[i]) < FirstIndex(s, Dedup(s)[j])
    decreases |s|
  {
    if s != [] {
      var init, last := s[..|s| - 1], s[|s| - 1];
      assert s == init + [last];
      var r0 := Dedup(init);
      DedupOrder(init);
      forall i | 0 <= i < |r0| ensures FirstIndex(s, r0[i]) == FirstIndex(init, r0[i]) {
        FirstIndexSnoc(init, last, r0[i]);
      }
      if last !in r0 {
        assert last !in init;
        assert FirstIndex(s, last) == |s| - 1;
      }
    }
  }

  /** The kept elements of a prefix, one element further: what a filtering loop relies on. */
  lemma FilterPrefixStep<T>(s: seq<T>, f: T -> bool, n: nat)
    requires n < |s|
    ensures Filter(s[..n + 1], f) == Filter(s[..n], f) + (if f(s[n]) then [s[n]] else [])
  {
    assert s[..n + 1][..n] == s[..n];
  }

  /** Number of elements passing a test. */
  function Count<T>(s: seq<T>, f: T -> bool): nat {
    |Filter(s, f)|
  }
}
