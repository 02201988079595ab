/** Order-preserving selection and the stable sort behind every
    `[...xs].sort((a, b) => key(a) - key(b))` of the application. JavaScript's
    `Array.prototype.sort` is stable, so the sort is specified as a stable
    insertion sort on an integer key (a descending comparator is an ascending
    one on the negated key). */
module Sequences {

  /** `r` is `s` with some elements left out, the rest in their order. */
  predicate IsSubseq<T(==)>(r: seq<T>, s: seq<T>)
    decreases |s|
  {
    if r == [] then true
    else if s == [] then false
    else if r[0] == s[0] then IsSubseq(r[1..], s[1..])
    else IsSubseq(r, s[1..])
  }

  lemma {:induction false} IsSubseqLength<T>(r: seq<T>, s: seq<T>)
    requires IsSubseq(r, s)
    ensures |r| <= |s|
    decreases |s|
  {
    if r != [] {
      if r[0] == s[0] { IsSubseqLength(r[1..], s[1..]); } else { IsSubseqLength(r, s[1..]); }
    }
  }

  /** `s.filter(keep)`. */
  function Filter<T(==,!new)>(s: seq<T>, keep: T -> bool): (r: seq<T>)
    ensures forall x {:trigger x in r} :: x in r <==> x in s && keep(x)
    ensures forall x {:trigger multiset(r)[x]} :: multiset(r)[x] == if keep(x) then multiset(s)[x] else 0
    ensures |r| <= |s|
  {
    if s == [] then []
    else
      var rest := Filter(s[1..], keep);
      assert s == [s[0]] + s[1..];
      if keep(s[0]) then [s[0]] + rest else rest
  }

  /** What a filter keeps stays in its original order. */
  lemma {:induction false} FilterIsSubseq<T(!new)>(s: seq<T>, keep: T -> bool)
    ensures IsSubseq(Filter(s, keep), s)
  {
    if s != [] {
      FilterIsSubseq(s[1..], keep);
      var rest := Filter(s[1..], keep);
      if !keep(s[0]) {
        SubseqSkip(rest, s[1..], s[0]);
        assert [s[0]] + s[1..] == s;
      }
    }
  }

  /** A weaker test keeps at least what a stronger one keeps, in order. */
  lemma {:induction false} FilterMonotone<T(!new)>(s: seq<T>, strong: T -> bool, weak: T -> bool)
    requires forall x :: x in s && strong(x) ==> weak(x)
    ensures IsSubseq(Filter(s, strong), Filter(s, weak))
  {
    if s != [] {
      FilterMonotone(s[1..], strong, weak);
      var r1, r2 := Filter(s[1..], strong), Filter(s[1..], weak);
      if strong(s[0]) {
        assert Filter(s, strong) == [s[0]] + r1 && Filter(s, weak) == [s[0]] + r2;
      } else if weak(s[0]) {
        assert Filter(s, weak) == [s[0]] + r2;
        SubseqSkip(r1, r2, s[0]);
      }
    }
  }

  /** Filtering distributes over concatenation. */
  lemma {:induction false} FilterAppend<T(!new)>(a: seq<T>, b: seq<T>, keep: T -> bool)
    ensures Filter(a + b, keep) == Filter(a, keep) + Filter(b, keep)
  {
    if a == [] {
      assert a + b == b;
    } else {
      var ab := a + b;
      assert ab[0] == a[0] && ab[1..] == a[1..] + b;
      FilterAppend(a[1..], b, keep);
      var fa, fb := Filter(a[1..], keep), Filter(b, keep);
      if keep(a[0]) {
        assert Filter(ab, keep) == [a[0]] + (fa + fb);
        assert Filter(a, keep) == [a[0]] + fa;
        assert [a[0]] + (fa + fb) == ([a[0]] + fa) + fb;
      } else {
        assert Filter(ab, keep) == fa + fb;
        assert Filter(a, keep) == fa;
      }
    }
  }

  /** A test every element passes keeps the whole sequence. */
  lemma {:induction false} FilterKeepsAll<T(!new)>(s: seq<T>, keep: T -> bool)
    requires forall x :: x in s ==> keep(x)
    ensures Filter(s, keep) == s
  {
    if s != [] {
      assert s[0] in s;
      forall x | x in s[1..] ensures keep(x) {
        assert x in s;
      }
      FilterKeepsAll(s[1..], keep);
      assert s == [s[0]] + s[1..];
    }
  }

  /** Filtering twice with the same test is filtering once. */
  lemma {:induction false} FilterIdempotent<T(!new)>(s: seq<T>, keep: T -> bool)
    ensures Filter(Filter(s, keep), keep) == Filter(s, keep)
  {
    FilterKeepsAll(Filter(s, keep), keep);
  }

  /** Skipping one extra element in front keeps a subsequence. */
  lemma {:induction false} SubseqSkip<T>(r: seq<T>, s: seq<T>, y: T)
    requires IsSubseq(r, s)
    ensures IsSubseq(r, [y] + s)
    decreases |s|, 1
  {
    if r != [] && r[0] == y {
      assert ([y] + s)[1..] == s;
      SubseqTail(r, s);
    } else if r != [] {
      assert ([y] + s)[1..] == s;
    }
  }

  lemma {:induction false} SubseqTail<T>(r: seq<T>, s: seq<T>)
    requires r != [] && IsSubseq(r, s)
    ensures IsSubseq(r[1..], s)
    decreases |s|, 0
  {
    if r[0] == s[0] {
      SubseqSkip(r[1..], s[1..], s[0]);
      assert [s[0]] + s[1..] == s;
    } else {
      SubseqTail(r, s[1..]);
      SubseqSkip(r[1..], s[1..], s[0]);
      assert [s[0]] + s[1..] == s;
    }
  }

  /** Keys in non-decreasing order. */
  predicate SortedBy<T>(s: seq<T>, key: T -> int) {
    forall i, j :: 0 <= i < j < |s| ==> key(s[i]) <= key(s[j])
  }

  /** The elements whose key is `k`, in their order. */
  function WithKey<T>(s: seq<T>, key: T -> int, k: int): (r: seq<T>)
    ensures forall x :: x in r ==> key(x) == k
  {
    if s == [] then []
    else if key(s[0]) == k then [s[0]] + WithKey(s[1..], key, k)
    else WithKey(s[1..], key, k)
  }

  lemma WithKeyAppend<T>(a: seq<T>, b: seq<T>, key: T -> int, k: int)
    ensures WithKey(a + b, key, k) == WithKey(a, key, k) + WithKey(b, key, k)
  {
    if a == [] {
      assert a + b == b;
    } else {
      assert (a + b)[1..] == a[1..] + b;
    }
  }

  /** Insert `x` in front of the first element whose key is not smaller. */
  function Insert<T>(x: T, s: seq<T>, key: T -> int): (r: seq<T>)
    ensures |r| == |s| + 1
    ensures multiset(r) == multiset(s) + multiset{x}
  {
    if s == [] || key(x) <= key(s[0]) then [x] + s
    else
      assert s == [s[0]] + s[1..];
      [s[0]] + Insert(x, s[1..], key)
  }

  /** Insertion adds `x` and nothing else. */
  lemma {:induction false} InsertMember<T>(x: T, s: seq<T>, key: T -> int, y: T)
    requires y in Insert(x, s, key)
    ensures y == x || y in s
  {
    if s != [] && key(x) > key(s[0]) && y != s[0] {
      InsertMember(x, s[1..], key, y);
    }
  }

  lemma SortedTail<T>(s: seq<T>, key: T -> int)
    requires s != [] && SortedBy(s, key)
    ensures SortedBy(s[1..], key)
  {
    var tail := s[1..];
    forall i, j | 0 <= i < j < |tail| ensures key(tail[i]) <= key(tail[j]) {
      assert tail[i] == s[i + 1] && tail[j] == s[j + 1];
    }
  }

  lemma SortedCons<T>(h: T, rest: seq<T>, key: T -> int)
    requires SortedBy(rest, key)
    requires forall y :: y in rest ==> key(h) <= key(y)
    ensures SortedBy([h] + rest, key)
  {
    var r := [h] + rest;
    forall i, j | 0 <= i < j < |r| ensures key(r[i]) <= key(r[j]) {
      assert r[j] == rest[j - 1];
      if i == 0 {
        assert r[j] in rest;
      } else {
        assert r[i] == rest[i - 1];
      }
    }
  }

  /** Insertion keeps a sorted sequence sorted. */
  lemma {:induction false} InsertSorted<T>(x: T, s: seq<T>, key: T -> int)
    requires SortedBy(s, key)
    ensures SortedBy(Insert(x, s, key), key)
  {
    if s != [] && key(x) > key(s[0]) {
      var tail := s[1..];
      SortedTail(s, key);
      InsertSorted(x, tail, key);
      var rest := Insert(x, tail, key);
      forall y | y in rest ensures key(s[0]) <= key(y) {
        InsertMember(x, tail, key, y);
        if y != x {
          var j :| 0 <= j < |tail| && tail[j] == y;
          assert s[j + 1] == y;
        }
      }
      SortedCons(s[0], rest, key);
    }
  }

  /** Insertion in front of every equal key keeps the order of equal keys:
      `x` comes from before everything in `s`. */
  lemma {:induction false} InsertStable<T>(x: T, s: seq<T>, key: T -> int, k: int)
    ensures WithKey(Insert(x, s, key), key, k) == WithKey([x] + s, key, k)
  {
    if s != [] && key(x) > key(s[0]) {
      InsertStable(x, s[1..], key, k);
      assert ([s[0]] + Insert(x, s[1..], key))[1..] == Insert(x, s[1..], key);
      assert ([x] + s[1..])[1..] == s[1..];
      assert ([x] + s)[1..] == s;
      assert ([s[0]] + s[1..])[1..] == s[1..];
      assert s == [s[0]] + s[1..];
    }
  }

  /** Stable insertion sort, the reference for every sort of the application. */
  function SortBy<T>(s: seq<T>, key: T -> int): (r: seq<T>)
    ensures |r| == |s|
    ensures multiset(r) == multiset(s)
  {
    if s == [] then []
    else
      assert s == [s[0]] + s[1..];
      Insert(s[0], SortBy(s[1..], key), key)
  }

  lemma {:induction false} SortBySorted<T>(s: seq<T>, key: T -> int)
    ensures SortedBy(SortBy(s, key), key)
  {
    if s != [] {
      SortBySorted(s[1..], key);
      InsertSorted(s[0], SortBy(s[1..], key), key);
    }
  }

  /** Stability: for every key value, the elements carrying it keep their
      relative order. */
  lemma {:induction false} SortByStable<T>(s: seq<T>, key: T -> int, k: int)
    ensures WithKey(SortBy(s, key), key, k) == WithKey(s, key, k)
  {
    if s != [] {
      var tail := s[1..];
      var sorted := SortBy(tail, key);
      calc {
        WithKey(SortBy(s, key), key, k);
        WithKey(Insert(s[0], sorted, key), key, k);
        { InsertStable(s[0], sorted, key, k); }
        WithKey([s[0]] + sorted, key, k);
        { WithKeyAppend([s[0]], sorted, key, k); }
        WithKey([s[0]], key, k) + WithKey(sorted, key, k);
        { SortByStable(tail, key, k); }
        WithKey([s[0]], key, k) + WithKey(tail, key, k);
        { WithKeyAppend([s[0]], tail, key, k); }
        WithKey([s[0]] + tail, key, k);
        { assert [s[0]] + tail == s; }
        WithKey(s, key, k);
      }
    }
  }

  /** A sequence that is already sorted comes back unchanged. */
  lemma {:induction false} SortBySortedIdentity<T>(s: seq<T>, key: T -> int)
    requires SortedBy(s, key)
    ensures SortBy(s, key) == s
  {
    if s != [] {
      var tail := s[1..];
      assert SortedBy(tail, key) by {
        forall i, j | 0 <= i < j < |tail| ensures key(tail[i]) <= key(tail[j]) {
          assert tail[i] == s[i + 1] && tail[j] == s[j + 1];
        }
      }
      SortBySortedIdentity(tail, key);
      assert tail == [] || key(s[0]) <= key(tail[0]) by {
        if tail != [] { assert tail[0] == s[1]; }
      }
      assert Insert(s[0], tail, key) == [s[0]] + tail;
      assert s == [s[0]] + tail;
    }
  }

  /** `Insert` written as the split the in-place loop produces. */
  lemma {:induction false} InsertAt<T>(x: T, t: seq<T>, key: T -> int, m: nat)
    requires m <= |t|
    requires forall q :: 0 <= q < m ==> key(t[q]) < key(x)
    requires m == |t| || key(x) <= key(t[m])
    ensures Insert(x, t, key) == t[..m] + [x] + t[m..]
  {
    if m == 0 {
      assert t[..0] == [] && t[0..] == t;
    } else {
      var tail := t[1..];
      assert key(t[0]) < key(x);
      forall q | 0 <= q < m - 1 ensures key(tail[q]) < key(x) {
        assert tail[q] == t[q + 1];
      }
      assert m - 1 < |tail| ==> tail[m - 1] == t[m];
      calc {
        Insert(x, t, key);
        [t[0]] + Insert(x, tail, key);
        { InsertAt(x, tail, key, m - 1); }
        [t[0]] + (tail[..m - 1] + [x] + tail[m - 1..]);
        { ConsSplice(t, x, m); }
        t[..m] + [x] + t[m..];
      }
    }
  }

  lemma ConsSplice<T>(t: seq<T>, x: T, m: nat)
    requires 0 < m <= |t|
    ensures [t[0]] + (t[1..][..m - 1] + [x] + t[1..][m - 1..]) == t[..m] + [x] + t[m..]
  {
    assert t[1..][..m - 1] == t[1..m];
    assert t[1..][m - 1..] == t[m..];
    assert t[..m] == [t[0]] + t[1..m];
  }

  /** One step of the in-place sort: moves `a[i]` right past the smaller
      keys of the sorted suffix after it, one swap at a time. */
  method InsertStep<T>(a: array<T>, i: int, key: T -> int)
    requires 0 <= i < a.Length
    modifies a
    ensures a[..i] == old(a[..i])
    ensures a[i..] == Insert(old(a[i]), old(a[i + 1..]), key)
  {
    ghost var p := a[..i];
    ghost var t := a[i + 1..];
    var x := a[i];
    var j := i;
    while j + 1 < a.Length && key(a[j + 1]) < key(x)
      invariant i <= j < a.Length
      invariant forall k :: 0 <= k < i ==> a[k] == p[k]
      invariant forall k :: i <= k < j ==> a[k] == t[k - i]
      invariant a[j] == x
      invariant forall k :: j < k < a.Length ==> a[k] == t[k - i - 1]
      invariant forall q :: 0 <= q < j - i ==> key(t[q]) < key(x)
    {
      a[j] := a[j + 1];
      a[j + 1] := x;
      j := j + 1;
    }
    InsertStepDone(a[..], p, t, x, key, j - i);
  }

  /** When the loop stops, the suffix is `Insert(x, t)`. */
  lemma InsertStepDone<T>(b: seq<T>, p: seq<T>, t: seq<T>, x: T, key: T -> int, m: nat)
    requires m <= |t| && |b| == |p| + |t| + 1
    requires forall k :: 0 <= k < |p| ==> b[k] == p[k]
    requires forall k :: |p| <= k < |p| + m ==> b[k] == t[k - |p|]
    requires b[|p| + m] == x
    requires forall k :: |p| + m < k < |b| ==> b[k] == t[k - |p| - 1]
    requires forall q :: 0 <= q < m ==> key(t[q]) < key(x)
    requires |p| + m + 1 == |b| || key(x) <= key(b[|p| + m + 1])
    ensures b[..|p|] == p && b[|p|..] == Insert(x, t, key)
  {
    SplicedSuffix(b, p, t, x, m);
    InsertAt(x, t, key, m);
  }

  /** The array the loop leaves, read as a sequence: the prefix, then `t`
      with `x` at position `m`. */
  lemma SplicedSuffix<T>(b: seq<T>, p: seq<T>, t: seq<T>, x: T, m: nat)
    requires m <= |t| && |b| == |p| + |t| + 1
    requires forall k :: 0 <= k < |p| ==> b[k] == p[k]
    requires forall k :: |p| <= k < |p| + m ==> b[k] == t[k - |p|]
    requires b[|p| + m] == x
    requires forall k :: |p| + m < k < |b| ==> b[k] == t[k - |p| - 1]
    ensures b[..|p|] == p && b[|p|..] == t[..m] + [x] + t[m..]
    ensures m < |t| ==> b[|p| + m + 1] == t[m]
  {
    var spliced := t[..m] + [x] + t[m..];
    var suffix := b[|p|..];
    assert |suffix| == |spliced|;
    forall k | 0 <= k < |spliced| ensures suffix[k] == spliced[k] {
      assert suffix[k] == b[|p| + k];
      if k < m {
        assert spliced[k] == t[..m][k] == t[k];
      } else if k > m {
        assert spliced[k] == t[m..][k - m - 1] == t[k - 1];
      }
    }
    assert b[..|p|] == p;
  }

  /** Sorts `a` in place, exactly as `SortBy` does: the suffix from `i` is
      the sorted suffix of the input, and each step inserts `a[i - 1]` into
      it. */
  method SortInPlace<T>(a: array<T>, key: T -> int)
    modifies a
    ensures a[..] == SortBy(old(a[..]), key)
  {
    ghost var input := a[..];
    var i := a.Length;
    while i > 0
      invariant 0 <= i <= a.Length
      invariant a[..i] == input[..i]
      invariant a[i..] == SortBy(input[i..], key)
    {
      i := i - 1;
      SortStep(a[..], input, i, key);
      InsertStep(a, i, key);
    }
    assert input[0..] == input;
    assert a[0..] == a[..];
  }

  /** What one step of the in-place sort starts from, in terms of the input:
      `b[i]` is the input's element and inserting it into the sorted suffix
      after it is the sorted suffix from `i`. */
  lemma SortStep<T>(b: seq<T>, input: seq<T>, i: nat, key: T -> int)
    requires i < |b| == |input|
    requires b[..i + 1] == input[..i + 1]
    requires b[i + 1..] == SortBy(input[i + 1..], key)
    ensures b[..i] == input[..i] && b[i] == input[i]
    ensures Insert(b[i], b[i + 1..], key) == SortBy(input[i..], key)
  {
    assert b[i] == b[..i + 1][i];
    assert b[..i] == b[..i + 1][..i];
    assert input[..i] == input[..i + 1][..i];
    assert input[i..][1..] == input[i + 1..];
  }

  /** `[...s].sort(cmp)`: copy into a fresh array and sort the copy in place. */
  method SortedCopy<T>(s: seq<T>, key: T -> int) returns (r: seq<T>)
    ensures r == SortBy(s, key)
  {
    var a := new T[|s|](i requires 0 <= i < |s| => s[i]);
    assert a[..] == s;
    SortInPlace(a, key);
    r := a[..];
  }
}
