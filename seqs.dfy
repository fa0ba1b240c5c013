/** Sequence helpers standing for the JavaScript array methods the store
    uses: `filter`, a stable `sort` with a comparator, and `slice` with its
    negative-index rules. */
module Seqs {

  /** `s.filter(p)`: the elements satisfying p, in their original order. */
  function Filter<T>(s: seq<T>, p: T -> bool): (r: seq<T>)
    ensures |r| <= |s|
  {
    if s == [] then [] else (if p(s[0]) then [s[0]] else []) + Filter(s[1..], p)
  }

  lemma FilterSingle<T>(x: T, p: T -> bool)
    ensures Filter([x], p) == if p(x) then [x] else []
  {
    assert [x][1..] == [];
  }

  /** The filtered sequence holds exactly the elements of s satisfying p, none more often than in s. */
  lemma {:induction false} FilterMembers<T>(s: seq<T>, p: T -> bool)
    ensures forall x :: x in Filter(s, p) ==> x in s && p(x)
    ensures forall x :: x in s && p(x) ==> x in Filter(s, p)
    ensures multiset(Filter(s, p)) <= multiset(s)
  {
    if s != [] {
      FilterMembers(s[1..], p);
      var rest := Filter(s[1..], p);
      assert s == [s[0]] + s[1..];
      if p(s[0]) {
        assert Filter(s, p) == [s[0]] + rest;
      } else {
        assert Filter(s, p) == rest;
      }
    }
  }

  lemma {:induction false} FilterAppend<T>(a: seq<T>, b: seq<T>, p: T -> bool)
    ensures Filter(a + b, p) == Filter(a, p) + Filter(b, p)
  {
    if a != [] {
      assert (a + b)[1..] == a[1..] + b;
      FilterAppend(a[1..], b, p);
    } else {
      assert a + b == b;
    }
  }

  /** Filtering with a predicate that holds everywhere keeps everything. */
  lemma {:induction false} FilterAll<T>(s: seq<T>, p: T -> bool)
    requires forall i :: 0 <= i < |s| ==> p(s[i])
    ensures Filter(s, p) == s
  {
    if s != [] {
      FilterAll(s[1..], p);
    }
  }

  /** Filtering with a predicate that holds nowhere keeps nothing. */
  lemma {:induction false} FilterNone<T>(s: seq<T>, p: T -> bool)
    requires forall i :: 0 <= i < |s| ==> !p(s[i])
    ensures Filter(s, p) == []
  {
    if s != [] {
      FilterNone(s[1..], p);
    }
  }

  /** Filters that agree on every element select the same elements. */
  lemma {:induction false} FilterEquiv<T>(s: seq<T>, p: T -> bool, q: T -> bool)
    requires forall i :: 0 <= i < |s| ==> p(s[i]) == q(s[i])
    ensures Filter(s, p) == Filter(s, q)
  {
    if s != [] {
      FilterEquiv(s[1..], p, q);
    }
  }

  /** Two filters in a row select what their conjunction selects. */
  lemma {:induction false} FilterFilter<T>(s: seq<T>, p: T -> bool, q: T -> bool, pq: T -> bool)
    requires forall x :: pq(x) == (p(x) && q(x))
    ensures Filter(Filter(s, p), q) == Filter(s, pq)
  {
    if s != [] {
      FilterFilter(s[1..], p, q, pq);
      var rest := Filter(s[1..], p);
      if p(s[0]) {
        var fp := [s[0]] + rest;
        assert Filter(s, p) == fp;
        assert fp[0] == s[0] && fp[1..] == rest;
        assert Filter(fp, q) == (if q(s[0]) then [s[0]] else []) + Filter(rest, q);
      } else {
        assert Filter(s, p) == rest;
      }
    }
  }

  /** Keys strictly increase along s (so no key occurs twice). */
  predicate IncreasingBy<T>(s: seq<T>, key: T -> int) {
    forall i, j :: 0 <= i < j < |s| ==> key(s[i]) < key(s[j])
  }

  lemma {:induction false} FilterIncreasing<T>(s: seq<T>, p: T -> bool, key: T -> int)
    requires IncreasingBy(s, key)
    ensures IncreasingBy(Filter(s, p), key)
  {
    if s != [] {
      FilterIncreasing(s[1..], p, key);
      FilterMembers(s[1..], p);
      if p(s[0]) {
        HeadLeast(s, key);
        ConsIncreasing(s[0], Filter(s[1..], p), key);
      }
    }
  }

  /** The head of an increasing sequence has the least key. */
  lemma HeadLeast<T>(s: seq<T>, key: T -> int)
    requires IncreasingBy(s, key) && s != []
    ensures forall x :: x in s[1..] ==> key(s[0]) < key(x)
  {
    forall x | x in s[1..] ensures key(s[0]) < key(x) {
      var k :| 0 <= k < |s[1..]| && s[1..][k] == x;
      assert s[k + 1] == x;
    }
  }

  /** An element below everything in an increasing sequence may go in front of it. */
  lemma ConsIncreasing<T>(x: T, rest: seq<T>, key: T -> int)
    requires IncreasingBy(rest, key)
    requires forall y :: y in rest ==> key(x) < key(y)
    ensures IncreasingBy([x] + rest, key)
  {
    var r := [x] + rest;
    forall i, j | 0 <= i < j < |r| ensures key(r[i]) < key(r[j]) {
      if i == 0 {
        assert r[j] == rest[j - 1] && rest[j - 1] in rest;
      } else {
        assert r[i] == rest[i - 1] && r[j] == rest[j - 1];
      }
    }
  }

  /** s without its element at k. */
  function RemoveAt<T>(s: seq<T>, k: nat): (r: seq<T>)
    requires k < |s|
    ensures |r| == |s| - 1
  {
    s[..k] + s[k + 1..]
  }

  /** `le` is a total preorder: the comparator a JavaScript sort needs to be consistent. */
  ghost predicate TotalPreorder<T(!new)>(le: (T, T) -> bool) {
    && (forall a, b :: le(a, b) || le(b, a))
    && (forall a, b, c :: le(a, b) && le(b, c) ==> le(a, c))
  }

  predicate SortedBy<T>(s: seq<T>, le: (T, T) -> bool) {
    forall i, j :: 0 <= i < j < |s| ==> le(s[i], s[j])
  }

  /** Inserts x in front of the first element it may precede. */
  function Insert<T>(x: T, s: seq<T>, le: (T, T) -> bool): (r: seq<T>)
    ensures multiset(r) == multiset(s) + multiset{x}
    ensures |r| == |s| + 1
  {
    if s == [] || le(x, s[0]) then [x] + s
    else
      assert s == [s[0]] + s[1..];
      [s[0]] + Insert(x, s[1..], le)
  }

  /** A stable insertion sort: elements that `le` ranks equal keep their order. */
  function Sort<T>(s: seq<T>, le: (T, T) -> bool): (r: seq<T>)
    ensures multiset(r) == multiset(s)
    ensures |r| == |s|
  {
    if s == [] then []
    else
      assert s == [s[0]] + s[1..];
      Insert(s[0], Sort(s[1..], le), le)
  }

  lemma {:induction false} InsertSorted<T(!new)>(x: T, s: seq<T>, le: (T, T) -> bool)
    requires TotalPreorder(le) && SortedBy(s, le)
    ensures SortedBy(Insert(x, s, le), le)
  {
    if s == [] || le(x, s[0]) {
    } else {
      InsertSorted(x, s[1..], le);
      var r := Insert(x, s[1..], le);
      forall k | 0 <= k < |r| ensures le(s[0], r[k]) {
        assert r[k] in multiset(r);
        assert r[k] == x || r[k] in s[1..];
      }
    }
  }

  /** Sort yields a permutation of its input ordered by `le`. */
  lemma {:induction false} SortSorted<T(!new)>(s: seq<T>, le: (T, T) -> bool)
    requires TotalPreorder(le)
    ensures SortedBy(Sort(s, le), le)
    ensures multiset(Sort(s, le)) == multiset(s)
  {
    if s != [] {
      SortSorted(s[1..], le);
      InsertSorted(s[0], Sort(s[1..], le), le);
    }
  }

  /** Sorting neither adds nor drops an element. */
  lemma SortMembers<T>(s: seq<T>, le: (T, T) -> bool)
    ensures forall x :: x in Sort(s, le) ==> x in s
    ensures forall x :: x in s ==> x in Sort(s, le)
  {
    forall x | x in Sort(s, le) ensures x in s {
      assert x in multiset(Sort(s, le));
    }
    forall x | x in s ensures x in Sort(s, le) {
      assert x in multiset(s);
    }
  }

  /** Of a sorted sequence, an element outside the first n ranks after each of the first n. */
  lemma SortedPrefixFirst<T>(s: seq<T>, n: nat, le: (T, T) -> bool)
    requires SortedBy(s, le) && n <= |s|
    ensures forall x :: x in s && x !in s[..n] ==> forall k :: 0 <= k < n ==> le(s[k], x)
  {
    forall x | x in s && x !in s[..n] ensures forall k :: 0 <= k < n ==> le(s[k], x) {
      var i :| 0 <= i < |s| && s[i] == x;
      assert forall j :: 0 <= j < n ==> s[..n][j] == s[j];
    }
  }

  /** Of a sorted sequence, an element outside the part from n on ranks before each element of that part. */
  lemma SortedSuffixLast<T>(s: seq<T>, n: nat, le: (T, T) -> bool)
    requires SortedBy(s, le) && n <= |s|
    ensures forall x :: x in s && x !in s[n..] ==> forall k :: n <= k < |s| ==> le(x, s[k])
  {
    forall x | x in s && x !in s[n..] ensures forall k :: n <= k < |s| ==> le(x, s[k]) {
      var i :| 0 <= i < |s| && s[i] == x;
      assert forall j :: n <= j < |s| ==> s[n..][j - n] == s[j];
    }
  }

  /** No element occurs twice. */
  predicate NoDuplicates<T(==)>(s: seq<T>) {
    forall i, j :: 0 <= i < j < |s| ==> s[i] != s[j]
  }

  lemma MultisetTwoPositions<T>(s: seq<T>, i: int, j: int)
    requires 0 <= i < j < |s| && s[i] == s[j]
    ensures multiset(s)[s[i]] >= 2
  {
    assert s == s[..i] + [s[i]] + s[i + 1..j] + [s[j]] + s[j + 1..];
  }

  lemma {:induction false} NoDuplicatesOnce<T>(s: seq<T>, x: T)
    requires NoDuplicates(s)
    ensures multiset(s)[x] <= 1
  {
    if s != [] {
      NoDuplicatesOnce(s[1..], x);
      assert s == [s[0]] + s[1..];
      assert s[0] !in s[1..];
    }
  }

  /** A rearrangement of a sequence without duplicates has none either. */
  lemma PermutationNoDuplicates<T>(s: seq<T>, r: seq<T>)
    requires multiset(r) == multiset(s) && NoDuplicates(s)
    ensures NoDuplicates(r)
  {
    forall i, j | 0 <= i < j < |r| ensures r[i] != r[j] {
      if r[i] == r[j] {
        MultisetTwoPositions(r, i, j);
        NoDuplicatesOnce(s, r[i]);
      }
    }
  }

  /** How `Array.prototype.slice` reads one index argument. */
  function JsIndex(len: nat, k: int): (r: nat)
    ensures r <= len
    ensures k >= 0 ==> r == if k < len then k else len
  {
    if k < 0 then (if len + k < 0 then 0 else len + k) else if k > len then len else k
  }

  /** `s.slice(start, end)` with JavaScript's rules for negative and out-of-range indices. */
  function JsSlice<T>(s: seq<T>, start: int, end: int): seq<T> {
    var a := JsIndex(|s|, start);
    var b := JsIndex(|s|, end);
    if a <= b then s[a..b] else []
  }

  function Min(a: int, b: int): int {
    if a <= b then a else b
  }

  /** With non-negative bounds, slice is the window [start, end) clipped to the sequence. */
  lemma JsSliceWindow<T>(s: seq<T>, start: int, end: int)
    requires 0 <= start <= end
    ensures |JsSlice(s, start, end)| == Min(end, |s|) - Min(start, |s|)
    ensures forall k :: 0 <= k < |JsSlice(s, start, end)| ==> JsSlice(s, start, end)[k] == s[start + k]
  {
  }

  /** `s.slice(-n)` for n > 0: the last n elements, or all of them. */
  lemma JsSliceTail<T>(s: seq<T>, n: nat)
    requires n > 0
    ensures JsSlice(s, -(n as int), |s|) == if |s| <= n then s else s[|s| - n..]
  {
  }

  /** Of a sorted list, what a trailing slice (a negative start) leaves out precedes
      everything it keeps. */
  lemma JsSliceTailLast<T>(s: seq<T>, start: int, le: (T, T) -> bool)
    requires SortedBy(s, le) && start < 0
    ensures forall x :: x in s && x !in JsSlice(s, start, |s|) ==>
      forall k :: 0 <= k < |JsSlice(s, start, |s|)| ==> le(x, JsSlice(s, start, |s|)[k])
  {
    var n: nat := -start;
    JsSliceTail(s, n);
    if |s| > n {
      var d := |s| - n;
      var t := s[d..];
      SortedSuffixLast(s, d, le);
      forall x | x in s && x !in t ensures forall k :: 0 <= k < |t| ==> le(x, t[k]) {
        forall k | 0 <= k < |t| ensures le(x, t[k]) {
          assert t[k] == s[d + k];
        }
      }
    }
  }

  /** Every element of a slice comes from the sliced sequence. */
  lemma JsSliceMembers<T>(s: seq<T>, start: int, end: int)
    ensures forall x :: x in JsSlice(s, start, end) ==> x in s
  {
    var a := JsIndex(|s|, start);
    var b := JsIndex(|s|, end);
    if a <= b {
      assert forall k :: 0 <= k < b - a ==> s[a..b][k] == s[a + k];
    }
  }

  /** Of a sorted list, what a leading slice leaves out follows everything it keeps. */
  lemma JsSliceHeadFirst<T>(s: seq<T>, limit: int, le: (T, T) -> bool)
    requires SortedBy(s, le)
    ensures forall x :: x in s && x !in JsSlice(s, 0, limit) ==>
      forall k :: 0 <= k < |JsSlice(s, 0, limit)| ==> le(JsSlice(s, 0, limit)[k], x)
  {
    if limit > 0 {
      var n := Min(|s|, limit);
      assert JsSlice(s, 0, limit) == s[..n];
      SortedPrefixFirst(s, n, le);
    }
  }

  /** A slice of a sorted sequence is sorted. */
  lemma JsSliceSorted<T>(s: seq<T>, start: int, end: int, le: (T, T) -> bool)
    requires SortedBy(s, le)
    ensures SortedBy(JsSlice(s, start, end), le)
  {
    var a := JsIndex(|s|, start);
    var b := JsIndex(|s|, end);
    if a <= b {
      assert forall k :: 0 <= k < b - a ==> s[a..b][k] == s[a + k];
    }
  }
}
