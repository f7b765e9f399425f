/**
 * The JavaScript array operations the handlers are written with: `filter`, `find`,
 * `findIndex`, `some`, `slice` (negative indices count from the end) and the stable
 * `Array.prototype.sort` (guaranteed stable since ECMAScript 2019) under a numeric
 * comparator, modelled as a stable insertion sort by a key.
 */
module JsArray {
  import opened Wrappers

  /** `s.filter(f)`: the elements satisfying `f`, in order. */
  function Filter<T>(s: seq<T>, f: T -> bool): (r: seq<T>)
    ensures |r| <= |s|
    ensures forall i :: 0 <= i < |r| ==> f(r[i])
    ensures forall i :: 0 <= i < |r| ==> r[i] in s
    ensures forall i :: 0 <= i < |s| && f(s[i]) ==> s[i] in r
  {
    if s == [] then [] else (if f(s[0]) then [s[0]] else []) + Filter(s[1..], f)
  }

  /** `filter` keeps every copy of an element that satisfies the test and no copy of one that
      does not. */
  lemma {:induction false} FilterCounts<T>(s: seq<T>, f: T -> bool)
    ensures multiset(Filter(s, f)) <= multiset(s)
    ensures forall x | x in s :: multiset(Filter(s, f))[x] == if f(x) then multiset(s)[x] else 0
  {
    if s != [] {
      FilterCounts(s[1..], f);
      FilterStep(s, f, Filter(s[1..], f));
    }
  }

  /** The multiplicities of `filter`, one element further: an element satisfying `f` keeps its
      count, any other drops to none. */
  lemma FilterStep<T>(s: seq<T>, f: T -> bool, t: seq<T>)
    requires s != []
    requires multiset(t) <= multiset(s[1..])
    requires forall x | x in s[1..] :: multiset(t)[x] == if f(x) then multiset(s[1..])[x] else 0
    ensures var r := (if f(s[0]) then [s[0]] else []) + t;
      && multiset(r) <= multiset(s)
      && forall x | x in s :: multiset(r)[x] == if f(x) then multiset(s)[x] else 0
  {
    assert s == [s[0]] + s[1..];
    assert multiset(s) == multiset{s[0]} + multiset(s[1..]);
    var r := (if f(s[0]) then [s[0]] else []) + t;
    assert multiset(r) == multiset(if f(s[0]) then [s[0]] else []) + multiset(t);
    forall x | x in s
      ensures multiset(r)[x] == if f(x) then multiset(s)[x] else 0
    {
      if x !in s[1..] {
        assert multiset(t)[x] == 0;
      }
    }
  }

  lemma FilterConcat<T>(a: seq<T>, b: seq<T>, f: T -> bool)
    ensures Filter(a + b, f) == Filter(a, f) + Filter(b, f)
  {
    if a != [] {
      assert (a + b)[1..] == a[1..] + b;
      FilterConcat(a[1..], b, f);
    } else {
      assert a + b == b;
    }
  }

  /** Filters by predicates that agree everywhere agree. */
  lemma FilterExt<T>(s: seq<T>, f: T -> bool, g: T -> bool)
    requires forall x :: f(x) == g(x)
    ensures Filter(s, f) == Filter(s, g)
  {
    if s != [] {
      FilterExt(s[1..], f, g);
      assert f(s[0]) == g(s[0]);
    }
  }

  /** A filter that keeps everything is the identity. */
  lemma FilterAll<T>(s: seq<T>, f: T -> bool)
    requires forall x :: f(x)
    ensures Filter(s, f) == s
  {
    if s != [] {
      FilterAll(s[1..], f);
      assert f(s[0]);
      assert [s[0]] + s[1..] == s;
    }
  }

  /** A filter keeps every element exactly when everything satisfies it. */
  lemma {:induction false} FilterKeepsAll<T>(s: seq<T>, f: T -> bool)
    ensures |Filter(s, f)| == |s| <==> forall i :: 0 <= i < |s| ==> f(s[i])
  {
    if s != [] {
      FilterKeepsAll(s[1..], f);
      if f(s[0]) {
        forall i | 0 < i < |s|
          ensures s[i] == s[1..][i - 1]
        {
        }
      } else {
        assert |Filter(s[1..], f)| <= |s[1..]|;
      }
    }
  }

  /** A chain of filters is one filter by the conjunction. */
  lemma FilterFilter<T>(s: seq<T>, f: T -> bool, g: T -> bool, h: T -> bool)
    requires forall x :: h(x) == (f(x) && g(x))
    ensures Filter(Filter(s, f), g) == Filter(s, h)
  {
    if s != [] {
      FilterFilter(s[1..], f, g, h);
      assert h(s[0]) == (f(s[0]) && g(s[0]));
      if f(s[0]) {
        assert Filter(s, f) == [s[0]] + Filter(s[1..], f);
        assert Filter(s, f)[1..] == Filter(s[1..], f);
      } else {
        assert Filter(s, f) == Filter(s[1..], f);
      }
    }
  }

  /** `r` is `s` with some elements left out, the rest in their order. */
  predicate Subsequence<T(==)>(r: seq<T>, s: seq<T>) {
    r == [] || (s != [] && ((r[0] == s[0] && Subsequence(r[1..], s[1..])) || Subsequence(r, s[1..])))
  }

  /** A filter keeps the order of what it keeps. */
  lemma {:induction false} FilterSubsequence<T>(s: seq<T>, f: T -> bool)
    ensures Subsequence(Filter(s, f), s)
  {
    if s != [] {
      FilterSubsequence(s[1..], f);
      var r := Filter(s, f);
      if f(s[0]) {
        assert r == [s[0]] + Filter(s[1..], f);
        assert r[0] == s[0] && r[1..] == Filter(s[1..], f);
      } else {
        assert r == Filter(s[1..], f);
      }
    }
  }

  /** `s.findIndex(f)`: the first index satisfying `f`, or `None` for -1. */
  function FindIndex<T>(s: seq<T>, f: T -> bool): (r: Option<nat>)
    ensures r.Some? ==> r.value < |s| && f(s[r.value]) && forall i :: 0 <= i < r.value ==> !f(s[i])
    ensures r.None? ==> forall i :: 0 <= i < |s| ==> !f(s[i])
  {
    if s == [] then None
    else if f(s[0]) then Some(0)
    else match FindIndex(s[1..], f)
      case None => None
      case Some(k) => Some(k + 1)
  }

  /** `s.find(f)`: the first element satisfying `f`. */
  function Find<T>(s: seq<T>, f: T -> bool): (r: Option<T>)
    ensures r.Some? <==> exists i :: 0 <= i < |s| && f(s[i])
    ensures r.Some? ==> f(r.value) && r.value in s
    ensures r.Some? ==> exists i :: 0 <= i < |s| && s[i] == r.value && forall j :: 0 <= j < i ==> !f(s[j])
  {
    match FindIndex(s, f)
    case None => None
    case Some(i) => Some(s[i])
  }

  /** `s.splice(i, 1)` on a copy: removes exactly the element at `i`, the others keep their
      order. */
  function RemoveAt<T>(s: seq<T>, i: nat): (r: seq<T>)
    requires i < |s|
    ensures |r| == |s| - 1
    ensures forall j :: 0 <= j < i ==> r[j] == s[j]
    ensures forall j :: i <= j < |r| ==> r[j] == s[j + 1]
    ensures multiset(r) == multiset(s) - multiset{s[i]}
  {
    assert s == s[..i] + [s[i]] + s[i + 1..];
    s[..i] + s[i + 1..]
  }

  /** Index resolution of `Array.prototype.slice`: negative counts from the end, then clamped. */
  function SliceIndex(i: int, len: nat): (k: nat)
    ensures k <= len
  {
    if i < 0 then (if len + i < 0 then 0 else len + i) else if i > len then len else i
  }

  /** `s.slice(start, end)`. */
  function Slice<T>(s: seq<T>, start: int, end: int): (r: seq<T>)
    ensures var a := SliceIndex(start, |s|); var b := SliceIndex(end, |s|);
      (a < b ==> r == s[a..b]) && (a >= b ==> r == [])
  {
    var a := SliceIndex(start, |s|);
    var b := SliceIndex(end, |s|);
    if a < b then s[a..b] else []
  }

  /** A page of a list: for a non-negative offset and limit, `slice(offset, offset + limit)`
      holds at most `limit` consecutive elements starting at `offset`. */
  lemma SlicePage<T>(s: seq<T>, offset: nat, limit: nat)
    ensures |Slice(s, offset, offset + limit)| <= limit
    ensures offset + limit <= |s| ==> Slice(s, offset, offset + limit) == s[offset..offset + limit]
    ensures offset >= |s| ==> Slice(s, offset, offset + limit) == []
  {
  }

  /** The slice is the run of consecutive elements starting at the resolved start index. */
  lemma SliceElements<T>(s: seq<T>, start: int, end: int)
    ensures var a := SliceIndex(start, |s|);
      forall i :: 0 <= i < |Slice(s, start, end)| ==> a + i < |s| && Slice(s, start, end)[i] == s[a + i]
  {
    var a := SliceIndex(start, |s|);
    var b := SliceIndex(end, |s|);
    if a < b {
      assert Slice(s, start, end) == s[a..b];
    }
  }

  /** Sort keys compared lexicographically (a comparator that breaks ties by a second value). */
  type Key = (int, int)

  predicate KeyLe(a: Key, b: Key) {
    a.0 < b.0 || (a.0 == b.0 && a.1 <= b.1)
  }

  predicate SortedBy<T>(s: seq<T>, key: T -> Key) {
    forall i, j :: 0 <= i < j < |s| ==> KeyLe(key(s[i]), key(s[j]))
  }

  /** The elements whose key is `k`, in order. */
  function WithKey<T>(s: seq<T>, key: T -> Key, k: Key): seq<T> {
    if s == [] then [] else (if key(s[0]) == k then [s[0]] else []) + WithKey(s[1..], key, k)
  }

  /** Inserts `x` before the first element whose key is not smaller. */
  function Insert<T>(x: T, s: seq<T>, key: T -> Key): (r: seq<T>)
    ensures |r| == |s| + 1 && multiset(r) == multiset(s) + multiset{x}
  {
    if s == [] || KeyLe(key(x), key(s[0])) then [x] + s
    else
      assert s == [s[0]] + s[1..];
      [s[0]] + Insert(x, s[1..], key)
  }

  lemma {:induction false} InsertSorted<T>(x: T, s: seq<T>, key: T -> Key)
    requires SortedBy(s, key)
    ensures SortedBy(Insert(x, s, key), key)
  {
    if s != [] && !KeyLe(key(x), key(s[0])) {
      var t := Insert(x, s[1..], key);
      InsertSorted(x, s[1..], key);
      forall i | 0 <= i < |t|
        ensures KeyLe(key(s[0]), key(t[i]))
      {
        assert t[i] in multiset(s[1..]) + multiset{x};
        if t[i] != x {
          assert t[i] in s[1..];
        }
      }
    }
  }

  /** Insertion puts `x` ahead of every element with the same key and disturbs no other
      key's elements. */
  lemma {:induction false} InsertWithKey<T>(x: T, s: seq<T>, key: T -> Key, k: Key)
    ensures WithKey(Insert(x, s, key), key, k) ==
      (if key(x) == k then [x] else []) + WithKey(s, key, k)
  {
    if s == [] || KeyLe(key(x), key(s[0])) {
      assert ([x] + s)[1..] == s;
    } else {
      var r := Insert(x, s, key);
      InsertWithKey(x, s[1..], key, k);
      assert r[1..] == Insert(x, s[1..], key);
    }
  }

  /** `s.sort(cmp)` where `cmp(a, b)` is negative when `key(a)` is lexicographically below
      `key(b)`: the result is in key order and a permutation of `s`. */
  function SortBy<T>(s: seq<T>, key: T -> Key): (r: seq<T>)
    ensures |r| == |s| && multiset(r) == multiset(s)
    ensures SortedBy(r, key)
  {
    if s == [] then []
    else
      var t := SortBy(s[1..], key);
      InsertSorted(s[0], t, key);
      assert s == [s[0]] + s[1..];
      Insert(s[0], t, key)
  }

  /** The sort is stable: the elements of each key keep their original order. */
  lemma {:induction false} SortByStable<T>(s: seq<T>, key: T -> Key, k: Key)
    ensures WithKey(SortBy(s, key), key, k) == WithKey(s, key, k)
  {
    if s != [] {
      SortByStable(s[1..], key, k);
      InsertWithKey(s[0], SortBy(s[1..], key), key, k);
    }
  }

  /** A list already in key order is left as it is. */
  lemma SortBySorted<T>(s: seq<T>, key: T -> Key)
    requires SortedBy(s, key)
    ensures SortBy(s, key) == s
  {
    if s != [] {
      SortBySorted(s[1..], key);
    }
  }
}
