/** LINQ's `OrderByDescending`, `Skip` and `Take` as the service uses them.

    `OrderByDescending` is a stable sort: elements with equal keys keep their
    input order. It is modelled by an insertion sort and specified by three
    facts: the result is non-increasing in the key, it is a permutation of the
    input, and for every key value the elements carrying that value appear in
    the same relative order as in the input. */
module Ordering {
  import opened Domain

  ghost predicate SortedDesc<T>(s: seq<T>, key: T -> int) {
    forall i, j :: 0 <= i < j < |s| ==> key(s[i]) >= key(s[j])
  }

  /** The elements of `s` whose key is `v`, in their order in `s`. */
  function WithKey<T>(s: seq<T>, key: T -> int, v: int): seq<T> {
    if s == [] then []
    else (if key(s[0]) == v then [s[0]] else []) + WithKey(s[1..], key, v)
  }

  /** Inserts `x` before the first element whose key is not larger. */
  function InsertDesc<T>(x: T, s: seq<T>, key: T -> int): seq<T> {
    if s == [] || key(x) >= key(s[0]) then [x] + s
    else [s[0]] + InsertDesc(x, s[1..], key)
  }

  lemma {:induction false} InsertDescPermutes<T>(x: T, s: seq<T>, key: T -> int)
    ensures |InsertDesc(x, s, key)| == |s| + 1
    ensures multiset(InsertDesc(x, s, key)) == multiset(s) + multiset{x}
  {
    if s != [] && key(x) < key(s[0]) {
      InsertDescPermutes(x, s[1..], key);
      assert s == [s[0]] + s[1..];
    }
  }

  lemma {:induction false} InsertDescSorted<T>(x: T, s: seq<T>, key: T -> int)
    requires SortedDesc(s, key)
    ensures SortedDesc(InsertDesc(x, s, key), key)
    ensures s != [] ==> InsertDesc(x, s, key)[0] == x || InsertDesc(x, s, key)[0] == s[0]
  {
    if s != [] && key(x) < key(s[0]) {
      InsertDescSorted(x, s[1..], key);
      InsertDescPermutes(x, s[1..], key);
      var r := InsertDesc(x, s[1..], key);
      assert key(s[0]) >= key(r[0]);
      assert InsertDesc(x, s, key) == [s[0]] + r;
    }
  }

  /** `OrderByDescending(key)`. */
  function SortDesc<T>(s: seq<T>, key: T -> int): (r: seq<T>)
    ensures |r| == |s|
    ensures multiset(r) == multiset(s)
    ensures SortedDesc(r, key)
  {
    if s == [] then []
    else
      InsertDescPermutes(s[0], SortDesc(s[1..], key), key);
      InsertDescSorted(s[0], SortDesc(s[1..], key), key);
      assert s == [s[0]] + s[1..];
      InsertDesc(s[0], SortDesc(s[1..], key), key)
  }

  lemma SortedTail<T>(s: seq<T>, key: T -> int)
    requires s != [] && SortedDesc(s, key)
    ensures SortedDesc(s[1..], key)
    ensures forall j :: 1 <= j < |s| ==> key(s[0]) >= key(s[j])
  {
  }

  lemma {:induction false} WithKeyInsert<T>(x: T, s: seq<T>, key: T -> int, v: int)
    requires SortedDesc(s, key)
    ensures WithKey(InsertDesc(x, s, key), key, v)
         == (if key(x) == v then [x] else []) + WithKey(s, key, v)
  {
    if s == [] || key(x) >= key(s[0]) {
      assert ([x] + s)[1..] == s;
    } else {
      SortedTail(s, key);
      WithKeyInsert(x, s[1..], key, v);
      var rest := InsertDesc(x, s[1..], key);
      var r := [s[0]] + rest;
      assert r[0] == s[0] && r[1..] == rest;
      assert WithKey(r, key, v) == (if key(s[0]) == v then [s[0]] else []) + WithKey(rest, key, v);
      if key(x) == v {
        // s[0] has a larger key than x, so it is not among the elements with key v.
        assert key(s[0]) != v;
      }
    }
  }

  /** Stability: sorting keeps the relative order of elements with equal keys. */
  lemma {:induction false} SortDescStable<T>(s: seq<T>, key: T -> int, v: int)
    ensures WithKey(SortDesc(s, key), key, v) == WithKey(s, key, v)
  {
    if s != [] {
      SortDescStable(s[1..], key, v);
      WithKeyInsert(s[0], SortDesc(s[1..], key), key, v);
    }
  }

  /** The first element of `WithKey(s, key, v)` is the first element of `s`
      whose key is `v`. */
  lemma {:induction false} WithKeyHead<T>(s: seq<T>, key: T -> int, v: int)
    requires WithKey(s, key, v) != []
    ensures exists i :: (0 <= i < |s| && s[i] == WithKey(s, key, v)[0] && key(s[i]) == v
      && forall k :: 0 <= k < i ==> key(s[k]) != v)
  {
    if key(s[0]) != v {
      WithKeyHead(s[1..], key, v);
      var i :| 0 <= i < |s[1..]| && s[1..][i] == WithKey(s[1..], key, v)[0] && key(s[1..][i]) == v
        && forall k :: 0 <= k < i ==> key(s[1..][k]) != v;
      assert s[i + 1] == s[1..][i];
      assert forall k :: 1 <= k < i + 1 ==> s[k] == s[1..][k - 1];
    } else {
      assert WithKey(s, key, v)[0] == s[0];
    }
  }

  /** `OrderByDescending(key).First()`: the first element of `s` among those
      with the largest key. */
  lemma SortDescHead<T>(s: seq<T>, key: T -> int)
    requires s != []
    ensures exists i :: (0 <= i < |s| && s[i] == SortDesc(s, key)[0]
      && (forall k :: 0 <= k < |s| ==> key(s[k]) <= key(s[i]))
      && (forall k :: 0 <= k < i ==> key(s[k]) < key(s[i])))
  {
    SortDescMax(s, key);
    var o := SortDesc(s, key);
    SortDescStable(s, key, key(o[0]));
    FirstWithKey(s, o, key);
  }

  /** When `o` keeps the order of the elements of `s` with the key of `o[0]`,
      `o[0]` is the first of them in `s`. */
  lemma FirstWithKey<T>(s: seq<T>, o: seq<T>, key: T -> int)
    requires o != [] && WithKey(o, key, key(o[0])) == WithKey(s, key, key(o[0]))
    ensures exists i :: (0 <= i < |s| && s[i] == o[0] && forall k :: 0 <= k < i ==> key(s[k]) != key(o[0]))
  {
    WithKeyFirst(o, key);
    WithKeyHead(s, key, key(o[0]));
  }

  lemma WithKeyFirst<T>(s: seq<T>, key: T -> int)
    requires s != []
    ensures WithKey(s, key, key(s[0])) != [] && WithKey(s, key, key(s[0]))[0] == s[0]
  {
  }

  /** No element of `s` has a larger key than the head of the sorted sequence. */
  lemma SortDescMax<T>(s: seq<T>, key: T -> int)
    requires s != []
    ensures forall k :: 0 <= k < |s| ==> key(s[k]) <= key(SortDesc(s, key)[0])
  {
    var o := SortDesc(s, key);
    SortedTail(o, key);
    forall k | 0 <= k < |s| ensures key(s[k]) <= key(o[0]) {
      assert s[k] in multiset(o);
    }
  }

  /** `Take(n)`: the first `n` elements, none when `n` is not positive. */
  function Take<T>(s: seq<T>, n: int): (r: seq<T>)
    ensures |r| == if n <= 0 then 0 else if n < |s| then n else |s|
    ensures r == s[..|r|]
  {
    if n <= 0 then [] else if n >= |s| then s else s[..n]
  }

  /** How many elements `Skip(n)` drops from a sequence of length `len`. */
  function Skipped(n: int, len: nat): (k: nat)
    ensures k <= len
  {
    if n <= 0 then 0 else if n < len then n else len
  }

  /** `Skip(n)`: all but the first `n` elements, all of them when `n` is not
      positive. */
  function Skip<T>(s: seq<T>, n: int): (r: seq<T>)
    ensures r == s[Skipped(n, |s|)..]
  {
    if n <= 0 then s else if n >= |s| then [] else s[n..]
  }

  /** The offset `(page - 1) * pageSize`, computed in unchecked 32-bit `int`
      arithmetic. */
  function PageOffset(page: Int32, pageSize: Int32): (n: Int32)
    ensures IsInt32Product(page, pageSize) ==> n == (page - 1) * pageSize
  {
    Wrap32(Wrap32(page - 1) * pageSize)
  }

  /** `(page - 1) * pageSize` needs no wrap-around. */
  predicate IsInt32Product(page: Int32, pageSize: Int32) {
    page > -0x8000_0000 && -0x8000_0000 <= (page - 1) * pageSize < 0x8000_0000
  }

  /** Page `page` of size `pageSize`: `Skip((page - 1) * pageSize).Take(pageSize)`,
      the contiguous slice of at most `pageSize` elements after the skipped ones. */
  function Page<T>(s: seq<T>, page: Int32, pageSize: Int32): (r: seq<T>)
    ensures var k := Skipped(PageOffset(page, pageSize), |s|);
      |r| == (if pageSize <= 0 then 0 else if pageSize < |s| - k then pageSize else |s| - k)
      && r == s[k..k + |r|]
  {
    Take(Skip(s, PageOffset(page, pageSize)), pageSize)
  }

  /** A page number far enough out makes the offset wrap around to 0, so the
      first page comes back: 65536 * 65536 is 2^32. */
  lemma PageWrapsAround<T>(s: seq<T>)
    ensures Page(s, 65537, 65536) == Take(s, 65536)
  {
    assert PageOffset(65537, 65536) == 0;
  }

  // Counting.

  /** The positions of `s` whose element satisfies `p`. */
  function Positions<T>(s: seq<T>, p: T -> bool): set<int> {
    set i | 0 <= i < |s| && p(s[i])
  }

  /** `Count(p)`: the number of positions of `s` whose element satisfies `p`. */
  function Count<T(!new)>(s: seq<T>, p: T -> bool): (n: nat)
    ensures n == |Positions(s, p)|
    ensures n <= |s|
    ensures n == 0 <==> forall x :: x in s ==> !p(x)
  {
    if s == [] then 0
    else
      var init := s[..|s| - 1];
      var last := s[|s| - 1];
      assert Positions(s, p) == Positions(init, p) + (if p(last) then {|init|} else {});
      assert forall x :: x in s <==> x in init || x == last;
      Count(init, p) + (if p(last) then 1 else 0)
  }

  /** `Where(p)`: the elements satisfying `p`, in their order in `s`. */
  function Where<T>(s: seq<T>, p: T -> bool): seq<T> {
    if s == [] then []
    else Where(s[..|s| - 1], p) + (if p(s[|s| - 1]) then [s[|s| - 1]] else [])
  }

  /** `Where` keeps exactly the elements that satisfy `p`. */
  lemma {:induction false} WhereMembers<T(!new)>(s: seq<T>, p: T -> bool)
    ensures forall x :: x in Where(s, p) <==> x in s && p(x)
  {
    if s != [] {
      var init, last := s[..|s| - 1], s[|s| - 1];
      WhereMembers(init, p);
      assert s == init + [last];
    }
  }

  /** `Where` keeps one element per position that satisfies `p`. */
  lemma {:induction false} WhereCount<T(!new)>(s: seq<T>, p: T -> bool)
    ensures |Where(s, p)| == Count(s, p)
  {
    if s != [] {
      WhereCount(s[..|s| - 1], p);
    }
  }

  /** `Where` keeps the order: filtering a concatenation filters its parts
      one after the other. */
  lemma {:induction false} WhereAppend<T>(a: seq<T>, b: seq<T>, p: T -> bool)
    ensures Where(a + b, p) == Where(a, p) + Where(b, p)
    decreases |b|
  {
    if b == [] {
      assert a + b == a;
    } else {
      var init, last := b[..|b| - 1], b[|b| - 1];
      WhereAppend(a, init, p);
      var ab := a + b;
      assert ab[..|ab| - 1] == a + init && ab[|ab| - 1] == last;
    }
  }

  /** `x` occurs in `s` before an occurrence of `y`. */
  ghost predicate Precedes<T>(s: seq<T>, x: T, y: T) {
    exists a, b :: 0 <= a < b < |s| && s[a] == x && s[b] == y
  }

  /** `Where` keeps the order: any two kept elements come from positions of
      `s` in the same order. */
  lemma {:induction false} WhereOrder<T(!new)>(s: seq<T>, p: T -> bool)
    ensures forall i, j :: 0 <= i < j < |Where(s, p)| ==> Precedes(s, Where(s, p)[i], Where(s, p)[j])
  {
    if s != [] {
      var init, last := s[..|s| - 1], s[|s| - 1];
      WhereOrder(init, p);
      WhereMembers(init, p);
      var w, wi := Where(s, p), Where(init, p);
      assert w == wi + (if p(last) then [last] else []);
      forall i, j | 0 <= i < j < |w|
        ensures Precedes(s, w[i], w[j])
      {
        if j < |wi| {
          assert Precedes(init, wi[i], wi[j]);
          var a, b :| 0 <= a < b < |init| && init[a] == wi[i] && init[b] == wi[j];
          assert s[a] == w[i] && s[b] == w[j];
        } else {
          assert w[i] == wi[i] && wi[i] in init;
          var a :| 0 <= a < |init| && init[a] == wi[i];
          assert s[a] == w[i] && s[|s| - 1] == w[j];
        }
      }
    }
  }
}
