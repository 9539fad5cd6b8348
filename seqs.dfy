/** The two array primitives the task list is built on: `Array.prototype.filter`
    and the stable `Array.prototype.sort` driven by a comparator that subtracts
    the keys of its two arguments. */
module Seqs {

  /** `filter`: the elements of `s` that satisfy `p`, in their original order. */
  function Filter<T(!new)>(s: seq<T>, p: T -> bool): (r: seq<T>)
    ensures |r| <= |s|
  {
    if s == [] then [] else (if p(s[0]) then [s[0]] else []) + Filter(s[1..], p)
  }

  lemma FilterCons<T(!new)>(x: T, s: seq<T>, p: T -> bool)
    ensures Filter([x] + s, p) == (if p(x) then [x] else []) + Filter(s, p)
    ensures p(x) ==> Filter([x] + s, p) == [x] + Filter(s, p)
    ensures !p(x) ==> Filter([x] + s, p) == Filter(s, p)
  {
    assert ([x] + s)[0] == x && ([x] + s)[1..] == s;
  }

  /** Filtering distributes over concatenation, so the kept elements stay in
      their original order. */
  lemma {:induction false} FilterAppend<T(!new)>(a: seq<T>, b: seq<T>, p: T -> bool)
    ensures Filter(a + b, p) == Filter(a, p) + Filter(b, p)
  {
    if a == [] {
      assert a + b == b;
    } else {
      FilterAppend(a[1..], b, p);
      assert a + b == [a[0]] + (a[1..] + b);
      FilterCons(a[0], a[1..] + b, p);
      assert a == [a[0]] + a[1..];
      FilterCons(a[0], a[1..], p);
    }
  }

  /** Each element that satisfies `p` is kept as often as it occurs; no other is kept. */
  lemma {:induction false} FilterMultiset<T(!new)>(s: seq<T>, p: T -> bool)
    ensures forall x :: multiset(Filter(s, p))[x] == if p(x) then multiset(s)[x] else 0
  {
    if s != [] {
      FilterMultiset(s[1..], p);
      assert s == [s[0]] + s[1..];
    }
  }

  lemma FilterMember<T(!new)>(s: seq<T>, p: T -> bool, x: T)
    ensures x in Filter(s, p) <==> x in s && p(x)
  {
    FilterMultiset(s, p);
    assert x in Filter(s, p) <==> x in multiset(Filter(s, p));
  }

  /** Filtering with a predicate every element meets changes nothing. */
  lemma {:induction false} FilterKeepsAll<T(!new)>(s: seq<T>, p: T -> bool)
    requires forall i :: 0 <= i < |s| ==> p(s[i])
    ensures Filter(s, p) == s
  {
    if s != [] {
      FilterKeepsAll(s[1..], p);
    }
  }

  /** Filtering twice with the same predicate is the same as filtering once. */
  lemma {:induction false} FilterIdempotent<T(!new)>(s: seq<T>, p: T -> bool)
    ensures Filter(Filter(s, p), p) == Filter(s, p)
  {
    var r := Filter(s, p);
    forall i | 0 <= i < |r| ensures p(r[i]) {
      FilterMember(s, p, r[i]);
    }
    FilterKeepsAll(r, p);
  }

  /** Filters with predicates that agree on every value give the same result. */
  lemma {:induction false} FilterCongruent<T(!new)>(s: seq<T>, p: T -> bool, q: T -> bool)
    requires forall i :: 0 <= i < |s| ==> p(s[i]) == q(s[i])
    ensures Filter(s, p) == Filter(s, q)
  {
    if s != [] {
      FilterCongruent(s[1..], p, q);
    }
  }

  /** Filtering by `p` and then by `q` is filtering by their conjunction `pq`. */
  lemma {:induction false} FilterThenFilter<T(!new)>(s: seq<T>, p: T -> bool, q: T -> bool, pq: T -> bool)
    requires forall x :: pq(x) == (p(x) && q(x))
    ensures Filter(Filter(s, p), q) == Filter(s, pq)
  {
    if s != [] {
      FilterThenFilter(s[1..], p, q, pq);
      var rest := Filter(s[1..], p);
      if p(s[0]) {
        var fp := [s[0]] + rest;
        assert Filter(s, p) == fp;
        assert fp[0] == s[0] && fp[1..] == rest;
        assert Filter(fp, q) == (if q(s[0]) then [s[0]] else []) + Filter(rest, q);
      } else {
        assert Filter(s, p) == rest;
      }
    }
  }

  /** A sort key compared lexicographically; a comparator `key(a) - key(b)` with
      a one-part key uses `minor == 0`. */
  datatype Key = Key(major: int, minor: int)

  predicate Less(a: Key, b: Key) {
    a.major < b.major || (a.major == b.major && a.minor < b.minor)
  }

  predicate LessEq(a: Key, b: Key) {
    !Less(b, a)
  }

  predicate SortedBy<T(!new)>(s: seq<T>, key: T -> Key) {
    forall i, j :: 0 <= i < j < |s| ==> LessEq(key(s[i]), key(s[j]))
  }

  /** The predicate "has key `k`". */
  function HasKey<T(!new)>(key: T -> Key, k: Key): T -> bool {
    x => key(x) == k
  }

  /** Inserts `x` in front of the first element whose key is not below `x`'s. */
  function Insert<T(!new)>(x: T, s: seq<T>, key: T -> Key): (r: seq<T>)
    ensures multiset(r) == multiset(s) + multiset{x}
  {
    if s == [] then [x]
    else if Less(key(s[0]), key(x)) then
      assert s == [s[0]] + s[1..];
      [s[0]] + Insert(x, s[1..], key)
    else
      [x] + s
  }

  lemma {:induction false} InsertSorted<T(!new)>(x: T, s: seq<T>, key: T -> Key)
    requires SortedBy(s, key)
    ensures SortedBy(Insert(x, s, key), key)
  {
    if s != [] && Less(key(s[0]), key(x)) {
      InsertSorted(x, s[1..], key);
      assert forall i :: 0 <= i < |s| - 1 ==> s[1..][i] == s[i + 1];
      InsertAbove(x, s[1..], key, key(s[0]));
      SortedCons(s[0], Insert(x, s[1..], key), key);
    }
  }

  /** Inserting `x` keeps every element at or above a bound that `x` and all of
      `s` meet. */
  lemma InsertAbove<T(!new)>(x: T, s: seq<T>, key: T -> Key, lo: Key)
    requires LessEq(lo, key(x)) && forall i :: 0 <= i < |s| ==> LessEq(lo, key(s[i]))
    ensures forall i :: 0 <= i < |Insert(x, s, key)| ==> LessEq(lo, key(Insert(x, s, key)[i]))
  {
    var r := Insert(x, s, key);
    forall i | 0 <= i < |r| ensures LessEq(lo, key(r[i])) {
      assert r[i] in multiset(r);
      if r[i] != x {
        assert r[i] in multiset(s);
      }
    }
  }

  /** A sorted list stays sorted when an element no greater than all of it goes in front. */
  lemma SortedCons<T(!new)>(h: T, rest: seq<T>, key: T -> Key)
    requires SortedBy(rest, key) && forall i :: 0 <= i < |rest| ==> LessEq(key(h), key(rest[i]))
    ensures SortedBy([h] + rest, key)
  {
    var r := [h] + rest;
    forall i, j | 0 <= i < j < |r| ensures LessEq(key(r[i]), key(r[j])) {
      assert r[j] == rest[j - 1];
      if i > 0 {
        assert r[i] == rest[i - 1];
      }
    }
  }

  /** The stable sort by `key`: a permutation of `s`, ordered by key. */
  function SortBy<T(!new)>(s: seq<T>, key: T -> Key): (r: seq<T>)
    ensures multiset(r) == multiset(s)
    ensures SortedBy(r, key)
  {
    if s == [] then []
    else
      assert s == [s[0]] + s[1..];
      InsertSorted(s[0], SortBy(s[1..], key), key);
      Insert(s[0], SortBy(s[1..], key), key)
  }

  lemma {:induction false} InsertFilterKey<T(!new)>(x: T, s: seq<T>, key: T -> Key, k: Key)
    ensures Filter(Insert(x, s, key), HasKey(key, k))
         == (if key(x) == k then [x] else []) + Filter(s, HasKey(key, k))
  {
    var p := HasKey(key, k);
    if s == [] {
      FilterCons(x, [], p);
      assert [x] + [] == [x];
    } else if Less(key(s[0]), key(x)) {
      InsertFilterKey(x, s[1..], key, k);
      InsertFilterKeyPast(x, s, key, k);
    } else {
      FilterCons(x, s, p);
    }
  }

  /** The step of `InsertFilterKey` where `x` moves past the smaller `s[0]`. */
  lemma InsertFilterKeyPast<T(!new)>(x: T, s: seq<T>, key: T -> Key, k: Key)
    requires s != [] && Less(key(s[0]), key(x))
    requires Filter(Insert(x, s[1..], key), HasKey(key, k))
          == (if key(x) == k then [x] else []) + Filter(s[1..], HasKey(key, k))
    ensures Filter(Insert(x, s, key), HasKey(key, k))
         == (if key(x) == k then [x] else []) + Filter(s, HasKey(key, k))
  {
    assert Insert(x, s, key) == [s[0]] + Insert(x, s[1..], key);
    assert s == [s[0]] + s[1..];
    assert HasKey(key, k)(s[0]) ==> key(x) != k;
    FilterPast(s[0], Insert(x, s[1..], key), s[1..], if key(x) == k then [x] else [], HasKey(key, k));
  }

  /** Putting `y` in front of both lists keeps `pre` in front, provided `pre` has
      nothing when `y` itself is kept. */
  lemma FilterPast<T(!new)>(y: T, rest: seq<T>, t: seq<T>, pre: seq<T>, p: T -> bool)
    requires Filter(rest, p) == pre + Filter(t, p)
    requires p(y) ==> pre == []
    ensures Filter([y] + rest, p) == pre + Filter([y] + t, p)
  {
    FilterCons(y, rest, p);
    FilterCons(y, t, p);
    if p(y) {
      assert pre == [];
      assert pre + ([y] + Filter(t, p)) == [y] + Filter(t, p);
    }
  }

  /** Stability: the elements of any one key keep their original relative order. */
  lemma {:induction false} SortByStable<T(!new)>(s: seq<T>, key: T -> Key, k: Key)
    ensures Filter(SortBy(s, key), HasKey(key, k)) == Filter(s, HasKey(key, k))
  {
    if s != [] {
      SortByStable(s[1..], key, k);
      InsertFilterKey(s[0], SortBy(s[1..], key), key, k);
    }
  }

  /** A sequence whose elements all share one key is left as it is. */
  lemma SortByEqualKeys<T(!new)>(s: seq<T>, key: T -> Key, k: Key)
    requires forall i :: 0 <= i < |s| ==> key(s[i]) == k
    ensures SortBy(s, key) == s
  {
    var r := SortBy(s, key);
    forall i | 0 <= i < |r| ensures HasKey(key, k)(r[i]) {
      assert r[i] in multiset(s);
    }
    FilterKeepsAll(r, HasKey(key, k));
    FilterKeepsAll(s, HasKey(key, k));
    SortByStable(s, key, k);
  }
}
