/**
 * Array.prototype.sort with a comparator of the form (a, b) => key(b) - key(a): a stable sort
 * into non-increasing key order. ECMAScript requires sort to be stable, so elements with
 * equal keys keep their original relative order. Modelled as insertion sort.
 */
module Sorting {

  predicate SortedDesc<T>(s: seq<T>, key: T -> int) {
    forall i, j :: 0 <= i < j < |s| ==> key(s[i]) >= key(s[j])
  }

  /** Places x after every element whose key is at least key(x). */
  function Insert<T>(x: T, s: seq<T>, key: T -> int): seq<T> {
    if s == [] then [x]
    else if key(s[0]) >= key(x) then [s[0]] + Insert(x, s[1..], key)
    else [x] + s
  }

  function SortDesc<T>(s: seq<T>, key: T -> int): seq<T> {
    if s == [] then [] else Insert(s[|s| - 1], SortDesc(s[..|s| - 1], key), key)
  }

  /** The elements of s whose key is k, in order. */
  function WithKey<T>(s: seq<T>, key: T -> int, k: int): seq<T> {
    if s == [] then []
    else (if key(s[0]) == k then [s[0]] else []) + WithKey(s[1..], key, k)
  }

  lemma {:induction false} InsertMembers<T>(x: T, s: seq<T>, key: T -> int)
    ensures multiset(Insert(x, s, key)) == multiset(s) + multiset{x}
    ensures |Insert(x, s, key)| == |s| + 1
    ensures forall y :: y in Insert(x, s, key) <==> y in s || y == x
  {
    if s != [] && key(s[0]) >= key(x) {
      InsertMembers(x, s[1..], key);
      assert s == [s[0]] + s[1..];
    }
  }

  lemma {:induction false} InsertMember<T>(x: T, s: seq<T>, key: T -> int, y: T)
    requires y in Insert(x, s, key)
    ensures y in s || y == x
  {
    if s != [] && key(s[0]) >= key(x) && y != s[0] {
      assert y in Insert(x, s[1..], key);
      InsertMember(x, s[1..], key, y);
    }
  }

  lemma {:induction false} InsertSorted<T>(x: T, s: seq<T>, key: T -> int)
    requires SortedDesc(s, key)
    ensures SortedDesc(Insert(x, s, key), key)
  {
    if s != [] && key(s[0]) >= key(x) {
      var r := Insert(x, s[1..], key);
      InsertSorted(x, s[1..], key);
      InsertMembers(x, s[1..], key);
      forall y | y in r ensures key(s[0]) >= key(y) {
        InsertMember(x, s[1..], key, y);
        if y != x {
          var m :| 0 <= m < |s[1..]| && s[1..][m] == y;
          assert s[m + 1] == y;
        }
      }
      var t := [s[0]] + r;
      forall i, j | 0 <= i < j < |t| ensures key(t[i]) >= key(t[j]) {
        assert t[j] == r[j - 1];
        assert t[j] in r;
        if i > 0 {
          assert t[i] == r[i - 1];
        }
      }
    }
  }

  /** The sort yields a non-increasing sequence that is a permutation of its input. */
  lemma {:induction false} SortDescFacts<T>(s: seq<T>, key: T -> int)
    ensures SortedDesc(SortDesc(s, key), key)
    ensures multiset(SortDesc(s, key)) == multiset(s)
    ensures |SortDesc(s, key)| == |s|
  {
    if s != [] {
      var init := s[..|s| - 1];
      SortDescFacts(init, key);
      InsertSorted(s[|s| - 1], SortDesc(init, key), key);
      InsertMembers(s[|s| - 1], SortDesc(init, key), key);
      assert s == init + [s[|s| - 1]];
    }
  }

  /** The first element of the sort is an element with the greatest key. */
  lemma SortDescFirstIsMax<T>(s: seq<T>, key: T -> int)
    requires s != []
    ensures SortDesc(s, key) != [] && SortDesc(s, key)[0] in s
    ensures forall c :: c in s ==> key(c) <= key(SortDesc(s, key)[0])
  {
    var sorted := SortDesc(s, key);
    SortDescFacts(s, key);
    assert sorted[0] in multiset(s);
    forall c | c in s ensures key(c) <= key(sorted[0]) {
      assert c in multiset(sorted);
      var k :| 0 <= k < |sorted| && sorted[k] == c;
      assert k == 0 || key(sorted[0]) >= key(sorted[k]);
    }
  }

  lemma {:induction false} WithKeyAppend<T>(a: seq<T>, b: seq<T>, key: T -> int, k: int)
    ensures WithKey(a + b, key, k) == WithKey(a, key, k) + WithKey(b, key, k)
  {
    if a != [] {
      WithKeyAppend(a[1..], b, key, k);
      assert (a + b)[1..] == a[1..] + b;
    } else {
      assert a + b == b;
    }
  }

  lemma {:induction false} WithKeyNone<T>(s: seq<T>, key: T -> int, k: int)
    requires forall i :: 0 <= i < |s| ==> key(s[i]) < k
    ensures WithKey(s, key, k) == []
  {
    if s != [] {
      WithKeyNone(s[1..], key, k);
    }
  }

  lemma SortedTail<T>(s: seq<T>, key: T -> int)
    requires SortedDesc(s, key) && s != []
    ensures SortedDesc(s[1..], key)
  {
  }

  /** Putting the same element in front of both sides keeps an equation between selections. */
  lemma ConsStable<T>(a: T, t: seq<T>, r: seq<T>, key: T -> int, k: int, extra: seq<T>)
    requires WithKey(r, key, k) == WithKey(t, key, k) + extra
    ensures WithKey([a] + r, key, k) == WithKey([a] + t, key, k) + extra
  {
    WithKeyAppend([a], r, key, k);
    WithKeyAppend([a], t, key, k);
  }

  lemma WithKeyOne<T>(x: T, key: T -> int, k: int)
    ensures WithKey([x], key, k) == if key(x) == k then [x] else []
  {
    assert WithKey([x], key, k) == (if key(x) == k then [x] else []) + WithKey([], key, k);
  }

  /** Inserting in front of a sorted sequence whose head has a smaller key. */
  lemma InsertFrontStable<T>(x: T, s: seq<T>, key: T -> int, k: int)
    requires SortedDesc(s, key) && s != [] && key(s[0]) < key(x)
    ensures WithKey([x] + s, key, k) == WithKey(s, key, k) + (if key(x) == k then [x] else [])
  {
    WithKeyAppend([x], s, key, k);
    WithKeyOne(x, key, k);
    if key(x) == k {
      forall i | 0 <= i < |s| ensures key(s[i]) < k {
        assert i == 0 || key(s[0]) >= key(s[i]);
      }
      WithKeyNone(s, key, k);
    }
  }

  lemma {:induction false} InsertStable<T>(x: T, s: seq<T>, key: T -> int, k: int)
    requires SortedDesc(s, key)
    ensures WithKey(Insert(x, s, key), key, k)
         == WithKey(s, key, k) + (if key(x) == k then [x] else [])
  {
    if s == [] {
      assert Insert(x, s, key) == [x];
      WithKeyOne(x, key, k);
    } else if key(s[0]) >= key(x) {
      var r := Insert(x, s[1..], key);
      assert Insert(x, s, key) == [s[0]] + r;
      SortedTail(s, key);
      InsertStable(x, s[1..], key, k);
      ConsStable(s[0], s[1..], r, key, k, if key(x) == k then [x] else []);
      assert s == [s[0]] + s[1..];
    } else {
      assert Insert(x, s, key) == [x] + s;
      InsertFrontStable(x, s, key, k);
    }
  }

  /** Stability: for every key value, the elements with that key appear in the sorted
      sequence in the same order as in the input. */
  lemma {:induction false} SortDescStable<T>(s: seq<T>, key: T -> int, k: int)
    ensures WithKey(SortDesc(s, key), key, k) == WithKey(s, key, k)
  {
    if s != [] {
      var init := s[..|s| - 1];
      var x := s[|s| - 1];
      SortDescStable(init, key, k);
      SortDescFacts(init, key);
      InsertStable(x, SortDesc(init, key), key, k);
      assert s == init + [x];
      WithKeyAppend(init, [x], key, k);
    }
  }
}
