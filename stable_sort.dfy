/** A stable sort by an integer key: the order Collections.sort gives a
    list under a comparator that compares one integer rank, and the order
    Array.prototype.sort gives under a difference comparator. */
module StableSort {

  ghost predicate SortedBy<T>(s: seq<T>, key: T -> int)
  {
    forall i, j :: 0 <= i < j < |s| ==> key(s[i]) <= key(s[j])
  }

  /** The elements of s whose key is k, in their order in s. */
  function WithKey<T>(s: seq<T>, key: T -> int, k: int): (r: seq<T>)
    ensures |r| <= |s|
  {
    if s == [] then []
    else (if key(s[0]) == k then [s[0]] else []) + WithKey(s[1..], key, k)
  }

  /** x goes before the first element whose key is not smaller, so it
      precedes every later element of equal key. */
  function Insert<T>(x: T, s: seq<T>, key: T -> int): (r: seq<T>)
    ensures multiset(r) == multiset(s) + multiset{x}
    ensures |r| == |s| + 1
  {
    if s == [] then [x]
    else if key(x) <= key(s[0]) then [x] + s
    else
      assert s == [s[0]] + s[1..];
      [s[0]] + Insert(x, s[1..], key)
  }

  /** Insertion sort, inserting the head into the sorted tail. */
  function Sort<T>(s: seq<T>, key: T -> int): (r: seq<T>)
    ensures multiset(r) == multiset(s)
    ensures |r| == |s|
  {
    if s == [] then []
    else
      assert s == [s[0]] + s[1..];
      Insert(s[0], Sort(s[1..], key), key)
  }

  lemma SortedByCons<T>(a: T, t: seq<T>, key: T -> int)
    requires SortedBy(t, key)
    requires forall y :: y in t ==> key(a) <= key(y)
    ensures SortedBy([a] + t, key)
  {
    var r := [a] + t;
    forall i, j | 0 <= i < j < |r|
      ensures key(r[i]) <= key(r[j])
    {
      assert r[j] == t[j - 1];
      if i > 0 {
        assert r[i] == t[i - 1];
      }
    }
  }

  lemma SortedByTail<T>(s: seq<T>, key: T -> int)
    requires SortedBy(s, key) && s != []
    ensures SortedBy(s[1..], key)
  {
    var t := s[1..];
    forall i, j | 0 <= i < j < |t|
      ensures key(t[i]) <= key(t[j])
    {
      assert t[i] == s[i + 1] && t[j] == s[j + 1];
    }
  }

  /** The head of a sorted list is not above anything of its tail with x
      inserted, when x is above the head. */
  lemma HeadBelowInsert<T>(x: T, s: seq<T>, key: T -> int)
    requires SortedBy(s, key) && s != [] && key(x) > key(s[0])
    ensures forall y :: y in Insert(x, s[1..], key) ==> key(s[0]) <= key(y)
  {
    var t := s[1..];
    forall y | y in Insert(x, t, key)
      ensures key(s[0]) <= key(y)
    {
      assert y in multiset(Insert(x, t, key));
      if y != x {
        assert y in multiset(t);
        var m :| 0 <= m < |t| && t[m] == y;
        assert s[m + 1] == y;
      }
    }
  }

  lemma {:induction false} InsertSorted<T>(x: T, s: seq<T>, key: T -> int)
    requires SortedBy(s, key)
    ensures SortedBy(Insert(x, s, key), key)
  {
    if s == [] {
    } else if key(x) <= key(s[0]) {
      forall y | y in s
        ensures key(x) <= key(y)
      {
        var m :| 0 <= m < |s| && s[m] == y;
      }
      SortedByCons(x, s, key);
    } else {
      SortedByTail(s, key);
      InsertSorted(x, s[1..], key);
      HeadBelowInsert(x, s, key);
      SortedByCons(s[0], Insert(x, s[1..], key), key);
    }
  }

  /** The result is ascending by key. */
  lemma {:induction false} SortIsSorted<T>(s: seq<T>, key: T -> int)
    ensures SortedBy(Sort(s, key), key)
  {
    if s != [] {
      SortIsSorted(s[1..], key);
      InsertSorted(s[0], Sort(s[1..], key), key);
    }
  }

  lemma WithKeyCons<T>(a: T, t: seq<T>, key: T -> int, k: int)
    ensures WithKey([a] + t, key, k) == (if key(a) == k then [a] else []) + WithKey(t, key, k)
  {
    assert ([a] + t)[1..] == t;
  }

  lemma {:induction false} WithKeyConcat<T>(a: seq<T>, b: seq<T>, key: T -> int, k: int)
    ensures WithKey(a + b, key, k) == WithKey(a, key, k) + WithKey(b, key, k)
    decreases |a|
  {
    if a == [] {
      assert a + b == b;
    } else {
      WithKeyConcat(a[1..], b, key, k);
      assert a + b == [a[0]] + (a[1..] + b);
      WithKeyCons(a[0], a[1..] + b, key, k);
      assert a == [a[0]] + a[1..];
      WithKeyCons(a[0], a[1..], key, k);
    }
  }

  lemma InsertPast<T>(x: T, s: seq<T>, key: T -> int)
    requires s != [] && key(x) > key(s[0])
    ensures Insert(x, s, key) == [s[0]] + Insert(x, s[1..], key)
  {
  }

  /** Two pieces of which one is empty may change places. */
  lemma SwapWhenOneEmpty<T>(a: seq<T>, b: seq<T>, w: seq<T>)
    requires a == [] || b == []
    ensures a + (b + w) == b + (a + w)
  {
    if a == [] {
      assert a + (b + w) == b + w;
      assert a + w == w;
    } else {
      assert b + w == w;
      assert b + (a + w) == a + w;
    }
  }

  /** Inserting x keeps the relative order of each key class, with x at
      the head of its own class. */
  lemma {:induction false} InsertKeepsClasses<T>(x: T, s: seq<T>, key: T -> int, k: int)
    ensures WithKey(Insert(x, s, key), key, k) == WithKey([x] + s, key, k)
  {
    if s != [] && key(x) > key(s[0]) {
      var t := s[1..];
      var hs: seq<T> := if key(s[0]) == k then [s[0]] else [];
      var hx: seq<T> := if key(x) == k then [x] else [];
      InsertKeepsClasses(x, t, key, k);
      InsertPast(x, s, key);
      WithKeyCons(s[0], Insert(x, t, key), key, k);
      WithKeyCons(x, t, key, k);
      assert WithKey(s, key, k) == hs + WithKey(t, key, k);
      WithKeyCons(x, s, key, k);
      SwapWhenOneEmpty(hs, hx, WithKey(t, key, k));
    }
  }

  /** Stability: within each key class the elements keep their input order. */
  lemma {:induction false} SortIsStable<T>(s: seq<T>, key: T -> int, k: int)
    ensures WithKey(Sort(s, key), key, k) == WithKey(s, key, k)
  {
    if s != [] {
      SortIsStable(s[1..], key, k);
      InsertKeepsClasses(s[0], Sort(s[1..], key), key, k);
      WithKeyConcat([s[0]], Sort(s[1..], key), key, k);
      WithKeyConcat([s[0]], s[1..], key, k);
      assert s == [s[0]] + s[1..];
    }
  }

  /** A list whose elements all share one key comes back unchanged. */
  lemma {:induction false} SortOneKeyIsIdentity<T>(s: seq<T>, key: T -> int, k: int)
    requires forall i :: 0 <= i < |s| ==> key(s[i]) == k
    ensures Sort(s, key) == s
  {
    if s != [] {
      SortOneKeyIsIdentity(s[1..], key, k);
      assert s == [s[0]] + s[1..];
    }
  }
}
