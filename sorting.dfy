/** Python's built-in `sorted(xs, key=...)` for string keys: a stable sort
    under Python's ordering of strings. */
module Sorting {
  import opened Text

  /** `s` is in ascending `key` order (Python's `<=` on strings). */
  ghost predicate SortedBy<T>(s: seq<T>, key: T -> string) {
    forall i, j :: 0 <= i < j < |s| ==> LexLeq(key(s[i]), key(s[j]))
  }

  /** The elements of `s` whose key is `k`, in their order in `s`. */
  function WithKey<T>(s: seq<T>, key: T -> string, k: string): seq<T> {
    if s == [] then [] else (if key(s[0]) == k then [s[0]] else []) + WithKey(s[1..], key, k)
  }

  /** Inserts `x` before the first element whose key is not smaller. */
  function Insert<T>(x: T, s: seq<T>, key: T -> string): seq<T>
    decreases |s|
  {
    if s == [] || LexLeq(key(x), key(s[0])) then [x] + s
    else [s[0]] + Insert(x, s[1..], key)
  }

  lemma {:induction false} InsertMultiset<T>(x: T, s: seq<T>, key: T -> string)
    ensures multiset(Insert(x, s, key)) == multiset(s) + multiset{x}
    decreases |s|
  {
    if s != [] && !LexLeq(key(x), key(s[0])) {
      InsertMultiset(x, s[1..], key);
      assert s == [s[0]] + s[1..];
    }
  }

  /** Every key in `s` is at least `b`. */
  ghost predicate AllAtLeast<T>(s: seq<T>, key: T -> string, b: string) {
    forall i :: 0 <= i < |s| ==> LexLeq(b, key(s[i]))
  }

  lemma {:induction false} InsertAtLeast<T>(x: T, s: seq<T>, key: T -> string, b: string)
    requires AllAtLeast(s, key, b) && LexLeq(b, key(x))
    ensures AllAtLeast(Insert(x, s, key), key, b)
    decreases |s|
  {
    if s != [] && !LexLeq(key(x), key(s[0])) {
      InsertAtLeast(x, s[1..], key, b);
      var r := Insert(x, s, key);
      assert r == [s[0]] + Insert(x, s[1..], key);
      forall i | 0 <= i < |r| ensures LexLeq(b, key(r[i])) {
        if i > 0 {
          assert r[i] == Insert(x, s[1..], key)[i - 1];
        }
      }
    }
  }

  /** A sequence is sorted when its head is at most everything after it and
      its tail is sorted. */
  lemma ConsSorted<T>(y: T, t: seq<T>, key: T -> string)
    requires AllAtLeast(t, key, key(y)) && SortedBy(t, key)
    ensures SortedBy([y] + t, key)
  {
    var r := [y] + t;
    forall i, j | 0 <= i < j < |r| ensures LexLeq(key(r[i]), key(r[j])) {
      if i == 0 {
        assert r[j] == t[j - 1];
      } else {
        assert r[i] == t[i - 1] && r[j] == t[j - 1];
      }
    }
  }

  lemma {:induction false} InsertSorted<T>(x: T, s: seq<T>, key: T -> string)
    requires SortedBy(s, key)
    ensures SortedBy(Insert(x, s, key), key)
    decreases |s|
  {
    if s == [] || LexLeq(key(x), key(s[0])) {
      forall i | 0 <= i < |s| ensures LexLeq(key(x), key(s[i])) {
        if i > 0 {
          LexLeqTransitive(key(x), key(s[0]), key(s[i]));
        }
      }
      ConsSorted(x, s, key);
    } else {
      var tail := s[1..];
      assert AllAtLeast(tail, key, key(s[0])) by {
        forall i | 0 <= i < |tail| ensures LexLeq(key(s[0]), key(tail[i])) {
          assert tail[i] == s[i + 1];
        }
      }
      LexLeqTotal(key(x), key(s[0]));
      InsertAtLeast(x, tail, key, key(s[0]));
      InsertSorted(x, tail, key);
      ConsSorted(s[0], Insert(x, tail, key), key);
    }
  }

  lemma WithKeyCons<T>(y: T, t: seq<T>, key: T -> string, k: string)
    ensures WithKey([y] + t, key, k) == (if key(y) == k then [y] else []) + WithKey(t, key, k)
  {
    assert ([y] + t)[1..] == t;
  }

  /** Inserting adds `x` in front of the elements with its key: the elements
      with any one key keep their order. */
  lemma {:induction false} InsertWithKey<T>(x: T, s: seq<T>, key: T -> string, k: string)
    ensures WithKey(Insert(x, s, key), key, k) == (if key(x) == k then [x] else []) + WithKey(s, key, k)
    decreases |s|
  {
    if s == [] || LexLeq(key(x), key(s[0])) {
      WithKeyCons(x, s, key, k);
    } else {
      var rest := Insert(x, s[1..], key);
      assert Insert(x, s, key) == [s[0]] + rest;
      InsertWithKey(x, s[1..], key, k);
      WithKeyCons(s[0], rest, key, k);
      WithKeyCons(s[0], s[1..], key, k);
      assert [s[0]] + s[1..] == s;
      if key(x) == k {
        assert key(s[0]) != k;
      } else {
        assert WithKey(rest, key, k) == WithKey(s[1..], key, k);
      }
    }
  }

  /** Python's `sorted(s, key=key)`, as an insertion sort. */
  function SortBy<T>(s: seq<T>, key: T -> string): seq<T> {
    if s == [] then [] else Insert(s[0], SortBy(s[1..], key), key)
  }

  /** The sort is ascending by key, a permutation of `s`, and stable: the
      elements with one key keep their relative order. */
  lemma {:induction false} SortByCorrect<T>(s: seq<T>, key: T -> string)
    ensures SortedBy(SortBy(s, key), key)
    ensures multiset(SortBy(s, key)) == multiset(s)
    ensures forall k :: WithKey(SortBy(s, key), key, k) == WithKey(s, key, k)
  {
    if s != [] {
      var rest := SortBy(s[1..], key);
      SortByCorrect(s[1..], key);
      InsertSorted(s[0], rest, key);
      InsertMultiset(s[0], rest, key);
      assert s == [s[0]] + s[1..];
      forall k ensures WithKey(Insert(s[0], rest, key), key, k) == WithKey(s, key, k) {
        InsertWithKey(s[0], rest, key, k);
      }
    }
  }

  lemma {:induction false} WithKeyNonEmpty<T>(s: seq<T>, key: T -> string, i: nat)
    requires i < |s|
    ensures WithKey(s, key, key(s[i])) != []
  {
    if i > 0 {
      WithKeyNonEmpty(s[1..], key, i - 1);
    }
  }

  lemma {:induction false} WithKeyMember<T>(s: seq<T>, key: T -> string, k: string)
    requires WithKey(s, key, k) != []
    ensures exists i :: 0 <= i < |s| && key(s[i]) == k
  {
    if s != [] && key(s[0]) != k {
      WithKeyMember(s[1..], key, k);
      var i :| 0 <= i < |s[1..]| && key(s[1..][i]) == k;
      assert key(s[i + 1]) == k;
    }
  }

  /** The three properties in SortBy's contract determine the result: any
      stable sort by the same key (Timsort included) gives the same sequence. */
  lemma {:induction false} StableSortUnique<T>(a: seq<T>, b: seq<T>, key: T -> string)
    requires SortedBy(a, key) && SortedBy(b, key)
    requires forall k :: WithKey(a, key, k) == WithKey(b, key, k)
    ensures a == b
    decreases |a|
  {
    if a != [] {
      WithKeyNonEmpty(a, key, 0);
      assert b != [];
    }
    if b != [] {
      WithKeyNonEmpty(b, key, 0);
      assert a != [];
    }
    if a != [] {
      var ka, kb := key(a[0]), key(b[0]);
      WithKeyNonEmpty(a, key, 0);
      WithKeyMember(b, key, ka);
      var ib :| 0 <= ib < |b| && key(b[ib]) == ka;
      assert LexLeq(kb, ka) by {
        if ib > 0 {
          assert LexLeq(key(b[0]), key(b[ib]));
        }
      }
      WithKeyNonEmpty(b, key, 0);
      WithKeyMember(a, key, kb);
      var ia :| 0 <= ia < |a| && key(a[ia]) == kb;
      assert LexLeq(ka, kb) by {
        if ia > 0 {
          assert LexLeq(key(a[0]), key(a[ia]));
        }
      }
      LexLeqAntisymmetric(ka, kb);
      assert WithKey(a, key, ka)[0] == a[0];
      assert WithKey(b, key, kb)[0] == b[0];
      assert a[0] == b[0];
      forall k ensures WithKey(a[1..], key, k) == WithKey(b[1..], key, k) {
        var p := if key(a[0]) == k then [a[0]] else [];
        assert WithKey(a, key, k) == p + WithKey(a[1..], key, k);
        assert WithKey(b, key, k) == p + WithKey(b[1..], key, k);
        assert WithKey(a[1..], key, k) == (p + WithKey(a[1..], key, k))[|p|..];
        assert WithKey(b[1..], key, k) == (p + WithKey(b[1..], key, k))[|p|..];
      }
      StableSortUnique(a[1..], b[1..], key);
      assert a == [a[0]] + a[1..] && b == [b[0]] + b[1..];
    }
  }

  /** Keys that are pairwise distinct pick at most one element each. */
  lemma {:induction false} WithKeyAtMostOne<T>(s: seq<T>, key: T -> string, k: string)
    requires forall i, j :: 0 <= i < j < |s| ==> key(s[i]) != key(s[j])
    ensures |WithKey(s, key, k)| <= 1
  {
    if s != [] {
      if key(s[0]) == k && WithKey(s[1..], key, k) != [] {
        WithKeyMember(s[1..], key, k);
        assert false;
      }
      WithKeyAtMostOne(s[1..], key, k);
    }
  }

  /** Two elements with the same key are both picked by that key. */
  lemma {:induction false} WithKeyTwo<T>(s: seq<T>, key: T -> string, i: nat, j: nat)
    requires i < j < |s| && key(s[i]) == key(s[j])
    ensures |WithKey(s, key, key(s[i]))| >= 2
  {
    if i == 0 {
      WithKeyNonEmpty(s[1..], key, j - 1);
    } else {
      WithKeyTwo(s[1..], key, i - 1, j - 1);
    }
  }

  /** A stable sort of elements with pairwise distinct keys leaves their
      keys pairwise distinct, so they come out strictly ascending. */
  lemma SortByStrict<T>(s: seq<T>, key: T -> string)
    requires forall i, j :: 0 <= i < j < |s| ==> key(s[i]) != key(s[j])
    ensures forall i, j :: 0 <= i < j < |SortBy(s, key)| ==> LexLess(key(SortBy(s, key)[i]), key(SortBy(s, key)[j]))
  {
    var t := SortBy(s, key);
    SortByCorrect(s, key);
    forall i, j | 0 <= i < j < |t| ensures LexLess(key(t[i]), key(t[j])) {
      if key(t[i]) == key(t[j]) {
        WithKeyTwo(t, key, i, j);
        WithKeyAtMostOne(s, key, key(t[i]));
        assert false;
      }
      assert LexLeq(key(t[i]), key(t[j]));
    }
  }
}
