/**
 * Python's `list.sort(key=..., reverse=True)`: a stable sort into descending
 * key order. Defined here as insertion into an already sorted prefix, which
 * keeps elements with equal keys in their original order.
 */
module Ordering {

  /** Keys never increase along `s`. */
  ghost predicate Descending<T>(s: seq<T>, key: T -> real)
  {
    forall i, j | 0 <= i < j < |s| :: key(s[i]) >= key(s[j])
  }

  /** The elements of `s` whose key is `v`, in their order in `s`. */
  function WithKey<T>(s: seq<T>, key: T -> real, v: real): seq<T>
  {
    if s == [] then []
    else (if key(s[0]) == v then [s[0]] else []) + WithKey(s[1..], key, v)
  }

  /** Places `x` after every element whose key is at least its own. */
  function Insert<T>(x: T, s: seq<T>, key: T -> real): seq<T>
  {
    if s == [] then [x]
    else if key(s[0]) >= key(x) then [s[0]] + Insert(x, s[1..], key)
    else [x] + s
  }

  /** Stable descending sort: inserts the elements one by one, in order. */
  function SortDesc<T>(s: seq<T>, key: T -> real): seq<T>
  {
    if s == [] then []
    else Insert(s[|s| - 1], SortDesc(s[..|s| - 1], key), key)
  }

  lemma {:induction false} WithKeyAppend<T>(a: seq<T>, b: seq<T>, key: T -> real, v: real)
    ensures WithKey(a + b, key, v) == WithKey(a, key, v) + WithKey(b, key, v)
  {
    if a != [] {
      assert (a + b)[0] == a[0];
      assert (a + b)[1..] == a[1..] + b;
      WithKeyAppend(a[1..], b, key, v);
    } else {
      assert a + b == b;
    }
  }

  /** In a descending sequence whose first key is below `v`, no key equals `v`. */
  lemma {:induction false} WithKeyBelow<T>(s: seq<T>, key: T -> real, v: real)
    requires Descending(s, key)
    requires s != [] ==> key(s[0]) < v
    ensures WithKey(s, key, v) == []
  {
    if s != [] {
      assert Descending(s[1..], key);
      if |s| > 1 {
        assert key(s[1]) <= key(s[0]);
      }
      WithKeyBelow(s[1..], key, v);
    }
  }

  lemma {:induction false} InsertPermutes<T>(x: T, s: seq<T>, key: T -> real)
    ensures multiset(Insert(x, s, key)) == multiset(s) + multiset{x}
  {
    if s != [] && key(s[0]) >= key(x) {
      InsertPermutes(x, s[1..], key);
      assert s == [s[0]] + s[1..];
    }
  }

  lemma {:induction false} InsertDescending<T>(x: T, s: seq<T>, key: T -> real)
    requires Descending(s, key)
    ensures Descending(Insert(x, s, key), key)
  {
    if s == [] {
    } else if key(s[0]) >= key(x) {
      var rest := Insert(x, s[1..], key);
      InsertDescending(x, s[1..], key);
      assert key(rest[0]) <= key(s[0]) by {
        if s[1..] != [] && key(s[1..][0]) >= key(x) {
          assert rest[0] == s[1];
        } else {
          assert rest[0] == x;
        }
      }
      var r := [s[0]] + rest;
      assert Insert(x, s, key) == r;
      forall i, j | 0 <= i < j < |r| ensures key(r[i]) >= key(r[j]) {
        if i == 0 {
          if j > 1 {
            assert key(rest[0]) >= key(rest[j - 1]);
          }
        } else {
          assert r[i] == rest[i - 1] && r[j] == rest[j - 1];
        }
      }
    } else {
      var r := [x] + s;
      assert Insert(x, s, key) == r;
      forall i, j | 0 <= i < j < |r| ensures key(r[i]) >= key(r[j]) {
        if i == 0 {
          assert key(s[j - 1]) <= key(s[0]);
        } else {
          assert r[i] == s[i - 1] && r[j] == s[j - 1];
        }
      }
    }
  }

  lemma {:induction false} InsertWithKey<T>(x: T, s: seq<T>, key: T -> real, v: real)
    requires Descending(s, key)
    ensures WithKey(Insert(x, s, key), key, v) == WithKey(s, key, v) + (if key(x) == v then [x] else [])
  {
    var mine := if key(x) == v then [x] else [];
    if s == [] {
      assert [x][1..] == [];
      assert WithKey([x], key, v) == mine + WithKey([], key, v);
    } else if key(s[0]) >= key(x) {
      var head := if key(s[0]) == v then [s[0]] else [];
      var rest := Insert(x, s[1..], key);
      assert Descending(s[1..], key);
      InsertWithKey(x, s[1..], key, v);
      var r := [s[0]] + rest;
      assert Insert(x, s, key) == r;
      assert r[0] == s[0] && r[1..] == rest;
      assert WithKey(r, key, v) == head + WithKey(rest, key, v);
      assert WithKey(s, key, v) == head + WithKey(s[1..], key, v);
      assert WithKey(rest, key, v) == WithKey(s[1..], key, v) + mine;
      assert head + (WithKey(s[1..], key, v) + mine) == (head + WithKey(s[1..], key, v)) + mine;
    } else {
      var r := [x] + s;
      assert Insert(x, s, key) == r;
      assert r[0] == x && r[1..] == s;
      assert WithKey(r, key, v) == mine + WithKey(s, key, v);
      if key(x) == v {
        WithKeyBelow(s, key, v);
        assert WithKey(r, key, v) == [x];
      } else {
        assert WithKey(r, key, v) == WithKey(s, key, v);
      }
    }
  }

  /**
   * The sort yields the same elements, in descending key order, and keeps
   * the original order among elements with equal keys (stability).
   */
  lemma {:induction false} SortDescCorrect<T>(s: seq<T>, key: T -> real)
    ensures Descending(SortDesc(s, key), key)
    ensures multiset(SortDesc(s, key)) == multiset(s)
    ensures forall v: real :: WithKey(SortDesc(s, key), key, v) == WithKey(s, key, v)
  {
    if s != [] {
      var init, last := s[..|s| - 1], s[|s| - 1];
      SortDescCorrect(init, key);
      InsertDescending(last, SortDesc(init, key), key);
      InsertPermutes(last, SortDesc(init, key), key);
      assert s == init + [last];
      forall v: real ensures WithKey(SortDesc(s, key), key, v) == WithKey(s, key, v) {
        InsertWithKey(last, SortDesc(init, key), key, v);
        WithKeyAppend(init, [last], key, v);
        assert [last][1..] == [];
      }
    }
  }

}
