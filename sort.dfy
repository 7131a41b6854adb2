/**
 * Python's `list.sort(key=...)` on string keys: a stable sort that compares
 * keys with `<` (code-point lexicographic order). The model is an insertion
 * sort that inserts each element after every element whose key is not
 * greater, which is exactly what stability demands.
 */
module StableSort {
  import opened Text

  /** Python's `a < b` on strings. */
  predicate LexLt(a: string, b: string) {
    !LexLe(b, a)
  }

  predicate SortedBy<T>(s: seq<T>, key: T -> string) {
    forall i, j :: 0 <= i < j < |s| ==> LexLe(key(s[i]), key(s[j]))
  }

  /** Places `x` before the first element whose key is strictly greater than `x`'s. */
  function Insert<T>(t: seq<T>, x: T, key: T -> string): seq<T>
    decreases |t|
  {
    if t == [] then [x]
    else if LexLt(key(x), key(t[0])) then [x] + t
    else [t[0]] + Insert(t[1..], x, key)
  }

  /** Inserts the elements one at a time, in input order. */
  function SortBy<T>(s: seq<T>, key: T -> string): seq<T>
    decreases |s|
  {
    if s == [] then [] else Insert(SortBy(s[..|s| - 1], key), s[|s| - 1], key)
  }

  /** The elements of `s` whose key is `k`, in their order in `s`. */
  function WithKey<T>(s: seq<T>, key: T -> string, k: string): seq<T>
    decreases |s|
  {
    if s == [] then []
    else (if key(s[0]) == k then [s[0]] else []) + WithKey(s[1..], key, k)
  }

  lemma {:induction false} InsertPermutes<T>(t: seq<T>, x: T, key: T -> string)
    ensures multiset(Insert(t, x, key)) == multiset(t) + multiset{x}
    decreases |t|
  {
    if t != [] && !LexLt(key(x), key(t[0])) {
      InsertPermutes(t[1..], x, key);
      assert t == [t[0]] + t[1..];
    }
  }

  lemma {:induction false} InsertSorted<T>(t: seq<T>, x: T, key: T -> string)
    requires SortedBy(t, key)
    ensures SortedBy(Insert(t, x, key), key)
    decreases |t|
  {
    if t == [] {
    } else if LexLt(key(x), key(t[0])) {
      LexLeTotal(key(x), key(t[0]));
      forall j | 0 <= j < |t| ensures LexLe(key(x), key(t[j])) {
        if j > 0 {
          LexLeTransitive(key(x), key(t[0]), key(t[j]));
        }
      }
      var r := [x] + t;
      forall i, j | 0 <= i < j < |r| ensures LexLe(key(r[i]), key(r[j])) {
        if i > 0 {
          assert r[i] == t[i - 1] && r[j] == t[j - 1];
        }
      }
    } else {
      var rest := Insert(t[1..], x, key);
      assert SortedBy(t[1..], key) by {
        forall i, j | 0 <= i < j < |t[1..]| ensures LexLe(key(t[1..][i]), key(t[1..][j])) {
          assert t[1..][i] == t[i + 1] && t[1..][j] == t[j + 1];
        }
      }
      InsertSorted(t[1..], x, key);
      InsertPermutes(t[1..], x, key);
      forall j | 0 <= j < |rest| ensures LexLe(key(t[0]), key(rest[j])) {
        assert rest[j] in multiset(rest);
        if rest[j] == x {
          LexLeTotal(key(x), key(t[0]));
        } else {
          assert rest[j] in multiset(t[1..]);
          var k :| 0 <= k < |t[1..]| && t[1..][k] == rest[j];
          assert t[k + 1] == rest[j];
        }
      }
      var r := [t[0]] + rest;
      forall i, j | 0 <= i < j < |r| ensures LexLe(key(r[i]), key(r[j])) {
        if i == 0 {
          assert r[j] == rest[j - 1];
        } else {
          assert r[i] == rest[i - 1] && r[j] == rest[j - 1];
        }
      }
    }
  }

  lemma {:induction false} WithKeyConcat<T>(a: seq<T>, b: seq<T>, key: T -> string, k: string)
    ensures WithKey(a + b, key, k) == WithKey(a, key, k) + WithKey(b, key, k)
    decreases |a|
  {
    if a != [] {
      assert (a + b)[0] == a[0] && (a + b)[1..] == a[1..] + b;
      WithKeyConcat(a[1..], b, key, k);
    } else {
      assert a + b == b;
    }
  }

  lemma SortedTail<T>(t: seq<T>, key: T -> string)
    requires t != [] && SortedBy(t, key)
    ensures SortedBy(t[1..], key)
  {
    forall i, j | 0 <= i < j < |t[1..]| ensures LexLe(key(t[1..][i]), key(t[1..][j])) {
      assert t[1..][i] == t[i + 1] && t[1..][j] == t[j + 1];
    }
  }

  lemma {:induction false} WithKeyNone<T>(t: seq<T>, key: T -> string, k: string)
    requires forall j :: 0 <= j < |t| ==> key(t[j]) != k
    ensures WithKey(t, key, k) == []
    decreases |t|
  {
    if t != [] {
      assert forall j :: 0 <= j < |t[1..]| ==> t[1..][j] == t[j + 1];
      WithKeyNone(t[1..], key, k);
    }
  }

  /** In a sorted sequence whose first key is greater than `k`, no element has key `k`. */
  lemma NoKeyAbove<T>(t: seq<T>, key: T -> string, k: string)
    requires t != [] && SortedBy(t, key) && LexLt(k, key(t[0]))
    ensures WithKey(t, key, k) == []
  {
    LexLeReflexive(k);
    forall j | 0 <= j < |t| ensures key(t[j]) != k {
      if j > 0 {
        assert LexLe(key(t[0]), key(t[j]));
      }
    }
    WithKeyNone(t, key, k);
  }

  /** Inserting in front: no element of `t` has `x`'s key, because every key of `t` is greater. */
  lemma InsertFrontWithKey<T>(t: seq<T>, x: T, key: T -> string, k: string)
    requires t != [] && SortedBy(t, key) && LexLt(key(x), key(t[0]))
    ensures WithKey(Insert(t, x, key), key, k) == WithKey(t, key, k) + WithKey([x], key, k)
  {
    assert Insert(t, x, key) == [x] + t;
    WithKeyConcat([x], t, key, k);
    if key(x) == k {
      NoKeyAbove(t, key, k);
    }
  }

  /** Inserting further on: the first element stays in front of the insertion into the rest. */
  lemma InsertLaterWithKey<T>(t: seq<T>, x: T, key: T -> string, k: string)
    requires t != [] && !LexLt(key(x), key(t[0]))
    requires WithKey(Insert(t[1..], x, key), key, k) == WithKey(t[1..], key, k) + WithKey([x], key, k)
    ensures WithKey(Insert(t, x, key), key, k) == WithKey(t, key, k) + WithKey([x], key, k)
  {
    var head := WithKey([t[0]], key, k);
    calc {
      WithKey(Insert(t, x, key), key, k);
      { assert Insert(t, x, key) == [t[0]] + Insert(t[1..], x, key); }
      WithKey([t[0]] + Insert(t[1..], x, key), key, k);
      { WithKeyConcat([t[0]], Insert(t[1..], x, key), key, k); }
      head + (WithKey(t[1..], key, k) + WithKey([x], key, k));
      (head + WithKey(t[1..], key, k)) + WithKey([x], key, k);
      { WithKeyConcat([t[0]], t[1..], key, k); assert [t[0]] + t[1..] == t; }
      WithKey(t, key, k) + WithKey([x], key, k);
    }
  }

  /** Inserting `x` into a sorted sequence puts it after every element with the same key. */
  lemma {:induction false} InsertWithKey<T>(t: seq<T>, x: T, key: T -> string, k: string)
    requires SortedBy(t, key)
    ensures WithKey(Insert(t, x, key), key, k) == WithKey(t, key, k) + WithKey([x], key, k)
    decreases |t|
  {
    if t == [] {
    } else if LexLt(key(x), key(t[0])) {
      InsertFrontWithKey(t, x, key, k);
    } else {
      SortedTail(t, key);
      InsertWithKey(t[1..], x, key, k);
      InsertLaterWithKey(t, x, key, k);
    }
  }

  /** `sort` returns the same elements, in order of key. */
  lemma {:induction false} SortByPermutesAndSorts<T>(s: seq<T>, key: T -> string)
    ensures multiset(SortBy(s, key)) == multiset(s)
    ensures SortedBy(SortBy(s, key), key)
    ensures |SortBy(s, key)| == |s|
    decreases |s|
  {
    if s != [] {
      var init := s[..|s| - 1];
      SortByPermutesAndSorts(init, key);
      InsertPermutes(SortBy(init, key), s[|s| - 1], key);
      InsertSorted(SortBy(init, key), s[|s| - 1], key);
      assert init + [s[|s| - 1]] == s;
      assert |SortBy(s, key)| == |multiset(SortBy(s, key))|;
    }
  }

  /** `sort` is stable: the elements sharing a key keep their relative order. */
  lemma {:induction false} SortByStable<T>(s: seq<T>, key: T -> string, k: string)
    ensures WithKey(SortBy(s, key), key, k) == WithKey(s, key, k)
    decreases |s|
  {
    if s != [] {
      var init := s[..|s| - 1];
      var x := s[|s| - 1];
      SortByStable(init, key, k);
      SortByPermutesAndSorts(init, key);
      InsertWithKey(SortBy(init, key), x, key, k);
      WithKeyConcat(init, [x], key, k);
      assert init + [x] == s;
    }
  }
}
