// Sequence helpers: filtering (Python comprehensions with `if`, JavaScript
// `Array.filter`) and the stable sort both languages provide
// (`list.sort(key=...)`, `Array.prototype.sort` since ES2019), keyed by a
// distance that may be infinite.
module Lists {

  /** A distance key: a finite value or `float('inf')` / `Infinity`. */
  datatype Ext = Fin(r: real) | Inf

  /** The order the sort uses: infinity is above every finite value. */
  predicate Le(a: Ext, b: Ext)
  {
    b.Inf? || (a.Fin? && a.r <= b.r)
  }

  lemma LeTotal(a: Ext, b: Ext)
    ensures Le(a, b) || Le(b, a)
  {
  }

  /** Concatenation is associative; stated on its own so that proofs can
    * use it away from the facts about their own functions. */
  lemma AppendAssoc<T>(a: seq<T>, b: seq<T>, c: seq<T>)
    ensures a + (b + c) == (a + b) + c
  {
  }

  /** A member of a sequence other than its last element is a member of
    * the rest. */
  lemma InInit<T>(s: seq<T>, x: T)
    requires x in s && x != s[|s| - 1]
    ensures x in s[..|s| - 1]
  {
    var i :| 0 <= i < |s| && s[i] == x;
    assert s[..|s| - 1][i] == x;
  }

  /** A sequence without repeats has as many elements as it has members. */
  lemma {:induction false} DistinctCard<T>(s: seq<T>)
    requires forall i, j :: 0 <= i < j < |s| ==> s[i] != s[j]
    ensures |set x | x in s| == |s|
    decreases |s|
  {
    if |s| > 0 {
      var init, last := s[..|s| - 1], s[|s| - 1];
      DistinctCard(init);
      assert s == init + [last];
      assert last !in init by {
        forall i | 0 <= i < |init| ensures init[i] != last {
          assert init[i] == s[i];
        }
      }
      assert (set x | x in s) == (set x | x in init) + {last};
    }
  }

  // ---------------------------------------------------------------------
  // Filtering
  // ---------------------------------------------------------------------

  /** The elements of `s` that satisfy `p`, in their original order. */
  function Filter<T>(s: seq<T>, p: T -> bool): (r: seq<T>)
    ensures |r| <= |s|
    ensures forall x :: x in r ==> x in s && p(x)
  {
    if |s| == 0 then [] else (if p(s[0]) then [s[0]] else []) + Filter(s[1..], p)
  }

  lemma {:induction false} FilterAppend<T>(a: seq<T>, b: seq<T>, p: T -> bool)
    ensures Filter(a + b, p) == Filter(a, p) + Filter(b, p)
    decreases |a|
  {
    if |a| == 0 {
      assert a + b == b;
    } else {
      assert (a + b)[1..] == a[1..] + b;
      FilterAppend(a[1..], b, p);
    }
  }

  /** Every element that satisfies `p` survives the filter. */
  lemma {:induction false} FilterKeeps<T>(s: seq<T>, p: T -> bool, x: T)
    requires x in s && p(x)
    ensures x in Filter(s, p)
    decreases |s|
  {
    if s[0] != x {
      FilterKeeps(s[1..], p, x);
    }
  }

  lemma FilterAll<T>(s: seq<T>, p: T -> bool)
    requires forall x :: x in s ==> p(x)
    ensures Filter(s, p) == s
  {
  }

  /** Filters by predicates that agree everywhere give the same result. */
  lemma {:induction false} FilterEquivalent<T>(s: seq<T>, p: T -> bool, q: T -> bool)
    requires forall x :: x in s ==> p(x) == q(x)
    ensures Filter(s, p) == Filter(s, q)
    decreases |s|
  {
    if |s| > 0 {
      FilterEquivalent(s[1..], p, q);
    }
  }

  // ---------------------------------------------------------------------
  // Stable sort by a distance key
  // ---------------------------------------------------------------------

  predicate SortedBy<T>(s: seq<T>, key: T -> Ext)
  {
    forall i, j :: 0 <= i < j < |s| ==> Le(key(s[i]), key(s[j]))
  }

  /** Put `x` after every element whose key is at most its own. */
  function Insert<T>(x: T, s: seq<T>, key: T -> Ext): seq<T>
  {
    if |s| == 0 then [x]
    else if Le(key(s[|s| - 1]), key(x)) then s + [x]
    else Insert(x, s[..|s| - 1], key) + [s[|s| - 1]]
  }

  /** Insertion sort: sort all but the last element, then insert the last. */
  function SortBy<T>(s: seq<T>, key: T -> Ext): seq<T>
  {
    if |s| == 0 then [] else Insert(s[|s| - 1], SortBy(s[..|s| - 1], key), key)
  }

  /** The elements of `s` whose key is exactly `k`, in order. */
  function WithKey<T>(s: seq<T>, key: T -> Ext, k: Ext): seq<T>
  {
    if |s| == 0 then [] else (if key(s[0]) == k then [s[0]] else []) + WithKey(s[1..], key, k)
  }

  lemma {:induction false} WithKeyAppend<T>(a: seq<T>, b: seq<T>, key: T -> Ext, k: Ext)
    ensures WithKey(a + b, key, k) == WithKey(a, key, k) + WithKey(b, key, k)
    decreases |a|
  {
    if |a| == 0 {
      assert a + b == b;
    } else {
      var head := if key(a[0]) == k then [a[0]] else [];
      assert (a + b)[0] == a[0];
      assert (a + b)[1..] == a[1..] + b;
      assert WithKey(a + b, key, k) == head + WithKey(a[1..] + b, key, k);
      WithKeyAppend(a[1..], b, key, k);
      assert WithKey(a, key, k) == head + WithKey(a[1..], key, k);
    }
  }

  lemma {:induction false} InsertCount<T>(x: T, s: seq<T>, key: T -> Ext)
    ensures multiset(Insert(x, s, key)) == multiset(s) + multiset{x}
    ensures |Insert(x, s, key)| == |s| + 1
    decreases |s|
  {
    if |s| > 0 && !Le(key(s[|s| - 1]), key(x)) {
      assert s == s[..|s| - 1] + [s[|s| - 1]];
      InsertCount(x, s[..|s| - 1], key);
    }
  }

  lemma {:induction false} InsertSorted<T>(x: T, s: seq<T>, key: T -> Ext)
    requires SortedBy(s, key)
    ensures SortedBy(Insert(x, s, key), key)
    decreases |s|
  {
    var r := Insert(x, s, key);
    if |s| > 0 && !Le(key(s[|s| - 1]), key(x)) {
      var init, last := s[..|s| - 1], s[|s| - 1];
      assert s == init + [last];
      InsertSorted(x, init, key);
      InsertCount(x, init, key);
      var r0 := Insert(x, init, key);
      assert r == r0 + [last];
      forall i, j | 0 <= i < j < |r| ensures Le(key(r[i]), key(r[j])) {
        if j == |r| - 1 {
          assert r[i] == r0[i] && r0[i] in multiset(r0);
          if r[i] != x {
            assert r[i] in multiset(init);
            var m :| 0 <= m < |init| && init[m] == r[i];
            assert s[m] == r[i];
          }
        }
      }
    }
  }

  /** Inserting keeps the relative order of equal keys, the new element last. */
  lemma {:induction false} InsertWithKey<T>(x: T, s: seq<T>, key: T -> Ext, k: Ext)
    ensures WithKey(Insert(x, s, key), key, k) == WithKey(s, key, k) + (if key(x) == k then [x] else [])
    decreases |s|
  {
    if |s| == 0 {
    } else if Le(key(s[|s| - 1]), key(x)) {
      WithKeyAppend(s, [x], key, k);
    } else {
      var init, last := s[..|s| - 1], s[|s| - 1];
      assert s == init + [last];
      InsertWithKey(x, init, key, k);
      WithKeyAppend(Insert(x, init, key), [last], key, k);
      WithKeyAppend(init, [last], key, k);
      if key(x) == k {
        assert key(last) != k;
      }
    }
  }

  /** The sort's result is ordered by the key. */
  lemma {:induction false} SortByFacts<T>(s: seq<T>, key: T -> Ext)
    ensures SortedBy(SortBy(s, key), key)
    ensures multiset(SortBy(s, key)) == multiset(s)
    ensures |SortBy(s, key)| == |s|
    ensures forall k :: WithKey(SortBy(s, key), key, k) == WithKey(s, key, k)
    decreases |s|
  {
    if |s| > 0 {
      var init, last := s[..|s| - 1], s[|s| - 1];
      assert s == init + [last];
      SortByFacts(init, key);
      InsertSorted(last, SortBy(init, key), key);
      InsertCount(last, SortBy(init, key), key);
      forall k ensures WithKey(SortBy(s, key), key, k) == WithKey(s, key, k) {
        InsertWithKey(last, SortBy(init, key), key, k);
        WithKeyAppend(init, [last], key, k);
      }
    }
  }

  /** Sorting keeps exactly the elements it was given. */
  lemma SortByMembers<T>(s: seq<T>, key: T -> Ext, x: T)
    ensures x in SortBy(s, key) <==> x in s
  {
    SortByFacts(s, key);
    assert x in SortBy(s, key) <==> x in multiset(SortBy(s, key));
  }
}
