/**
 * `list.sort(key=str.lower)` and `sorted(xs, key=str.lower)`: a stable sort
 * by the lower-cased name.  The model is an insertion sort; what makes it
 * Python's sort is proved below: the result is ordered by key, is a
 * permutation of the input, keeps equal-key elements in input order, and is
 * the only sequence with those three properties.
 */
module Sorting {
  import opened Strings

  /** `key(a) <= key(b)` for `key=str.lower`. */
  predicate KeyLe(a: string, b: string) {
    LexLe(Lower(a), Lower(b))
  }

  /** Non-decreasing by lower-cased name. */
  predicate SortedByLower(s: seq<string>) {
    forall i, j :: 0 <= i < j < |s| ==> KeyLe(s[i], s[j])
  }

  /** The elements of `s` whose lower-cased name is `k`, in order. */
  function WithKey(s: seq<string>, k: string): seq<string>
  {
    if s == [] then []
    else (if Lower(s[0]) == k then [s[0]] else []) + WithKey(s[1..], k)
  }

  /** Puts `x` in front of the first element whose key is not below its own. */
  function Insert(x: string, s: seq<string>): (r: seq<string>)
    ensures multiset(r) == multiset(s) + multiset{x}
  {
    if s == [] then [x]
    else if KeyLe(x, s[0]) then [x] + s
    else
      assert s == [s[0]] + s[1..];
      [s[0]] + Insert(x, s[1..])
  }

  /** The sort: inserts each element into the sorted rest. */
  function SortByLower(s: seq<string>): seq<string>
  {
    if s == [] then [] else Insert(s[0], SortByLower(s[1..]))
  }

  /** The result of the sort is a permutation of its input. */
  lemma {:induction false} SortByLowerPermutes(s: seq<string>)
    ensures multiset(SortByLower(s)) == multiset(s)
  {
    if s != [] {
      SortByLowerPermutes(s[1..]);
      assert s == [s[0]] + s[1..];
    }
  }

  /** The result of the sort is non-decreasing by lower-cased name. */
  lemma {:induction false} SortByLowerSorted(s: seq<string>)
    ensures SortedByLower(SortByLower(s))
  {
    if s != [] {
      SortByLowerSorted(s[1..]);
      InsertSorted(s[0], SortByLower(s[1..]));
    }
  }

  /** The sort gives a non-decreasing permutation of its input. */
  lemma SortByLowerSpec(s: seq<string>)
    ensures multiset(SortByLower(s)) == multiset(s)
    ensures SortedByLower(SortByLower(s))
  {
    SortByLowerPermutes(s);
    SortByLowerSorted(s);
  }

  lemma {:induction false} InsertSorted(x: string, s: seq<string>)
    requires SortedByLower(s)
    ensures SortedByLower(Insert(x, s))
  {
    if s != [] {
      if KeyLe(x, s[0]) {
        forall j | 0 <= j < |s| ensures KeyLe(x, s[j]) {
          if j > 0 { LexLeTransitive(Lower(x), Lower(s[0]), Lower(s[j])); }
        }
      } else {
        var t := Insert(x, s[1..]);
        InsertSorted(x, s[1..]);
        LexLeTotal(Lower(x), Lower(s[0]));
        forall j | 0 <= j < |t| ensures KeyLe(s[0], t[j]) {
          assert t[j] in multiset(t);
          if t[j] != x {
            assert t[j] in multiset(s[1..]);
            var m :| 0 <= m < |s[1..]| && s[1..][m] == t[j];
            assert s[m + 1] == t[j];
          }
        }
      }
    }
  }

  lemma WithKeyCons(y: string, t: seq<string>, k: string)
    ensures WithKey([y] + t, k) == (if Lower(y) == k then [y] else []) + WithKey(t, k)
  {
    assert ([y] + t)[1..] == t;
  }

  lemma {:induction false} WithKeyInsert(x: string, s: seq<string>, k: string)
    ensures WithKey(Insert(x, s), k) == (if Lower(x) == k then [x] else []) + WithKey(s, k)
  {
    if s == [] {
      WithKeyCons(x, [], k);
    } else if KeyLe(x, s[0]) {
      WithKeyCons(x, s, k);
    } else {
      WithKeyInsert(x, s[1..], k);
      assert Insert(x, s) == [s[0]] + Insert(x, s[1..]);
      assert s == [s[0]] + s[1..];
      if Lower(x) == k {
        LexLeReflexive(k);
      }
      WithKeySwap(s[0], Insert(x, s[1..]), s[1..], if Lower(x) == k then [x] else [], k);
    }
  }

  /** Putting `y` in front of two sequences whose key-`k` elements differ by
      the prefix `a` keeps that difference, when `a` is empty or `y` does not
      have key `k`. */
  lemma WithKeySwap(y: string, r: seq<string>, t: seq<string>, a: seq<string>, k: string)
    requires WithKey(r, k) == a + WithKey(t, k)
    requires a == [] || Lower(y) != k
    ensures WithKey([y] + r, k) == a + WithKey([y] + t, k)
  {
    WithKeyCons(y, r, k);
    WithKeyCons(y, t, k);
  }

  /** Stability: elements with the same lower-cased name keep their input order. */
  lemma {:induction false} SortByLowerStable(s: seq<string>, k: string)
    ensures WithKey(SortByLower(s), k) == WithKey(s, k)
  {
    if s != [] {
      SortByLowerStable(s[1..], k);
      WithKeyInsert(s[0], SortByLower(s[1..]), k);
    }
  }

  /** Re-sorting a sorted list changes nothing. */
  lemma {:induction false} SortSortedIsIdentity(s: seq<string>)
    requires SortedByLower(s)
    ensures SortByLower(s) == s
  {
    if s != [] {
      SortSortedIsIdentity(s[1..]);
      if |s| > 1 {
        assert KeyLe(s[0], s[1]);
      } else {
        assert s[1..] == [];
      }
      assert s == [s[0]] + s[1..];
    }
  }

  lemma {:induction false} WithKeyMember(s: seq<string>, k: string, x: string)
    requires x in WithKey(s, k)
    ensures x in s && Lower(x) == k
  {
    if s != [] && !(Lower(s[0]) == k && x == s[0]) {
      WithKeyMember(s[1..], k, x);
    }
  }

  /** In a sorted sequence the first element's key is the least. */
  lemma LeastKey(s: seq<string>, x: string)
    requires SortedByLower(s) && x in s
    ensures KeyLe(s[0], x)
  {
    var j :| 0 <= j < |s| && s[j] == x;
    if j == 0 { LexLeReflexive(Lower(x)); }
  }

  lemma WithKeyHead(s: seq<string>)
    requires s != []
    ensures WithKey(s, Lower(s[0])) != []
  {
    assert WithKey(s, Lower(s[0]))[0] == s[0];
  }

  /** Two sorted sequences that agree on the order of every key class are equal. */
  lemma {:induction false} SortedUnique(a: seq<string>, b: seq<string>)
    requires SortedByLower(a) && SortedByLower(b)
    requires forall k :: WithKey(a, k) == WithKey(b, k)
    ensures a == b
    decreases |a| + |b|
  {
    if a == [] && b != [] {
      WithKeyHead(b);
      assert false;
    } else if a != [] && b == [] {
      WithKeyHead(a);
      assert false;
    } else if a != [] {
      var ka, kb := Lower(a[0]), Lower(b[0]);
      assert WithKey(a, ka)[0] == a[0];
      WithKeyMember(b, ka, WithKey(b, ka)[0]);
      LeastKey(b, WithKey(b, ka)[0]);
      assert WithKey(b, kb)[0] == b[0];
      WithKeyMember(a, kb, WithKey(a, kb)[0]);
      LeastKey(a, WithKey(a, kb)[0]);
      LexLeAntisymmetric(ka, kb);
      assert a[0] == b[0];
      forall k ensures WithKey(a[1..], k) == WithKey(b[1..], k) {
        var h := if ka == k then [a[0]] else [];
        assert WithKey(a, k) == h + WithKey(a[1..], k);
        assert WithKey(b, k) == h + WithKey(b[1..], k);
        assert (h + WithKey(a[1..], k))[|h|..] == WithKey(a[1..], k);
        assert (h + WithKey(b[1..], k))[|h|..] == WithKey(b[1..], k);
      }
      SortedUnique(a[1..], b[1..]);
      assert a == [a[0]] + a[1..] && b == [b[0]] + b[1..];
    }
  }

  /** Python's sort is stable, so its result is ordered and keeps every key
      class in input order; this sort is the only sequence that does both. */
  lemma SortByLowerUnique(s: seq<string>, t: seq<string>)
    requires SortedByLower(t)
    requires forall k :: WithKey(t, k) == WithKey(s, k)
    ensures t == SortByLower(s)
  {
    forall k ensures WithKey(t, k) == WithKey(SortByLower(s), k) {
      SortByLowerStable(s, k);
    }
    SortByLowerSpec(s);
    SortedUnique(t, SortByLower(s));
  }
}
