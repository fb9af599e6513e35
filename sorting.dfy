/**
 * Python's `list.sort(key=...)`: a stable sort by a key that Python
 * compares with `<`. The keys used in the core are ints, strs and (for
 * the combined order) pairs of keys. `SortBy` is an insertion sort; what
 * matters about it is proved here: the result is sorted, it is a
 * permutation, it keeps the relative order of elements with equal keys,
 * and these facts determine it. From them follows the rule the source
 * relies on: sorting by `minor` and then by `major` is one sort by the
 * pair (major, minor).
 */
module Sorting {

  datatype Key = Num(n: int) | Text(s: string) | Pair(major: Key, minor: Key)

  /** Python's `<=` on str: lexicographic by code point. */
  predicate StrLe(a: string, b: string)
    decreases |a|
  {
    if a == [] then true
    else if b == [] then false
    else if a[0] != b[0] then a[0] < b[0]
    else StrLe(a[1..], b[1..])
  }

  function Rank(k: Key): nat {
    match k
    case Num(_) => 0
    case Text(_) => 1
    case Pair(_, _) => 2
  }

  /** `<=` on keys: ints numerically, strs lexicographically, pairs lexicographically. */
  predicate KeyLe(a: Key, b: Key)
    decreases a
  {
    if a.Num? && b.Num? then a.n <= b.n
    else if a.Text? && b.Text? then StrLe(a.s, b.s)
    else if a.Pair? && b.Pair? then
      if a.major == b.major then KeyLe(a.minor, b.minor) else KeyLe(a.major, b.major)
    else Rank(a) <= Rank(b)
  }

  lemma {:induction false} StrLeReflexive(a: string)
    ensures StrLe(a, a)
    decreases |a|
  {
    if a != [] { StrLeReflexive(a[1..]); }
  }

  lemma {:induction false} StrLeAntisymmetric(a: string, b: string)
    requires StrLe(a, b) && StrLe(b, a)
    ensures a == b
    decreases |a|
  {
    if a != [] && b != [] {
      StrLeAntisymmetric(a[1..], b[1..]);
      assert a == [a[0]] + a[1..] && b == [b[0]] + b[1..];
    }
  }

  lemma {:induction false} StrLeTransitive(a: string, b: string, c: string)
    requires StrLe(a, b) && StrLe(b, c)
    ensures StrLe(a, c)
    decreases |a|
  {
    if a != [] && b != [] && c != [] && a[0] == b[0] && b[0] == c[0] {
      StrLeTransitive(a[1..], b[1..], c[1..]);
    }
  }

  lemma {:induction false} StrLeTotal(a: string, b: string)
    ensures StrLe(a, b) || StrLe(b, a)
    decreases |a|
  {
    if a != [] && b != [] && a[0] == b[0] { StrLeTotal(a[1..], b[1..]); }
  }

  lemma {:induction false} KeyLeReflexive(a: Key)
    ensures KeyLe(a, a)
  {
    match a
    case Num(_) =>
    case Text(s) => StrLeReflexive(s);
    case Pair(_, m) => KeyLeReflexive(m);
  }

  lemma {:induction false} KeyLeAntisymmetric(a: Key, b: Key)
    requires KeyLe(a, b) && KeyLe(b, a)
    ensures a == b
  {
    if a.Text? && b.Text? {
      StrLeAntisymmetric(a.s, b.s);
    } else if a.Pair? && b.Pair? {
      if a.major == b.major {
        KeyLeAntisymmetric(a.minor, b.minor);
      } else {
        KeyLeAntisymmetric(a.major, b.major);
      }
    }
  }

  lemma {:induction false} KeyLeTransitive(a: Key, b: Key, c: Key)
    requires KeyLe(a, b) && KeyLe(b, c)
    ensures KeyLe(a, c)
  {
    if a.Text? && b.Text? && c.Text? {
      StrLeTransitive(a.s, b.s, c.s);
    } else if a.Pair? && b.Pair? && c.Pair? {
      if a.major == b.major && b.major == c.major {
        KeyLeTransitive(a.minor, b.minor, c.minor);
      } else if a.major == b.major {
        assert KeyLe(b.major, c.major);
      } else if b.major == c.major {
        assert KeyLe(a.major, b.major);
      } else {
        KeyLeTransitive(a.major, b.major, c.major);
        if a.major == c.major {
          KeyLeAntisymmetric(a.major, b.major);
        }
      }
    }
  }

  lemma {:induction false} KeyLeTotal(a: Key, b: Key)
    ensures KeyLe(a, b) || KeyLe(b, a)
  {
    if a.Text? && b.Text? {
      StrLeTotal(a.s, b.s);
    } else if a.Pair? && b.Pair? {
      if a.major == b.major {
        KeyLeTotal(a.minor, b.minor);
      } else {
        KeyLeTotal(a.major, b.major);
      }
    }
  }

  predicate SortedBy<T>(s: seq<T>, key: T -> Key) {
    forall i, j :: 0 <= i < j < |s| ==> KeyLe(key(s[i]), key(s[j]))
  }

  /** The elements of `s` whose key is `k`, in their order in `s`. */
  function KeyFilter<T>(s: seq<T>, key: T -> Key, k: Key): seq<T> {
    if s == [] then []
    else (if key(s[0]) == k then [s[0]] else []) + KeyFilter(s[1..], key, k)
  }

  /** Places `x` before the first element whose key is not below its own. */
  function Insert<T>(x: T, t: seq<T>, key: T -> Key): seq<T> {
    if t == [] then [x]
    else if KeyLe(key(x), key(t[0])) then [x] + t
    else [t[0]] + Insert(x, t[1..], key)
  }

  /** `sorted(s, key=key)`, which is what `s.sort(key=key)` leaves in `s`. */
  function SortBy<T>(s: seq<T>, key: T -> Key): seq<T> {
    if s == [] then [] else Insert(s[0], SortBy(s[1..], key), key)
  }

  /** The key of the combined order: `major` first, ties broken by `minor`. */
  function Lex<T>(major: T -> Key, minor: T -> Key): T -> Key {
    x => Pair(major(x), minor(x))
  }

  lemma {:induction false} FilterAppend<T>(a: seq<T>, b: seq<T>, key: T -> Key, k: Key)
    ensures KeyFilter(a + b, key, k) == KeyFilter(a, key, k) + KeyFilter(b, key, k)
  {
    if a != [] {
      var h := if key(a[0]) == k then [a[0]] else [];
      assert (a + b)[0] == a[0];
      assert (a + b)[1..] == a[1..] + b;
      FilterAppend(a[1..], b, key, k);
      assert KeyFilter(a + b, key, k) == h + KeyFilter(a[1..] + b, key, k);
      assert h + (KeyFilter(a[1..], key, k) + KeyFilter(b, key, k))
          == (h + KeyFilter(a[1..], key, k)) + KeyFilter(b, key, k);
    } else {
      assert a + b == b;
    }
  }

  lemma {:induction false} FilterMembers<T>(s: seq<T>, key: T -> Key, k: Key)
    ensures forall x :: x in KeyFilter(s, key, k) <==> x in s && key(x) == k
  {
    if s != [] {
      FilterMembers(s[1..], key, k);
      assert s == [s[0]] + s[1..];
    }
  }

  lemma FilterSubset<T>(s: seq<T>, key: T -> Key, k: Key, x: T)
    requires x in KeyFilter(s, key, k)
    ensures x in s && key(x) == k
  {
    FilterMembers(s, key, k);
  }

  lemma {:induction false} InsertFilter<T>(x: T, t: seq<T>, key: T -> Key, k: Key)
    ensures KeyFilter(Insert(x, t, key), key, k)
         == (if key(x) == k then [x] else []) + KeyFilter(t, key, k)
  {
    if t == [] {
    } else if KeyLe(key(x), key(t[0])) {
      FilterCons(x, t, key, k);
    } else {
      KeyLeReflexive(key(x));
      var rest := Insert(x, t[1..], key);
      InsertFilter(x, t[1..], key, k);
      FilterCons(t[0], rest, key, k);
      FilterCons(t[0], t[1..], key, k);
      assert t == [t[0]] + t[1..];
      var hx, ht := if key(x) == k then [x] else [], if key(t[0]) == k then [t[0]] else [];
      assert hx == [] || ht == [];
      FilterSwap(ht, hx, KeyFilter(t[1..], key, k));
    }
  }

  /** The filter of a list with a known head. */
  lemma FilterCons<T>(h: T, rest: seq<T>, key: T -> Key, k: Key)
    ensures KeyFilter([h] + rest, key, k) == (if key(h) == k then [h] else []) + KeyFilter(rest, key, k)
  {
    assert ([h] + rest)[0] == h && ([h] + rest)[1..] == rest;
  }

  lemma FilterSwap<T>(a: seq<T>, b: seq<T>, c: seq<T>)
    requires a == [] || b == []
    ensures a + (b + c) == b + (a + c)
  {
    if a == [] {
      assert a + (b + c) == b + c;
      assert a + c == c;
    } else {
      assert b + c == c;
      assert b + (a + c) == a + c;
    }
  }

  lemma {:induction false} InsertPermutation<T>(x: T, t: seq<T>, key: T -> Key)
    ensures multiset(Insert(x, t, key)) == multiset([x] + t)
  {
    if t != [] && !KeyLe(key(x), key(t[0])) {
      InsertPermutation(x, t[1..], key);
      assert t == [t[0]] + t[1..];
    }
  }

  lemma {:induction false} InsertSorted<T>(x: T, t: seq<T>, key: T -> Key)
    requires SortedBy(t, key)
    ensures SortedBy(Insert(x, t, key), key)
  {
    if t != [] && !KeyLe(key(x), key(t[0])) {
      InsertSorted(x, t[1..], key);
      InsertSortedLater(x, t, key);
    } else if t != [] {
      InsertSortedFront(x, t, key);
    }
  }

  /** `x` goes in front: its key is at most the first, so at most every key. */
  lemma InsertSortedFront<T>(x: T, t: seq<T>, key: T -> Key)
    requires t != [] && SortedBy(t, key) && KeyLe(key(x), key(t[0]))
    ensures SortedBy([x] + t, key)
  {
    var r := [x] + t;
    forall i, j | 0 <= i < j < |r| ensures KeyLe(key(r[i]), key(r[j])) {
      if i == 0 {
        if j > 1 {
          assert KeyLe(key(t[0]), key(t[j - 1]));
          KeyLeTransitive(key(x), key(t[0]), key(t[j - 1]));
        }
      } else {
        assert r[i] == t[i - 1] && r[j] == t[j - 1];
      }
    }
  }

  /** `x` goes after the first element, whose key is at most every other key. */
  lemma InsertSortedLater<T>(x: T, t: seq<T>, key: T -> Key)
    requires t != [] && SortedBy(t, key) && !KeyLe(key(x), key(t[0]))
    requires SortedBy(Insert(x, t[1..], key), key)
    ensures SortedBy([t[0]] + Insert(x, t[1..], key), key)
  {
    var rest := Insert(x, t[1..], key);
    InsertPermutation(x, t[1..], key);
    KeyLeTotal(key(x), key(t[0]));
    forall y | y in rest ensures KeyLe(key(t[0]), key(y)) {
      assert y in multiset([x] + t[1..]);
      if y != x {
        HeadBelowTail(t, key, y);
      }
    }
    SortedCons(t[0], rest, key);
  }

  lemma HeadBelowTail<T>(t: seq<T>, key: T -> Key, y: T)
    requires t != [] && SortedBy(t, key) && y in t[1..]
    ensures KeyLe(key(t[0]), key(y))
  {
    var m :| 0 <= m < |t[1..]| && t[1..][m] == y;
    assert t[m + 1] == y;
  }

  /** A head at most every key of a sorted tail gives a sorted list. */
  lemma SortedCons<T>(h: T, rest: seq<T>, key: T -> Key)
    requires SortedBy(rest, key) && forall y :: y in rest ==> KeyLe(key(h), key(y))
    ensures SortedBy([h] + rest, key)
  {
    var r := [h] + rest;
    forall i, j | 0 <= i < j < |r| ensures KeyLe(key(r[i]), key(r[j])) {
      if i == 0 {
        assert r[j] == rest[j - 1];
        assert r[j] in rest;
      } else {
        assert r[i] == rest[i - 1] && r[j] == rest[j - 1];
      }
    }
  }

  /** The sort leaves its result ordered by the key and holding the same elements. */
  lemma {:induction false} SortSortedPermutation<T>(s: seq<T>, key: T -> Key)
    ensures SortedBy(SortBy(s, key), key)
    ensures multiset(SortBy(s, key)) == multiset(s)
  {
    if s != [] {
      SortSortedPermutation(s[1..], key);
      InsertSorted(s[0], SortBy(s[1..], key), key);
      InsertPermutation(s[0], SortBy(s[1..], key), key);
      assert s == [s[0]] + s[1..];
    }
  }

  /** Stability: for every key, the elements with that key keep their relative order. */
  lemma {:induction false} SortStable<T>(s: seq<T>, key: T -> Key, k: Key)
    ensures KeyFilter(SortBy(s, key), key, k) == KeyFilter(s, key, k)
  {
    if s != [] {
      SortStable(s[1..], key, k);
      InsertFilter(s[0], SortBy(s[1..], key), key, k);
    }
  }

  /** Being sorted and keeping every key's subsequence determines a sequence. */
  lemma {:induction false} SortedUnique<T>(r1: seq<T>, r2: seq<T>, key: T -> Key)
    requires SortedBy(r1, key) && SortedBy(r2, key)
    requires forall k :: KeyFilter(r1, key, k) == KeyFilter(r2, key, k)
    ensures r1 == r2
    decreases |r1| + |r2|
  {
    if r1 == [] || r2 == [] {
      if r1 != [] {
        FilterMembers(r1, key, key(r1[0]));
        assert false;
      } else if r2 != [] {
        FilterMembers(r2, key, key(r2[0]));
        assert false;
      }
    } else {
      var a, b := r1[0], r2[0];
      FilterMembers(r1, key, key(b));
      FilterMembers(r2, key, key(a));
      FilterMembers(r1, key, key(a));
      FilterMembers(r2, key, key(b));
      assert a in KeyFilter(r2, key, key(a));
      assert b in KeyFilter(r1, key, key(b));
      var ia :| 0 <= ia < |r2| && r2[ia] == a;
      var ib :| 0 <= ib < |r1| && r1[ib] == b;
      assert KeyLe(key(b), key(a)) by {
        if ia > 0 { assert KeyLe(key(r2[0]), key(r2[ia])); } else { KeyLeReflexive(key(a)); }
      }
      assert KeyLe(key(a), key(b)) by {
        if ib > 0 { assert KeyLe(key(r1[0]), key(r1[ib])); } else { KeyLeReflexive(key(b)); }
      }
      KeyLeAntisymmetric(key(a), key(b));
      assert KeyFilter(r1, key, key(a)) == [a] + KeyFilter(r1[1..], key, key(a));
      assert KeyFilter(r2, key, key(a)) == [b] + KeyFilter(r2[1..], key, key(a));
      var f := KeyFilter(r1, key, key(a));
      assert f == KeyFilter(r2, key, key(a));
      assert f[0] == a && f[0] == b;
      forall k ensures KeyFilter(r1[1..], key, k) == KeyFilter(r2[1..], key, k) {
        assert KeyFilter(r1, key, k) == KeyFilter(r2, key, k);
        if key(a) == k {
          var f1, f2 := KeyFilter(r1, key, k), KeyFilter(r2, key, k);
          assert f1 == [a] + KeyFilter(r1[1..], key, k);
          assert f2 == [b] + KeyFilter(r2[1..], key, k);
          assert f1[1..] == KeyFilter(r1[1..], key, k);
          assert f2[1..] == KeyFilter(r2[1..], key, k);
        } else {
          assert KeyFilter(r1, key, k) == KeyFilter(r1[1..], key, k);
          assert KeyFilter(r2, key, k) == KeyFilter(r2[1..], key, k);
        }
      }
      SortedUnique(r1[1..], r2[1..], key);
      assert r1 == [a] + r1[1..] && r2 == [b] + r2[1..];
    }
  }

  lemma {:induction false} FilterCommute<T>(s: seq<T>, k1: T -> Key, a: Key, k2: T -> Key, b: Key)
    ensures KeyFilter(KeyFilter(s, k1, a), k2, b) == KeyFilter(KeyFilter(s, k2, b), k1, a)
  {
    if s != [] {
      FilterCommute(s[1..], k1, a, k2, b);
      var h1 := if k1(s[0]) == a then [s[0]] else [];
      var h2 := if k2(s[0]) == b then [s[0]] else [];
      FilterAppend(h1, KeyFilter(s[1..], k1, a), k2, b);
      FilterAppend(h2, KeyFilter(s[1..], k2, b), k1, a);
    }
  }

  lemma {:induction false} LexFilter<T>(s: seq<T>, major: T -> Key, minor: T -> Key, k: Key)
    ensures KeyFilter(s, Lex(major, minor), k)
         == if k.Pair? then KeyFilter(KeyFilter(s, major, k.major), minor, k.minor) else []
  {
    if s != [] {
      LexFilter(s[1..], major, minor, k);
      if k.Pair? {
        var h := if major(s[0]) == k.major then [s[0]] else [];
        FilterAppend(h, KeyFilter(s[1..], major, k.major), minor, k.minor);
      }
    }
  }

  lemma {:induction false} FilterSorted<T>(s: seq<T>, order: T -> Key, key: T -> Key, k: Key)
    requires SortedBy(s, order)
    ensures SortedBy(KeyFilter(s, key, k), order)
  {
    if s != [] {
      FilterSorted(s[1..], order, key, k);
      var f := KeyFilter(s[1..], key, k);
      FilterMembers(s[1..], key, k);
      if key(s[0]) == k {
        var r := [s[0]] + f;
        forall i, j | 0 <= i < j < |r| ensures KeyLe(order(r[i]), order(r[j])) {
          if i == 0 {
            assert r[j] == f[j - 1];
            assert r[j] in f;
            FilterSubset(s[1..], key, k, r[j]);
            var m :| 0 <= m < |s[1..]| && s[1..][m] == r[j];
            assert s[m + 1] == r[j];
          } else {
            assert r[i] == f[i - 1] && r[j] == f[j - 1];
          }
        }
      }
    }
  }

  /** Where the element at index `i` sits in the filtered sequence. */
  lemma FilterPosition<T>(s: seq<T>, key: T -> Key, k: Key, i: nat)
    requires i < |s| && key(s[i]) == k
    ensures |KeyFilter(s[..i], key, k)| < |KeyFilter(s, key, k)|
    ensures KeyFilter(s, key, k)[|KeyFilter(s[..i], key, k)|] == s[i]
  {
    assert s == s[..i] + ([s[i]] + s[i + 1..]);
    FilterAppend(s[..i], [s[i]] + s[i + 1..], key, k);
    assert ([s[i]] + s[i + 1..])[1..] == s[i + 1..];
  }

  /** A later element with the key sits later in the filtered sequence. */
  lemma FilterMonotone<T>(s: seq<T>, key: T -> Key, k: Key, i: nat, j: nat)
    requires i < j <= |s| && key(s[i]) == k
    ensures |KeyFilter(s[..i], key, k)| < |KeyFilter(s[..j], key, k)|
  {
    assert s[..j] == s[..i] + s[i..j];
    FilterAppend(s[..i], s[i..j], key, k);
    assert s[i..j][0] == s[i];
  }

  /** Two successive stable sorts, first by `minor` and then by `major`, are one sort by (major, minor). */
  lemma SortTwice<T>(s: seq<T>, minor: T -> Key, major: T -> Key)
    ensures SortBy(SortBy(s, minor), major) == SortBy(s, Lex(major, minor))
  {
    var lex := Lex(major, minor);
    var t := SortBy(s, minor);
    var r := SortBy(t, major);
    var q := SortBy(s, lex);
    SortSortedPermutation(s, minor);
    SortSortedPermutation(t, major);
    SortSortedPermutation(s, lex);
    forall k ensures KeyFilter(r, lex, k) == KeyFilter(q, lex, k) {
      SortStable(s, lex, k);
      LexFilter(r, major, minor, k);
      LexFilter(s, major, minor, k);
      if k.Pair? {
        SortStable(t, major, k.major);
        FilterCommute(t, major, k.major, minor, k.minor);
        SortStable(s, minor, k.minor);
        FilterCommute(s, major, k.major, minor, k.minor);
      }
    }
    forall i, j | 0 <= i < j < |r| ensures KeyLe(lex(r[i]), lex(r[j])) {
      var a := major(r[i]);
      assert KeyLe(a, major(r[j]));
      if a == major(r[j]) {
        var f := KeyFilter(r, major, a);
        FilterPosition(r, major, a, i);
        FilterPosition(r, major, a, j);
        FilterMonotone(r, major, a, i, j);
        SortStable(t, major, a);
        FilterSorted(t, minor, major, a);
        assert KeyLe(minor(f[|KeyFilter(r[..i], major, a)|]), minor(f[|KeyFilter(r[..j], major, a)|]));
      }
    }
    SortedUnique(r, q, lex);
  }
}
