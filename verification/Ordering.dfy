/**
 Rust's ordered collections iterate by key and its sorts are stable. This module gives both a
 meaning: the enumeration of a finite set in increasing order, and a stable sort.
 */
module Ordering {

  ghost predicate TotalPreorder<T(!new)>(leq: (T, T) -> bool) {
    && (forall x, y :: leq(x, y) || leq(y, x))
    && (forall x, y, z :: leq(x, y) && leq(y, z) ==> leq(x, z))
  }

  ghost predicate TotalOrder<T(!new)>(leq: (T, T) -> bool) {
    && TotalPreorder(leq)
    && (forall x, y :: leq(x, y) && leq(y, x) ==> x == y)
  }

  /** Lexicographic order on strings, which is `String`'s `Ord`. */
  predicate StrLeq(a: string, b: string) {
    a == [] || (b != [] && (a[0] < b[0] || (a[0] == b[0] && StrLeq(a[1..], b[1..]))))
  }

  lemma StrLeqTotal(a: string, b: string)
    ensures StrLeq(a, b) || StrLeq(b, a)
  {
  }

  lemma StrLeqAntisymmetric(a: string, b: string)
    requires StrLeq(a, b) && StrLeq(b, a)
    ensures a == b
  {
    if a != [] {
      StrLeqAntisymmetric(a[1..], b[1..]);
      assert a == [a[0]] + a[1..] && b == [b[0]] + b[1..];
    }
  }

  lemma StrLeqTransitive(a: string, b: string, c: string)
    requires StrLeq(a, b) && StrLeq(b, c)
    ensures StrLeq(a, c)
  {
    if a != [] && a[0] == b[0] == c[0] {
      StrLeqTransitive(a[1..], b[1..], c[1..]);
    }
  }

  lemma StrOrder()
    ensures TotalOrder(StrLeq)
  {
    forall a, b ensures StrLeq(a, b) || StrLeq(b, a) { StrLeqTotal(a, b); }
    forall a, b | StrLeq(a, b) && StrLeq(b, a) ensures a == b { StrLeqAntisymmetric(a, b); }
    forall a, b, c | StrLeq(a, b) && StrLeq(b, c) ensures StrLeq(a, c) { StrLeqTransitive(a, b, c); }
  }

  /** A namespaced Kubernetes name; `(String, String)` in the source. */
  datatype Key = Key(ns: string, name: string)

  predicate KeyLeq(a: Key, b: Key) {
    if a.ns == b.ns then StrLeq(a.name, b.name) else StrLeq(a.ns, b.ns)
  }

  lemma KeyOrder()
    ensures TotalOrder(KeyLeq)
  {
    StrOrder();
  }

  // ----- lexicographic order of lists -----

  predicate LexLeq<T(==)>(a: seq<T>, b: seq<T>, leq: (T, T) -> bool) {
    a == [] || (b != [] && if a[0] == b[0] then LexLeq(a[1..], b[1..], leq) else leq(a[0], b[0]))
  }

  lemma {:induction false} LexTotal<T(!new)>(a: seq<T>, b: seq<T>, leq: (T, T) -> bool)
    requires TotalOrder(leq)
    ensures LexLeq(a, b, leq) || LexLeq(b, a, leq)
  {
    if a != [] && b != [] && a[0] == b[0] { LexTotal(a[1..], b[1..], leq); }
  }

  lemma {:induction false} LexAntisymmetric<T(!new)>(a: seq<T>, b: seq<T>, leq: (T, T) -> bool)
    requires TotalOrder(leq) && LexLeq(a, b, leq) && LexLeq(b, a, leq)
    ensures a == b
  {
    if a != [] {
      LexAntisymmetric(a[1..], b[1..], leq);
      assert a == [a[0]] + a[1..] && b == [b[0]] + b[1..];
    }
  }

  lemma {:induction false} LexTransitive<T(!new)>(a: seq<T>, b: seq<T>, c: seq<T>, leq: (T, T) -> bool)
    requires TotalOrder(leq) && LexLeq(a, b, leq) && LexLeq(b, c, leq)
    ensures LexLeq(a, c, leq)
  {
    if a != [] && a[0] == b[0] == c[0] { LexTransitive(a[1..], b[1..], c[1..], leq); }
  }

  // ----- enumeration of a set in order -----

  ghost predicate StrictlySorted<T(!new)>(q: seq<T>, leq: (T, T) -> bool) {
    forall i, j :: 0 <= i < j < |q| ==> leq(q[i], q[j]) && q[i] != q[j]
  }

  lemma LeastExists<T(!new)>(s: set<T>, leq: (T, T) -> bool) returns (least: T)
    requires s != {} && TotalOrder(leq)
    ensures least in s && forall y :: y in s ==> leq(least, y)
  {
    var first :| first in s;
    var rest := s - {first};
    least := first;
    if rest != {} {
      var other := LeastExists(rest, leq);
      if !leq(first, other) { least := other; }
    }
    assert leq(first, first);
    forall y | y in s ensures leq(least, y) {
      if y != first { assert y in rest; }
    }
  }

  /** The elements of `s` in increasing order: how a `BTreeSet` or the keys of a `BTreeMap` iterate. */
  function Enumerate<T(!new, ==)>(s: set<T>, leq: (T, T) -> bool): (q: seq<T>)
    requires TotalOrder(leq)
    ensures StrictlySorted(q, leq)
    ensures forall x :: x in q <==> x in s
    ensures |q| == |s|
  {
    if s == {} then []
    else
      assert exists m :: m in s && forall y :: y in s ==> leq(m, y) by {
        var m := LeastExists(s, leq);
      }
      var m :| m in s && forall y :: y in s ==> leq(m, y);
      var rest := Enumerate(s - {m}, leq);
      ConsSorted(m, rest, s, leq);
      [m] + rest
  }

  /** Putting the least element of a set in front of an enumeration of the others. */
  lemma ConsSorted<T(!new)>(m: T, rest: seq<T>, s: set<T>, leq: (T, T) -> bool)
    requires m in s && (forall y :: y in s ==> leq(m, y))
    requires StrictlySorted(rest, leq) && forall x :: x in rest <==> x in s - {m}
    ensures StrictlySorted([m] + rest, leq) && forall x :: x in [m] + rest <==> x in s
  {
    assert forall i :: 0 <= i < |rest| ==> rest[i] in s - {m};
  }

  /** Increasing enumerations are unique, so any increasing listing of `s` is `Enumerate(s)`. */
  lemma {:induction false} EnumerationUnique<T(!new)>(p: seq<T>, q: seq<T>, leq: (T, T) -> bool)
    requires TotalOrder(leq)
    requires StrictlySorted(p, leq) && StrictlySorted(q, leq)
    requires forall x :: x in p <==> x in q
    ensures p == q
  {
    if p == [] {
      assert forall i :: 0 <= i < |q| ==> q[i] in p;
    } else {
      assert p[0] in q && (q != [] ==> q[0] in p);
      assert p[0] == q[0];
      forall x ensures x in p[1..] <==> x in q[1..] {
        if x in p[1..] { assert x in p && x != p[0]; assert x in q; }
        if x in q[1..] { assert x in q && x != q[0]; assert x in p; }
      }
      EnumerationUnique(p[1..], q[1..], leq);
      assert p == [p[0]] + p[1..] && q == [q[0]] + q[1..];
    }
  }

  lemma DropSorted<T(!new)>(e: seq<T>, i: nat, leq: (T, T) -> bool)
    requires i < |e| && StrictlySorted(e, leq)
    ensures
      var rest := e[..i] + e[i + 1..];
      StrictlySorted(rest, leq) && forall y :: y in rest <==> y in e && y != e[i]
  {
    var rest := e[..i] + e[i + 1..];
    assert forall j :: 0 <= j < |rest| ==> rest[j] == if j < i then e[j] else e[j + 1];
    forall y | y in e && y != e[i] ensures y in rest {
      var j :| 0 <= j < |e| && e[j] == y;
      assert rest[if j < i then j else j - 1] == y;
    }
  }

  /** Taking an element out of the set takes it out of the enumeration and leaves the rest in place. */
  lemma EnumerateMinus<T(!new)>(s: set<T>, x: T, leq: (T, T) -> bool) returns (p: seq<T>, q: seq<T>)
    requires TotalOrder(leq) && x in s
    ensures Enumerate(s, leq) == p + [x] + q
    ensures Enumerate(s - {x}, leq) == p + q
  {
    var e, f := Enumerate(s, leq), Enumerate(s - {x}, leq);
    assert x in e;
    p, q := DropEquals(e, x, f, leq);
  }

  lemma DropEquals<T(!new)>(e: seq<T>, x: T, f: seq<T>, leq: (T, T) -> bool) returns (p: seq<T>, q: seq<T>)
    requires TotalOrder(leq) && StrictlySorted(e, leq) && StrictlySorted(f, leq) && x in e
    requires forall y :: y in f <==> y in e && y != x
    ensures e == p + [x] + q && f == p + q
  {
    var i :| 0 <= i < |e| && e[i] == x;
    p, q := e[..i], e[i + 1..];
    DropSorted(e, i, leq);
    EnumerationUnique(p + q, f, leq);
  }

  /** The namespaced names of a set in increasing order. */
  function SortedKeys(s: set<Key>): (q: seq<Key>)
    ensures forall k :: k in q <==> k in s
    ensures forall i :: 0 <= i < |q| ==> q[i] in s
    ensures forall i, j :: 0 <= i < j < |q| ==> q[i] != q[j]
  {
    KeyOrder();
    Enumerate(s, KeyLeq)
  }

  /** The names of a set in increasing order. */
  function SortedNames(s: set<string>): (q: seq<string>)
    ensures forall n :: n in q <==> n in s
    ensures forall i, j :: 0 <= i < j < |q| ==> StrLeq(q[i], q[j]) && q[i] != q[j]
  {
    StrOrder();
    Enumerate(s, StrLeq)
  }

  lemma SortedKeysMinus(s: set<Key>, x: Key) returns (p: seq<Key>, q: seq<Key>)
    requires x in s
    ensures SortedKeys(s) == p + [x] + q && SortedKeys(s - {x}) == p + q
  {
    KeyOrder();
    p, q := EnumerateMinus(s, x, KeyLeq);
  }

  // ----- stable sort -----

  ghost predicate SortedBy<T(!new)>(q: seq<T>, leq: (T, T) -> bool) {
    forall i, j :: 0 <= i < j < |q| ==> leq(q[i], q[j])
  }

  function Insert<T>(x: T, q: seq<T>, leq: (T, T) -> bool): seq<T> {
    if q == [] || leq(x, q[0]) then [x] + q else [q[0]] + Insert(x, q[1..], leq)
  }

  /** `slice::sort_by`: sorted, and equal elements keep their order. */
  function Sort<T>(s: seq<T>, leq: (T, T) -> bool): seq<T> {
    if s == [] then [] else Insert(s[0], Sort(s[1..], leq), leq)
  }

  lemma {:induction false} InsertKeeps<T(!new)>(x: T, q: seq<T>, leq: (T, T) -> bool)
    ensures multiset(Insert(x, q, leq)) == multiset{x} + multiset(q)
  {
    if q == [] || leq(x, q[0]) {
    } else {
      InsertKeeps(x, q[1..], leq);
      assert q == [q[0]] + q[1..];
    }
  }

  lemma {:induction false} InsertSorted<T(!new)>(x: T, q: seq<T>, leq: (T, T) -> bool)
    requires TotalPreorder(leq) && SortedBy(q, leq)
    ensures SortedBy(Insert(x, q, leq), leq)
  {
    if q == [] {
    } else if leq(x, q[0]) {
      assert forall i :: 0 < i < |q| ==> leq(q[0], q[i]);
    } else {
      InsertSorted(x, q[1..], leq);
      InsertKeeps(x, q[1..], leq);
      var r := Insert(x, q[1..], leq);
      forall i | 0 <= i < |r| ensures leq(q[0], r[i]) {
        assert r[i] in multiset(r);
        assert r[i] == x || r[i] in q[1..];
      }
    }
  }

  /** The sort rearranges its input. */
  lemma {:induction false} SortPermutes<T(!new)>(s: seq<T>, leq: (T, T) -> bool)
    ensures multiset(Sort(s, leq)) == multiset(s)
  {
    if s != [] {
      SortPermutes(s[1..], leq);
      InsertKeeps(s[0], Sort(s[1..], leq), leq);
      assert s == [s[0]] + s[1..];
    }
  }

  lemma PermutationKeeps<T(!new)>(a: seq<T>, b: seq<T>)
    requires multiset(a) == multiset(b)
    ensures |a| == |b| && forall x :: x in a <==> x in b
  {
    assert |multiset(a)| == |a| && |multiset(b)| == |b|;
    forall x ensures x in a <==> x in b {
      assert x in a <==> x in multiset(a);
    }
  }

  lemma SortKeeps<T(!new)>(s: seq<T>, leq: (T, T) -> bool)
    ensures multiset(Sort(s, leq)) == multiset(s)
    ensures |Sort(s, leq)| == |s|
    ensures forall x :: x in Sort(s, leq) <==> x in s
  {
    SortPermutes(s, leq);
    PermutationKeeps(Sort(s, leq), s);
  }

  /** The sort's result is in order. */
  lemma {:induction false} SortOrders<T(!new)>(s: seq<T>, leq: (T, T) -> bool)
    requires TotalPreorder(leq)
    ensures SortedBy(Sort(s, leq), leq)
  {
    if s != [] {
      SortOrders(s[1..], leq);
      InsertSorted(s[0], Sort(s[1..], leq), leq);
    }
  }

  /** Sorting a sorted sequence changes nothing. */
  lemma {:induction false} SortOfSorted<T(!new)>(s: seq<T>, leq: (T, T) -> bool)
    requires SortedBy(s, leq)
    ensures Sort(s, leq) == s
  {
    if s != [] {
      SortOfSorted(s[1..], leq);
      assert s == [s[0]] + s[1..];
    }
  }
}
