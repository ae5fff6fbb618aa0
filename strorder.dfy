/** Go's ordering of strings (`<` on strings, used by `sort.Strings`) and a sort specified by it. */
module StringOrder {

  /** Lexicographic order. Go compares the UTF-8 bytes; for Unicode scalar values that order
      coincides with the order of code points compared one by one. */
  predicate Leq(a: string, b: string)
    decreases |a|
  {
    |a| == 0 || (|b| > 0 && (a[0] < b[0] || (a[0] == b[0] && Leq(a[1..], b[1..]))))
  }

  lemma {:induction false} LeqReflexive(a: string)
    ensures Leq(a, a)
    decreases |a|
  {
    if |a| > 0 { LeqReflexive(a[1..]); }
  }

  lemma {:induction false} LeqAntisymmetric(a: string, b: string)
    requires Leq(a, b) && Leq(b, a)
    ensures a == b
    decreases |a|
  {
    if |a| > 0 {
      LeqAntisymmetric(a[1..], b[1..]);
      assert a == [a[0]] + a[1..] && b == [b[0]] + b[1..];
    }
  }

  lemma {:induction false} LeqTransitive(a: string, b: string, c: string)
    requires Leq(a, b) && Leq(b, c)
    ensures Leq(a, c)
    decreases |a|
  {
    if |a| > 0 && a[0] == b[0] && b[0] == c[0] {
      LeqTransitive(a[1..], b[1..], c[1..]);
    }
  }

  lemma {:induction false} LeqTotal(a: string, b: string)
    ensures Leq(a, b) || Leq(b, a)
    decreases |a|
  {
    if |a| > 0 && |b| > 0 && a[0] == b[0] { LeqTotal(a[1..], b[1..]); }
  }

  /** `s` is in ascending order of `key`. */
  ghost predicate SortedBy<T>(s: seq<T>, key: T -> string)
  {
    forall i, j | 0 <= i < j < |s| :: Leq(key(s[i]), key(s[j]))
  }

  function Id(s: string): string { s }

  ghost predicate Sorted(s: seq<string>)
  {
    SortedBy(s, Id)
  }

  /** Every element of `s` is at least `b`. */
  ghost predicate Above<T>(b: string, s: seq<T>, key: T -> string)
  {
    forall j | 0 <= j < |s| :: Leq(b, key(s[j]))
  }

  lemma AboveOfSameElements<T>(b: string, s: seq<T>, t: seq<T>, key: T -> string)
    requires Above(b, s, key) && multiset(t) <= multiset(s)
    ensures Above(b, t, key)
  {
    forall j | 0 <= j < |t| ensures Leq(b, key(t[j])) {
      assert t[j] in multiset(t);
      var k :| 0 <= k < |s| && s[k] == t[j];
    }
  }

  /** Inserts `x` into a sorted sequence, after the elements that are not above it. */
  function Insert<T>(x: T, s: seq<T>, key: T -> string): (r: seq<T>)
    requires SortedBy(s, key)
    ensures SortedBy(r, key) && multiset(r) == multiset(s) + multiset{x}
    decreases |s|
  {
    if s == [] then [x]
    else if Leq(key(x), key(s[0])) then
      InsertFront(x, s, key);
      [x] + s
    else
      var rest := Insert(x, s[1..], key);
      InsertBehindHead(x, s, rest, key);
      [s[0]] + rest
  }

  lemma InsertFront<T>(x: T, s: seq<T>, key: T -> string)
    requires SortedBy(s, key) && s != [] && Leq(key(x), key(s[0]))
    ensures SortedBy([x] + s, key)
  {
    forall j | 0 <= j < |s| ensures Leq(key(x), key(s[j])) {
      if j > 0 { LeqTransitive(key(x), key(s[0]), key(s[j])); }
    }
  }

  lemma InsertBehindHead<T>(x: T, s: seq<T>, rest: seq<T>, key: T -> string)
    requires SortedBy(s, key) && s != [] && !Leq(key(x), key(s[0]))
    requires SortedBy(rest, key) && multiset(rest) == multiset(s[1..]) + multiset{x}
    ensures SortedBy([s[0]] + rest, key) && multiset([s[0]] + rest) == multiset(s) + multiset{x}
  {
    assert s == [s[0]] + s[1..];
    assert Above(key(s[0]), s[1..] + [x], key) by {
      LeqTotal(key(x), key(s[0]));
    }
    AboveOfSameElements(key(s[0]), s[1..] + [x], rest, key);
  }

  /** `sort.Strings` / `sort.SliceStable`: insertion sort by `key`. */
  function SortBy<T>(s: seq<T>, key: T -> string): (r: seq<T>)
    ensures SortedBy(r, key) && multiset(r) == multiset(s)
    decreases |s|
  {
    if s == [] then []
    else
      assert s == [s[0]] + s[1..];
      Insert(s[0], SortBy(s[1..], key), key)
  }

  lemma TailMultiset(s: seq<string>)
    requires |s| > 0
    ensures multiset(s[1..]) == multiset(s) - multiset{s[0]}
  {
    assert s == [s[0]] + s[1..];
  }

  /** The least element of a sorted sequence is its first. */
  lemma FirstIsLeast(s: seq<string>, x: string)
    requires Sorted(s) && x in multiset(s)
    ensures Leq(s[0], x)
  {
    var k :| 0 <= k < |s| && s[k] == x;
    if k == 0 { LeqReflexive(x); } else { assert Leq(Id(s[0]), Id(s[k])); }
  }

  /** A sorted arrangement of a multiset of strings is unique. */
  lemma {:induction false} SortedUnique(a: seq<string>, b: seq<string>)
    requires Sorted(a) && Sorted(b) && multiset(a) == multiset(b)
    ensures a == b
    decreases |a|
  {
    if a != [] {
      assert a[0] in multiset(a);
      assert |b| > 0;
      assert b[0] in multiset(b);
      FirstIsLeast(b, a[0]);
      FirstIsLeast(a, b[0]);
      LeqAntisymmetric(a[0], b[0]);
      TailMultiset(a);
      TailMultiset(b);
      SortedUnique(a[1..], b[1..]);
      assert a == [a[0]] + a[1..] && b == [b[0]] + b[1..];
    }
  }

  /** Some enumeration of a finite set. */
  ghost function Enumerate(s: set<string>): (r: seq<string>)
    ensures multiset(r) == multiset(s)
    decreases |s|
  {
    if s == {} then []
    else
      var x :| x in s;
      assert multiset(s) == multiset(s - {x}) + multiset{x};
      Enumerate(s - {x}) + [x]
  }

  /** The ascending, duplicate-free list of the elements of `s`. */
  ghost function SortedSet(s: set<string>): (r: seq<string>)
    ensures Sorted(r) && multiset(r) == multiset(s)
    ensures forall x :: x in r <==> x in s
  {
    var r := SortBy(Enumerate(s), Id);
    assert forall x :: x in r <==> x in multiset(r);
    r
  }

  /** A sequence with the multiset of a set lists each element once. */
  lemma SetShapedIsDistinct(r: seq<string>, s: set<string>)
    requires multiset(r) == multiset(s)
    ensures forall i, j | 0 <= i < j < |r| :: r[i] != r[j]
    ensures |r| == |s|
  {
    forall i, j | 0 <= i < j < |r| ensures r[i] != r[j] {
      assert r == r[..j] + r[j..];
      assert multiset(r) == multiset(r[..j]) + multiset(r[j..]);
      assert r[i] in multiset(r[..j]);
      assert r[j] in multiset(r[j..]);
      assert multiset(s)[r[i]] <= 1;
    }
    assert |multiset(r)| == |r|;
  }

  /** Conversely, a duplicate-free sequence has the multiset of the set of its elements. */
  lemma {:induction false} DistinctIsSetShaped(r: seq<string>)
    requires forall i, j | 0 <= i < j < |r| :: r[i] != r[j]
    ensures multiset(r) == multiset(set x | x in r)
    decreases |r|
  {
    if r != [] {
      DistinctIsSetShaped(r[1..]);
      var t := set x | x in r[1..];
      assert r[0] !in t;
      assert (set x | x in r) - {r[0]} == t;
      assert multiset(set x | x in r) == multiset(t) + multiset{r[0]};
      assert r == [r[0]] + r[1..];
    }
  }
}
