/** Sequence searches and filters shared by the models. */
module Sequences {
  datatype Option<+T> = None | Some(value: T)

  datatype Result<+T, +E> = Ok(value: T) | Err(error: E)

  predicate NoDup<T(==)>(s: seq<T>) {
    forall i, j | 0 <= i < j < |s| :: s[i] != s[j]
  }

  /** The position of the first element from position i on that satisfies p. */
  function FirstFrom<T>(s: seq<T>, p: T -> bool, i: nat): (r: Option<nat>)
    requires i <= |s|
    ensures r.Some? ==> i <= r.value < |s| && p(s[r.value]) && forall j | i <= j < r.value :: !p(s[j])
    ensures r.None? ==> forall j | i <= j < |s| :: !p(s[j])
    decreases |s| - i
  {
    if i == |s| then None else if p(s[i]) then Some(i) else FirstFrom(s, p, i + 1)
  }

  /** The position of the first element that satisfies p. */
  function FirstIndex<T>(s: seq<T>, p: T -> bool): (r: Option<nat>)
    ensures r.Some? ==> r.value < |s| && p(s[r.value]) && forall j | 0 <= j < r.value :: !p(s[j])
    ensures r.None? ==> forall j | 0 <= j < |s| :: !p(s[j])
  {
    FirstFrom(s, p, 0)
  }

  /** The position of the element that satisfies p, when exactly one does. */
  function SoleIndex<T>(s: seq<T>, p: T -> bool): (r: Option<nat>)
    ensures r.Some? ==> r.value < |s| && p(s[r.value]) && forall j | 0 <= j < |s| && j != r.value :: !p(s[j])
    ensures r.None? ==>
              || (forall j | 0 <= j < |s| :: !p(s[j]))
              || (exists i, j :: 0 <= i < j < |s| && p(s[i]) && p(s[j]))
  {
    var r := FirstFrom(s, p, 0);
    if r.None? || FirstFrom(s, p, r.value + 1).Some? then None else r
  }

  lemma NoDupConcat<T>(a: seq<T>, b: seq<T>)
    requires NoDup(a) && NoDup(b) && forall x | x in a :: x !in b
    ensures NoDup(a + b)
  {
    var c := a + b;
    forall i, j | 0 <= i < j < |c| ensures c[i] != c[j] {
      assert i < |a| ==> c[i] in a;
      assert |a| <= j ==> c[j] in b;
    }
  }

  /** Order-preserving removal of repeats: the first occurrence of each element stays. */
  function Dedupe<T(==, !new)>(s: seq<T>): (r: seq<T>)
    ensures forall x :: x in r <==> x in s
    ensures NoDup(r)
    ensures NoDup(s) ==> r == s
  {
    if s == [] then []
    else
      var front, last := s[..|s| - 1], s[|s| - 1];
      assert s == front + [last];
      var r := Dedupe(front);
      if last in r then r else r + [last]
  }

  predicate AppearsBefore<T(==)>(s: seq<T>, x: T, y: T) {
    exists k :: 0 <= k < |s| && s[k] == x && forall m | 0 <= m <= k :: s[m] != y
  }

  /** What stays stands in the order of first appearance. */
  lemma {:induction false} DedupeKeepsOrder<T(!new)>(s: seq<T>, i: nat, j: nat)
    requires i < j < |Dedupe(s)|
    ensures AppearsBefore(s, Dedupe(s)[i], Dedupe(s)[j])
  {
    var front, last := s[..|s| - 1], s[|s| - 1];
    var r := Dedupe(front);
    if j < |r| {
      DedupeKeepsOrder(front, i, j);
      var k :| 0 <= k < |front| && front[k] == r[i] && forall m | 0 <= m <= k :: front[m] != r[j];
      assert s[k] == r[i];
    } else {
      assert r[i] in r;
      var k :| 0 <= k < |front| && front[k] == r[i];
      assert s[k] == r[i] && last !in front;
    }
  }

  /** The longest suffix of s with at most n elements. */
  function LastN<T>(s: seq<T>, n: nat): seq<T> {
    if |s| <= n then s else s[|s| - n..]
  }

  function Mapped<A, B>(s: seq<A>, f: A -> B): (r: seq<B>)
    ensures |r| == |s| && forall i | 0 <= i < |s| :: r[i] == f(s[i])
  {
    if s == [] then [] else Mapped(s[..|s| - 1], f) + [f(s[|s| - 1])]
  }

  lemma Without<A>(s: seq<A>, i: nat)
    requires i < |s|
    ensures multiset(s[..i] + s[i + 1..]) + multiset{s[i]} == multiset(s)
  {
    assert s == s[..i] + [s[i]] + s[i + 1..];
  }

  lemma {:induction false} MappedWithout<A, B>(s: seq<A>, i: nat, f: A -> B)
    requires i < |s|
    ensures multiset(Mapped(s, f)) == multiset(Mapped(s[..i] + s[i + 1..], f)) + multiset{f(s[i])}
  {
    var m := Mapped(s, f);
    assert Mapped(s[..i] + s[i + 1..], f) == m[..i] + m[i + 1..];
    Without(m, i);
  }

  /** Mapping rearranged lists gives rearranged lists. */
  lemma {:induction false} MappedMultiset<A, B>(a: seq<A>, b: seq<A>, f: A -> B)
    requires multiset(a) == multiset(b)
    ensures multiset(Mapped(a, f)) == multiset(Mapped(b, f))
  {
    assert |a| == |multiset(a)| == |multiset(b)| == |b|;
    if a != [] {
      var n := |a| - 1;
      assert a[n] in multiset(a);
      var i :| 0 <= i < |b| && b[i] == a[n];
      var front, rest := a[..n] + a[n + 1..], b[..i] + b[i + 1..];
      Without(a, n);
      Without(b, i);
      assert multiset(front) == multiset(a) - multiset{a[n]} == multiset(rest);
      MappedMultiset(front, rest, f);
      MappedWithout(a, n, f);
      MappedWithout(b, i, f);
    }
  }

  /** Code-point order of strings. */
  predicate TextLess(a: string, b: string) {
    b != [] && (a == [] || a[0] < b[0] || (a[0] == b[0] && TextLess(a[1..], b[1..])))
  }

  /** A text comes first where the two differ first, a proper beginning before what continues it. */
  lemma {:induction false} TextLessMeaning(a: string, b: string, n: nat)
    requires n <= |a| && n <= |b| && a[..n] == b[..n]
    requires n == |a| || n == |b| || a[n] != b[n]
    ensures TextLess(a, b) <==> n < |b| && (n == |a| || a[n] < b[n])
  {
    if n > 0 {
      assert a[0] == a[..n][0] == b[..n][0] == b[0];
      assert a[1..][..n - 1] == a[..n][1..] && b[1..][..n - 1] == b[..n][1..];
      TextLessMeaning(a[1..], b[1..], n - 1);
    }
  }

  lemma {:induction false} TextLessTotal(a: string, b: string)
    ensures !(TextLess(a, b) && TextLess(b, a))
    ensures a != b ==> TextLess(a, b) || TextLess(b, a)
    ensures a == b ==> !TextLess(a, b)
  {
    if a != [] && b != [] {
      TextLessTotal(a[1..], b[1..]);
      assert a == [a[0]] + a[1..] && b == [b[0]] + b[1..];
    }
  }

  lemma {:induction false} TextLessTransitive(a: string, b: string, c: string)
    requires TextLess(a, b) && TextLess(b, c)
    ensures TextLess(a, c)
  {
    if a != [] && b != [] && a[0] == b[0] && b[0] == c[0] {
      TextLessTransitive(a[1..], b[1..], c[1..]);
    }
  }

  /** x stands before y in the list. */
  predicate StandsBefore<T(==)>(s: seq<T>, x: T, y: T) {
    exists a, b :: 0 <= a < b < |s| && s[a] == x && s[b] == y
  }

  lemma NoElements<T(!new)>(s: seq<T>)
    ensures s == [] || exists x :: x in s
  {
    if s != [] {
      assert s[0] in s;
    }
  }

  function Elements<T>(s: seq<T>): set<T> {
    set x | x in s
  }

  /** A sequence without repeats has as many elements as the set of its elements. */
  lemma {:induction false} NoDupCard<T>(s: seq<T>)
    requires NoDup(s)
    ensures |Elements(s)| == |s|
  {
    if s == [] {
      assert Elements(s) == {};
    } else {
      var front, last := s[..|s| - 1], s[|s| - 1];
      NoDupCard(front);
      assert s == front + [last];
      assert Elements(s) == Elements(front) + {last};
    }
  }

  lemma SubsetCard<T>(a: set<T>, b: set<T>)
    requires a <= b
    ensures |a| <= |b|
  {
    if a != {} {
      var x :| x in a;
      SubsetCard(a - {x}, b - {x});
    }
  }

  lemma StrictSubsetCard<T>(a: set<T>, b: set<T>)
    requires a < b
    ensures |a| < |b|
  {
    var x :| x in b && x !in a;
    SubsetCard(a, b - {x});
  }
}
