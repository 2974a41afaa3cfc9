/** A stable sort, as Python's `sorted` and an ORDER BY provide, and the
    lexicographic order on strings. */
module Sorting {

  ghost predicate TotalPreorder<T(!new)>(leq: (T, T) -> bool) {
    && (forall x, y :: leq(x, y) || leq(y, x))
    && (forall x, y, z :: leq(x, y) && leq(y, z) ==> leq(x, z))
  }

  ghost predicate SortedBy<T(!new)>(leq: (T, T) -> bool, s: seq<T>) {
    forall i, j :: 0 <= i < j < |s| ==> leq(s[i], s[j])
  }

  /** x goes in front of the first element it does not exceed, hence in front of its ties. */
  function Insert<T>(leq: (T, T) -> bool, x: T, s: seq<T>): seq<T> {
    if s == [] || leq(x, s[0]) then [x] + s else [s[0]] + Insert(leq, x, s[1..])
  }

  function Sort<T>(leq: (T, T) -> bool, s: seq<T>): seq<T> {
    if s == [] then [] else Insert(leq, s[0], Sort(leq, s[1..]))
  }

  lemma {:induction false} InsertFacts<T(!new)>(leq: (T, T) -> bool, x: T, s: seq<T>)
    requires TotalPreorder(leq) && SortedBy(leq, s)
    ensures SortedBy(leq, Insert(leq, x, s))
    ensures multiset(Insert(leq, x, s)) == multiset(s) + multiset{x}
    decreases |s|
  {
    if s != [] && !leq(x, s[0]) {
      InsertFacts(leq, x, s[1..]);
      assert s == [s[0]] + s[1..];
      HeadBelow(leq, x, s, Insert(leq, x, s[1..]));
    } else if s != [] {
      assert forall j :: 0 <= j < |s| ==> leq(s[0], s[j]);
    }
  }

  lemma HeadBelow<T(!new)>(leq: (T, T) -> bool, x: T, s: seq<T>, r: seq<T>)
    requires TotalPreorder(leq) && SortedBy(leq, s) && s != [] && !leq(x, s[0])
    requires multiset(r) == multiset(s[1..]) + multiset{x}
    ensures forall j :: 0 <= j < |r| ==> leq(s[0], r[j])
  {
    forall j | 0 <= j < |r|
      ensures leq(s[0], r[j])
    {
      assert r[j] in multiset(r);
      if r[j] != x {
        assert r[j] in s[1..];
      }
    }
  }

  /** Sorting puts the same elements in order. */
  lemma {:induction false} SortFacts<T(!new)>(leq: (T, T) -> bool, s: seq<T>)
    requires TotalPreorder(leq)
    ensures SortedBy(leq, Sort(leq, s)) && multiset(Sort(leq, s)) == multiset(s)
    ensures |Sort(leq, s)| == |s|
    decreases |s|
  {
    if s != [] {
      SortFacts(leq, s[1..]);
      InsertFacts(leq, s[0], Sort(leq, s[1..]));
      assert s == [s[0]] + s[1..];
    }
    SameLength(Sort(leq, s), s);
  }

  lemma SameLength<T>(a: seq<T>, b: seq<T>)
    requires multiset(a) == multiset(b)
    ensures |a| == |b|
  {
    assert |a| == |multiset(a)| == |multiset(b)|;
  }

  lemma SortMembers<T(!new)>(leq: (T, T) -> bool, s: seq<T>)
    requires TotalPreorder(leq)
    ensures forall x :: x in Sort(leq, s) <==> x in s
  {
    SortFacts(leq, s);
    forall x
      ensures x in Sort(leq, s) <==> x in s
    {
      assert x in multiset(Sort(leq, s)) <==> x in multiset(s);
    }
  }

  ghost predicate NoRepeats<T>(s: seq<T>) {
    forall i, j :: 0 <= i < j < |s| ==> s[i] != s[j]
  }

  lemma {:induction false} NoRepeatsCount<T(!new)>(s: seq<T>)
    ensures NoRepeats(s) <==> forall x :: multiset(s)[x] <= 1
    decreases |s|
  {
    if s != [] {
      NoRepeatsCount(s[1..]);
      assert s == [s[0]] + s[1..];
      if NoRepeats(s) {
        assert s[0] !in s[1..];
        assert NoRepeats(s[1..]);
      }
      if forall x :: multiset(s)[x] <= 1 {
        assert multiset(s)[s[0]] == 1 + multiset(s[1..])[s[0]];
        assert s[0] !in multiset(s[1..]);
        assert forall x :: multiset(s[1..])[x] <= multiset(s)[x];
        forall i, j | 0 <= i < j < |s|
          ensures s[i] != s[j]
        {
          assert s[j] == s[1..][j - 1];
          if i > 0 {
            assert s[i] == s[1..][i - 1];
          }
        }
      }
    }
  }

  lemma SortNoRepeats<T(!new)>(leq: (T, T) -> bool, s: seq<T>)
    requires TotalPreorder(leq)
    ensures NoRepeats(Sort(leq, s)) <==> NoRepeats(s)
  {
    SortFacts(leq, s);
    NoRepeatsCount(s);
    NoRepeatsCount(Sort(leq, s));
  }

  ghost predicate Antisymmetric<T(!new)>(leq: (T, T) -> bool) {
    forall x, y :: leq(x, y) && leq(y, x) ==> x == y
  }

  lemma SameMembers<T(!new)>(a: seq<T>, b: seq<T>)
    requires NoRepeats(a) && NoRepeats(b) && (forall x :: x in a <==> x in b)
    ensures multiset(a) == multiset(b)
  {
    NoRepeatsCount(a);
    NoRepeatsCount(b);
    forall x
      ensures multiset(a)[x] == multiset(b)[x]
    {
      assert x in multiset(a) <==> x in a;
      assert x in multiset(b) <==> x in b;
    }
  }

  /** Sorting by an order in which nothing ties forgets how its input was arranged. */
  lemma {:induction false} SortedUnique<T(!new)>(leq: (T, T) -> bool, a: seq<T>, b: seq<T>)
    requires Antisymmetric(leq) && SortedBy(leq, a) && SortedBy(leq, b) && multiset(a) == multiset(b)
    ensures a == b
    decreases |a|
  {
    assert |a| == |multiset(a)| == |multiset(b)| == |b|;
    if a != [] {
      SameHead(leq, a, b);
      TailCounts(a);
      TailCounts(b);
      SortedUnique(leq, a[1..], b[1..]);
    }
  }

  lemma TailCounts<T>(s: seq<T>)
    requires s != []
    ensures s == [s[0]] + s[1..] && multiset(s[1..]) == multiset(s) - multiset{s[0]}
  {
    assert s == [s[0]] + s[1..];
  }

  lemma SameHead<T(!new)>(leq: (T, T) -> bool, a: seq<T>, b: seq<T>)
    requires Antisymmetric(leq) && SortedBy(leq, a) && SortedBy(leq, b) && multiset(a) == multiset(b) && a != []
    requires b != []
    ensures a[0] == b[0]
  {
    assert b[0] in multiset(a) && a[0] in multiset(b);
    HeadFirst(leq, a, b[0]);
    HeadFirst(leq, b, a[0]);
  }

  lemma HeadFirst<T(!new)>(leq: (T, T) -> bool, s: seq<T>, x: T)
    requires SortedBy(leq, s) && s != [] && (x in multiset(s) || x in s)
    ensures x == s[0] || leq(s[0], x)
  {
  }

  // ---- strings -------------------------------------------------------------

  predicate LexLeq(a: string, b: string) {
    a == "" || (b != "" && (a[0] < b[0] || (a[0] == b[0] && LexLeq(a[1..], b[1..]))))
  }

  lemma {:induction false} LexOrder(a: string, b: string, c: string)
    ensures LexLeq(a, b) || LexLeq(b, a)
    ensures LexLeq(a, b) && LexLeq(b, a) ==> a == b
    ensures LexLeq(a, b) && LexLeq(b, c) ==> LexLeq(a, c)
    decreases |a|
  {
    if a != "" && b != "" {
      LexOrder(a[1..], b[1..], if c == "" then "" else c[1..]);
      assert a == [a[0]] + a[1..] && b == [b[0]] + b[1..];
    }
  }
}
