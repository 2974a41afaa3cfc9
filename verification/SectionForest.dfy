/** The forest an outline of levels describes: the parent of an entry is the nearest
    earlier entry of strictly smaller level, and walking the forest in preorder gives
    back the outline. Entries are known by their position. */
module SectionForest {
  import opened Wrappers

  /** The nearest entry before j of a level below the one given. */
  function Nearest(ls: seq<nat>, j: nat, level: nat): Option<nat>
    requires j <= |ls|
  {
    if j == 0 then None else if ls[j - 1] < level then Some(j - 1) else Nearest(ls, j - 1, level)
  }

  function Parent(ls: seq<nat>, i: nat): Option<nat>
    requires i < |ls|
  {
    Nearest(ls, i, ls[i])
  }

  predicate Between(ks: seq<nat>, lo: nat, hi: nat) {
    forall i :: 0 <= i < |ks| ==> lo <= ks[i] < hi
  }

  /** The entries from lo up to hi whose parent is p, in order. */
  function KidsIn(ls: seq<nat>, p: Option<nat>, lo: nat, hi: nat): (ks: seq<nat>)
    requires hi <= |ls|
    ensures Between(ks, lo, hi)
    decreases hi
  {
    if hi <= lo then []
    else
      var before := KidsIn(ls, p, lo, hi - 1);
      if Parent(ls, hi - 1) == p then before + [hi - 1] else before
  }

  function Kids(ls: seq<nat>, p: Option<nat>): (ks: seq<nat>)
    ensures Between(ks, 0, |ls|)
  {
    KidsIn(ls, p, 0, |ls|)
  }

  lemma {:induction false} NearestFacts(ls: seq<nat>, j: nat, level: nat)
    requires j <= |ls|
    ensures match Nearest(ls, j, level)
            case Some(k) => k < j && ls[k] < level && forall m :: k < m < j ==> ls[m] >= level
            case None => forall m :: 0 <= m < j ==> ls[m] >= level
  {
    if j > 0 {
      NearestFacts(ls, j - 1, level);
    }
  }

  /** Those facts determine the nearest entry. */
  lemma {:induction false} NearestIs(ls: seq<nat>, j: nat, level: nat, k: nat)
    requires k < j <= |ls| && ls[k] < level && forall m :: k < m < j ==> ls[m] >= level
    ensures Nearest(ls, j, level) == Some(k)
  {
    if k < j - 1 {
      NearestIs(ls, j - 1, level, k);
    }
  }

  lemma {:induction false} NearestNone(ls: seq<nat>, j: nat, level: nat)
    requires j <= |ls| && forall m :: 0 <= m < j ==> ls[m] >= level
    ensures Nearest(ls, j, level) == None
  {
    if j > 0 {
      NearestNone(ls, j - 1, level);
    }
  }

  // ---- the stack -----------------------------------------------------------

  /** What the builder's stack holds after n entries: the last entry and its ancestors. */
  function Spine(ls: seq<nat>, n: nat): (s: seq<nat>)
    requires n <= |ls|
    ensures Between(s, 0, n)
    ensures n > 0 ==> s != [] && s[|s| - 1] == n - 1
    ensures n == 0 ==> s == []
    decreases n
  {
    if n == 0 then []
    else
      NearestFacts(ls, n - 1, ls[n - 1]);
      match Parent(ls, n - 1)
      case None => [n - 1]
      case Some(p) => Spine(ls, p + 1) + [n - 1]
  }

  function Above(p: Option<nat>): nat {
    if p.Some? then p.value + 1 else 0
  }

  /** Popping an entry of no smaller level does not lose the nearest smaller one. */
  lemma PopKeepsNearest(ls: seq<nat>, m: nat, level: nat)
    requires 0 < m <= |ls| && ls[m - 1] >= level
    ensures Above(Parent(ls, m - 1)) < m
    ensures Nearest(ls, m, level) == Nearest(ls, Above(Parent(ls, m - 1)), level)
    ensures Spine(ls, m)[..|Spine(ls, m)| - 1] == Spine(ls, Above(Parent(ls, m - 1)))
  {
    NearestFacts(ls, m - 1, ls[m - 1]);
    SkipTo(ls, Above(Parent(ls, m - 1)), m, level);
  }

  lemma {:induction false} SkipTo(ls: seq<nat>, j: nat, m: nat, level: nat)
    requires j <= m <= |ls| && forall k :: j <= k < m ==> ls[k] >= level
    ensures Nearest(ls, m, level) == Nearest(ls, j, level)
    decreases m
  {
    if j < m {
      SkipTo(ls, j, m - 1, level);
    }
  }

  lemma SpineNext(ls: seq<nat>, n: nat)
    requires n < |ls|
    ensures Above(Parent(ls, n)) <= n && Spine(ls, n + 1) == Spine(ls, Above(Parent(ls, n))) + [n]
  {
    NearestFacts(ls, n, ls[n]);
  }

  // ---- preorder ------------------------------------------------------------

  function Range(lo: nat, hi: nat): (s: seq<nat>)
    ensures |s| == if lo < hi then hi - lo else 0
    ensures forall i :: 0 <= i < |s| ==> s[i] == lo + i
  {
    if hi <= lo then [] else seq(hi - lo, i requires 0 <= i => lo + i)
  }

  /** Each entry followed by the walk of its children; lo bounds the entries from below. */
  function Walk(ls: seq<nat>, lo: nat, ks: seq<nat>): (w: seq<nat>)
    requires Between(ks, lo, |ls|)
    ensures Between(w, 0, |ls|)
    decreases |ls| - lo, |ks|
  {
    if ks == [] then []
    else
      var n := |ks| - 1;
      KidsFollow(ls, ks[n]);
      Walk(ls, lo, ks[..n]) + ([ks[n]] + Walk(ls, ks[n] + 1, Kids(ls, Some(ks[n]))))
  }

  lemma KidsFollow(ls: seq<nat>, p: nat)
    ensures Between(Kids(ls, Some(p)), p + 1, |ls|)
  {
    KidsAfter(ls, p, |ls|);
  }

  lemma {:induction false} KidsAfter(ls: seq<nat>, p: nat, hi: nat)
    requires hi <= |ls|
    ensures Between(KidsIn(ls, Some(p), 0, hi), p + 1, hi)
  {
    if hi > 0 {
      KidsAfter(ls, p, hi - 1);
      NearestFacts(ls, hi - 1, ls[hi - 1]);
    }
  }

  lemma {:induction false} KidsSplit(ls: seq<nat>, p: Option<nat>, lo: nat, m: nat, hi: nat)
    requires lo <= m <= hi <= |ls|
    ensures KidsIn(ls, p, lo, hi) == KidsIn(ls, p, lo, m) + KidsIn(ls, p, m, hi)
    decreases hi
  {
    if m < hi {
      KidsSplit(ls, p, lo, m, hi - 1);
    }
  }

  lemma {:induction false} NoKidsIn(ls: seq<nat>, p: Option<nat>, lo: nat, hi: nat)
    requires hi <= |ls| && forall k :: lo <= k < hi ==> Parent(ls, k) != p
    ensures KidsIn(ls, p, lo, hi) == []
    decreases hi
  {
    if lo < hi {
      NoKidsIn(ls, p, lo, hi - 1);
    }
  }

  /** A level below every level that can follow p inside its part of the outline. */
  predicate Inside(ls: seq<nat>, p: Option<nat>, k: nat)
    requires k < |ls|
  {
    p.None? || (p.value < |ls| && ls[p.value] < ls[k])
  }

  /** lo..hi is the rest of p's part of the outline, lo being one of its children. */
  ghost predicate Block(ls: seq<nat>, p: Option<nat>, lo: nat, hi: nat) {
    && Above(p) <= lo <= hi <= |ls|
    && (forall k :: lo <= k < hi ==> Inside(ls, p, k))
    && (lo < hi ==> Parent(ls, lo) == p)
  }

  /** Where the part of the outline that starts at lo ends. */
  function EndOf(ls: seq<nat>, lo: nat, from: nat, hi: nat): (m: nat)
    requires lo < from <= hi <= |ls|
    ensures from <= m <= hi && (forall k :: from <= k < m ==> ls[k] > ls[lo]) && (m < hi ==> ls[m] <= ls[lo])
    decreases hi - from
  {
    if from == hi || ls[from] <= ls[lo] then from else EndOf(ls, lo, from + 1, hi)
  }

  /** The part of lo. */
  lemma FirstBlock(ls: seq<nat>, p: Option<nat>, lo: nat, hi: nat, m: nat)
    requires Block(ls, p, lo, hi) && lo < hi && m == EndOf(ls, lo, lo + 1, hi)
    ensures Block(ls, Some(lo), lo + 1, m)
  {
    if lo + 1 < m {
      NearestIs(ls, lo + 1, ls[lo + 1], lo);
    }
  }

  /** holds no other child of p. */
  lemma OnlyKid(ls: seq<nat>, p: Option<nat>, lo: nat, hi: nat, m: nat)
    requires Block(ls, p, lo, hi) && lo < hi && m == EndOf(ls, lo, lo + 1, hi)
    ensures KidsIn(ls, p, lo, m) == [lo]
  {
    OthersBelow(ls, p, lo, hi, m);
    OneKid(ls, p, lo, m);
  }

  lemma OneKid(ls: seq<nat>, p: Option<nat>, lo: nat, m: nat)
    requires lo < m <= |ls| && Parent(ls, lo) == p && forall k :: lo + 1 <= k < m ==> Parent(ls, k) != p
    ensures KidsIn(ls, p, lo, m) == [lo]
  {
    NoKidsIn(ls, p, lo + 1, m);
    KidsSplit(ls, p, lo, lo + 1, m);
    assert KidsIn(ls, p, lo, lo) == [];
  }

  lemma OthersBelow(ls: seq<nat>, p: Option<nat>, lo: nat, hi: nat, m: nat)
    requires Block(ls, p, lo, hi) && lo < hi && m == EndOf(ls, lo, lo + 1, hi)
    ensures forall k :: lo + 1 <= k < m ==> Parent(ls, k) != p
  {
    forall k | lo + 1 <= k < m
      ensures Parent(ls, k) != p
    {
      NearestFacts(ls, k, ls[k]);
    }
  }

  lemma RestBlock(ls: seq<nat>, p: Option<nat>, lo: nat, hi: nat, m: nat)
    requires Block(ls, p, lo, hi) && lo < hi && m == EndOf(ls, lo, lo + 1, hi)
    ensures Block(ls, p, m, hi)
  {
    if m < hi {
      NearestFacts(ls, lo, ls[lo]);
      assert Inside(ls, p, m);
      assert forall k :: Above(p) <= k < m ==> ls[k] >= ls[m];
      if p.Some? {
        NearestIs(ls, m, ls[m], p.value);
      } else {
        NearestNone(ls, m, ls[m]);
      }
    }
  }

  lemma NotKid(ls: seq<nat>, lo: nat, m: nat, hi: nat, k: nat)
    requires lo < hi <= |ls| && m == EndOf(ls, lo, lo + 1, hi) && (hi < |ls| ==> ls[hi] <= ls[lo])
    requires k < |ls| && (k <= lo || m <= k)
    ensures Parent(ls, k) != Some(lo)
  {
    NearestFacts(ls, k, ls[k]);
    if m < k {
      assert m < |ls| && ls[m] <= ls[lo];
    }
  }

  /** All children of lo lie in its own part of the outline. */
  lemma OwnKids(ls: seq<nat>, lo: nat, m: nat, hi: nat)
    requires lo < hi <= |ls| && m == EndOf(ls, lo, lo + 1, hi)
    requires hi < |ls| ==> ls[hi] <= ls[lo]
    ensures Kids(ls, Some(lo)) == KidsIn(ls, Some(lo), lo + 1, m)
  {
    forall k | 0 <= k < |ls| && (k <= lo || m <= k)
      ensures Parent(ls, k) != Some(lo)
    {
      NotKid(ls, lo, m, hi, k);
    }
    KidsSplit(ls, Some(lo), 0, lo + 1, |ls|);
    KidsSplit(ls, Some(lo), lo + 1, m, |ls|);
    NoKidsIn(ls, Some(lo), 0, lo + 1);
    NoKidsIn(ls, Some(lo), m, |ls|);
  }

  lemma {:induction false} WalkBlock(ls: seq<nat>, p: Option<nat>, at: nat, lo: nat, hi: nat)
    requires Block(ls, p, lo, hi) && at <= lo
    requires hi < |ls| ==> p.Some? && ls[hi] <= ls[p.value]
    ensures Walk(ls, at, KidsIn(ls, p, lo, hi)) == Range(lo, hi)
    decreases hi - lo, 0
  {
    if lo < hi {
      var m := EndOf(ls, lo, lo + 1, hi);
      WalkOwn(ls, p, lo, hi, m);
      RestBlock(ls, p, lo, hi, m);
      WalkBlock(ls, p, at, m, hi);
      var later := KidsIn(ls, p, m, hi);
      FirstKid(ls, p, lo, hi, m, later);
      KidsFollow(ls, lo);
      WalkJoin(ls, at, lo, m, hi, later, KidsIn(ls, p, lo, hi));
    }
  }

  lemma FirstKid(ls: seq<nat>, p: Option<nat>, lo: nat, hi: nat, m: nat, later: seq<nat>)
    requires Block(ls, p, lo, hi) && lo < hi && m == EndOf(ls, lo, lo + 1, hi) && later == KidsIn(ls, p, m, hi)
    ensures KidsIn(ls, p, lo, hi) == [lo] + later
  {
    OnlyKid(ls, p, lo, hi, m);
    KidsSplit(ls, p, lo, m, hi);
  }

  /** The walk of the children of lo is the rest of its own part. */
  lemma {:induction false} WalkOwn(ls: seq<nat>, p: Option<nat>, lo: nat, hi: nat, m: nat)
    requires Block(ls, p, lo, hi) && lo < hi && m == EndOf(ls, lo, lo + 1, hi)
    requires hi < |ls| ==> p.Some? && ls[hi] <= ls[p.value]
    ensures Between(Kids(ls, Some(lo)), lo + 1, |ls|)
    ensures Walk(ls, lo + 1, Kids(ls, Some(lo))) == Range(lo + 1, m)
    decreases hi - lo - 1, 1
  {
    assert Inside(ls, p, lo);
    KidsFollow(ls, lo);
    FirstBlock(ls, p, lo, hi, m);
    OwnKids(ls, lo, m, hi);
    WalkBlock(ls, Some(lo), lo + 1, lo + 1, m);
  }

  lemma WalkJoin(ls: seq<nat>, at: nat, lo: nat, m: nat, hi: nat, later: seq<nat>, all: seq<nat>)
    requires at <= lo < m <= hi <= |ls| && all == [lo] + later && Between(later, at, |ls|)
    requires Between(Kids(ls, Some(lo)), lo + 1, |ls|)
    requires Walk(ls, lo + 1, Kids(ls, Some(lo))) == Range(lo + 1, m) && Walk(ls, at, later) == Range(m, hi)
    ensures Walk(ls, at, all) == Range(lo, hi)
  {
    WalkCons(ls, at, lo, later);
    RangeJoin(lo, m, hi);
  }

  lemma RangeJoin(lo: nat, m: nat, hi: nat)
    requires lo < m <= hi
    ensures [lo] + Range(lo + 1, m) + Range(m, hi) == Range(lo, hi)
  {
  }

  /** Walking two runs of entries one after the other. */
  lemma {:induction false} WalkAppend(ls: seq<nat>, at: nat, a: seq<nat>, b: seq<nat>)
    requires Between(a, at, |ls|) && Between(b, at, |ls|)
    ensures Walk(ls, at, a + b) == Walk(ls, at, a) + Walk(ls, at, b)
    decreases |b|
  {
    if b == [] {
      assert a + b == a;
    } else {
      var c, k := b[..|b| - 1], b[|b| - 1];
      WalkAppend(ls, at, a, c);
      WalkAppendLast(ls, at, a, c, k, b);
    }
  }

  lemma WalkAppendLast(ls: seq<nat>, at: nat, a: seq<nat>, c: seq<nat>, k: nat, b: seq<nat>)
    requires Between(a, at, |ls|) && Between(c, at, |ls|) && at <= k < |ls| && b == c + [k]
    requires Walk(ls, at, a + c) == Walk(ls, at, a) + Walk(ls, at, c)
    ensures Walk(ls, at, a + b) == Walk(ls, at, a) + Walk(ls, at, b)
  {
    KidsFollow(ls, k);
    WalkSnoc(ls, at, c, k);
    WalkSnoc(ls, at, a + c, k);
    Assoc(a, c, [k]);
    Assoc(Walk(ls, at, a), Walk(ls, at, c), [k] + Walk(ls, k + 1, Kids(ls, Some(k))));
  }

  lemma WalkSnoc(ls: seq<nat>, at: nat, ks: seq<nat>, k: nat)
    requires Between(ks, at, |ls|) && at <= k < |ls| && Between(Kids(ls, Some(k)), k + 1, |ls|)
    ensures Walk(ls, at, ks + [k]) == Walk(ls, at, ks) + ([k] + Walk(ls, k + 1, Kids(ls, Some(k))))
  {
    assert (ks + [k])[..|ks|] == ks;
  }

  lemma WalkOne(ls: seq<nat>, at: nat, k: nat)
    requires at <= k < |ls| && Between(Kids(ls, Some(k)), k + 1, |ls|)
    ensures Walk(ls, at, [k]) == [k] + Walk(ls, k + 1, Kids(ls, Some(k)))
  {
    assert [k][..0] == [];
  }

  lemma WalkCons(ls: seq<nat>, at: nat, k: nat, ks: seq<nat>)
    requires at <= k < |ls| && Between(ks, at, |ls|)
    requires Between(Kids(ls, Some(k)), k + 1, |ls|)
    ensures Walk(ls, at, [k] + ks) == [k] + Walk(ls, k + 1, Kids(ls, Some(k))) + Walk(ls, at, ks)
  {
    WalkAppend(ls, at, [k], ks);
    WalkOne(ls, at, k);
  }

  /** The preorder walk of the forest is the outline itself. */
  lemma WalkIsOutline(ls: seq<nat>)
    ensures Walk(ls, 0, Kids(ls, None)) == Range(0, |ls|)
  {
    if ls != [] {
      assert Parent(ls, 0) == None;
    }
    WalkBlock(ls, None, 0, 0, |ls|);
  }
}
