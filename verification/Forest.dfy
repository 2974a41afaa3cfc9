/** Parent pointers as a finite partial map: reachability, acyclicity, and how
    both change when pointers are rewritten. */
module Forest {
  import opened Wrappers

  /** Child to parent; a root is outside the domain. */
  type Up = map<int, int>

  /** The ancestor n levels above x, if x has that many. */
  function Climb(up: Up, x: int, n: nat): Option<int>
    decreases n
  {
    if n == 0 then Some(x) else if x in up then Climb(up, up[x], n - 1) else None
  }

  /** x is a or sits somewhere under a. */
  ghost predicate Below(up: Up, a: int, x: int) {
    exists n: nat :: Climb(up, x, n) == Some(a)
  }

  /** Climbing from x reaches a root. */
  ghost predicate Grounded(up: Up, x: int) {
    exists n: nat :: Climb(up, x, n) == None
  }

  ghost predicate Acyclic(up: Up) {
    forall x :: Grounded(up, x)
  }

  // ---- climbing ------------------------------------------------------------

  lemma {:induction false} ClimbAdd(up: Up, x: int, m: nat, n: nat)
    requires Climb(up, x, m).Some?
    ensures Climb(up, x, m + n) == Climb(up, Climb(up, x, m).value, n)
    decreases m
  {
    if m > 0 {
      ClimbAdd(up, up[x], m - 1, n);
    }
  }

  lemma BelowUnfold(up: Up, a: int, x: int)
    ensures Below(up, a, x) <==> a == x || (x in up && Below(up, a, up[x]))
  {
    assert Climb(up, x, 0) == Some(x);
    if x in up && Below(up, a, up[x]) {
      var n: nat :| Climb(up, up[x], n) == Some(a);
      assert Climb(up, x, n + 1) == Some(a);
    }
    if Below(up, a, x) && a != x {
      var n: nat :| Climb(up, x, n) == Some(a);
      assert Climb(up, up[x], n - 1) == Some(a);
    }
  }

  lemma BelowTrans(up: Up, a: int, b: int, x: int)
    requires Below(up, a, b) && Below(up, b, x)
    ensures Below(up, a, x)
  {
    var m: nat :| Climb(up, x, m) == Some(b);
    var n: nat :| Climb(up, b, n) == Some(a);
    ClimbAdd(up, x, m, n);
    assert Climb(up, x, m + n) == Some(a);
  }

  /** Two ancestors of one topic are comparable: each topic has one parent. */
  lemma AncestorsComparable(up: Up, a: int, b: int, x: int)
    requires Below(up, a, x) && Below(up, b, x)
    ensures Below(up, a, b) || Below(up, b, a)
  {
    var m: nat :| Climb(up, x, m) == Some(a);
    var n: nat :| Climb(up, x, n) == Some(b);
    if m <= n {
      ClimbAdd(up, x, m, n - m);
      assert Climb(up, a, n - m) == Some(b);
    } else {
      ClimbAdd(up, x, n, m - n);
      assert Climb(up, b, m - n) == Some(a);
    }
  }

  lemma {:induction false} NoReturn(up: Up, x: int, k: nat, n: nat)
    requires Climb(up, x, k) == None && n > 0
    ensures Climb(up, x, n) != Some(x)
    decreases k
  {
    if k > 0 && Climb(up, x, n) == Some(x) {
      var p := up[x];
      ClimbAdd(up, x, n, 1);
      assert Climb(up, x, n + 1) == Climb(up, x, 1);
      assert Climb(up, x, 1) == Climb(up, p, 0);
      assert Climb(up, x, n + 1) == Climb(up, p, n);
      NoReturn(up, p, k - 1, n);
    }
  }

  /** No topic of a grounded chain is strictly below itself. */
  lemma BelowAntisymmetric(up: Up, a: int, b: int)
    requires Grounded(up, a) && Below(up, a, b) && Below(up, b, a)
    ensures a == b
  {
    var k: nat :| Climb(up, a, k) == None;
    var m: nat :| Climb(up, b, m) == Some(a);
    var n: nat :| Climb(up, a, n) == Some(b);
    ClimbAdd(up, a, n, m);
    if m + n > 0 {
      NoReturn(up, a, k, m + n);
    }
  }

  lemma GroundedBelow(up: Up, a: int, x: int)
    requires Grounded(up, a) && Below(up, a, x)
    ensures Grounded(up, x)
  {
    var k: nat :| Climb(up, a, k) == None;
    var n: nat :| Climb(up, x, n) == Some(a);
    ClimbAdd(up, x, n, k);
    assert Climb(up, x, n + k) == None;
  }

  lemma GroundedUnfold(up: Up, x: int)
    ensures Grounded(up, x) <==> (x in up ==> Grounded(up, up[x]))
  {
    if Grounded(up, x) && x in up {
      var k: nat :| Climb(up, x, k) == None;
      assert Climb(up, up[x], k - 1) == None;
    }
    if x in up && Grounded(up, up[x]) {
      var k: nat :| Climb(up, up[x], k) == None;
      assert Climb(up, x, k + 1) == None;
    }
    if x !in up {
      assert Climb(up, x, 1) == None;
    }
  }

  // ---- one pointer rewritten -----------------------------------------------

  /** The pointers after x is put under q, or made a root. */
  function Moved(up: Up, x: int, q: Option<int>): Up {
    if q.Some? then up[x := q.value] else up - {x}
  }

  /** Chains that never meet x are untouched by moving x. */
  lemma {:induction false} MovedOutside(up: Up, x: int, q: Option<int>, y: int, n: nat)
    requires !Below(up, x, y)
    ensures Climb(Moved(up, x, q), y, n) == Climb(up, y, n)
    decreases n
  {
    BelowUnfold(up, x, y);
    if n > 0 && y in up {
      MovedOutside(up, x, q, up[y], n - 1);
    }
  }

  lemma BelowMovedOutside(up: Up, x: int, q: Option<int>, a: int, y: int)
    requires !Below(up, x, y)
    ensures Below(Moved(up, x, q), a, y) <==> Below(up, a, y)
  {
    forall n: nat {
      MovedOutside(up, x, q, y, n);
    }
  }

  lemma {:induction false} MovedBelowAt(up: Up, x: int, q: Option<int>, a: int, y: int, k: nat)
    requires Climb(up, y, k) == None
    requires q.Some? ==> !Below(up, x, q.value)
    ensures Below(Moved(up, x, q), a, y) <==>
            if Below(up, x, y)
            then (Below(up, x, a) && Below(up, a, y)) || (q.Some? && Below(up, a, q.value))
            else Below(up, a, y)
    ensures Grounded(up, y) ==> (q.Some? ==> Grounded(up, q.value)) ==> Grounded(Moved(up, x, q), y)
    decreases k
  {
    var up' := Moved(up, x, q);
    BelowUnfold(up, x, y);
    BelowUnfold(up, a, y);
    BelowUnfold(up', a, y);
    GroundedUnfold(up', y);
    if y == x {
      if q.Some? {
        BelowMovedOutside(up, x, q, a, q.value);
        if Grounded(up, q.value) {
          var m: nat :| Climb(up, q.value, m) == None;
          MovedOutside(up, x, q, q.value, m);
        }
      }
      assert Grounded(up, x);
      if Below(up, x, a) && Below(up, a, x) {
        BelowAntisymmetric(up, x, a);
      }
      BelowUnfold(up, x, x);
    } else if y in up {
      BelowUnfold(up, x, up[y]);
      MovedBelowAt(up, x, q, a, up[y], k - 1);
      GroundedUnfold(up, y);
      if Below(up, x, y) && a == y {
        assert Below(up, x, a);
      }
    }
  }

  /** What moving x under q does to every pair: topics under x trade their old
      ancestors above x for q and q's ancestors; nothing else changes. */
  lemma MovedBelow(up: Up, x: int, q: Option<int>, a: int, y: int)
    requires Acyclic(up)
    requires q.Some? ==> !Below(up, x, q.value)
    ensures Below(Moved(up, x, q), a, y) <==>
            if Below(up, x, y)
            then (Below(up, x, a) && Below(up, a, y)) || (q.Some? && Below(up, a, q.value))
            else Below(up, a, y)
  {
    assert Grounded(up, y);
    var k: nat :| Climb(up, y, k) == None;
    MovedBelowAt(up, x, q, a, y, k);
  }

  lemma {:induction false} PathKept(up: Up, x: int, q: int, y: int, n: nat)
    requires Climb(up, y, n) == Some(x)
    ensures Below(up[x := q], x, y)
    decreases n
  {
    BelowUnfold(up[x := q], x, y);
    if y != x {
      PathKept(up, x, q, up[y], n - 1);
    }
  }

  /** Moving x under q keeps the forest acyclic exactly when q is not at or
      below x: the cycle test of the re-parent operation is exact. */
  lemma MovedAcyclic(up: Up, x: int, q: Option<int>)
    requires Acyclic(up)
    ensures Acyclic(Moved(up, x, q)) <==> !(q.Some? && Below(up, x, q.value))
  {
    var up' := Moved(up, x, q);
    if q.Some? && Below(up, x, q.value) {
      var n: nat :| Climb(up, q.value, n) == Some(x);
      PathKept(up, x, q.value, q.value, n);
      var m: nat :| Climb(up', q.value, m) == Some(x);
      assert Climb(up', x, m + 1) == Some(x);
      if Grounded(up', x) {
        var k: nat :| Climb(up', x, k) == None;
        NoReturn(up', x, k, m + 1);
      }
    } else {
      forall y
        ensures Grounded(up', y)
      {
        assert Grounded(up, y);
        var k: nat :| Climb(up, y, k) == None;
        assert q.Some? ==> Grounded(up, q.value);
        MovedBelowAt(up, x, q, y, y, k);
      }
    }
  }

  // ---- one topic removed, its children redirected --------------------------

  /** The pointers after s is removed and its children put under t, or made roots. */
  function Redirected(up: Up, s: int, t: Option<int>): Up {
    map x | x in up && x != s && (up[x] == s ==> t.Some?) :: if up[x] == s then t.value else up[x]
  }

  lemma {:induction false} RedirectedOutside(up: Up, s: int, t: Option<int>, y: int, n: nat)
    requires !Below(up, s, y)
    ensures Climb(Redirected(up, s, t), y, n) == Climb(up, y, n)
    decreases n
  {
    BelowUnfold(up, s, y);
    if n > 0 && y in up {
      BelowUnfold(up, s, up[y]);
      RedirectedOutside(up, s, t, up[y], n - 1);
    }
  }

  lemma {:induction false} RedirectedBelowAt(up: Up, s: int, t: Option<int>, a: int, y: int, k: nat)
    requires Climb(up, y, k) == None && Acyclic(up)
    requires t.Some? ==> !Below(up, s, t.value)
    requires a != s && y != s
    ensures Below(Redirected(up, s, t), a, y) <==>
            if Below(up, s, y)
            then (Below(up, s, a) && Below(up, a, y)) || (t.Some? && Below(up, a, t.value))
            else Below(up, a, y)
    ensures Grounded(Redirected(up, s, t), y)
    decreases k
  {
    var up' := Redirected(up, s, t);
    BelowUnfold(up, s, y);
    BelowUnfold(up, a, y);
    BelowUnfold(up', a, y);
    GroundedUnfold(up', y);
    if y in up {
      BelowUnfold(up, s, up[y]);
      BelowUnfold(up, a, up[y]);
      if up[y] == s {
        assert Below(up, s, s);
        if t.Some? {
          forall n: nat {
            RedirectedOutside(up, s, t, t.value, n);
          }
          assert Grounded(up, t.value);
        }
        if Below(up, s, a) && Below(up, a, s) {
          assert Grounded(up, s);
          BelowAntisymmetric(up, s, a);
        }
      } else {
        RedirectedBelowAt(up, s, t, a, up[y], k - 1);
      }
    }
  }

  /** Removing s and hanging its children under t (not itself below s): topics
      that were under s keep their ancestors below s and gain t and its
      ancestors; nothing else changes, and no cycle appears. */
  lemma RedirectedBelow(up: Up, s: int, t: Option<int>, a: int, y: int)
    requires Acyclic(up) && a != s && y != s
    requires t.Some? ==> !Below(up, s, t.value)
    ensures Below(Redirected(up, s, t), a, y) <==>
            if Below(up, s, y)
            then (Below(up, s, a) && Below(up, a, y)) || (t.Some? && Below(up, a, t.value))
            else Below(up, a, y)
  {
    assert Grounded(up, y);
    var k: nat :| Climb(up, y, k) == None;
    RedirectedBelowAt(up, s, t, a, y, k);
  }

  lemma RedirectedAcyclic(up: Up, s: int, t: Option<int>)
    requires Acyclic(up)
    requires t.Some? ==> !Below(up, s, t.value)
    ensures Acyclic(Redirected(up, s, t))
  {
    forall y
      ensures Grounded(Redirected(up, s, t), y)
    {
      if y == s {
        GroundedUnfold(Redirected(up, s, t), s);
      } else {
        assert Grounded(up, y);
        var k: nat :| Climb(up, y, k) == None;
        RedirectedBelowAt(up, s, t, y, y, k);
      }
    }
  }
}
