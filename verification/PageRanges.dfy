/** Closing the page ranges of a section forest: in order of start page, each node ends
    on the page before the next one starts, and never before its own start. */
module PageRanges {
  import opened Wrappers
  import opened Sorting

  /** A node's start page and its place in the preorder walk. Sorting on both is the
      stable sort by page. */
  datatype Keyed = Keyed(page: int, at: nat)

  predicate KeyedLeq(a: Keyed, b: Keyed) {
    a.page < b.page || (a.page == b.page && a.at <= b.at)
  }

  /** The nodes that have a start page, in preorder. */
  function Paged(starts: seq<Option<int>>): (ks: seq<Keyed>)
    ensures forall k :: k in ks ==> k.at < |starts| && starts[k.at] == Some(k.page)
  {
    if starts == [] then []
    else
      var n := |starts| - 1;
      Paged(starts[..n]) + (if starts[n].Some? then [Keyed(starts[n].value, n)] else [])
  }

  function InPageOrder(starts: seq<Option<int>>): seq<Keyed> {
    Sort(KeyedLeq, Paged(starts))
  }

  function Max(a: int, b: int): int {
    if a < b then b else a
  }

  /** `following or 1`: a start page of zero counts as one. */
  function EndBefore(start: int, following: int): int {
    Max(start, (if following == 0 then 1 else following) - 1)
  }

  ghost predicate ClosedAt(flat: seq<Keyed>, before: seq<Option<int>>, after: seq<Option<int>>, i: nat)
    requires i < |flat|
  {
    var at := flat[i].at;
    && at < |before| && at < |after|
    && after[at] == if i + 1 < |flat| && before[at].None? then Some(EndBefore(flat[i].page, flat[i + 1].page))
       else before[at]
  }

  /** The end pages after closing: a node already closed is left alone, and the last one
      stays open. */
  ghost predicate Closed(starts: seq<Option<int>>, before: seq<Option<int>>, after: seq<Option<int>>) {
    var flat := InPageOrder(starts);
    && |before| == |starts| == |after|
    && (forall i :: 0 <= i < |flat| ==> ClosedAt(flat, before, after, i))
    && (forall m :: 0 <= m < |starts| && starts[m].None? ==> after[m] == before[m])
  }

  ghost predicate AllOpen(ends: seq<Option<int>>) {
    forall i :: 0 <= i < |ends| ==> ends[i].None?
  }

  /** A node left open is taken to cover its start page. */
  function EndPage(start: int, end: Option<int>): int {
    if end.Some? then end.value else start
  }

  ghost predicate Placed(flat: seq<Keyed>, n: nat) {
    && (forall i :: 0 <= i < |flat| ==> flat[i].at < n)
    && (forall i, j :: 0 <= i < j < |flat| ==> flat[i].at != flat[j].at)
  }

  /** The end pages once the first i nodes in page order have been assigned. */
  ghost function Assigned(flat: seq<Keyed>, before: seq<Option<int>>, i: nat): (ends: seq<Option<int>>)
    requires Placed(flat, |before|) && (i < |flat| || i == 0)
    ensures |ends| == |before|
  {
    if i == 0 then before
    else
      var ends := Assigned(flat, before, i - 1);
      var at := flat[i - 1].at;
      if ends[at].None? then ends[at := Some(EndBefore(flat[i - 1].page, flat[i].page))] else ends
  }

  lemma AssignedNext(flat: seq<Keyed>, before: seq<Option<int>>, i: nat, ends: seq<Option<int>>, at: nat)
    requires Placed(flat, |before|) && i + 1 < |flat| && ends == Assigned(flat, before, i) && at == flat[i].at
    ensures Assigned(flat, before, i + 1)
         == if ends[at].None? then ends[at := Some(EndBefore(flat[i].page, flat[i + 1].page))] else ends
  {
  }

  lemma {:induction false} Unassigned(flat: seq<Keyed>, before: seq<Option<int>>, i: nat, m: nat)
    requires Placed(flat, |before|) && (i < |flat| || i == 0) && m < |before|
    requires forall k :: 0 <= k < i ==> flat[k].at != m
    ensures Assigned(flat, before, i)[m] == before[m]
  {
    if i > 0 {
      Unassigned(flat, before, i - 1, m);
    }
  }

  lemma {:induction false} AssignedOnce(flat: seq<Keyed>, before: seq<Option<int>>, i: nat, k: nat)
    requires Placed(flat, |before|) && k < i < |flat|
    ensures ClosedAt(flat, before, Assigned(flat, before, i), k)
  {
    if k < i - 1 {
      AssignedOnce(flat, before, i - 1, k);
      assert flat[k].at != flat[i - 1].at;
    } else {
      assert forall j :: 0 <= j < k ==> flat[j].at != flat[k].at;
      Unassigned(flat, before, k, flat[k].at);
    }
  }

  /** Assigning all but the last closes the ranges. */
  lemma AssignedCloses(starts: seq<Option<int>>, before: seq<Option<int>>, i: nat)
    requires |before| == |starts| && Placed(InPageOrder(starts), |before|)
    requires if InPageOrder(starts) == [] then i == 0 else i + 1 == |InPageOrder(starts)|
    ensures Closed(starts, before, Assigned(InPageOrder(starts), before, i))
  {
    var flat := InPageOrder(starts);
    var after := Assigned(flat, before, i);
    forall k | 0 <= k < |flat|
      ensures ClosedAt(flat, before, after, k)
    {
      if k < i {
        AssignedOnce(flat, before, i, k);
      } else {
        assert forall j :: 0 <= j < i ==> flat[j].at != flat[k].at;
        Unassigned(flat, before, i, flat[k].at);
      }
    }
    PageOrderFacts(starts);
    forall m | 0 <= m < |starts| && starts[m].None?
      ensures after[m] == before[m]
    {
      forall k | 0 <= k < i
        ensures flat[k].at != m
      {
        assert flat[k] in flat;
      }
      Unassigned(flat, before, i, m);
    }
  }

  lemma KeyedOrder()
    ensures TotalPreorder(KeyedLeq)
  {
  }

  lemma {:induction false} PagedHasAll(starts: seq<Option<int>>, m: nat)
    requires m < |starts| && starts[m].Some?
    ensures Keyed(starts[m].value, m) in Paged(starts)
  {
    if m < |starts| - 1 {
      PagedHasAll(starts[..|starts| - 1], m);
    }
  }

  lemma {:induction false} PagedNoRepeats(starts: seq<Option<int>>)
    ensures NoRepeats(Paged(starts))
  {
    if starts != [] {
      PagedNoRepeats(starts[..|starts| - 1]);
    }
  }

  /** The page order is sorted and lists every node that has a start page once. */
  lemma PageOrderFacts(starts: seq<Option<int>>)
    ensures var flat := InPageOrder(starts);
            && SortedBy(KeyedLeq, flat) && NoRepeats(flat)
            && (forall k :: k in flat <==> k.at < |starts| && starts[k.at] == Some(k.page))
            && (forall i, j :: 0 <= i < j < |flat| ==> flat[i].at != flat[j].at)
  {
    KeyedOrder();
    SortFacts(KeyedLeq, Paged(starts));
    SortMembers(KeyedLeq, Paged(starts));
    PagedNoRepeats(starts);
    SortNoRepeats(KeyedLeq, Paged(starts));
    forall k: Keyed | k.at < |starts| && starts[k.at] == Some(k.page)
      ensures k in Paged(starts)
    {
      PagedHasAll(starts, k.at);
    }
    var flat := InPageOrder(starts);
    forall i, j | 0 <= i < j < |flat|
      ensures flat[i].at != flat[j].at
    {
      assert flat[i] in flat && flat[j] in flat;
    }
  }

  /** Where a node stands in the page order. */
  lemma Position(starts: seq<Option<int>>, m: nat) returns (i: nat)
    requires m < |starts| && starts[m].Some?
    ensures i < |InPageOrder(starts)| && InPageOrder(starts)[i] == Keyed(starts[m].value, m)
  {
    PageOrderFacts(starts);
    assert Keyed(starts[m].value, m) in InPageOrder(starts);
    i :| 0 <= i < |InPageOrder(starts)| && InPageOrder(starts)[i] == Keyed(starts[m].value, m);
  }

  /** No node ends before it starts. */
  lemma EndsAfterStart(starts: seq<Option<int>>, before: seq<Option<int>>, after: seq<Option<int>>, m: nat)
    requires Closed(starts, before, after) && AllOpen(before) && m < |starts| && starts[m].Some?
    ensures EndPage(starts[m].value, after[m]) >= starts[m].value
  {
    var flat := InPageOrder(starts);
    var i := Position(starts, m);
    assert ClosedAt(flat, before, after, i) && before[m].None?;
  }

  ghost predicate Overlap(starts: seq<Option<int>>, ends: seq<Option<int>>, m: nat, n: nat)
    requires m < |starts| == |ends| && n < |starts|
  {
    && starts[m].Some? && starts[n].Some?
    && starts[m].value <= EndPage(starts[n].value, ends[n]) && starts[n].value <= EndPage(starts[m].value, ends[m])
  }

  /** Nodes that start on different pages share no page. */
  ghost predicate Disjoint(starts: seq<Option<int>>, ends: seq<Option<int>>)
    requires |starts| == |ends|
  {
    forall m, n :: 0 <= m < |starts| && 0 <= n < |starts| && starts[m].Some? && starts[n].Some?
      && starts[m] != starts[n]
      ==> !Overlap(starts, ends, m, n)
  }

  /** Some node starts on page zero and some other on a negative page. */
  ghost predicate AroundZero(starts: seq<Option<int>>) {
    Some(0) in starts && exists m :: 0 <= m < |starts| && starts[m].Some? && starts[m].value < 0
  }

  lemma EndBeforeNext(starts: seq<Option<int>>, before: seq<Option<int>>, after: seq<Option<int>>, m: nat, n: nat)
    requires Closed(starts, before, after) && AllOpen(before) && m < |starts| && n < |starts|
    requires starts[m].Some? && starts[n].Some? && starts[m].value < starts[n].value
    requires !AroundZero(starts)
    ensures EndPage(starts[m].value, after[m]) < starts[n].value
  {
    PageOrderFacts(starts);
    var flat := InPageOrder(starts);
    var i := Position(starts, m);
    var j := Position(starts, n);
    assert i < j;
    assert ClosedAt(flat, before, after, i) && before[m].None?;
    assert KeyedLeq(flat[i], flat[i + 1]) && (i + 1 == j || KeyedLeq(flat[i + 1], flat[j]));
    assert flat[i + 1] in flat;
    assert starts[flat[i + 1].at] == Some(flat[i + 1].page);
  }

  /** The node before the first one on page zero runs into it. */
  lemma ZeroOverlaps(starts: seq<Option<int>>, before: seq<Option<int>>, after: seq<Option<int>>)
    requires Closed(starts, before, after) && AllOpen(before) && AroundZero(starts)
    ensures !Disjoint(starts, after)
  {
    PageOrderFacts(starts);
    var flat := InPageOrder(starts);
    var neg :| 0 <= neg < |starts| && starts[neg].Some? && starts[neg].value < 0;
    var zero :| 0 <= zero < |starts| && starts[zero] == Some(0);
    var i := Position(starts, neg);
    var j := Position(starts, zero);
    var k := LastNegative(flat, i, j);
    assert flat[k] in flat && flat[k + 1] in flat;
    assert k + 1 == j || KeyedLeq(flat[k + 1], flat[j]);
    assert flat[k + 1].page == 0;
    EndsAfterStart(starts, before, after, flat[k + 1].at);
    RunsIntoZero(starts, before, after, k);
  }

  lemma RunsIntoZero(starts: seq<Option<int>>, before: seq<Option<int>>, after: seq<Option<int>>, k: nat)
    requires Closed(starts, before, after) && AllOpen(before) && k + 1 < |InPageOrder(starts)|
    requires var flat := InPageOrder(starts);
             && flat[k].page < 0 && flat[k + 1].page == 0 && flat[k].at < |starts| && flat[k + 1].at < |starts|
             && starts[flat[k].at] == Some(flat[k].page) && starts[flat[k + 1].at] == Some(0)
             && EndPage(0, after[flat[k + 1].at]) >= 0
    ensures !Disjoint(starts, after)
  {
    var flat := InPageOrder(starts);
    assert ClosedAt(flat, before, after, k) && before[flat[k].at].None?;
    assert Overlap(starts, after, flat[k].at, flat[k + 1].at);
  }

  lemma LastNegative(flat: seq<Keyed>, i: nat, j: nat) returns (k: nat)
    requires i < j < |flat| && flat[i].page < 0 && flat[j].page == 0
    ensures i <= k < j && flat[k].page < 0 && flat[k + 1].page >= 0
    decreases j - i
  {
    if flat[i + 1].page >= 0 {
      k := i;
    } else {
      k := LastNegative(flat, i + 1, j);
    }
  }

  /** Nodes with different start pages are kept apart exactly when the outline does not
      reach across page zero, in particular for pages numbered from one. */
  lemma DisjointExactly(starts: seq<Option<int>>, before: seq<Option<int>>, after: seq<Option<int>>)
    requires Closed(starts, before, after) && AllOpen(before)
    ensures Disjoint(starts, after) <==> !AroundZero(starts)
  {
    if AroundZero(starts) {
      ZeroOverlaps(starts, before, after);
    } else {
      forall m, n | 0 <= m < |starts| && 0 <= n < |starts| && starts[m].Some? && starts[n].Some?
        && starts[m] != starts[n]
        ensures !Overlap(starts, after, m, n)
      {
        if starts[m].value < starts[n].value {
          EndBeforeNext(starts, before, after, m, n);
        } else {
          EndBeforeNext(starts, before, after, n, m);
        }
      }
    }
  }

  ghost predicate Covers(starts: seq<Option<int>>, ends: seq<Option<int>>, m: nat, page: int)
    requires |starts| == |ends|
  {
    m < |starts| && starts[m].Some? && starts[m].value <= page <= EndPage(starts[m].value, ends[m])
  }

  /** Every page from one node's start to another's lies in some node. */
  lemma PagesCovered(starts: seq<Option<int>>, before: seq<Option<int>>, after: seq<Option<int>>, first: nat,
                     last: nat, page: int)
    requires Closed(starts, before, after) && AllOpen(before) && first < |starts| && last < |starts|
    requires starts[first].Some? && starts[last].Some? && starts[first].value <= page <= starts[last].value
    ensures exists m :: Covers(starts, after, m, page)
  {
    PageOrderFacts(starts);
    var flat := InPageOrder(starts);
    var i := Position(starts, first);
    var j := Position(starts, last);
    if page == starts[last].value {
      EndsAfterStart(starts, before, after, last);
      assert Covers(starts, after, last, page);
    } else {
      var k := LastUpTo(flat, i, j, page);
      assert flat[k] in flat && ClosedAt(flat, before, after, k) && before[flat[k].at].None?;
      assert Covers(starts, after, flat[k].at, page);
    }
  }

  lemma LastUpTo(flat: seq<Keyed>, i: nat, j: nat, page: int) returns (k: nat)
    requires i < j < |flat| && flat[i].page <= page < flat[j].page
    ensures i <= k < j && flat[k].page <= page < flat[k + 1].page
    decreases j - i
  {
    if page < flat[i + 1].page {
      k := i;
    } else {
      k := LastUpTo(flat, i + 1, j, page);
    }
  }
}
