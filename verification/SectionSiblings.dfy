/** What the page ranges promise in words: a node ends on the page before its next
    sibling starts. The code closes it before the next node of any level in page order. */
module SectionSiblings {
  import opened Wrappers
  import opened Sorting
  import opened SectionForest
  import opened PageRanges

  /** m and s are neighbours among the children of one parent. */
  ghost predicate NextSibling(ls: seq<nat>, m: nat, s: nat) {
    && m < |ls|
    && var kids := Kids(ls, Parent(ls, m));
       exists i :: 0 <= i < |kids| - 1 && kids[i] == m && kids[i + 1] == s
  }

  ghost predicate AllPaged(starts: seq<Option<int>>) {
    forall i :: 0 <= i < |starts| ==> starts[i].Some?
  }

  /** The promise for m and its next sibling s. */
  ghost predicate EndsBeforeSibling(starts: seq<Option<int>>, after: seq<Option<int>>, m: nat, s: nat)
    requires m < |starts| && s < |starts| && starts[m].Some? && starts[s].Some? && |after| == |starts|
  {
    after[m] == Some(EndBefore(starts[m].value, starts[s].value))
  }

  /** The promise is kept exactly when some node follows m in page order, and closing m
      before that node or before its sibling comes to the same. */
  lemma SiblingExactly(ls: seq<nat>, starts: seq<Option<int>>, before: seq<Option<int>>, after: seq<Option<int>>,
                       m: nat, s: nat, i: nat)
    requires Closed(starts, before, after) && AllOpen(before) && |ls| == |starts| && NextSibling(ls, m, s)
    requires m < |starts| && s < |starts| && starts[m].Some? && starts[s].Some?
    requires i < |InPageOrder(starts)| && InPageOrder(starts)[i].at == m
    ensures EndsBeforeSibling(starts, after, m, s) <==>
            (&& i + 1 < |InPageOrder(starts)|
             && EndBefore(starts[m].value, InPageOrder(starts)[i + 1].page) ==
                EndBefore(starts[m].value, starts[s].value))
  {
    PageOrderFacts(starts);
    var flat := InPageOrder(starts);
    assert flat[i] in flat;
    assert ClosedAt(flat, before, after, i) && before[m].None?;
  }

  // ---- pages in outline order ----------------------------------------------

  ghost predicate OutlineOrder(starts: seq<Option<int>>) {
    AllPaged(starts) && forall i, j :: 0 <= i < j < |starts| ==> starts[i].value <= starts[j].value
  }

  lemma {:induction false} PagedAll(starts: seq<Option<int>>)
    requires AllPaged(starts)
    ensures |Paged(starts)| == |starts|
    ensures forall i :: 0 <= i < |starts| ==> Paged(starts)[i] == Keyed(starts[i].value, i)
  {
    if starts != [] {
      PagedAll(starts[..|starts| - 1]);
    }
  }

  /** The page order is then the outline's. */
  lemma SamePageOrder(starts: seq<Option<int>>)
    requires OutlineOrder(starts)
    ensures InPageOrder(starts) == Paged(starts)
  {
    PagedAll(starts);
    KeyedOrder();
    SortFacts(KeyedLeq, Paged(starts));
    SortedUnique(KeyedLeq, InPageOrder(starts), Paged(starts));
  }

  /** Every node but the last ends before the next entry of the outline. */
  lemma EndsBeforeNextEntry(starts: seq<Option<int>>, before: seq<Option<int>>, after: seq<Option<int>>, m: nat)
    requires Closed(starts, before, after) && AllOpen(before) && OutlineOrder(starts) && m + 1 < |starts|
    ensures after[m] == Some(EndBefore(starts[m].value, starts[m + 1].value))
  {
    SamePageOrder(starts);
    PagedAll(starts);
    assert ClosedAt(InPageOrder(starts), before, after, m) && before[m].None?;
  }

  lemma {:induction false} KidsIncrease(ls: seq<nat>, p: Option<nat>, hi: nat)
    requires hi <= |ls|
    ensures forall i, j :: 0 <= i < j < |KidsIn(ls, p, 0, hi)| ==> KidsIn(ls, p, 0, hi)[i] < KidsIn(ls, p, 0, hi)[j]
  {
    if hi > 0 {
      KidsIncrease(ls, p, hi - 1);
    }
  }

  /** For pages numbered from one and in outline order: m ends before its next sibling
      exactly when the entry right after m starts with that sibling, or the sibling starts
      by the page after m does. No section inside m may start early enough to cut it short. */
  lemma SiblingInOrderExactly(ls: seq<nat>, starts: seq<Option<int>>, before: seq<Option<int>>,
                              after: seq<Option<int>>, m: nat, s: nat)
    requires Closed(starts, before, after) && AllOpen(before) && |ls| == |starts| && OutlineOrder(starts)
    requires NextSibling(ls, m, s) && m < |starts| && starts[m].value >= 1
    ensures m < s < |starts|
    ensures EndsBeforeSibling(starts, after, m, s) <==>
            starts[m + 1] == starts[s] || starts[s].value <= starts[m].value + 1
  {
    var p := Parent(ls, m);
    KidsIncrease(ls, p, |ls|);
    var i :| 0 <= i < |Kids(ls, p)| - 1 && Kids(ls, p)[i] == m && Kids(ls, p)[i + 1] == s;
    EndsBeforeNextEntry(starts, before, after, m);
  }

  /** A chapter on page 1, a section of it on page 3, and the next chapter on page 10: the
      first chapter ends on page 2, where its next sibling would have it end on page 9. */
  lemma ChapterCutShort(ls: seq<nat>, starts: seq<Option<int>>, before: seq<Option<int>>, after: seq<Option<int>>)
    requires ls == [0, 1, 0] && starts == [Some(1), Some(3), Some(10)]
    requires Closed(starts, before, after) && AllOpen(before)
    ensures NextSibling(ls, 0, 2) && after[0] == Some(2) && EndBefore(1, 10) == 9
    ensures !EndsBeforeSibling(starts, after, 0, 2)
  {
    EndsBeforeNextEntry(starts, before, after, 0);
    NearestNone(ls, 0, 0);
    NearestIs(ls, 1, 1, 0);
    NearestNone(ls, 2, 0);
    assert KidsIn(ls, None, 0, 0) == [] && KidsIn(ls, None, 0, 1) == [0];
    assert KidsIn(ls, None, 0, 2) == [0] && KidsIn(ls, None, 0, 3) == [0, 2];
    var kids := Kids(ls, Parent(ls, 0));
    assert kids == [0, 2] && kids[0] == 0 && kids[0 + 1] == 2;
  }
}
