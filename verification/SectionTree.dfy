/** The section tree as the heuristic indexer builds it: nodes linked in place from a
    stack, then walked and given their end pages. The ghost sequence made lists the nodes
    in the order of the outline, which is how SectionForest and PageRanges name them. */
module SectionTree {
  import opened Wrappers
  import opened Sorting
  import opened SectionForest
  import opened PageRanges

  datatype Entry = Entry(level: int, title: string, page: int)

  class TreeNode {
    const nodeId: string
    const title: string
    const level: nat
    const startPage: Option<int>
    var endPage: Option<int>
    var children: seq<TreeNode>

    constructor (nodeId: string, title: string, level: nat, startPage: Option<int>)
      ensures this.nodeId == nodeId && this.title == title && this.level == level && this.startPage == startPage
      ensures endPage == None && children == []
    {
      this.nodeId, this.title, this.level, this.startPage := nodeId, title, level, startPage;
      endPage, children := None, [];
    }
  }

  function Digits(n: nat): string {
    (if n < 10 then "" else Digits(n / 10)) + [('0' as int + n % 10) as char]
  }

  function Levels(outline: seq<Entry>): (ls: seq<nat>)
    ensures |ls| == |outline|
  {
    seq(|outline|, i requires 0 <= i < |outline| => LevelOf(outline[i]))
  }

  function LevelOf(entry: Entry): nat {
    Max(0, entry.level - 1)
  }

  /** nodes are those at the positions ks. */
  ghost predicate Lists(nodes: seq<TreeNode>, made: seq<TreeNode>, ks: seq<nat>) {
    Between(ks, 0, |made|) && |nodes| == |ks| && forall j :: 0 <= j < |ks| ==> nodes[j] == made[ks[j]]
  }

  ghost predicate Distinct(made: seq<TreeNode>) {
    forall i, j :: 0 <= i < j < |made| ==> made[i] != made[j]
  }

  /** The node carries the entry at position i. */
  ghost predicate Describes(node: TreeNode, prefix: string, entry: Entry, i: nat) {
    && node.nodeId == prefix + Digits(i) && node.title == entry.title
    && node.level == LevelOf(entry) && node.startPage == Some(entry.page)
  }

  /** Reading decimal digits. */
  function ValueOf(s: string): int {
    if s == "" then 0 else 10 * ValueOf(s[..|s| - 1]) + (s[|s| - 1] as int - '0' as int)
  }

  lemma {:induction false} DigitsRead(n: nat)
    ensures ValueOf(Digits(n)) == n
  {
    var s := Digits(n);
    if n < 10 {
      assert s[..|s| - 1] == "";
    } else {
      DigitsRead(n / 10);
      assert s[..|s| - 1] == Digits(n / 10);
    }
  }

  /** No two nodes of a tree have the same id. */
  lemma NodeIdsDiffer(made: seq<TreeNode>, prefix: string, entries: seq<Entry>)
    requires AllDescribe(made, prefix, entries)
    ensures forall i, j :: 0 <= i < j < |made| ==> made[i].nodeId != made[j].nodeId
  {
    forall i, j | 0 <= i < j < |made|
      ensures made[i].nodeId != made[j].nodeId
    {
      assert Describes(made[i], prefix, entries[i], i) && Describes(made[j], prefix, entries[j], j);
      DigitsRead(i);
      DigitsRead(j);
      assert made[i].nodeId[|prefix|..] == Digits(i) && made[j].nodeId[|prefix|..] == Digits(j);
    }
  }

  ghost predicate AllDescribe(made: seq<TreeNode>, prefix: string, entries: seq<Entry>) {
    |made| <= |entries| && forall i :: 0 <= i < |made| ==> Describes(made[i], prefix, entries[i], i)
  }

  lemma DescribeMore(made: seq<TreeNode>, node: TreeNode, prefix: string, entries: seq<Entry>)
    requires AllDescribe(made, prefix, entries) && |made| < |entries|
    requires Describes(node, prefix, entries[|made|], |made|)
    ensures AllDescribe(made + [node], prefix, entries)
  {
  }

  ghost predicate Open(made: seq<TreeNode>)
    reads made
  {
    forall i :: 0 <= i < |made| ==> made[i].endPage == None
  }

  function Unclosed(n: nat): seq<Option<int>> {
    seq(n, _ => None)
  }

  /** The children of node i, among the first n entries. */
  ghost predicate LinkedAt(made: seq<TreeNode>, ls: seq<nat>, i: nat, n: nat)
    requires i < |made| && n <= |made| && n <= |ls|
    reads made[i]
  {
    Lists(made[i].children, made, KidsIn(ls, Some(i), 0, n))
  }

  ghost predicate LinkedTo(made: seq<TreeNode>, ls: seq<nat>, n: nat)
    requires n <= |made| && n <= |ls|
    reads made
  {
    forall i :: 0 <= i < |made| ==> LinkedAt(made, ls, i, n)
  }

  ghost predicate Linked(made: seq<TreeNode>, ls: seq<nat>)
    requires |made| == |ls|
    reads made
  {
    LinkedTo(made, ls, |ls|)
  }

  lemma ListsAppend(a: seq<TreeNode>, b: seq<TreeNode>, made: seq<TreeNode>, ks: seq<nat>, js: seq<nat>)
    requires Lists(a, made, ks) && Lists(b, made, js)
    ensures Lists(a + b, made, ks + js)
  {
  }

  lemma ListsMore(nodes: seq<TreeNode>, made: seq<TreeNode>, ks: seq<nat>, node: TreeNode)
    requires Lists(nodes, made, ks)
    ensures Lists(nodes, made + [node], ks)
    ensures Lists(nodes + [node], made + [node], ks + [|made|])
  {
  }

  lemma ListsRange(nodes: seq<TreeNode>, made: seq<TreeNode>)
    ensures Lists(nodes, made, Range(0, |made|)) <==> nodes == made
  {
  }

  // ---- building ------------------------------------------------------------

  /** Link one node per entry: the stack holds the last entry's spine. */
  method BuildForest(outline: seq<Entry>) returns (roots: seq<TreeNode>, ghost made: seq<TreeNode>)
    ensures |made| == |outline| && Distinct(made) && forall i :: 0 <= i < |made| ==> fresh(made[i])
    ensures Open(made) && AllDescribe(made, "n", outline)
    ensures Linked(made, Levels(outline)) && Lists(roots, made, Kids(Levels(outline), None))
  {
    ghost var ls := Levels(outline);
    roots, made := [], [];
    var stack: seq<TreeNode> := [];
    for n := 0 to |outline|
      invariant |made| == n && Building(roots, stack, made, ls) && AllDescribe(made, "n", outline)
      invariant forall i :: 0 <= i < n ==> fresh(made[i])
    {
      ghost var node;
      roots, stack, node := AddEntry(roots, stack, made, outline[n], ls, n);
      DescribeMore(made, node, "n", outline);
      made := made + [node];
    }
  }

  /** The builder's state when the nodes made are linked. */
  ghost predicate Building(roots: seq<TreeNode>, stack: seq<TreeNode>, made: seq<TreeNode>, ls: seq<nat>)
    reads made
  {
    && |made| <= |ls| && Distinct(made) && Open(made) && (forall i :: 0 <= i < |made| ==> made[i].level == ls[i])
    && LinkedTo(made, ls, |made|) && Lists(roots, made, KidsIn(ls, None, 0, |made|))
       && Lists(stack, made, Spine(ls, |made|))
  }

  method AddEntry(roots0: seq<TreeNode>, stack0: seq<TreeNode>, ghost made: seq<TreeNode>, entry: Entry,
                  ghost ls: seq<nat>, n: nat)
    returns (roots: seq<TreeNode>, stack: seq<TreeNode>, ghost node: TreeNode)
    requires |made| == n < |ls| && Building(roots0, stack0, made, ls) && ls[n] == LevelOf(entry)
    modifies made
    ensures fresh(node) && Describes(node, "n", entry, n)
    ensures Building(roots, stack, made + [node], ls)
  {
    var next := new TreeNode("n" + Digits(n), entry.title, LevelOf(entry), Some(entry.page));
    node := next;
    stack := PopTo(stack0, next.level, made, ls, n);
    roots := AddNode(next, stack, roots0, made, ls);
    stack := stack + [next];
  }

  /** The next node takes its place in the forest. */
  method AddNode(node: TreeNode, stack: seq<TreeNode>, roots0: seq<TreeNode>, ghost made: seq<TreeNode>,
                 ghost ls: seq<nat>)
    returns (roots: seq<TreeNode>)
    requires |made| < |ls| && Distinct(made) && node !in made && node.children == []
    requires LinkedTo(made, ls, |made|) && Lists(roots0, made, KidsIn(ls, None, 0, |made|))
    requires Above(Parent(ls, |made|)) <= |made| && Lists(stack, made, Spine(ls, Above(Parent(ls, |made|))))
    modifies made
    ensures forall i :: 0 <= i < |made| ==> made[i].endPage == old(made[i].endPage)
    ensures LinkedTo(made + [node], ls, |made| + 1)
    ensures Lists(roots, made + [node], KidsIn(ls, None, 0, |made| + 1))
    ensures Lists(stack + [node], made + [node], Spine(ls, |made| + 1))
  {
    ghost var was := Links(made);
    forall i | 0 <= i < |made|
      ensures Lists(was[i], made, KidsIn(ls, Some(i), 0, |made|))
    {
      assert LinkedAt(made, ls, i, |made|);
    }
    roots := Hang(node, stack, roots0, made, ls);
    Relinked(made, node, ls, was);
    RootsAndStack(made, node, ls, stack, roots0);
  }

  /** What the roots and the stack are after one more entry. */
  lemma RootsAndStack(made: seq<TreeNode>, node: TreeNode, ls: seq<nat>, stack: seq<TreeNode>, roots: seq<TreeNode>)
    requires |made| < |ls| && Lists(roots, made, KidsIn(ls, None, 0, |made|))
    requires Above(Parent(ls, |made|)) <= |made| && Lists(stack, made, Spine(ls, Above(Parent(ls, |made|))))
    ensures Lists(roots + if Parent(ls, |made|).None? then [node] else [], made + [node],
                  KidsIn(ls, None, 0, |made| + 1))
    ensures Lists(stack + [node], made + [node], Spine(ls, |made| + 1))
  {
    SpineNext(ls, |made|);
    ListsMore(stack, made, Spine(ls, Above(Parent(ls, |made|))), node);
    ListsMore(roots, made, KidsIn(ls, None, 0, |made|), node);
  }

  /** The node, if it belongs under i. */
  function Under(p: Option<nat>, i: nat, node: TreeNode): seq<TreeNode> {
    if p == Some(i) then [node] else []
  }

  ghost function Links(made: seq<TreeNode>): (s: seq<seq<TreeNode>>)
    reads made
    ensures |s| == |made| && forall i :: 0 <= i < |made| ==> s[i] == made[i].children
  {
    if made == [] then [] else Links(made[..|made| - 1]) + [made[|made| - 1].children]
  }

  /** Put a node under the top of the stack, or among the roots. */
  method Hang(node: TreeNode, stack: seq<TreeNode>, roots0: seq<TreeNode>, ghost made: seq<TreeNode>,
              ghost ls: seq<nat>)
    returns (roots: seq<TreeNode>)
    requires |made| < |ls| && Distinct(made) && node !in made
    requires Above(Parent(ls, |made|)) <= |made| && Lists(stack, made, Spine(ls, Above(Parent(ls, |made|))))
    modifies made
    ensures forall i :: 0 <= i < |made| ==> made[i].endPage == old(made[i].endPage)
    ensures forall i :: 0 <= i < |made| ==>
              made[i].children == old(made[i].children) + Under(Parent(ls, |made|), i, node)
    ensures roots == roots0 + if Parent(ls, |made|).None? then [node] else []
  {
    ghost var p := Parent(ls, |made|);
    roots := roots0;
    if stack != [] {
      assert Spine(ls, Above(p))[|Spine(ls, Above(p))| - 1] == Above(p) - 1;
      var parent := stack[|stack| - 1];
      assert parent == made[p.value];
      parent.children := parent.children + [node];
    } else {
      roots := roots + [node];
    }
  }

  /** Links made after one more entry. */
  lemma Relinked(made: seq<TreeNode>, node: TreeNode, ls: seq<nat>, was: seq<seq<TreeNode>>)
    requires |made| == |was| < |ls| && node.children == []
    requires forall i :: 0 <= i < |made| ==> Lists(was[i], made, KidsIn(ls, Some(i), 0, |made|))
    requires forall i :: 0 <= i < |made| ==> made[i].children == was[i] + Under(Parent(ls, |made|), i, node)
    ensures LinkedTo(made + [node], ls, |made| + 1)
  {
    var n := |made|;
    var now, n1 := made + [node], n + 1;
    forall i | 0 <= i <= n
      ensures LinkedAt(now, ls, i, n1)
    {
      if i < n {
        ListsMore(was[i], made, KidsIn(ls, Some(i), 0, n), node);
      } else {
        NoLaterKids(ls, n);
      }
    }
  }

  lemma NoLaterKids(ls: seq<nat>, n: nat)
    requires n < |ls|
    ensures KidsIn(ls, Some(n), 0, n + 1) == []
  {
    forall k | 0 <= k < n + 1
      ensures Parent(ls, k) != Some(n)
    {
      NearestFacts(ls, k, ls[k]);
    }
    NoKidsIn(ls, Some(n), 0, n + 1);
  }

  /** Pop what is not of smaller level: the parent is left on top. */
  method PopTo(stack0: seq<TreeNode>, level: nat, ghost made: seq<TreeNode>, ghost ls: seq<nat>, ghost n: nat)
    returns (stack: seq<TreeNode>)
    requires |made| == n < |ls| && level == ls[n] && Lists(stack0, made, Spine(ls, n))
    requires forall i :: 0 <= i < n ==> made[i].level == ls[i]
    ensures Above(Parent(ls, n)) <= n && Lists(stack, made, Spine(ls, Above(Parent(ls, n))))
  {
    stack := stack0;
    ghost var m: nat := n;
    while stack != [] && stack[|stack| - 1].level >= level
      invariant m <= n && Lists(stack, made, Spine(ls, m))
      invariant Parent(ls, n) == Nearest(ls, m, level)
      decreases |stack|
    {
      assert Spine(ls, m)[|Spine(ls, m)| - 1] == m - 1;
      PopKeepsNearest(ls, m, level);
      stack := stack[..|stack| - 1];
      m := Above(Parent(ls, m - 1));
    }
    if m > 0 {
      assert Spine(ls, m)[|Spine(ls, m)| - 1] == m - 1;
    }
  }

  // ---- walking -------------------------------------------------------------

  method Flatten(nodes: seq<TreeNode>, ghost made: seq<TreeNode>, ghost ls: seq<nat>, ghost lo: nat, ghost ks: seq<nat>)
    returns (flat: seq<TreeNode>)
    requires |made| == |ls| && Linked(made, ls) && Between(ks, lo, |ls|) && Lists(nodes, made, ks)
    ensures Lists(flat, made, Walk(ls, lo, ks))
    decreases |ls| - lo
  {
    flat := [];
    assert ks[..0] == [];
    for i := 0 to |nodes|
      invariant Lists(flat, made, Walk(ls, lo, ks[..i]))
    {
      ghost var k := ks[i];
      assert nodes[i] == made[k] && LinkedAt(made, ls, k, |ls|);
      KidsFollow(ls, k);
      var below := Flatten(nodes[i].children, made, ls, k + 1, Kids(ls, Some(k)));
      FlattenStep(made, ls, lo, ks, i, flat, nodes[i], below);
      flat := flat + ([nodes[i]] + below);
    }
    assert ks[..|nodes|] == ks;
  }

  lemma FlattenStep(made: seq<TreeNode>, ls: seq<nat>, lo: nat, ks: seq<nat>, i: nat, flat: seq<TreeNode>,
                    node: TreeNode, below: seq<TreeNode>)
    requires Between(ks, lo, |ls|) && i < |ks| && Between(Kids(ls, Some(ks[i])), ks[i] + 1, |ls|)
    requires Lists(flat, made, Walk(ls, lo, ks[..i])) && ks[i] < |made| && node == made[ks[i]]
    requires Lists(below, made, Walk(ls, ks[i] + 1, Kids(ls, Some(ks[i]))))
    ensures Lists(flat + ([node] + below), made, Walk(ls, lo, ks[..i + 1]))
  {
    WalkNext(ls, lo, ks, i);
    ListsBranch(made, flat, node, below, Walk(ls, lo, ks[..i]), ks[i], Walk(ls, ks[i] + 1, Kids(ls, Some(ks[i]))));
  }

  lemma ListsBranch(made: seq<TreeNode>, flat: seq<TreeNode>, node: TreeNode, below: seq<TreeNode>, before: seq<nat>,
                    k: nat, inner: seq<nat>)
    requires Lists(flat, made, before) && Lists(below, made, inner) && k < |made| && node == made[k]
    ensures Lists(flat + ([node] + below), made, before + ([k] + inner))
  {
    ListsAppend([node], below, made, [k], inner);
    ListsAppend(flat, [node] + below, made, before, [k] + inner);
  }

  lemma WalkNext(ls: seq<nat>, lo: nat, ks: seq<nat>, i: nat)
    requires Between(ks, lo, |ls|) && i < |ks| && Between(Kids(ls, Some(ks[i])), ks[i] + 1, |ls|)
    ensures Walk(ls, lo, ks[..i + 1]) == Walk(ls, lo, ks[..i]) + ([ks[i]] + Walk(ls, ks[i] + 1, Kids(ls, Some(ks[i]))))
  {
    assert ks[..i + 1][..i] == ks[..i];
  }

  // ---- page ranges ---------------------------------------------------------

  function Starts(made: seq<TreeNode>): (s: seq<Option<int>>)
    ensures |s| == |made|
  {
    seq(|made|, i requires 0 <= i < |made| => made[i].startPage)
  }

  ghost function Ends(made: seq<TreeNode>): (s: seq<Option<int>>)
    reads made
    ensures |s| == |made| && forall i :: 0 <= i < |made| ==> s[i] == made[i].endPage
  {
    seq(|made|, i requires 0 <= i < |made| reads made => made[i].endPage)
  }

  ghost predicate HasEnds(made: seq<TreeNode>, ends: seq<Option<int>>)
    reads made
  {
    |ends| == |made| && forall i :: 0 <= i < |made| ==> made[i].endPage == ends[i]
  }

  ghost predicate HasLinks(made: seq<TreeNode>, links: seq<seq<TreeNode>>)
    reads made
  {
    |links| == |made| && forall i :: 0 <= i < |made| ==> made[i].children == links[i]
  }

  /** Assign end pages in page order, from those before; the links do not change. */
  method ClosePageRanges(nodes: seq<TreeNode>, ghost made: seq<TreeNode>, ghost ls: seq<nat>,
                         ghost links: seq<seq<TreeNode>>,
                         ghost before: seq<Option<int>>) returns (ghost after: seq<Option<int>>)
    requires |made| == |ls| && Linked(made, ls) && Distinct(made) && Lists(nodes, made, Kids(ls, None))
    requires HasLinks(made, links) && HasEnds(made, before)
    modifies made
    ensures HasLinks(made, links) && HasEnds(made, after) && Closed(Starts(made), before, after)
  {
    WalkIsOutline(ls);
    var all := Flatten(nodes, made, ls, 0, Kids(ls, None));
    ListsRange(all, made);
    var keyed := PagedNodes(all);
    after := AssignEnds(all, Sort(KeyedLeq, keyed), links, before);
  }

  method PagedNodes(all: seq<TreeNode>) returns (keyed: seq<Keyed>)
    ensures keyed == Paged(Starts(all))
  {
    keyed := [];
    for i := 0 to |all|
      invariant keyed == Paged(Starts(all)[..i])
    {
      assert Starts(all)[..i + 1][..i] == Starts(all)[..i];
      if all[i].startPage.Some? {
        keyed := keyed + [Keyed(all[i].startPage.value, i)];
      }
    }
    assert Starts(all)[..|all|] == Starts(all);
  }

  method AssignEnds(all: seq<TreeNode>, flat: seq<Keyed>, ghost links: seq<seq<TreeNode>>,
                    ghost before: seq<Option<int>>)
    returns (ghost after: seq<Option<int>>)
    requires Distinct(all) && flat == InPageOrder(Starts(all)) && HasLinks(all, links) && HasEnds(all, before)
    modifies all
    ensures HasLinks(all, links) && HasEnds(all, after) && Closed(Starts(all), before, after)
  {
    PageOrderFacts(Starts(all));
    assert forall k :: 0 <= k < |flat| ==> flat[k] in flat;
    var i := AssignAll(all, flat, links, before);
    after := Assigned(flat, before, i);
    AssignedCloses(Starts(all), before, i);
  }

  method AssignAll(all: seq<TreeNode>, flat: seq<Keyed>, ghost links: seq<seq<TreeNode>>,
                   ghost before: seq<Option<int>>)
    returns (i: nat)
    requires Distinct(all) && Placed(flat, |all|) && HasLinks(all, links) && HasEnds(all, before)
    modifies all
    ensures if flat == [] then i == 0 else i + 1 == |flat|
    ensures HasLinks(all, links) && HasEnds(all, Assigned(flat, before, i))
  {
    i := 0;
    while i + 1 < |flat|
      invariant i < |flat| || i == 0
      invariant HasLinks(all, links) && HasEnds(all, Assigned(flat, before, i))
      decreases |flat| - i
    {
      AssignEnd(all, flat, i, links, Assigned(flat, before, i));
      AssignedNext(flat, before, i, Assigned(flat, before, i), flat[i].at);
      i := i + 1;
    }
  }

  /** A node that has an end page keeps it. */
  method AssignEnd(all: seq<TreeNode>, flat: seq<Keyed>, i: nat, ghost links: seq<seq<TreeNode>>,
                   ghost now: seq<Option<int>>)
    requires Distinct(all) && Placed(flat, |all|) && i + 1 < |flat| && HasLinks(all, links) && HasEnds(all, now)
    modifies all
    ensures HasLinks(all, links)
    ensures var at := flat[i].at;
            HasEnds(all, if now[at].None? then now[at := Some(EndBefore(flat[i].page, flat[i + 1].page))] else now)
  {
    var current := all[flat[i].at];
    if current.endPage.None? {
      current.endPage := Some(EndBefore(flat[i].page, flat[i + 1].page));
    }
  }

  // ---- the two ways a tree is built ----------------------------------------

  /** What both builders promise: one node per entry, linked as the levels say, walked in
      the order of the entries, and closed by page. */
  ghost predicate Indexed(roots: seq<TreeNode>, made: seq<TreeNode>, prefix: string, entries: seq<Entry>)
    reads made
  {
    var ls := Levels(entries);
    && |made| == |entries| && Distinct(made) && AllDescribe(made, prefix, entries)
    && Linked(made, ls) && Lists(roots, made, Kids(ls, None))
    && Lists(made, made, Walk(ls, 0, Kids(ls, None)))
    && Closed(Starts(made), Unclosed(|made|), Ends(made))
  }

  method FromOutline(outline: seq<Entry>) returns (roots: seq<TreeNode>, ghost made: seq<TreeNode>)
    ensures Indexed(roots, made, "n", outline) && forall i :: 0 <= i < |made| ==> fresh(made[i])
    ensures Disjoint(Starts(made), Ends(made)) <==> !AroundZero(Starts(made))
  {
    roots, made := BuildForest(outline);
    Finish(roots, made, "n", outline);
  }

  /** Close the ranges of a linked forest. */
  method Finish(roots: seq<TreeNode>, ghost made: seq<TreeNode>, ghost prefix: string, ghost entries: seq<Entry>)
    requires |made| == |entries| && Distinct(made) && Lists(roots, made, Kids(Levels(entries), None))
    requires Open(made) && AllDescribe(made, prefix, entries)
    requires Linked(made, Levels(entries))
    modifies made
    ensures Indexed(roots, made, prefix, entries)
    ensures Disjoint(Starts(made), Ends(made)) <==> !AroundZero(Starts(made))
  {
    ghost var ls, open, links := Levels(entries), Unclosed(|made|), Links(made);
    assert forall i :: 0 <= i < |made| ==> LinkedAt(made, ls, i, |ls|);
    ghost var after := ClosePageRanges(roots, made, ls, links, open);
    forall i | 0 <= i < |made|
      ensures LinkedAt(made, ls, i, |ls|)
    {
      assert old(LinkedAt(made, ls, i, |ls|)) && made[i].children == links[i];
    }
    assert Ends(made) == after;
    WalkIsOutline(ls);
    ListsRange(made, made);
    DisjointExactly(Starts(made), open, Ends(made));
  }

  /** The headings found on each page, as entries of the top level. */
  function HeadingEntries(pages: seq<seq<string>>): seq<Entry> {
    if pages == [] then []
    else
      var n := |pages| - 1;
      HeadingEntries(pages[..n]) + OnPage(pages[n], n + 1)
  }

  function OnPage(titles: seq<string>, page: int): seq<Entry> {
    seq(|titles|, i requires 0 <= i < |titles| => Entry(1, titles[i], page))
  }

  method FromHeadings(pages: seq<seq<string>>) returns (nodes: seq<TreeNode>)
    ensures Indexed(nodes, nodes, "h", HeadingEntries(pages)) && forall i :: 0 <= i < |nodes| ==> fresh(nodes[i])
    ensures Disjoint(Starts(nodes), Ends(nodes))
  {
    nodes := [];
    ghost var entries: seq<Entry> := [];
    for p := 0 to |pages|
      invariant entries == HeadingEntries(pages[..p])
      invariant HeadingNodes(nodes, entries) && forall i :: 0 <= i < |nodes| ==> fresh(nodes[i])
    {
      nodes, entries := AddPage(nodes, pages[p], p + 1, entries);
      assert pages[..p + 1][..p] == pages[..p];
    }
    assert pages[..|pages|] == pages;
    FlatLevels(nodes, entries);
    FromPageOne(nodes, entries);
    Finish(nodes, nodes, "h", entries);
  }

  lemma FromPageOne(nodes: seq<TreeNode>, entries: seq<Entry>)
    requires HeadingNodes(nodes, entries)
    ensures !AroundZero(Starts(nodes))
  {
    assert forall i :: 0 <= i < |nodes| ==> HeadingNode(nodes[i], entries[i], i);
  }

  method AddPage(nodes0: seq<TreeNode>, titles: seq<string>, page: int, ghost entries0: seq<Entry>)
    returns (nodes: seq<TreeNode>, ghost entries: seq<Entry>)
    requires HeadingNodes(nodes0, entries0) && page >= 1
    ensures entries == entries0 + OnPage(titles, page) && HeadingNodes(nodes, entries)
    ensures forall i :: 0 <= i < |nodes| ==> nodes[i] in nodes0 || fresh(nodes[i])
  {
    nodes, entries := nodes0, entries0;
    for t := 0 to |titles|
      invariant entries == entries0 + OnPage(titles, page)[..t]
      invariant HeadingNodes(nodes, entries)
      invariant forall i :: 0 <= i < |nodes| ==> nodes[i] in nodes0 || fresh(nodes[i])
    {
      var node := AddHeading(nodes, titles[t], page, entries);
      nodes := nodes + [node];
      entries := entries + [Entry(1, titles[t], page)];
    }
  }

  method AddHeading(nodes: seq<TreeNode>, title: string, page: int, ghost entries: seq<Entry>) returns (node: TreeNode)
    requires HeadingNodes(nodes, entries) && page >= 1
    ensures fresh(node) && HeadingNodes(nodes + [node], entries + [Entry(1, title, page)])
  {
    node := new TreeNode("h" + Digits(|nodes|), title, 0, Some(page));
  }

  ghost predicate HeadingNode(node: TreeNode, entry: Entry, i: nat)
    reads node
  {
    entry.level == 1 && entry.page >= 1 && Describes(node, "h", entry, i) && node.endPage == None && node.children == []
  }

  ghost predicate HeadingNodes(nodes: seq<TreeNode>, entries: seq<Entry>)
    reads nodes
  {
    |nodes| == |entries| && Distinct(nodes) && forall i :: 0 <= i < |nodes| ==> HeadingNode(nodes[i], entries[i], i)
  }

  /** With every level the same, every node is a root. */
  lemma FlatLevels(nodes: seq<TreeNode>, entries: seq<Entry>)
    requires HeadingNodes(nodes, entries)
    ensures Open(nodes) && AllDescribe(nodes, "h", entries)
    ensures Linked(nodes, Levels(entries)) && Lists(nodes, nodes, Kids(Levels(entries), None))
  {
    var ls := Levels(entries);
    assert forall i :: 0 <= i < |nodes| ==> HeadingNode(nodes[i], entries[i], i);
    forall k | 0 <= k < |ls|
      ensures Parent(ls, k) == None
    {
      NearestNone(ls, k, ls[k]);
    }
    forall i | 0 <= i < |nodes|
      ensures LinkedAt(nodes, ls, i, |ls|)
    {
      NoKidsIn(ls, Some(i), 0, |ls|);
    }
    AllKids(ls, |ls|);
    ListsRange(nodes, nodes);
  }

  lemma {:induction false} AllKids(ls: seq<nat>, n: nat)
    requires n <= |ls| && forall k :: 0 <= k < |ls| ==> Parent(ls, k) == None
    ensures KidsIn(ls, None, 0, n) == Range(0, n)
  {
    if n > 0 {
      AllKids(ls, n - 1);
      assert Range(0, n) == Range(0, n - 1) + [n - 1];
    }
  }
}
