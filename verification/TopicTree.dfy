/** The nested tree with rolled-up counts, and the indented listing shown to the
    model: both walk the children map from the roots. */
module TopicTree {
  import opened Wrappers
  import opened Text
  import opened Forest
  import opened Sorting
  import opened Taxonomy
  import opened TopicWalks

  // ---- families ------------------------------------------------------------

  /** Some rows sharing one effective parent, itself a root's descendant (or none). */
  ghost predicate Family(topics: map<int, Topic>, kids: seq<Row>, k: Option<int>) {
    && (forall i :: 0 <= i < |kids| ==> InFamily(topics, k, kids[i]))
    && (forall i, j :: 0 <= i < j < |kids| ==> kids[i].id != kids[j].id)
    && (k.Some? ==> Grounded(UpOf(topics), k.value))
  }

  ghost predicate WholeFamily(topics: map<int, Topic>, kids: seq<Row>, k: Option<int>) {
    && Family(topics, kids, k)
    && (forall x :: x in topics && InFamily(topics, k, RowOf(topics, x)) ==> RowOf(topics, x) in kids)
  }

  /** Everything at or under one of the rows. */
  ghost function Under(topics: map<int, Topic>, kids: seq<Row>): set<int> {
    set x | x in topics && exists i :: 0 <= i < |kids| && Below(UpOf(topics), kids[i].id, x)
  }

  predicate InFamily(topics: map<int, Topic>, k: Option<int>, row: Row) {
    && row.id in topics && row == RowOf(topics, row.id)
    && if k.Some? then row.id in UpOf(topics) && UpOf(topics)[row.id] == k.value else row.id !in UpOf(topics)
  }

  lemma ChildFamily(rows: seq<Row>, topics: map<int, Topic>, k: Option<int>)
    requires Lists(rows, topics) && (k.Some? ==> Grounded(UpOf(topics), k.value))
    ensures WholeFamily(topics, ChildRows(rows, KnownIds(rows), k), k)
  {
    var kids := ChildRows(rows, KnownIds(rows), k);
    ChildRowsNoRepeats(rows, KnownIds(rows), k);
    forall row {:trigger row in kids}
      ensures row in kids <==> InFamily(topics, k, row)
    {
      ChildRowsUp(rows, topics, if k.Some? then k.value else 0, row);
    }
    assert forall i :: 0 <= i < |kids| ==> kids[i] in kids;
  }

  lemma FamilyGrounded(topics: map<int, Topic>, kids: seq<Row>, k: Option<int>, i: nat)
    requires Family(topics, kids, k) && i < |kids|
    ensures Grounded(UpOf(topics), kids[i].id)
  {
    GroundedUnfold(UpOf(topics), kids[i].id);
  }

  /** Members of a family have disjoint subtrees, and their parent is in none. */
  lemma SiblingsApart(topics: map<int, Topic>, kids: seq<Row>, k: Option<int>, i: nat, j: nat, x: int)
    requires Family(topics, kids, k) && i < |kids| && j < |kids| && i != j
    requires Below(UpOf(topics), kids[i].id, x)
    ensures !Below(UpOf(topics), kids[j].id, x)
  {
    var up := UpOf(topics);
    var a, b := kids[i].id, kids[j].id;
    if Below(up, b, x) {
      AncestorsComparable(up, a, b, x);
      NotAboveSibling(topics, kids, k, i, j);
      NotAboveSibling(topics, kids, k, j, i);
    }
  }

  lemma NotAboveSibling(topics: map<int, Topic>, kids: seq<Row>, k: Option<int>, i: nat, j: nat)
    requires Family(topics, kids, k) && i < |kids| && j < |kids| && i != j
    ensures !Below(UpOf(topics), kids[i].id, kids[j].id)
  {
    var up := UpOf(topics);
    BelowUnfold(up, kids[i].id, kids[j].id);
    if k.Some? {
      ParentApart(topics, kids, k, i);
    }
  }

  lemma ParentApart(topics: map<int, Topic>, kids: seq<Row>, k: Option<int>, i: nat)
    requires Family(topics, kids, k) && i < |kids| && k.Some?
    ensures !Below(UpOf(topics), kids[i].id, k.value)
  {
    var up := UpOf(topics);
    var c := kids[i].id;
    BelowUnfold(up, k.value, c);
    BelowUnfold(up, k.value, k.value);
    if Below(up, c, k.value) {
      FamilyGrounded(topics, kids, k, i);
      BelowAntisymmetric(up, c, k.value);
      assert Climb(up, c, 1) == Climb(up, k.value, 0);
      var n: nat :| Climb(up, c, n) == None;
      NoReturn(up, c, n, 1);
    }
  }

  /** A topic's descendants are itself and what is under its children. */
  lemma DescByChildren(db: Db, a: int, kids: seq<Row>)
    requires a in db.topics && WholeFamily(db.topics, kids, Some(a))
    ensures Desc(db, a) == {a} + Under(db.topics, kids)
    ensures a !in Under(db.topics, kids)
  {
    var up := UpOf(db.topics);
    BelowUnfold(up, a, a);
    forall x | x in Under(db.topics, kids)
      ensures Below(up, a, x) && x != a
    {
      var i :| 0 <= i < |kids| && Below(up, kids[i].id, x);
      BelowUnfold(up, a, kids[i].id);
      BelowTrans(up, a, kids[i].id, x);
      ParentApart(db.topics, kids, Some(a), i);
    }
    forall x | x in Desc(db, a) && x != a
      ensures x in Under(db.topics, kids)
    {
      var n: nat :| Climb(up, x, n) == Some(a);
      ThroughChild(db, a, kids, x, n);
    }
  }

  lemma {:induction false} ThroughChild(db: Db, a: int, kids: seq<Row>, x: int, n: nat)
    requires x in db.topics && x != a && WholeFamily(db.topics, kids, Some(a))
    requires Climb(UpOf(db.topics), x, n) == Some(a)
    ensures x in Under(db.topics, kids)
    decreases n
  {
    var up := UpOf(db.topics);
    if up[x] == a {
      var i :| 0 <= i < |kids| && kids[i] == RowOf(db.topics, x);
      BelowUnfold(up, kids[i].id, x);
    } else {
      ThroughChild(db, a, kids, up[x], n - 1);
      var i :| 0 <= i < |kids| && Below(up, kids[i].id, up[x]);
      BelowUnfold(up, kids[i].id, x);
    }
  }

  /** What hangs under the roots is exactly what climbs to a root. */
  lemma RootsCover(topics: map<int, Topic>, kids: seq<Row>, x: int)
    requires WholeFamily(topics, kids, None) && x in topics
    ensures x in Under(topics, kids) <==> Grounded(UpOf(topics), x)
  {
    var up := UpOf(topics);
    if Grounded(up, x) {
      var n: nat :| Climb(up, x, n) == None;
      ReachesRoot(topics, kids, x, n);
    }
    if x in Under(topics, kids) {
      var i :| 0 <= i < |kids| && Below(up, kids[i].id, x);
      FamilyGrounded(topics, kids, None, i);
      GroundedBelow(up, kids[i].id, x);
    }
  }

  lemma {:induction false} ReachesRoot(topics: map<int, Topic>, kids: seq<Row>, x: int, n: nat)
    requires WholeFamily(topics, kids, None) && x in topics && Climb(UpOf(topics), x, n) == None
    ensures x in Under(topics, kids)
    decreases n
  {
    var up := UpOf(topics);
    if x !in up {
      var i :| 0 <= i < |kids| && kids[i] == RowOf(topics, x);
      BelowUnfold(up, x, x);
    } else {
      ReachesRoot(topics, kids, up[x], n - 1);
      var i :| 0 <= i < |kids| && Below(up, kids[i].id, up[x]);
      BelowUnfold(up, kids[i].id, x);
    }
  }

  /** One more row of a family adds its own descendants, none of them there yet. */
  lemma UnderNext(db: Db, kids: seq<Row>, k: Option<int>, i: nat)
    requires Family(db.topics, kids, k) && i < |kids|
    ensures Under(db.topics, kids[..i + 1]) == Under(db.topics, kids[..i]) + Desc(db, kids[i].id)
    ensures Under(db.topics, kids[..i]) !! Desc(db, kids[i].id)
    ensures Under(db.topics, kids[..i + 1]) <= Under(db.topics, kids)
    ensures kids[i].id in Desc(db, kids[i].id)
  {
    var up := UpOf(db.topics);
    BelowUnfold(up, kids[i].id, kids[i].id);
    forall x | x in Under(db.topics, kids[..i])
      ensures x !in Desc(db, kids[i].id)
    {
      var j :| 0 <= j < i && Below(up, kids[..i][j].id, x);
      SiblingsApart(db.topics, kids, k, j, i, x);
    }
    forall x | x in db.topics
      ensures x in Under(db.topics, kids[..i + 1]) <==> x in Under(db.topics, kids[..i]) || x in Desc(db, kids[i].id)
    {
      if x in Under(db.topics, kids[..i]) {
        var j :| 0 <= j < i && Below(up, kids[..i][j].id, x);
        assert kids[..i + 1][j] == kids[j];
      }
      if x in Desc(db, kids[i].id) {
        assert kids[..i + 1][i] == kids[i];
      }
      if x in Under(db.topics, kids[..i + 1]) {
        var j :| 0 <= j < i + 1 && Below(up, kids[..i + 1][j].id, x);
        if j < i {
          assert kids[..i][j] == kids[j];
        }
      }
    }
    forall x | x in Under(db.topics, kids[..i + 1])
      ensures x in Under(db.topics, kids)
    {
      var j :| 0 <= j < i + 1 && Below(up, kids[..i + 1][j].id, x);
      assert kids[j] == kids[..i + 1][j];
    }
  }

  // ---- the nested tree -----------------------------------------------------

  datatype TopicNode = TopicNode(id: int, name: string, parent: Option<int>, paperCount: nat, totalCount: nat,
                                 children: seq<TopicNode>)

  function NodeIds(nodes: seq<TopicNode>): seq<int> {
    if nodes == [] then [] else NodeIds(nodes[..|nodes| - 1]) + Ids(nodes[|nodes| - 1])
  }

  /** The ids of a node's subtree, parents before children. */
  function Ids(node: TopicNode): seq<int> {
    [node.id] + NodeIds(node.children)
  }

  /** Each node carries its row, its children in table order, its direct count, and
      the number of distinct papers tagged at or under it. */
  ghost predicate Faithful(db: Db, rows: seq<Row>, node: TopicNode) {
    && node.id in db.topics
    && Row(node.id, node.name, node.parent) == RowOf(db.topics, node.id)
    && node.paperCount == |Direct(db, node.id)|
    && node.totalCount == |Rolled(db, node.id)|
    && AreNodesOf(node.children, ChildRows(rows, KnownIds(rows), Some(node.id)))
    && forall c :: c in node.children ==> Faithful(db, rows, c)
  }

  ghost predicate AreNodesOf(nodes: seq<TopicNode>, kids: seq<Row>) {
    |nodes| == |kids| && forall i :: 0 <= i < |kids| ==> nodes[i].id == kids[i].id
  }

  ghost predicate Covers(ids: seq<int>, s: set<int>) {
    NoRepeats(ids) && forall x :: x in ids <==> x in s
  }

  lemma CoversJoin(a: seq<int>, s: set<int>, b: seq<int>, t: set<int>)
    requires Covers(a, s) && Covers(b, t) && s !! t
    ensures Covers(a + b, s + t)
  {
    forall i, j | 0 <= i < |a| && 0 <= j < |b|
      ensures a[i] != b[j]
    {
      assert a[i] in a && b[j] in b;
    }
  }

  ghost predicate AllFaithful(db: Db, rows: seq<Row>, nodes: seq<TopicNode>) {
    forall c :: c in nodes ==> Faithful(db, rows, c)
  }

  /** What the loop over children has built from the rows handled so far. */
  ghost predicate Built(db: Db, rows: seq<Row>, done: seq<Row>, nodes: seq<TopicNode>, rolled: set<int>) {
    && AreNodesOf(nodes, done) && AllFaithful(db, rows, nodes)
    && rolled == PapersOn(db, Under(db.topics, done))
    && Covers(NodeIds(nodes), Under(db.topics, done))
  }

  lemma NodeIdsAppend(nodes: seq<TopicNode>, node: TopicNode)
    ensures NodeIds(nodes + [node]) == NodeIds(nodes) + Ids(node)
  {
  }

  lemma BuiltNext(db: Db, rows: seq<Row>, kids: seq<Row>, k: Option<int>, i: nat, nodes: seq<TopicNode>,
                  rolled: set<int>, node: TopicNode)
    requires Family(db.topics, kids, k) && i < |kids| && Built(db, rows, kids[..i], nodes, rolled)
    requires node.id == kids[i].id && Faithful(db, rows, node) && Covers(Ids(node), Desc(db, kids[i].id))
    ensures Built(db, rows, kids[..i + 1], nodes + [node], rolled + Rolled(db, kids[i].id))
  {
    UnderNext(db, kids, k, i);
    CoversJoin(NodeIds(nodes), Under(db.topics, kids[..i]), Ids(node), Desc(db, kids[i].id));
    NodeIdsAppend(nodes, node);
    PapersJoin(db, Under(db.topics, kids[..i]), Desc(db, kids[i].id));
    NextNodes(kids, i, nodes, node);
    assert AllFaithful(db, rows, nodes + [node]);
  }

  lemma NextNodes(kids: seq<Row>, i: nat, nodes: seq<TopicNode>, node: TopicNode)
    requires i < |kids| && AreNodesOf(nodes, kids[..i]) && node.id == kids[i].id
    ensures AreNodesOf(nodes + [node], kids[..i + 1])
  {
  }

  lemma PapersJoin(db: Db, s: set<int>, t: set<int>)
    ensures PapersOn(db, s + t) == PapersOn(db, s) + PapersOn(db, t)
  {
  }

  method BuildNode(db: Db, rows: seq<Row>, children: map<Option<int>, seq<Row>>, row: Row, visited0: set<int>)
    returns (node: TopicNode, rolled: set<int>, visited: set<int>)
    requires Lists(rows, db.topics) && row in rows && Grounded(UpOf(db.topics), row.id)
    requires forall k :: (if k in children then children[k] else []) == ChildRows(rows, KnownIds(rows), k)
    requires visited0 !! Desc(db, row.id)
    ensures node.id == row.id && Faithful(db, rows, node)
    ensures rolled == Rolled(db, row.id)
    ensures visited == visited0 + Desc(db, row.id)
    ensures Covers(Ids(node), Desc(db, row.id))
    decreases db.topics.Keys - visited0, 0
  {
    ListsRow(rows, db.topics, row);
    BelowUnfold(UpOf(db.topics), row.id, row.id);
    ChildFamily(rows, db.topics, Some(row.id));
    visited := visited0 + {row.id};
    var mine := Direct(db, row.id);
    var kids := if Some(row.id) in children then children[Some(row.id)] else [];
    DescByChildren(db, row.id, kids);
    var nodes, below;
    nodes, below, visited := BuildAll(db, rows, children, kids, Some(row.id), visited);
    rolled := mine + below;
    PapersJoin(db, {row.id}, Under(db.topics, kids));
    assert PapersOn(db, {row.id}) == mine;
    CoversJoin([row.id], {row.id}, NodeIds(nodes), Under(db.topics, kids));
    node := TopicNode(row.id, row.name, row.parent, |mine|, |rolled|, nodes);
  }

  /** The loop over children, with the shared visited set threaded through. The
      test on visited never skips a child: each topic has one parent. */
  method BuildAll(db: Db, rows: seq<Row>, children: map<Option<int>, seq<Row>>, kids: seq<Row>, k: Option<int>,
                  visited0: set<int>)
    returns (nodes: seq<TopicNode>, rolled: set<int>, visited: set<int>)
    requires Lists(rows, db.topics) && Family(db.topics, kids, k)
    requires forall k :: (if k in children then children[k] else []) == ChildRows(rows, KnownIds(rows), k)
    requires visited0 !! Under(db.topics, kids)
    ensures Built(db, rows, kids, nodes, rolled)
    ensures visited == visited0 + Under(db.topics, kids)
    decreases db.topics.Keys - visited0, 1
  {
    nodes, rolled, visited := [], {}, visited0;
    for i := 0 to |kids|
      invariant Built(db, rows, kids[..i], nodes, rolled)
      invariant visited == visited0 + Under(db.topics, kids[..i])
    {
      UnderNext(db, kids, k, i);
      FamilyGrounded(db.topics, kids, k, i);
      ListsRow(rows, db.topics, kids[i]);
      if kids[i].id !in visited {
        var node, below;
        node, below, visited := BuildNode(db, rows, children, kids[i], visited);
        BuiltNext(db, rows, kids, k, i, nodes, rolled, node);
        nodes := nodes + [node];
        rolled := rolled + below;
      }
    }
    assert kids[..|kids|] == kids;
  }

  // ---- the order of the nested tree ----------------------------------------

  ghost predicate InNameOrder(nodes: seq<TopicNode>) {
    forall i, j :: 0 <= i < j < |nodes| ==> LexLeq(Fold(nodes[i].name), Fold(nodes[j].name))
  }

  /** The children are in order of name ignoring case, at this node and at every one below. */
  ghost predicate Alphabetical(node: TopicNode) {
    InNameOrder(node.children) && forall c :: c in node.children ==> Alphabetical(c)
  }

  lemma SiblingsByName(db: Db, rows: seq<Row>, nodes: seq<TopicNode>, k: Option<int>)
    requires Lists(rows, db.topics) && SortedBy(ByName, rows)
    requires AreNodesOf(nodes, ChildRows(rows, KnownIds(rows), k)) && AllFaithful(db, rows, nodes)
    ensures InNameOrder(nodes)
  {
    var kids := ChildRows(rows, KnownIds(rows), k);
    ChildRowsSorted(rows, KnownIds(rows), k);
    forall i | 0 <= i < |nodes|
      ensures nodes[i].name == kids[i].name
    {
      ChildRowsMember(rows, KnownIds(rows), k, kids[i]);
      ListsRow(rows, db.topics, kids[i]);
      assert Faithful(db, rows, nodes[i]);
    }
    forall i, j | 0 <= i < j < |nodes|
      ensures LexLeq(Fold(nodes[i].name), Fold(nodes[j].name))
    {
      assert ByName(kids[i], kids[j]);
    }
  }

  /** Rows listed by name make every level of the tree alphabetical. */
  lemma {:induction false} FaithfulAlphabetical(db: Db, rows: seq<Row>, node: TopicNode)
    requires Lists(rows, db.topics) && SortedBy(ByName, rows) && Faithful(db, rows, node)
    ensures Alphabetical(node)
  {
    SiblingsByName(db, rows, node.children, Some(node.id));
    forall c | c in node.children
      ensures Alphabetical(c)
    {
      FaithfulAlphabetical(db, rows, c);
    }
  }

  /** For every table the forest holds each topic that climbs to a root exactly once,
      hence every topic when there is no cycle, under its own parent, with counts of
      distinct papers; from rows listed by name it is alphabetical at every level. */
  method BuildTopicTree(db: Db, rows: seq<Row>) returns (forest: seq<TopicNode>)
    requires Lists(rows, db.topics)
    ensures AreNodesOf(forest, ChildRows(rows, KnownIds(rows), None))
    ensures forall c :: c in forest ==> Faithful(db, rows, c)
    ensures NoRepeats(NodeIds(forest))
    ensures forall x :: x in NodeIds(forest) <==> x in db.topics && Grounded(UpOf(db.topics), x)
    ensures Acyclic(UpOf(db.topics)) ==> forall x :: x in NodeIds(forest) <==> x in db.topics
    ensures SortedBy(ByName, rows) ==> InNameOrder(forest) && forall c :: c in forest ==> Alphabetical(c)
  {
    var children := ChildrenMap(rows);
    ChildFamily(rows, db.topics, None);
    var roots := if None in children then children[None] else [];
    var rolled, visited;
    forest, rolled, visited := BuildAll(db, rows, children, roots, None, {});
    forall x | x in db.topics
      ensures x in NodeIds(forest) <==> Grounded(UpOf(db.topics), x)
    {
      RootsCover(db.topics, roots, x);
    }
    if SortedBy(ByName, rows) {
      SiblingsByName(db, rows, forest, None);
      forall c | c in forest
        ensures Alphabetical(c)
      {
        FaithfulAlphabetical(db, rows, c);
      }
    }
  }

  // ---- the indented listing ------------------------------------------------

  /** One printed line: the indent depth, the id in brackets, the name. */
  datatype Line = Line(depth: nat, id: int, name: string)

  predicate ByNameThenId(a: Row, b: Row) {
    if Fold(a.name) == Fold(b.name) then a.id <= b.id else LexLeq(Fold(a.name), Fold(b.name))
  }

  lemma ByNameThenIdOrder()
    ensures TotalPreorder(ByNameThenId)
  {
    forall a, b, c
      ensures ByNameThenId(a, b) || ByNameThenId(b, a)
      ensures ByNameThenId(a, b) && ByNameThenId(b, c) ==> ByNameThenId(a, c)
    {
      LexOrder(Fold(a.name), Fold(b.name), Fold(c.name));
      LexOrder(Fold(b.name), Fold(a.name), Fold(c.name));
      LexOrder(Fold(b.name), Fold(c.name), Fold(a.name));
    }
  }

  function LineIds(lines: seq<Line>): seq<int> {
    seq(|lines|, i requires 0 <= i < |lines| => lines[i].id)
  }

  /** Line j shows the parent of line i: one step less deep, nothing shallower between. */
  ghost predicate ParentAt(up: Up, lines: seq<Line>, i: nat, j: nat)
    requires i < |lines|
  {
    && j < i && lines[j].depth + 1 == lines[i].depth
    && lines[i].id in up && up[lines[i].id] == lines[j].id
    && forall m: nat :: j < m < i ==> lines[m].depth >= lines[i].depth
  }

  /** Reading the listing back: the parent of a line deeper than the base is the
      nearest earlier line one step less deep. */
  ghost predicate ParentShown(up: Up, lines: seq<Line>, base: nat, i: nat)
    requires i < |lines|
  {
    lines[i].depth >= base && (lines[i].depth > base ==> exists j: nat :: ParentAt(up, lines, i, j))
  }

  ghost predicate Readable(up: Up, lines: seq<Line>, base: nat) {
    forall i: nat :: i < |lines| ==> ParentShown(up, lines, base, i)
  }

  lemma ParentAtShifted(up: Up, a: seq<Line>, b: seq<Line>, i: nat, j: nat)
    requires i < |b| && ParentAt(up, b, i, j)
    ensures ParentAt(up, a + b, i + |a|, j + |a|)
  {
  }

  lemma ParentAtKept(up: Up, a: seq<Line>, b: seq<Line>, i: nat, j: nat)
    requires i < |a| && ParentAt(up, a, i, j)
    ensures ParentAt(up, a + b, i, j)
  {
  }

  lemma ReadableJoin(up: Up, a: seq<Line>, b: seq<Line>, base: nat)
    requires Readable(up, a, base) && Readable(up, b, base)
    ensures Readable(up, a + b, base)
  {
    forall i: nat | i < |a + b|
      ensures ParentShown(up, a + b, base, i)
    {
      if i < |a| {
        assert ParentShown(up, a, base, i);
        if a[i].depth > base {
          var j: nat :| ParentAt(up, a, i, j);
          ParentAtKept(up, a, b, i, j);
        }
      } else {
        assert ParentShown(up, b, base, i - |a|);
        if b[i - |a|].depth > base {
          var j: nat :| ParentAt(up, b, i - |a|, j);
          ParentAtShifted(up, a, b, i - |a|, j);
        }
      }
    }
  }

  lemma ReadableUnder(up: Up, head: Line, b: seq<Line>)
    requires Readable(up, b, head.depth + 1)
    requires forall i :: 0 <= i < |b| && b[i].depth == head.depth + 1 ==> b[i].id in up && up[b[i].id] == head.id
    ensures Readable(up, [head] + b, head.depth)
  {
    var s := [head] + b;
    forall i: nat | i < |s|
      ensures ParentShown(up, s, head.depth, i)
    {
      if i > 0 {
        assert ParentShown(up, b, head.depth + 1, i - 1);
        if s[i].depth == head.depth + 1 {
          forall m: nat | 0 < m < i
            ensures s[m].depth >= s[i].depth
          {
            assert ParentShown(up, b, head.depth + 1, m - 1);
          }
          assert ParentAt(up, s, i, 0);
        } else {
          var j: nat :| ParentAt(up, b, i - 1, j);
          ParentAtShifted(up, [head], b, i - 1, j);
        }
      }
    }
  }

  lemma SortedFamily(topics: map<int, Topic>, kids: seq<Row>, k: Option<int>)
    requires WholeFamily(topics, kids, k)
    ensures WholeFamily(topics, Sort(ByNameThenId, kids), k)
    ensures SortedBy(ByNameThenId, Sort(ByNameThenId, kids))
  {
    ByNameThenIdOrder();
    var sorted := Sort(ByNameThenId, kids);
    SortFacts(ByNameThenId, kids);
    SortMembers(ByNameThenId, kids);
    assert NoRepeats(kids);
    SortNoRepeats(ByNameThenId, kids);
    forall i | 0 <= i < |sorted|
      ensures InFamily(topics, k, sorted[i])
    {
      assert sorted[i] in kids;
    }
    forall i, j | 0 <= i < j < |sorted|
      ensures sorted[i].id != sorted[j].id
    {
      assert sorted[i] != sorted[j];
      assert InFamily(topics, k, sorted[i]) && InFamily(topics, k, sorted[j]);
    }
  }

  // ---- the order of siblings -----------------------------------------------

  function ParentIn(up: Up, x: int): Option<int> {
    if x in up then Some(up[x]) else None
  }

  /** If x and y have the same parent, x goes first by lower-cased name and then id. */
  predicate InOrder(topics: map<int, Topic>, x: int, y: int) {
    x in topics && y in topics && ParentIn(UpOf(topics), x) == ParentIn(UpOf(topics), y) ==>
      ByNameThenId(RowOf(topics, x), RowOf(topics, y))
  }

  ghost predicate SiblingOrder(topics: map<int, Topic>, lines: seq<Line>) {
    forall i, j :: 0 <= i < j < |lines| ==> InOrder(topics, lines[i].id, lines[j].id)
  }

  lemma FamilyParent(topics: map<int, Topic>, kids: seq<Row>, k: Option<int>, i: nat)
    requires Family(topics, kids, k) && i < |kids|
    ensures kids[i].id in topics && kids[i] == RowOf(topics, kids[i].id) && ParentIn(UpOf(topics), kids[i].id) == k
  {
    assert InFamily(topics, k, kids[i]);
  }

  /** Strictly inside a branch, so is the parent. */
  lemma InsideBranch(topics: map<int, Topic>, kids: seq<Row>, k: Option<int>, i: nat, x: int)
    requires Family(topics, kids, k) && i < |kids| && Below(UpOf(topics), kids[i].id, x) && x != kids[i].id
    ensures x in UpOf(topics) && Below(UpOf(topics), kids[i].id, UpOf(topics)[x])
    ensures ParentIn(UpOf(topics), x) != k
  {
    BelowUnfold(UpOf(topics), kids[i].id, x);
    if k.Some? {
      ParentApart(topics, kids, k, i);
    }
  }

  /** A branch comes in order after the branches of earlier siblings. */
  lemma BranchesInOrder(topics: map<int, Topic>, kids: seq<Row>, k: Option<int>, m: nat, i: nat, x: int, y: int)
    requires Family(topics, kids, k) && SortedBy(ByNameThenId, kids) && m < i < |kids|
    requires Below(UpOf(topics), kids[m].id, x) && Below(UpOf(topics), kids[i].id, y)
    ensures InOrder(topics, x, y)
  {
    FamilyParent(topics, kids, k, m);
    FamilyParent(topics, kids, k, i);
    if x != kids[m].id {
      InsideBranch(topics, kids, k, m, x);
      if y != kids[i].id {
        InsideBranch(topics, kids, k, i, y);
        SiblingsApart(topics, kids, k, m, i, UpOf(topics)[x]);
      }
    } else if y != kids[i].id {
      InsideBranch(topics, kids, k, i, y);
    } else {
      assert ByNameThenId(kids[m], kids[i]);
    }
  }

  /** What is below a topic has another parent than the topic itself. */
  lemma HeadInOrder(topics: map<int, Topic>, kids: seq<Row>, k: Option<int>, i: nat, y: int)
    requires Family(topics, kids, k) && i < |kids| && Below(UpOf(topics), kids[i].id, y) && y != kids[i].id
    ensures InOrder(topics, kids[i].id, y)
  {
    FamilyParent(topics, kids, k, i);
    InsideBranch(topics, kids, k, i, y);
  }

  lemma OrderNext(topics: map<int, Topic>, kids: seq<Row>, k: Option<int>, i: nat, below: seq<Row>,
                  lines: seq<Line>, rest: seq<Line>, head: Line)
    requires Family(topics, kids, k) && SortedBy(ByNameThenId, kids) && i < |kids|
    requires WholeFamily(topics, below, Some(kids[i].id))
    requires Covers(LineIds(lines), Under(topics, kids[..i])) && Covers(LineIds(rest), Under(topics, below))
    requires head.id == kids[i].id
    requires SiblingOrder(topics, lines) && SiblingOrder(topics, rest)
    ensures SiblingOrder(topics, lines + [head] + rest)
  {
    var db, all := Db(topics, {}, {}, 0), lines + [head] + rest;
    DescByChildren(db, head.id, below);
    FamilyParent(topics, kids, k, i);
    forall n | |lines| <= n < |all|
      ensures Below(UpOf(topics), head.id, all[n].id) && (n > |lines| ==> all[n].id != head.id)
    {
      if n == |lines| {
        BelowUnfold(UpOf(topics), head.id, head.id);
      } else {
        assert LineIds(rest)[n - |lines| - 1] == all[n].id && all[n].id in LineIds(rest);
        assert all[n].id in Desc(db, head.id);
      }
    }
    forall m, n | 0 <= m < n < |all|
      ensures InOrder(topics, all[m].id, all[n].id)
    {
      if n < |lines| {
        assert InOrder(topics, lines[m].id, lines[n].id);
      } else if m < |lines| {
        assert LineIds(lines)[m] == all[m].id && all[m].id in LineIds(lines);
        var b :| 0 <= b < i && Below(UpOf(topics), kids[..i][b].id, all[m].id);
        BranchesInOrder(topics, kids, k, b, i, all[m].id, all[n].id);
      } else if m == |lines| {
        HeadInOrder(topics, kids, k, i, all[n].id);
      } else {
        assert InOrder(topics, rest[m - |lines| - 1].id, rest[n - |lines| - 1].id);
      }
    }
  }

  /** The recursive walk of the renderer: it keeps no visited set and still ends,
      because from the roots every step goes to strictly fewer descendants. */
  method Walk(ghost topics: map<int, Topic>, byParent: map<Option<int>, seq<Row>>, kids: seq<Row>,
              ghost k: Option<int>, depth: nat)
    returns (lines: seq<Line>)
    requires Family(topics, kids, k) && SortedBy(ByNameThenId, kids) && Grouped(topics, byParent)
    ensures Walked(topics, kids, kids, lines, depth) && SiblingOrder(topics, lines)
    decreases Under(topics, kids)
  {
    lines := [];
    for i := 0 to |kids|
      invariant Walked(topics, kids, kids[..i], lines, depth) && SiblingOrder(topics, lines)
    {
      var topic := kids[i];
      UnderNext(Db(topics, {}, {}, 0), kids, k, i);
      FamilyGrounded(topics, kids, k, i);
      var below := if Some(topic.id) in byParent then byParent[Some(topic.id)] else [];
      DescByChildren(Db(topics, {}, {}, 0), topic.id, below);
      ghost var before := lines;
      lines := lines + [Line(depth, topic.id, topic.name)];
      var rest := Walk(topics, byParent, below, Some(topic.id), depth + 1);
      WalkedNext(topics, kids, k, i, below, before, rest, depth);
      OrderNext(topics, kids, k, i, below, before, rest, Line(depth, topic.id, topic.name));
      lines := lines + rest;
    }
    assert kids[..|kids|] == kids;
  }

  /** What the walk has printed for the rows handled so far. */
  ghost predicate Walked(topics: map<int, Topic>, kids: seq<Row>, done: seq<Row>, lines: seq<Line>, depth: nat) {
    && Covers(LineIds(lines), Under(topics, done))
    && Readable(UpOf(topics), lines, depth)
    && forall i :: 0 <= i < |lines| ==> ShownAs(topics, kids, lines[i], depth)
  }

  lemma WalkedNext(topics: map<int, Topic>, kids: seq<Row>, k: Option<int>, i: nat, below: seq<Row>,
                   lines: seq<Line>, rest: seq<Line>, depth: nat)
    requires Family(topics, kids, k) && i < |kids| && WholeFamily(topics, below, Some(kids[i].id))
    requires Walked(topics, kids, kids[..i], lines, depth) && Walked(topics, below, below, rest, depth + 1)
    ensures Walked(topics, kids, kids[..i + 1], lines + [Line(depth, kids[i].id, kids[i].name)] + rest, depth)
  {
    var db, head := Db(topics, {}, {}, 0), Line(depth, kids[i].id, kids[i].name);
    UnderNext(db, kids, k, i);
    DescByChildren(db, head.id, below);
    OneBranch(topics, kids, i, below, head, rest);
    CoversJoin(LineIds(lines), Under(topics, kids[..i]), LineIds([head] + rest), Desc(db, head.id));
    assert lines + [head] + rest == lines + ([head] + rest);
    assert LineIds(lines + ([head] + rest)) == LineIds(lines) + LineIds([head] + rest);
    ReadableJoin(UpOf(topics), lines, [head] + rest, depth);
  }

  /** Every list in the map is the whole sorted family of its key. */
  ghost predicate Grouped(topics: map<int, Topic>, byParent: map<Option<int>, seq<Row>>) {
    forall x :: x in topics && Grounded(UpOf(topics), x) ==>
      && WholeFamily(topics, if Some(x) in byParent then byParent[Some(x)] else [], Some(x))
      && SortedBy(ByNameThenId, if Some(x) in byParent then byParent[Some(x)] else [])
  }

  /** A line shows its topic's name; lines at the base depth are the given rows. */
  ghost predicate ShownAs(topics: map<int, Topic>, kids: seq<Row>, line: Line, base: nat) {
    && line.id in topics && line.name == topics[line.id].name
    && (line.depth == base ==> RowOf(topics, line.id) in kids)
  }

  lemma OneBranch(topics: map<int, Topic>, kids: seq<Row>, i: nat, below: seq<Row>, head: Line, rest: seq<Line>)
    requires i < |kids| && kids[i].id in topics && kids[i] == RowOf(topics, kids[i].id)
    requires head.id == kids[i].id && head.name == kids[i].name
    requires Family(topics, below, Some(head.id))
    requires Readable(UpOf(topics), rest, head.depth + 1)
    requires Covers(LineIds(rest), Under(topics, below))
    requires forall j :: 0 <= j < |rest| ==> ShownAs(topics, below, rest[j], head.depth + 1)
    requires Desc(Db(topics, {}, {}, 0), head.id) == {head.id} + Under(topics, below)
    requires head.id !in Under(topics, below)
    ensures Readable(UpOf(topics), [head] + rest, head.depth)
    ensures Covers(LineIds([head] + rest), Desc(Db(topics, {}, {}, 0), head.id))
    ensures forall j :: 0 <= j < |[head] + rest| ==> ShownAs(topics, kids, ([head] + rest)[j], head.depth)
  {
    forall j | 0 <= j < |rest|
      ensures rest[j].depth > head.depth
      ensures rest[j].depth == head.depth + 1 ==> rest[j].id in UpOf(topics) && UpOf(topics)[rest[j].id] == head.id
    {
      assert ParentShown(UpOf(topics), rest, head.depth + 1, j);
      assert ShownAs(topics, below, rest[j], head.depth + 1);
      if rest[j].depth == head.depth + 1 {
        var m :| 0 <= m < |below| && below[m] == RowOf(topics, rest[j].id);
      }
    }
    ReadableUnder(UpOf(topics), head, rest);
    CoversJoin([head.id], {head.id}, LineIds(rest), Under(topics, below));
    assert LineIds([head] + rest) == [head.id] + LineIds(rest);
  }

  /** The listing shows each topic that climbs to a root exactly once, for any parent
      pointers, the indentation alone says which topic is whose parent, and topics with
      the same parent are in order of name and id. */
  method RenderTaxonomyTree(rows: seq<Row>, ghost topics: map<int, Topic>) returns (lines: seq<Line>)
    requires Lists(rows, topics)
    ensures NoRepeats(LineIds(lines))
    ensures forall x :: x in LineIds(lines) <==> x in topics && Grounded(UpOf(topics), x)
    ensures Readable(UpOf(topics), lines, 0) && SiblingOrder(topics, lines)
    ensures forall i :: 0 <= i < |lines| ==> lines[i].id in topics && lines[i].name == topics[lines[i].id].name
    ensures forall i :: 0 <= i < |lines| && lines[i].depth == 0 ==> lines[i].id !in UpOf(topics)
  {
    var grouped := ChildrenMap(rows);
    var byParent := map k | k in grouped :: Sort(ByNameThenId, grouped[k]);
    forall k: Option<int> | k.Some? ==> Grounded(UpOf(topics), k.value)
      ensures WholeFamily(topics, if k in byParent then byParent[k] else [], k)
      ensures SortedBy(ByNameThenId, if k in byParent then byParent[k] else [])
    {
      ChildFamily(rows, topics, k);
      SortedFamily(topics, ChildRows(rows, KnownIds(rows), k), k);
    }
    var roots := if None in byParent then byParent[None] else [];
    assert WholeFamily(topics, roots, None);
    lines := Walk(topics, byParent, roots, None, 0);
    forall x | x in topics
      ensures x in LineIds(lines) <==> Grounded(UpOf(topics), x)
    {
      RootsCover(topics, roots, x);
    }
    forall i | 0 <= i < |lines| && lines[i].depth == 0
      ensures lines[i].id !in UpOf(topics)
    {
      assert ShownAs(topics, roots, lines[i], 0);
      var m :| 0 <= m < |roots| && roots[m] == RowOf(topics, lines[i].id);
    }
  }
}
