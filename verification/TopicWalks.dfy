/** The reads of the hierarchy: the breadth-first walk down, the walk up, and the
    depth-bounded recursive query, over any parent table, cyclic or not. */
module TopicWalks {
  import opened Wrappers
  import opened Text
  import opened Forest
  import opened Taxonomy
  import opened Sorting

  datatype Row = Row(id: int, name: string, parent: Option<int>)

  predicate ByName(a: Row, b: Row) {
    LexLeq(Fold(a.name), Fold(b.name))
  }

  /** rows is the table, each topic once. */
  ghost predicate Lists(rows: seq<Row>, topics: map<int, Topic>) {
    && (forall i :: 0 <= i < |rows| ==>
          rows[i].id in topics && topics[rows[i].id] == Topic(rows[i].name, rows[i].parent))
    && (forall i, j :: 0 <= i < j < |rows| ==> rows[i].id != rows[j].id)
    && (forall x :: x in topics ==> exists i :: 0 <= i < |rows| && rows[i].id == x)
  }

  // ---- children ------------------------------------------------------------

  /** A parent that is not in the table makes the topic a root. */
  function EffectiveParent(known: set<int>, row: Row): Option<int> {
    if row.parent.Some? && row.parent.value in known then row.parent else None
  }

  /** The rows whose effective parent is k, in table order. */
  function ChildRows(rows: seq<Row>, known: set<int>, k: Option<int>): seq<Row> {
    if rows == [] then []
    else
      var rest := ChildRows(rows[..|rows| - 1], known, k);
      var last := rows[|rows| - 1];
      if EffectiveParent(known, last) == k then rest + [last] else rest
  }

  lemma {:induction false} ChildRowsMember(rows: seq<Row>, known: set<int>, k: Option<int>, row: Row)
    ensures row in ChildRows(rows, known, k) <==> row in rows && EffectiveParent(known, row) == k
    decreases |rows|
  {
    if rows != [] {
      var init := rows[..|rows| - 1];
      ChildRowsMember(init, known, k, row);
      assert rows == init + [rows[|rows| - 1]];
    }
  }

  lemma {:induction false} ChildRowsNoRepeats(rows: seq<Row>, known: set<int>, k: Option<int>)
    requires forall i, j :: 0 <= i < j < |rows| ==> rows[i].id != rows[j].id
    ensures var c := ChildRows(rows, known, k);
            forall i, j :: 0 <= i < j < |c| ==> c[i].id != c[j].id
    decreases |rows|
  {
    if rows != [] {
      var init, last := rows[..|rows| - 1], rows[|rows| - 1];
      ChildRowsNoRepeats(init, known, k);
      var c := ChildRows(init, known, k);
      forall i | 0 <= i < |c|
        ensures c[i].id != last.id
      {
        ChildRowsMember(init, known, k, c[i]);
      }
    }
  }

  /** Children appear in the order of the listing. */
  lemma {:induction false} ChildRowsSorted(rows: seq<Row>, known: set<int>, k: Option<int>)
    requires SortedBy(ByName, rows)
    ensures SortedBy(ByName, ChildRows(rows, known, k))
    decreases |rows|
  {
    if rows != [] {
      var init, last := rows[..|rows| - 1], rows[|rows| - 1];
      ChildRowsSorted(init, known, k);
      var c := ChildRows(init, known, k);
      forall i | 0 <= i < |c|
        ensures ByName(c[i], last)
      {
        ChildRowsMember(init, known, k, c[i]);
        var j :| 0 <= j < |init| && init[j] == c[i];
        assert rows[j] == c[i];
      }
    }
  }

  function KnownIds(rows: seq<Row>): set<int> {
    set row | row in rows :: row.id
  }

  lemma ListsKnown(rows: seq<Row>, topics: map<int, Topic>)
    requires Lists(rows, topics)
    ensures KnownIds(rows) == topics.Keys
  {
    forall x | x in topics
      ensures x in KnownIds(rows)
    {
      var i :| 0 <= i < |rows| && rows[i].id == x;
      assert rows[i] in rows;
    }
  }

  function RowOf(topics: map<int, Topic>, x: int): Row
    requires x in topics
  {
    Row(x, topics[x].name, topics[x].parent)
  }

  lemma ListsRow(rows: seq<Row>, topics: map<int, Topic>, row: Row)
    requires Lists(rows, topics)
    ensures row in rows <==> row.id in topics && row == RowOf(topics, row.id)
  {
  }

  /** c is listed under x exactly when x is c's resolved parent. */
  lemma ChildRowsUp(rows: seq<Row>, topics: map<int, Topic>, x: int, row: Row)
    requires Lists(rows, topics)
    ensures row in ChildRows(rows, KnownIds(rows), Some(x)) <==>
            row.id in topics && row == RowOf(topics, row.id) && row.id in UpOf(topics) && UpOf(topics)[row.id] == x
    ensures row in ChildRows(rows, KnownIds(rows), None) <==>
            row.id in topics && row == RowOf(topics, row.id) && row.id !in UpOf(topics)
  {
    ListsKnown(rows, topics);
    ListsRow(rows, topics, row);
    ChildRowsMember(rows, KnownIds(rows), Some(x), row);
    ChildRowsMember(rows, KnownIds(rows), None, row);
  }

  method ChildrenMap(rows: seq<Row>) returns (children: map<Option<int>, seq<Row>>)
    ensures forall k :: (if k in children then children[k] else []) == ChildRows(rows, KnownIds(rows), k)
  {
    var known := set row | row in rows :: row.id;
    children := map[];
    for i := 0 to |rows|
      invariant forall k :: (if k in children then children[k] else []) == ChildRows(rows[..i], known, k)
    {
      var parent := EffectiveParent(known, rows[i]);
      var bucket := if parent in children then children[parent] else [];
      assert rows[..i + 1][..i] == rows[..i];
      children := children[parent := bucket + [rows[i]]];
    }
    assert rows[..|rows|] == rows;
  }

  // ---- levels --------------------------------------------------------------

  /** How far x sits below a along its chain, counting to the first time a is met. */
  ghost function LevelAt(up: Up, a: int, x: int, n: nat): nat
    requires Climb(up, x, n) == Some(a)
    decreases n
  {
    if x == a then 0 else 1 + LevelAt(up, a, up[x], n - 1)
  }

  ghost function Level(up: Up, a: int, x: int): nat
    requires Below(up, a, x)
  {
    var n: nat :| Climb(up, x, n) == Some(a);
    LevelAt(up, a, x, n)
  }

  lemma {:induction false} LevelAtAny(up: Up, a: int, x: int, m: nat, n: nat)
    requires Climb(up, x, m) == Some(a) && Climb(up, x, n) == Some(a)
    ensures LevelAt(up, a, x, m) == LevelAt(up, a, x, n) <= n
    ensures Climb(up, x, LevelAt(up, a, x, m)) == Some(a)
    decreases m
  {
    if x != a {
      LevelAtAny(up, a, up[x], m - 1, n - 1);
    }
  }

  lemma LevelUnfold(up: Up, a: int, x: int)
    requires Below(up, a, x)
    ensures x == a ==> Level(up, a, x) == 0
    ensures x != a ==> x in up && Below(up, a, up[x]) && Level(up, a, x) == 1 + Level(up, a, up[x])
    ensures Climb(up, x, Level(up, a, x)) == Some(a)
  {
    BelowUnfold(up, a, x);
    var n: nat :| Climb(up, x, n) == Some(a) && Level(up, a, x) == LevelAt(up, a, x, n);
    LevelAtAny(up, a, x, n, n);
    if x != a {
      var m: nat :| Climb(up, up[x], m) == Some(a) && Level(up, a, up[x]) == LevelAt(up, a, up[x], m);
      LevelAtAny(up, a, up[x], n - 1, m);
    }
  }

  // ---- the breadth-first walk ----------------------------------------------

  lemma {:induction false} ClosedHolds(up: Up, a: int, seen: set<int>, x: int, n: nat)
    requires a in seen && Climb(up, x, n) == Some(a)
    requires forall y :: y in up && up[y] in seen ==> y in seen
    ensures x in seen
    decreases n
  {
    if n > 0 {
      ClosedHolds(up, a, seen, up[x], n - 1);
    }
  }

  ghost predicate LevelOrdered(up: Up, a: int, ids: seq<int>) {
    && (forall i :: 0 <= i < |ids| ==> Below(up, a, ids[i]))
    && (forall i, j :: 0 <= i < j < |ids| ==> Level(up, a, ids[i]) <= Level(up, a, ids[j]))
  }

  /** What the walk knows: ids collected so far, all of them seen, in level order. */
  ghost predicate Collected(up: Up, a: int, bound: set<int>, seen: set<int>, all: seq<int>) {
    && |all| > 0 && all[0] == a
    && NoRepeats(all) && |seen| == |all| && (forall x :: x in seen <==> x in all)
    && seen <= bound
    && LevelOrdered(up, a, all)
  }

  /** Every collected id is at most one level below the one being expanded. */
  ghost predicate OneLevelAhead(up: Up, a: int, all: seq<int>, level: nat) {
    forall i :: 0 <= i < |all| ==> Below(up, a, all[i]) && Level(up, a, all[i]) <= level + 1
  }

  /** Only the children of ids still waiting may be unseen. */
  ghost predicate Expanded(up: Up, seen: set<int>, waiting: seq<int>) {
    forall y :: y in up && up[y] in seen && up[y] !in waiting ==> y in seen
  }

  lemma CollectChild(up: Up, a: int, bound: set<int>, seen: set<int>, all: seq<int>, x: int, c: int)
    requires Collected(up, a, bound, seen, all) && x in all && Below(up, a, x)
    requires OneLevelAhead(up, a, all, Level(up, a, x))
    requires c in up && up[c] == x && c !in seen && c in bound
    ensures Collected(up, a, bound, seen + {c}, all + [c])
    ensures OneLevelAhead(up, a, all + [c], Level(up, a, x))
  {
    BelowUnfold(up, a, c);
    LevelUnfold(up, a, c);
  }

  lemma ExpandedNext(rows: seq<Row>, topics: map<int, Topic>, seen0: set<int>, waiting: seq<int>, seen: set<int>,
                     found: seq<int>)
    requires Lists(rows, topics) && waiting != [] && Expanded(UpOf(topics), seen0, waiting)
    requires seen0 <= seen && forall y :: y in seen ==> y in seen0 || y in found
    requires forall row :: row in ChildRows(rows, KnownIds(rows), Some(waiting[0])) ==> row.id in seen
    ensures Expanded(UpOf(topics), seen, waiting[1..] + found)
  {
    var up := UpOf(topics);
    forall y | y in up && up[y] in seen && up[y] !in waiting[1..] + found
      ensures y in seen
    {
      if up[y] == waiting[0] {
        ChildRowsUp(rows, topics, waiting[0], RowOf(topics, y));
      } else {
        assert waiting == [waiting[0]] + waiting[1..];
        assert up[y] in seen0 && up[y] !in waiting;
      }
    }
  }

  lemma CollectedCloses(up: Up, a: int, bound: set<int>, seen: set<int>, all: seq<int>, x: int)
    requires Collected(up, a, bound, seen, all) && Expanded(up, seen, [])
    ensures Below(up, a, x) <==> x in all
  {
    if Below(up, a, x) {
      var n: nat :| Climb(up, x, n) == Some(a);
      ClosedHolds(up, a, seen, x, n);
    }
  }

  lemma TailMembers(all: seq<int>, x: int)
    requires |all| > 0 && NoRepeats(all)
    ensures x in all[1..] <==> x in all && x != all[0]
  {
  }

  ghost predicate Suffix(rest: seq<int>, all: seq<int>) {
    |rest| <= |all| && rest == all[|all| - |rest|..]
  }

  lemma Dequeued(all: seq<int>, frontier: seq<int>, found: seq<int>)
    requires frontier != [] && Suffix(frontier, all)
    ensures Suffix(frontier[1..] + found, all + found)
    ensures |all| > 0 && (all + found)[1..] == all[1..] + found
    ensures frontier[0] in all
  {
  }

  /** The next id in line sits no higher than the one just expanded. */
  lemma NextInLine(up: Up, a: int, all: seq<int>, frontier: seq<int>, found: seq<int>)
    requires frontier != [] && Suffix(frontier, all) && LevelOrdered(up, a, all + found)
    requires Below(up, a, frontier[0]) && OneLevelAhead(up, a, all + found, Level(up, a, frontier[0]))
    ensures var rest := frontier[1..] + found;
            rest != [] ==> Below(up, a, rest[0]) && OneLevelAhead(up, a, all + found, Level(up, a, rest[0]))
  {
    var rest, k := frontier[1..] + found, |all| - |frontier|;
    assert frontier[0] == (all + found)[k];
    if rest != [] {
      Dequeued(all, frontier, found);
      assert rest[0] == (all + found)[k + 1];
    }
  }

  /** What the visit of x's children has found so far, beyond what was seen before. */
  ghost predicate Visited(up: Up, a: int, bound: set<int>, all: seq<int>, x: int, seen0: set<int>, seen: set<int>,
                          found: seq<int>) {
    && x in all && Below(up, a, x)
    && Collected(up, a, bound, seen, all + found) && OneLevelAhead(up, a, all + found, Level(up, a, x))
    && seen0 <= seen && forall y :: y in seen ==> y in seen0 || y in found
  }

  /** What the walk knows between two expansions. */
  ghost predicate Walking(up: Up, a: int, bound: set<int>, seen: set<int>, frontier: seq<int>, all: seq<int>) {
    && Suffix(frontier, all) && Collected(up, a, bound, seen, all) && Expanded(up, seen, frontier)
    && (frontier != [] ==> Below(up, a, frontier[0]) && OneLevelAhead(up, a, all, Level(up, a, frontier[0])))
  }

  lemma WalkStarts(up: Up, a: int, bound: set<int>)
    requires a in bound
    ensures Walking(up, a, bound, {a}, [a], [a])
  {
    BelowUnfold(up, a, a);
    LevelUnfold(up, a, a);
  }

  lemma WalkNext(rows: seq<Row>, topics: map<int, Topic>, a: int, bound: set<int>, all: seq<int>, frontier: seq<int>,
                 seen0: set<int>, seen: set<int>, found: seq<int>)
    requires Lists(rows, topics) && frontier != [] && Walking(UpOf(topics), a, bound, seen0, frontier, all)
    requires Visited(UpOf(topics), a, bound, all, frontier[0], seen0, seen, found)
    requires forall row :: row in ChildRows(rows, KnownIds(rows), Some(frontier[0])) ==> row.id in seen
    ensures Walking(UpOf(topics), a, bound, seen, frontier[1..] + found, all + found)
  {
    Dequeued(all, frontier, found);
    NextInLine(UpOf(topics), a, all, frontier, found);
    ExpandedNext(rows, topics, seen0, frontier, seen, found);
  }

  lemma LevelOrderedTail(up: Up, a: int, all: seq<int>)
    requires |all| > 0 && NoRepeats(all) && LevelOrdered(up, a, all)
    ensures NoRepeats(all[1..]) && LevelOrdered(up, a, all[1..])
  {
  }

  lemma VisitedNext(up: Up, a: int, bound: set<int>, all: seq<int>, x: int, seen0: set<int>, seen: set<int>,
                    found: seq<int>, c: int)
    requires Visited(up, a, bound, all, x, seen0, seen, found)
    requires c in up && up[c] == x && c !in seen && c in bound
    ensures Visited(up, a, bound, all, x, seen0, seen + {c}, found + [c])
  {
    CollectChild(up, a, bound, seen, all + found, x, c);
    Assoc(all, found, [c]);
  }

  /** The inner loop of the walk: the children of x not seen before, in order. */
  method VisitChildren(kids: seq<Row>, seen0: set<int>, ghost up: Up, ghost a: int, ghost bound: set<int>,
                       ghost all: seq<int>, ghost x: int)
    returns (seen: set<int>, found: seq<int>)
    requires Collected(up, a, bound, seen0, all) && x in all && Below(up, a, x)
    requires OneLevelAhead(up, a, all, Level(up, a, x))
    requires forall i :: 0 <= i < |kids| ==> kids[i].id in up && up[kids[i].id] == x && kids[i].id in bound
    ensures Visited(up, a, bound, all, x, seen0, seen, found)
    ensures forall i :: 0 <= i < |kids| ==> kids[i].id in seen
  {
    seen, found := seen0, [];
    assert all + found == all;
    for i := 0 to |kids|
      invariant Visited(up, a, bound, all, x, seen0, seen, found)
      invariant forall j :: 0 <= j < i ==> kids[j].id in seen
    {
      var child := kids[i];
      if child.id !in seen {
        VisitedNext(up, a, bound, all, x, seen0, seen, found, child.id);
        seen := seen + {child.id};
        found := found + [child.id];
      }
    }
  }

  /** Every table, cyclic or not: the walk ends, lists each reachable topic once,
      nearest levels first. */
  method DescendantIds(rows: seq<Row>, topicId: int, includeSelf: bool, ghost topics: map<int, Topic>)
    returns (out: seq<int>)
    requires Lists(rows, topics)
    ensures NoRepeats(out)
    ensures forall x :: x in out <==> Below(UpOf(topics), topicId, x) && (includeSelf || x != topicId)
    ensures LevelOrdered(UpOf(topics), topicId, out)
  {
    var children := ChildrenMap(rows);
    ghost var up, bound := UpOf(topics), topics.Keys + {topicId};
    out := if includeSelf then [topicId] else [];
    var seen := {topicId};
    var frontier := [topicId];
    ghost var all := [topicId];
    WalkStarts(up, topicId, bound);
    while frontier != []
      invariant Walking(up, topicId, bound, seen, frontier, all)
      invariant out == if includeSelf then all else all[1..]
      decreases |bound| - |all| + |frontier|
    {
      var current := frontier[0];
      var kids := if Some(current) in children then children[Some(current)] else [];
      forall i | 0 <= i < |kids|
        ensures kids[i].id in up && up[kids[i].id] == current && kids[i].id in bound
      {
        ChildRowsUp(rows, topics, current, kids[i]);
      }
      var found: seq<int>;
      ghost var seen0 := seen;
      seen, found := VisitChildren(kids, seen, up, topicId, bound, all, current);
      Dequeued(all, frontier, found);
      WalkNext(rows, topics, topicId, bound, all, frontier, seen0, seen, found);
      out := out + found;
      frontier := frontier[1..] + found;
      all := all + found;
      SubsetCount(seen, bound);
    }
    LevelOrderedTail(up, topicId, all);
    forall x
      ensures x in out <==> Below(up, topicId, x) && (includeSelf || x != topicId)
    {
      CollectedCloses(up, topicId, bound, seen, all, x);
      TailMembers(all, x);
    }
  }

  lemma {:induction false} SubsetCount<T>(a: set<T>, b: set<T>)
    requires a <= b
    ensures |a| <= |b|
    decreases b
  {
    assert b == a + (b - a);
  }

  // ---- the walk up ---------------------------------------------------------

  /** The stored pointers, resolved or not: what the upward walk follows. */
  function StoredUp(topics: map<int, Topic>): Up {
    map x | x in topics && topics[x].parent.Some? :: topics[x].parent.value
  }

  /** Every table: the walk ends, lists the proper ancestors nearest first, each once. */
  method AncestorIds(topics: map<int, Topic>, topicId: int) returns (out: seq<int>)
    ensures NoRepeats(out)
    ensures forall i :: 0 <= i < |out| ==> Climb(StoredUp(topics), topicId, i + 1) == Some(out[i])
    ensures forall x :: x in out <==> x != topicId && Below(StoredUp(topics), x, topicId)
  {
    ghost var up := StoredUp(topics);
    ghost var range := topics.Keys + up.Values + {topicId};
    out := [];
    var seen := {topicId};
    var current := topicId;
    while current in topics && topics[current].parent.Some? && topics[current].parent.value !in seen
      invariant NoRepeats(out) && forall x :: x in seen <==> x == topicId || x in out
      invariant topicId !in out && seen <= range
      invariant forall i :: 0 <= i < |out| ==> Climb(up, topicId, i + 1) == Some(out[i])
      invariant Climb(up, topicId, |out|) == Some(current)
      decreases range - seen
    {
      var parent := topics[current].parent.value;
      ClimbAdd(up, topicId, |out|, 1);
      assert Climb(up, current, 1) == Climb(up, parent, 0);
      assert up[current] in up.Values;
      seen := seen + {parent};
      out := out + [parent];
      current := parent;
    }
    forall x | x != topicId && Below(up, x, topicId)
      ensures x in out
    {
      var n: nat :| Climb(up, topicId, n) == Some(x);
      AncestorSeen(up, topicId, out, n);
    }
    forall x | x in out
      ensures Below(up, x, topicId)
    {
      var i :| 0 <= i < |out| && out[i] == x;
      assert Climb(up, topicId, i + 1) == Some(x);
    }
  }

  lemma {:induction false} AncestorSeen(up: Up, a: int, out: seq<int>, n: nat)
    requires Climb(up, a, n).Some?
    requires forall i :: 0 <= i < |out| ==> Climb(up, a, i + 1) == Some(out[i])
    requires Climb(up, a, |out|).Some?
    requires var last := Climb(up, a, |out|).value; last in up ==> up[last] == a || up[last] in out
    ensures Climb(up, a, n).value == a || Climb(up, a, n).value in out
    decreases n
  {
    if n > 0 {
      ClimbPrefix(up, a, n);
      AncestorSeen(up, a, out, n - 1);
      ClimbAdd(up, a, n - 1, 1);
      var y := Climb(up, a, n - 1).value;
      assert Climb(up, y, 1) == Climb(up, up[y], 0);
      var i: nat := if y == a then 0 else 1 + IndexOf(out, y);
      assert Climb(up, a, i) == Some(y);
      assert Climb(up, a, n) == Some(up[y]);
      if i < |out| {
        ClimbAdd(up, a, i, 1);
        assert Climb(up, a, i + 1) == Some(out[i]);
      }
    }
  }

  ghost function IndexOf(s: seq<int>, x: int): nat
    requires x in s
    ensures IndexOf(s, x) < |s| && s[IndexOf(s, x)] == x
  {
    var i :| 0 <= i < |s| && s[i] == x; i
  }

  lemma {:induction false} ClimbPrefix(up: Up, a: int, n: nat)
    requires n > 0 && Climb(up, a, n).Some?
    ensures Climb(up, a, n - 1).Some?
    decreases n
  {
    if n > 1 {
      ClimbPrefix(up, up[a], n - 1);
    }
  }

  // ---- the recursive query -------------------------------------------------

  const MAX_TOPIC_DEPTH: nat := 32

  /** The ids the recursive query produces at one depth. */
  function ScopeLevel(topics: map<int, Topic>, root: int, depth: nat): set<int> {
    if depth == 0 then {root}
    else
      var above := ScopeLevel(topics, root, depth - 1);
      set x | x in topics && topics[x].parent.Some? && topics[x].parent.value in above
  }

  /** All ids the query produces down to a depth. */
  function ScopeUpTo(topics: map<int, Topic>, root: int, depth: nat): set<int> {
    if depth == 0 then {root} else ScopeUpTo(topics, root, depth - 1) + ScopeLevel(topics, root, depth)
  }

  function TopicScope(topics: map<int, Topic>, root: int): set<int> {
    ScopeUpTo(topics, root, MAX_TOPIC_DEPTH)
  }

  lemma {:induction false} ScopeLevelMeaning(topics: map<int, Topic>, root: int, depth: nat, x: int)
    requires root in topics
    ensures x in ScopeLevel(topics, root, depth) <==> Climb(UpOf(topics), x, depth) == Some(root)
    ensures x in ScopeLevel(topics, root, depth) ==> x in topics
    decreases depth
  {
    if depth > 0 && x in topics && topics[x].parent.Some? {
      ScopeLevelMeaning(topics, root, depth - 1, topics[x].parent.value);
    }
  }

  lemma {:induction false} ScopeUpToMeaning(topics: map<int, Topic>, root: int, depth: nat, x: int)
    requires root in topics
    ensures x in ScopeUpTo(topics, root, depth) <==>
            exists n: nat :: n <= depth && Climb(UpOf(topics), x, n) == Some(root)
    decreases depth
  {
    ScopeLevelMeaning(topics, root, depth, x);
    if depth > 0 {
      ScopeUpToMeaning(topics, root, depth - 1, x);
    } else {
      assert Climb(UpOf(topics), x, 0) == Some(x);
    }
  }

  lemma ScopeMember(db: Db, root: int, depth: nat, x: int)
    requires root in db.topics
    ensures x in ScopeUpTo(db.topics, root, depth) <==>
            x in Desc(db, root) && Level(UpOf(db.topics), root, x) <= depth
  {
    var up := UpOf(db.topics);
    ScopeUpToMeaning(db.topics, root, depth, x);
    if x in ScopeUpTo(db.topics, root, depth) {
      var n: nat :| n <= depth && Climb(up, x, n) == Some(root);
      ScopeLevelMeaning(db.topics, root, n, x);
      assert Below(up, root, x);
      var m: nat :| Climb(up, x, m) == Some(root) && Level(up, root, x) == LevelAt(up, root, x, m);
      LevelAtAny(up, root, x, m, n);
    }
    if x in Desc(db, root) && Level(up, root, x) <= depth {
      LevelUnfold(up, root, x);
    }
  }

  ghost predicate WithinDepth(db: Db, root: int, depth: nat) {
    forall x :: x in Desc(db, root) ==> Level(UpOf(db.topics), root, x) <= depth
  }

  lemma ScopeUpToAgrees(db: Db, root: int, depth: nat)
    requires root in db.topics
    ensures ScopeUpTo(db.topics, root, depth) == Desc(db, root) <==> WithinDepth(db, root, depth)
    ensures ScopeUpTo(db.topics, root, depth) <= Desc(db, root)
  {
    forall x {
      ScopeMember(db, root, depth, x);
    }
  }

  /** The query and the walk name the same topics exactly when no topic under the
      root sits more than 32 levels down. */
  lemma ScopeAgreesExactly(db: Db, root: int)
    requires root in db.topics
    ensures TopicScope(db.topics, root) == Desc(db, root) <==> WithinDepth(db, root, MAX_TOPIC_DEPTH)
    ensures TopicScope(db.topics, root) <= Desc(db, root)
  {
    ScopeUpToAgrees(db, root, MAX_TOPIC_DEPTH);
  }

  /** The papers the text half of a topic-scoped search may return. */
  function TextScopePapers(db: Db, root: int): set<int> {
    set l | l in db.links && l.topic in TopicScope(db.topics, root) :: l.paper
  }

  /** The papers the vector half filters by: tags on any of the walked ids. */
  method VectorScopePapers(db: Db, rows: seq<Row>, root: int) returns (allowed: set<int>)
    requires Lists(rows, db.topics) && LinksLive(db)
    ensures allowed == Rolled(db, root)
  {
    var ids := DescendantIds(rows, root, true, db.topics);
    allowed := set l | l in db.links && l.topic in ids :: l.paper;
  }

  /** Within 32 levels both halves of the hybrid search filter by the same papers;
      the text half never admits a paper the vector half refuses. */
  lemma SearchHalvesAgree(db: Db, root: int)
    requires root in db.topics
    ensures TextScopePapers(db, root) <= Rolled(db, root)
    ensures WithinDepth(db, root, MAX_TOPIC_DEPTH) ==> TextScopePapers(db, root) == Rolled(db, root)
  {
    ScopeAgreesExactly(db, root);
  }

  function ChainTopic(x: nat): Topic {
    Topic(seq(x, _ => 'a'), if x == 1 then None else Some(x - 1))
  }

  function UpTo(n: nat): set<int> {
    if n == 0 then {} else UpTo(n - 1) + {n}
  }

  lemma {:induction false} UpToMember(n: nat, x: int)
    ensures x in UpTo(n) <==> 1 <= x <= n
    decreases n
  {
    if n > 0 {
      UpToMember(n - 1, x);
    }
  }

  /** A chain of topics 1, 2, ..., n, each under the one before. */
  function Chain(n: nat): map<int, Topic> {
    map x | x in UpTo(n) && x > 0 :: ChainTopic(x)
  }

  lemma {:induction false} ChainClimb(n: nat, x: int, k: nat)
    requires 1 <= x <= n && k < x
    ensures Climb(UpOf(Chain(n)), x, k) == Some(x - k)
    decreases k
  {
    UpToMember(n, x);
    UpToMember(n, x - 1);
    if k > 0 {
      ChainClimb(n, x - 1, k - 1);
    }
  }

  lemma {:induction false} ChainGrounded(n: nat, x: nat)
    ensures Grounded(UpOf(Chain(n)), x)
    decreases x
  {
    GroundedUnfold(UpOf(Chain(n)), x);
    UpToMember(n, x);
    if x > 0 {
      ChainGrounded(n, x - 1);
    }
  }

  lemma ChainValid(n: nat, links: set<Link>, papers: set<int>)
    requires forall l :: l in links ==> l.paper in papers && 1 <= l.topic <= n
    ensures Valid(Db(Chain(n), links, papers, n + 1))
  {
    var db := Db(Chain(n), links, papers, n + 1);
    forall x
      ensures x in UpTo(n) <==> 1 <= x <= n
    {
      UpToMember(n, x);
    }
    forall x
      ensures Grounded(UpOf(db.topics), x)
    {
      if x >= 0 {
        ChainGrounded(n, x);
      } else {
        GroundedUnfold(UpOf(db.topics), x);
      }
    }
    forall x | x in db.topics
      ensures db.topics[x] == ChainTopic(x) && |Fold(db.topics[x].name)| == x
    {
    }
    assert NamesCurated(db);
  }

  /** The last of the chain is n - 1 levels down. */
  lemma ChainLevel(n: nat)
    requires n > 0
    ensures Below(UpOf(Chain(n)), 1, n) && Level(UpOf(Chain(n)), 1, n) == n - 1
  {
    var up := UpOf(Chain(n));
    ChainClimb(n, n, n - 1);
    LevelUnfold(up, 1, n);
    var m: nat :| Climb(up, n, m) == Some(1) && Level(up, 1, n) == LevelAt(up, 1, n, m);
    LevelAtAny(up, 1, n, m, n - 1);
    ChainClimb(n, n, Level(up, 1, n));
  }

  lemma TagAtTheEnd(db: Db, paper: int, n: nat)
    requires db.topics == Chain(n) && db.links == {Link(paper, n)} && n > MAX_TOPIC_DEPTH + 1
    ensures Rolled(db, 1) == {paper} && TextScopePapers(db, 1) == {}
  {
    UpToMember(n, 1);
    UpToMember(n, n);
    ChainLevel(n);
    ScopeMember(db, 1, MAX_TOPIC_DEPTH, n);
    assert Link(paper, n) in db.links;
  }

  lemma ChainWithin(db: Db, n: nat)
    requires db.topics == Chain(n) && n > 0
    ensures WithinDepth(db, 1, n - 1)
  {
    var up := UpOf(db.topics);
    forall x | x in Desc(db, 1)
      ensures Level(up, 1, x) <= n - 1
    {
      UpToMember(n, x);
      ChainClimb(n, x, x - 1);
      var m: nat :| Climb(up, x, m) == Some(1) && Level(up, 1, x) == LevelAt(up, 1, x, m);
      LevelAtAny(up, 1, x, m, x - 1);
    }
  }

  function DeepDb(paper: int, n: nat): Db {
    Db(Chain(n), {Link(paper, n)}, {paper}, n + 1)
  }

  lemma DeepDbValid(db: Db, paper: int, depth: nat)
    requires db == DeepDb(paper, depth + 1)
    ensures Valid(db) && WithinDepth(db, 1, depth)
  {
    ChainValid(depth + 1, db.links, db.papers);
    ChainWithin(db, depth + 1);
  }

  /** 32 is sharp: in this valid library the only tag sits deeper than that, and
      the vector half finds the paper while the text half does not. */
  lemma DeepTopicMissed(db: Db, paper: int, depth: nat)
    requires depth > MAX_TOPIC_DEPTH && db == DeepDb(paper, depth + 1)
    ensures Rolled(db, 1) == {paper} && TextScopePapers(db, 1) == {}
  {
    TagAtTheEnd(db, paper, depth + 1);
  }
}
