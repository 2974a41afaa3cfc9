/** The taxonomy service as it runs: table rows updated in place, statement by
    statement, each method proved against the function of the same name. */
module TopicStore {
  import opened Wrappers
  import opened Text
  import opened Sorting
  import opened Taxonomy
  import opened TaxonomyEdits
  import opened TopicWalks

  class TopicStore {
    var topics: map<int, Topic>
    var links: set<Link>
    var papers: set<int>
    var nextId: int

    ghost function Tables(): Db
      reads this
    {
      Db(topics, links, papers, nextId)
    }

    constructor ()
      ensures Tables() == EMPTY_DB
    {
      topics, links, papers, nextId := map[], {}, {}, 1;
    }

    // ---- reads -------------------------------------------------------------

    /** SELECT id, name, parent_id FROM topics ORDER BY name COLLATE NOCASE. */
    method ListTopics() returns (rows: seq<Row>)
      ensures Lists(rows, topics) && SortedBy(ByName, rows)
    {
      rows := [];
      var left := topics.Keys;
      while left != {}
        invariant left <= topics.Keys
        invariant forall i :: 0 <= i < |rows| ==>
                    rows[i].id in topics && rows[i].id !in left && rows[i] == RowOf(topics, rows[i].id)
        invariant forall i, j :: 0 <= i < j < |rows| ==> rows[i].id != rows[j].id
        invariant forall x :: x in topics && x !in left ==> exists i :: 0 <= i < |rows| && rows[i].id == x
        decreases left
      {
        SomeId(left);
        var x :| x in left;
        ghost var before := rows;
        rows := rows + [RowOf(topics, x)];
        left := left - {x};
        forall y | y in topics && y !in left
          ensures exists i :: 0 <= i < |rows| && rows[i].id == y
        {
          if y == x {
            assert rows[|rows| - 1].id == y;
          } else {
            var i :| 0 <= i < |before| && before[i].id == y;
            assert rows[i].id == y;
          }
        }
      }
      SortedListing(rows, topics);
      rows := Sort(ByName, rows);
    }

    method FindTopicByName(name: string) returns (found: Option<int>)
      requires NamesCurated(Tables())
      ensures found == Find(topics, name)
    {
      var clean := Tidy(name);
      if x :| x in topics && Fold(topics[x].name) == Fold(clean) {
        assert Named(topics, x, clean);
        found := Some(x);
      } else {
        found := None;
      }
    }

    // ---- edits -------------------------------------------------------------

    method GetOrCreateTopic(name: string, parent: Option<int>) returns (r: Result<(int, bool), Error>)
      requires Valid(Tables())
      modifies this`topics, this`nextId
      ensures (Tables(), r) == GetOrCreate(old(Tables()), name, parent)
    {
      var clean := Tidy(name);
      if clean == "" {
        return Err(EmptyName);
      }
      var existing := FindTopicByName(clean);
      if existing.Some? {
        return Ok((existing.value, false));
      }
      var id := nextId;
      var inserted := topics[id := Topic(clean, parent)];
      if parent.Some? && parent.value !in inserted {
        return Err(Integrity);
      }
      topics := inserted;
      nextId := id + 1;
      r := Ok((id, true));
    }

    method CreateTopic(name: string, parent: Option<int>) returns (r: Result<(int, bool), Error>)
      requires Valid(Tables())
      modifies this`topics, this`nextId
      ensures (Tables(), r) == Create(old(Tables()), name, parent) && Valid(Tables())
    {
      CreateValid(Tables(), name, parent);
      if parent.Some? && parent.value !in topics {
        return Err(NotFound);
      }
      r := GetOrCreateTopic(name, parent);
    }

    method RenameTopic(id: int, name: string) returns (r: Result<Topic, Error>)
      requires Valid(Tables())
      modifies this`topics
      ensures (Tables(), r) == Rename(old(Tables()), id, name) && Valid(Tables())
    {
      RenameValid(Tables(), id, name);
      if id !in topics {
        return Err(NotFound);
      }
      var clean := Tidy(name);
      if clean == "" {
        return Err(EmptyName);
      }
      var clash := FindTopicByName(clean);
      if clash.Some? && clash.value != id {
        return Err(NameConflict);
      }
      topics := topics[id := topics[id].(name := clean)];
      r := Ok(topics[id]);
    }

    method ReparentTopic(id: int, parent: Option<int>) returns (r: Result<Topic, Error>)
      requires Valid(Tables())
      modifies this`topics
      ensures (Tables(), r) == Reparent(old(Tables()), id, parent) && Valid(Tables())
    {
      ReparentValid(Tables(), id, parent);
      if id !in topics {
        return Err(NotFound);
      }
      if parent.Some? {
        if parent.value == id {
          return Err(WouldCycle);
        }
        if parent.value !in topics {
          return Err(NotFound);
        }
        var rows := ListTopics();
        var below := DescendantIds(rows, id, true, topics);
        if parent.value in below {
          return Err(WouldCycle);
        }
      }
      topics := topics[id := topics[id].(parent := parent)];
      r := Ok(topics[id]);
    }

    /** UPDATE topics SET parent_id = p WHERE parent_id = s; yields the row count. */
    method MoveChildren(s: int, p: Option<int>) returns (moved: nat)
      modifies this`topics
      ensures topics == HandedOver(old(topics), s, p)
      ensures moved == |ChildrenOf(old(topics), s)|
    {
      moved := |ChildrenOf(topics, s)|;
      topics := HandedOver(topics, s, p);
    }

    /** DELETE FROM topics WHERE id = s, with its foreign-key actions: parent_id of
        any remaining child becomes NULL and the topic's link rows go. */
    method DeleteRow(s: int)
      modifies this`topics, this`links
      ensures topics == Unhooked(old(topics), s, None)
      ensures links == set l | l in old(links) && l.topic != s
      ensures ParentsResolve(old(Tables())) ==> ParentsResolve(Tables())
      ensures LinksLive(old(Tables())) ==> LinksLive(Tables())
    {
      topics := Unhooked(topics, s, None);
      links := set l | l in links && l.topic != s;
    }

    /** A target below the source takes the source's place first: deleting the
        source would otherwise make its branch a root. */
    method SpliceTarget(source: int, target: int)
      requires source in topics && target in topics && source != target
      modifies this`topics
      ensures topics == Spliced(old(Tables()), source, target)
    {
      var rows := ListTopics();
      var below := DescendantIds(rows, source, false, topics);
      if target in below {
        topics := topics[target := topics[target].(parent := topics[source].parent)];
      }
    }

    /** INSERT OR IGNORE the source's links under the target, hand its children
        over, delete its row. */
    method RelinkAndRemove(source: int, target: int) returns (relinked: nat, moved: nat)
      modifies this`topics, this`links
      ensures topics == Unhooked(HandedOver(old(topics), source, Some(target)), source, None)
      ensures links == set l | l in old(links) + Pairs(Direct(old(Tables()), source), target) && l.topic != source
      ensures relinked == |Pairs(Direct(old(Tables()), source), target) - old(links)|
      ensures moved == |ChildrenOf(old(topics), source)|
    {
      var gained := Pairs(Direct(Db(topics, links, papers, nextId), source), target);
      relinked := |gained - links|;
      links := links + gained;
      moved := MoveChildren(source, Some(target));
      DeleteRow(source);
    }

    method MergeTopics(source: int, target: int) returns (r: Result<MergeResult, Error>)
      requires Valid(Tables())
      modifies this`topics, this`links
      ensures (Tables(), r) == Merge(old(Tables()), source, target) && Valid(Tables())
    {
      ghost var start := Tables();
      MergeValid(start, source, target);
      if source == target {
        return Err(SelfMerge);
      }
      if source !in topics || target !in topics {
        return Err(NotFound);
      }
      SpliceTarget(source, target);
      var relinked, moved := RelinkAndRemove(source, target);
      MergeStages(start, source, target);
      assert Tables() == Merge(start, source, target).0;
      r := Ok(MergeResult(topics[target], relinked, moved));
    }

    method DeleteTopic(id: int) returns (r: Result<DeleteResult, Error>)
      requires Valid(Tables())
      modifies this`topics, this`links
      ensures (Tables(), r) == Delete(old(Tables()), id) && Valid(Tables())
    {
      DeleteValid(Tables(), id);
      if id !in topics {
        return Err(NotFound);
      }
      var topic := topics[id];
      var tagged := |Direct(Db(topics, links, papers, nextId), id)|;
      if topic.parent.Some? {
        ParentNotBelow(Tables(), id);
      }
      HandedThenDeleted(topics, id, topic.parent);
      var promoted := MoveChildren(id, topic.parent);
      DeleteRow(id);
      r := Ok(DeleteResult(topic, tagged, promoted));
    }

    method SplitTopic(id: int, name: string, paperIds: seq<int>) returns (r: Result<SplitResult, Error>)
      requires Valid(Tables())
      modifies this`topics, this`links, this`nextId
      ensures (Tables(), r) == Split(old(Tables()), id, name, paperIds) && Valid(Tables())
    {
      ghost var start := Tables();
      SplitValid(start, id, name, paperIds);
      if id !in topics {
        return Err(NotFound);
      }
      var parent := topics[id].parent;
      var selected := set p | p in paperIds;
      assert paperIds != [] ==> paperIds[0] in selected;
      if selected == {} {
        return Err(NoSelection);
      }
      var linked := set l | l in links && l.topic == id && l.paper in selected :: l.paper;
      assert linked == selected <==> selected <= Direct(start, id);
      if linked != selected {
        return Err(NotAssigned);
      }
      var clean := Tidy(name);
      TidyFacts(name);
      TidyFixed(clean);
      if clean == "" {
        return Err(EmptyName);
      }
      var clash := FindTopicByName(clean);
      if clash.Some? {
        return Err(NameConflict);
      }
      var created := GetOrCreateTopic(clean, parent);
      assert created == Ok((start.nextId, true));
      links := links + Pairs(selected, created.value.0);
      links := links - Pairs(selected, id);
      assert links == (start.links - Pairs(selected, id)) + Pairs(selected, start.nextId);
      r := Ok(SplitResult(created.value.0, |selected|));
    }

    /** The batch runs inside one transaction: on failure the rows read at BEGIN
        are what remains. */
    method ApplyTopicAssignments(paper: int, batch: seq<Assignment>) returns (r: Result<Tally, Error>)
      requires Valid(Tables())
      modifies this`topics, this`links, this`nextId
      ensures (Tables(), r) == Apply(old(Tables()), paper, batch) && Valid(Tables())
    {
      ghost var start := Tables();
      ApplyValid(start, paper, batch);
      var topics0, links0, nextId0 := topics, links, nextId;
      var ids, created, reused, dropped := [], [], [], [];
      for i := 0 to |batch|
        invariant links == links0 && papers == start.papers
        invariant Valid(Tables()) && forall x :: x in ids ==> x in topics
        invariant DecideAll(Tally(Tables(), ids, created, reused, dropped), batch[i..]) ==
                  DecideAll(Start(start), batch)
      {
        var a := batch[i];
        ghost var tally := Tally(Tables(), ids, created, reused, dropped);
        assert batch[i..][0] == a && batch[i..][1..] == batch[i + 1..];
        if Decide(tally, a).Ok? {
          DecideValid(tally, a);
        }
        match a {
          case Existing(id) =>
            if id !in topics {
              dropped := dropped + [UnknownTopic(id)];
            } else {
              reused := reused + [id];
              ids := Tagged(ids, id);
            }
          case Proposal(name, parent) =>
            var under := parent;
            if parent.Some? && parent.value !in topics {
              dropped := dropped + [UnknownParent(parent.value, name)];
              under := None;
            }
            var made := GetOrCreateTopic(name, under);
            if made.Err? {
              topics, links, nextId := topics0, links0, nextId0;
              return Err(made.error);
            }
            if made.value.1 {
              created := created + [made.value.0];
            } else {
              reused := reused + [made.value.0];
            }
            ids := Tagged(ids, made.value.0);
        }
      }
      assert batch[|batch|..] == [];
      ghost var tally := Tally(Tables(), ids, created, reused, dropped);
      assert DecideAll(Start(start), batch) == Ok(tally);
      if ids != [] && paper !in papers {
        topics, links, nextId := topics0, links0, nextId0;
        return Err(Integrity);
      }
      r := Ok(Tally(Db(topics, links, papers, nextId), ids, created, reused, dropped));
      links := links + set id | id in ids :: Link(paper, id);
    }

    method AddPaperTopic(paper: int, id: int) returns (r: Result<Topic, Error>)
      requires Valid(Tables())
      modifies this`links
      ensures (Tables(), r) == AddLink(old(Tables()), paper, id) && Valid(Tables())
    {
      if id !in topics {
        return Err(NotFound);
      }
      if paper !in papers {
        return Err(Integrity);
      }
      links := links + {Link(paper, id)};
      r := Ok(topics[id]);
    }

    method RemovePaperTopic(paper: int, id: int) returns (removed: bool)
      requires Valid(Tables())
      modifies this`links
      ensures (Tables(), removed) == RemoveLink(old(Tables()), paper, id) && Valid(Tables())
    {
      removed := Link(paper, id) in links;
      links := links - {Link(paper, id)};
    }
  }

  /** Every child of s handed to p; s itself still present. */
  function HandedOver(topics: map<int, Topic>, s: int, p: Option<int>): map<int, Topic> {
    map x | x in topics :: if topics[x].parent == Some(s) then topics[x].(parent := p) else topics[x]
  }

  /** Because the children moved first, the SET NULL action finds none left. */
  lemma HandedThenDeleted(topics: map<int, Topic>, s: int, p: Option<int>)
    requires p != Some(s)
    ensures Unhooked(HandedOver(topics, s, p), s, None) == Unhooked(topics, s, p)
  {
  }

  lemma RelinkCount(db: Db, s: int, t: int)
    ensures |Pairs(Direct(db, s), t) - db.links| == |Direct(db, s) - Direct(db, t)|
  {
    forall l
      ensures l in Pairs(Direct(db, s), t) - db.links <==> l in Pairs(Direct(db, s) - Direct(db, t), t)
    {
      DirectMember(db, l.paper, t);
    }
    assert Pairs(Direct(db, s), t) - db.links == Pairs(Direct(db, s) - Direct(db, t), t);
    PairCount(Direct(db, s) - Direct(db, t), t);
  }

  /** The statements of a merge, in order, amount to the merge. */
  lemma MergeStages(db: Db, s: int, t: int)
    requires Valid(db) && s != t && s in db.topics && t in db.topics
    ensures Direct(db.(topics := Spliced(db, s, t)), s) == Direct(db, s)
    ensures Merge(db, s, t).0.topics == Unhooked(HandedOver(Spliced(db, s, t), s, Some(t)), s, None)
    ensures Merge(db, s, t).0.links == set l | l in db.links + Pairs(Direct(db, s), t) && l.topic != s
    ensures Merge(db, s, t).0 == db.(topics := Merge(db, s, t).0.topics, links := Merge(db, s, t).0.links)
    ensures t in Merge(db, s, t).0.topics
    ensures Merge(db, s, t).1 == Ok(MergeResult(Merge(db, s, t).0.topics[t], |Pairs(Direct(db, s), t) - db.links|,
                                                |ChildrenOf(Spliced(db, s, t), s)|))
  {
    HandedThenDeleted(Spliced(db, s, t), s, Some(t));
    RelinkCount(db, s, t);
    var links := db.links + Pairs(Direct(db, s), t);
    assert (set l | l in links && l.topic != s) == (set l | l in db.links && l.topic != s) + Pairs(Direct(db, s), t);
  }

  lemma ByNameOrder()
    ensures TotalPreorder(ByName)
  {
    forall a, b, c
      ensures ByName(a, b) || ByName(b, a)
      ensures ByName(a, b) && ByName(b, c) ==> ByName(a, c)
    {
      LexOrder(Fold(a.name), Fold(b.name), Fold(c.name));
    }
  }

  lemma SortedListing(rows: seq<Row>, topics: map<int, Topic>)
    requires Lists(rows, topics)
    ensures Lists(Sort(ByName, rows), topics) && SortedBy(ByName, Sort(ByName, rows))
  {
    ByNameOrder();
    var sorted := Sort(ByName, rows);
    SortFacts(ByName, rows);
    SortMembers(ByName, rows);
    assert NoRepeats(rows);
    SortNoRepeats(ByName, rows);
    SameRowsList(rows, sorted, topics);
  }

  /** The same rows in another order list the same table. */
  lemma SameRowsList(rows: seq<Row>, sorted: seq<Row>, topics: map<int, Topic>)
    requires Lists(rows, topics) && NoRepeats(sorted) && forall row :: row in sorted <==> row in rows
    ensures Lists(sorted, topics)
  {
    forall i | 0 <= i < |sorted|
      ensures sorted[i].id in topics && sorted[i] == RowOf(topics, sorted[i].id)
    {
      assert sorted[i] in rows;
      ListsRow(rows, topics, sorted[i]);
    }
    forall x | x in topics
      ensures exists i :: 0 <= i < |sorted| && sorted[i].id == x
    {
      ListsRow(rows, topics, RowOf(topics, x));
      var i :| 0 <= i < |sorted| && sorted[i] == RowOf(topics, x);
    }
  }
}
