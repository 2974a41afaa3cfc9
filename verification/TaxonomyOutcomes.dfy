/** What each edit of the taxonomy leaves, row by row and link by link, when it is accepted
    and when it is refused: each row's name and parent, each link, and who is below whom. */
module TaxonomyOutcomes {
  import opened Wrappers
  import opened Text
  import opened Forest
  import opened Taxonomy
  import opened TaxonomyEdits

  /** Every row but that of id is as before, and no row came or went but that one. */
  ghost predicate OtherRowsKept(before: map<int, Topic>, after: map<int, Topic>, id: int) {
    && after.Keys - {id} == before.Keys - {id}
    && forall x :: x in before && x != id ==> x in after && after[x] == before[x]
  }

  ghost predicate Taken(db: Db, name: string) {
    exists x :: Named(db.topics, x, Tidy(name))
  }

  ghost predicate TakenByOther(db: Db, name: string, id: int) {
    exists x :: x != id && Named(db.topics, x, Tidy(name))
  }

  predicate Live(db: Db, p: Option<int>) {
    p.Some? ==> p.value in db.topics
  }

  // ---- re-parent -----------------------------------------------------------

  /** Under the new parent id would be its own ancestor. */
  ghost predicate UnderItself(db: Db, id: int, p: Option<int>) {
    p.Some? && p.value in db.topics && Below(UpOf(db.topics), id, p.value)
  }

  lemma ReparentOutcome(db: Db, id: int, p: Option<int>)
    requires Valid(db)
    ensures var (db', r) := Reparent(db, id, p);
            && (r.Ok? <==> id in db.topics && Live(db, p) && !UnderItself(db, id, p))
            && (r == Err(WouldCycle) <==> id in db.topics && UnderItself(db, id, p))
            && (r == Err(NotFound) <==> id !in db.topics || !Live(db, p))
            && (r.Err? ==> db' == db)
            && (r.Ok? ==>
                  && id in db'.topics && db'.topics[id].name == db.topics[id].name && db'.topics[id].parent == p
                  && r.value == db'.topics[id] && OtherRowsKept(db.topics, db'.topics, id)
                  && db'.links == db.links && db'.papers == db.papers && db'.nextId == db.nextId)
  {
    BelowUnfold(UpOf(db.topics), id, id);
  }

  /** The topics at or under id trade the ancestors it had for p and the ancestors of p;
      everyone else keeps theirs. */
  lemma ReparentDescendants(db: Db, id: int, p: Option<int>, a: int, y: int)
    requires Valid(db) && id in db.topics && Live(db, p) && !UnderItself(db, id, p)
    ensures var up, up' := UpOf(db.topics), UpOf(Reparent(db, id, p).0.topics);
            Below(up', a, y) <==>
            if Below(up, id, y)
            then (Below(up, id, a) && Below(up, a, y)) || (p.Some? && Below(up, a, p.value))
            else Below(up, a, y)
  {
    ReparentOutcome(db, id, p);
    UpMoved(db.topics, id, db.topics[id].name, p);
    MovedBelow(UpOf(db.topics), id, p, a, y);
    assert Reparent(db, id, p).0.topics == db.topics[id := Topic(db.topics[id].name, p)];
  }

  // ---- create and rename ---------------------------------------------------

  /** The service call alone, with the parent unchecked: the foreign key lets through a live
      parent or the very id the row is about to get. */
  lemma GetOrCreateOutcome(db: Db, name: string, p: Option<int>)
    requires Valid(db)
    ensures var (db', r) := GetOrCreate(db, name, p);
            && (r == Err(EmptyName) <==> Blank(name))
            && (r == Err(Integrity) <==> !Blank(name) && !Taken(db, name) && !Live(db, p) && p != Some(db.nextId))
            && (r.Err? ==> r.error in {EmptyName, Integrity} && db' == db)
            && (r.Ok? ==> (r.value.1 <==> !Taken(db, name)))
            && (r.Ok? && !r.value.1 ==> Named(db.topics, r.value.0, Tidy(name)) && db' == db)
            && (r.Ok? && r.value.1 ==> r.value.0 == db.nextId && RowAdded(db, db', Tidy(name), p))
  {
    TidyFacts(name);
    TidyFixed(Tidy(name));
  }

  ghost predicate RowAdded(db: Db, db': Db, name: string, p: Option<int>) {
    && db.nextId !in db.topics && db.nextId in db'.topics
    && db'.topics[db.nextId].name == name && db'.topics[db.nextId].parent == p
    && OtherRowsKept(db.topics, db'.topics, db.nextId)
    && db'.links == db.links && db'.papers == db.papers && db'.nextId == db.nextId + 1
  }

  lemma CreateOutcome(db: Db, name: string, p: Option<int>)
    requires Valid(db)
    ensures var (db', r) := Create(db, name, p);
            && (r == Err(NotFound) <==> !Live(db, p))
            && (r == Err(EmptyName) <==> Live(db, p) && Blank(name))
            && (r.Ok? <==> Live(db, p) && !Blank(name))
            && (r.Ok? ==> (r.value.1 <==> !Taken(db, name)))
            && (r.Ok? && !r.value.1 ==> Named(db.topics, r.value.0, Tidy(name)) && db' == db)
            && (r.Ok? && r.value.1 ==> r.value.0 == db.nextId && RowAdded(db, db', Tidy(name), p))
            && (r.Err? ==> db' == db)
  {
    GetOrCreateOutcome(db, name, p);
  }

  lemma RenameOutcome(db: Db, id: int, name: string)
    requires Valid(db)
    ensures var (db', r) := Rename(db, id, name);
            && (r == Err(NotFound) <==> id !in db.topics)
            && (r == Err(EmptyName) <==> id in db.topics && Blank(name))
            && (r == Err(NameConflict) <==> id in db.topics && !Blank(name) && TakenByOther(db, name, id))
            && (r.Ok? <==> id in db.topics && !Blank(name) && !TakenByOther(db, name, id))
            && (r.Err? ==> db' == db)
            && (r.Ok? ==>
                  && id in db'.topics && db'.topics[id].name == Tidy(name)
                     && db'.topics[id].parent == db.topics[id].parent
                  && r.value == db'.topics[id] && OtherRowsKept(db.topics, db'.topics, id)
                  && db'.links == db.links && db'.papers == db.papers && db'.nextId == db.nextId)
  {
    TidyFacts(name);
    TidyFixed(Tidy(name));
  }

  // ---- delete --------------------------------------------------------------

  /** What is left when row s goes: every other name, and every other parent but that of
      s's children, who get p. */
  ghost predicate RowGone(before: map<int, Topic>, after: map<int, Topic>, s: int, p: Option<int>) {
    && after.Keys == before.Keys - {s}
    && forall x :: x in before && x != s ==>
         && x in after && after[x].name == before[x].name
         && after[x].parent == if before[x].parent == Some(s) then p else before[x].parent
  }

  lemma DeleteOutcome(db: Db, id: int)
    requires Valid(db)
    ensures var (db', r) := Delete(db, id);
            && (if id in db.topics then r.Ok? else r == Err(NotFound) && db' == db)
            && (r.Ok? ==>
                  && RowGone(db.topics, db'.topics, id, db.topics[id].parent)
                  && (forall l :: l in db'.links <==> l in db.links && l.topic != id)
                  && db'.papers == db.papers && db'.nextId == db.nextId
                  && r.value.topic == db.topics[id] && r.value.linksRemoved == |db.links| - |db'.links|
                  && r.value.childrenPromoted == |ChildrenOf(db.topics, id)|)
  {
    if id in db.topics {
      var db' := Delete(db, id).0;
      PairCount(Direct(db, id), id);
      forall l
        ensures l in db.links - db'.links <==> l in Pairs(Direct(db, id), id)
      {
        DirectMember(db, l.paper, id);
      }
      assert db.links - db'.links == Pairs(Direct(db, id), id);
    }
  }

  // ---- merge ---------------------------------------------------------------

  /** A target below the source takes the source's parent; the source's other children
      come under the target. */
  function MergedParent(db: Db, s: int, t: int, x: int, targetBelow: bool): Option<int>
    requires s in db.topics && x in db.topics
  {
    if x == t && targetBelow then db.topics[s].parent
    else if db.topics[x].parent == Some(s) then Some(t)
    else db.topics[x].parent
  }

  lemma MergeOutcome(db: Db, s: int, t: int)
    requires Valid(db)
    ensures var (db', r) := Merge(db, s, t);
            && (r == Err(SelfMerge) <==> s == t)
            && (r == Err(NotFound) <==> s != t && (s !in db.topics || t !in db.topics))
            && (r.Ok? <==> s != t && s in db.topics && t in db.topics)
            && (r.Err? ==> db' == db)
    ensures s != t && s in db.topics && t in db.topics ==> MergeDone(db, s, t, Merge(db, s, t).0)
    ensures var (db', r) := Merge(db, s, t);
            r.Ok? ==> r.value.target == db'.topics[t] && r.value.childrenMoved == |ChildrenOf(db.topics, s) - {t}|
  {
    if s != t && s in db.topics && t in db.topics {
      MergeRows(db, s, t);
      MergedChildren(db, s, t);
    }
  }

  ghost predicate MergeDone(db: Db, s: int, t: int, db': Db)
    requires s in db.topics
  {
    var targetBelow := Below(UpOf(db.topics), s, t);
    && db'.topics.Keys == db.topics.Keys - {s} && db'.papers == db.papers && db'.nextId == db.nextId
    && (forall x :: x in db.topics && x != s ==>
          db'.topics[x].name == db.topics[x].name && db'.topics[x].parent == MergedParent(db, s, t, x, targetBelow))
    && (forall l :: l in db'.links <==>
          l.topic != s && (l in db.links || (l.topic == t && Link(l.paper, s) in db.links)))
  }

  lemma MergeRows(db: Db, s: int, t: int)
    requires Valid(db) && s != t && s in db.topics && t in db.topics
    ensures MergeDone(db, s, t, Merge(db, s, t).0)
  {
    var db' := Merge(db, s, t).0;
    MergeParents(db, s, t, Spliced(db, s, t), db'.topics);
    forall l
      ensures l in db'.links <==> l.topic != s && (l in db.links || (l.topic == t && Link(l.paper, s) in db.links))
    {
      DirectMember(db, l.paper, s);
    }
  }

  lemma MergeParents(db: Db, s: int, t: int, spliced: map<int, Topic>, after: map<int, Topic>)
    requires Valid(db) && s != t && s in db.topics && t in db.topics
    requires spliced == Spliced(db, s, t) && after == Unhooked(spliced, s, Some(t))
    ensures after.Keys == db.topics.Keys - {s}
    ensures forall x :: x in db.topics && x != s ==>
              && after[x].name == db.topics[x].name
              && after[x].parent == MergedParent(db, s, t, x, Below(UpOf(db.topics), s, t))
  {
    if db.topics[s].parent.Some? {
      ParentNotBelow(db, s);
    }
  }

  lemma MergedChildren(db: Db, s: int, t: int)
    requires Valid(db) && s != t && s in db.topics && t in db.topics
    ensures ChildrenOf(Spliced(db, s, t), s) == ChildrenOf(db.topics, s) - {t}
  {
    if db.topics[s].parent.Some? {
      ParentNotBelow(db, s);
    }
    if t in ChildrenOf(db.topics, s) {
      BelowUnfold(UpOf(db.topics), s, t);
      BelowUnfold(UpOf(db.topics), s, s);
    }
  }

  // ---- split ---------------------------------------------------------------

  ghost predicate AllLinked(db: Db, id: int, papers: seq<int>) {
    forall i :: 0 <= i < |papers| ==> Link(papers[i], id) in db.links
  }

  ghost predicate Splittable(db: Db, id: int, name: string, papers: seq<int>) {
    id in db.topics && papers != [] && AllLinked(db, id, papers) && !Blank(name) && !Taken(db, name)
  }

  lemma SplitOutcome(db: Db, id: int, name: string, papers: seq<int>)
    requires Valid(db)
    ensures var (db', r) := Split(db, id, name, papers);
            && (r.Ok? <==> Splittable(db, id, name, papers))
            && (r == Err(NotFound) <==> id !in db.topics)
            && (r == Err(NoSelection) <==> id in db.topics && papers == [])
            && (r == Err(NotAssigned) <==> id in db.topics && papers != [] && !AllLinked(db, id, papers))
            && (r == Err(EmptyName) <==> id in db.topics && papers != [] && AllLinked(db, id, papers) && Blank(name))
            && (r.Err? ==> db' == db)
            && (r.Ok? ==> SplitDone(db, id, name, papers, db', r.value))
  {
    TidyFacts(name);
    TidyFixed(Tidy(name));
    LinkedAll(db, id, papers);
    if Splittable(db, id, name, papers) {
      SplitRows(db, id, name, papers);
    }
  }

  lemma LinkedAll(db: Db, id: int, papers: seq<int>)
    ensures (set p | p in papers) <= Direct(db, id) <==> AllLinked(db, id, papers)
  {
    forall p
      ensures p in Direct(db, id) <==> Link(p, id) in db.links
    {
      DirectMember(db, p, id);
    }
    if (set p | p in papers) <= Direct(db, id) {
      forall i | 0 <= i < |papers|
        ensures Link(papers[i], id) in db.links
      {
        assert papers[i] in (set p | p in papers);
      }
    }
  }

  ghost predicate SplitDone(db: Db, id: int, name: string, papers: seq<int>, db': Db, r: SplitResult)
    requires id in db.topics
  {
    var n := db.nextId;
    && r.created == n && r.papersMoved == |set p | p in papers|
    && n in db'.topics && db'.topics[n].name == Tidy(name) && db'.topics[n].parent == db.topics[id].parent
    && n !in db.topics && OtherRowsKept(db.topics, db'.topics, n) && db'.papers == db.papers && db'.nextId == n + 1
    && forall l :: l in db'.links <==> MovedBySplit(db, id, papers, l)
  }

  /** Links of the chosen papers move from id to the new topic; the others stay. */
  ghost predicate MovedBySplit(db: Db, id: int, papers: seq<int>, l: Link) {
    if l.topic == db.nextId then l.paper in papers
    else l in db.links && !(l.topic == id && l.paper in papers)
  }

  lemma SplitRows(db: Db, id: int, name: string, papers: seq<int>)
    requires Valid(db) && Split(db, id, name, papers).1.Ok? && id in db.topics
    ensures SplitDone(db, id, name, papers, Split(db, id, name, papers).0, Split(db, id, name, papers).1.value)
  {
    var db', chosen := Split(db, id, name, papers).0, set p | p in papers;
    TidyFacts(name);
    TidyFixed(Tidy(name));
    forall l
      ensures l in db'.links <==> MovedBySplit(db, id, papers, l)
    {
      assert l.paper in chosen <==> l.paper in papers;
    }
  }

  // ---- links ---------------------------------------------------------------

  lemma LinkOutcome(db: Db, paper: int, id: int)
    ensures var (db', r) := AddLink(db, paper, id);
            && (r.Ok? <==> id in db.topics && paper in db.papers)
            && (r == Err(NotFound) <==> id !in db.topics)
            && (r.Err? ==> db' == db)
            && (r.Ok? ==> r.value == db.topics[id] && db'.topics == db.topics && db'.papers == db.papers
                          && db'.nextId == db.nextId
                          && forall l :: l in db'.links <==> l in db.links || l == Link(paper, id))
  {
  }

  /** Unlinking takes back exactly what linking added, and says whether there was a link. */
  lemma UnlinkOutcome(db: Db, paper: int, id: int)
    ensures var (db', removed) := RemoveLink(db, paper, id);
            && (removed <==> Link(paper, id) in db.links)
            && db'.topics == db.topics && db'.papers == db.papers && db'.nextId == db.nextId
            && (forall l :: l in db'.links <==> l in db.links && l != Link(paper, id))
    ensures id in db.topics && paper in db.papers && Link(paper, id) !in db.links ==>
              RemoveLink(AddLink(db, paper, id).0, paper, id) == (db, true)
  {
    assert Link(paper, id) !in db.links ==> (db.links + {Link(paper, id)}) - {Link(paper, id)} == db.links;
  }
}
