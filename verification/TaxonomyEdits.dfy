/** What the edits of the taxonomy preserve and change: the invariant over every
    run, and the exact effect of each edit on descendants and rolled-up papers. */
module TaxonomyEdits {
  import opened Wrappers
  import opened Text
  import opened Forest
  import opened Taxonomy

  // ---- pointer view of the edits -------------------------------------------

  lemma UpInDomain(db: Db, a: int, y: int)
    requires ParentsResolve(db) && Below(UpOf(db.topics), a, y) && a != y
    ensures a in db.topics && y in db.topics
  {
    var n: nat :| Climb(UpOf(db.topics), y, n) == Some(a);
    ClimbTarget(UpOf(db.topics), db.topics.Keys, y, n);
  }

  lemma {:induction false} ClimbTarget(up: Up, known: set<int>, y: int, n: nat)
    requires forall x :: x in up ==> x in known && up[x] in known
    requires n > 0 && Climb(up, y, n).Some?
    ensures y in known && Climb(up, y, n).value in known
    decreases n
  {
    if n > 1 {
      ClimbTarget(up, known, up[y], n - 1);
    } else {
      assert Climb(up, up[y], 0) == Some(up[y]);
    }
  }

  lemma UpMoved(topics: map<int, Topic>, x: int, name: string, p: Option<int>)
    requires p.Some? ==> p.value in topics
    requires x !in topics ==> forall y :: y in topics ==> topics[y].parent != Some(x)
    ensures UpOf(topics[x := Topic(name, p)]) == Moved(UpOf(topics), x, p)
  {
    var up, up' := Moved(UpOf(topics), x, p), UpOf(topics[x := Topic(name, p)]);
    forall y
      ensures y in up <==> y in up'
      ensures y in up ==> up[y] == up'[y]
    {
      if y == x {
        assert y in up' <==> p.Some?;
      }
    }
  }

  lemma UpUnhooked(topics: map<int, Topic>, s: int, p: Option<int>)
    requires s in topics && (p.Some? ==> p.value in topics && p.value != s)
    ensures UpOf(Unhooked(topics, s, p)) == Redirected(UpOf(topics), s, p)
  {
  }

  lemma FreshIsolated(db: Db, a: int)
    requires Valid(db)
    ensures Below(UpOf(db.topics), db.nextId, a) <==> a == db.nextId
    ensures Below(UpOf(db.topics), a, db.nextId) <==> a == db.nextId
  {
    BelowUnfold(UpOf(db.topics), db.nextId, db.nextId);
    if a != db.nextId && Below(UpOf(db.topics), db.nextId, a) {
      UpInDomain(db, db.nextId, a);
    }
    if a != db.nextId && Below(UpOf(db.topics), a, db.nextId) {
      UpInDomain(db, a, db.nextId);
    }
  }

  // ---- every edit keeps the invariant --------------------------------------

  lemma AddLeafValid(db: Db, name: string, p: Option<int>)
    requires Valid(db) && (p.Some? ==> p.value in db.topics)
    requires IsTidy(name) && name != "" && (forall x :: !Named(db.topics, x, name))
    ensures Valid(db.(topics := db.topics[db.nextId := Topic(name, p)], nextId := db.nextId + 1))
  {
    UpMoved(db.topics, db.nextId, name, p);
    if p.Some? {
      FreshIsolated(db, p.value);
    }
    MovedAcyclic(UpOf(db.topics), db.nextId, p);
    assert forall x :: x in db.topics ==> Fold(db.topics[x].name) != Fold(name) by {
      forall x | x in db.topics
        ensures Fold(db.topics[x].name) != Fold(name)
      {
        assert !Named(db.topics, x, name);
      }
    }
  }

  lemma GetOrCreateValid(db: Db, name: string, p: Option<int>)
    requires Valid(db) && p != Some(db.nextId)
    ensures Valid(GetOrCreate(db, name, p).0)
  {
    var clean := Tidy(name);
    TidyFacts(name);
    TidyFixed(clean);
    if clean != "" && Find(db.topics, clean).None? && (p.Some? ==> p.value in db.topics) {
      AddLeafValid(db, clean, p);
    }
  }

  /** The service call taken alone keeps the tables valid except in one case: the name is
      new and the parent is the very id the row is about to be given. The foreign key
      accepts that row, and it is a cycle of length one. */
  lemma GetOrCreateValidExactly(db: Db, name: string, p: Option<int>)
    requires Valid(db)
    ensures Valid(GetOrCreate(db, name, p).0) <==>
            !(p == Some(db.nextId) && !Blank(name) && forall x :: !Named(db.topics, x, Tidy(name)))
  {
    if p != Some(db.nextId) {
      GetOrCreateValid(db, name, p);
    } else {
      TidyFacts(name);
      TidyFixed(Tidy(name));
      var db' := GetOrCreate(db, name, p).0;
      if db' != db {
        SelfParentCycle(db', db.nextId);
      }
    }
  }

  lemma SelfParentCycle(db: Db, id: int)
    requires id in db.topics && db.topics[id].parent == Some(id)
    ensures !Valid(db)
  {
    var up := UpOf(db.topics);
    assert Climb(up, id, 1) == Climb(up, id, 0) == Some(id);
    if Grounded(up, id) {
      var k: nat :| Climb(up, id, k) == None;
      NoReturn(up, id, k, 1);
    }
  }

  /** The first topic of an empty library, created under the id it is about to get. */
  lemma FirstTopicUnderItself()
    ensures var db := GetOrCreate(EMPTY_DB, "a", Some(1)).0;
            db.topics == map[1 := Topic("a", Some(1))] && !Valid(db)
  {
    TidyFixed("a");
    SelfParentCycle(GetOrCreate(EMPTY_DB, "a", Some(1)).0, 1);
  }

  lemma CreateValid(db: Db, name: string, p: Option<int>)
    requires Valid(db)
    ensures Valid(Create(db, name, p).0)
  {
    if p.None? || p.value in db.topics {
      GetOrCreateValid(db, name, p);
    }
  }

  lemma RenameValid(db: Db, id: int, name: string)
    requires Valid(db)
    ensures Valid(Rename(db, id, name).0)
    ensures Rename(db, id, name).1 == Err(NameConflict) ==>
              exists y :: y != id && Named(db.topics, y, Tidy(name))
    ensures id in db.topics && Fold(Tidy(name)) == Fold(db.topics[id].name) ==> Rename(db, id, name).1.Ok?
  {
    var clean := Tidy(name);
    TidyFacts(name);
    TidyFixed(clean);
    var (db', r) := Rename(db, id, name);
    if id in db.topics && Fold(clean) == Fold(db.topics[id].name) {
      assert Named(db.topics, id, clean);
    }
    if r.Ok? {
      assert UpOf(db'.topics) == UpOf(db.topics);
      RenamedCurated(db, db', id, clean);
    }
  }

  lemma RenamedCurated(db: Db, db': Db, id: int, clean: string)
    requires NamesCurated(db) && id in db.topics && IsTidy(clean) && clean != ""
    requires forall x :: x != id ==> !Named(db.topics, x, clean)
    requires db'.topics == db.topics[id := db.topics[id].(name := clean)]
    ensures NamesCurated(db')
  {
    forall x, y | x in db'.topics && y in db'.topics && Fold(db'.topics[x].name) == Fold(db'.topics[y].name)
      ensures x == y
    {
      assert x != id ==> !Named(db.topics, x, clean);
      assert y != id ==> !Named(db.topics, y, clean);
    }
  }

  lemma ReparentValid(db: Db, id: int, p: Option<int>)
    requires Valid(db)
    ensures Valid(Reparent(db, id, p).0)
  {
    var (db', r) := Reparent(db, id, p);
    if r.Ok? {
      UpMoved(db.topics, id, db.topics[id].name, p);
      MovedAcyclic(UpOf(db.topics), id, p);
    }
  }

  /** Re-parenting to a known parent is refused as a cycle exactly when carrying
      it out would make one. */
  lemma ReparentRefusesExactlyCycles(db: Db, id: int, p: Option<int>)
    requires Valid(db) && id in db.topics && (p.Some? ==> p.value in db.topics)
    ensures Reparent(db, id, p).1 == Err(WouldCycle) <==>
            !Acyclic(UpOf(db.topics[id := db.topics[id].(parent := p)]))
    ensures Reparent(db, id, p).1.Ok? <==> Reparent(db, id, p).1 != Err(WouldCycle)
  {
    UpMoved(db.topics, id, db.topics[id].name, p);
    MovedAcyclic(UpOf(db.topics), id, p);
    BelowUnfold(UpOf(db.topics), id, id);
  }

  lemma UnhookedValid(db: Db, s: int, p: Option<int>, links: set<Link>)
    requires Valid(db) && s in db.topics
    requires p.Some? ==> p.value in db.topics && !Below(UpOf(db.topics), s, p.value)
    requires forall l :: l in links ==> l.paper in db.papers && l.topic in db.topics && l.topic != s
    ensures Valid(db.(topics := Unhooked(db.topics, s, p), links := links))
  {
    BelowUnfold(UpOf(db.topics), s, s);
    UnhookedAcyclic(db, s, p);
    UnhookedRows(db, s, p);
  }

  /** The rows left keep their names, and their parents resolve. */
  lemma UnhookedRows(db: Db, s: int, p: Option<int>)
    requires ParentsResolve(db) && NamesCurated(db) && s in db.topics
    requires p.Some? ==> p.value in db.topics && p.value != s
    ensures var db' := db.(topics := Unhooked(db.topics, s, p));
            ParentsResolve(db') && NamesCurated(db') && db'.topics.Keys == db.topics.Keys - {s}
  {
    UnhookedNames(db, s, p);
  }

  lemma UnhookedNames(db: Db, s: int, p: Option<int>)
    requires NamesCurated(db)
    ensures NamesCurated(db.(topics := Unhooked(db.topics, s, p)))
  {
    var topics := Unhooked(db.topics, s, p);
    assert forall x :: x in topics ==> x in db.topics && topics[x].name == db.topics[x].name;
  }

  lemma UnhookedAcyclic(db: Db, s: int, p: Option<int>)
    requires Acyclic(UpOf(db.topics)) && s in db.topics
    requires p.Some? ==> p.value in db.topics && !Below(UpOf(db.topics), s, p.value)
    ensures Acyclic(UpOf(Unhooked(db.topics, s, p)))
  {
    BelowUnfold(UpOf(db.topics), s, s);
    UpUnhooked(db.topics, s, p);
    RedirectedAcyclic(UpOf(db.topics), s, p);
  }

  /** A topic's parent is never below it. */
  lemma ParentNotBelow(db: Db, s: int)
    requires Valid(db) && s in db.topics && db.topics[s].parent.Some?
    ensures db.topics[s].parent.value != s && !Below(UpOf(db.topics), s, db.topics[s].parent.value)
  {
    var up := UpOf(db.topics);
    var p := db.topics[s].parent.value;
    BelowUnfold(up, p, s);
    BelowUnfold(up, p, p);
    assert Grounded(up, s);
    if Below(up, s, p) {
      BelowAntisymmetric(up, s, p);
    }
    if p == s {
      var k: nat :| Climb(up, s, k) == None;
      assert Climb(up, s, 1) == Climb(up, s, 0);
      NoReturn(up, s, k, 1);
    }
  }

  lemma DeleteValid(db: Db, id: int)
    requires Valid(db)
    ensures Valid(Delete(db, id).0)
  {
    if id in db.topics {
      if db.topics[id].parent.Some? {
        ParentNotBelow(db, id);
      }
      UnhookedValid(db, id, db.topics[id].parent, set l | l in db.links && l.topic != id);
    }
  }

  /** After the splice the target is no longer under the source, whatever the
      shape was before. */
  lemma SplicedFacts(db: Db, s: int, t: int)
    requires Valid(db) && s in db.topics && t in db.topics && s != t
    ensures Valid(db.(topics := Spliced(db, s, t)))
    ensures !Below(UpOf(Spliced(db, s, t)), s, t)
    ensures t in Desc(db, s) ==> UpOf(Spliced(db, s, t)) == Moved(UpOf(db.topics), t, db.topics[s].parent)
  {
    var up := UpOf(db.topics);
    var q := db.topics[s].parent;
    if t in Desc(db, s) {
      UpMoved(db.topics, t, db.topics[t].name, q);
      assert Spliced(db, s, t) == db.topics[t := Topic(db.topics[t].name, q)];
      if q.Some? {
        ParentNotBelow(db, s);
        if Below(up, t, q.value) {
          BelowTrans(up, s, t, q.value);
        }
      }
      MovedAcyclic(up, t, q);
      MovedBelow(up, t, q, s, t);
      BelowUnfold(up, t, t);
      assert Grounded(up, s);
      if Below(up, t, s) {
        BelowAntisymmetric(up, s, t);
      }
    }
  }

  lemma MergeValid(db: Db, s: int, t: int)
    requires Valid(db)
    ensures Valid(Merge(db, s, t).0)
  {
    if s != t && s in db.topics && t in db.topics {
      SplicedFacts(db, s, t);
      UnhookedValid(db.(topics := Spliced(db, s, t)), s, Some(t), Merge(db, s, t).0.links);
    }
  }

  lemma SplitValid(db: Db, id: int, name: string, papers: seq<int>)
    requires Valid(db)
    ensures Valid(Split(db, id, name, papers).0)
  {
    var (db', r) := Split(db, id, name, papers);
    if r.Ok? {
      TidyFacts(name);
      TidyFixed(Tidy(name));
      AddLeafValid(db, Tidy(name), db.topics[id].parent);
    }
  }

  /** A proposal's decision in terms of what get-or-create answered. */
  lemma ProposalDecided(t: Tally, a: Assignment, orphan: bool, after: Db, id: int, made: bool)
    requires a.Proposal? && (orphan <==> a.parent.Some? && a.parent.value !in t.db.topics)
    requires GetOrCreate(t.db, a.name, if orphan then None else a.parent) == (after, Ok((id, made)))
    ensures Decide(t, a) == Ok(Tally(after, Tagged(t.ids, id), if made then t.created + [id] else t.created,
                                     if made then t.reused else t.reused + [id],
                                     if orphan then t.dropped + [UnknownParent(a.parent.value, a.name)] else t.dropped))
  {
  }

  lemma GetOrCreateGrows(db: Db, name: string, p: Option<int>)
    requires Valid(db)
    ensures var (db', r) := GetOrCreate(db, name, p);
            && db.topics.Keys <= db'.topics.Keys && db'.papers == db.papers && db'.links == db.links
            && (r.Ok? ==> r.value.0 in db'.topics)
  {
  }

  lemma DecideValid(t: Tally, a: Assignment)
    requires Valid(t.db) && (forall x :: x in t.ids ==> x in t.db.topics) && Decide(t, a).Ok?
    ensures var t' := Decide(t, a).value;
            && Valid(t'.db)
            && t.db.topics.Keys <= t'.db.topics.Keys
            && (forall x :: x in t'.ids ==> x in t'.db.topics)
            && t'.db.papers == t.db.papers && t'.db.links == t.db.links
  {
    if a.Proposal? {
      var orphan := a.parent.Some? && a.parent.value !in t.db.topics;
      var under := if orphan then None else a.parent;
      var (db', r) := GetOrCreate(t.db, a.name, under);
      GetOrCreateValid(t.db, a.name, under);
      GetOrCreateGrows(t.db, a.name, under);
      ProposalDecided(t, a, orphan, db', r.value.0, r.value.1);
    }
  }

  lemma {:induction false} DecideAllValid(t: Tally, batch: seq<Assignment>)
    requires Valid(t.db) && (forall x :: x in t.ids ==> x in t.db.topics) && DecideAll(t, batch).Ok?
    ensures var t' := DecideAll(t, batch).value;
            && Valid(t'.db)
            && t.db.topics.Keys <= t'.db.topics.Keys
            && (forall x :: x in t'.ids ==> x in t'.db.topics)
            && t'.db.papers == t.db.papers && t'.db.links == t.db.links
    decreases |batch|
  {
    if batch != [] {
      DecideValid(t, batch[0]);
      DecideAllValid(Decide(t, batch[0]).value, batch[1..]);
    }
  }

  lemma ApplyValid(db: Db, paper: int, batch: seq<Assignment>)
    requires Valid(db)
    ensures Valid(Apply(db, paper, batch).0)
  {
    if DecideAll(Start(db), batch).Ok? {
      DecideAllValid(Start(db), batch);
    }
  }

  // ---- runs ----------------------------------------------------------------

  datatype Op =
    | OpPaper(paper: int)
    | OpDropPaper(paper: int)
    | OpCreate(name: string, parent: Option<int>)
    | OpApply(paper: int, batch: seq<Assignment>)
    | OpRename(id: int, name: string)
    | OpReparent(id: int, parent: Option<int>)
    | OpMerge(source: int, target: int)
    | OpDelete(id: int)
    | OpSplit(id: int, name: string, papers: seq<int>)
    | OpLink(paper: int, id: int)
    | OpUnlink(paper: int, id: int)

  ghost function Step(db: Db, op: Op): Db {
    match op
    case OpPaper(p) => db.(papers := db.papers + {p})
    case OpDropPaper(p) => db.(papers := db.papers - {p}, links := set l | l in db.links && l.paper != p)
    case OpCreate(name, parent) => Create(db, name, parent).0
    case OpApply(paper, batch) => Apply(db, paper, batch).0
    case OpRename(id, name) => Rename(db, id, name).0
    case OpReparent(id, parent) => Reparent(db, id, parent).0
    case OpMerge(s, t) => Merge(db, s, t).0
    case OpDelete(id) => Delete(db, id).0
    case OpSplit(id, name, papers) => Split(db, id, name, papers).0
    case OpLink(paper, id) => AddLink(db, paper, id).0
    case OpUnlink(paper, id) => RemoveLink(db, paper, id).0
  }

  ghost function Run(db: Db, ops: seq<Op>): Db
    decreases |ops|
  {
    if ops == [] then db else Run(Step(db, ops[0]), ops[1..])
  }

  lemma PlainStepValid(db: Db, op: Op)
    requires Valid(db) && (op.OpPaper? || op.OpDropPaper? || op.OpLink? || op.OpUnlink?)
    ensures Valid(Step(db, op))
  {
  }

  lemma StepValid(db: Db, op: Op)
    requires Valid(db)
    ensures Valid(Step(db, op))
  {
    match op
    case OpCreate(name, parent) => CreateValid(db, name, parent);
    case OpApply(paper, batch) => ApplyValid(db, paper, batch);
    case OpRename(id, name) => RenameValid(db, id, name);
    case OpReparent(id, parent) => ReparentValid(db, id, parent);
    case OpMerge(s, t) => MergeValid(db, s, t);
    case OpDelete(id) => DeleteValid(db, id);
    case OpSplit(id, name, papers) => SplitValid(db, id, name, papers);
    case _ => PlainStepValid(db, op);
  }

  lemma {:induction false} RunValid(db: Db, ops: seq<Op>)
    requires Valid(db)
    ensures Valid(Run(db, ops))
    decreases |ops|
  {
    if ops != [] {
      StepValid(db, ops[0]);
      RunValid(Step(db, ops[0]), ops[1..]);
    }
  }

  /** Whatever sequence of edits is made from an empty library, the forest stays
      acyclic, parents resolve, names stay curated and links stay live. */
  lemma LibraryStaysSound(ops: seq<Op>)
    ensures var db := Run(EMPTY_DB, ops);
            && Acyclic(UpOf(db.topics)) && ParentsResolve(db) && NamesCurated(db) && LinksLive(db)
  {
    forall x
      ensures Grounded(UpOf(EMPTY_DB.topics), x)
    {
      GroundedUnfold(UpOf(EMPTY_DB.topics), x);
    }
    RunValid(EMPTY_DB, ops);
  }

  // ---- what merge does -----------------------------------------------------

  /** Who is under s and t once t is spliced out of s's subtree. */
  lemma SplicedBelow(db: Db, s: int, t: int, y: int)
    requires Valid(db) && s in db.topics && t in db.topics && s != t
    ensures var up, mid := UpOf(db.topics), UpOf(Spliced(db, s, t));
            && (Below(mid, t, y) <==> Below(up, t, y))
            && (Below(mid, s, y) <==> Below(up, s, y) && !(Below(up, s, t) && Below(up, t, y)))
  {
    var up, q := UpOf(db.topics), db.topics[s].parent;
    SplicedFacts(db, s, t);
    if t in Desc(db, s) {
      if q.Some? {
        ParentNotBelow(db, s);
        if Below(up, t, q.value) {
          BelowTrans(up, s, t, q.value);
        }
      }
      MovedBelow(up, t, q, t, y);
      MovedBelow(up, t, q, s, y);
      BelowUnfold(up, t, t);
      assert Grounded(up, s);
      if Below(up, t, s) {
        BelowAntisymmetric(up, s, t);
      }
    }
  }

  lemma MergeBelow(db: Db, s: int, t: int, y: int)
    requires Valid(db) && s != t && s in db.topics && t in db.topics && y != s
    ensures Below(UpOf(Unhooked(Spliced(db, s, t), s, Some(t))), t, y) <==>
            Below(UpOf(db.topics), s, y) || Below(UpOf(db.topics), t, y)
  {
    var mid := UpOf(Spliced(db, s, t));
    SplicedFacts(db, s, t);
    UpUnhooked(Spliced(db, s, t), s, Some(t));
    RedirectedBelow(mid, s, Some(t), t, y);
    BelowUnfold(mid, t, t);
    SplicedBelow(db, s, t, y);
  }

  /** Merging s into t, wherever t sits: only s disappears, and the topics under
      t are those that were under s or t, without s. */
  lemma MergeDescendants(db: Db, s: int, t: int)
    requires Valid(db) && s != t && s in db.topics && t in db.topics
    ensures Merge(db, s, t).0.topics.Keys == db.topics.Keys - {s}
    ensures Desc(Merge(db, s, t).0, t) == (Desc(db, s) + Desc(db, t)) - {s}
  {
    assert Merge(db, s, t).0.topics == Unhooked(Spliced(db, s, t), s, Some(t));
    forall y | y in db.topics && y != s
      ensures y in Desc(Merge(db, s, t).0, t) <==> y in Desc(db, s) || y in Desc(db, t)
    {
      MergeBelow(db, s, t, y);
    }
  }

  lemma MergeLinks(db: Db, db': Db, s: int, t: int)
    requires s != t
    requires db'.links == (set l | l in db.links && l.topic != s) + Pairs(Direct(db, s), t)
    ensures forall l :: l in db.links ==> (if l.topic == s then Link(l.paper, t) else l) in db'.links
    ensures forall l :: l in db'.links ==>
              l.topic != s && (l in db.links || (l.topic == t && Link(l.paper, s) in db.links))
    ensures Direct(db', t) == Direct(db, s) + Direct(db, t)
    ensures forall x :: x != s && x != t ==> Direct(db', x) == Direct(db, x)
  {
  }

  /** The target inherits the rolled-up papers of both topics; the count reported
      is the number of papers it gained directly; and no paper loses its last tag. */
  lemma MergePapers(db: Db, s: int, t: int)
    requires Valid(db) && s != t && s in db.topics && t in db.topics
    ensures var (db', r) := Merge(db, s, t);
            && Rolled(db', t) == Rolled(db, s) + Rolled(db, t)
            && Direct(db', t) == Direct(db, s) + Direct(db, t)
            && r.Ok? && r.value.papersRelinked == |Direct(db', t)| - |Direct(db, t)|
            && (forall x :: x in db'.topics && x != t ==> Direct(db', x) == Direct(db, x))
  {
    var db' := Merge(db, s, t).0;
    MergeDescendants(db, s, t);
    BelowUnfold(UpOf(db.topics), s, s);
    BelowUnfold(UpOf(db'.topics), t, t);
    MergeLinks(db, db', s, t);
    RolledSplit(db, db', s, t);
    assert Direct(db', t) == (Direct(db, s) - Direct(db, t)) + Direct(db, t);
  }

  /** Every paper that had a topic before the merge has one after it, and no other. */
  lemma MergeKeepsTagged(db: Db, s: int, t: int)
    requires Valid(db) && s != t && s in db.topics && t in db.topics
    ensures (set l | l in Merge(db, s, t).0.links :: l.paper) == (set l | l in db.links :: l.paper)
  {
    var db' := Merge(db, s, t).0;
    MergeLinks(db, db', s, t);
    var before, after := set l | l in db.links :: l.paper, set l | l in db'.links :: l.paper;
    forall p | p in before
      ensures p in after
    {
      var l :| l in db.links && l.paper == p;
      assert (if l.topic == s then Link(l.paper, t) else l) in db'.links;
    }
    forall p | p in after
      ensures p in before
    {
      var l :| l in db'.links && l.paper == p;
      assert l in db.links || Link(l.paper, s) in db.links;
    }
  }

  lemma RolledSplit(db: Db, db': Db, s: int, t: int)
    requires Desc(db', t) == (Desc(db, s) + Desc(db, t)) - {s}
    requires s in Desc(db, s) && t in Desc(db', t)
    requires forall l :: l in db.links ==> (if l.topic == s then Link(l.paper, t) else l) in db'.links
    requires forall l :: l in db'.links ==>
              l.topic != s && (l in db.links || (l.topic == t && Link(l.paper, s) in db.links))
    ensures Rolled(db', t) == Rolled(db, s) + Rolled(db, t)
  {
  }

  // ---- what delete does ----------------------------------------------------

  /** Deleting a topic changes every other topic's descendants only by removing it. */
  lemma DeleteDescendants(db: Db, id: int, a: int)
    requires Valid(db) && id in db.topics && a in db.topics && a != id
    ensures var db' := Delete(db, id).0;
            && db'.topics.Keys == db.topics.Keys - {id}
            && Desc(db', a) == Desc(db, a) - {id}
            && Direct(db', a) == Direct(db, a)
  {
    var db' := Delete(db, id).0;
    var up, p := UpOf(db.topics), db.topics[id].parent;
    if p.Some? {
      ParentNotBelow(db, id);
    }
    UpUnhooked(db.topics, id, p);
    forall y | y in db.topics && y != id
      ensures Below(UpOf(db'.topics), a, y) <==> Below(up, a, y)
    {
      RedirectedBelow(up, id, p, a, y);
      BelowUnfold(up, a, id);
      if Below(up, id, y) {
        if Below(up, a, y) {
          AncestorsComparable(up, a, id, y);
        }
        if Below(up, a, id) {
          BelowTrans(up, a, id, y);
        }
      }
    }
    assert forall q :: Link(q, a) in db.links <==> Link(q, a) in db'.links;
    assert forall q :: q in Direct(db, a) <==> Link(q, a) in db.links;
    assert forall q :: q in Direct(db', a) <==> Link(q, a) in db'.links;
  }

  // ---- what split does -----------------------------------------------------

  lemma {:induction false} PairCount(s: set<int>, x: int)
    ensures |Pairs(s, x)| == |s|
    decreases |s|
  {
    if s == {} {
      assert Pairs(s, x) == {};
    } else {
      var q := Pick(s);
      PairCount(s - {q}, x);
      assert Pairs(s, x) == Pairs(s - {q}, x) + {Link(q, x)};
    }
  }

  /** A split moves links and makes a peer: the number of links is unchanged, no
      other topic's rolled-up papers change, and the source and its new peer
      together hold what the source held. */
  lemma SplitPapers(db: Db, id: int, name: string, papers: seq<int>)
    requires Valid(db) && Split(db, id, name, papers).1.Ok?
    ensures var (db', r) := Split(db, id, name, papers);
            var n := r.value.created;
            && n !in db.topics && db'.topics.Keys == db.topics.Keys + {n}
            && db'.topics[n].parent == db.topics[id].parent
            && Direct(db', n) == (set p | p in papers)
            && Direct(db', id) == Direct(db, id) - (set p | p in papers)
            && |db'.links| == |db.links|
            && (forall a :: a in db.topics && a != id ==> Rolled(db', a) == Rolled(db, a))
            && Rolled(db', id) + Rolled(db', n) == Rolled(db, id)
  {
    var db' := Split(db, id, name, papers).0;
    SplitRow(db, id, name, papers);
    SplitLinks(db, db', id, db.nextId, set p | p in papers);
    forall a | a in db.topics && a != id
      ensures Rolled(db', a) == Rolled(db, a)
    {
      SplitRolledElsewhere(db, id, name, papers, a);
    }
    SplitRolledHere(db, id, name, papers);
  }

  /** The new row. */
  lemma SplitRow(db: Db, id: int, name: string, papers: seq<int>)
    requires Valid(db) && Split(db, id, name, papers).1.Ok?
    ensures var (db', r) := Split(db, id, name, papers);
            var n := r.value.created;
            && n == db.nextId && n !in db.topics && db'.topics.Keys == db.topics.Keys + {n}
            && db'.topics[n].parent == db.topics[id].parent
  {
  }

  lemma SplitRolledElsewhere(db: Db, id: int, name: string, papers: seq<int>, a: int)
    requires Valid(db) && Split(db, id, name, papers).1.Ok? && a in db.topics && a != id
    ensures Rolled(Split(db, id, name, papers).0, a) == Rolled(db, a)
  {
    var db', selected := Split(db, id, name, papers).0, set p | p in papers;
    SplitLinks(db, db', id, db.nextId, selected);
    SplitDescendants(db, id, name, papers, a);
    SplitRolled(db, db', id, db.nextId, selected, a);
  }

  lemma SplitRolledHere(db: Db, id: int, name: string, papers: seq<int>)
    requires Valid(db) && Split(db, id, name, papers).1.Ok?
    ensures var db' := Split(db, id, name, papers).0;
            Rolled(db', id) + Rolled(db', db.nextId) == Rolled(db, id)
  {
    var db', selected := Split(db, id, name, papers).0, set p | p in papers;
    SplitLinks(db, db', id, db.nextId, selected);
    SplitDescendants(db, id, name, papers, id);
    BelowUnfold(UpOf(db.topics), id, id);
    SplitSource(db, db', id, db.nextId, selected);
  }

  lemma SplitLinks(db: Db, db': Db, id: int, n: int, selected: set<int>)
    requires LinksLive(db) && n !in db.topics && id in db.topics && selected <= Direct(db, id)
    requires db'.links == (db.links - Pairs(selected, id)) + Pairs(selected, n)
    ensures |db'.links| == |db.links|
    ensures Direct(db', n) == selected && Direct(db', id) == Direct(db, id) - selected
    ensures forall p :: p in selected ==> Link(p, id) in db.links
  {
    var gone, come := Pairs(selected, id), Pairs(selected, n);
    forall p | p in selected
      ensures Link(p, id) in db.links
    {
      assert p in Direct(db, id);
    }
    PairCount(selected, id);
    PairCount(selected, n);
    assert gone <= db.links && come !! db.links;
    assert |db'.links| == |db.links - gone| + |come|;
    forall p
      ensures p in Direct(db', n) <==> p in selected
      ensures p in Direct(db', id) <==> p in Direct(db, id) - selected
    {
      DirectMember(db, p, id);
      DirectMember(db', p, n);
      DirectMember(db', p, id);
    }
  }

  lemma DirectMember(db: Db, p: int, x: int)
    ensures p in Direct(db, x) <==> Link(p, x) in db.links
  {
  }

  lemma SplitDescendants(db: Db, id: int, name: string, papers: seq<int>, a: int)
    requires Valid(db) && Split(db, id, name, papers).1.Ok? && a in db.topics
    ensures var db' := Split(db, id, name, papers).0;
            forall y :: y in Desc(db', a) <==>
              y in Desc(db, a) || (y == db.nextId && a != id && id in Desc(db, a))
    ensures Desc(Split(db, id, name, papers).0, db.nextId) == {db.nextId}
  {
    var db' := Split(db, id, name, papers).0;
    var n, q, up := db.nextId, db.topics[id].parent, UpOf(db.topics);
    UpMoved(db.topics, n, Tidy(name), q);
    if q.Some? {
      FreshIsolated(db, q.value);
    }
    FreshIsolated(db, a);
    BelowUnfold(up, a, id);
    if q.Some? {
      ParentNotBelow(db, id);
    }
    forall y
      ensures Below(UpOf(db'.topics), a, y) <==>
              if y == n then q.Some? && Below(up, a, q.value) else Below(up, a, y)
      ensures Below(UpOf(db'.topics), n, y) <==> y == n
    {
      FreshIsolated(db, y);
      MovedBelow(up, n, q, a, y);
      MovedBelow(up, n, q, n, y);
    }
  }

  lemma SplitRolled(db: Db, db': Db, id: int, n: int, selected: set<int>, a: int)
    requires LinksLive(db) && n !in db.topics && a in db.topics && a != id
    requires forall p :: p in selected ==> Link(p, id) in db.links
    requires db'.links == (db.links - Pairs(selected, id)) + Pairs(selected, n)
    requires forall y :: y in Desc(db', a) <==> y in Desc(db, a) || (y == n && id in Desc(db, a))
    ensures Rolled(db', a) == Rolled(db, a)
  {
  }

  lemma SplitSource(db: Db, db': Db, id: int, n: int, selected: set<int>)
    requires LinksLive(db) && n !in db.topics && id in Desc(db, id)
    requires forall p :: p in selected ==> Link(p, id) in db.links
    requires db'.links == (db.links - Pairs(selected, id)) + Pairs(selected, n)
    requires forall y :: y in Desc(db', id) <==> y in Desc(db, id)
    requires Desc(db', n) == {n}
    ensures Rolled(db', id) + Rolled(db', n) == Rolled(db, id)
  {
  }
}
