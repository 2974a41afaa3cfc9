/** What a merge or a deletion does to the topics it is not about: their descendants and
    the papers rolled up under them. */
module TaxonomyOthers {
  import opened Wrappers
  import opened Forest
  import opened Taxonomy
  import opened TaxonomyEdits

  /** Who is below a once s is merged into t: an ancestor of both loses only s; an ancestor
      of s alone loses the branch of s; an ancestor of t alone gains what was below s,
      unless it was below s itself, when the target moves up and away with its branch. */
  ghost predicate BelowAfterMerge(up: Up, s: int, t: int, a: int, y: int) {
    if Below(up, a, s) then Below(up, a, y) && (Below(up, a, t) || !Below(up, s, y))
    else if !Below(up, a, t) then Below(up, a, y)
    else if Below(up, s, a) then Below(up, a, y) && !Below(up, t, y)
    else Below(up, a, y) || Below(up, s, y)
  }

  /** The facts about an order of branches that the cases below need. */
  lemma Branches(up: Up, a: int, b: int, y: int)
    requires Acyclic(up)
    ensures Below(up, a, b) && Below(up, b, y) ==> Below(up, a, y)
    ensures Below(up, a, y) && Below(up, b, y) ==> Below(up, a, b) || Below(up, b, a)
    ensures Below(up, a, b) && Below(up, b, a) ==> a == b
    ensures Below(up, a, a)
  {
    BelowUnfold(up, a, a);
    assert Grounded(up, a);
    if Below(up, a, b) && Below(up, b, y) {
      BelowTrans(up, a, b, y);
    }
    if Below(up, a, y) && Below(up, b, y) {
      AncestorsComparable(up, a, b, y);
    }
    if Below(up, a, b) && Below(up, b, a) {
      BelowAntisymmetric(up, a, b);
    }
  }

  lemma MergeBelowApart(db: Db, s: int, t: int, a: int, y: int)
    requires Valid(db) && s in db.topics && t in db.topics && s != t && a != s && a != t && y != s
    requires t !in Desc(db, s)
    ensures Below(UpOf(Unhooked(Spliced(db, s, t), s, Some(t))), a, y) <==> BelowAfterMerge(UpOf(db.topics), s, t, a, y)
  {
    var up := UpOf(db.topics);
    UpUnhooked(db.topics, s, Some(t));
    RedirectedBelow(up, s, Some(t), a, y);
    Branches(up, a, s, y);
    Branches(up, s, a, y);
    Branches(up, s, a, t);
  }

  /** The pointers between the splice and the removal, when t was below s. */
  lemma SplicedBelowOther(db: Db, s: int, t: int, a: int, y: int)
    requires Valid(db) && s in db.topics && t in db.topics && s != t && a != s && t in Desc(db, s)
    ensures var up, mid := UpOf(db.topics), UpOf(Spliced(db, s, t));
            Below(mid, a, y) <==>
            if Below(up, t, y) then (Below(up, t, a) && Below(up, a, y)) || Below(up, a, s) else Below(up, a, y)
  {
    var up, q := UpOf(db.topics), db.topics[s].parent;
    SplicedFacts(db, s, t);
    if q.Some? {
      ParentNotBelow(db, s);
      if Below(up, t, q.value) {
        BelowTrans(up, s, t, q.value);
      }
    }
    MovedBelow(up, t, q, a, y);
    BelowUnfold(up, a, s);
  }

  lemma MergeBelowSpliced(db: Db, s: int, t: int, a: int, y: int)
    requires Valid(db) && s in db.topics && t in db.topics && s != t && a != s && a != t && y != s
    requires t in Desc(db, s)
    ensures Below(UpOf(Unhooked(Spliced(db, s, t), s, Some(t))), a, y) <==> BelowAfterMerge(UpOf(db.topics), s, t, a, y)
  {
    var up, mid := UpOf(db.topics), UpOf(Spliced(db, s, t));
    SplicedFacts(db, s, t);
    UpUnhooked(Spliced(db, s, t), s, Some(t));
    RedirectedBelow(mid, s, Some(t), a, y);
    SplicedBelow(db, s, t, y);
    SplicedBelow(db, s, t, a);
    SplicedBelowOther(db, s, t, a, y);
    SplicedBelowOther(db, s, t, a, t);
    Branches(up, a, s, t);
    Branches(up, a, s, y);
    Branches(up, a, t, y);
    Branches(up, t, a, y);
    Branches(up, s, a, y);
  }

  /** The topics at or under a after the merge. */
  ghost function DescAfterMerge(db: Db, s: int, t: int, a: int): set<int> {
    if s in Desc(db, a) then Desc(db, a) - (if t in Desc(db, a) then {s} else Desc(db, s))
    else if t !in Desc(db, a) then Desc(db, a)
    else if a in Desc(db, s) then Desc(db, a) - Desc(db, t)
    else (Desc(db, a) + Desc(db, s)) - {s}
  }

  lemma AfterMergeMember(db: Db, s: int, t: int, a: int, y: int)
    requires s in db.topics && t in db.topics && a in db.topics && y in db.topics && y != s
    ensures y in DescAfterMerge(db, s, t, a) <==> BelowAfterMerge(UpOf(db.topics), s, t, a, y)
  {
  }

  lemma MergeOtherDescendants(db: Db, s: int, t: int, a: int)
    requires Valid(db) && s != t && s in db.topics && t in db.topics && a in db.topics && a != s && a != t
    ensures Desc(Merge(db, s, t).0, a) == DescAfterMerge(db, s, t, a)
  {
    var topics := Unhooked(Spliced(db, s, t), s, Some(t));
    forall y | y in db.topics && y != s
      ensures Below(UpOf(topics), a, y) <==> y in DescAfterMerge(db, s, t, a)
    {
      if t in Desc(db, s) {
        MergeBelowSpliced(db, s, t, a, y);
      } else {
        MergeBelowApart(db, s, t, a, y);
      }
      AfterMergeMember(db, s, t, a, y);
    }
    BelowUnfold(UpOf(db.topics), s, s);
    MergeTopicsAre(db, s, t);
    SameDesc(Merge(db, s, t).0, a, db.topics.Keys - {s}, DescAfterMerge(db, s, t, a));
  }

  lemma MergeTopicsAre(db: Db, s: int, t: int)
    requires s != t && s in db.topics && t in db.topics
    ensures Merge(db, s, t).0.topics == Unhooked(Spliced(db, s, t), s, Some(t))
    ensures Merge(db, s, t).0.topics.Keys == db.topics.Keys - {s}
  {
  }

  lemma SameDesc(db: Db, a: int, keys: set<int>, ids: set<int>)
    requires db.topics.Keys == keys && ids <= keys
    requires forall y :: y in keys ==> (Below(UpOf(db.topics), a, y) <==> y in ids)
    ensures Desc(db, a) == ids
  {
  }

  /** A set of topics without s, after the merge: the papers of s count for t. */
  lemma MergedPapersOn(db: Db, s: int, t: int, ids: set<int>)
    requires s != t && s in db.topics && t in db.topics && s !in ids
    ensures PapersOn(Merge(db, s, t).0, ids) == PapersOn(db, ids + if t in ids then {s} else {})
  {
    var db' := Merge(db, s, t).0;
    MergeLinks(db, db', s, t);
    var more := ids + if t in ids then {s} else {};
    forall p | p in PapersOn(db, more)
      ensures p in PapersOn(db', ids)
    {
      var l :| l in db.links && l.topic in more && l.paper == p;
      assert (if l.topic == s then Link(l.paper, t) else l) in db'.links;
    }
    forall p | p in PapersOn(db', ids)
      ensures p in PapersOn(db, more)
    {
      var l :| l in db'.links && l.topic in ids && l.paper == p;
      assert l in db.links || Link(p, s) in db.links;
    }
  }

  /** The papers rolled up under a after the merge: those of the branch it then has. The
      papers of s count for t, which an ancestor of both still has under it. */
  lemma MergeOtherRolled(db: Db, s: int, t: int, a: int)
    requires Valid(db) && s != t && s in db.topics && t in db.topics && a in db.topics && a != s && a != t
    ensures Rolled(Merge(db, s, t).0, a) ==
            if (s in Desc(db, a)) == (t in Desc(db, a)) then Rolled(db, a)
            else if s in Desc(db, a) then PapersOn(db, Desc(db, a) - Desc(db, s))
            else if a in Desc(db, s) then PapersOn(db, Desc(db, a) - Desc(db, t))
            else Rolled(db, a) + Rolled(db, s)
  {
    var ids := DescAfterMerge(db, s, t, a);
    MergeOtherDescendants(db, s, t, a);
    AfterMergeSet(db, s, t, a, ids);
    MergedPapersOn(db, s, t, ids);
    PapersJoined(db, Desc(db, a), Desc(db, s));
  }

  lemma AfterMergeSet(db: Db, s: int, t: int, a: int, ids: set<int>)
    requires Valid(db) && s != t && s in db.topics && t in db.topics && a in db.topics && a != s && a != t
    requires ids == DescAfterMerge(db, s, t, a)
    ensures s !in ids
    ensures ids + (if t in ids then {s} else {}) ==
            if (s in Desc(db, a)) == (t in Desc(db, a)) then Desc(db, a)
            else if s in Desc(db, a) then Desc(db, a) - Desc(db, s)
            else if a in Desc(db, s) then Desc(db, a) - Desc(db, t)
            else Desc(db, a) + Desc(db, s)
  {
    BelowUnfold(UpOf(db.topics), s, s);
    BelowUnfold(UpOf(db.topics), t, t);
    assert s in Desc(db, s) && t in Desc(db, t);
  }

  lemma PapersJoined(db: Db, x: set<int>, y: set<int>)
    ensures PapersOn(db, x + y) == PapersOn(db, x) + PapersOn(db, y)
  {
  }

  /** A deletion takes from every other topic exactly the papers that only the deleted
      topic carried. */
  lemma DeleteOtherRolled(db: Db, id: int, a: int)
    requires Valid(db) && id in db.topics && a in db.topics && a != id
    ensures Rolled(Delete(db, id).0, a) == PapersOn(db, Desc(db, a) - {id})
  {
    var db' := Delete(db, id).0;
    DeleteDescendants(db, id, a);
    assert db'.links == set l | l in db.links && l.topic != id;
    assert forall l :: l in db'.links && l.topic in Desc(db', a) <==> l in db.links && l.topic in Desc(db, a) - {id};
  }
}
