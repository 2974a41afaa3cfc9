/** Batches of topic decisions, and two re-parents whose check and write interleave. */
module TaxonomyBatches {
  import opened Wrappers
  import opened Text
  import opened Forest
  import opened Taxonomy
  import opened TaxonomyEdits

  ghost predicate Distinct(s: seq<int>) {
    forall i, j :: 0 <= i < j < |s| ==> s[i] != s[j]
  }

  /** Rows are only added, and every added row and every id tagged so far ends up tagged. */
  ghost predicate Grows(t: Tally, t': Tally) {
    && (forall x :: x in t.db.topics ==> x in t'.db.topics && t'.db.topics[x] == t.db.topics[x])
    && (forall x :: x in t'.db.topics && x !in t.db.topics ==> x in t'.ids)
    && (forall x :: x in t.ids ==> x in t'.ids)
    && t'.db.links == t.db.links && t'.db.papers == t.db.papers
  }

  lemma DecideGrows(t: Tally, a: Assignment)
    requires Valid(t.db) && Decide(t, a).Ok?
    ensures Grows(t, Decide(t, a).value)
  {
  }

  lemma {:induction false} DecideAllGrows(t: Tally, batch: seq<Assignment>)
    requires Valid(t.db) && (forall x :: x in t.ids ==> x in t.db.topics) && DecideAll(t, batch).Ok?
    ensures Grows(t, DecideAll(t, batch).value)
    decreases |batch|
  {
    if batch != [] {
      var t1 := Decide(t, batch[0]).value;
      DecideValid(t, batch[0]);
      DecideGrows(t, batch[0]);
      DecideAllGrows(t1, batch[1..]);
    }
  }

  /** Exactly which rows, links and ids a committed batch leaves. */
  ghost predicate TallyExact(db: Db, t: Tally) {
    && Distinct(t.ids)
    && (forall x :: x in t.ids <==> x in t.created || x in t.reused)
    && t.db.topics.Keys == db.topics.Keys + (set x | x in t.created)
    && (forall x :: x in t.created ==> x !in db.topics)
    && (forall x :: x in db.topics ==> x in t.db.topics && t.db.topics[x] == db.topics[x])
    && t.db.links == db.links && t.db.papers == db.papers
    && t.db.nextId >= db.nextId
  }

  lemma DecideExact(db: Db, t: Tally, a: Assignment)
    requires Valid(db) && Valid(t.db) && TallyExact(db, t) && Decide(t, a).Ok?
    ensures TallyExact(db, Decide(t, a).value)
  {
    var t' := Decide(t, a).value;
    TaggedFacts(t.ids, if a.Existing? then a.id else if |t'.created| > |t.created| then t.db.nextId else 0);
    if |t'.created| > |t.created| {
      var id := t.db.nextId;
      assert t'.created == t.created + [id];
      assert t'.db.topics.Keys == t.db.topics.Keys + {id};
      assert (set x | x in t'.created) == (set x | x in t.created) + {id};
    }
  }

  lemma TaggedFacts(ids: seq<int>, id: int)
    requires Distinct(ids)
    ensures Distinct(Tagged(ids, id))
    ensures forall x :: x in Tagged(ids, id) <==> x in ids || x == id
  {
  }

  lemma {:induction false} DecideAllExact(db: Db, t: Tally, batch: seq<Assignment>)
    requires Valid(db) && Valid(t.db) && TallyExact(db, t) && DecideAll(t, batch).Ok?
    requires forall x :: x in t.ids ==> x in t.db.topics
    ensures TallyExact(db, DecideAll(t, batch).value)
    decreases |batch|
  {
    if batch != [] {
      DecideValid(t, batch[0]);
      DecideExact(db, t, batch[0]);
      DecideAllExact(db, Decide(t, batch[0]).value, batch[1..]);
    }
  }

  /** A committed batch adds exactly the created topics, touches no existing row,
      and links the paper to exactly the duplicate-free list of resolved ids; a
      failed batch changes nothing. */
  lemma ApplyExact(db: Db, paper: int, batch: seq<Assignment>)
    requires Valid(db)
    ensures var (db', r) := Apply(db, paper, batch);
            match r
            case Err(_) => db' == db
            case Ok(t) =>
              && TallyExact(db, t)
              && db'.topics == t.db.topics
              && (forall l :: l in db'.links <==> l in db.links || (l.paper == paper && l.topic in t.ids))
  {
    if Apply(db, paper, batch).1.Ok? {
      DecideAllExact(db, Start(db), batch);
    }
  }

  lemma FindUnique(topics: map<int, Topic>, x: int, name: string, db: Db)
    requires NamesCurated(db) && db.topics == topics
    requires Named(topics, x, Tidy(name))
    ensures Find(topics, name) == Some(x)
  {
  }

  lemma ProposalReplayed(t: Tally, u: Tally, a: Assignment, d: Db)
    requires Valid(t.db) && Valid(d) && a.Proposal? && Decide(t, a).Ok?
    requires u.db.topics == d.topics && NamesCurated(u.db)
    requires forall x :: x in Decide(t, a).value.db.topics ==>
               x in d.topics && d.topics[x] == Decide(t, a).value.db.topics[x]
    ensures Decide(u, a).Ok? && Decide(u, a).value.db == u.db
    ensures exists x :: x in Decide(t, a).value.ids && Decide(u, a).value.ids == Tagged(u.ids, x)
              && Decide(t, a).value.ids == Tagged(t.ids, x)
  {
    var clean := Tidy(a.name);
    TidyFacts(a.name);
    TidyFixed(clean);
    var orphan := a.parent.Some? && a.parent.value !in t.db.topics;
    var (db', r) := GetOrCreate(t.db, a.name, if orphan then None else a.parent);
    var id := r.value.0;
    ProposalDecided(t, a, orphan, db', id, r.value.1);
    assert Named(db'.topics, id, clean);
    assert Named(d.topics, id, clean);
    FindUnique(u.db.topics, id, clean, u.db);
    assert id in Decide(t, a).value.ids;
  }

  /** One decision replayed against the final tables d. */
  lemma DecisionReplayed(t: Tally, u: Tally, a: Assignment, d: Tally)
    requires Valid(t.db) && Valid(d.db) && Decide(t, a).Ok? && Grows(t, d) && Grows(Decide(t, a).value, d)
    requires u.db.topics == d.db.topics && NamesCurated(u.db)
    requires forall x :: x in t.ids ==> x in u.ids
    requires forall x :: x in u.ids ==> x in d.ids
    ensures Decide(u, a).Ok? && Decide(u, a).value.db == u.db
    ensures forall x :: x in Decide(t, a).value.ids ==> x in Decide(u, a).value.ids
    ensures forall x :: x in Decide(u, a).value.ids ==> x in d.ids
  {
    if a.Proposal? {
      ProposalReplayed(t, u, a, d.db);
      var x :| x in Decide(t, a).value.ids && Decide(u, a).value.ids == Tagged(u.ids, x)
               && Decide(t, a).value.ids == Tagged(t.ids, x);
    }
  }

  lemma {:induction false} Replayed(t: Tally, u: Tally, batch: seq<Assignment>)
    requires Valid(t.db) && (forall x :: x in t.ids ==> x in t.db.topics) && DecideAll(t, batch).Ok?
    requires var d := DecideAll(t, batch).value;
             && u.db.topics == d.db.topics && NamesCurated(u.db)
             && (forall x :: x in t.ids ==> x in u.ids)
             && (forall x :: x in u.ids ==> x in d.ids)
    ensures DecideAll(u, batch).Ok? && DecideAll(u, batch).value.db == u.db
    ensures forall x :: x in DecideAll(u, batch).value.ids <==> x in DecideAll(t, batch).value.ids
    decreases |batch|
  {
    if batch != [] {
      var a, t1 := batch[0], Decide(t, batch[0]).value;
      var d := DecideAll(t, batch).value;
      DecideValid(t, a);
      DecideAllValid(t1, batch[1..]);
      DecideAllGrows(t1, batch[1..]);
      DecideAllGrows(t, batch);
      DecisionReplayed(t, u, a, d);
      Replayed(t1, Decide(u, a).value, batch[1..]);
    }
  }

  /** Applying the same batch again leaves the same topics and links, even when
      an id unknown the first time was allocated by the batch itself. */
  lemma ApplyTwice(db: Db, paper: int, batch: seq<Assignment>)
    requires Valid(db) && Apply(db, paper, batch).1.Ok?
    ensures var (db1, r1) := Apply(db, paper, batch);
            var (db2, r2) := Apply(db1, paper, batch);
            && db2 == db1 && r2.Ok?
            && (forall x :: x in r2.value.ids <==> x in r1.value.ids)
  {
    var (db1, r1) := Apply(db, paper, batch);
    var t := DecideAll(Start(db), batch).value;
    DecideAllValid(Start(db), batch);
    Replayed(Start(db), Start(db1), batch);
    var u := DecideAll(Start(db1), batch).value;
    assert (set id | id in u.ids :: Link(paper, id)) <= db1.links;
    assert LinkAll(u.db, paper, u.ids) == db1;
    if u.ids != [] {
      var x := u.ids[0];
      assert x in u.ids && x in t.ids;
    }
    assert DecideAll(Start(db1), batch) == Ok(u);
    assert Apply(db1, paper, batch) == (db1, Ok(u));
  }

  /** The case the previous lemma is careful about: the id the model invented is
      allocated by the same batch, so the first run drops it and the second keeps it. */
  lemma InventedIdAllocated(name: string)
    requires IsTidy(name) && name != ""
    ensures var db := Db(map[], {}, {1}, 1);
            var batch := [Existing(1), Proposal(name, None)];
            var (db1, r1) := Apply(db, 1, batch);
            && r1.Ok? && r1.value.dropped == [UnknownTopic(1)] && r1.value.reused == []
            && Apply(db1, 1, batch).1.Ok? && Apply(db1, 1, batch).1.value.reused == [1, 1]
  {
    var db := Db(map[], {}, {1}, 1);
    TidyFixed(name);
    assert forall x :: !Named(db.topics, x, name);
    var t1 := Start(db).(dropped := [UnknownTopic(1)]);
    var t2 := Tally(Db(map[1 := Topic(name, None)], {}, {1}, 2), [1], [1], [], [UnknownTopic(1)]);
    assert db.topics[1 := Topic(name, None)] == t2.db.topics;
    assert Find(db.topics, name) == None;
    assert GetOrCreate(db, name, None) == (t2.db, Ok((1, true)));
    assert Start(db).dropped + [UnknownTopic(1)] == t1.dropped;
    assert t1.created + [1] == t2.created && Tagged([], 1) == t2.ids;
    DecideTwo(Start(db), t1, t2, Existing(1), Proposal(name, None));
    var db1 := LinkAll(t2.db, 1, [1]);
    assert Apply(db, 1, [Existing(1), Proposal(name, None)]) == (db1, Ok(t2));
    assert Named(db1.topics, 1, name);
    assert Find(db1.topics, name) == Some(1);
    assert GetOrCreate(db1, name, None) == (db1, Ok((1, false)));
    var u1 := Tally(db1, [1], [], [1], []);
    var u2 := Tally(db1, [1], [], [1, 1], []);
    assert Start(db1).reused + [1] == u1.reused && Tagged([], 1) == u1.ids;
    assert u1.reused + [1] == u2.reused && Tagged(u1.ids, 1) == u2.ids;
    DecideTwo(Start(db1), u1, u2, Existing(1), Proposal(name, None));
  }

  lemma DecideTwo(t: Tally, t1: Tally, t2: Tally, a: Assignment, b: Assignment)
    requires Decide(t, a) == Ok(t1) && Decide(t1, b) == Ok(t2)
    ensures DecideAll(t, [a, b]) == Ok(t2)
  {
    assert [a, b][1..] == [b] && [b][1..] == [];
    assert DecideAll(t1, [b]) == DecideAll(t2, []);
  }

  // ---- interleaved re-parents ----------------------------------------------

  /** What the check of a re-parent tests before its UPDATE is sent. */
  ghost predicate CheckPasses(db: Db, id: int, p: Option<int>) {
    Reparent(db, id, p).1.Ok?
  }

  /** The UPDATE alone: check and write are separate statements outside any transaction. */
  function WriteParent(db: Db, id: int, p: Option<int>): Db
    requires id in db.topics
  {
    db.(topics := db.topics[id := db.topics[id].(parent := p)])
  }

  /** Two re-parents that both check before either writes leave a forest unless
      each one's new parent lies under the other's topic; then they close a cycle. */
  lemma InterleavedReparents(db: Db, x: int, p: Option<int>, y: int, q: Option<int>)
    requires Valid(db) && CheckPasses(db, x, p) && CheckPasses(db, y, q)
    ensures Acyclic(UpOf(WriteParent(WriteParent(db, x, p), y, q).topics)) <==>
            !(p.Some? && q.Some? && p.value in Desc(db, y) && q.value in Desc(db, x))
  {
    var up := UpOf(db.topics);
    var db1 := WriteParent(db, x, p);
    ReparentValid(db, x, p);
    UpMoved(db.topics, x, db.topics[x].name, p);
    UpMoved(db1.topics, y, db1.topics[y].name, q);
    MovedAcyclic(up, x, p);
    MovedAcyclic(Moved(up, x, p), y, q);
    if q.Some? {
      MovedBelow(up, x, p, y, q.value);
    }
  }

  /** Two sibling topics, each moved under the other by an interleaved request. */
  lemma InterleavedReparentsReachCycle()
    ensures exists db: Db, x, p, y, q ::
              && Valid(db) && CheckPasses(db, x, p) && CheckPasses(db, y, q)
              && !Acyclic(UpOf(WriteParent(WriteParent(db, x, p), y, q).topics))
  {
    var db := Db(map[1 := Topic("a", None), 2 := Topic("b", None)], {}, {}, 3);
    var up := UpOf(db.topics);
    assert up == map[];
    forall z
      ensures Grounded(up, z)
    {
      GroundedUnfold(up, z);
    }
    assert Fold("a") == "a" && Fold("b") == "b";
    assert Fold("a")[0] != Fold("b")[0];
    assert Valid(db);
    BelowUnfold(up, 1, 2);
    BelowUnfold(up, 2, 1);
    BelowUnfold(up, 1, 1);
    BelowUnfold(up, 2, 2);
    assert CheckPasses(db, 1, Some(2)) && CheckPasses(db, 2, Some(1));
    InterleavedReparents(db, 1, Some(2), 2, Some(1));
    assert !Acyclic(UpOf(WriteParent(WriteParent(db, 1, Some(2)), 2, Some(1)).topics));
  }
}
