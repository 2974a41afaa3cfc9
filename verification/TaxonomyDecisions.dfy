/** What a batch of decisions leaves, read off the batch and the tables it started from:
    which proposals make a topic, under which id and parent, what is reused, and what is
    dropped. */
module TaxonomyDecisions {
  import opened Wrappers
  import opened Text
  import opened Taxonomy
  import opened TaxonomyEdits

  // ---- read off the batch --------------------------------------------------

  predicate SameName(a: Assignment, b: Assignment) {
    a.Proposal? && b.Proposal? && Fold(Tidy(a.name)) == Fold(Tidy(b.name))
  }

  predicate HasName(topics: map<int, Topic>, name: string) {
    exists x :: x in topics && Fold(topics[x].name) == Fold(Tidy(name))
  }

  /** Decision k makes a topic: no topic has the name, and no earlier proposal either. */
  predicate Makes(db: Db, batch: seq<Assignment>, k: nat)
    requires k < |batch|
  {
    batch[k].Proposal? && !HasName(db.topics, batch[k].name) && forall j :: 0 <= j < k ==> !SameName(batch[j], batch[k])
  }

  /** How many of the first k decisions make a topic. */
  function MadeBefore(db: Db, batch: seq<Assignment>, k: nat): nat
    requires k <= |batch|
  {
    if k == 0 then 0 else MadeBefore(db, batch, k - 1) + if Makes(db, batch, k - 1) then 1 else 0
  }

  /** The id of the topic decision k makes: ids are handed out in order. */
  function IdMade(db: Db, batch: seq<Assignment>, k: nat): int
    requires k < |batch|
  {
    db.nextId + MadeBefore(db, batch, k)
  }

  /** The topic exists when decision k is taken: from the start, or made by an earlier one. */
  predicate KnownAt(db: Db, batch: seq<Assignment>, k: nat, x: int)
    requires k <= |batch|
  {
    x in db.topics || db.nextId <= x < db.nextId + MadeBefore(db, batch, k)
  }

  predicate UnknownParentAt(db: Db, batch: seq<Assignment>, k: nat)
    requires k < |batch|
  {
    batch[k].Proposal? && batch[k].parent.Some? && !KnownAt(db, batch, k, batch[k].parent.value)
  }

  function RowMade(db: Db, batch: seq<Assignment>, k: nat): Topic
    requires k < |batch| && batch[k].Proposal?
  {
    Topic(Tidy(batch[k].name), if UnknownParentAt(db, batch, k) then None else batch[k].parent)
  }

  /** The first proposal of the same name. */
  function FirstProposal(batch: seq<Assignment>, k: nat): (j: nat)
    requires k < |batch| && batch[k].Proposal?
    ensures j <= k && SameName(batch[j], batch[k]) && forall i :: 0 <= i < j ==> !SameName(batch[i], batch[k])
  {
    FirstFrom(batch, k, 0)
  }

  function FirstFrom(batch: seq<Assignment>, k: nat, j: nat): (r: nat)
    requires j <= k < |batch| && batch[k].Proposal? && forall i :: 0 <= i < j ==> !SameName(batch[i], batch[k])
    ensures r <= k && SameName(batch[r], batch[k]) && forall i :: 0 <= i < r ==> !SameName(batch[i], batch[k])
    decreases k - j
  {
    if SameName(batch[j], batch[k]) then j else FirstFrom(batch, k, j + 1)
  }

  /** The topic decision k comes to. */
  ghost function ResolvedAt(db: Db, batch: seq<Assignment>, k: nat): Option<int>
    requires k < |batch|
  {
    match batch[k]
    case Existing(id) => if KnownAt(db, batch, k, id) then Some(id) else None
    case Proposal(name, _) =>
      if HasName(db.topics, name) then Find(db.topics, name) else Some(IdMade(db, batch, FirstProposal(batch, k)))
  }

  /** What the first k decisions come to, in order, without repeats. */
  ghost function IdsBefore(db: Db, batch: seq<Assignment>, k: nat): seq<int>
    requires k <= |batch|
  {
    if k == 0 then []
    else
      var before, id := IdsBefore(db, batch, k - 1), ResolvedAt(db, batch, k - 1);
      if id.None? || id.value in before then before else before + [id.value]
  }

  /** What those of them that make nothing come to, in order. */
  ghost function ReusedBefore(db: Db, batch: seq<Assignment>, k: nat): seq<int>
    requires k <= |batch|
  {
    if k == 0 then []
    else
      var before, id := ReusedBefore(db, batch, k - 1), ResolvedAt(db, batch, k - 1);
      if id.None? || Makes(db, batch, k - 1) then before else before + [id.value]
  }

  /** The unknown ids and the unknown parents among them, in order. */
  function DroppedBefore(db: Db, batch: seq<Assignment>, k: nat): seq<Dropped>
    requires k <= |batch|
  {
    if k == 0 then []
    else
      var before, a := DroppedBefore(db, batch, k - 1), batch[k - 1];
      if a.Existing? && !KnownAt(db, batch, k - 1, a.id) then before + [UnknownTopic(a.id)]
      else if UnknownParentAt(db, batch, k - 1) then before + [UnknownParent(a.parent.value, a.name)]
      else before
  }

  function IdRange(first: int, n: nat): (ids: seq<int>)
    ensures |ids| == n && forall i :: 0 <= i < n ==> ids[i] == first + i
  {
    seq(n, i requires 0 <= i < n => first + i)
  }

  // ---- counting ------------------------------------------------------------

  lemma {:induction false} MadeGrows(db: Db, batch: seq<Assignment>, j: nat, k: nat)
    requires j <= k <= |batch|
    ensures MadeBefore(db, batch, j) <= MadeBefore(db, batch, k)
    ensures j < k && Makes(db, batch, j) ==> MadeBefore(db, batch, j) < MadeBefore(db, batch, k)
    decreases k
  {
    if j < k {
      MadeGrows(db, batch, j, k - 1);
    }
  }

  /** Every id handed out belongs to a decision that made its topic. */
  lemma {:induction false} MakerOf(db: Db, batch: seq<Assignment>, k: nat, x: int) returns (j: nat)
    requires k <= |batch| && db.nextId <= x < db.nextId + MadeBefore(db, batch, k)
    ensures j < k && Makes(db, batch, j) && IdMade(db, batch, j) == x
    decreases k
  {
    if x < db.nextId + MadeBefore(db, batch, k - 1) {
      j := MakerOf(db, batch, k - 1, x);
    } else {
      j := k - 1;
    }
  }

  // ---- the tally after k decisions -----------------------------------------

  ghost predicate RowsMade(db: Db, batch: seq<Assignment>, k: nat, topics: map<int, Topic>)
    requires k <= |batch|
  {
    forall j :: 0 <= j < k ==> RowMadeAt(db, batch, j, topics)
  }

  ghost predicate RowMadeAt(db: Db, batch: seq<Assignment>, j: nat, topics: map<int, Topic>)
    requires j < |batch|
  {
    Makes(db, batch, j) ==> IdMade(db, batch, j) in topics && topics[IdMade(db, batch, j)] == RowMade(db, batch, j)
  }

  /** The tables after k decisions. */
  ghost predicate TablesAfter(db: Db, batch: seq<Assignment>, k: nat, db': Db)
    requires k <= |batch|
  {
    && db'.links == db.links && db'.papers == db.papers && db'.nextId == db.nextId + MadeBefore(db, batch, k)
    && (forall x :: x in db'.topics <==> KnownAt(db, batch, k, x))
    && (forall x :: x in db.topics ==> x in db'.topics && db'.topics[x] == db.topics[x])
    && RowsMade(db, batch, k, db'.topics)
  }

  ghost predicate TallyAfter(db: Db, batch: seq<Assignment>, k: nat, t: Tally)
    requires k <= |batch|
  {
    && TablesAfter(db, batch, k, t.db)
    && t.created == IdRange(db.nextId, MadeBefore(db, batch, k))
    && t.reused == ReusedBefore(db, batch, k) && t.ids == IdsBefore(db, batch, k)
    && t.dropped == DroppedBefore(db, batch, k)
  }

  /** After k decisions a name is taken if it was from the start or was proposed. */
  lemma TakenAfter(db: Db, batch: seq<Assignment>, k: nat, db': Db)
    requires Valid(db) && Valid(db') && k < |batch| && TablesAfter(db, batch, k, db') && batch[k].Proposal?
    ensures Makes(db, batch, k) <==> Find(db'.topics, Tidy(batch[k].name)).None?
    ensures !Makes(db, batch, k) ==> Find(db'.topics, Tidy(batch[k].name)) == ResolvedAt(db, batch, k)
  {
    TidyFacts(batch[k].name);
    TidyFixed(Tidy(batch[k].name));
    if HasName(db.topics, batch[k].name) {
      TakenFromStart(db, batch, k, db');
    } else {
      var j := FirstProposal(batch, k);
      if j < k {
        ProposedBefore(db, batch, k, db', j);
      } else {
        NotTaken(db, batch, k, db');
      }
    }
  }

  lemma TakenFromStart(db: Db, batch: seq<Assignment>, k: nat, db': Db)
    requires Valid(db) && Valid(db') && k < |batch| && TablesAfter(db, batch, k, db') && batch[k].Proposal?
    requires HasName(db.topics, batch[k].name) && Tidy(Tidy(batch[k].name)) == Tidy(batch[k].name)
    ensures Find(db.topics, batch[k].name).Some?
    ensures Find(db'.topics, Tidy(batch[k].name)) == Find(db.topics, batch[k].name)
  {
    var x :| x in db.topics && Fold(db.topics[x].name) == Fold(Tidy(batch[k].name));
    assert Named(db.topics, x, Tidy(batch[k].name)) && Named(db'.topics, x, Tidy(batch[k].name));
  }

  lemma ProposedBefore(db: Db, batch: seq<Assignment>, k: nat, db': Db, j: nat)
    requires Valid(db') && k < |batch| && TablesAfter(db, batch, k, db') && batch[k].Proposal?
    requires !HasName(db.topics, batch[k].name) && Tidy(Tidy(batch[k].name)) == Tidy(batch[k].name)
    requires j < k && j == FirstProposal(batch, k)
    ensures Find(db'.topics, Tidy(batch[k].name)) == Some(IdMade(db, batch, j))
  {
    FirstMakes(db, batch, k, j);
    assert RowMadeAt(db, batch, j, db'.topics);
    assert Named(db'.topics, IdMade(db, batch, j), Tidy(batch[k].name));
  }

  lemma FirstMakes(db: Db, batch: seq<Assignment>, k: nat, j: nat)
    requires k < |batch| && batch[k].Proposal? && j == FirstProposal(batch, k) && !HasName(db.topics, batch[k].name)
    ensures Makes(db, batch, j)
  {
    assert forall i :: 0 <= i < j ==> (SameName(batch[i], batch[j]) <==> SameName(batch[i], batch[k]));
  }

  lemma NotTaken(db: Db, batch: seq<Assignment>, k: nat, db': Db)
    requires k < |batch| && TablesAfter(db, batch, k, db') && Makes(db, batch, k)
    requires Tidy(Tidy(batch[k].name)) == Tidy(batch[k].name)
    ensures Find(db'.topics, Tidy(batch[k].name)).None?
  {
    forall x
      ensures !Named(db'.topics, x, Tidy(batch[k].name))
    {
      if x in db'.topics && x !in db.topics {
        var j := MakerOf(db, batch, k, x);
        assert RowMadeAt(db, batch, j, db'.topics) && !SameName(batch[j], batch[k]);
      }
    }
  }

  // ---- one decision --------------------------------------------------------

  lemma TablesSame(db: Db, batch: seq<Assignment>, k: nat, db': Db)
    requires k < |batch| && TablesAfter(db, batch, k, db') && !Makes(db, batch, k)
    ensures TablesAfter(db, batch, k + 1, db')
  {
    forall j | 0 <= j < k + 1
      ensures RowMadeAt(db, batch, j, db'.topics)
    {
      assert j < k ==> RowMadeAt(db, batch, j, db'.topics);
    }
  }

  lemma TablesGrown(db: Db, batch: seq<Assignment>, k: nat, before: Db, after: Db)
    requires Valid(db) && k < |batch| && TablesAfter(db, batch, k, before) && Makes(db, batch, k)
    requires after == before.(topics := before.topics[before.nextId := RowMade(db, batch, k)],
                              nextId := before.nextId + 1)
    ensures TablesAfter(db, batch, k + 1, after)
  {
    forall j | 0 <= j < k + 1
      ensures RowMadeAt(db, batch, j, after.topics)
    {
      if j < k {
        assert RowMadeAt(db, batch, j, before.topics);
        MadeGrows(db, batch, j, k);
      }
    }
  }

  function Under(db: Db, batch: seq<Assignment>, k: nat): Option<int>
    requires k < |batch| && batch[k].Proposal?
  {
    if UnknownParentAt(db, batch, k) then None else batch[k].parent
  }

  /** What a proposal does to the tables, and what it answers. */
  lemma ProposalDone(db: Db, batch: seq<Assignment>, k: nat, before: Db) returns (after: Db, id: int)
    requires Valid(db) && Valid(before) && k < |batch| && TablesAfter(db, batch, k, before)
    requires batch[k].Proposal? && !Blank(batch[k].name)
    ensures GetOrCreate(before, batch[k].name, Under(db, batch, k)) == (after, Ok((id, Makes(db, batch, k))))
    ensures ResolvedAt(db, batch, k) == Some(id) && (Makes(db, batch, k) ==> id == IdMade(db, batch, k))
    ensures TablesAfter(db, batch, k + 1, after)
  {
    TidyFacts(batch[k].name);
    TakenAfter(db, batch, k, before);
    var (db', r) := GetOrCreate(before, batch[k].name, Under(db, batch, k));
    after, id := db', r.value.0;
    if Makes(db, batch, k) {
      OwnFirst(db, batch, k);
      TablesGrown(db, batch, k, before, after);
    } else {
      TablesSame(db, batch, k, before);
    }
  }

  lemma OwnFirst(db: Db, batch: seq<Assignment>, k: nat)
    requires k < |batch| && Makes(db, batch, k)
    ensures ResolvedAt(db, batch, k) == Some(IdMade(db, batch, k))
  {
    assert FirstProposal(batch, k) == k;
  }

  lemma DecisionDone(db: Db, batch: seq<Assignment>, k: nat, t: Tally)
    requires Valid(db) && Valid(t.db) && k < |batch| && TallyAfter(db, batch, k, t)
    ensures Decide(t, batch[k]).Err? <==> batch[k].Proposal? && Blank(batch[k].name)
    ensures Decide(t, batch[k]).Err? ==> Decide(t, batch[k]).error == EmptyName
    ensures Decide(t, batch[k]).Ok? ==> TallyAfter(db, batch, k + 1, Decide(t, batch[k]).value)
  {
    if batch[k].Existing? {
      TablesSame(db, batch, k, t.db);
    } else {
      TidyFacts(batch[k].name);
      if !Blank(batch[k].name) {
        var after, id := ProposalDone(db, batch, k, t.db);
        ProposalTallied(db, batch, k, t, after, id);
      }
    }
  }

  lemma ProposalTallied(db: Db, batch: seq<Assignment>, k: nat, t: Tally, after: Db, id: int)
    requires k < |batch| && TallyAfter(db, batch, k, t) && batch[k].Proposal?
    requires GetOrCreate(t.db, batch[k].name, Under(db, batch, k)) == (after, Ok((id, Makes(db, batch, k))))
    requires ResolvedAt(db, batch, k) == Some(id) && (Makes(db, batch, k) ==> id == IdMade(db, batch, k))
    requires TablesAfter(db, batch, k + 1, after)
    ensures Decide(t, batch[k]).Ok? && TallyAfter(db, batch, k + 1, Decide(t, batch[k]).value)
  {
    ProposalDecided(t, batch[k], UnknownParentAt(db, batch, k), after, id, Makes(db, batch, k));
    if Makes(db, batch, k) {
      NextId(db, batch, k);
    }
  }

  lemma NextId(db: Db, batch: seq<Assignment>, k: nat)
    requires k < |batch| && Makes(db, batch, k)
    ensures IdRange(db.nextId, MadeBefore(db, batch, k + 1)) ==
            IdRange(db.nextId, MadeBefore(db, batch, k)) + [IdMade(db, batch, k)]
  {
  }

  // ---- the whole batch -----------------------------------------------------

  predicate BlankProposal(batch: seq<Assignment>, i: nat) {
    i < |batch| && batch[i].Proposal? && Blank(batch[i].name)
  }

  lemma {:induction false} RestDone(db: Db, batch: seq<Assignment>, k: nat, t: Tally)
    requires Valid(db) && Valid(t.db) && k <= |batch| && TallyAfter(db, batch, k, t)
    requires forall x :: x in t.ids ==> x in t.db.topics
    ensures DecideAll(t, batch[k..]).Err? <==> exists i: nat :: k <= i && BlankProposal(batch, i)
    ensures DecideAll(t, batch[k..]).Err? ==> DecideAll(t, batch[k..]).error == EmptyName
    ensures DecideAll(t, batch[k..]).Ok? ==> TallyAfter(db, batch, |batch|, DecideAll(t, batch[k..]).value)
    decreases |batch| - k
  {
    if k < |batch| {
      assert batch[k..][0] == batch[k] && batch[k..][1..] == batch[k + 1..];
      DecisionDone(db, batch, k, t);
      if Decide(t, batch[k]).Ok? {
        DecideValid(t, batch[k]);
        RestDone(db, batch, k + 1, Decide(t, batch[k]).value);
      } else {
        assert BlankProposal(batch, k);
      }
    }
  }

  /** Every proposal comes to the topic that has its name in the end. */
  lemma ResolvedNamed(db: Db, batch: seq<Assignment>, k: nat, topics: map<int, Topic>)
    requires Valid(db) && k < |batch| && batch[k].Proposal? && RowsMade(db, batch, |batch|, topics)
    requires forall x :: x in db.topics ==> x in topics && topics[x] == db.topics[x]
    ensures ResolvedAt(db, batch, k).Some? && Named(topics, ResolvedAt(db, batch, k).value, Tidy(batch[k].name))
  {
    if HasName(db.topics, batch[k].name) {
      var x :| x in db.topics && Fold(db.topics[x].name) == Fold(Tidy(batch[k].name));
      assert Named(db.topics, x, Tidy(batch[k].name));
    } else {
      var j := FirstProposal(batch, k);
      FirstMakes(db, batch, k, j);
      assert RowMadeAt(db, batch, j, topics);
    }
  }

  /** What a committed batch leaves: the old rows as they were, one row for every decision
      that makes a topic, the paper linked to everything the decisions come to, and the
      reports in the order of the batch. */
  ghost predicate BatchDone(db: Db, paper: int, batch: seq<Assignment>, db': Db, t: Tally) {
    var n := |batch|;
    && (forall x :: x in db'.topics <==> KnownAt(db, batch, n, x))
    && (forall x :: x in db.topics ==> x in db'.topics && db'.topics[x] == db.topics[x])
    && RowsMade(db, batch, n, db'.topics)
    && (forall k :: 0 <= k < n ==> NameFound(db, batch, k, db'.topics))
    && (forall l :: l in db'.links <==> l in db.links || (l.paper == paper && l.topic in IdsBefore(db, batch, n)))
    && db'.papers == db.papers && db'.nextId == db.nextId + MadeBefore(db, batch, n)
    && t.created == IdRange(db.nextId, MadeBefore(db, batch, n)) && t.reused == ReusedBefore(db, batch, n)
    && t.ids == IdsBefore(db, batch, n) && t.dropped == DroppedBefore(db, batch, n)
  }

  ghost predicate NameFound(db: Db, batch: seq<Assignment>, k: nat, topics: map<int, Topic>)
    requires k < |batch|
  {
    batch[k].Proposal? ==>
      ResolvedAt(db, batch, k).Some? && Named(topics, ResolvedAt(db, batch, k).value, Tidy(batch[k].name))
  }

  lemma BatchOutcome(db: Db, paper: int, batch: seq<Assignment>)
    requires Valid(db)
    ensures var (db', r) := Apply(db, paper, batch);
            var blank := exists i: nat :: BlankProposal(batch, i);
            var linkless := IdsBefore(db, batch, |batch|) == [];
            && (r == Err(EmptyName) <==> blank)
            && (r == Err(Integrity) <==> !blank && !linkless && paper !in db.papers)
            && (r.Ok? <==> !blank && (linkless || paper in db.papers))
            && (r.Err? ==> db' == db)
            && (r.Ok? ==> BatchDone(db, paper, batch, db', r.value))
  {
    assert batch[0..] == batch;
    assert TallyAfter(db, batch, 0, Start(db));
    RestDone(db, batch, 0, Start(db));
    if Apply(db, paper, batch).1.Ok? {
      var t := DecideAll(Start(db), batch).value;
      forall k | 0 <= k < |batch|
        ensures NameFound(db, batch, k, t.db.topics)
      {
        if batch[k].Proposal? {
          ResolvedNamed(db, batch, k, t.db.topics);
        }
      }
    }
  }
}
