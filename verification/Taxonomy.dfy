/** The topic tables and what each edit of the taxonomy does to them, stated on
    values. The class `TopicStore.TopicStore` performs the same edits statement
    by statement and is proved against these functions. */
module Taxonomy {
  import opened Wrappers
  import opened Text
  import opened Forest

  datatype Topic = Topic(name: string, parent: Option<int>)

  datatype Link = Link(paper: int, topic: int)

  /** The rows of topics and paper_topics, the paper ids, and the next
      AUTOINCREMENT id. */
  datatype Db = Db(topics: map<int, Topic>, links: set<Link>, papers: set<int>, nextId: int)

  datatype Error = NotFound | EmptyName | NameConflict | WouldCycle | SelfMerge
                 | NoSelection | NotAssigned | Integrity

  const EMPTY_DB := Db(map[], {}, {}, 1)

  // ---- derived notions -----------------------------------------------------

  function UpOf(topics: map<int, Topic>): Up {
    map x | x in topics && topics[x].parent.Some? && topics[x].parent.value in topics
      :: topics[x].parent.value
  }

  /** The topic and everything under it. */
  ghost function Desc(db: Db, a: int): set<int> {
    set x | x in db.topics && Below(UpOf(db.topics), a, x)
  }

  /** The papers tagged with anything at or under the topic. */
  ghost function Rolled(db: Db, a: int): set<int> {
    PapersOn(db, Desc(db, a))
  }

  function PapersOn(db: Db, ids: set<int>): set<int> {
    set l | l in db.links && l.topic in ids :: l.paper
  }

  function Direct(db: Db, a: int): set<int> {
    set l | l in db.links && l.topic == a :: l.paper
  }

  /** One link row for each of the papers. */
  function Pairs(papers: set<int>, x: int): (r: set<Link>)
    ensures forall l :: l in r <==> l.paper in papers && l.topic == x
  {
    set p | p in papers :: Link(p, x)
  }

  predicate Named(topics: map<int, Topic>, x: int, name: string) {
    x in topics && Fold(topics[x].name) == Fold(name)
  }

  ghost predicate ParentsResolve(db: Db) {
    forall x :: x in db.topics && db.topics[x].parent.Some? ==> db.topics[x].parent.value in db.topics
  }

  ghost predicate NamesCurated(db: Db) {
    && (forall x :: x in db.topics ==> IsTidy(db.topics[x].name) && db.topics[x].name != "")
    && (forall x, y :: x in db.topics && y in db.topics && Fold(db.topics[x].name) == Fold(db.topics[y].name) ==>
        x == y)
  }

  ghost predicate LinksLive(db: Db) {
    forall l :: l in db.links ==> l.paper in db.papers && l.topic in db.topics
  }

  ghost predicate Valid(db: Db) {
    && (forall x :: x in db.topics ==> x < db.nextId)
    && ParentsResolve(db)
    && NamesCurated(db)
    && LinksLive(db)
    && Acyclic(UpOf(db.topics))
  }

  // ---- the operations ------------------------------------------------------

  ghost function Find(topics: map<int, Topic>, name: string): (r: Option<int>)
    ensures r.Some? ==> Named(topics, r.value, Tidy(name))
    ensures r.None? ==> forall x :: !Named(topics, x, Tidy(name))
  {
    if exists x :: Named(topics, x, Tidy(name))
    then var x :| Named(topics, x, Tidy(name)); Some(x)
    else None
  }

  /** The foreign key is checked when the INSERT ends, so the new row itself
      satisfies a parent_id equal to the id it is given. */
  ghost function GetOrCreate(db: Db, name: string, parent: Option<int>): (Db, Result<(int, bool), Error>) {
    var clean := Tidy(name);
    if clean == "" then (db, Err(EmptyName))
    else if Find(db.topics, clean).Some? then (db, Ok((Find(db.topics, clean).value, false)))
    else if parent.Some? && parent.value !in db.topics && parent.value != db.nextId then (db, Err(Integrity))
    else (db.(topics := db.topics[db.nextId := Topic(clean, parent)], nextId := db.nextId + 1), Ok((db.nextId, true)))
  }

  /** The create route: an unknown parent is refused before anything is looked up. */
  ghost function Create(db: Db, name: string, parent: Option<int>): (Db, Result<(int, bool), Error>) {
    if parent.Some? && parent.value !in db.topics then (db, Err(NotFound)) else GetOrCreate(db, name, parent)
  }

  ghost function Rename(db: Db, id: int, name: string): (Db, Result<Topic, Error>) {
    var clean := Tidy(name);
    if id !in db.topics then (db, Err(NotFound))
    else if clean == "" then (db, Err(EmptyName))
    else if Find(db.topics, clean).Some? && Find(db.topics, clean).value != id then (db, Err(NameConflict))
    else (db.(topics := db.topics[id := db.topics[id].(name := clean)]), Ok(db.topics[id].(name := clean)))
  }

  ghost function Reparent(db: Db, id: int, parent: Option<int>): (Db, Result<Topic, Error>) {
    if id !in db.topics then (db, Err(NotFound))
    else if parent == Some(id) then (db, Err(WouldCycle))
    else if parent.Some? && parent.value !in db.topics then (db, Err(NotFound))
    else if parent.Some? && parent.value in Desc(db, id) then (db, Err(WouldCycle))
    else (db.(topics := db.topics[id := db.topics[id].(parent := parent)]), Ok(db.topics[id].(parent := parent)))
  }

  datatype MergeResult = MergeResult(target: Topic, papersRelinked: nat, childrenMoved: nat)

  /** The target is spliced into the source's place when it sits under the source. */
  ghost function Spliced(db: Db, s: int, t: int): map<int, Topic>
    requires s in db.topics && t in db.topics
  {
    if t in Desc(db, s) then db.topics[t := db.topics[t].(parent := db.topics[s].parent)] else db.topics
  }

  /** Row s removed, with its children handed to parent p. */
  function Unhooked(topics: map<int, Topic>, s: int, p: Option<int>): map<int, Topic> {
    map x | x in topics && x != s :: if topics[x].parent == Some(s) then topics[x].(parent := p) else topics[x]
  }

  function ChildrenOf(topics: map<int, Topic>, s: int): set<int> {
    set x | x in topics && topics[x].parent == Some(s)
  }

  ghost function Merge(db: Db, s: int, t: int): (Db, Result<MergeResult, Error>) {
    if s == t then (db, Err(SelfMerge))
    else if s !in db.topics || t !in db.topics then (db, Err(NotFound))
    else
      var spliced := Spliced(db, s, t);
      var kept := set l | l in db.links && l.topic != s;
      var carried := Pairs(Direct(db, s), t);
      var db' := db.(topics := Unhooked(spliced, s, Some(t)), links := kept + carried);
      (db', Ok(MergeResult(db'.topics[t], |Direct(db, s) - Direct(db, t)|, |ChildrenOf(spliced, s)|)))
  }

  datatype DeleteResult = DeleteResult(topic: Topic, linksRemoved: nat, childrenPromoted: nat)

  ghost function Delete(db: Db, id: int): (Db, Result<DeleteResult, Error>) {
    if id !in db.topics then (db, Err(NotFound))
    else
      (db.(topics := Unhooked(db.topics, id, db.topics[id].parent), links := set l | l in db.links && l.topic != id),
       Ok(DeleteResult(db.topics[id], |Direct(db, id)|, |ChildrenOf(db.topics, id)|)))
  }

  datatype SplitResult = SplitResult(created: int, papersMoved: nat)

  ghost function Split(db: Db, id: int, name: string, papers: seq<int>): (Db, Result<SplitResult, Error>) {
    var selected := set p | p in papers;
    var clean := Tidy(name);
    if id !in db.topics then (db, Err(NotFound))
    else if papers == [] then (db, Err(NoSelection))
    else if !(selected <= Direct(db, id)) then (db, Err(NotAssigned))
    else if clean == "" then (db, Err(EmptyName))
    else if Find(db.topics, clean).Some? then (db, Err(NameConflict))
    else
      var n := db.nextId;
      (db.(topics := db.topics[n := Topic(clean, db.topics[id].parent)],
           nextId := n + 1,
           links := (db.links - Pairs(selected, id)) + Pairs(selected, n)),
       Ok(SplitResult(n, |selected|)))
  }

  /** One decision of the model: an existing topic, or a proposed new one. */
  datatype Assignment = Existing(id: int) | Proposal(name: string, parent: Option<int>)

  datatype Dropped = UnknownTopic(id: int) | UnknownParent(parent: int, name: string)

  datatype Tally = Tally(db: Db, ids: seq<int>, created: seq<int>, reused: seq<int>, dropped: seq<Dropped>)

  function Tagged(ids: seq<int>, id: int): seq<int> {
    if id in ids then ids else ids + [id]
  }

  ghost function Decide(t: Tally, a: Assignment): Result<Tally, Error> {
    match a
    case Existing(id) =>
      if id !in t.db.topics then Ok(t.(dropped := t.dropped + [UnknownTopic(id)]))
      else Ok(t.(reused := t.reused + [id], ids := Tagged(t.ids, id)))
    case Proposal(name, parent) =>
      var orphan := parent.Some? && parent.value !in t.db.topics;
      var dropped := if orphan then t.dropped + [UnknownParent(parent.value, name)] else t.dropped;
      var (db', r) := GetOrCreate(t.db, name, if orphan then None else parent);
      match r
      case Err(e) => Err(e)
      case Ok((id, true)) => Ok(Tally(db', Tagged(t.ids, id), t.created + [id], t.reused, dropped))
      case Ok((id, false)) => Ok(Tally(db', Tagged(t.ids, id), t.created, t.reused + [id], dropped))
  }

  ghost function DecideAll(t: Tally, batch: seq<Assignment>): Result<Tally, Error>
    decreases |batch|
  {
    if batch == [] then Ok(t)
    else match Decide(t, batch[0])
      case Err(e) => Err(e)
      case Ok(t') => DecideAll(t', batch[1..])
  }

  function Start(db: Db): Tally {
    Tally(db, [], [], [], [])
  }

  function LinkAll(db: Db, paper: int, ids: seq<int>): Db {
    db.(links := db.links + set id | id in ids :: Link(paper, id))
  }

  /** A batch commits whole or leaves the tables as they were. */
  ghost function Apply(db: Db, paper: int, batch: seq<Assignment>): (Db, Result<Tally, Error>) {
    match DecideAll(Start(db), batch)
    case Err(e) => (db, Err(e))
    case Ok(t) =>
      if t.ids != [] && paper !in db.papers then (db, Err(Integrity))
      else (LinkAll(t.db, paper, t.ids), Ok(t))
  }

  ghost function AddLink(db: Db, paper: int, id: int): (Db, Result<Topic, Error>) {
    if id !in db.topics then (db, Err(NotFound))
    else if paper !in db.papers then (db, Err(Integrity))
    else (db.(links := db.links + {Link(paper, id)}), Ok(db.topics[id]))
  }

  function RemoveLink(db: Db, paper: int, id: int): (Db, bool) {
    (db.(links := db.links - {Link(paper, id)}), Link(paper, id) in db.links)
  }
}
