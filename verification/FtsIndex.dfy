/** The full-text index of the library, maintained by six row triggers on the papers and
    paper_texts tables. The index is a table of its own, changed row by row; what is
    proved is that it always equals the index computed afresh from the two tables. */
module FtsIndex {
  import opened Wrappers

  /** A papers row; other stands for the columns that are not indexed. */
  datatype PaperRow = PaperRow(sha: string, title: Option<string>, authors: Option<string>, abst: Option<string>,
                               short: Option<string>, long: Option<string>, other: string)

  datatype TextRow = TextRow(text: string, pages: Option<int>)

  datatype FtsRow = FtsRow(paperId: int, title: string, authors: string, abst: string, short: string, long: string,
                           text: string)

  datatype Tables = Tables(papers: map<int, PaperRow>, texts: map<int, TextRow>, nextId: int)

  function Coalesce(s: Option<string>): string {
    if s.Some? then s.value else ""
  }

  /** What the index should hold for a paper: its current columns and full text, with
      null as empty. */
  function IndexRow(t: Tables, p: int): FtsRow
    requires p in t.papers
  {
    var row := t.papers[p];
    FtsRow(p, Coalesce(row.title), Coalesce(row.authors), Coalesce(row.abst), Coalesce(row.short), Coalesce(row.long),
           if p in t.texts then t.texts[p].text else "")
  }

  /** Exactly one row per paper. */
  function Index(t: Tables): map<int, FtsRow> {
    map p | p in t.papers :: IndexRow(t, p)
  }

  // ---- statements ----------------------------------------------------------

  datatype Statement =
    | InsertPaper(row: PaperRow)
    | UpdatePaper(p: int, row: PaperRow)
    | DeletePaper(p: int, textFirst: bool)
    | InsertText(p: int, text: TextRow)
    | UpsertText(p: int, text: TextRow)
    | UpdateText(p: int, text: TextRow)
    | DeleteText(p: int)

  ghost predicate ShaTaken(t: Tables, sha: string, but: int) {
    exists q :: q in t.papers && q != but && t.papers[q].sha == sha
  }

  /** A statement that violates a constraint is rolled back. */
  ghost predicate Refused(t: Tables, s: Statement) {
    match s
    case InsertPaper(row) => ShaTaken(t, row.sha, t.nextId)
    case UpdatePaper(p, row) => p in t.papers && ShaTaken(t, row.sha, p)
    case InsertText(p, _) => p in t.texts || p !in t.papers
    case UpsertText(p, _) => p !in t.papers
    case _ => false
  }

  /** What a statement does to the two tables, the index apart. */
  ghost function Effect(t: Tables, s: Statement): Tables {
    if Refused(t, s) then t
    else
      match s
      case InsertPaper(row) => t.(papers := t.papers[t.nextId := row], nextId := t.nextId + 1)
      case UpdatePaper(p, row) => if p in t.papers then t.(papers := t.papers[p := row]) else t
      case DeletePaper(p, _) => t.(papers := t.papers - {p}, texts := t.texts - {p})
      case InsertText(p, text) => t.(texts := t.texts[p := text])
      case UpsertText(p, text) => t.(texts := t.texts[p := text])
      case UpdateText(p, text) => if p in t.texts then t.(texts := t.texts[p := text]) else t
      case DeleteText(p) => t.(texts := t.texts - {p})
  }

  ghost function Effects(t: Tables, statements: seq<Statement>): Tables {
    if statements == [] then t
    else Effect(Effects(t, statements[..|statements| - 1]), statements[|statements| - 1])
  }

  const EMPTY_TABLES := Tables(map[], map[], 1)

  ghost function Target(t: Tables, s: Statement): int {
    match s
    case InsertPaper(_) => t.nextId
    case UpdatePaper(p, _) => p
    case DeletePaper(p, _) => p
    case InsertText(p, _) => p
    case UpsertText(p, _) => p
    case UpdateText(p, _) => p
    case DeleteText(p) => p
  }

  /** A statement touches the index row of the paper it is about and no other. */
  lemma OnlyItsRow(t: Tables, s: Statement)
    ensures Index(t) - {Target(t, s)} == Index(Effect(t, s)) - {Target(t, s)}
  {
    var p := Target(t, s);
    assert (Index(t) - {p}).Keys == (Index(Effect(t, s)) - {p}).Keys;
    forall q | q in t.papers && q != p
      ensures IndexRow(t, q) == IndexRow(Effect(t, s), q)
    {
    }
  }

  // ---- what a statement leaves, table by table ------------------------------

  /** Both tables and the index. */
  datatype Rows = Rows(papers: map<int, PaperRow>, texts: map<int, TextRow>, nextId: int, fts: map<int, FtsRow>)

  /** The index row shows the paper's columns, null as empty. */
  predicate ShowsPaper(f: FtsRow, p: int, row: PaperRow) {
    && f.paperId == p
    && f.title == (if row.title.Some? then row.title.value else "")
    && f.authors == (if row.authors.Some? then row.authors.value else "")
    && f.abst == (if row.abst.Some? then row.abst.value else "")
    && f.short == (if row.short.Some? then row.short.value else "")
    && f.long == (if row.long.Some? then row.long.value else "")
  }

  /** No row but that of p differs. */
  predicate SameBut<T(==)>(before: map<int, T>, after: map<int, T>, p: int) {
    before - {p} == after - {p}
  }

  ghost predicate OtherRowsSame(before: Rows, after: Rows, p: int) {
    SameBut(before.papers, after.papers, p) && SameBut(before.texts, after.texts, p)
      && SameBut(before.fts, after.fts, p)
  }

  ghost predicate ShaElsewhere(before: Rows, sha: string, but: Option<int>) {
    exists q :: q in before.papers && Some(q) != but && before.papers[q].sha == sha
  }

  /** Exactly when the constraints let a statement through. */
  ghost predicate Accepts(before: Rows, s: Statement) {
    match s
    case InsertPaper(row) => !ShaElsewhere(before, row.sha, None)
    case UpdatePaper(p, row) => p in before.papers ==> !ShaElsewhere(before, row.sha, Some(p))
    case InsertText(p, _) => p in before.papers && p !in before.texts
    case UpsertText(p, _) => p in before.papers
    case _ => true
  }

  ghost predicate PaperStored(before: Rows, after: Rows, p: int, row: PaperRow) {
    && p in after.papers && after.papers[p] == row && p in after.fts && ShowsPaper(after.fts[p], p, row)
    && after.texts == before.texts && OtherRowsSame(before, after, p)
  }

  ghost predicate TextStored(before: Rows, after: Rows, p: int, text: TextRow) {
    && p in after.texts && after.texts[p] == text
    && p in before.fts && p in after.fts && after.fts[p] == before.fts[p].(text := text.text)
    && after.papers == before.papers && after.nextId == before.nextId && OtherRowsSame(before, after, p)
  }

  ghost predicate TextGone(before: Rows, after: Rows, p: int) {
    && p !in after.texts && after.papers == before.papers && after.nextId == before.nextId
    && OtherRowsSame(before, after, p)
    && (if p in before.fts then p in after.fts && after.fts[p] == before.fts[p].(text := "") else p !in after.fts)
  }

  ghost predicate PaperGone(before: Rows, after: Rows, p: int) {
    && p !in after.papers && p !in after.texts && p !in after.fts
    && after.nextId == before.nextId && OtherRowsSame(before, after, p)
  }

  /** What the statement writes when it is let through; a statement about a row that is not
      there writes nothing. */
  ghost predicate Writes(before: Rows, s: Statement, after: Rows) {
    match s
    case InsertPaper(row) =>
      PaperStored(before, after, before.nextId, row) && after.fts[before.nextId].text == ""
      && after.nextId == before.nextId + 1
    case UpdatePaper(p, row) =>
      if p in before.papers
      then PaperStored(before, after, p, row) && after.nextId == before.nextId
           && p in before.fts && after.fts[p].text == before.fts[p].text
      else after == before
    case DeletePaper(p, _) => PaperGone(before, after, p)
    case InsertText(p, text) => TextStored(before, after, p, text)
    case UpsertText(p, text) => TextStored(before, after, p, text)
    case UpdateText(p, text) => if p in before.texts then TextStored(before, after, p, text) else after == before
    case DeleteText(p) => TextGone(before, after, p)
  }

  function RowsOf(t: Tables): Rows {
    Rows(t.papers, t.texts, t.nextId, Index(t))
  }

  /** Every stored text belongs to a paper, and the next id has not been handed out. */
  ghost predicate Reachable(t: Tables) {
    t.texts.Keys <= t.papers.Keys && forall p :: p in t.papers ==> p < t.nextId
  }

  /** Every statement writes that and nothing else, or is refused and writes nothing. */
  lemma StatementWrites(t: Tables, s: Statement)
    requires Reachable(t)
    ensures Refused(t, s) <==> !Accepts(RowsOf(t), s)
    ensures if Accepts(RowsOf(t), s) then Writes(RowsOf(t), s, RowsOf(Effect(t, s))) else Effect(t, s) == t
  {
    OnlyItsRow(t, s);
  }

  lemma {:induction false} ReachableSound(statements: seq<Statement>)
    ensures Reachable(Effects(EMPTY_TABLES, statements))
  {
    if statements != [] {
      ReachableSound(statements[..|statements| - 1]);
    }
  }

  /** The tables after the first n statements. */
  ghost function After(statements: seq<Statement>, n: nat): Tables
    requires n <= |statements|
  {
    Effects(EMPTY_TABLES, statements[..n])
  }

  ghost predicate Inserted(statements: seq<Statement>, n: nat) {
    n < |statements| && statements[n].InsertPaper? && !Refused(After(statements, n), statements[n])
  }

  lemma OneStep(statements: seq<Statement>, n: nat)
    requires n < |statements|
    ensures After(statements, n + 1) == Effect(After(statements, n), statements[n])
  {
    assert statements[..n + 1][..n] == statements[..n];
  }

  /** Two insertions of a run never give the same id, whatever was deleted between them. */
  lemma {:induction false} IdsNotReused(statements: seq<Statement>, m: nat, n: nat)
    requires m <= n <= |statements|
    ensures After(statements, m).nextId <= After(statements, n).nextId
    ensures m < n && Inserted(statements, m) ==> After(statements, m).nextId < After(statements, n).nextId
    decreases n
  {
    if m < n {
      IdsNotReused(statements, m, n - 1);
      OneStep(statements, n - 1);
    }
  }

  /** A paper that is gone stays gone: nothing later takes its id. */
  lemma {:induction false} GoneForGood(statements: seq<Statement>, l: nat, m: nat, n: nat, p: int)
    requires l <= m <= n <= |statements|
    requires p in After(statements, l).papers && p !in After(statements, m).papers
    ensures p !in After(statements, n).papers
    decreases n
  {
    ReachableSound(statements[..l]);
    if m < n {
      GoneForGood(statements, l, m, n - 1, p);
      IdsNotReused(statements, l, n - 1);
      OneStep(statements, n - 1);
    }
  }

  /** The index of the tables with one paper's row changed. */
  lemma IndexRenewed(t: Tables, t': Tables, p: int)
    requires p in t.papers && p in t'.papers && t' == t.(papers := t.papers[p := t'.papers[p]])
    ensures Index(t') == (Index(t) - {p})[p := IndexRow(t', p)]
  {
  }

  // ---- the database --------------------------------------------------------

  class Library {
    var papers: map<int, PaperRow>
    var texts: map<int, TextRow>
    var nextId: int
    var fts: map<int, FtsRow>

    ghost function View(): Tables
      reads this
    {
      Tables(papers, texts, nextId)
    }

    ghost function All(): Rows
      reads this
    {
      Rows(papers, texts, nextId, fts)
    }

    /** The index agrees with the tables, and foreign keys resolve. */
    ghost predicate Synced()
      reads this
    {
      fts == Index(View()) && Reachable(View())
    }

    constructor ()
      ensures Synced() && View() == EMPTY_TABLES
    {
      papers, texts, nextId, fts := map[], map[], 1, map[];
    }

    // ---- the index's own statements --------------------------------------

    /** Inserting a rowid that is there is a constraint error; no trigger does. */
    method FtsInsert(p: int)
      requires p in papers && p !in fts
      modifies this`fts
      ensures fts == old(fts)[p := IndexRow(View(), p)]
    {
      var row := papers[p];
      var text := "";
      if p in texts {
        text := texts[p].text;
      }
      fts := fts[p := FtsRow(p, Coalesce(row.title), Coalesce(row.authors), Coalesce(row.abst), Coalesce(row.short),
                             Coalesce(row.long), text)];
    }

    method FtsDelete(p: int)
      modifies this`fts
      ensures fts == old(fts) - {p}
    {
      fts := fts - {p};
    }

    method FtsSetText(p: int, text: string)
      modifies this`fts
      ensures fts == if p in old(fts) then old(fts)[p := old(fts)[p].(text := text)] else old(fts)
    {
      if p in fts {
        fts := fts[p := fts[p].(text := text)];
      }
    }

    // ---- statements with their triggers ----------------------------------

    method DoInsertPaper(row: PaperRow) returns (ok: bool)
      requires Synced()
      modifies this
      ensures Synced() && View() == Effect(old(View()), InsertPaper(row))
      ensures ok <==> Accepts(old(All()), InsertPaper(row))
      ensures if ok then Writes(old(All()), InsertPaper(row), All()) else All() == old(All())
    {
      StatementWrites(View(), InsertPaper(row));
      ok := !exists q :: q in papers && q != nextId && papers[q].sha == row.sha;
      if !ok {
        return;
      }
      var p := nextId;
      papers, nextId := papers[p := row], nextId + 1;
      FtsInsert(p);
    }

    method DoUpdatePaper(p: int, row: PaperRow) returns (ok: bool)
      requires Synced()
      modifies this
      ensures Synced() && View() == Effect(old(View()), UpdatePaper(p, row))
      ensures ok <==> Accepts(old(All()), UpdatePaper(p, row))
      ensures if ok then Writes(old(All()), UpdatePaper(p, row), All()) else All() == old(All())
    {
      StatementWrites(View(), UpdatePaper(p, row));
      if p !in papers {
        return true;
      }
      ok := !exists q :: q in papers && q != p && papers[q].sha == row.sha;
      if !ok {
        return;
      }
      papers := papers[p := row];
      FtsDelete(p);
      FtsInsert(p);
      IndexRenewed(old(View()), View(), p);
    }

    /** The cascade to paper_texts fires its own trigger, before or after the paper's. */
    method DoDeletePaper(p: int, textFirst: bool)
      requires Synced()
      modifies this
      ensures Synced() && View() == Effect(old(View()), DeletePaper(p, textFirst))
      ensures Writes(old(All()), DeletePaper(p, textFirst), All())
    {
      StatementWrites(View(), DeletePaper(p, textFirst));
      if p !in papers {
        assert papers - {p} == papers && texts - {p} == texts;
        return;
      }
      papers := papers - {p};
      if textFirst {
        CascadeText(p);
      }
      FtsDelete(p);
      if !textFirst {
        CascadeText(p);
      }
    }

    method CascadeText(p: int)
      modifies this`texts, this`fts
      ensures texts == old(texts) - {p}
      ensures fts == if p in old(texts) && p in old(fts) then old(fts)[p := old(fts)[p].(text := "")] else old(fts)
    {
      if p in texts {
        texts := texts - {p};
        FtsSetText(p, "");
      } else {
        assert texts - {p} == texts;
      }
    }

    method DoInsertText(p: int, text: TextRow) returns (ok: bool)
      requires Synced()
      modifies this
      ensures Synced() && View() == Effect(old(View()), InsertText(p, text))
      ensures ok <==> Accepts(old(All()), InsertText(p, text))
      ensures if ok then Writes(old(All()), InsertText(p, text), All()) else All() == old(All())
    {
      StatementWrites(View(), InsertText(p, text));
      ok := p !in texts && p in papers;
      if ok {
        texts := texts[p := text];
        FtsSetText(p, text.text);
      }
    }

    /** An insert whose conflict turns into an update. */
    method DoUpsertText(p: int, text: TextRow) returns (ok: bool)
      requires Synced()
      modifies this
      ensures Synced() && View() == Effect(old(View()), UpsertText(p, text))
      ensures ok <==> Accepts(old(All()), UpsertText(p, text))
      ensures if ok then Writes(old(All()), UpsertText(p, text), All()) else All() == old(All())
    {
      StatementWrites(View(), UpsertText(p, text));
      if p in texts {
        DoUpdateText(p, text);
        ok := true;
      } else {
        ok := DoInsertText(p, text);
      }
    }

    method DoUpdateText(p: int, text: TextRow)
      requires Synced()
      modifies this
      ensures Synced() && View() == Effect(old(View()), UpdateText(p, text))
      ensures Writes(old(All()), UpdateText(p, text), All())
    {
      StatementWrites(View(), UpdateText(p, text));
      if p in texts {
        texts := texts[p := text];
        FtsSetText(p, text.text);
      }
    }

    method DoDeleteText(p: int)
      requires Synced()
      modifies this
      ensures Synced() && View() == Effect(old(View()), DeleteText(p))
      ensures Writes(old(All()), DeleteText(p), All())
    {
      StatementWrites(View(), DeleteText(p));
      CascadeText(p);
    }

    method Perform(s: Statement)
      requires Synced()
      modifies this
      ensures Synced() && View() == Effect(old(View()), s)
    {
      var ok: bool;
      match s
      case InsertPaper(row) => ok := DoInsertPaper(row);
      case UpdatePaper(p, row) => ok := DoUpdatePaper(p, row);
      case DeletePaper(p, textFirst) => DoDeletePaper(p, textFirst);
      case InsertText(p, text) => ok := DoInsertText(p, text);
      case UpsertText(p, text) => ok := DoUpsertText(p, text);
      case UpdateText(p, text) => DoUpdateText(p, text);
      case DeleteText(p) => DoDeleteText(p);
    }
  }

  /** After any sequence of statements on an empty library, with cascades in either
      order, the index is the one computed afresh from the tables. */
  method Replay(statements: seq<Statement>) returns (lib: Library)
    ensures fresh(lib) && lib.Synced() && lib.View() == Effects(EMPTY_TABLES, statements)
    ensures lib.fts == Index(Effects(EMPTY_TABLES, statements))
  {
    lib := new Library();
    assert Effects(EMPTY_TABLES, statements[..0]) == EMPTY_TABLES;
    for i := 0 to |statements|
      invariant fresh(lib) && lib.Synced() && lib.View() == Effects(EMPTY_TABLES, statements[..i])
    {
      assert statements[..i + 1][..i] == statements[..i];
      lib.Perform(statements[i]);
    }
    assert statements[..|statements|] == statements;
  }
}
