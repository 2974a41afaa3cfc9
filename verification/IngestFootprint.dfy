/** How far an attempt reaches: one paper, that of the job's document, and what is stored
    under that document's hash. Every other paper, text, file and tree is as before. */
module IngestFootprint {
  import opened Wrappers
  import opened Ingest
  import opened IngestRuns

  /** Outside paper p and hash sha nothing has changed, and nothing was lost. */
  ghost predicate Reaches(w0: World, w: World, p: int, sha: string) {
    && w.papers - {p} == w0.papers - {p} && w.texts - {p} == w0.texts - {p}
    && w0.papers.Keys <= w.papers.Keys && w0.texts.Keys <= w.texts.Keys
    && w0.files <= w.files <= w0.files + {sha} && w0.trees <= w.trees <= w0.trees + {sha}
  }

  ghost function Within(w0: World, p: int, sha: string): iset<Exec<Ending>> {
    iset r: Exec<Ending> | Reaches(w0, r.w, p, sha)
  }

  lemma EmbedOnReaches(w0: World, w: World, fuel: nat, j: string, p: int, sha: string, env: Env)
    requires j in w.jobs && Reaches(w0, w, p, sha)
    ensures EmbedOn(w, fuel, j, p, env) in Within(w0, p, sha)
  {
  }

  lemma TagOnReaches(w0: World, w: World, fuel: nat, j: string, p: int, sha: string, env: Env)
    requires j in w.jobs && Reaches(w0, w, p, sha)
    ensures TagOn(w, fuel, j, p, env) in Within(w0, p, sha)
  {
    var t := TagStep(w, fuel, j, p, env);
    TagsOnlyIt(w, fuel, j, p, env);
    assert Reaches(w0, t.w, p, sha);
    if t.Go? {
      EmbedOnReaches(w0, t.w, t.fuel, j, p, sha, env);
    }
  }

  lemma TagsOnlyIt(w: World, fuel: nat, j: string, p: int, env: Env)
    requires j in w.jobs
    ensures TagStep(w, fuel, j, p, env).w.papers - {p} == w.papers - {p}
  {
  }

  lemma IndexOnReaches(w0: World, w: World, fuel: nat, j: string, p: int, sha: string, env: Env)
    requires j in w.jobs && Reaches(w0, w, p, sha)
    ensures IndexOn(w, fuel, j, p, sha, env) in Within(w0, p, sha)
  {
    var i := IndexStep(w, fuel, j, sha, env);
    assert Reaches(w0, i.w, p, sha);
    if i.Go? {
      TagOnReaches(w0, i.w, i.fuel, j, p, sha, env);
    }
  }

  lemma ExtractReaches(w0: World, w: World, fuel: nat, j: string, p: int, sha: string, env: Env)
    requires j in w.jobs && Reaches(w0, w, p, sha)
    ensures Reaches(w0, ExtractStep(w, fuel, j, p, env).w, p, sha)
  {
  }

  lemma ExtractOnReaches(w0: World, w: World, fuel: nat, j: string, p: int, sha: string, env: Env)
    requires j in w.jobs && Reaches(w0, w, p, sha)
    ensures ExtractOn(w, fuel, j, p, sha, env) in Within(w0, p, sha)
  {
    var x := ExtractStep(w, fuel, j, p, env);
    ExtractReaches(w0, w, fuel, j, p, sha, env);
    if x.Go? {
      IndexOnReaches(w0, x.w, x.fuel, j, p, sha, env);
    }
  }

  lemma ProcessReaches(w0: World, w: World, fuel: nat, j: string, p: int, got: Fetched, env: Env)
    requires j in w.jobs && Reaches(w0, w, p, got.sha)
    ensures Process(w, fuel, j, p, got, env) in Within(w0, p, got.sha)
  {
    var m := WriteMeta(w, fuel, p, got.meta);
    assert Reaches(w0, m.w, p, got.sha);
    if m.Go? {
      ExtractOnReaches(w0, m.w, m.fuel, j, p, got.sha, env);
    }
  }

  /** The paper an attempt works on: the one with the hash, or the next to be made. */
  ghost function PaperFor(w: World, sha: string): int {
    if FindBySha(w, sha).Some? then FindBySha(w, sha).value else w.nextPaper
  }

  lemma AfterDownloadReaches(w0: World, w: World, fuel: nat, j: string, got: Fetched, env: Env)
    requires j in w.jobs && Reaches(w0, w, PaperFor(w, got.sha), got.sha)
    ensures AfterDownload(w, fuel, j, got, env) in Within(w0, PaperFor(w, got.sha), got.sha)
  {
    var p := PaperFor(w, got.sha);
    if FindBySha(w, got.sha).Some? && Extract !in w.jobs[j].steps {
      assert Reaches(w0, ShortCircuit(w, fuel, j, got.sha, p).w, p, got.sha);
    } else {
      var c := ClaimPaper(w, fuel, j, got);
      assert Reaches(w0, c.w, p, got.sha);
      if c.Go? {
        ProcessReaches(w0, c.w, c.fuel, j, c.value, got, env);
      }
    }
  }

  // ---- a whole attempt -----------------------------------------------------

  /** The hash of the document an attempt gets hold of, if it gets hold of one. */
  function HashSought(w: World, j: string, env: Env): string
    requires j in w.jobs
  {
    var job := w.jobs[j];
    if OnDisk(w, job).Some? then OnDisk(w, job).value
    else if job.kind.Upload? then (if job.payload.sha.Some? then job.payload.sha.value else "")
    else if env.resolve.Some? then env.resolve.value.sha else ""
  }

  lemma DownloadReaches(w: World, fuel: nat, j: string, p: int, env: Env)
    requires j in w.jobs
    ensures var d := DownloadStep(w, fuel, j, env);
            && Reaches(w, d.w, p, HashSought(w, j, env)) && d.w.papers == w.papers && d.w.nextPaper == w.nextPaper
            && (d.Go? ==> d.value.sha == HashSought(w, j, env))
  {
  }

  lemma SamePaperFor(w: World, w': World, sha: string)
    requires OnePaperPerHash(w) && w'.papers == w.papers && w'.nextPaper == w.nextPaper
    ensures PaperFor(w', sha) == PaperFor(w, sha)
  {
    SameFind(w, w', sha);
    if FindBySha(w, sha).Some? {
      assert Apart(w, FindBySha(w, sha).value, FindBySha(w', sha).value);
    }
  }

  lemma PipelineReaches(w: World, fuel: nat, j: string, env: Env)
    requires j in w.jobs && OnePaperPerHash(w)
    ensures var sha := HashSought(w, j, env); Pipeline(w, fuel, j, env) in Within(w, PaperFor(w, sha), sha)
  {
    var sha := HashSought(w, j, env);
    DownloadReaches(w, fuel, j, PaperFor(w, sha), env);
    var d := DownloadStep(w, fuel, j, env);
    if d.Go? {
      SamePaperFor(w, d.w, sha);
      AfterDownloadReaches(w, d.w, d.fuel, j, d.value, env);
    }
  }

  /** Wherever an attempt fails or stops, it reaches no further than the one paper of its
      document, and it is undone nowhere else. */
  lemma AttemptReaches(w: World, j: string, env: Env, w': World)
    requires j in w.jobs && OnePaperPerHash(w) && w' == Attempt(w, j, env).0
    ensures var sha := HashSought(w, j, env); Reaches(w, w', PaperFor(w, sha), sha)
  {
    if env.counted {
      CountedReaches(w, Counted(w, j), j, env);
      AttemptSettles(w, j, env);
      SettledReaches(w, Pipeline(Counted(w, j), env.budget, j, env), j, env.killed, PaperFor(w, HashSought(w, j, env)),
                     HashSought(w, j, env));
    }
  }

  lemma CountedReaches(w: World, counted: World, j: string, env: Env)
    requires j in w.jobs && OnePaperPerHash(w) && counted == Counted(w, j)
    ensures var sha := HashSought(w, j, env); Pipeline(counted, env.budget, j, env) in Within(w, PaperFor(w, sha), sha)
  {
    SamePapers(w, counted);
    PipelineReaches(counted, env.budget, j, env);
    SamePaperFor(w, counted, HashSought(w, j, env));
  }

  lemma SettledReaches(w: World, r: Exec<Ending>, j: string, killed: bool, p: int, sha: string)
    requires r in Within(w, p, sha) && j in r.w.jobs
    ensures Reaches(w, Settled(r, j, killed).0, p, sha)
  {
  }

  // ---- what an ending needs ------------------------------------------------

  /** The bytes can be had: stored and marked, uploaded, or resolved from the URL. */
  predicate Obtainable(w: World, j: string, env: Env)
    requires j in w.jobs
  {
    var job := w.jobs[j];
    || OnDisk(w, job).Some?
    || (if job.kind.Upload? then TextKnown(job.payload.sha) && job.payload.sha.value in w.files
        else TextKnown(job.payload.url) && env.resolve.Some?)
  }

  /** Every collaborator whose step is not marked yet has delivered. */
  predicate Delivered(steps: seq<Step>, env: Env) {
    && env.text.Some?
    && (Tag !in steps ==> env.extraction.Some? && env.topicsApplied)
    && (Embed !in steps && env.embeddable ==> env.vectorStored.Some?)
  }

  ghost function Earned(steps: seq<Step>, env: Env): iset<Exec<Ending>> {
    iset r: Exec<Ending> | r.Go? ==> r.value.Finished? && Delivered(steps, env)
  }

  lemma TagOnEarned(w: World, fuel: nat, j: string, p: int, env: Env, steps: seq<Step>)
    requires j in w.jobs && env.text.Some? && (Tag in steps <==> Tag in w.jobs[j].steps)
    requires Embed in steps <==> Embed in w.jobs[j].steps
    ensures TagOn(w, fuel, j, p, env) in Earned(steps, env)
  {
  }

  lemma IndexOnEarned(w: World, fuel: nat, j: string, p: int, sha: string, env: Env, steps: seq<Step>)
    requires j in w.jobs && env.text.Some? && (Tag in steps <==> Tag in w.jobs[j].steps)
    requires Embed in steps <==> Embed in w.jobs[j].steps
    ensures IndexOn(w, fuel, j, p, sha, env) in Earned(steps, env)
  {
    var i := IndexStep(w, fuel, j, sha, env);
    if i.Go? {
      TagOnEarned(i.w, i.fuel, j, p, env, steps);
    }
  }

  lemma ProcessEarned(w: World, fuel: nat, j: string, p: int, got: Fetched, env: Env)
    requires j in w.jobs
    ensures Process(w, fuel, j, p, got, env) in Earned(w.jobs[j].steps, env)
  {
    var m := WriteMeta(w, fuel, p, got.meta);
    if m.Go? {
      var x := ExtractStep(m.w, m.fuel, j, p, env);
      if x.Go? {
        IndexOnEarned(x.w, x.fuel, j, p, got.sha, env, w.jobs[j].steps);
      }
    }
  }

  ghost predicate Deserved(w: World, sha: string, steps: seq<Step>, env: Env, ending: Ending) {
    match ending
    case Finished => Delivered(steps, env)
    case DuplicateOf(q) => HasSha(w, q, sha) && Extract !in steps
  }

  lemma AfterDownloadDeserved(w: World, fuel: nat, j: string, got: Fetched, env: Env)
    requires j in w.jobs
    ensures var r := AfterDownload(w, fuel, j, got, env);
            r.Go? ==> Deserved(w, got.sha, w.jobs[j].steps, env, r.value)
  {
    if !(FindBySha(w, got.sha).Some? && Extract !in w.jobs[j].steps) {
      var c := ClaimPaper(w, fuel, j, got);
      if c.Go? {
        ProcessEarned(c.w, c.fuel, j, c.value, got, env);
      }
    }
  }

  lemma DownloadObtains(w: World, fuel: nat, j: string, env: Env)
    requires j in w.jobs
    ensures var d := DownloadStep(w, fuel, j, env);
            d.Go? ==> Obtainable(w, j, env) && d.w.papers == w.papers && d.value.sha == HashSought(w, j, env)
                      && forall s :: s != Download ==> (s in d.w.jobs[j].steps <==> s in w.jobs[j].steps)
  {
  }

  lemma PipelineDeserved(w: World, fuel: nat, j: string, env: Env)
    requires j in w.jobs
    ensures var r := Pipeline(w, fuel, j, env);
            r.Go? ==> Obtainable(w, j, env) && Deserved(w, HashSought(w, j, env), w.jobs[j].steps, env, r.value)
  {
    DownloadObtains(w, fuel, j, env);
    var d := DownloadStep(w, fuel, j, env);
    if d.Go? {
      AfterDownloadDeserved(d.w, d.fuel, j, d.value, env);
    }
  }

  /** An attempt ends only if it was counted and got the bytes; it ends finished only if the
      text was extracted and every collaborator still needed delivered, and as a duplicate
      only of a paper with the document's hash. */
  lemma EndingNeeds(w: World, j: string, env: Env, ending: Option<Ending>)
    requires j in w.jobs && ending == Attempt(w, j, env).1
    ensures ending.Some? ==>
              && env.counted && Obtainable(w, j, env)
              && Deserved(w, HashSought(w, j, env), w.jobs[j].steps, env, ending.value)
  {
    if env.counted {
      PipelineDeserved(Counted(w, j), env.budget, j, env);
      AttemptSettles(w, j, env);
    }
  }

  // ---- metadata ------------------------------------------------------------

  predicate Prefers<T(==)>(after: Option<T>, given: Option<T>, before: Option<T>) {
    after == if given.Some? then given else before
  }

  /** Metadata from arXiv replaces what the paper had, column by column, where there is any. */
  lemma MetadataAuthoritative(w: World, fuel: nat, p: int, meta: Biblio)
    requires p in w.papers
    ensures var r := WriteMeta(w, fuel, p, Some(meta));
            && (r.Go? <==> fuel > 0) && (r.Stop? ==> r.w == w)
            && (r.Go? ==> p in r.w.papers && r.w.papers - {p} == w.papers - {p}
                          && var before, after := w.papers[p], r.w.papers[p];
                             && after == before.(biblio := after.biblio)
                             && Prefers(after.biblio.title, meta.title, before.biblio.title)
                             && Prefers(after.biblio.authors, meta.authors, before.biblio.authors)
                             && Prefers(after.biblio.year, meta.year, before.biblio.year)
                             && Prefers(after.biblio.venue, meta.venue, before.biblio.venue)
                             && Prefers(after.biblio.abst, meta.abst, before.biblio.abst))
  {
  }

  // ---- the retry route -----------------------------------------------------

  /** A retry is taken exactly for a failed job whose queue takes it; it changes the state of
      that row to queued and nothing else, and one not taken changes nothing. */
  lemma RetryOutcome(w: World, j: string, enqueued: bool)
    ensures var (w', ok) := Retry(w, j, enqueued);
            && (ok <==> j in w.jobs && w.jobs[j].state.Failed? && enqueued)
            && (!ok ==> w' == w)
            && (ok ==> j in w'.jobs && w'.jobs[j].state.Queued? && w'.jobs[j] == w.jobs[j].(state := Queued)
                       && w'.jobs - {j} == w.jobs - {j} && w' == w.(jobs := w'.jobs))
  {
    if j in w.jobs && w.jobs[j].state.Failed? {
      assert w.jobs[j := w.jobs[j].(state := Failed)] == w.jobs;
    }
  }
}
