/** What one ingest attempt keeps wherever it fails, how it ends when nothing fails, and the
    two windows where a resumed attempt differs from an uninterrupted one. */
module IngestRuns {
  import opened Wrappers
  import opened Ingest

  const EMPTY_WORLD := World(map[], map[], 1, map[], {}, {}, [])

  // ---- the invariant -------------------------------------------------------

  /** Completed steps are a prefix of the pipeline; a job done other than as a
      duplicate has completed all five. */
  ghost predicate JobSound(job: Job) {
    && job.steps <= ORDER
    && (job.state.Done? && !job.duplicate ==> job.steps == ORDER)
  }

  // The quantified facts go through small named predicates, so that a proof uses
  // them one job or one paper at a time.

  ghost predicate SoundAt(w: World, j: string) {
    j in w.jobs ==> JobSound(w.jobs[j])
  }

  ghost predicate Apart(w: World, p: int, q: int) {
    p in w.papers && q in w.papers && w.papers[p].sha == w.papers[q].sha ==> p == q
  }

  ghost predicate Issued(w: World, p: int) {
    p in w.papers ==> p < w.nextPaper
  }

  ghost predicate OnePaperPerHash(w: World) {
    (forall p :: Issued(w, p)) && (forall p, q :: Apart(w, p, q))
  }

  ghost predicate Sound(w: World) {
    (forall j :: SoundAt(w, j)) && OnePaperPerHash(w)
  }

  ghost predicate JobKept(w: World, w': World, k: string) {
    k in w.jobs ==> k in w'.jobs && w'.jobs[k] == w.jobs[k]
  }

  ghost predicate PaperKept(w: World, w': World, p: int) {
    p in w.papers ==> p in w'.papers && w'.papers[p].sha == w.papers[p].sha
  }

  /** What running part of job j may do to the world: other jobs are left alone,
      steps and papers only accumulate, and a paper keeps its hash. */
  ghost predicate Grows(w: World, w': World, j: string) {
    && j in w.jobs && w'.jobs.Keys == w.jobs.Keys
    && (forall k :: k != j ==> JobKept(w, w', k))
    && w.jobs[j].steps <= w'.jobs[j].steps
    && (forall p :: PaperKept(w, w', p))
  }

  /** Still in the middle of an attempt, with at least n steps done. */
  ghost predicate Midway(w: World, j: string, n: nat) {
    Sound(w) && j in w.jobs && !w.jobs[j].state.Done? && |w.jobs[j].steps| >= n
  }

  lemma GrowsTrans(a: World, b: World, c: World, j: string)
    requires Grows(a, b, j) && Grows(b, c, j)
    ensures Grows(a, c, j)
  {
    forall k | k != j
      ensures JobKept(a, c, k)
    {
      assert JobKept(a, b, k) && JobKept(b, c, k);
    }
    forall p
      ensures PaperKept(a, c, p)
    {
      assert PaperKept(a, b, p) && PaperKept(b, c, p);
    }
  }

  lemma PrefixMember(steps: seq<Step>, k: nat)
    requires steps <= ORDER && k < 5
    ensures ORDER[k] in steps <==> k < |steps|
  {
  }

  lemma MarkedPrefix(steps: seq<Step>, k: nat)
    requires steps <= ORDER && k < 5 && |steps| >= k
    ensures Marked(steps, ORDER[k]) <= ORDER && |Marked(steps, ORDER[k])| >= k + 1
    ensures steps <= Marked(steps, ORDER[k])
  {
  }

  // ---- single writes -------------------------------------------------------

  /** Writing one job row. */
  lemma JobPut(w: World, j: string, job: Job)
    requires Sound(w) && j in w.jobs && JobSound(job) && w.jobs[j].steps <= job.steps
    ensures Sound(SetJob(w, j, job)) && Grows(w, SetJob(w, j, job), j)
  {
    var w' := SetJob(w, j, job);
    forall k
      ensures SoundAt(w', k) && (k != j ==> JobKept(w, w', k))
    {
      assert SoundAt(w, k);
    }
    SamePapers(w, w');
  }

  lemma SamePapers(w: World, w': World)
    requires w'.papers == w.papers && w'.nextPaper == w.nextPaper
    ensures forall p :: PaperKept(w, w', p)
    ensures OnePaperPerHash(w) ==> OnePaperPerHash(w')
  {
    if OnePaperPerHash(w) {
      forall p
        ensures Issued(w', p)
      {
        assert Issued(w, p);
      }
      forall p, q
        ensures Apart(w', p, q)
      {
        assert Apart(w, p, q);
      }
    }
  }

  /** Writing anything but jobs and papers. */
  lemma ElsewherePut(w: World, w': World, j: string)
    requires Sound(w) && j in w.jobs && w'.jobs == w.jobs && w'.papers == w.papers && w'.nextPaper == w.nextPaper
    ensures Sound(w') && Grows(w, w', j)
  {
    SamePapers(w, w');
    forall k
      ensures SoundAt(w', k) && JobKept(w, w', k)
    {
      assert SoundAt(w, k);
    }
  }

  /** Writing one paper row: an existing one keeps its hash, a new one has a hash of
      its own and the next id. */
  lemma PaperPut(w: World, j: string, p: int, paper: Paper, w': World)
    requires Sound(w) && j in w.jobs
    requires w'.jobs == w.jobs && w'.papers == w.papers[p := paper]
    requires (p in w.papers && paper.sha == w.papers[p].sha && w'.nextPaper == w.nextPaper)
             || (p == w.nextPaper && FindBySha(w, paper.sha).None? && w'.nextPaper == p + 1)
    ensures Sound(w') && Grows(w, w', j)
  {
    forall k
      ensures SoundAt(w', k) && JobKept(w, w', k)
    {
      assert SoundAt(w, k);
    }
    assert Issued(w, p);
    forall q
      ensures Issued(w', q) && PaperKept(w, w', q)
    {
      assert Issued(w, q);
    }
    forall q, r
      ensures Apart(w', q, r)
    {
      assert Apart(w, q, r);
      assert p !in w.papers ==> !HasSha(w, q, paper.sha) && !HasSha(w, r, paper.sha);
    }
  }

  lemma StatePut(w: World, j: string, s: JobState, n: nat)
    requires Midway(w, j, n) && !s.Done?
    ensures Midway(SetState(w, j, s), j, n) && Grows(w, SetState(w, j, s), j)
  {
    assert SoundAt(w, j);
    JobPut(w, j, w.jobs[j].(state := s));
  }

  lemma MarkPut(w: World, j: string, k: nat)
    requires Midway(w, j, k) && k < 5
    ensures Midway(MarkStep(w, j, ORDER[k]), j, k + 1) && Grows(w, MarkStep(w, j, ORDER[k]), j)
  {
    assert SoundAt(w, j);
    MarkedPrefix(w.jobs[j].steps, k);
    JobPut(w, j, w.jobs[j].(steps := Marked(w.jobs[j].steps, ORDER[k])));
  }

  lemma Untouched(w: World, j: string)
    requires j in w.jobs
    ensures Grows(w, w, j)
  {
  }

  // ---- each step -----------------------------------------------------------

  /** Either way a step leaves the world sound; if it went through, n steps are done. */
  ghost predicate Leaves(w: World, w': World, j: string, n: nat) {
    Midway(w', j, n) && Grows(w, w', j)
  }

  lemma DownloadKeeps(w: World, fuel: nat, j: string, env: Env)
    requires Midway(w, j, 0)
    ensures var r := DownloadStep(w, fuel, j, env); Leaves(w, r.w, j, if r.Go? then 1 else 0)
  {
    var job := w.jobs[j];
    Untouched(w, j);
    assert SoundAt(w, j);
    if OnDisk(w, job).Some? {
      PrefixMember(job.steps, 0);
    } else if fuel > 0 {
      var w1 := SetState(w, j, Downloading);
      StatePut(w, j, Downloading, 0);
      LocateKeeps(w, w1, fuel - 1, job, j, env);
      LocatedKeeps(w, fuel, j, env, Locate(w1, fuel - 1, job, env));
    }
  }

  lemma LocatedKeeps(w: World, fuel: nat, j: string, env: Env, r: Exec<Fetched>)
    requires j in w.jobs && OnDisk(w, w.jobs[j]).None? && fuel > 0
    requires r == Locate(SetState(w, j, Downloading), fuel - 1, w.jobs[j], env)
    requires Leaves(w, r.w, j, 0)
    ensures var d := DownloadStep(w, fuel, j, env); Leaves(w, d.w, j, if d.Go? then 1 else 0)
  {
    if r.Go? {
      DownloadMarked(w, r.w, j, r.value);
    }
  }

  lemma LocateKeeps(w0: World, w: World, fuel: nat, job: Job, j: string, env: Env)
    requires Midway(w, j, 0) && Grows(w0, w, j)
    ensures Leaves(w0, Locate(w, fuel, job, env).w, j, 0)
  {
    ElsewherePut(w, Locate(w, fuel, job, env).w, j);
    GrowsTrans(w0, w, Locate(w, fuel, job, env).w, j);
  }

  lemma DownloadMarked(w0: World, w: World, j: string, got: Fetched)
    requires Midway(w, j, 0) && Grows(w0, w, j)
    ensures var w1 := SetJob(w, j, w.jobs[j].(sha := Some(got.sha)));
            var w2 := SetJob(w1, j, w1.jobs[j].(steps := Marked(w1.jobs[j].steps, Download), artSha := Some(got.sha),
                                                artSource := Or(got.source, w1.jobs[j].artSource)));
            Leaves(w0, w1, j, 0) && Leaves(w0, w2, j, 1)
  {
    assert SoundAt(w, j);
    MarkedPrefix(w.jobs[j].steps, 0);
    var w1 := SetJob(w, j, w.jobs[j].(sha := Some(got.sha)));
    JobPut(w, j, w1.jobs[j]);
    var job := w1.jobs[j].(steps := Marked(w1.jobs[j].steps, Download), artSha := Some(got.sha),
                           artSource := Or(got.source, w1.jobs[j].artSource));
    JobPut(w1, j, job);
    GrowsTrans(w0, w, w1, j);
    GrowsTrans(w0, w1, SetJob(w1, j, job), j);
  }

  lemma ExtractKeeps(w: World, fuel: nat, j: string, p: int, env: Env)
    requires Midway(w, j, 1)
    ensures var r := ExtractStep(w, fuel, j, p, env);
            Leaves(w, r.w, j, if r.Go? then 2 else 1)
  {
    var w1 := SetState(w, j, Extracting);
    Untouched(w, j);
    StatePut(w, j, Extracting, 1);
    if env.text.Some? {
      var w2 := w1.(texts := w1.texts[p := env.text.value]);
      ElsewherePut(w1, w2, j);
      GrowsTrans(w, w1, w2, j);
      MarkPut(w2, j, 1);
      GrowsTrans(w, w2, MarkStep(w2, j, Extract), j);
    }
  }

  lemma IndexKeeps(w: World, fuel: nat, j: string, sha: string, env: Env)
    requires Midway(w, j, 2)
    ensures var r := IndexStep(w, fuel, j, sha, env);
            Leaves(w, r.w, j, if r.Go? then 3 else 2)
  {
    Untouched(w, j);
    assert SoundAt(w, j);
    PrefixMember(w.jobs[j].steps, 2);
    var w1 := SetState(w, j, Indexing);
    StatePut(w, j, Indexing, 2);
    var w2 := if env.treeBuilt then w1.(trees := w1.trees + {sha}) else w1;
    ElsewherePut(w1, w2, j);
    GrowsTrans(w, w1, w2, j);
    MarkPut(w2, j, 2);
    GrowsTrans(w, w2, MarkStep(w2, j, Index), j);
  }

  /** The tagging call is made only when the step is not marked, once. */
  lemma TagKeeps(w: World, fuel: nat, j: string, p: int, env: Env)
    requires Midway(w, j, 3)
    ensures var r := TagStep(w, fuel, j, p, env);
            && Leaves(w, r.w, j, if r.Go? then 4 else 3)
            && (r.w.tagCalls == w.tagCalls || (Tag !in w.jobs[j].steps && r.w.tagCalls == w.tagCalls + [j]))
  {
    Untouched(w, j);
    assert SoundAt(w, j);
    PrefixMember(w.jobs[j].steps, 3);
    var w1 := SetState(w, j, Tagging);
    StatePut(w, j, Tagging, 3);
    var w2 := w1.(tagCalls := w1.tagCalls + [j]);
    ElsewherePut(w1, w2, j);
    GrowsTrans(w, w1, w2, j);
    if p in w.papers && env.extraction.Some? {
      var paper, said := w.papers[p], env.extraction.value;
      var tagged := paper.(biblio := Updated(paper.biblio, OnlyMissing(paper.biblio, said.biblio)),
                           summary := Some(said.summary));
      var w3 := w2.(papers := w2.papers[p := tagged]);
      PaperPut(w2, j, p, tagged, w3);
      GrowsTrans(w, w2, w3, j);
      MarkPut(w3, j, 3);
      GrowsTrans(w, w3, MarkStep(w3, j, Tag), j);
    }
  }

  lemma EmbedKeeps(w: World, fuel: nat, j: string, p: int, env: Env)
    requires Midway(w, j, 4)
    ensures var r := EmbedStep(w, fuel, j, p, env);
            Leaves(w, r.w, j, if r.Go? then 5 else 4)
  {
    Untouched(w, j);
    assert SoundAt(w, j);
    PrefixMember(w.jobs[j].steps, 4);
    var w1 := SetState(w, j, Embedding);
    StatePut(w, j, Embedding, 4);
    MarkPut(w1, j, 4);
    GrowsTrans(w, w1, MarkStep(w1, j, Embed), j);
  }

  lemma ClaimKeeps(w: World, fuel: nat, j: string, got: Fetched)
    requires Midway(w, j, 1)
    ensures var r := ClaimPaper(w, fuel, j, got);
            && Leaves(w, r.w, j, 1)
            && (r.Go? ==>
                  !r.w.jobs[j].duplicate && HasSha(r.w, r.value, got.sha) && r.w.jobs[j].paperId == Some(r.value))
  {
    Untouched(w, j);
    var existing := FindBySha(w, got.sha);
    var p := if existing.Some? then existing.value else w.nextPaper;
    var paper := Paper(got.sha, got.source, NO_BIBLIO, None);
    var made := w.(papers := w.papers[p := paper], nextPaper := p + 1);
    var w1 := if existing.Some? then w else made;
    if existing.None? {
      PaperPut(w, j, p, paper, made);
    }
    assert SoundAt(w1, j);
    var job := w1.jobs[j].(paperId := Some(p), sha := Some(got.sha), duplicate := false);
    JobPut(w1, j, job);
    GrowsTrans(w, w1, SetJob(w1, j, job), j);
  }

  lemma MetaKeeps(w: World, fuel: nat, j: string, p: int, meta: Option<Biblio>)
    requires Midway(w, j, 1)
    ensures var r := WriteMeta(w, fuel, p, meta);
            Leaves(w, r.w, j, 1)
  {
    Untouched(w, j);
    if meta.Some? && p in w.papers {
      var paper := w.papers[p].(biblio := Updated(w.papers[p].biblio, meta.value));
      PaperPut(w, j, p, paper, w.(papers := w.papers[p := paper]));
    }
  }

  // ---- a whole attempt -----------------------------------------------------

  /** How the log of tagging calls may grow while job j runs. */
  ghost predicate AtMostOneCall(w: World, w': World, j: string) {
    || w'.tagCalls == w.tagCalls
    || (j in w.jobs && Tag !in w.jobs[j].steps && w'.tagCalls == w.tagCalls + [j])
  }

  lemma TagLater(a: World, b: World, j: string)
    requires Grows(a, b, j)
    ensures Tag in a.jobs[j].steps ==> Tag in b.jobs[j].steps
  {
  }

  /** A stretch of the pipeline, from w0 to where it stopped or went on. */
  ghost predicate Stretch(w0: World, w: World, j: string) {
    Sound(w) && Grows(w0, w, j) && AtMostOneCall(w0, w, j)
  }

  /** The end of an attempt that ran all its steps. */
  ghost predicate Completed(w: World, j: string) {
    j in w.jobs && w.jobs[j].state.Done? && w.jobs[j].steps == ORDER
  }

  lemma EmbedOnward(w0: World, w: World, fuel: nat, j: string, p: int, env: Env)
    requires Midway(w, j, 4) && Grows(w0, w, j) && AtMostOneCall(w0, w, j)
    ensures var r := EmbedOn(w, fuel, j, p, env);
            && Stretch(w0, r.w, j)
            && (r.Go? ==> Completed(r.w, j) && r.w.jobs[j].duplicate == w.jobs[j].duplicate)
  {
    EmbedKeeps(w, fuel, j, p, env);
    var e := EmbedStep(w, fuel, j, p, env);
    GrowsTrans(w0, w, e.w, j);
    if e.Go? {
      assert SoundAt(e.w, j);
      assert e.w.jobs[j].steps == ORDER;
      JobPut(e.w, j, e.w.jobs[j].(state := Done));
      GrowsTrans(w0, e.w, SetState(e.w, j, Done), j);
    }
  }

  lemma TagOnward(w0: World, w: World, fuel: nat, j: string, p: int, env: Env)
    requires Midway(w, j, 3) && Grows(w0, w, j) && w.tagCalls == w0.tagCalls
    ensures var r := TagOn(w, fuel, j, p, env);
            && Stretch(w0, r.w, j)
            && (r.Go? ==> Completed(r.w, j) && r.w.jobs[j].duplicate == w.jobs[j].duplicate)
  {
    TagLater(w0, w, j);
    TagKeeps(w, fuel, j, p, env);
    var t := TagStep(w, fuel, j, p, env);
    GrowsTrans(w0, w, t.w, j);
    if t.Go? {
      EmbedOnward(w0, t.w, t.fuel, j, p, env);
    }
  }

  lemma IndexOnward(w0: World, w: World, fuel: nat, j: string, p: int, sha: string, env: Env)
    requires Midway(w, j, 2) && Grows(w0, w, j) && w.tagCalls == w0.tagCalls
    ensures var r := IndexOn(w, fuel, j, p, sha, env);
            && Stretch(w0, r.w, j)
            && (r.Go? ==> Completed(r.w, j) && r.w.jobs[j].duplicate == w.jobs[j].duplicate)
  {
    IndexKeeps(w, fuel, j, sha, env);
    var i := IndexStep(w, fuel, j, sha, env);
    GrowsTrans(w0, w, i.w, j);
    if i.Go? {
      TagOnward(w0, i.w, i.fuel, j, p, env);
    }
  }

  lemma ExtractOnward(w0: World, w: World, fuel: nat, j: string, p: int, sha: string, env: Env)
    requires Midway(w, j, 1) && Grows(w0, w, j) && w.tagCalls == w0.tagCalls
    ensures var r := ExtractOn(w, fuel, j, p, sha, env);
            && Stretch(w0, r.w, j)
            && (r.Go? ==> Completed(r.w, j) && r.w.jobs[j].duplicate == w.jobs[j].duplicate)
  {
    ExtractKeeps(w, fuel, j, p, env);
    var x := ExtractStep(w, fuel, j, p, env);
    GrowsTrans(w0, w, x.w, j);
    if x.Go? {
      IndexOnward(w0, x.w, x.fuel, j, p, sha, env);
    }
  }

  lemma ProcessKeeps(w0: World, w: World, fuel: nat, j: string, p: int, got: Fetched, env: Env)
    requires Midway(w, j, 1) && Grows(w0, w, j) && w.tagCalls == w0.tagCalls
    ensures var r := Process(w, fuel, j, p, got, env);
            && Stretch(w0, r.w, j)
            && (r.Go? ==> Completed(r.w, j) && r.w.jobs[j].duplicate == w.jobs[j].duplicate && r.value.Finished?)
  {
    MetaKeeps(w, fuel, j, p, got.meta);
    var m := WriteMeta(w, fuel, p, got.meta);
    GrowsTrans(w0, w, m.w, j);
    if m.Go? {
      ExtractOnward(w0, m.w, m.fuel, j, p, got.sha, env);
    }
  }

  lemma ShortCircuitKeeps(w0: World, w: World, fuel: nat, j: string, sha: string, p: int)
    requires Midway(w, j, 1) && Grows(w0, w, j) && w.tagCalls == w0.tagCalls
    ensures var r := ShortCircuit(w, fuel, j, sha, p);
            && Stretch(w0, r.w, j)
            && (r.Go? ==>
                  && r.value == DuplicateOf(p)
                  && r.w.jobs[j].state.Done? && r.w.jobs[j].duplicate && r.w.jobs[j].paperId == Some(p))
  {
    assert SoundAt(w, j);
    var job := w.jobs[j].(paperId := Some(p), sha := Some(sha), duplicate := true);
    var w1 := SetJob(w, j, job);
    JobPut(w, j, job);
    GrowsTrans(w0, w, w1, j);
    JobPut(w1, j, job.(state := Done));
    GrowsTrans(w0, w1, SetState(w1, j, Done), j);
  }

  /** How an attempt ends when it does not raise. */
  ghost predicate Ended(w: World, j: string, ending: Ending) {
    && j in w.jobs && w.jobs[j].state.Done?
    && match ending
       case Finished => w.jobs[j].steps == ORDER && !w.jobs[j].duplicate
       case DuplicateOf(p) => w.jobs[j].duplicate && w.jobs[j].paperId == Some(p)
  }

  /** What a run from w0 leaves behind, whether it went through or stopped. */
  ghost predicate Outcome(w0: World, r: Exec<Ending>, j: string) {
    match r
    case Go(w, _, ending) => Stretch(w0, w, j) && Ended(w, j, ending)
    case Stop(w) => Stretch(w0, w, j)
  }

  lemma PipelineKeeps(w0: World, w: World, fuel: nat, j: string, env: Env)
    requires Midway(w, j, 0) && Grows(w0, w, j) && w.tagCalls == w0.tagCalls
    ensures Outcome(w0, Pipeline(w, fuel, j, env), j)
  {
    DownloadKeeps(w, fuel, j, env);
    var d := DownloadStep(w, fuel, j, env);
    GrowsTrans(w0, w, d.w, j);
    if d.Go? {
      AfterDownloadKeeps(w0, d.w, d.fuel, j, d.value, env);
    }
  }

  lemma AfterDownloadKeeps(w0: World, w: World, fuel: nat, j: string, got: Fetched, env: Env)
    requires Midway(w, j, 1) && Grows(w0, w, j) && w.tagCalls == w0.tagCalls
    ensures var r := AfterDownload(w, fuel, j, got, env);
            Stretch(w0, r.w, j) && (r.Go? ==> Ended(r.w, j, r.value))
  {
    var existing := FindBySha(w, got.sha);
    if existing.Some? && Extract !in w.jobs[j].steps {
      ShortCircuitKeeps(w0, w, fuel, j, got.sha, existing.value);
    } else {
      ClaimKeeps(w, fuel, j, got);
      var c := ClaimPaper(w, fuel, j, got);
      GrowsTrans(w0, w, c.w, j);
      if c.Go? {
        ProcessKeeps(w0, c.w, c.fuel, j, c.value, got, env);
      }
    }
  }

  lemma SettledKeeps(w: World, r: Exec<Ending>, j: string, killed: bool, w': World, ending: Option<Ending>)
    requires Outcome(w, r, j)
    requires w' == Settled(r, j, killed).0 && ending == Settled(r, j, killed).1
    ensures Stretch(w, w', j)
    ensures ending.Some? ==> Ended(w', j, ending.value)
    ensures ending.None? && !killed ==> w'.jobs[j].state.Failed?
  {
    if r.Stop? && !killed {
      assert SoundAt(r.w, j);
      JobPut(r.w, j, r.w.jobs[j].(state := Failed));
      GrowsTrans(w, r.w, SetState(r.w, j, Failed), j);
    }
  }

  lemma CountedKeeps(w: World, j: string)
    requires Sound(w) && j in w.jobs && !w.jobs[j].state.Done?
    ensures Midway(Counted(w, j), j, 0) && Grows(w, Counted(w, j), j)
  {
    assert SoundAt(w, j);
    JobPut(w, j, w.jobs[j].(attempts := w.jobs[j].attempts + 1));
  }

  /** One attempt at a job that is not done, failing wherever it may: the invariant holds, only
      this job's row changes, its steps only extend, and the tagging call is made at
      most once and only if the attempt began without the tag step. */
  lemma AttemptKeeps(w: World, j: string, env: Env, w': World, ending: Option<Ending>)
    requires Sound(w) && j in w.jobs && !w.jobs[j].state.Done?
    requires w' == Attempt(w, j, env).0 && ending == Attempt(w, j, env).1
    ensures Stretch(w, w', j)
    ensures ending.Some? ==> Ended(w', j, ending.value)
    ensures ending.None? && env.counted && !env.killed ==> w'.jobs[j].state.Failed?
  {
    if !env.counted {
      Untouched(w, j);
    } else {
      RunKeeps(w, Counted(w, j), j, env);
      PipelineSettled(w, Counted(w, j), j, env, w', ending);
    }
  }

  lemma RunKeeps(w: World, counted: World, j: string, env: Env)
    requires Sound(w) && j in w.jobs && !w.jobs[j].state.Done? && env.counted && counted == Counted(w, j)
    ensures Outcome(w, Pipeline(counted, env.budget, j, env), j)
  {
    CountedKeeps(w, j);
    PipelineKeeps(w, counted, env.budget, j, env);
  }

  lemma PipelineSettled(w: World, counted: World, j: string, env: Env, w': World, ending: Option<Ending>)
    requires j in w.jobs && env.counted && counted == Counted(w, j)
    requires Outcome(w, Pipeline(counted, env.budget, j, env), j)
    requires w' == Attempt(w, j, env).0 && ending == Attempt(w, j, env).1
    ensures Stretch(w, w', j)
    ensures ending.Some? ==> Ended(w', j, ending.value)
    ensures ending.None? && !env.killed ==> w'.jobs[j].state.Failed?
  {
    AttemptSettles(w, j, env);
    SettledKeeps(w, Pipeline(counted, env.budget, j, env), j, env.killed, w', ending);
  }

  lemma AttemptSettles(w: World, j: string, env: Env)
    requires j in w.jobs && env.counted
    ensures Attempt(w, j, env).0 == Settled(Pipeline(Counted(w, j), env.budget, j, env), j, env.killed).0
    ensures Attempt(w, j, env).1 == Settled(Pipeline(Counted(w, j), env.budget, j, env), j, env.killed).1
  {
  }

  // ---- what tagging may overwrite ------------------------------------------

  /** No bibliographic value already known is changed; a missing one can only take
      the model's value. */
  ghost predicate OnlyFilled(before: Biblio, after: Biblio, said: Biblio) {
    && (if TextKnown(before.title) then after.title == before.title else after.title == Or(said.title, before.title))
    && (if AuthorsKnown(before.authors) then after.authors == before.authors
        else after.authors == Or(said.authors, before.authors))
    && (if YearKnown(before.year) then after.year == before.year else after.year == Or(said.year, before.year))
    && (if TextKnown(before.venue) then after.venue == before.venue else after.venue == Or(said.venue, before.venue))
    && (if TextKnown(before.abst) then after.abst == before.abst else after.abst == Or(said.abst, before.abst))
  }

  lemma TaggingOnlyFills(w: World, fuel: nat, j: string, p: int, env: Env)
    requires j in w.jobs && p in w.papers
    ensures var r := TagStep(w, fuel, j, p, env);
            && r.w.papers.Keys == w.papers.Keys
            && (forall q :: q in w.papers && q != p ==> r.w.papers[q] == w.papers[q])
            && (r.w.papers[p] != w.papers[p] ==>
                  env.extraction.Some? && OnlyFilled(w.papers[p].biblio, r.w.papers[p].biblio,
                                                     env.extraction.value.biblio))
  {
  }

  // ---- when everything works -----------------------------------------------

  /** An attempt in which no collaborator and no write fails. */
  predicate Smooth(w: World, j: string, env: Env) {
    && j in w.jobs && env.counted && env.budget >= 19
    && Willing(env)
    && (OnDisk(w, w.jobs[j]).Some?
        || (if w.jobs[j].kind.Upload? then TextKnown(w.jobs[j].payload.sha) && w.jobs[j].payload.sha.value in w.files
            else TextKnown(w.jobs[j].payload.url) && env.resolve.Some?))
  }

  /** The hash the attempt works on. */
  function ShaOf(w: World, j: string, env: Env): string
    requires Smooth(w, j, env)
  {
    if OnDisk(w, w.jobs[j]).Some? then OnDisk(w, w.jobs[j]).value
    else if w.jobs[j].kind.Upload? then w.jobs[j].payload.sha.value
    else env.resolve.value.sha
  }

  /** The collaborators an attempt needs once it has the bytes. */
  predicate Willing(env: Env) {
    env.text.Some? && env.extraction.Some? && env.topicsApplied && (env.embeddable ==> env.vectorStored.Some?)
  }

  lemma SmoothDownload(w: World, j: string, env: Env)
    requires Smooth(w, j, env)
    ensures var r := DownloadStep(Counted(w, j), env.budget, j, env);
            && r.Go? && r.fuel >= env.budget - 4 && r.value.sha == ShaOf(w, j, env) && r.w.papers == w.papers
            && (Extract in r.w.jobs[j].steps <==> Extract in w.jobs[j].steps)
  {
  }

  /** The runs that went through all their steps. */
  ghost function Completes(): iset<Exec<Ending>> {
    iset r: Exec<Ending> | r.Go? && r.value.Finished?
  }

  lemma SmoothTagOn(w: World, fuel: nat, j: string, p: int, env: Env)
    requires j in w.jobs && p in w.papers && fuel >= 6 && Willing(env)
    ensures TagOn(w, fuel, j, p, env) in Completes()
  {
  }

  lemma SmoothIndexOn(w: World, fuel: nat, j: string, p: int, sha: string, env: Env)
    requires j in w.jobs && p in w.papers && fuel >= 8 && Willing(env)
    ensures IndexOn(w, fuel, j, p, sha, env) in Completes()
  {
    var i := IndexStep(w, fuel, j, sha, env);
    assert i.Go? && i.fuel >= fuel - 2;
    SmoothTagOn(i.w, i.fuel, j, p, env);
  }

  lemma SmoothProcess(w: World, fuel: nat, j: string, p: int, got: Fetched, env: Env)
    requires j in w.jobs && p in w.papers && fuel >= 12 && Willing(env)
    ensures Process(w, fuel, j, p, got, env) in Completes()
  {
    var m := WriteMeta(w, fuel, p, got.meta);
    assert m.Go? && m.fuel >= fuel - 1;
    var x := ExtractStep(m.w, m.fuel, j, p, env);
    assert x.Go? && x.fuel >= m.fuel - 3;
    SmoothIndexOn(x.w, x.fuel, j, p, got.sha, env);
  }

  lemma SmoothClaim(w: World, fuel: nat, j: string, got: Fetched)
    requires j in w.jobs && fuel >= 2
    ensures var r := ClaimPaper(w, fuel, j, got); r.Go? && r.fuel >= fuel - 2 && r.value in r.w.papers
  {
  }

  /** The run went through, and short-circuited or not as said. */
  ghost predicate EndsAs(r: Exec<Ending>, duplicate: bool) {
    r.Go? && (r.value.DuplicateOf? <==> duplicate)
  }

  lemma SmoothShortCircuit(w: World, fuel: nat, j: string, sha: string, p: int)
    requires j in w.jobs && fuel >= 2
    ensures EndsAs(ShortCircuit(w, fuel, j, sha, p), true)
  {
  }

  lemma SmoothAfterDownload(w: World, fuel: nat, j: string, got: Fetched, env: Env)
    requires j in w.jobs && fuel >= 14 && Willing(env)
    ensures var r := AfterDownload(w, fuel, j, got, env);
            EndsAs(r, FindBySha(w, got.sha).Some? && Extract !in w.jobs[j].steps)
  {
    var existing := FindBySha(w, got.sha);
    if existing.Some? && Extract !in w.jobs[j].steps {
      SmoothShortCircuit(w, fuel, j, got.sha, existing.value);
    } else {
      SmoothClaim(w, fuel, j, got);
      var c := ClaimPaper(w, fuel, j, got);
      SmoothProcess(c.w, c.fuel, j, c.value, got, env);
      assert AfterDownload(w, fuel, j, got, env) == Process(c.w, c.fuel, j, c.value, got, env);
    }
  }

  lemma SmoothPipeline(w: World, j: string, env: Env)
    requires Smooth(w, j, env)
    ensures EndsAs(Pipeline(Counted(w, j), env.budget, j, env), FindBySha(w, ShaOf(w, j, env)).Some?
                   && Extract !in w.jobs[j].steps)
  {
    SmoothDownload(w, j, env);
    var d := DownloadStep(Counted(w, j), env.budget, j, env);
    SameFind(w, d.w, d.value.sha);
    SmoothAfterDownload(d.w, d.fuel, j, d.value, env);
  }

  lemma SameFind(w: World, w': World, sha: string)
    requires w'.papers == w.papers
    ensures FindBySha(w', sha).Some? <==> FindBySha(w, sha).Some?
    ensures FindBySha(w, sha).Some? <==> exists p :: HasSha(w, p, sha)
  {
    if FindBySha(w', sha).Some? {
      assert HasSha(w, FindBySha(w', sha).value, sha);
    }
    if FindBySha(w, sha).Some? {
      assert HasSha(w', FindBySha(w, sha).value, sha);
    }
  }

  /** When nothing fails the job always ends done: as a duplicate exactly when a paper
      with the hash exists and this job has not marked extraction, otherwise with all
      five steps completed. */
  lemma SmoothAttemptEnds(w: World, j: string, env: Env, w': World, ending: Option<Ending>)
    requires Sound(w) && Smooth(w, j, env) && w.jobs[j].state.Queued?
    requires w' == Attempt(w, j, env).0 && ending == Attempt(w, j, env).1
    ensures ending.Some? && Ended(w', j, ending.value)
    ensures ending.value.DuplicateOf? <==> (exists p :: HasSha(w, p, ShaOf(w, j, env))) && Extract !in w.jobs[j].steps
  {
    AttemptKeeps(w, j, env, w', ending);
    SmoothPipeline(w, j, env);
    AttemptSettles(w, j, env);
    SameFind(w, w, ShaOf(w, j, env));
  }

  // ---- the two windows -----------------------------------------------------

  /** A fresh URL job, queued, whose document is not in the library yet. */
  ghost predicate FreshJob(w: World, j: string, sha: string) {
    && j in w.jobs && w.jobs[j].state.Queued? && w.jobs[j].kind.Url? && TextKnown(w.jobs[j].payload.url)
    && w.jobs[j].steps == [] && w.jobs[j].artSha.None? && w.jobs[j].artSource.None?
    && FindBySha(w, sha).None? && sha != ""
  }

  /** First window: extraction raises after the paper row was created. The retry finds
      its own paper, calls itself a duplicate, and ends done with no text extracted. */
  lemma SelfDuplicate(w: World, j: string, first: Env, second: Env, w1: World, w2: World, w3: World)
    requires Sound(w) && first.resolve.Some? && FreshJob(w, j, first.resolve.value.sha)
    requires first.text.None? && !first.killed && first.counted && first.budget >= 19
    requires second.counted && second.budget >= 19
    requires w1 == Attempt(w, j, first).0 && w2 == Retry(w1, j, true).0 && j in w2.jobs
    requires w3 == Attempt(w2, j, second).0
    ensures w1.jobs[j].state.Failed? && w2.jobs[j].state.Queued?
    ensures Attempt(w2, j, second).1 == Some(DuplicateOf(w.nextPaper))
    ensures w3.jobs[j].state.Done? && w3.jobs[j].duplicate && w3.jobs[j].steps == [Download]
    ensures w3.texts == w.texts && w3.tagCalls == w.tagCalls
  {
    FirstAttemptRaises(w, j, first, w1);
    SamePapers(w1, w2);
    SecondShortCircuits(w, w2, j, first.resolve.value.sha, second);
  }

  /** Where the first attempt leaves things when extraction raises. */
  lemma FirstAttemptRaises(w: World, j: string, env: Env, w1: World)
    requires Sound(w) && env.resolve.Some? && FreshJob(w, j, env.resolve.value.sha)
    requires env.text.None? && !env.killed && env.counted && env.budget >= 19
    requires w1 == Attempt(w, j, env).0
    ensures j in w1.jobs && w1.jobs[j].state.Failed? && w1.jobs[j].steps == [Download]
    ensures w1.jobs[j].artSha == Some(env.resolve.value.sha) && env.resolve.value.sha in w1.files
    ensures HasSha(w1, w.nextPaper, env.resolve.value.sha) && OnePaperPerHash(w1)
    ensures w1.texts == w.texts && w1.tagCalls == w.tagCalls
  {
    AttemptKeeps(w, j, env, w1, Attempt(w, j, env).1);
    var counted := Counted(w, j);
    SameFind(w, counted, env.resolve.value.sha);
    FirstDownload(counted, env.budget, j, env);
    var d := DownloadStep(counted, env.budget, j, env);
    SameFind(w, d.w, d.value.sha);
    FirstClaim(d.w, d.fuel, j, d.value, env);
  }

  lemma FirstClaim(w: World, fuel: nat, j: string, got: Fetched, env: Env)
    requires j in w.jobs && w.jobs[j].steps == [Download] && FindBySha(w, got.sha).None? && fuel >= 10 && env.text.None?
    ensures var r := AfterDownload(w, fuel, j, got, env);
            && r.Stop?
            && r.w.jobs[j].steps == [Download] && r.w.jobs[j].artSha == w.jobs[j].artSha && r.w.files == w.files
            && HasSha(r.w, w.nextPaper, got.sha) && r.w.texts == w.texts && r.w.tagCalls == w.tagCalls
  {
  }

  lemma FirstDownload(w: World, fuel: nat, j: string, env: Env)
    requires j in w.jobs && env.resolve.Some? && FreshJob(w, j, env.resolve.value.sha) && fuel >= 4
    ensures var r := DownloadStep(w, fuel, j, env);
            && r.Go? && r.fuel == fuel - 4
            && r.value == Fetched(env.resolve.value.sha, Some(env.resolve.value.source), env.resolve.value.meta)
            && r.w.files == w.files + {env.resolve.value.sha}
            && r.w.jobs[j].steps == [Download] && r.w.jobs[j].artSha == Some(env.resolve.value.sha)
  {
  }

  lemma SecondShortCircuits(w: World, w2: World, j: string, sha: string, env: Env)
    requires j in w2.jobs && w2.jobs[j].steps == [Download] && w2.jobs[j].artSha == Some(sha) && sha != ""
    requires sha in w2.files && HasSha(w2, w.nextPaper, sha) && OnePaperPerHash(w2) && env.counted && env.budget >= 19
    ensures var (w3, e3) := Attempt(w2, j, env);
            && e3 == Some(DuplicateOf(w.nextPaper)) && w3.jobs[j].state.Done? && w3.jobs[j].duplicate
            && w3.jobs[j].steps == [Download] && w3.texts == w2.texts && w3.tagCalls == w2.tagCalls
  {
    var counted := Counted(w2, j);
    assert OnDisk(counted, counted.jobs[j]) == Some(sha);
    assert HasSha(counted, w.nextPaper, sha);
    assert Apart(w2, FindBySha(counted, sha).value, w.nextPaper);
    assert FindBySha(counted, sha) == Some(w.nextPaper);
  }

  /** Second window: a resumed download never asks arXiv again, so nothing that the
      lookup would return, or did return before the interruption, can matter. */
  lemma ResumedIgnoresMetadata(w: World, fuel: nat, j: string, env: Env, other: Option<Resolved>)
    requires j in w.jobs && OnDisk(w, w.jobs[j]).Some?
    ensures Pipeline(w, fuel, j, env) == Pipeline(w, fuel, j, env.(resolve := other))
  {
    var d := DownloadStep(w, fuel, j, env);
    assert d == DownloadStep(w, fuel, j, env.(resolve := other));
    if d.Go? {
      AfterDownloadIgnores(d.w, d.fuel, j, d.value, env, other);
    }
  }

  lemma AfterDownloadIgnores(w: World, fuel: nat, j: string, got: Fetched, env: Env, other: Option<Resolved>)
    requires j in w.jobs
    ensures AfterDownload(w, fuel, j, got, env) == AfterDownload(w, fuel, j, got, env.(resolve := other))
  {
    var c := ClaimPaper(w, fuel, j, got);
    if c.Go? {
      ProcessIgnores(c.w, c.fuel, j, c.value, got, env, other);
    }
  }

  lemma ProcessIgnores(w: World, fuel: nat, j: string, p: int, got: Fetched, env: Env, other: Option<Resolved>)
    requires j in w.jobs
    ensures Process(w, fuel, j, p, got, env) == Process(w, fuel, j, p, got, env.(resolve := other))
  {
    var m := WriteMeta(w, fuel, p, got.meta);
    if m.Go? {
      var x := ExtractStep(m.w, m.fuel, j, p, env);
      assert x == ExtractStep(m.w, m.fuel, j, p, env.(resolve := other));
      if x.Go? {
        IndexIgnores(x.w, x.fuel, j, p, got.sha, env, other);
      }
    }
  }

  lemma IndexIgnores(w: World, fuel: nat, j: string, p: int, sha: string, env: Env, other: Option<Resolved>)
    requires j in w.jobs
    ensures IndexOn(w, fuel, j, p, sha, env) == IndexOn(w, fuel, j, p, sha, env.(resolve := other))
  {
    var i := IndexStep(w, fuel, j, sha, env);
    assert i == IndexStep(w, fuel, j, sha, env.(resolve := other));
    if i.Go? {
      TagIgnores(i.w, i.fuel, j, p, env, other);
    }
  }

  lemma TagIgnores(w: World, fuel: nat, j: string, p: int, env: Env, other: Option<Resolved>)
    requires j in w.jobs
    ensures TagOn(w, fuel, j, p, env) == TagOn(w, fuel, j, p, env.(resolve := other))
  {
    var t := TagStep(w, fuel, j, p, env);
    assert t == TagStep(w, fuel, j, p, env.(resolve := other));
    if t.Go? {
      assert EmbedStep(t.w, t.fuel, j, p, env) == EmbedStep(t.w, t.fuel, j, p, env.(resolve := other));
    }
  }

  /** A run that hits the second window: four writes succeed, so the download is marked
      and the paper row not yet made. What the lookup returned has left no trace: the
      world is the one a lookup without metadata would leave, and the job resumes. */
  lemma MetadataLost(w: World, j: string, env: Env, noMeta: Env)
    requires Sound(w) && env.resolve.Some? && FreshJob(w, j, env.resolve.value.sha) && env.counted && env.budget == 4
    requires noMeta == env.(resolve := Some(env.resolve.value.(meta := None)))
    ensures Attempt(w, j, env) == Attempt(w, j, noMeta)
    ensures var (w', ending) := Attempt(w, j, env);
            && ending == None && j in w'.jobs && w'.jobs[j].steps == [Download] && OnDisk(w', w'.jobs[j]).Some?
            && w'.papers == w.papers
  {
    var counted := Counted(w, j);
    SameFind(w, counted, env.resolve.value.sha);
    FirstDownload(counted, 4, j, env);
    FirstDownload(counted, 4, j, noMeta);
    var d := DownloadStep(counted, 4, j, env);
    assert d.w == DownloadStep(counted, 4, j, noMeta).w && d.fuel == 0;
    SameFind(w, d.w, d.value.sha);
    assert Pipeline(counted, 4, j, env) == Stop(d.w);
    assert Pipeline(counted, 4, j, noMeta) == Stop(d.w);
  }

  // ---- what a stopped run has not written ----------------------------------

  // No run of the steps writes the failed state, or the done state without finishing.

  ghost function Unfinished(j: string): iset<Exec<Ending>> {
    iset r: Exec<Ending> | r.Stop? ==> j in r.w.jobs && !r.w.jobs[j].state.Done? && !r.w.jobs[j].state.Failed?
  }

  ghost predicate Ongoing(w: World, j: string) {
    j in w.jobs && !w.jobs[j].state.Done? && !w.jobs[j].state.Failed?
  }

  lemma EmbedOnUnfinished(w: World, fuel: nat, j: string, p: int, env: Env)
    requires Ongoing(w, j)
    ensures EmbedOn(w, fuel, j, p, env) in Unfinished(j)
  {
  }

  lemma TagOnUnfinished(w: World, fuel: nat, j: string, p: int, env: Env)
    requires Ongoing(w, j)
    ensures TagOn(w, fuel, j, p, env) in Unfinished(j)
  {
    var t := TagStep(w, fuel, j, p, env);
    if t.Go? {
      EmbedOnUnfinished(t.w, t.fuel, j, p, env);
    }
  }

  lemma IndexOnUnfinished(w: World, fuel: nat, j: string, p: int, sha: string, env: Env)
    requires Ongoing(w, j)
    ensures IndexOn(w, fuel, j, p, sha, env) in Unfinished(j)
  {
    var i := IndexStep(w, fuel, j, sha, env);
    if i.Go? {
      TagOnUnfinished(i.w, i.fuel, j, p, env);
    }
  }

  lemma ProcessUnfinished(w: World, fuel: nat, j: string, p: int, got: Fetched, env: Env)
    requires Ongoing(w, j)
    ensures Process(w, fuel, j, p, got, env) in Unfinished(j)
  {
    var m := WriteMeta(w, fuel, p, got.meta);
    if m.Go? {
      var x := ExtractStep(m.w, m.fuel, j, p, env);
      if x.Go? {
        IndexOnUnfinished(x.w, x.fuel, j, p, got.sha, env);
      }
    }
  }

  lemma AfterDownloadUnfinished(w: World, fuel: nat, j: string, got: Fetched, env: Env)
    requires Ongoing(w, j)
    ensures AfterDownload(w, fuel, j, got, env) in Unfinished(j)
  {
    var c := ClaimPaper(w, fuel, j, got);
    if c.Go? {
      ProcessUnfinished(c.w, c.fuel, j, c.value, got, env);
    }
  }

  lemma PipelineUnfinished(w: World, fuel: nat, j: string, env: Env)
    requires Ongoing(w, j)
    ensures Pipeline(w, fuel, j, env) in Unfinished(j)
  {
    var d := DownloadStep(w, fuel, j, env);
    if d.Go? {
      AfterDownloadUnfinished(d.w, d.fuel, j, d.value, env);
    }
  }

  /** Updates never blank a column, say nothing when given nothing, and are the same twice. */
  lemma UpdatesKeep(held: Biblio, given: Biblio)
    ensures Updated(held, NO_BIBLIO) == held && Updated(NO_BIBLIO, given) == given
    ensures Updated(Updated(held, given), given) == Updated(held, given)
    ensures held.title.Some? ==> Updated(held, given).title.Some?
    ensures held.authors.Some? ==> Updated(held, given).authors.Some?
    ensures held.year.Some? ==> Updated(held, given).year.Some?
    ensures held.venue.Some? ==> Updated(held, given).venue.Some?
    ensures held.abst.Some? ==> Updated(held, given).abst.Some?
  {
  }
}
