/** Exactly when resuming ends as if nothing had failed: every job not yet started, after
    any number of attempts failing anywhere, with the two windows where it does not. */
module IngestWindows {
  import opened Wrappers
  import opened Ingest
  import opened IngestRuns
  import opened IngestResume

  /** What the first download of a job finds. */
  function Sought(job: Job, env: Env): Fetched
    requires if job.kind.Upload? then job.payload.sha.Some? else env.resolve.Some?
  {
    if job.kind.Upload? then Fetched(job.payload.sha.value, job.payload.source, None)
    else Fetched(env.resolve.value.sha, Some(env.resolve.value.source), env.resolve.value.meta)
  }

  /** A job that has not begun, whose document is not in the library, and what a good
      attempt at it would meet. */
  ghost predicate Unstarted(w: World, j: string, env: Env, got: Fetched) {
    && Smooth(w, j, env) && !w.jobs[j].state.Done? && w.jobs[j].steps == []
    && w.jobs[j].artSha.None? && w.jobs[j].artSource.None?
    && got == Sought(w.jobs[j], env) && got.sha != "" && FindBySha(w, got.sha).None?
  }

  /** A failed attempt's collaborators gave the answers of the good one, or none. */
  ghost predicate Echoes(some: Env, env: Env) {
    && Agrees(some, env)
    && (some.text.Some? ==> some.text == env.text) && (some.resolve.Some? ==> some.resolve == env.resolve)
  }

  function NoMeta(got: Fetched): Fetched {
    got.(meta := None)
  }

  /** The paper row as it stands before tagging. */
  function Made(got: Fetched): Paper {
    Paper(got.sha, got.source, if got.meta.Some? then Updated(NO_BIBLIO, got.meta.value) else NO_BIBLIO, None)
  }

  /** The library the job ends with when the download gave got. */
  function Library(w: World, j: string, got: Fetched, env: Env): World
    requires j in w.jobs && env.text.Some? && env.extraction.Some?
  {
    var p := w.nextPaper;
    w.(jobs := w.jobs[j := FinalJob(w.jobs[j].(artSha := Some(got.sha), artSource := got.source), p, got.sha)],
       papers := w.papers[p := Tagged(Made(got), env.extraction.value)], nextPaper := p + 1,
       texts := w.texts[p := env.text.value], files := w.files + {got.sha},
       trees := if env.treeBuilt then w.trees + {got.sha} else w.trees, tagCalls := [])
  }

  // ---- where failed attempts can leave the job -----------------------------

  /** Nothing marked: at most the bytes are stored and the hash noted. */
  ghost predicate Begun(w: World, v: World, j: string, got: Fetched) {
    && j in w.jobs && j in v.jobs && !v.jobs[j].state.Done?
    && (v.files == w.files || v.files == w.files + {got.sha})
    && v == w.(files := v.files,
               jobs := w.jobs[j := w.jobs[j].(state := v.jobs[j].state, attempts := v.jobs[j].attempts,
                                              sha := v.jobs[j].sha)])
  }

  /** The download marked, and no paper yet. */
  ghost predicate Downloaded(w: World, v: World, j: string, got: Fetched) {
    && j in w.jobs && j in v.jobs && !v.jobs[j].state.Done?
    && v == w.(files := w.files + {got.sha},
               jobs := w.jobs[j := w.jobs[j].(state := v.jobs[j].state, attempts := v.jobs[j].attempts,
                                              sha := Some(got.sha),
                                              steps := [Download], artSha := Some(got.sha), artSource := got.source)])
  }

  /** The paper made, and extraction not marked. */
  ghost predicate Stranded(v: World, j: string, sha: string) {
    && j in v.jobs && Extract !in v.jobs[j].steps && OnDisk(v, v.jobs[j]) == Some(sha) && FindBySha(v, sha).Some?
  }

  /** Extraction marked, heading for the library that got leads to. */
  ghost predicate Underway(w: World, v: World, j: string, got: Fetched, env: Env)
    requires j in w.jobs && env.text.Some? && env.extraction.Some?
  {
    && Ready(v, j, w.nextPaper, got.sha, 2)
    && Final(v, j, w.nextPaper, got.sha, env) == Library(w, j, got, env)
  }

  /** Where an attempt that found now can leave the job, got having been sought. */
  ghost predicate LeftWith(w: World, v: World, j: string, got: Fetched, now: Fetched, env: Env)
    requires j in w.jobs && env.text.Some? && env.extraction.Some?
  {
    Begun(w, v, j, got) || Downloaded(w, v, j, got) || Stranded(v, j, got.sha) || Underway(w, v, j, now, env)
  }

  ghost predicate Left(w: World, v: World, j: string, got: Fetched, env: Env)
    requires j in w.jobs && env.text.Some? && env.extraction.Some?
  {
    LeftWith(w, v, j, got, got, env) || LeftWith(w, v, j, got, NoMeta(got), env)
  }

  // ---- single rows ---------------------------------------------------------

  lemma RowBegun(w: World, v: World, j: string, got: Fetched, s: JobState, n: nat)
    requires Begun(w, v, j, got) && !s.Done?
    ensures Begun(w, SetJob(v, j, v.jobs[j].(state := s, attempts := n)), j, got)
  {
  }

  lemma RowDownloaded(w: World, v: World, j: string, got: Fetched, s: JobState, n: nat)
    requires Downloaded(w, v, j, got) && !s.Done?
    ensures Downloaded(w, SetJob(v, j, v.jobs[j].(state := s, attempts := n)), j, got)
  {
  }

  lemma RowStranded(v: World, j: string, sha: string, s: JobState, n: nat)
    requires Stranded(v, j, sha)
    ensures Stranded(SetJob(v, j, v.jobs[j].(state := s, attempts := n)), j, sha)
  {
    SameFind(v, SetJob(v, j, v.jobs[j].(state := s, attempts := n)), sha);
  }

  lemma DownloadedSound(w: World, v: World, j: string, got: Fetched)
    requires Sound(w) && Downloaded(w, v, j, got)
    ensures Midway(v, j, 1)
  {
    assert [Download] <= ORDER;
    SamePapers(w, v);
    forall k
      ensures SoundAt(v, k)
    {
      assert SoundAt(w, k);
    }
  }

  // ---- the download --------------------------------------------------------

  /** The download either goes through, or leaves nothing marked. */
  lemma DownloadFrom(w: World, v: World, fuel: nat, j: string, got: Fetched, some: Env, env: Env)
    requires Unstarted(w, j, env, got) && Begun(w, v, j, got) && Echoes(some, env)
    ensures var d := DownloadStep(v, fuel, j, some);
            if d.Go? then Downloaded(w, d.w, j, got) && d.value == got else Begun(w, d.w, j, got)
  {
    assert OnDisk(v, v.jobs[j]).None?;
    if fuel > 0 {
      RowBegun(w, v, j, got, Downloading, v.jobs[j].attempts);
      LocateFrom(w, SetState(v, j, Downloading), fuel - 1, j, v.jobs[j], got, some, env);
      DownloadRest(w, v, fuel, j, got, some, Locate(SetState(v, j, Downloading), fuel - 1, v.jobs[j], some));
    }
  }

  lemma DownloadRest(w: World, v: World, fuel: nat, j: string, got: Fetched, some: Env, l: Exec<Fetched>)
    requires j in v.jobs && j in w.jobs && w.jobs[j].steps == [] && w.jobs[j].artSource.None?
    requires OnDisk(v, v.jobs[j]).None? && fuel > 0
    requires l == Locate(SetState(v, j, Downloading), fuel - 1, v.jobs[j], some) && Begun(w, l.w, j, got)
    requires l.Go? ==> l.value == got && l.w.files == w.files + {got.sha}
    ensures var d := DownloadStep(v, fuel, j, some);
            if d.Go? then Downloaded(w, d.w, j, got) && d.value == got else Begun(w, d.w, j, got)
  {
    if l.Go? {
      MarksDownload(w, l.w, j, got);
    }
  }

  lemma MarksDownload(w: World, v: World, j: string, got: Fetched)
    requires Begun(w, v, j, got) && v.files == w.files + {got.sha} && w.jobs[j].steps == [] && w.jobs[j].artSource.None?
    ensures var v1 := SetJob(v, j, v.jobs[j].(sha := Some(got.sha)));
            var v2 := SetJob(v1, j, v1.jobs[j].(steps := Marked(v1.jobs[j].steps, Download), artSha := Some(got.sha),
                                                artSource := Or(got.source, v1.jobs[j].artSource)));
            Begun(w, v1, j, got) && Downloaded(w, v2, j, got)
  {
    var v1 := SetJob(v, j, v.jobs[j].(sha := Some(got.sha)));
    assert Marked([], Download) == [Download] && Or(got.source, None) == got.source;
    var job := v1.jobs[j].(steps := [Download], artSha := Some(got.sha), artSource := got.source);
    assert SetJob(v1, j, job).jobs == w.jobs[j := job];
  }

  lemma LocateFrom(w: World, v: World, fuel: nat, j: string, job: Job, got: Fetched, some: Env, env: Env)
    requires Unstarted(w, j, env, got) && Begun(w, v, j, got) && Echoes(some, env)
    requires job.kind == w.jobs[j].kind && job.payload == w.jobs[j].payload
    ensures var l := Locate(v, fuel, job, some);
            && Begun(w, l.w, j, got)
            && (l.Go? ==> l.value == got && l.w.files == w.files + {got.sha})
  {
    if job.kind.Upload? {
      assert w.files + {got.sha} == w.files;
    }
  }

  // ---- after the download --------------------------------------------------

  /** An opening that stops has either written nothing or made the paper. */
  lemma OpeningStops(v: World, fuel: nat, j: string, got: Fetched, some: Env)
    requires j in v.jobs && FindBySha(v, got.sha).None? && Extract !in v.jobs[j].steps
    requires OnDisk(v, v.jobs[j]) == Some(got.sha)
    requires Opening(v, fuel, j, got, some).Stop?
    ensures var r := Opening(v, fuel, j, got, some);
            r.w == v || Stranded(r.w, j, got.sha)
  {
    OpeningUnmarked(v, fuel, j, got, some);
    var c := ClaimPaper(v, fuel, j, got);
    if fuel > 0 {
      assert HasSha(c.w, v.nextPaper, got.sha) && OnDisk(c.w, c.w.jobs[j]) == Some(got.sha);
      if c.Go? {
        OpenPaperStops(c.w, c.fuel, j, c.value, got, some);
      }
    }
  }

  lemma OpenPaperStops(v: World, fuel: nat, j: string, p: int, got: Fetched, some: Env)
    requires j in v.jobs && HasSha(v, p, got.sha) && OnDisk(v, v.jobs[j]) == Some(got.sha)
    requires Extract !in v.jobs[j].steps
    requires OpenPaper(v, fuel, j, p, got, some).Stop?
    ensures Stranded(OpenPaper(v, fuel, j, p, got, some).w, j, got.sha)
  {
    var m := WriteMeta(v, fuel, p, got.meta);
    assert HasSha(m.w, p, got.sha);
    if m.Go? {
      var x := ExtractStep(m.w, m.fuel, j, p, some);
      assert HasSha(x.w, p, got.sha);
    }
  }

  /** The opening that goes through heads for the library its download leads to. */
  lemma OpeningTarget(w: World, v: World, fuel: nat, j: string, got: Fetched, now: Fetched, some: Env, env: Env)
    requires Sound(w) && Unstarted(w, j, env, got) && Downloaded(w, v, j, got) && Echoes(some, env)
    requires (now == got || now == NoMeta(got)) && Opening(v, fuel, j, now, some).Go?
    ensures var o := Opening(v, fuel, j, now, some);
            o.value == w.nextPaper && Underway(w, o.w, j, now, env)
  {
    SameFind(w, v, got.sha);
    DownloadedSound(w, v, j, got);
    OpeningReady(v, fuel, j, now, some);
    ClaimMakes(w, v, fuel, j, now);
    var c := ClaimPaper(v, fuel, j, now);
    OpenPaperTarget(w, c.w, c.fuel, j, now, some, env);
    OpenPaperValue(c.w, c.fuel, j, c.value, now, some);
  }

  lemma OpenPaperValue(v: World, fuel: nat, j: string, p: int, got: Fetched, some: Env)
    requires j in v.jobs && OpenPaper(v, fuel, j, p, got, some).Go?
    ensures OpenPaper(v, fuel, j, p, got, some).value == p
  {
  }

  lemma ClaimMakes(w: World, v: World, fuel: nat, j: string, got: Fetched)
    requires Downloaded(w, v, j, got) && FindBySha(v, got.sha).None? && ClaimPaper(v, fuel, j, got).Go?
    ensures PaperMade(w, ClaimPaper(v, fuel, j, got).w, j, got) && ClaimPaper(v, fuel, j, got).value == w.nextPaper
  {
    var job := v.jobs[j].(paperId := Some(w.nextPaper), sha := Some(got.sha), duplicate := false);
    assert v.jobs[j := job] == w.jobs[j := job];
  }

  /** The library with the paper claimed. */
  ghost predicate PaperMade(w: World, v: World, j: string, got: Fetched) {
    && j in w.jobs && j in v.jobs
    && v == w.(files := w.files + {got.sha}, nextPaper := w.nextPaper + 1,
               papers := w.papers[w.nextPaper := Paper(got.sha, got.source, NO_BIBLIO, None)],
               jobs := w.jobs[j := w.jobs[j].(state := v.jobs[j].state, attempts := v.jobs[j].attempts,
                                              sha := Some(got.sha),
                                              paperId := Some(w.nextPaper), duplicate := false,
                                              steps := [Download], artSha := Some(got.sha), artSource := got.source)])
  }

  lemma OpenPaperTarget(w: World, v: World, fuel: nat, j: string, got: Fetched, some: Env, env: Env)
    requires PaperMade(w, v, j, got) && env.text.Some? && env.extraction.Some?
    requires OpenPaper(v, fuel, j, w.nextPaper, got, some).Go?
    ensures var o := OpenPaper(v, fuel, j, w.nextPaper, got, some);
            && j in o.w.jobs && w.nextPaper in o.w.papers
            && Final(o.w, j, w.nextPaper, got.sha, env) == Library(w, j, got, env)
  {
    var m := WriteMeta(v, fuel, w.nextPaper, got.meta);
    assert m.w == v.(papers := w.papers[w.nextPaper := Made(got)]);
    var x := ExtractStep(m.w, m.fuel, j, w.nextPaper, some);
    assert some.text.Some?;
    assert Marked([Download], Extract) == [Download, Extract];
    var job := v.jobs[j].(state := Extracting, steps := [Download, Extract]);
    assert x.w == m.w.(texts := w.texts[w.nextPaper := some.text.value], jobs := w.jobs[j := job]);
    ExtractedTarget(w, v, x.w, j, got, some.text.value, env);
  }

  lemma ExtractedTarget(w: World, v: World, x: World, j: string, got: Fetched, text: string, env: Env)
    requires PaperMade(w, v, j, got) && env.text.Some? && env.extraction.Some?
    requires x == v.(papers := w.papers[w.nextPaper := Made(got)], texts := w.texts[w.nextPaper := text],
                     jobs := w.jobs[j := v.jobs[j].(state := Extracting, steps := [Download, Extract])])
    ensures Final(x, j, w.nextPaper, got.sha, env) == Library(w, j, got, env)
  {
    var p, target := w.nextPaper, Library(w, j, got, env);
    assert x.texts[p := env.text.value] == target.texts;
    assert x.papers[p := Tagged(Made(got), env.extraction.value)] == target.papers;
    assert x.jobs[j := target.jobs[j]] == target.jobs;
  }

  lemma AfterLeaves(w: World, v: World, fuel: nat, j: string, got: Fetched, now: Fetched, some: Env, env: Env)
    requires Sound(w) && Unstarted(w, j, env, got) && Downloaded(w, v, j, got) && Echoes(some, env)
    requires now == got || now == NoMeta(got)
    ensures var r := AfterDownload(v, fuel, j, now, some);
            if r.Go? then Underway(w, r.w, j, now, env) && r.w.jobs[j].state.Done?
              && (some.text == env.text ==> Core(r.w, j) == Library(w, j, now, env))
            else Downloaded(w, r.w, j, got) || Stranded(r.w, j, got.sha) || Underway(w, r.w, j, now, env)
  {
    SameFind(w, v, got.sha);
    RunsPastOpening(v, fuel, j, now, some);
    var o := Opening(v, fuel, j, now, some);
    if o.Stop? {
      OpeningStops(v, fuel, j, now, some);
    } else {
      DownloadedSound(w, v, j, got);
      OpeningReady(v, fuel, j, now, some);
      OpeningTarget(w, v, fuel, j, got, now, some, env);
      OnwardLeaves(w, o.w, o.fuel, j, now, some, env);
    }
  }

  /** From the tree index on. */
  lemma OnwardLeaves(w: World, v: World, fuel: nat, j: string, got: Fetched, some: Env, env: Env)
    requires j in w.jobs && Agrees(some, env) && Underway(w, v, j, got, env) && some.text.Some?
    requires Placed(v, j, w.nextPaper, got.sha, some.text.value)
    ensures var r := IndexOn(v, fuel, j, w.nextPaper, got.sha, some);
            && Underway(w, r.w, j, got, env)
            && (r.Go? ==> r.w.jobs[j].state.Done?
                          && (some.text == env.text ==> Core(r.w, j) == Library(w, j, got, env)))
  {
    IndexOnHeading(v, fuel, j, w.nextPaper, got.sha, some, env);
    var r := IndexOn(v, fuel, j, w.nextPaper, got.sha, some);
    if r.Go? && some.text == env.text {
      FinalIsCore(r.w, j, w.nextPaper, got.sha, env);
    }
  }

  // ---- a whole attempt -----------------------------------------------------

  /** What a run leaves that found now, where got was sought. */
  ghost predicate Leaves(w: World, r: Exec<Ending>, j: string, got: Fetched, now: Fetched, env: Env)
    requires j in w.jobs && env.text.Some? && env.extraction.Some?
  {
    match r
    case Go(v, _, ending) =>
      Underway(w, v, j, now, env) && v.jobs[j].state.Done? && Core(v, j) == Library(w, j, now, env)
    case Stop(v) => LeftWith(w, v, j, got, now, env)
  }

  ghost function Runs(w: World, j: string, got: Fetched, now: Fetched, env: Env): iset<Exec<Ending>>
    requires j in w.jobs && env.text.Some? && env.extraction.Some?
  {
    iset r: Exec<Ending> | Leaves(w, r, j, got, now, env)
  }

  lemma PipelineFromBegun(w: World, v: World, fuel: nat, j: string, got: Fetched, some: Env, env: Env)
    requires Sound(w) && Unstarted(w, j, env, got) && Begun(w, v, j, got) && Echoes(some, env)
    ensures Pipeline(v, fuel, j, some) in Runs(w, j, got, got, env)
  {
    DownloadFrom(w, v, fuel, j, got, some, env);
    var d := DownloadStep(v, fuel, j, some);
    if d.Go? {
      AfterRun(w, d.w, d.fuel, j, got, got, some, env);
    }
  }

  lemma AfterRun(w: World, v: World, fuel: nat, j: string, got: Fetched, now: Fetched, some: Env, env: Env)
    requires Sound(w) && Unstarted(w, j, env, got) && Downloaded(w, v, j, got) && Echoes(some, env)
    requires now == got || now == NoMeta(got)
    ensures AfterDownload(v, fuel, j, now, some) in Runs(w, j, got, now, env)
  {
    AfterLeaves(w, v, fuel, j, got, now, some, env);
    if AfterDownload(v, fuel, j, now, some).Go? {
      AfterNeedsText(w, v, fuel, j, got, now, some);
    }
  }

  lemma AfterNeedsText(w: World, v: World, fuel: nat, j: string, got: Fetched, now: Fetched, some: Env)
    requires Downloaded(w, v, j, got) && now.sha == got.sha && FindBySha(w, got.sha).None?
    requires AfterDownload(v, fuel, j, now, some).Go?
    ensures some.text.Some?
  {
    SameFind(w, v, got.sha);
    RunsPastOpening(v, fuel, j, now, some);
  }

  lemma PipelineFromDownloaded(w: World, v: World, fuel: nat, j: string, got: Fetched, some: Env, env: Env)
    requires Sound(w) && Unstarted(w, j, env, got) && Downloaded(w, v, j, got) && Echoes(some, env)
    ensures Pipeline(v, fuel, j, some) in Runs(w, j, got, NoMeta(got), env)
  {
    SkipsDownload(v, fuel, j, got.sha, some);
    AfterRun(w, v, fuel, j, got, NoMeta(got), some, env);
  }

  ghost function StrandedRuns(j: string, sha: string): iset<Exec<Ending>> {
    iset r: Exec<Ending> | Stranded(r.w, j, sha) && (r.Go? ==> r.w.jobs[j].duplicate)
  }

  /** A stranded job only ever takes its own paper for a duplicate. */
  lemma PipelineFromStranded(v: World, fuel: nat, j: string, sha: string, some: Env)
    requires Stranded(v, j, sha)
    ensures Pipeline(v, fuel, j, some) in StrandedRuns(j, sha)
  {
    SkipsDownload(v, fuel, j, sha, some);
    var r := Pipeline(v, fuel, j, some);
    SameFind(v, r.w, sha);
  }

  lemma RowLeft(w: World, v: World, j: string, got: Fetched, now: Fetched, env: Env, s: JobState, n: nat)
    requires j in w.jobs && env.text.Some? && env.extraction.Some? && LeftWith(w, v, j, got, now, env) && !s.Done?
    ensures LeftWith(w, SetJob(v, j, v.jobs[j].(state := s, attempts := n)), j, got, now, env)
  {
    if Begun(w, v, j, got) {
      RowBegun(w, v, j, got, s, n);
    } else if Downloaded(w, v, j, got) {
      RowDownloaded(w, v, j, got, s, n);
    } else if Stranded(v, j, got.sha) {
      RowStranded(v, j, got.sha, s, n);
    } else {
      RowUnderway(w, v, j, now, env, s, n);
    }
  }

  lemma RowUnderway(w: World, v: World, j: string, got: Fetched, env: Env, s: JobState, n: nat)
    requires j in w.jobs && env.text.Some? && env.extraction.Some? && Underway(w, v, j, got, env)
    ensures Underway(w, SetJob(v, j, v.jobs[j].(state := s, attempts := n)), j, got, env)
  {
    RowSameEnd(v, j, w.nextPaper, got.sha, env, 2, v.jobs[j].(state := s, attempts := n));
  }

  // ---- attempts ------------------------------------------------------------

  lemma LeftByRun(w: World, r: Exec<Ending>, j: string, got: Fetched, now: Fetched, env: Env, killed: bool, v': World,
                  ending: Option<Ending>)
    requires j in w.jobs && env.text.Some? && env.extraction.Some? && r in Runs(w, j, got, now, env)
    requires now == got || now == NoMeta(got)
    requires j in r.w.jobs && v' == Settled(r, j, killed).0 && ending == Settled(r, j, killed).1
    ensures LeftWith(w, v', j, got, now, env) && (ending.Some? ==> Core(v', j) == Library(w, j, now, env))
  {
    if r.Stop? && !killed {
      RowLeft(w, r.w, j, got, now, env, Failed, r.w.jobs[j].attempts);
    }
  }

  /** The three places are different. */
  lemma PlacesApart(w: World, v: World, j: string, got: Fetched, env: Env)
    requires Unstarted(w, j, env, got)
    ensures Begun(w, v, j, got) ==> v.jobs[j].steps == [] && FindBySha(v, got.sha).None? && OnDisk(v, v.jobs[j]).None?
    ensures Downloaded(w, v, j, got) ==>
              v.jobs[j].steps == [Download] && FindBySha(v, got.sha).None? && OnDisk(v, v.jobs[j]) == Some(got.sha)
    ensures Stranded(v, j, got.sha) ==> Extract !in v.jobs[j].steps && FindBySha(v, got.sha).Some?
  {
    if Begun(w, v, j, got) || Downloaded(w, v, j, got) {
      SameFind(w, v, got.sha);
    }
  }

  lemma AttemptSettled(w: World, v: World, counted: World, j: string, got: Fetched, now: Fetched, some: Env, env: Env,
                       v': World, ending: Option<Ending>)
    requires j in w.jobs && env.text.Some? && env.extraction.Some? && j in v.jobs && some.counted
    requires counted == Counted(v, j)
    requires Pipeline(counted, some.budget, j, some) in Runs(w, j, got, now, env) && (now == got || now == NoMeta(got))
    requires v' == Attempt(v, j, some).0 && ending == Attempt(v, j, some).1
    ensures LeftWith(w, v', j, got, now, env) && (ending.Some? ==> Core(v', j) == Library(w, j, now, env))
  {
    AttemptSettles(v, j, some);
    LeftByRun(w, Pipeline(counted, some.budget, j, some), j, got, now, env, some.killed, v', ending);
  }

  lemma CountedFromBegun(w: World, v: World, counted: World, j: string, got: Fetched, some: Env, env: Env)
    requires Sound(w) && Unstarted(w, j, env, got) && Begun(w, v, j, got) && Echoes(some, env)
    requires counted == Counted(v, j)
    ensures Pipeline(counted, some.budget, j, some) in Runs(w, j, got, got, env)
  {
    RowBegun(w, v, j, got, v.jobs[j].state, v.jobs[j].attempts + 1);
    PipelineFromBegun(w, counted, some.budget, j, got, some, env);
  }

  lemma AttemptFromBegun(w: World, v: World, j: string, got: Fetched, some: Env, env: Env, v': World,
                         ending: Option<Ending>)
    requires Sound(w) && Unstarted(w, j, env, got) && Begun(w, v, j, got) && Echoes(some, env)
    requires v' == Attempt(v, j, some).0 && ending == Attempt(v, j, some).1
    ensures LeftWith(w, v', j, got, got, env) && (ending.Some? ==> Core(v', j) == Library(w, j, got, env))
  {
    if some.counted {
      CountedFromBegun(w, v, Counted(v, j), j, got, some, env);
      AttemptSettled(w, v, Counted(v, j), j, got, got, some, env, v', ending);
    }
  }

  lemma CountedFromDownloaded(w: World, v: World, counted: World, j: string, got: Fetched, some: Env, env: Env)
    requires Sound(w) && Unstarted(w, j, env, got) && Downloaded(w, v, j, got) && Echoes(some, env)
    requires counted == Counted(v, j)
    ensures Pipeline(counted, some.budget, j, some) in Runs(w, j, got, NoMeta(got), env)
  {
    RowDownloaded(w, v, j, got, v.jobs[j].state, v.jobs[j].attempts + 1);
    PipelineFromDownloaded(w, counted, some.budget, j, got, some, env);
  }

  lemma AttemptFromDownloaded(w: World, v: World, j: string, got: Fetched, some: Env, env: Env, v': World,
                              ending: Option<Ending>)
    requires Sound(w) && Unstarted(w, j, env, got) && Downloaded(w, v, j, got) && Echoes(some, env)
    requires v' == Attempt(v, j, some).0 && ending == Attempt(v, j, some).1
    ensures LeftWith(w, v', j, got, NoMeta(got), env)
    ensures ending.Some? ==> Core(v', j) == Library(w, j, NoMeta(got), env)
  {
    if some.counted {
      CountedFromDownloaded(w, v, Counted(v, j), j, got, some, env);
      AttemptSettled(w, v, Counted(v, j), j, got, NoMeta(got), some, env, v', ending);
    }
  }

  lemma CountedFromStranded(v: World, counted: World, j: string, sha: string, some: Env)
    requires Stranded(v, j, sha) && counted == Counted(v, j)
    ensures Pipeline(counted, some.budget, j, some) in StrandedRuns(j, sha)
  {
    RowStranded(v, j, sha, v.jobs[j].state, v.jobs[j].attempts + 1);
    PipelineFromStranded(counted, some.budget, j, sha, some);
  }

  lemma AttemptFromStranded(v: World, j: string, sha: string, some: Env, v': World, ending: Option<Ending>)
    requires Stranded(v, j, sha)
    requires v' == Attempt(v, j, some).0 && ending == Attempt(v, j, some).1
    ensures Stranded(v', j, sha) && (ending.Some? ==> v'.jobs[j].duplicate)
  {
    if some.counted {
      CountedFromStranded(v, Counted(v, j), j, sha, some);
      StrandedAttempt(v, Counted(v, j), j, sha, some, v', ending);
    }
  }

  lemma StrandedAttempt(v: World, counted: World, j: string, sha: string, some: Env, v': World, ending: Option<Ending>)
    requires j in v.jobs && some.counted && counted == Counted(v, j)
    requires Pipeline(counted, some.budget, j, some) in StrandedRuns(j, sha)
    requires v' == Attempt(v, j, some).0 && ending == Attempt(v, j, some).1
    ensures Stranded(v', j, sha) && (ending.Some? ==> v'.jobs[j].duplicate)
  {
    AttemptSettles(v, j, some);
    StrandedSettles(Pipeline(counted, some.budget, j, some), j, sha, some.killed, v', ending);
  }

  lemma StrandedSettles(r: Exec<Ending>, j: string, sha: string, killed: bool, v': World, ending: Option<Ending>)
    requires r in StrandedRuns(j, sha) && j in r.w.jobs
    requires v' == Settled(r, j, killed).0 && ending == Settled(r, j, killed).1
    ensures Stranded(v', j, sha) && (ending.Some? ==> v'.jobs[j].duplicate)
  {
    RowStranded(r.w, j, sha, Failed, r.w.jobs[j].attempts);
  }

  lemma AttemptFromUnderway(w: World, v: World, j: string, got: Fetched, some: Env, env: Env, v': World,
                            ending: Option<Ending>)
    requires j in w.jobs && Agrees(some, env) && Underway(w, v, j, got, env)
    requires v' == Attempt(v, j, some).0 && ending == Attempt(v, j, some).1
    ensures Underway(w, v', j, got, env)
    ensures ending.Some? && some.text == env.text ==> Core(v', j) == Library(w, j, got, env)
  {
    AttemptSameEnd(v, j, w.nextPaper, got.sha, some, env, v', ending);
  }

  /** What an attempt from a place that finds now finds itself. */
  lemma AttemptLeft(w: World, v: World, j: string, got: Fetched, now: Fetched, some: Env, env: Env, v': World,
                    ending: Option<Ending>)
    returns (next: Fetched)
    requires Sound(w) && Unstarted(w, j, env, got) && LeftWith(w, v, j, got, now, env) && Echoes(some, env)
    requires (now == got || now == NoMeta(got)) && v' == Attempt(v, j, some).0 && ending == Attempt(v, j, some).1
    ensures (next == got || next == NoMeta(got)) && LeftWith(w, v', j, got, next, env)
  {
    next := now;
    if Begun(w, v, j, got) {
      AttemptFromBegun(w, v, j, got, some, env, v', ending);
      next := got;
    } else if Downloaded(w, v, j, got) {
      AttemptFromDownloaded(w, v, j, got, some, env, v', ending);
      next := NoMeta(got);
    } else if Stranded(v, j, got.sha) {
      AttemptFromStranded(v, j, got.sha, some, v', ending);
    } else {
      AttemptFromUnderway(w, v, j, now, some, env, v', ending);
    }
  }

  lemma {:induction false} FailuresLeft(w: World, v: World, j: string, got: Fetched, now: Fetched, attempts: seq<Env>,
                                        env: Env)
    requires Sound(w) && Unstarted(w, j, env, got) && LeftWith(w, v, j, got, now, env)
    requires now == got || now == NoMeta(got)
    requires forall i :: 0 <= i < |attempts| ==> Echoes(attempts[i], env)
    ensures Left(w, TryAll(v, j, attempts), j, got, env)
    decreases |attempts|
  {
    if attempts != [] {
      var (v', ending) := Attempt(v, j, attempts[0]);
      var next := AttemptLeft(w, v, j, got, now, attempts[0], env, v', ending);
      RowLeft(w, v', j, got, next, env, Queued, v'.jobs[j].attempts);
      FailuresLeft(w, Retry(v', j, true).0, j, got, next, attempts[1..], env);
    }
  }

  // ---- the exact condition -------------------------------------------------

  /** A value looked up is not missed: what stands in its place without it is the same. */
  predicate Unmissed<T(==)>(known: bool, found: Option<T>, said: Option<T>) {
    if known then said == found else said.Some? || found.None?
  }

  /** The model's answers make up for everything the metadata lookup found. */
  predicate NothingLost(meta: Option<Biblio>, said: Biblio) {
    meta.Some? ==>
      var found := meta.value;
      && Unmissed(TextKnown(found.title), found.title, said.title)
      && Unmissed(AuthorsKnown(found.authors), found.authors, said.authors)
      && Unmissed(YearKnown(found.year), found.year, said.year)
      && Unmissed(TextKnown(found.venue), found.venue, said.venue)
      && Unmissed(TextKnown(found.abst), found.abst, said.abst)
  }

  lemma NothingLostMeaning(got: Fetched, said: Extraction)
    ensures Tagged(Made(got), said) == Tagged(Made(NoMeta(got)), said) <==> NothingLost(got.meta, said.biblio)
  {
  }

  /** The paper's row once it is tagged. */
  function PaperToCome(v: World, job: Job, p: int, said: Extraction): Paper
    requires p in v.papers
  {
    if Tag in job.steps then v.papers[p] else Tagged(v.papers[p], said)
  }

  /** The job can still end as if nothing had failed: with extraction marked, if its paper
      comes out as it would have; before that, only if no paper was made, and if either
      the download is not marked or the metadata found then will not be missed. */
  ghost predicate Resumable(v: World, j: string, got: Fetched, said: Extraction)
    requires j in v.jobs
  {
    var job, own := v.jobs[j], FindBySha(v, got.sha);
    if Extract in job.steps then own.Some? && PaperToCome(v, job, own.value, said) == Tagged(Made(got), said)
    else own.None? && (OnDisk(v, job).None? || NothingLost(got.meta, said.biblio))
  }

  lemma SameLibrary(w: World, j: string, a: Fetched, b: Fetched, env: Env)
    requires j in w.jobs && env.text.Some? && env.extraction.Some? && NoMeta(a) == NoMeta(b)
    ensures Library(w, j, a, env) == Library(w, j, b, env) <==>
            Tagged(Made(a), env.extraction.value) == Tagged(Made(b), env.extraction.value)
  {
    assert Library(w, j, a, env).papers[w.nextPaper] == Tagged(Made(a), env.extraction.value);
    assert Library(w, j, b, env).papers[w.nextPaper] == Tagged(Made(b), env.extraction.value);
  }

  lemma LeftSmooth(w: World, v: World, j: string, got: Fetched, now: Fetched, env: Env)
    requires Unstarted(w, j, env, got) && LeftWith(w, v, j, got, now, env) && (now == got || now == NoMeta(got))
    ensures Smooth(v, j, env) && Attempt(v, j, env).1.Some?
  {
    if !Begun(w, v, j, got) {
      assert OnDisk(v, v.jobs[j]) == Some(got.sha);
    }
    SmoothPipeline(v, j, env);
    AttemptSettles(v, j, env);
  }

  lemma UnderwayPaper(w: World, v: World, j: string, now: Fetched, env: Env)
    requires j in w.jobs && env.text.Some? && env.extraction.Some? && Underway(w, v, j, now, env)
    ensures Extract in v.jobs[j].steps && FindBySha(v, now.sha) == Some(w.nextPaper)
    ensures PaperToCome(v, v.jobs[j], w.nextPaper, env.extraction.value) == Tagged(Made(now), env.extraction.value)
  {
    PrefixMember(v.jobs[j].steps, 1);
    FindsOwn(v, w.nextPaper, now.sha);
    assert Final(v, j, w.nextPaper, now.sha, env).papers[w.nextPaper] == Library(w, j, now, env).papers[w.nextPaper];
  }

  /** The library a good attempt ends with, by where it starts. */
  ghost predicate Finishes(w: World, v: World, j: string, got: Fetched, now: Fetched, env: Env, end: World)
    requires j in w.jobs && env.text.Some? && env.extraction.Some?
  {
    && j in end.jobs
    && (Begun(w, v, j, got) ==> Core(end, j) == Library(w, j, got, env))
    && (Downloaded(w, v, j, got) ==> Core(end, j) == Library(w, j, NoMeta(got), env))
    && (Stranded(v, j, got.sha) ==> end.jobs[j].duplicate)
    && (Underway(w, v, j, now, env) ==> Core(end, j) == Library(w, j, now, env))
  }

  lemma GoodEndsBegun(w: World, v: World, j: string, got: Fetched, env: Env, end: World)
    requires Sound(w) && Unstarted(w, j, env, got) && Begun(w, v, j, got) && end == Attempt(v, j, env).0
    ensures j in end.jobs && Core(end, j) == Library(w, j, got, env)
  {
    LeftSmooth(w, v, j, got, got, env);
    AttemptFromBegun(w, v, j, got, env, env, end, Attempt(v, j, env).1);
  }

  lemma GoodEndsDownloaded(w: World, v: World, j: string, got: Fetched, env: Env, end: World)
    requires Sound(w) && Unstarted(w, j, env, got) && Downloaded(w, v, j, got) && end == Attempt(v, j, env).0
    ensures j in end.jobs && Core(end, j) == Library(w, j, NoMeta(got), env)
  {
    LeftSmooth(w, v, j, got, got, env);
    AttemptFromDownloaded(w, v, j, got, env, env, end, Attempt(v, j, env).1);
  }

  lemma GoodEndsStranded(w: World, v: World, j: string, got: Fetched, env: Env, end: World)
    requires Unstarted(w, j, env, got) && Stranded(v, j, got.sha) && end == Attempt(v, j, env).0
    ensures j in end.jobs && end.jobs[j].duplicate
  {
    LeftSmooth(w, v, j, got, got, env);
    AttemptFromStranded(v, j, got.sha, env, end, Attempt(v, j, env).1);
  }

  lemma GoodEndsUnderway(w: World, v: World, j: string, got: Fetched, now: Fetched, env: Env, end: World)
    requires Unstarted(w, j, env, got) && Underway(w, v, j, now, env) && (now == got || now == NoMeta(got))
    requires end == Attempt(v, j, env).0
    ensures j in end.jobs && Core(end, j) == Library(w, j, now, env)
  {
    LeftSmooth(w, v, j, got, now, env);
    AttemptFromUnderway(w, v, j, now, env, env, end, Attempt(v, j, env).1);
  }

  lemma GoodEnds(w: World, v: World, j: string, got: Fetched, now: Fetched, env: Env, end: World)
    requires Sound(w) && Unstarted(w, j, env, got) && (now == got || now == NoMeta(got))
    requires j in v.jobs && end == Attempt(v, j, env).0
    ensures Finishes(w, v, j, got, now, env, end)
  {
    if Begun(w, v, j, got) {
      GoodEndsBegun(w, v, j, got, env, end);
    }
    if Downloaded(w, v, j, got) {
      GoodEndsDownloaded(w, v, j, got, env, end);
    }
    if Stranded(v, j, got.sha) {
      GoodEndsStranded(w, v, j, got, env, end);
    }
    if Underway(w, v, j, now, env) {
      GoodEndsUnderway(w, v, j, got, now, env, end);
    }
  }

  /** After failed attempts left the job at v, a good one ends with the library that it
      would have produced at once exactly when the job is resumable. */
  lemma LeftExactly(w: World, v: World, j: string, got: Fetched, now: Fetched, env: Env, end: World)
    requires Unstarted(w, j, env, got) && LeftWith(w, v, j, got, now, env) && (now == got || now == NoMeta(got))
    requires Finishes(w, v, j, got, now, env, end)
    ensures Core(end, j) == Library(w, j, got, env) <==> Resumable(v, j, got, env.extraction.value)
  {
    PlacesApart(w, v, j, got, env);
    NothingLostMeaning(got, env.extraction.value);
    SameLibrary(w, j, got, NoMeta(got), env);
    if Stranded(v, j, got.sha) {
      assert Core(end, j).jobs[j].duplicate && !Library(w, j, got, env).jobs[j].duplicate;
    } else if !Begun(w, v, j, got) && !Downloaded(w, v, j, got) {
      UnderwayPaper(w, v, j, now, env);
      SameLibrary(w, j, got, now, env);
    }
  }

  /** The promise of resuming, for every job not yet started and any number of failures
      anywhere: the library ends as if nothing had failed exactly when, before the attempt
      that goes through, the job is resumable. */
  lemma ResumeExactly(w: World, j: string, got: Fetched, failures: seq<Env>, env: Env, v: World)
    requires Sound(w) && Unstarted(w, j, env, got) && v == TryAll(w, j, failures)
    requires forall i :: 0 <= i < |failures| ==> Echoes(failures[i], env)
    ensures Core(Attempt(v, j, env).0, j) == Core(Attempt(w, j, env).0, j) <==>
            Resumable(v, j, got, env.extraction.value)
  {
    assert Begun(w, w, j, got);
    FailuresLeft(w, w, j, got, got, failures, env);
    var now := if LeftWith(w, v, j, got, got, env) then got else NoMeta(got);
    GoodEnds(w, v, j, got, now, env, Attempt(v, j, env).0);
    LeftExactly(w, v, j, got, now, env, Attempt(v, j, env).0);
    GoodEndsBegun(w, w, j, got, env, Attempt(w, j, env).0);
  }

  /** After a single failure: extraction was marked, or no paper was made and either the
      download was not marked or the metadata is not missed. */
  lemma OneFailureExactly(w: World, j: string, got: Fetched, first: Env, env: Env, w1: World)
    requires Sound(w) && Unstarted(w, j, env, got) && Echoes(first, env) && w1 == Attempt(w, j, first).0
    ensures Core(Attempt(Retry(w1, j, true).0, j, env).0, j) == Core(Attempt(w, j, env).0, j) <==>
            (|| Extract in w1.jobs[j].steps
             || (FindBySha(w1, got.sha).None?
                 && (OnDisk(w1, w1.jobs[j]).None? || NothingLost(got.meta, env.extraction.value.biblio))))
  {
    assert Begun(w, w, j, got);
    AttemptFromBegun(w, w, j, got, first, env, w1, Attempt(w, j, first).1);
    OneLeft(w, w1, j, got, env);
    var v := Retry(w1, j, true).0;
    GoodEnds(w, v, j, got, got, env, Attempt(v, j, env).0);
    LeftExactly(w, v, j, got, got, env, Attempt(v, j, env).0);
    GoodEndsBegun(w, w, j, got, env, Attempt(w, j, env).0);
  }

  /** Where nothing was lost so far, being resumable is a matter of the marks alone. */
  lemma OneLeft(w: World, w1: World, j: string, got: Fetched, env: Env)
    requires Unstarted(w, j, env, got) && LeftWith(w, w1, j, got, got, env)
    ensures var v := Retry(w1, j, true).0;
            && LeftWith(w, v, j, got, got, env)
            && (Resumable(v, j, got, env.extraction.value) <==>
                (|| Extract in w1.jobs[j].steps
                 || (FindBySha(w1, got.sha).None?
                     && (OnDisk(w1, w1.jobs[j]).None? || NothingLost(got.meta, env.extraction.value.biblio)))))
  {
    RowLeft(w, w1, j, got, got, env, Queued, w1.jobs[j].attempts);
    var v := Retry(w1, j, true).0;
    SameFind(w1, v, got.sha);
    PlacesApart(w, v, j, got, env);
    if !Begun(w, v, j, got) && !Downloaded(w, v, j, got) && !Stranded(v, j, got.sha) {
      UnderwayPaper(w, v, j, got, env);
    }
  }

  // ---- an input ------------------------------------------------------------

  /** An empty library with one job for a URL. */
  function OneJob(): World {
    EMPTY_WORLD.(jobs := map["j" := NewJob(Url, Payload(None, Some("u"), None))])
  }

  function Titled(title: string): Biblio {
    NO_BIBLIO.(title := Some(title))
  }

  /** Everything works; the lookup and the model disagree on the title. */
  function Disagreeing(budget: nat): Env {
    Env(Some(Resolved("s", "u", Some(Titled("a")))), Some("t"), true, Some(Extraction(Titled("b"), ("c", "d"))),
        true, false, None,
        true, budget, false)
  }

  const DISAGREED := Fetched("s", Some("u"), Some(Titled("a")))

  lemma OneJobUnstarted()
    ensures Sound(OneJob()) && Unstarted(OneJob(), "j", Disagreeing(19), DISAGREED)
  {
    var w := OneJob();
    forall k
      ensures SoundAt(w, k)
    {
    }
    forall p
      ensures Issued(w, p)
    {
    }
    forall p, q
      ensures Apart(w, p, q)
    {
    }
    assert FindBySha(w, "s").Some? ==> HasSha(w, FindBySha(w, "s").value, "s");
  }

  lemma LibraryTitle(w: World, j: string, got: Fetched, env: Env, title: string)
    requires j in w.jobs && env.text.Some? && env.extraction.Some?
    requires Tagged(Made(got), env.extraction.value).biblio.title == Some(title)
    ensures var papers := Library(w, j, got, env).papers;
            w.nextPaper in papers && papers[w.nextPaper].biblio.title == Some(title)
  {
  }

  /** Cut off after four writes, the job is left with the download marked and no paper. */
  lemma CutAfterDownload(w1: World)
    requires w1 == Attempt(OneJob(), "j", Disagreeing(4)).0
    ensures Downloaded(OneJob(), w1, "j", DISAGREED)
  {
    var w, env, got := OneJob(), Disagreeing(19), DISAGREED;
    OneJobUnstarted();
    assert Begun(w, w, "j", got);
    MetadataLost(w, "j", Disagreeing(4), Disagreeing(4).(resolve := Some(Resolved("s", "u", None))));
    AttemptFromBegun(w, w, "j", got, Disagreeing(4), env, w1, Attempt(w, "j", Disagreeing(4)).1);
    OnlyDownloaded(w, w1, "j", got, env);
  }

  /** Four writes succeed and the fifth fails: uninterrupted, the paper has the title that
      arXiv gave; after the retry it has the model's. */
  lemma TitleReplaced()
    ensures var w := OneJob();
            var v := Retry(Attempt(w, "j", Disagreeing(4)).0, "j", true).0;
            var atOnce := Core(Attempt(w, "j", Disagreeing(19)).0, "j");
            var resumed := Core(Attempt(v, "j", Disagreeing(19)).0, "j");
            && 1 in atOnce.papers && atOnce.papers[1].biblio.title == Some("a")
            && 1 in resumed.papers && resumed.papers[1].biblio.title == Some("b")
  {
    var w, env, got := OneJob(), Disagreeing(19), DISAGREED;
    OneJobUnstarted();
    assert Begun(w, w, "j", got);
    GoodEndsBegun(w, w, "j", got, env, Attempt(w, "j", env).0);
    LibraryTitle(w, "j", got, env, "a");
    var w1 := Attempt(w, "j", Disagreeing(4)).0;
    CutAfterDownload(w1);
    RowDownloaded(w, w1, "j", got, Queued, w1.jobs["j"].attempts);
    var v := Retry(w1, "j", true).0;
    GoodEndsDownloaded(w, v, "j", got, env, Attempt(v, "j", env).0);
    LibraryTitle(w, "j", NoMeta(got), env, "b");
  }

  /** A marked download without a paper. */
  lemma OnlyDownloaded(w: World, v: World, j: string, got: Fetched, env: Env)
    requires Unstarted(w, j, env, got) && LeftWith(w, v, j, got, got, env)
    requires v.jobs[j].steps == [Download] && v.papers == w.papers
    ensures Downloaded(w, v, j, got)
  {
    SameFind(w, v, got.sha);
    PlacesApart(w, v, j, got, env);
    if Underway(w, v, j, got, env) {
      UnderwayPaper(w, v, j, got, env);
    }
  }
}
