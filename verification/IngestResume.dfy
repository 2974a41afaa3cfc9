/** Resuming: once extraction is marked, any number of failed attempts leaves the job on
    the way to the same library an uninterrupted attempt would have produced. */
module IngestResume {
  import opened Wrappers
  import opened Ingest
  import opened IngestRuns

  function Tagged(paper: Paper, said: Extraction): Paper {
    paper.(biblio := Updated(paper.biblio, OnlyMissing(paper.biblio, said.biblio)), summary := Some(said.summary))
  }

  /** Tagging a paper again with the same answer changes nothing more. */
  lemma TaggedTwice(paper: Paper, said: Extraction)
    ensures Tagged(Tagged(paper, said), said) == Tagged(paper, said)
  {
  }

  /** At least n steps are done, the bytes are on disk, and p is the paper they belong to. */
  ghost predicate Ready(w: World, j: string, p: int, sha: string, n: nat) {
    && j in w.jobs && HasSha(w, p, sha) && OnePaperPerHash(w)
    && w.jobs[j].steps <= ORDER && |w.jobs[j].steps| >= n && OnDisk(w, w.jobs[j]) == Some(sha)
  }

  function FinalJob(job: Job, p: int, sha: string): Job {
    job.(state := Done, attempts := 0, steps := ORDER, paperId := Some(p), sha := Some(sha), duplicate := false)
  }

  /** The library the job is heading for: what is left to do, done with these answers. */
  function Final(w: World, j: string, p: int, sha: string, env: Env): World
    requires j in w.jobs && p in w.papers && env.text.Some? && env.extraction.Some?
  {
    var job := w.jobs[j];
    w.(jobs := w.jobs[j := FinalJob(job, p, sha)],
       papers := if Tag in job.steps then w.papers else w.papers[p := Tagged(w.papers[p], env.extraction.value)],
       texts := w.texts[p := env.text.value],
       trees := if Index in job.steps || !env.treeBuilt then w.trees else w.trees + {sha},
       tagCalls := [])
  }

  /** The library apart from the job's state and attempt count and the log of calls. */
  function Core(w: World, j: string): World
    requires j in w.jobs
  {
    w.(jobs := w.jobs[j := w.jobs[j].(state := Done, attempts := 0)], tagCalls := [])
  }

  /** A failed attempt's collaborators gave the answers a good one gives, or none. */
  ghost predicate Agrees(some: Env, env: Env) {
    && env.text.Some? && env.extraction.Some? && some.treeBuilt == env.treeBuilt
    && (some.extraction.Some? ==> some.extraction == env.extraction)
  }

  /** Still heading for the same library. */
  ghost predicate SameEnd(w: World, w': World, j: string, p: int, sha: string, env: Env, n: nat)
    requires Ready(w, j, p, sha, 0) && env.text.Some? && env.extraction.Some?
  {
    Ready(w', j, p, sha, n) && Final(w', j, p, sha, env) == Final(w, j, p, sha, env)
  }

  // ---- one write -----------------------------------------------------------

  lemma StateSameEnd(w: World, j: string, p: int, sha: string, env: Env, n: nat, s: JobState)
    requires Ready(w, j, p, sha, n) && env.text.Some? && env.extraction.Some?
    ensures SameEnd(w, SetState(w, j, s), j, p, sha, env, n)
  {
    SamePapers(w, SetState(w, j, s));
  }

  lemma RowSameEnd(w: World, j: string, p: int, sha: string, env: Env, n: nat, job: Job)
    requires Ready(w, j, p, sha, n) && env.text.Some? && env.extraction.Some?
    requires job.sha == w.jobs[j].sha || job.sha == Some(sha)
    requires job == w.jobs[j].(state := job.state, paperId := job.paperId, sha := job.sha, duplicate := job.duplicate,
                               attempts := job.attempts)
    ensures SameEnd(w, SetJob(w, j, job), j, p, sha, env, n)
  {
    SamePapers(w, SetJob(w, j, job));
  }

  lemma TextSameEnd(w: World, j: string, p: int, sha: string, env: Env, n: nat, text: string)
    requires Ready(w, j, p, sha, n) && env.text.Some? && env.extraction.Some?
    ensures SameEnd(w, w.(texts := w.texts[p := text]), j, p, sha, env, n)
  {
    SamePapers(w, w.(texts := w.texts[p := text]));
  }

  /** Marking a step whose product is there; k counts the steps before it. */
  lemma MarkSameEnd(w: World, j: string, p: int, sha: string, env: Env, k: nat)
    requires 1 <= k < 5 && Ready(w, j, p, sha, k) && env.text.Some? && env.extraction.Some?
    requires k == 2 ==> ORDER[k] in w.jobs[j].steps || !env.treeBuilt || sha in w.trees
    requires k == 3 ==> ORDER[k] in w.jobs[j].steps || w.papers[p] == Tagged(w.papers[p], env.extraction.value)
    ensures SameEnd(w, MarkStep(w, j, ORDER[k]), j, p, sha, env, k + 1)
  {
    MarkedPrefix(w.jobs[j].steps, k);
    var w' := MarkStep(w, j, ORDER[k]);
    SamePapers(w, w');
  }

  // ---- each step -----------------------------------------------------------

  lemma IndexSameEnd(w: World, fuel: nat, j: string, p: int, sha: string, some: Env, env: Env, w': World)
    requires Ready(w, j, p, sha, 2) && Agrees(some, env) && w' == IndexStep(w, fuel, j, sha, some).w
    ensures SameEnd(w, w', j, p, sha, env, if IndexStep(w, fuel, j, sha, some).Go? then 3 else 2)
  {
    PrefixMember(w.jobs[j].steps, 2);
    if Index !in w.jobs[j].steps && fuel > 0 {
      var w1 := SetState(w, j, Indexing);
      StateSameEnd(w, j, p, sha, env, 2, Indexing);
      var w2 := if some.treeBuilt then w1.(trees := w1.trees + {sha}) else w1;
      SamePapers(w1, w2);
      assert SameEnd(w, w2, j, p, sha, env, 2);
      MarkSameEnd(w2, j, p, sha, env, 2);
    }
  }

  lemma TagSameEnd(w: World, fuel: nat, j: string, p: int, sha: string, some: Env, env: Env, w': World)
    requires Ready(w, j, p, sha, 3) && Agrees(some, env) && w' == TagStep(w, fuel, j, p, some).w
    ensures SameEnd(w, w', j, p, sha, env, if TagStep(w, fuel, j, p, some).Go? then 4 else 3)
  {
    PrefixMember(w.jobs[j].steps, 3);
    if Tag !in w.jobs[j].steps && fuel > 0 {
      var w1 := SetState(w, j, Tagging);
      StateSameEnd(w, j, p, sha, env, 3, Tagging);
      SamePapers(w1, w1.(tagCalls := w1.tagCalls + [j]));
      if some.extraction.Some? {
        TaggedSameEnd(w, w1, j, p, sha, env);
      }
    }
  }

  /** The paper is tagged, and then the step marked. */
  lemma TaggedSameEnd(w: World, w1: World, j: string, p: int, sha: string, env: Env)
    requires Ready(w, j, p, sha, 3) && env.text.Some? && env.extraction.Some? && Tag !in w.jobs[j].steps
    requires SameEnd(w, w1, j, p, sha, env, 3) && w1.jobs[j].steps == w.jobs[j].steps && w1.papers == w.papers
    ensures var w2 := w1.(papers := w1.papers[p := Tagged(w1.papers[p], env.extraction.value)],
                          tagCalls := w1.tagCalls + [j]);
            SameEnd(w, w2, j, p, sha, env, 3) && SameEnd(w, MarkStep(w2, j, Tag), j, p, sha, env, 4)
  {
    var tagged := Tagged(w1.papers[p], env.extraction.value);
    var w2 := w1.(papers := w1.papers[p := tagged], tagCalls := w1.tagCalls + [j]);
    TaggedTwice(w1.papers[p], env.extraction.value);
    forall q
      ensures Issued(w2, q)
    {
      assert Issued(w1, q);
    }
    forall q, r
      ensures Apart(w2, q, r)
    {
      assert Apart(w1, q, r);
    }
    assert w2.papers[p := tagged] == w1.papers[p := tagged];
    MarkSameEnd(w2, j, p, sha, env, 3);
  }

  lemma EmbedSameEnd(w: World, fuel: nat, j: string, p: int, sha: string, some: Env, env: Env, w': World)
    requires Ready(w, j, p, sha, 4) && Agrees(some, env) && w' == EmbedStep(w, fuel, j, p, some).w
    ensures SameEnd(w, w', j, p, sha, env, if EmbedStep(w, fuel, j, p, some).Go? then 5 else 4)
  {
    PrefixMember(w.jobs[j].steps, 4);
    if Embed !in w.jobs[j].steps && fuel > 0 {
      StateSameEnd(w, j, p, sha, env, 4, Embedding);
      MarkSameEnd(SetState(w, j, Embedding), j, p, sha, env, 4);
    }
  }

  lemma ExtractSameEnd(w: World, fuel: nat, j: string, p: int, sha: string, some: Env, env: Env, w': World)
    requires Ready(w, j, p, sha, 2) && Agrees(some, env) && w' == ExtractStep(w, fuel, j, p, some).w
    ensures SameEnd(w, w', j, p, sha, env, 2)
  {
    if fuel > 0 {
      var w1 := SetState(w, j, Extracting);
      StateSameEnd(w, j, p, sha, env, 2, Extracting);
      if some.text.Some? {
        var w2 := w1.(texts := w1.texts[p := some.text.value]);
        TextSameEnd(w1, j, p, sha, env, 2, some.text.value);
        MarkSameEnd(w2, j, p, sha, env, 1);
        PrefixMember(w.jobs[j].steps, 1);
      }
    }
  }

  // ---- a whole attempt -----------------------------------------------------

  /** The job points at its paper, which holds the text. */
  ghost predicate Placed(w: World, j: string, p: int, sha: string, text: string) {
    && j in w.jobs && w.jobs[j].paperId == Some(p) && w.jobs[j].sha == Some(sha) && !w.jobs[j].duplicate
    && p in w.texts && w.texts[p] == text
  }

  /** Where a run from w is, having gone through or not; if it was whole, and went
      through, the text is in place. */
  ghost predicate Heading(w: World, r: Exec<Ending>, j: string, p: int, sha: string, env: Env, whole: bool)
    requires Ready(w, j, p, sha, 0) && env.text.Some? && env.extraction.Some?
  {
    && SameEnd(w, r.w, j, p, sha, env, if r.Go? then 5 else 2)
    && (r.Go? ==> r.value.Finished? && r.w.jobs[j].state.Done?)
    && (r.Go? && whole ==> Placed(r.w, j, p, sha, env.text.value))
  }

  lemma EmbedOnHeading(w: World, fuel: nat, j: string, p: int, sha: string, some: Env, env: Env)
    requires Ready(w, j, p, sha, 4) && Agrees(some, env)
    ensures Heading(w, EmbedOn(w, fuel, j, p, some), j, p, sha, env, Placed(w, j, p, sha, env.text.value))
  {
    var e := EmbedStep(w, fuel, j, p, some);
    EmbedSameEnd(w, fuel, j, p, sha, some, env, e.w);
    if e.Go? {
      StateSameEnd(e.w, j, p, sha, env, 5, Done);
    }
  }

  lemma TagOnHeading(w: World, fuel: nat, j: string, p: int, sha: string, some: Env, env: Env)
    requires Ready(w, j, p, sha, 3) && Agrees(some, env)
    ensures Heading(w, TagOn(w, fuel, j, p, some), j, p, sha, env, Placed(w, j, p, sha, env.text.value))
  {
    var t := TagStep(w, fuel, j, p, some);
    TagSameEnd(w, fuel, j, p, sha, some, env, t.w);
    if t.Go? {
      EmbedOnHeading(t.w, t.fuel, j, p, sha, some, env);
    }
  }

  lemma IndexOnHeading(w: World, fuel: nat, j: string, p: int, sha: string, some: Env, env: Env)
    requires Ready(w, j, p, sha, 2) && Agrees(some, env)
    ensures Heading(w, IndexOn(w, fuel, j, p, sha, some), j, p, sha, env, Placed(w, j, p, sha, env.text.value))
  {
    var i := IndexStep(w, fuel, j, sha, some);
    IndexSameEnd(w, fuel, j, p, sha, some, env, i.w);
    if i.Go? {
      TagOnHeading(i.w, i.fuel, j, p, sha, some, env);
    }
  }

  /** The job points at its paper. */
  ghost predicate Pointed(w: World, j: string, p: int, sha: string) {
    j in w.jobs && w.jobs[j].paperId == Some(p) && w.jobs[j].sha == Some(sha) && !w.jobs[j].duplicate
  }

  lemma ExtractOnHeading(w: World, fuel: nat, j: string, p: int, sha: string, some: Env, env: Env)
    requires Ready(w, j, p, sha, 2) && Agrees(some, env) && Pointed(w, j, p, sha)
    ensures Heading(w, ExtractOn(w, fuel, j, p, sha, some), j, p, sha, env, some.text == env.text)
  {
    var x := ExtractStep(w, fuel, j, p, some);
    ExtractSameEnd(w, fuel, j, p, sha, some, env, x.w);
    if x.Go? {
      IndexOnHeading(x.w, x.fuel, j, p, sha, some, env);
    }
  }

  lemma FindsOwn(w: World, p: int, sha: string)
    requires HasSha(w, p, sha) && OnePaperPerHash(w)
    ensures FindBySha(w, sha) == Some(p)
  {
    assert Apart(w, p, FindBySha(w, sha).value);
  }

  ghost function Headings(w: World, j: string, p: int, sha: string, env: Env, whole: bool): iset<Exec<Ending>>
    requires Ready(w, j, p, sha, 0) && env.text.Some? && env.extraction.Some?
  {
    iset r: Exec<Ending> | Heading(w, r, j, p, sha, env, whole)
  }

  lemma HeadingFrom(w: World, w1: World, r: Exec<Ending>, j: string, p: int, sha: string, env: Env, whole: bool)
    requires Ready(w, j, p, sha, 2) && env.text.Some? && env.extraction.Some?
    requires SameEnd(w, w1, j, p, sha, env, 2) && Heading(w1, r, j, p, sha, env, whole)
    ensures r in Headings(w, j, p, sha, env, whole)
  {
  }

  /** An attempt at a job whose extraction is marked goes straight to its paper and
      extracts again. */
  lemma PipelineHeading(w: World, fuel: nat, j: string, p: int, sha: string, some: Env, env: Env)
    requires Ready(w, j, p, sha, 2) && Agrees(some, env)
    ensures Pipeline(w, fuel, j, some) in Headings(w, j, p, sha, env, some.text == env.text)
  {
    AfterHeading(w, fuel, j, p, sha, Fetched(sha, w.jobs[j].artSource, None), some, env);
    SkipsDownload(w, fuel, j, sha, some);
  }

  lemma AfterHeading(w: World, fuel: nat, j: string, p: int, sha: string, got: Fetched, some: Env, env: Env)
    requires Ready(w, j, p, sha, 2) && Agrees(some, env) && got.sha == sha && got.meta.None?
    ensures AfterDownload(w, fuel, j, got, some) in Headings(w, j, p, sha, env, some.text == env.text)
  {
    PrefixMember(w.jobs[j].steps, 1);
    FindsOwn(w, p, sha);
    ClaimsOwn(w, fuel, j, p, got);
    if fuel > 0 {
      RowSameEnd(w, j, p, sha, env, 2, Claimed(w, j, p, sha).jobs[j]);
      ClaimedHeading(w, fuel, j, p, sha, got, some, env, Claimed(w, j, p, sha), fuel - 1);
    } else {
      GoesNot(w, j, got, some);
    }
  }

  lemma ClaimedHeading(w: World, fuel: nat, j: string, p: int, sha: string, got: Fetched, some: Env, env: Env,
                       claimed: World, left: nat)
    requires Ready(w, j, p, sha, 2) && Agrees(some, env) && got.sha == sha && got.meta.None?
    requires Extract in w.jobs[j].steps
    requires SameEnd(w, claimed, j, p, sha, env, 2) && Pointed(claimed, j, p, sha)
    requires ClaimPaper(w, fuel, j, got) == Go(claimed, left, p)
    ensures AfterDownload(w, fuel, j, got, some) in Headings(w, j, p, sha, env, some.text == env.text)
  {
    ResumedHeading(w, claimed, left, j, p, sha, some, env);
    GoesOn(w, fuel, j, p, got, some, claimed, left);
  }

  lemma ResumedHeading(w: World, w1: World, fuel: nat, j: string, p: int, sha: string, some: Env, env: Env)
    requires Ready(w, j, p, sha, 2) && Agrees(some, env) && SameEnd(w, w1, j, p, sha, env, 2) && Pointed(w1, j, p, sha)
    ensures ExtractOn(w1, fuel, j, p, sha, some) in Headings(w, j, p, sha, env, some.text == env.text)
  {
    ExtractOnHeading(w1, fuel, j, p, sha, some, env);
    HeadingFrom(w, w1, ExtractOn(w1, fuel, j, p, sha, some), j, p, sha, env, some.text == env.text);
  }

  function Claimed(w: World, j: string, p: int, sha: string): World
    requires j in w.jobs
  {
    SetJob(w, j, w.jobs[j].(paperId := Some(p), sha := Some(sha), duplicate := false))
  }

  lemma SkipsDownload(w: World, fuel: nat, j: string, sha: string, some: Env)
    requires j in w.jobs && OnDisk(w, w.jobs[j]) == Some(sha)
    ensures DownloadStep(w, fuel, j, some) == Go(w, fuel, Fetched(sha, w.jobs[j].artSource, None))
    ensures Pipeline(w, fuel, j, some) == AfterDownload(w, fuel, j, Fetched(sha, w.jobs[j].artSource, None), some)
  {
  }

  lemma ClaimsOwn(w: World, fuel: nat, j: string, p: int, got: Fetched)
    requires j in w.jobs && FindBySha(w, got.sha) == Some(p)
    ensures ClaimPaper(w, fuel, j, got) == if fuel == 0 then Stop(w) else Go(Claimed(w, j, p, got.sha), fuel - 1, p)
  {
  }

  lemma GoesOn(w: World, fuel: nat, j: string, p: int, got: Fetched, some: Env, claimed: World, left: nat)
    requires j in w.jobs && Extract in w.jobs[j].steps && got.meta.None?
    requires j in claimed.jobs && ClaimPaper(w, fuel, j, got) == Go(claimed, left, p)
    ensures AfterDownload(w, fuel, j, got, some) == ExtractOn(claimed, left, j, p, got.sha, some)
  {
    assert WriteMeta(claimed, left, p, got.meta) == Go(claimed, left, ());
  }

  lemma GoesNot(w: World, j: string, got: Fetched, some: Env)
    requires j in w.jobs && Extract in w.jobs[j].steps && ClaimPaper(w, 0, j, got) == Stop(w)
    ensures AfterDownload(w, 0, j, got, some) == Stop(w)
  {
  }

  // ---- attempts and retries ------------------------------------------------

  /** With all steps done there is nothing left to do. */
  lemma FinalIsCore(w: World, j: string, p: int, sha: string, env: Env)
    requires Ready(w, j, p, sha, 5) && env.text.Some? && env.extraction.Some?
    requires Placed(w, j, p, sha, env.text.value) && w.jobs[j].state.Done?
    ensures Final(w, j, p, sha, env) == Core(w, j)
  {
    assert w.jobs[j].steps == ORDER;
    assert w.texts[p := env.text.value] == w.texts;
  }

  lemma CountedSameEnd(w: World, j: string, p: int, sha: string, env: Env)
    requires Ready(w, j, p, sha, 2) && env.text.Some? && env.extraction.Some?
    ensures SameEnd(w, Counted(w, j), j, p, sha, env, 2)
  {
    RowSameEnd(w, j, p, sha, env, 2, w.jobs[j].(attempts := w.jobs[j].attempts + 1));
  }

  /** How a run settles. */
  lemma SettledSameEnd(w: World, r: Exec<Ending>, j: string, p: int, sha: string, env: Env, whole: bool, killed: bool,
                       w': World, ending: Option<Ending>)
    requires Ready(w, j, p, sha, 2) && env.text.Some? && env.extraction.Some? && r in Headings(w, j, p, sha, env, whole)
    requires w' == Settled(r, j, killed).0 && ending == Settled(r, j, killed).1
    ensures SameEnd(w, w', j, p, sha, env, 2)
    ensures ending.Some? ==> ending == Some(Finished)
    ensures ending.Some? && whole ==> Core(w', j) == Final(w, j, p, sha, env)
  {
    if r.Go? {
      if whole {
        FinalIsCore(r.w, j, p, sha, env);
      }
    } else {
      StateSameEnd(r.w, j, p, sha, env, 2, Failed);
    }
  }

  /** Any attempt keeps the job heading where it was, and one that goes through gets there. */
  lemma AttemptSameEnd(w: World, j: string, p: int, sha: string, some: Env, env: Env, w': World, ending: Option<Ending>)
    requires Ready(w, j, p, sha, 2) && Agrees(some, env)
    requires w' == Attempt(w, j, some).0 && ending == Attempt(w, j, some).1
    ensures SameEnd(w, w', j, p, sha, env, 2)
    ensures ending.Some? ==> ending == Some(Finished)
    ensures ending.Some? && some.text == env.text ==> Core(w', j) == Final(w, j, p, sha, env)
  {
    if some.counted {
      CountedSameEnd(w, j, p, sha, env);
      PipelineHeading(Counted(w, j), some.budget, j, p, sha, some, env);
      AttemptSettles(w, j, some);
      SettledSameEnd(Counted(w, j), Pipeline(Counted(w, j), some.budget, j, some), j, p, sha, env,
                     some.text == env.text, some.killed, w', ending);
    }
  }

  /** Attempts one after the other, each put back in the queue if it failed. */
  ghost function TryAll(w: World, j: string, attempts: seq<Env>): (w': World)
    requires j in w.jobs
    ensures j in w'.jobs
    decreases |attempts|
  {
    if attempts == [] then w else TryAll(Retry(Attempt(w, j, attempts[0]).0, j, true).0, j, attempts[1..])
  }

  lemma {:induction false} FailuresSameEnd(w: World, j: string, p: int, sha: string, attempts: seq<Env>, env: Env)
    requires Ready(w, j, p, sha, 2) && env.text.Some? && env.extraction.Some?
    requires forall i :: 0 <= i < |attempts| ==> Agrees(attempts[i], env)
    ensures SameEnd(w, TryAll(w, j, attempts), j, p, sha, env, 2)
    decreases |attempts|
  {
    if attempts != [] {
      var w1 := Attempt(w, j, attempts[0]).0;
      AttemptSameEnd(w, j, p, sha, attempts[0], env, w1, Attempt(w, j, attempts[0]).1);
      StateSameEnd(w1, j, p, sha, env, 2, Queued);
      FailuresSameEnd(Retry(w1, j, true).0, j, p, sha, attempts[1..], env);
    }
  }

  /** An attempt in which nothing fails. */
  predicate Good(env: Env) {
    env.counted && env.budget >= 19 && Willing(env)
  }

  lemma GoodFinishes(w: World, j: string, p: int, sha: string, env: Env)
    requires Ready(w, j, p, sha, 2) && Good(env)
    ensures Attempt(w, j, env).1.Some?
  {
    SmoothPipeline(w, j, env);
    AttemptSettles(w, j, env);
  }

  /** Once extraction is marked, an attempt in which nothing fails produces the same
      library no matter how many attempts failed before it, wherever they failed. */
  lemma ResumeSameLibrary(w: World, j: string, p: int, sha: string, failures: seq<Env>, env: Env)
    requires Ready(w, j, p, sha, 2) && Good(env)
    requires forall i :: 0 <= i < |failures| ==> Agrees(failures[i], env)
    ensures var w1 := TryAll(w, j, failures);
            && Attempt(w, j, env).1 == Some(Finished) && Attempt(w1, j, env).1 == Some(Finished)
            && Core(Attempt(w1, j, env).0, j) == Core(Attempt(w, j, env).0, j)
  {
    FailuresSameEnd(w, j, p, sha, failures, env);
    var w1 := TryAll(w, j, failures);
    GoodAttempt(w, j, p, sha, env);
    GoodAttempt(w1, j, p, sha, env);
  }

  lemma GoodAttempt(w: World, j: string, p: int, sha: string, env: Env)
    requires Ready(w, j, p, sha, 2) && Good(env)
    ensures Attempt(w, j, env).1 == Some(Finished) && Core(Attempt(w, j, env).0, j) == Final(w, j, p, sha, env)
  {
    GoodFinishes(w, j, p, sha, env);
    AttemptSameEnd(w, j, p, sha, env, env, Attempt(w, j, env).0, Attempt(w, j, env).1);
  }

  // ---- the attempt that marks extraction -----------------------------------

  /** After the hash is known, up to the point where extraction is marked. */
  ghost function Opening(w: World, fuel: nat, j: string, got: Fetched, env: Env): Exec<int>
    requires j in w.jobs
  {
    var (w1, f1, p) :- ClaimPaper(w, fuel, j, got);
    OpenPaper(w1, f1, j, p, got, env)
  }

  function OpenPaper(w: World, fuel: nat, j: string, p: int, got: Fetched, env: Env): Exec<int>
    requires j in w.jobs
  {
    var (w1, f1, _) :- WriteMeta(w, fuel, p, got.meta);
    var (w2, f2, _) :- ExtractStep(w1, f1, j, p, env);
    Go(w2, f2, p)
  }

  // What goes through does not depend on the budget.

  lemma DownloadSame(w: World, f: nat, g: nat, j: string, some: Env, env: Env)
    requires j in w.jobs && some.resolve == env.resolve
    requires DownloadStep(w, f, j, some).Go? && DownloadStep(w, g, j, env).Go?
    ensures DownloadStep(w, f, j, some).w == DownloadStep(w, g, j, env).w
    ensures DownloadStep(w, f, j, some).value == DownloadStep(w, g, j, env).value
  {
  }

  lemma OpenPaperSame(w: World, f: nat, g: nat, j: string, p: int, got: Fetched, some: Env, env: Env)
    requires j in w.jobs && some.text == env.text
    requires OpenPaper(w, f, j, p, got, some).Go? && OpenPaper(w, g, j, p, got, env).Go?
    ensures OpenPaper(w, f, j, p, got, some).w == OpenPaper(w, g, j, p, got, env).w
    ensures OpenPaper(w, f, j, p, got, some).value == p
  {
    assert WriteMeta(w, f, p, got.meta).w == WriteMeta(w, g, p, got.meta).w;
  }

  lemma OpeningSame(w: World, f: nat, g: nat, j: string, got: Fetched, some: Env, env: Env)
    requires j in w.jobs && some.text == env.text
    requires Opening(w, f, j, got, some).Go? && Opening(w, g, j, got, env).Go?
    ensures Opening(w, f, j, got, some).w == Opening(w, g, j, got, env).w
    ensures Opening(w, f, j, got, some).value == Opening(w, g, j, got, env).value
  {
    var c, b := ClaimPaper(w, f, j, got), ClaimPaper(w, g, j, got);
    assert c.w == b.w && c.value == b.value;
    OpenPaperSame(c.w, c.fuel, b.fuel, j, c.value, got, some, env);
    OpenPaperSame(c.w, b.fuel, b.fuel, j, c.value, got, env, env);
  }

  /** Past its opening a run goes on to the tree index. */
  lemma RunsPastOpening(w: World, fuel: nat, j: string, got: Fetched, env: Env)
    requires j in w.jobs && !(FindBySha(w, got.sha).Some? && Extract !in w.jobs[j].steps)
    ensures var o := Opening(w, fuel, j, got, env);
            AfterDownload(w, fuel, j, got, env)
            == match o
               case Go(w1, f1, p) => IndexOn(w1, f1, j, p, got.sha, env)
               case Stop(w1) => Stop(w1)
  {
  }

  /** An opening that stops has not marked extraction. */
  lemma OpeningUnmarked(w: World, fuel: nat, j: string, got: Fetched, env: Env)
    requires j in w.jobs && Extract !in w.jobs[j].steps && Opening(w, fuel, j, got, env).Stop?
    ensures Extract !in Opening(w, fuel, j, got, env).w.jobs[j].steps
  {
  }

  /** A finished download names bytes that are on disk. */
  lemma DownloadOnDisk(w: World, fuel: nat, j: string, env: Env)
    requires j in w.jobs && DownloadStep(w, fuel, j, env).Go? && (env.resolve.Some? ==> env.resolve.value.sha != "")
    ensures var d := DownloadStep(w, fuel, j, env);
            OnDisk(d.w, d.w.jobs[j]) == Some(d.value.sha)
  {
  }

  /** An opening that goes through leaves the job ready to resume. */
  lemma OpeningReady(w: World, fuel: nat, j: string, got: Fetched, env: Env)
    requires Midway(w, j, 1) && OnDisk(w, w.jobs[j]) == Some(got.sha) && Opening(w, fuel, j, got, env).Go?
    ensures var o := Opening(w, fuel, j, got, env);
            Ready(o.w, j, o.value, got.sha, 2) && env.text.Some? && Placed(o.w, j, o.value, got.sha, env.text.value)
  {
    ClaimKeeps(w, fuel, j, got);
    var c := ClaimPaper(w, fuel, j, got);
    assert OnDisk(c.w, c.w.jobs[j]) == Some(got.sha);
    OpenPaperReady(c.w, c.fuel, j, c.value, got, env);
  }

  lemma OpenPaperReady(w: World, fuel: nat, j: string, p: int, got: Fetched, env: Env)
    requires Midway(w, j, 1) && OnDisk(w, w.jobs[j]) == Some(got.sha) && HasSha(w, p, got.sha)
    requires w.jobs[j].paperId == Some(p) && !w.jobs[j].duplicate && w.jobs[j].sha == Some(got.sha)
    requires OpenPaper(w, fuel, j, p, got, env).Go?
    ensures var o := OpenPaper(w, fuel, j, p, got, env);
            Ready(o.w, j, p, got.sha, 2) && env.text.Some? && Placed(o.w, j, p, got.sha, env.text.value)
  {
    MetaKeeps(w, fuel, j, p, got.meta);
    var m := WriteMeta(w, fuel, p, got.meta);
    assert PaperKept(w, m.w, p);
    ExtractReady(m.w, m.fuel, j, p, got.sha, env);
  }

  lemma ExtractReady(w: World, fuel: nat, j: string, p: int, sha: string, env: Env)
    requires Midway(w, j, 1) && OnDisk(w, w.jobs[j]) == Some(sha) && HasSha(w, p, sha) && Pointed(w, j, p, sha)
    requires ExtractStep(w, fuel, j, p, env).Go?
    ensures var x := ExtractStep(w, fuel, j, p, env);
            Ready(x.w, j, p, sha, 2) && env.text.Some? && Placed(x.w, j, p, sha, env.text.value)
  {
    ExtractKeeps(w, fuel, j, p, env);
    assert SoundAt(ExtractStep(w, fuel, j, p, env).w, j);
  }

  /** Where both runs stand once the opening is behind them. */
  lemma PastOpening(w: World, f: nat, g: nat, j: string, got: Fetched, some: Env, env: Env) returns (p: int)
    requires Midway(w, j, 1) && OnDisk(w, w.jobs[j]) == Some(got.sha) && Extract !in w.jobs[j].steps
    requires Agrees(some, env) && some.text == env.text
    requires AfterDownload(w, f, j, got, some).Stop? && Extract in AfterDownload(w, f, j, got, some).w.jobs[j].steps
    requires AfterDownload(w, g, j, got, env).Go?
    ensures Ready(AfterDownload(w, f, j, got, some).w, j, p, got.sha, 2)
    ensures Final(AfterDownload(w, f, j, got, some).w, j, p, got.sha, env) ==
            Core(AfterDownload(w, g, j, got, env).w, j)
  {
    ShortUnmarked(w, f, j, got, some);
    RunsPastOpening(w, f, j, got, some);
    RunsPastOpening(w, g, j, got, env);
    if Opening(w, f, j, got, some).Stop? {
      OpeningUnmarked(w, f, j, got, some);
    }
    var o, b := Opening(w, f, j, got, some), Opening(w, g, j, got, env);
    OpeningSame(w, f, g, j, got, some, env);
    OpeningReady(w, f, j, got, some);
    p := o.value;
    IndexOnHeading(o.w, o.fuel, j, p, got.sha, some, env);
    IndexOnHeading(o.w, b.fuel, j, p, got.sha, env, env);
    FinalIsCore(AfterDownload(w, g, j, got, env).w, j, p, got.sha, env);
  }

  /** The short-circuit does not mark extraction. */
  lemma ShortUnmarked(w: World, fuel: nat, j: string, got: Fetched, env: Env)
    requires j in w.jobs && Extract !in w.jobs[j].steps
    requires Extract in AfterDownload(w, fuel, j, got, env).w.jobs[j].steps
    ensures FindBySha(w, got.sha).None?
  {
  }

  lemma PipelinePast(w: World, f: nat, g: nat, j: string, some: Env, env: Env) returns (p: int, sha: string)
    requires Midway(w, j, 0) && Extract !in w.jobs[j].steps
    requires Agrees(some, env) && some.text == env.text && some.resolve == env.resolve
    requires env.resolve.Some? ==> env.resolve.value.sha != ""
    requires Pipeline(w, f, j, some).Stop? && Extract in Pipeline(w, f, j, some).w.jobs[j].steps
    requires Pipeline(w, g, j, env).Go?
    ensures Ready(Pipeline(w, f, j, some).w, j, p, sha, 2)
    ensures Final(Pipeline(w, f, j, some).w, j, p, sha, env) == Core(Pipeline(w, g, j, env).w, j)
  {
    DownloadUnmarked(w, f, j, some);
    DownloadKeeps(w, f, j, some);
    var d, e := DownloadStep(w, f, j, some), DownloadStep(w, g, j, env);
    assert d.Go? && e.Go?;
    DownloadSame(w, f, g, j, some, env);
    DownloadOnDisk(w, f, j, some);
    sha := d.value.sha;
    p := PastOpening(d.w, d.fuel, e.fuel, j, d.value, some, env);
  }

  lemma DownloadUnmarked(w: World, fuel: nat, j: string, env: Env)
    requires j in w.jobs && Extract !in w.jobs[j].steps
    ensures Extract !in DownloadStep(w, fuel, j, env).w.jobs[j].steps
  {
  }

  /** The attempt that marks extraction and fails later leaves the job heading for the
      library that an attempt without a failure would have produced in its place. */
  lemma FirstFailure(w: World, j: string, first: Env, env: Env, w1: World) returns (p: int, sha: string)
    requires Sound(w) && j in w.jobs && w.jobs[j].state.Queued? && Extract !in w.jobs[j].steps
    requires Agrees(first, env) && first.text == env.text && first.resolve == env.resolve
    requires env.resolve.Some? ==> env.resolve.value.sha != ""
    requires w1 == Attempt(w, j, first).0 && Attempt(w, j, first).1 == None && Extract in w1.jobs[j].steps
    requires env.counted && Attempt(w, j, env).1.Some?
    ensures Ready(w1, j, p, sha, 2) && Final(w1, j, p, sha, env) == Core(Attempt(w, j, env).0, j)
  {
    var counted := Counted(w, j);
    CountedKeeps(w, j);
    AttemptSettles(w, j, first);
    AttemptSettles(w, j, env);
    p, sha := PipelinePast(counted, first.budget, env.budget, j, first, env);
    var r := Pipeline(counted, first.budget, j, first);
    StateSameEnd(r.w, j, p, sha, env, 2, Failed);
  }

  /** From submission on: if an attempt fails after it marked extraction, then however
      many more fail before one goes through, the library ends as if the first attempt
      had not failed. */
  lemma ResumedLikeUninterrupted(w: World, j: string, first: Env, failures: seq<Env>, env: Env, w1: World, w2: World)
    requires Sound(w) && j in w.jobs && w.jobs[j].state.Queued? && Extract !in w.jobs[j].steps
    requires Agrees(first, env) && first.text == env.text && first.resolve == env.resolve
    requires env.resolve.Some? ==> env.resolve.value.sha != ""
    requires w1 == Attempt(w, j, first).0 && Attempt(w, j, first).1 == None && Extract in w1.jobs[j].steps
    requires Smooth(w, j, env)
    requires forall i :: 0 <= i < |failures| ==> Agrees(failures[i], env)
    requires w2 == TryAll(Retry(w1, j, true).0, j, failures)
    ensures Attempt(w2, j, env).1 == Some(Finished)
    ensures Core(Attempt(w2, j, env).0, j) == Core(Attempt(w, j, env).0, j)
  {
    SmoothAttemptEnds(w, j, env, Attempt(w, j, env).0, Attempt(w, j, env).1);
    var p, sha := FirstFailure(w, j, first, env, w1);
    StateSameEnd(w1, j, p, sha, env, 2, Queued);
    FailuresSameEnd(Retry(w1, j, true).0, j, p, sha, failures, env);
    GoodAttempt(w2, j, p, sha, env);
  }
}
