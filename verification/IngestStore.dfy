/** The ingest worker as it runs: job and paper rows rewritten one statement at a time,
    with an exception leaving behind whatever was already written. Every method is
    proved to do exactly what the pipeline on values says, so what IngestRuns and
    IngestQueue prove of attempts and runs holds of this code. */
module IngestStore {
  import opened Wrappers
  import opened Ingest
  import opened IngestRuns

  /** A method's outcome against the value form: None is an exception. */
  ghost predicate Does<T>(r: Exec<T>, w: World, fuel: nat, value: Option<T>) {
    match r
    case Go(w', fuel', v) => w == w' && fuel == fuel' && value == Some(v)
    case Stop(w') => w == w' && value == None
  }

  lemma SettleDone(r: Exec<Ending>, w: World, fuel: nat, ending: Option<Ending>, j: string)
    requires Does(r, w, fuel, ending) && j in r.w.jobs
    ensures j in w.jobs && Settled(r, j, true) == (w, ending)
    ensures Settled(r, j, false) == (if ending.None? then SetState(w, j, Failed) else w, ending)
  {
  }

  class Worker {
    var jobs: map<string, Job>
    var papers: map<int, Paper>
    var nextPaper: int
    var texts: map<int, string>
    var files: set<string>
    var trees: set<string>
    var tagCalls: seq<string>
    /** Statements that will still succeed in the attempt at hand. */
    var fuel: nat

    ghost function View(): World
      reads this
    {
      World(jobs, papers, nextPaper, texts, files, trees, tagCalls)
    }

    constructor ()
      ensures View() == EMPTY_WORLD && fuel == 0
    {
      jobs, papers, nextPaper, texts, files, trees, tagCalls, fuel := map[], map[], 1, map[], {}, {}, [], 0;
    }

    // ---- one statement each ----------------------------------------------

    /** Every statement passes here first; once the budget is spent it raises. */
    method Spend() returns (ok: bool)
      modifies this`fuel
      ensures ok <==> old(fuel) > 0
      ensures fuel == if ok then old(fuel) - 1 else old(fuel)
    {
      ok := fuel > 0;
      if ok {
        fuel := fuel - 1;
      }
    }

    method WriteState(j: string, s: JobState) returns (ok: Option<()>)
      requires j in jobs
      modifies this`jobs, this`fuel
      ensures Does(Put(old(View()), old(fuel), SetState(old(View()), j, s)), View(), fuel, ok)
    {
      var go := Spend();
      if !go {
        return None;
      }
      jobs := jobs[j := jobs[j].(state := s)];
      ok := Some(());
    }

    /** Columns given as None keep their value. */
    method Attach(j: string, paperId: Option<int>, sha: Option<string>, duplicate: Option<bool>)
      returns (ok: Option<()>)
      requires j in jobs
      modifies this`jobs, this`fuel
      ensures var row := old(jobs)[j];
              var row' := row.(paperId := Or(paperId, row.paperId), sha := Or(sha, row.sha),
                               duplicate := if duplicate.Some? then duplicate.value else row.duplicate);
              Does(Put(old(View()), old(fuel), SetJob(old(View()), j, row')), View(), fuel, ok)
    {
      var go := Spend();
      if !go {
        return None;
      }
      var row := jobs[j];
      if paperId.Some? {
        row := row.(paperId := paperId);
      }
      if sha.Some? {
        row := row.(sha := sha);
      }
      if duplicate.Some? {
        row := row.(duplicate := duplicate.value);
      }
      jobs := jobs[j := row];
      ok := Some(());
    }

    /** Artifacts given as None keep their value. */
    method MarkStepDone(j: string, step: Step, sha: Option<string>, source: Option<string>) returns (ok: Option<()>)
      requires j in jobs
      modifies this`jobs, this`fuel
      ensures var row := old(jobs)[j];
              var row' := row.(steps := Marked(row.steps, step), artSha := Or(sha, row.artSha),
                               artSource := Or(source, row.artSource));
              Does(Put(old(View()), old(fuel), SetJob(old(View()), j, row')), View(), fuel, ok)
    {
      var row := jobs[j];
      if step !in row.steps {
        row := row.(steps := row.steps + [step]);
      }
      if sha.Some? {
        row := row.(artSha := sha);
      }
      if source.Some? {
        row := row.(artSource := source);
      }
      var go := Spend();
      if !go {
        return None;
      }
      jobs := jobs[j := row];
      ok := Some(());
    }

    /** The row with a hash; the hash column is unique. */
    method FindBySha256(sha: string) returns (p: Option<int>)
      requires OnePaperPerHash(View())
      ensures p == FindBySha(View(), sha)
    {
      ghost var w := View();
      var rest := papers.Keys;
      while rest != {}
        invariant rest <= papers.Keys
        invariant forall q :: HasSha(w, q, sha) ==> q in rest
        decreases rest
      {
        SomeId(rest);
        var q :| q in rest;
        if papers[q].sha == sha {
          assert HasSha(w, q, sha) && Apart(w, FindBySha(w, sha).value, q);
          return Some(q);
        }
        rest := rest - {q};
      }
      p := None;
    }

    // ---- the steps -------------------------------------------------------

    method StepDownload(j: string, env: Env) returns (got: Option<Fetched>)
      requires j in jobs
      modifies this`jobs, this`files, this`fuel
      ensures Does(DownloadStep(old(View()), old(fuel), j, env), View(), fuel, got)
    {
      var job := jobs[j];
      if Download in job.steps {
        var sha := if TextKnown(job.artSha) then job.artSha else job.sha;
        if TextKnown(sha) && sha.value in files {
          return Some(Fetched(sha.value, job.artSource, None));
        }
      }
      var ok := WriteState(j, Downloading);
      if ok.None? {
        return None;
      }
      got := Fetch(job, env);
      if got.None? {
        return None;
      }
      ok := Attach(j, None, Some(got.value.sha), None);
      if ok.None? {
        return None;
      }
      ok := MarkStepDone(j, Download, Some(got.value.sha), got.value.source);
      if ok.None? {
        return None;
      }
    }

    /** The uploaded file, or the bytes behind the URL stored under their hash. */
    method Fetch(job: Job, env: Env) returns (got: Option<Fetched>)
      modifies this`files, this`fuel
      ensures Does(Locate(old(View()), old(fuel), job, env), View(), fuel, got)
    {
      if job.kind.Upload? {
        if !TextKnown(job.payload.sha) || job.payload.sha.value !in files {
          return None;
        }
        return Some(Fetched(job.payload.sha.value, job.payload.source, None));
      }
      if !TextKnown(job.payload.url) || env.resolve.None? {
        return None;
      }
      var go := Spend();
      if !go {
        return None;
      }
      files := files + {env.resolve.value.sha};
      got := Some(Fetched(env.resolve.value.sha, Some(env.resolve.value.source), env.resolve.value.meta));
    }

    method StepExtract(j: string, p: int, env: Env) returns (text: Option<string>)
      requires j in jobs
      modifies this`jobs, this`texts, this`fuel
      ensures Does(ExtractStep(old(View()), old(fuel), j, p, env), View(), fuel, text)
    {
      var ok := WriteState(j, Extracting);
      if ok.None? || env.text.None? {
        return None;
      }
      var go := Spend();
      if !go {
        return None;
      }
      texts := texts[p := env.text.value];
      ok := MarkStepDone(j, Extract, None, None);
      if ok.None? {
        return None;
      }
      text := env.text;
    }

    method StepIndex(j: string, sha: string, env: Env) returns (ok: Option<()>)
      requires j in jobs
      modifies this`jobs, this`trees, this`fuel
      ensures Does(IndexStep(old(View()), old(fuel), j, sha, env), View(), fuel, ok)
    {
      if Index in jobs[j].steps {
        return Some(());
      }
      ok := WriteState(j, Indexing);
      if ok.None? {
        return None;
      }
      if env.treeBuilt {
        trees := trees + {sha};
      }
      ok := MarkStepDone(j, Index, None, None);
    }

    method StepTag(j: string, p: int, env: Env) returns (ok: Option<()>)
      requires j in jobs
      modifies this`jobs, this`papers, this`tagCalls, this`fuel
      ensures Does(TagStep(old(View()), old(fuel), j, p, env), View(), fuel, ok)
    {
      if Tag in jobs[j].steps {
        return Some(());
      }
      ok := WriteState(j, Tagging);
      if ok.None? || p !in papers {
        return None;
      }
      var known := papers[p].biblio;
      tagCalls := tagCalls + [j];
      if env.extraction.None? {
        return None;
      }
      ok := UpdatePaper(p, OnlyMissing(known, env.extraction.value.biblio), Some(env.extraction.value.summary));
      if ok.None? || !env.topicsApplied {
        return None;
      }
      ok := MarkStepDone(j, Tag, None, None);
    }

    /** Columns given as None are left alone. */
    method UpdatePaper(p: int, given: Biblio, summary: Option<(string, string)>) returns (ok: Option<()>)
      requires p in papers
      modifies this`papers, this`fuel
      ensures var row := old(papers)[p];
              var row' := row.(biblio := Updated(row.biblio, given), summary := Or(summary, row.summary));
              Does(Put(old(View()), old(fuel), old(View()).(papers := old(papers)[p := row'])), View(), fuel, ok)
    {
      var go := Spend();
      if !go {
        return None;
      }
      papers := papers[p := papers[p].(biblio := Updated(papers[p].biblio, given),
                                       summary := Or(summary, papers[p].summary))];
      ok := Some(());
    }

    method StepEmbed(j: string, p: int, env: Env) returns (ok: Option<()>)
      requires j in jobs
      modifies this`jobs, this`fuel
      ensures Does(EmbedStep(old(View()), old(fuel), j, p, env), View(), fuel, ok)
    {
      if Embed in jobs[j].steps {
        return Some(());
      }
      ok := WriteState(j, Embedding);
      if ok.None? || p !in papers || (env.embeddable && env.vectorStored.None?) {
        return None;
      }
      ok := MarkStepDone(j, Embed, None, None);
    }

    // ---- the attempt -----------------------------------------------------

    /** The row with this hash, made if there is none, and the job pointed at it. */
    method Claim(j: string, got: Fetched) returns (p: Option<int>)
      requires j in jobs && OnePaperPerHash(View())
      modifies this`jobs, this`papers, this`nextPaper, this`fuel
      ensures Does(ClaimPaper(old(View()), old(fuel), j, got), View(), fuel, p)
    {
      p := FindBySha256(got.sha);
      if p.None? {
        var go := Spend();
        if !go {
          return None;
        }
        papers := papers[nextPaper := Paper(got.sha, got.source, NO_BIBLIO, None)];
        p := Some(nextPaper);
        nextPaper := nextPaper + 1;
      }
      var ok := Attach(j, p, Some(got.sha), Some(false));
      if ok.None? {
        return None;
      }
    }

    /** From the claimed paper to the done state. */
    method RunSteps(j: string, p: int, got: Fetched, env: Env) returns (ending: Option<Ending>)
      requires j in jobs
      modifies this
      ensures Does(Process(old(View()), old(fuel), j, p, got, env), View(), fuel, ending)
    {
      var ok: Option<()>;
      if got.meta.Some? && p in papers {
        ok := UpdatePaper(p, got.meta.value, None);
        if ok.None? {
          return None;
        }
      }
      var text := StepExtract(j, p, env);
      if text.None? {
        return None;
      }
      ending := RunLaterSteps(j, p, got.sha, env);
    }

    method RunLaterSteps(j: string, p: int, sha: string, env: Env) returns (ending: Option<Ending>)
      requires j in jobs
      modifies this
      ensures Does(IndexOn(old(View()), old(fuel), j, p, sha, env), View(), fuel, ending)
    {
      var ok := StepIndex(j, sha, env);
      if ok.None? {
        return None;
      }
      ok := StepTag(j, p, env);
      if ok.None? {
        return None;
      }
      ok := StepEmbed(j, p, env);
      if ok.None? {
        return None;
      }
      ok := WriteState(j, Done);
      ending := if ok.Some? then Some(Finished) else None;
    }

    method RunGuarded(j: string, env: Env) returns (ending: Option<Ending>)
      requires j in jobs && OnePaperPerHash(View())
      modifies this
      ensures Does(Pipeline(old(View()), old(fuel), j, env), View(), fuel, ending)
    {
      ghost var w := View();
      var got := StepDownload(j, env);
      if got.None? {
        return None;
      }
      SamePapers(w, View());
      ending := RunFrom(j, got.value, env);
    }

    method RunFrom(j: string, got: Fetched, env: Env) returns (ending: Option<Ending>)
      requires j in jobs && OnePaperPerHash(View())
      modifies this
      ensures Does(AfterDownload(old(View()), old(fuel), j, got, env), View(), fuel, ending)
    {
      var existing := FindBySha256(got.sha);
      if existing.Some? && Extract !in jobs[j].steps {
        var ok := Attach(j, existing, Some(got.sha), Some(true));
        if ok.None? {
          return None;
        }
        ok := WriteState(j, Done);
        return if ok.Some? then Some(DuplicateOf(existing.value)) else None;
      }
      var p := Claim(j, got);
      if p.None? {
        return None;
      }
      ending := RunSteps(j, p.value, got, env);
    }

    /** run_ingest: count the attempt, run it, and mark the job failed if it raised. */
    method RunAttempt(j: string, env: Env) returns (ending: Option<Ending>)
      requires j in jobs && OnePaperPerHash(View())
      modifies this
      ensures View() == Attempt(old(View()), j, env).0 && ending == Attempt(old(View()), j, env).1
    {
      fuel := env.budget;
      if !env.counted {
        return None;
      }
      jobs := jobs[j := jobs[j].(attempts := jobs[j].attempts + 1)];
      SamePapers(old(View()), View());
      ending := RunSettled(j, env, Counted(old(View()), j), env.budget);
    }

    /** w and left name the state at the call. */
    method RunSettled(j: string, env: Env, ghost w: World, ghost left: nat) returns (ending: Option<Ending>)
      requires j in jobs && OnePaperPerHash(View()) && w == View() && left == fuel
      modifies this
      ensures (View(), ending) == Settled(Pipeline(w, left, j, env), j, env.killed)
    {
      ending := RunGuarded(j, env);
      SettleDone(Pipeline(w, left, j, env), View(), fuel, ending, j);
      if ending.None? && !env.killed {
        jobs := jobs[j := jobs[j].(state := Failed)];
      }
    }

    /** An attempt at any job of a sound library that is not done leaves it sound, whatever
        failed; an id that names no job is an error and changes nothing. */
    method RunIngest(j: string, env: Env) returns (ending: Option<Ending>)
      requires Sound(View()) && (j in jobs ==> !jobs[j].state.Done?)
      modifies this
      ensures Sound(View())
      ensures j in old(jobs) ==> Grows(old(View()), View(), j) && AtMostOneCall(old(View()), View(), j)
      ensures j !in old(jobs) ==> View() == old(View()) && ending.None?
      ensures ending.Some? ==> Ended(View(), j, ending.value)
    {
      if j !in jobs {
        return None;
      }
      ghost var w := View();
      ending := RunAttempt(j, env);
      AttemptKeeps(w, j, env, View(), ending);
    }

    /** The retry route; false is a refusal or an unavailable queue. */
    method RetryJob(j: string, enqueued: bool) returns (ok: bool)
      modifies this`jobs
      ensures (View(), ok) == Retry(old(View()), j, enqueued)
    {
      if j !in jobs || !jobs[j].state.Failed? {
        assert View() == old(View());
        return false;
      }
      jobs := jobs[j := jobs[j].(state := Queued)];
      if !enqueued {
        jobs := jobs[j := jobs[j].(state := Failed)];
        assert jobs == old(jobs)[j := old(jobs)[j].(state := Failed)];
        return false;
      }
      ok := true;
    }
  }
}
