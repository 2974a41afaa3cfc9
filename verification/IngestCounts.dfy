/** The attempt count of a job, which names its queue entries: every attempt that gets as far
    as counting adds one, nothing else touches it, and a job keeps its kind and payload. */
module IngestCounts {
  import opened Wrappers
  import opened Ingest
  import opened IngestRuns
  import opened IngestQueue

  /** The parts of a job's row that no step writes. */
  predicate SameRequest(before: Job, after: Job) {
    after.kind == before.kind && after.payload == before.payload && after.attempts == before.attempts
  }

  /** The runs that leave those parts of j as in job. */
  ghost function Untouching<T(!new)>(j: string, job: Job): iset<Exec<T>> {
    iset r: Exec<T> | j in r.w.jobs && SameRequest(job, r.w.jobs[j])
  }

  ghost predicate Carries(w: World, j: string, job: Job) {
    j in w.jobs && SameRequest(job, w.jobs[j])
  }

  lemma DownloadUntouching(w: World, fuel: nat, j: string, env: Env, job: Job)
    requires Carries(w, j, job)
    ensures DownloadStep(w, fuel, j, env) in Untouching<Fetched>(j, job)
  {
  }

  lemma EmbedOnUntouching(w: World, fuel: nat, j: string, p: int, env: Env, job: Job)
    requires Carries(w, j, job)
    ensures EmbedOn(w, fuel, j, p, env) in Untouching<Ending>(j, job)
  {
  }

  lemma TagOnUntouching(w: World, fuel: nat, j: string, p: int, env: Env, job: Job)
    requires Carries(w, j, job)
    ensures TagOn(w, fuel, j, p, env) in Untouching<Ending>(j, job)
  {
    var t := TagStep(w, fuel, j, p, env);
    if t.Go? {
      EmbedOnUntouching(t.w, t.fuel, j, p, env, job);
    }
  }

  lemma IndexOnUntouching(w: World, fuel: nat, j: string, p: int, sha: string, env: Env, job: Job)
    requires Carries(w, j, job)
    ensures IndexOn(w, fuel, j, p, sha, env) in Untouching<Ending>(j, job)
  {
    var i := IndexStep(w, fuel, j, sha, env);
    if i.Go? {
      TagOnUntouching(i.w, i.fuel, j, p, env, job);
    }
  }

  lemma ProcessUntouching(w: World, fuel: nat, j: string, p: int, got: Fetched, env: Env, job: Job)
    requires Carries(w, j, job)
    ensures Process(w, fuel, j, p, got, env) in Untouching<Ending>(j, job)
  {
    var m := WriteMeta(w, fuel, p, got.meta);
    if m.Go? {
      var x := ExtractStep(m.w, m.fuel, j, p, env);
      if x.Go? {
        IndexOnUntouching(x.w, x.fuel, j, p, got.sha, env, job);
      }
    }
  }

  lemma AfterDownloadUntouching(w: World, fuel: nat, j: string, got: Fetched, env: Env, job: Job)
    requires Carries(w, j, job)
    ensures AfterDownload(w, fuel, j, got, env) in Untouching<Ending>(j, job)
  {
    var c := ClaimPaper(w, fuel, j, got);
    if c.Go? {
      ProcessUntouching(c.w, c.fuel, j, c.value, got, env, job);
    }
  }

  lemma PipelineUntouching(w: World, fuel: nat, j: string, env: Env, job: Job)
    requires Carries(w, j, job)
    ensures Pipeline(w, fuel, j, env) in Untouching<Ending>(j, job)
  {
    DownloadUntouching(w, fuel, j, env, job);
    var d := DownloadStep(w, fuel, j, env);
    if d.Go? {
      AfterDownloadUntouching(d.w, d.fuel, j, d.value, env, job);
    }
  }

  /** One attempt counts as one, however it ends, unless counting itself fails. */
  lemma AttemptCounted(w: World, j: string, env: Env, w': World)
    requires j in w.jobs && w' == Attempt(w, j, env).0
    ensures j in w'.jobs && w'.jobs[j].attempts == w.jobs[j].attempts + if env.counted then 1 else 0
    ensures w'.jobs[j].kind == w.jobs[j].kind && w'.jobs[j].payload == w.jobs[j].payload
  {
    if env.counted {
      var counted := Counted(w, j);
      PipelineUntouching(counted, env.budget, j, env, counted.jobs[j]);
      AttemptSettles(w, j, env);
    }
  }

  // ---- over a run ----------------------------------------------------------

  /** The step is an attempt at j that gets as far as counting. */
  ghost predicate Tries(s: Service, op: Op, j: string) {
    op.Work? && op.j == j && j in s.queue && j in s.w.jobs && op.env.counted
  }

  ghost function TriesIn(s: Service, ops: seq<Op>, j: string): nat
    decreases |ops|
  {
    if ops == [] then 0 else (if Tries(s, ops[0], j) then 1 else 0) + TriesIn(Next(s, ops[0]), ops[1..], j)
  }

  lemma NextCounted(s: Service, op: Op, j: string)
    requires ServiceSound(s) && j in s.w.jobs
    ensures var w' := Next(s, op).w;
            && j in w'.jobs && w'.jobs[j].attempts == s.w.jobs[j].attempts + (if Tries(s, op, j) then 1 else 0)
            && w'.jobs[j].kind == s.w.jobs[j].kind && w'.jobs[j].payload == s.w.jobs[j].payload
  {
    if op.Work? && op.j in s.queue && op.j in s.w.jobs {
      assert WaitingAt(s, op.j);
      var (w', ending) := Attempt(s.w, op.j, op.env);
      if op.j == j {
        AttemptCounted(s.w, j, op.env, w');
      } else {
        AttemptKeeps(s.w, op.j, op.env, w', ending);
        assert JobKept(s.w, w', j);
      }
    }
  }

  /** Over any run a job's count is the number of attempts made at it, and what was
      submitted stays as submitted. */
  lemma {:induction false} RunCounted(s: Service, ops: seq<Op>, j: string)
    requires ServiceSound(s) && j in s.w.jobs
    ensures var w' := Run(s, ops).w;
            && j in w'.jobs && w'.jobs[j].attempts == s.w.jobs[j].attempts + TriesIn(s, ops, j)
            && w'.jobs[j].kind == s.w.jobs[j].kind && w'.jobs[j].payload == s.w.jobs[j].payload
    decreases |ops|
  {
    if ops != [] {
      NextSound(s, ops[0]);
      NextCounted(s, ops[0], j);
      RunCounted(Next(s, ops[0]), ops[1..], j);
    }
  }

  /** What a submission leaves: a row for what was asked, with nothing done and no attempt
      made, queued unless the queue refused it, and in the queue exactly if it was taken. */
  lemma SubmitOutcome(s: Service, j: string, kind: Kind, payload: Payload, handing: Handing)
    requires ServiceSound(s) && j !in s.w.jobs
    ensures var s' := Next(s, Submit(j, kind, payload, handing));
            && j in s'.w.jobs
            && var job := s'.w.jobs[j];
               && job.kind == kind && job.payload == payload && job.attempts == 0 && job.steps == [] && !job.duplicate
               && job.paperId.None? && job.artSha.None? && job.artSource.None?
               && job.sha == (if kind.Upload? then payload.sha else None)
               && (job.state.Failed? <==> handing.Refused?) && (job.state.Queued? <==> !handing.Refused?)
               && s'.queue - {j} == s.queue && (j in s'.queue <==> handing.Taken?)
               && s'.w == s.w.(jobs := s'.w.jobs) && s'.w.jobs - {j} == s.w.jobs
  {
    assert WaitingAt(s, j);
    assert s.queue - {j} == s.queue && s.w.jobs - {j} == s.w.jobs;
  }
}
