/** The library together with its task queue, over any sequence of submissions, attempts,
    retries and failures: what always holds, and which jobs nothing can move any more. */
module IngestQueue {
  import opened Wrappers
  import opened Ingest
  import opened IngestRuns

  // ---- runs ----------------------------------------------------------------

  /** The library, and the jobs with an entry waiting in the queue. */
  datatype Service = Service(w: World, queue: set<string>)

  /** How handing a job to the queue ends: with an entry, with a refusal or an outage that
      is reported, or not at all because the process dies first. */
  datatype Handing = Taken | Refused | Died

  datatype Op =
    | Submit(j: string, kind: Kind, payload: Payload, handing: Handing)
    | Work(j: string, env: Env)
    | RetryJob(j: string, handing: Handing)
    | StoreFile(sha: string)
    | LoseFile(sha: string)

  /** A queued row that was handed to the queue. */
  function Handed(w: World, queue: set<string>, j: string, handing: Handing): Service
    requires j in w.jobs
  {
    match handing
    case Taken => Service(w, queue + {j})
    case Refused => Service(SetState(w, j, Failed), queue)
    case Died => Service(w, queue)
  }

  /** Work takes an entry out, and an entry is tried once. */
  ghost function Next(s: Service, op: Op): Service {
    match op
    case Submit(j, kind, payload, handing) =>
      if j in s.w.jobs then s else Handed(SetJob(s.w, j, NewJob(kind, payload)), s.queue, j, handing)
    case Work(j, env) =>
      if j in s.queue && j in s.w.jobs then Service(Attempt(s.w, j, env).0, s.queue - {j}) else s
    case RetryJob(j, handing) =>
      if j in s.w.jobs && s.w.jobs[j].state.Failed? then Handed(SetState(s.w, j, Queued), s.queue, j, handing) else s
    case StoreFile(sha) => s.(w := s.w.(files := s.w.files + {sha}))
    case LoseFile(sha) => s.(w := s.w.(files := s.w.files - {sha}))
  }

  ghost function Run(s: Service, ops: seq<Op>): Service
    decreases |ops|
  {
    if ops == [] then s else Run(Next(s, ops[0]), ops[1..])
  }

  /** A retry that reaches the queue, or is told it cannot, is the retry route's. */
  lemma RetryHanded(s: Service, j: string, handing: Handing)
    requires !handing.Died?
    ensures Next(s, RetryJob(j, handing)).w == Retry(s.w, j, handing.Taken?).0
  {
    if j in s.w.jobs {
      assert SetState(SetState(s.w, j, Queued), j, Failed) == SetState(s.w, j, Failed);
    }
  }

  ghost predicate WaitingAt(s: Service, j: string) {
    j in s.queue ==> j in s.w.jobs && s.w.jobs[j].state.Queued?
  }

  /** A sound library, every entry being for a queued job. */
  ghost predicate ServiceSound(s: Service) {
    Sound(s.w) && forall j :: WaitingAt(s, j)
  }

  lemma RowPut(w: World, j: string, job: Job)
    requires Sound(w) && JobSound(job)
    ensures Sound(SetJob(w, j, job))
  {
    forall k
      ensures SoundAt(SetJob(w, j, job), k)
    {
      assert SoundAt(w, k);
    }
    SamePapers(w, SetJob(w, j, job));
  }

  lemma FilesPut(w: World, files: set<string>)
    requires Sound(w)
    ensures Sound(w.(files := files))
  {
    forall k
      ensures SoundAt(w.(files := files), k)
    {
      assert SoundAt(w, k);
    }
    SamePapers(w, w.(files := files));
  }

  lemma HandedSound(w: World, queue: set<string>, j: string, handing: Handing)
    requires Sound(w) && j in w.jobs && w.jobs[j].state.Queued? && j !in queue
    requires forall k :: k != j ==> WaitingAt(Service(w, queue), k)
    ensures ServiceSound(Handed(w, queue, j, handing))
  {
    assert SoundAt(w, j);
    RowPut(w, j, w.jobs[j].(state := Failed));
    var s' := Handed(w, queue, j, handing);
    forall k
      ensures WaitingAt(s', k)
    {
      assert k != j ==> WaitingAt(Service(w, queue), k);
    }
  }

  lemma NextSound(s: Service, op: Op)
    requires ServiceSound(s)
    ensures ServiceSound(Next(s, op))
  {
    match op
    case Submit(j, kind, payload, handing) =>
      if j !in s.w.jobs {
        RowHanded(s, j, NewJob(kind, payload), handing);
      }
    case RetryJob(j, handing) =>
      if j in s.w.jobs && s.w.jobs[j].state.Failed? {
        assert SoundAt(s.w, j);
        RowHanded(s, j, s.w.jobs[j].(state := Queued), handing);
      }
    case StoreFile(sha) => FilesKept(s, s.w.files + {sha});
    case LoseFile(sha) => FilesKept(s, s.w.files - {sha});
    case Work(j, env) =>
      if j in s.queue && j in s.w.jobs {
        assert WaitingAt(s, j);
        WorkSound(s, j, env);
      }
  }

  lemma RowHanded(s: Service, j: string, job: Job, handing: Handing)
    requires ServiceSound(s) && JobSound(job) && job.state.Queued? && (j in s.w.jobs ==> s.w.jobs[j].state.Failed?)
    ensures ServiceSound(Handed(SetJob(s.w, j, job), s.queue, j, handing))
  {
    assert WaitingAt(s, j);
    RowPut(s.w, j, job);
    var w := SetJob(s.w, j, job);
    forall k | k != j
      ensures WaitingAt(Service(w, s.queue), k)
    {
      assert WaitingAt(s, k);
    }
    HandedSound(w, s.queue, j, handing);
  }

  lemma FilesKept(s: Service, files: set<string>)
    requires ServiceSound(s)
    ensures ServiceSound(s.(w := s.w.(files := files)))
  {
    FilesPut(s.w, files);
    forall k
      ensures WaitingAt(s.(w := s.w.(files := files)), k)
    {
      assert WaitingAt(s, k);
    }
  }

  lemma WorkSound(s: Service, j: string, env: Env)
    requires ServiceSound(s) && j in s.queue && j in s.w.jobs && s.w.jobs[j].state.Queued?
    ensures ServiceSound(Next(s, Work(j, env)))
  {
    var (w', ending) := Attempt(s.w, j, env);
    AttemptKeeps(s.w, j, env, w', ending);
    forall k
      ensures WaitingAt(Service(w', s.queue - {j}), k)
    {
      assert WaitingAt(s, k) && (k != j ==> JobKept(s.w, w', k));
    }
  }

  const EMPTY_SERVICE := Service(EMPTY_WORLD, {})

  lemma {:induction false} RunSound(s: Service, ops: seq<Op>)
    requires ServiceSound(s)
    ensures ServiceSound(Run(s, ops))
    decreases |ops|
  {
    if ops != [] {
      NextSound(s, ops[0]);
      RunSound(Next(s, ops[0]), ops[1..]);
    }
  }

  /** From an empty library, over any sequence of submissions, attempts failing
      anywhere, retries and lost files: every job's completed steps are a prefix of the
      pipeline, a job done other than as a duplicate has all five, there is one paper
      per hash, and every queue entry is for a queued job. */
  lemma LibrarySound(ops: seq<Op>)
    ensures ServiceSound(Run(EMPTY_SERVICE, ops))
  {
    EmptySound();
    RunSound(EMPTY_SERVICE, ops);
  }

  lemma EmptySound()
    ensures ServiceSound(EMPTY_SERVICE)
  {
    forall j
      ensures SoundAt(EMPTY_WORLD, j) && WaitingAt(EMPTY_SERVICE, j)
    {
    }
    forall p
      ensures Issued(EMPTY_WORLD, p)
    {
    }
    forall p, q
      ensures Apart(EMPTY_WORLD, p, q)
    {
    }
  }

  function CallsFor(calls: seq<string>, j: string): nat {
    multiset(calls)[j]
  }

  lemma NextTagged(s: Service, op: Op, j: string)
    requires ServiceSound(s) && j in s.w.jobs && Tag in s.w.jobs[j].steps
    ensures var w' := Next(s, op).w;
            j in w'.jobs && Tag in w'.jobs[j].steps && CallsFor(w'.tagCalls, j) == CallsFor(s.w.tagCalls, j)
  {
    if op.Work? && op.j in s.queue && op.j in s.w.jobs {
      assert WaitingAt(s, op.j);
      var (w', ending) := Attempt(s.w, op.j, op.env);
      AttemptKeeps(s.w, op.j, op.env, w', ending);
      if op.j == j {
        TagLater(s.w, w', j);
      } else {
        assert JobKept(s.w, w', j);
      }
    }
  }

  /** Once the tag step is marked, no later attempt of any run pays for tagging again. */
  lemma {:induction false} TagPaidOnce(s: Service, ops: seq<Op>, j: string)
    requires ServiceSound(s) && j in s.w.jobs && Tag in s.w.jobs[j].steps
    ensures CallsFor(Run(s, ops).w.tagCalls, j) == CallsFor(s.w.tagCalls, j)
    decreases |ops|
  {
    if ops != [] {
      NextSound(s, ops[0]);
      NextTagged(s, ops[0], j);
      TagPaidOnce(Next(s, ops[0]), ops[1..], j);
    }
  }

  // ---- jobs that nothing moves any more ------------------------------------

  /** Neither failed, so the retry route refuses it, nor waiting for the worker. */
  ghost predicate Stuck(s: Service, j: string) {
    j in s.w.jobs && !s.w.jobs[j].state.Failed? && j !in s.queue
  }

  /** Stuck without having finished. */
  ghost predicate Lost(s: Service, j: string) {
    Stuck(s, j) && !s.w.jobs[j].state.Done?
  }

  ghost predicate Unmoved(s: Service, j: string, ops: seq<Op>)
    requires j in s.w.jobs
  {
    j in Run(s, ops).w.jobs && Run(s, ops).w.jobs[j] == s.w.jobs[j]
  }

  lemma NextLeavesStuck(s: Service, op: Op, j: string)
    requires ServiceSound(s) && Stuck(s, j)
    ensures Stuck(Next(s, op), j) && Next(s, op).w.jobs[j] == s.w.jobs[j]
  {
    if op.Work? && op.j in s.queue && op.j in s.w.jobs {
      assert WaitingAt(s, op.j);
      var (w', ending) := Attempt(s.w, op.j, op.env);
      AttemptKeeps(s.w, op.j, op.env, w', ending);
      assert JobKept(s.w, w', j);
    }
  }

  /** Nothing that happens later changes the row of a stuck job. */
  lemma {:induction false} StuckForever(s: Service, ops: seq<Op>, j: string)
    requires ServiceSound(s) && Stuck(s, j)
    ensures Unmoved(s, j, ops)
    decreases |ops|
  {
    if ops != [] {
      NextSound(s, ops[0]);
      NextLeavesStuck(s, ops[0], j);
      StuckForever(Next(s, ops[0]), ops[1..], j);
    }
  }

  /** An attempt in which the first write already fails. */
  const HOPELESS := Env(None, None, false, None, false, false, None, true, 0, false)

  lemma HopelessFails(w: World, j: string)
    requires j in w.jobs
    ensures j in Attempt(w, j, HOPELESS).0.jobs && Attempt(w, j, HOPELESS).0.jobs[j].state.Failed?
  {
    var d := DownloadStep(Counted(w, j), 0, j, HOPELESS);
    if d.Go? {
      NoWriteStops(d.w, j, d.value);
    }
  }

  lemma NoWriteStops(w: World, j: string, got: Fetched)
    requires j in w.jobs
    ensures AfterDownload(w, 0, j, got, HOPELESS).Stop?
  {
  }

  /** No run moves a job exactly when it has not failed and has no queue entry. */
  lemma UnmovedExactly(s: Service, j: string)
    requires ServiceSound(s) && j in s.w.jobs
    ensures (forall ops :: Unmoved(s, j, ops)) <==> Stuck(s, j)
  {
    if Stuck(s, j) {
      forall ops
        ensures Unmoved(s, j, ops)
      {
        StuckForever(s, ops, j);
      }
    } else {
      assert WaitingAt(s, j);
      var op := if j in s.queue then Work(j, HOPELESS) else RetryJob(j, Taken);
      HopelessFails(s.w, j);
      OneOp(s, op);
      assert !Unmoved(s, j, [op]);
    }
  }

  lemma OneOp(s: Service, op: Op)
    ensures Run(s, [op]) == Next(s, op)
  {
    assert Run(Next(s, op), []) == Next(s, op);
  }

  /** A step of the service after which a job that was not lost is lost: the process dies
      before the queue has the job, or in the attempt, or counting the attempt fails, which
      is outside the handler. */
  ghost predicate Loses(s: Service, op: Op, j: string) {
    match op
    case Submit(k, _, _, handing) => k == j && j !in s.w.jobs && handing.Died?
    case RetryJob(k, handing) => k == j && j in s.w.jobs && s.w.jobs[j].state.Failed? && handing.Died?
    case Work(k, env) =>
      k == j && j in s.queue && j in s.w.jobs && Attempt(s.w, j, env).1.None? && (env.killed || !env.counted)
    case _ => false
  }

  /** Exactly these steps lose a job, and a lost job stays as it is for good. */
  lemma LostExactly(s: Service, op: Op, j: string)
    requires ServiceSound(s) && !Lost(s, j)
    ensures Lost(Next(s, op), j) <==> Loses(s, op, j)
  {
    assert WaitingAt(s, j);
    if op.Work? && op.j in s.queue && op.j in s.w.jobs {
      assert WaitingAt(s, op.j);
      var (w', ending) := Attempt(s.w, op.j, op.env);
      AttemptKeeps(s.w, op.j, op.env, w', ending);
      if op.j == j {
        AttemptLoses(s.w, j, op.env, w', ending);
      } else {
        assert j in s.w.jobs ==> JobKept(s.w, w', j);
      }
    }
  }

  lemma AttemptLoses(w: World, j: string, env: Env, w': World, ending: Option<Ending>)
    requires Sound(w) && j in w.jobs && w.jobs[j].state.Queued?
    requires w' == Attempt(w, j, env).0 && ending == Attempt(w, j, env).1
    ensures j in w'.jobs
    ensures !w'.jobs[j].state.Failed? && !w'.jobs[j].state.Done? <==> ending.None? && (env.killed || !env.counted)
  {
    AttemptKeeps(w, j, env, w', ending);
    if env.counted {
      PipelineUnfinished(Counted(w, j), env.budget, j, env);
      AttemptSettles(w, j, env);
    }
  }

  /** So a job whose attempt went unrecorded is never taken up again, whatever state it is in. */
  lemma KilledForever(s: Service, j: string, env: Env, ops: seq<Op>)
    requires ServiceSound(s) && j in s.queue && j in s.w.jobs && Attempt(s.w, j, env).1.None?
    requires env.killed || !env.counted
    ensures var s' := Next(s, Work(j, env));
            Lost(s', j) && Unmoved(s', j, ops)
  {
    assert WaitingAt(s, j);
    LostExactly(s, Work(j, env), j);
    NextSound(s, Work(j, env));
    StuckForever(Next(s, Work(j, env)), ops, j);
  }
}
