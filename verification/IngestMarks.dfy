/** The promise of resuming read off the marks: which failures, wherever and however many,
    leave the job's library as if nothing had failed. */
module IngestMarks {
  import opened Wrappers
  import opened Ingest
  import opened IngestRuns
  import opened IngestResume
  import opened IngestWindows

  /** What the marks say between two attempts: extraction is marked, or no paper was made
      and, if the download is marked, the metadata found then will not be missed. */
  ghost predicate Unharmed(v: World, j: string, got: Fetched, said: Extraction)
    requires j in v.jobs
  {
    || Extract in v.jobs[j].steps
    || (FindBySha(v, got.sha).None? && (OnDisk(v, v.jobs[j]).None? || NothingLost(got.meta, said.biblio)))
  }

  // ---- an attempt and the retry after it, by where it starts ----------------

  lemma StepFromBegun(w: World, v: World, j: string, got: Fetched, some: Env, env: Env, v': World)
    requires Sound(w) && Unstarted(w, j, env, got) && Begun(w, v, j, got) && Echoes(some, env)
    requires v' == Retry(Attempt(v, j, some).0, j, true).0
    ensures LeftWith(w, v', j, got, got, env)
  {
    var (v1, ending) := Attempt(v, j, some);
    AttemptFromBegun(w, v, j, got, some, env, v1, ending);
    RowLeft(w, v1, j, got, got, env, Queued, v1.jobs[j].attempts);
  }

  lemma StepFromDownloaded(w: World, v: World, j: string, got: Fetched, some: Env, env: Env, v': World)
    requires Sound(w) && Unstarted(w, j, env, got) && Downloaded(w, v, j, got) && Echoes(some, env)
    requires v' == Retry(Attempt(v, j, some).0, j, true).0
    ensures LeftWith(w, v', j, got, NoMeta(got), env) && !Begun(w, v', j, got)
  {
    var (v1, ending) := Attempt(v, j, some);
    AttemptFromDownloaded(w, v, j, got, some, env, v1, ending);
    RowLeft(w, v1, j, got, NoMeta(got), env, Queued, v1.jobs[j].attempts);
    DownloadedSound(w, v, j, got);
    AttemptKeeps(v, j, some, v1, ending);
    assert v'.jobs[j].steps == v1.jobs[j].steps && |v1.jobs[j].steps| >= 1;
  }

  lemma StepFromStranded(v: World, j: string, sha: string, some: Env, v': World)
    requires Stranded(v, j, sha) && v' == Retry(Attempt(v, j, some).0, j, true).0
    ensures Stranded(v', j, sha)
  {
    var (v1, ending) := Attempt(v, j, some);
    AttemptFromStranded(v, j, sha, some, v1, ending);
    RowStranded(v1, j, sha, Queued, v1.jobs[j].attempts);
  }

  lemma StepFromUnderway(w: World, v: World, j: string, now: Fetched, some: Env, env: Env, v': World)
    requires j in w.jobs && Agrees(some, env) && Underway(w, v, j, now, env)
    requires v' == Retry(Attempt(v, j, some).0, j, true).0
    ensures Underway(w, v', j, now, env)
  {
    var (v1, ending) := Attempt(v, j, some);
    AttemptFromUnderway(w, v, j, now, some, env, v1, ending);
    RowUnderway(w, v1, j, now, env, Queued, v1.jobs[j].attempts);
  }

  // ---- which places are resumable ------------------------------------------

  lemma ResumableAt(w: World, v: World, j: string, got: Fetched, now: Fetched, env: Env)
    requires Unstarted(w, j, env, got) && LeftWith(w, v, j, got, now, env) && (now == got || now == NoMeta(got))
    ensures j in v.jobs
    ensures Begun(w, v, j, got) ==> Resumable(v, j, got, env.extraction.value)
    ensures Downloaded(w, v, j, got) ==>
              (Resumable(v, j, got, env.extraction.value) <==> NothingLost(got.meta, env.extraction.value.biblio))
    ensures Stranded(v, j, got.sha) ==> !Resumable(v, j, got, env.extraction.value)
    ensures Underway(w, v, j, now, env) ==>
              (Resumable(v, j, got, env.extraction.value) <==>
               now == got || NothingLost(got.meta, env.extraction.value.biblio))
  {
    PlacesApart(w, v, j, got, env);
    NothingLostMeaning(got, env.extraction.value);
    if Underway(w, v, j, now, env) {
      UnderwayPaper(w, v, j, now, env);
    }
  }

  lemma UnharmedAt(w: World, v: World, j: string, got: Fetched, now: Fetched, env: Env)
    requires Unstarted(w, j, env, got) && LeftWith(w, v, j, got, now, env) && (now == got || now == NoMeta(got))
    ensures j in v.jobs
    ensures Begun(w, v, j, got) || Underway(w, v, j, now, env) ==> Unharmed(v, j, got, env.extraction.value)
    ensures Downloaded(w, v, j, got) ==>
              (Unharmed(v, j, got, env.extraction.value) <==> NothingLost(got.meta, env.extraction.value.biblio))
    ensures Stranded(v, j, got.sha) ==> !Unharmed(v, j, got, env.extraction.value)
  {
    PlacesApart(w, v, j, got, env);
    if Underway(w, v, j, now, env) {
      UnderwayPaper(w, v, j, now, env);
    }
  }

  // ---- along the failures --------------------------------------------------

  /** A job stays resumable through an attempt exactly when it comes out unharmed. */
  lemma MarksStep(w: World, v: World, j: string, got: Fetched, now: Fetched, some: Env, env: Env, v': World)
    returns (next: Fetched)
    requires Sound(w) && Unstarted(w, j, env, got) && LeftWith(w, v, j, got, now, env) && Echoes(some, env)
    requires (now == got || now == NoMeta(got)) && v' == Retry(Attempt(v, j, some).0, j, true).0
    ensures (next == got || next == NoMeta(got)) && LeftWith(w, v', j, got, next, env) && j in v'.jobs
    ensures var said := env.extraction.value;
            Resumable(v', j, got, said) <==> Resumable(v, j, got, said) && Unharmed(v', j, got, said)
  {
    ResumableAt(w, v, j, got, now, env);
    next := now;
    if Begun(w, v, j, got) {
      StepFromBegun(w, v, j, got, some, env, v');
      next := got;
    } else if Downloaded(w, v, j, got) {
      StepFromDownloaded(w, v, j, got, some, env, v');
      next := NoMeta(got);
    } else if Stranded(v, j, got.sha) {
      StepFromStranded(v, j, got.sha, some, v');
    } else {
      StepFromUnderway(w, v, j, now, some, env, v');
    }
    ResumableAt(w, v', j, got, next, env);
    UnharmedAt(w, v', j, got, next, env);
  }

  /** Unharmed now and after each of the attempts. */
  ghost predicate StaysUnharmed(v: World, j: string, got: Fetched, said: Extraction, attempts: seq<Env>)
    requires j in v.jobs
    decreases |attempts|
  {
    && Unharmed(v, j, got, said)
    && (attempts != [] ==> StaysUnharmed(Retry(Attempt(v, j, attempts[0]).0, j, true).0, j, got, said, attempts[1..]))
  }

  lemma {:induction false} MarksRun(w: World, v: World, j: string, got: Fetched, now: Fetched, attempts: seq<Env>,
                                    env: Env)
    requires Sound(w) && Unstarted(w, j, env, got) && LeftWith(w, v, j, got, now, env)
    requires now == got || now == NoMeta(got)
    requires forall i :: 0 <= i < |attempts| ==> Echoes(attempts[i], env)
    ensures j in v.jobs
    ensures Resumable(TryAll(v, j, attempts), j, got, env.extraction.value) <==>
            Resumable(v, j, got, env.extraction.value) && StaysUnharmed(v, j, got, env.extraction.value, attempts)
    decreases |attempts|
  {
    ResumableAt(w, v, j, got, now, env);
    if attempts != [] {
      var v' := Retry(Attempt(v, j, attempts[0]).0, j, true).0;
      var next := MarksStep(w, v, j, got, now, attempts[0], env, v');
      MarksRun(w, v', j, got, next, attempts[1..], env);
    }
  }

  /** Unharmed after the first i attempts. */
  ghost predicate UnharmedAfter(v: World, j: string, got: Fetched, said: Extraction, attempts: seq<Env>, i: nat)
    requires j in v.jobs && i <= |attempts|
  {
    Unharmed(TryAll(v, j, attempts[..i]), j, got, said)
  }

  lemma UnharmedLater(v: World, j: string, got: Fetched, said: Extraction, attempts: seq<Env>, i: nat, v': World)
    requires j in v.jobs && i < |attempts| && v' == Retry(Attempt(v, j, attempts[0]).0, j, true).0
    ensures j in v'.jobs
    ensures UnharmedAfter(v, j, got, said, attempts, i + 1) <==> UnharmedAfter(v', j, got, said, attempts[1..], i)
  {
    assert attempts[..i + 1] != [] && attempts[..i + 1][0] == attempts[0]
      && attempts[..i + 1][1..] == attempts[1..][..i];
    assert TryAll(v, j, attempts[..i + 1]) == TryAll(v', j, attempts[1..][..i]);
  }

  lemma UnharmedFirst(v: World, j: string, got: Fetched, said: Extraction, attempts: seq<Env>)
    requires j in v.jobs
    ensures UnharmedAfter(v, j, got, said, attempts, 0) <==> Unharmed(v, j, got, said)
  {
    assert attempts[..0] == [];
  }

  lemma {:induction false} UnharmedThroughout(v: World, j: string, got: Fetched, said: Extraction, attempts: seq<Env>,
                                              i: nat)
    requires j in v.jobs && i <= |attempts| && StaysUnharmed(v, j, got, said, attempts)
    ensures UnharmedAfter(v, j, got, said, attempts, i)
    decreases i
  {
    if i == 0 {
      UnharmedFirst(v, j, got, said, attempts);
    } else {
      var v' := Retry(Attempt(v, j, attempts[0]).0, j, true).0;
      UnharmedLater(v, j, got, said, attempts, i - 1, v');
      UnharmedThroughout(v', j, got, said, attempts[1..], i - 1);
    }
  }

  lemma {:induction false} FirstHarm(v: World, j: string, got: Fetched, said: Extraction, attempts: seq<Env>)
    returns (i: nat)
    requires j in v.jobs && !StaysUnharmed(v, j, got, said, attempts)
    ensures i <= |attempts| && !UnharmedAfter(v, j, got, said, attempts, i)
    decreases |attempts|
  {
    if Unharmed(v, j, got, said) {
      var v' := Retry(Attempt(v, j, attempts[0]).0, j, true).0;
      i := FirstHarm(v', j, got, said, attempts[1..]);
      UnharmedLater(v, j, got, said, attempts, i, v');
      i := i + 1;
    } else {
      UnharmedFirst(v, j, got, said, attempts);
      i := 0;
    }
  }

  lemma StaysUnharmedMeaning(v: World, j: string, got: Fetched, said: Extraction, attempts: seq<Env>)
    requires j in v.jobs
    ensures StaysUnharmed(v, j, got, said, attempts) <==>
            forall i: nat :: i <= |attempts| ==> UnharmedAfter(v, j, got, said, attempts, i)
  {
    if StaysUnharmed(v, j, got, said, attempts) {
      forall i: nat | i <= |attempts|
        ensures UnharmedAfter(v, j, got, said, attempts, i)
      {
        UnharmedThroughout(v, j, got, said, attempts, i);
      }
    } else {
      var i := FirstHarm(v, j, got, said, attempts);
    }
  }

  /** For every job not yet started and any number of failures anywhere, the library ends as
      if nothing had failed exactly when the job was unharmed after every failure. */
  lemma ResumeByMarks(w: World, j: string, got: Fetched, failures: seq<Env>, env: Env)
    requires Sound(w) && Unstarted(w, j, env, got)
    requires forall i :: 0 <= i < |failures| ==> Echoes(failures[i], env)
    ensures Core(Attempt(TryAll(w, j, failures), j, env).0, j) == Core(Attempt(w, j, env).0, j) <==>
            forall i: nat :: i <= |failures| ==> UnharmedAfter(w, j, got, env.extraction.value, failures, i)
  {
    assert Begun(w, w, j, got);
    ResumeExactly(w, j, got, failures, env, TryAll(w, j, failures));
    ResumableAt(w, w, j, got, got, env);
    MarksRun(w, w, j, got, got, failures, env);
    StaysUnharmedMeaning(w, j, got, env.extraction.value, failures);
  }
}
