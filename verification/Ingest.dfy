/** The ingest pipeline on values: what one attempt at a job does to the tables and
    the file store, when any statement or collaborator along the way may fail. */
module Ingest {
  import opened Wrappers
  import opened Text

  datatype Step = Download | Extract | Index | Tag | Embed

  const ORDER: seq<Step> := [Download, Extract, Index, Tag, Embed]

  datatype JobState = Queued | Downloading | Extracting | Indexing | Tagging | Embedding | Done | Failed

  datatype Kind = Upload | Url

  datatype Payload = Payload(sha: Option<string>, url: Option<string>, source: Option<string>)

  /** An ingest_jobs row; steps and the two artifacts come from progress_json. */
  datatype Job = Job(kind: Kind, payload: Payload, state: JobState, paperId: Option<int>, sha: Option<string>,
                     duplicate: bool, attempts: nat, steps: seq<Step>,
                     artSha: Option<string>, artSource: Option<string>)

  /** The bibliographic columns, each possibly NULL. */
  datatype Biblio = Biblio(title: Option<string>, authors: Option<string>, year: Option<int>,
                           venue: Option<string>, abst: Option<string>)

  datatype Paper = Paper(sha: string, source: Option<string>, biblio: Biblio, summary: Option<(string, string)>)

  const NO_BIBLIO := Biblio(None, None, None, None, None)

  /** Tables, stores, and the log of tagging calls by job. */
  datatype World = World(jobs: map<string, Job>, papers: map<int, Paper>, nextPaper: int,
                         texts: map<int, string>, files: set<string>, trees: set<string>, tagCalls: seq<string>)

  datatype Resolved = Resolved(sha: string, source: string, meta: Option<Biblio>)

  datatype Extraction = Extraction(biblio: Biblio, summary: (string, string))

  /** What the collaborators of one attempt would return; None is an exception.
      counted says whether counting the attempt succeeds, the budget is how many writes
      succeed after that before one fails, and killed says whether the process then dies
      instead of raising. */
  datatype Env = Env(resolve: Option<Resolved>, text: Option<string>, treeBuilt: bool, extraction: Option<Extraction>,
                     topicsApplied: bool, embeddable: bool, vectorStored: Option<bool>, counted: bool,
                     budget: nat, killed: bool)

  // ---- running until something fails ---------------------------------------

  datatype Exec<+T> = Go(w: World, fuel: nat, value: T) | Stop(w: World) {
    predicate IsFailure() {
      Stop?
    }

    function PropagateFailure<U>(): Exec<U>
      requires Stop?
    {
      Stop(w)
    }

    function Extract(): (World, nat, T)
      requires Go?
    {
      (w, fuel, value)
    }
  }

  /** One write: it happens whole or raises. */
  function Put(w: World, fuel: nat, w': World): Exec<()> {
    if fuel == 0 then Stop(w) else Go(w', fuel - 1, ())
  }

  function Need<T>(w: World, fuel: nat, value: Option<T>): Exec<T> {
    if value.Some? then Go(w, fuel, value.value) else Stop(w)
  }

  // ---- rows ----------------------------------------------------------------

  function SetJob(w: World, j: string, job: Job): World {
    w.(jobs := w.jobs[j := job])
  }

  function SetState(w: World, j: string, s: JobState): World
    requires j in w.jobs
  {
    SetJob(w, j, w.jobs[j].(state := s))
  }

  function Marked(steps: seq<Step>, s: Step): seq<Step> {
    if s in steps then steps else steps + [s]
  }

  function MarkStep(w: World, j: string, s: Step): World
    requires j in w.jobs
  {
    SetJob(w, j, w.jobs[j].(steps := Marked(w.jobs[j].steps, s)))
  }

  ghost predicate HasSha(w: World, p: int, sha: string) {
    p in w.papers && w.papers[p].sha == sha
  }

  ghost function FindBySha(w: World, sha: string): (r: Option<int>)
    ensures r.Some? ==> HasSha(w, r.value, sha)
    ensures r.None? ==> forall p :: !HasSha(w, p, sha)
  {
    if p :| HasSha(w, p, sha) then Some(p) else None
  }

  /** A value the tagging step treats as already known. */
  predicate TextKnown(v: Option<string>) {
    v.Some? && v.value != ""
  }

  /** The author column holds at least one name between its separators. */
  predicate AuthorsKnown(v: Option<string>) {
    v.Some? && exists i :: 0 <= i < |v.value| && v.value[i] != ';' && !IsSpace(v.value[i])
  }

  predicate YearKnown(v: Option<int>) {
    v.Some? && v.value != 0
  }

  function Or<T>(a: Option<T>, b: Option<T>): Option<T> {
    if a.Some? then a else b
  }

  /** UPDATE of the columns given, NULLs ignored. */
  function Updated(held: Biblio, given: Biblio): Biblio {
    Biblio(Or(given.title, held.title), Or(given.authors, held.authors), Or(given.year, held.year),
           Or(given.venue, held.venue), Or(given.abst, held.abst))
  }

  /** The extraction's values for the columns that are missing, and nothing else. */
  function OnlyMissing(known: Biblio, given: Biblio): Biblio {
    Biblio(if TextKnown(known.title) then None else given.title,
           if AuthorsKnown(known.authors) then None else given.authors,
           if YearKnown(known.year) then None else given.year,
           if TextKnown(known.venue) then None else given.venue,
           if TextKnown(known.abst) then None else given.abst)
  }

  // ---- the steps -----------------------------------------------------------

  datatype Fetched = Fetched(sha: string, source: Option<string>, meta: Option<Biblio>)

  /** The bytes of a finished download, if the row still names a stored file. */
  function OnDisk(w: World, job: Job): Option<string> {
    var sha := if TextKnown(job.artSha) then job.artSha else job.sha;
    if Download in job.steps && TextKnown(sha) && sha.value in w.files then sha else None
  }

  function Locate(w: World, fuel: nat, job: Job, env: Env): (r: Exec<Fetched>)
    ensures r.w.jobs.Keys == w.jobs.Keys
    ensures r.w == w.(files := r.w.files)
  {
    if job.kind.Upload? then
      if TextKnown(job.payload.sha) && job.payload.sha.value in w.files
      then Go(w, fuel, Fetched(job.payload.sha.value, job.payload.source, None))
      else Stop(w)
    else if !TextKnown(job.payload.url) || env.resolve.None? then Stop(w)
    else
      var got := env.resolve.value;
      var (w1, f1, _) :- Put(w, fuel, w.(files := w.files + {got.sha}));
      Go(w1, f1, Fetched(got.sha, Some(got.source), got.meta))
  }

  function DownloadStep(w: World, fuel: nat, j: string, env: Env): (r: Exec<Fetched>)
    requires j in w.jobs
    ensures r.w.jobs.Keys == w.jobs.Keys
    ensures r.w == w.(jobs := r.w.jobs, files := r.w.files)
  {
    var job := w.jobs[j];
    if OnDisk(w, job).Some? then Go(w, fuel, Fetched(OnDisk(w, job).value, job.artSource, None))
    else
      var (w1, f1, _) :- Put(w, fuel, SetState(w, j, Downloading));
      var (w2, f2, got) :- Locate(w1, f1, job, env);
      var (w3, f3, _) :- Put(w2, f2, SetJob(w2, j, w2.jobs[j].(sha := Some(got.sha))));
      var done := w3.jobs[j].(steps := Marked(w3.jobs[j].steps, Download), artSha := Some(got.sha),
                              artSource := Or(got.source, w3.jobs[j].artSource));
      var (w4, f4, _) :- Put(w3, f3, SetJob(w3, j, done));
      Go(w4, f4, got)
  }

  function ExtractStep(w: World, fuel: nat, j: string, p: int, env: Env): (r: Exec<string>)
    requires j in w.jobs
    ensures r.w.jobs.Keys == w.jobs.Keys
    ensures r.w == w.(jobs := r.w.jobs, texts := r.w.texts)
    ensures r.w.jobs[j].duplicate == w.jobs[j].duplicate
  {
    var (w1, f1, _) :- Put(w, fuel, SetState(w, j, Extracting));
    var (w2, f2, text) :- Need(w1, f1, env.text);
    var (w3, f3, _) :- Put(w2, f2, w2.(texts := w2.texts[p := text]));
    var (w4, f4, _) :- Put(w3, f3, MarkStep(w3, j, Extract));
    Go(w4, f4, text)
  }

  /** A tree that cannot be built is a warning: the step is marked either way. */
  function IndexStep(w: World, fuel: nat, j: string, sha: string, env: Env): (r: Exec<()>)
    requires j in w.jobs
    ensures r.w.jobs.Keys == w.jobs.Keys
    ensures r.w == w.(jobs := r.w.jobs, trees := r.w.trees)
    ensures r.w.jobs[j].duplicate == w.jobs[j].duplicate
  {
    if Index in w.jobs[j].steps then Go(w, fuel, ())
    else
      var (w1, f1, _) :- Put(w, fuel, SetState(w, j, Indexing));
      var w2 := if env.treeBuilt then w1.(trees := w1.trees + {sha}) else w1;
      Put(w2, f1, MarkStep(w2, j, Index))
  }

  function TagStep(w: World, fuel: nat, j: string, p: int, env: Env): (r: Exec<()>)
    requires j in w.jobs
    ensures r.w.jobs.Keys == w.jobs.Keys
    ensures r.w == w.(jobs := r.w.jobs, papers := r.w.papers, tagCalls := r.w.tagCalls)
    ensures r.w.papers.Keys == w.papers.Keys
    ensures r.w.jobs[j].duplicate == w.jobs[j].duplicate
  {
    if Tag in w.jobs[j].steps then Go(w, fuel, ())
    else
      var (w1, f1, _) :- Put(w, fuel, SetState(w, j, Tagging));
      if p !in w1.papers then Stop(w1)
      else
        var paper := w1.papers[p];
        var w2 := w1.(tagCalls := w1.tagCalls + [j]);
        var (w3, f3, said) :- Need(w2, f1, env.extraction);
        var tagged := paper.(biblio := Updated(paper.biblio, OnlyMissing(paper.biblio, said.biblio)),
                             summary := Some(said.summary));
        var (w4, f4, _) :- Put(w3, f3, w3.(papers := w3.papers[p := tagged]));
        if !env.topicsApplied then Stop(w4) else Put(w4, f4, MarkStep(w4, j, Tag))
  }

  function EmbedStep(w: World, fuel: nat, j: string, p: int, env: Env): (r: Exec<()>)
    requires j in w.jobs
    ensures r.w.jobs.Keys == w.jobs.Keys
    ensures r.w == w.(jobs := r.w.jobs)
    ensures r.w.jobs[j].duplicate == w.jobs[j].duplicate
  {
    if Embed in w.jobs[j].steps then Go(w, fuel, ())
    else
      var (w1, f1, _) :- Put(w, fuel, SetState(w, j, Embedding));
      if p !in w1.papers || (env.embeddable && env.vectorStored.None?) then Stop(w1)
      else Put(w1, f1, MarkStep(w1, j, Embed))
  }

  datatype Ending = Finished | DuplicateOf(paper: int)

  /** get_or_create_by_sha256, then the job is attached to the paper. */
  ghost function ClaimPaper(w: World, fuel: nat, j: string, got: Fetched): (r: Exec<int>)
    requires j in w.jobs
    ensures r.w.jobs.Keys == w.jobs.Keys
    ensures r.w == w.(jobs := r.w.jobs, papers := r.w.papers, nextPaper := r.w.nextPaper)
  {
    var existing := FindBySha(w, got.sha);
    var p := if existing.Some? then existing.value else w.nextPaper;
    var made := w.(papers := w.papers[p := Paper(got.sha, got.source, NO_BIBLIO, None)], nextPaper := p + 1);
    var (w1, f1, _) :- if existing.Some? then Go(w, fuel, ()) else Put(w, fuel, made);
    var job := w1.jobs[j].(paperId := Some(p), sha := Some(got.sha), duplicate := false);
    var (w2, f2, _) :- Put(w1, f1, SetJob(w1, j, job));
    Go(w2, f2, p)
  }

  ghost function ShortCircuit(w: World, fuel: nat, j: string, sha: string, p: int): (r: Exec<Ending>)
    requires j in w.jobs
    ensures r.w.jobs.Keys == w.jobs.Keys
  {
    var (w1, f1, _) :- Put(w, fuel, SetJob(w, j, w.jobs[j].(paperId := Some(p), sha := Some(sha), duplicate := true)));
    var (w2, f2, _) :- Put(w1, f1, SetState(w1, j, Done));
    Go(w2, f2, DuplicateOf(p))
  }

  function WriteMeta(w: World, fuel: nat, p: int, meta: Option<Biblio>): (r: Exec<()>)
    ensures r.w.jobs.Keys == w.jobs.Keys
    ensures r.w == w.(papers := r.w.papers) && r.w.papers.Keys == w.papers.Keys
  {
    if meta.None? || p !in w.papers then Go(w, fuel, ())
    else Put(w, fuel, w.(papers := w.papers[p := w.papers[p].(biblio := Updated(w.papers[p].biblio, meta.value))]))
  }

  // The rest of the pipeline, from each step on.

  function EmbedOn(w: World, fuel: nat, j: string, p: int, env: Env): (r: Exec<Ending>)
    requires j in w.jobs
    ensures r.w.jobs.Keys == w.jobs.Keys
  {
    var (w1, f1, _) :- EmbedStep(w, fuel, j, p, env);
    var (w2, f2, _) :- Put(w1, f1, SetState(w1, j, Done));
    Go(w2, f2, Finished)
  }

  function TagOn(w: World, fuel: nat, j: string, p: int, env: Env): (r: Exec<Ending>)
    requires j in w.jobs
    ensures r.w.jobs.Keys == w.jobs.Keys
  {
    var (w1, f1, _) :- TagStep(w, fuel, j, p, env);
    EmbedOn(w1, f1, j, p, env)
  }

  function IndexOn(w: World, fuel: nat, j: string, p: int, sha: string, env: Env): (r: Exec<Ending>)
    requires j in w.jobs
    ensures r.w.jobs.Keys == w.jobs.Keys
  {
    var (w1, f1, _) :- IndexStep(w, fuel, j, sha, env);
    TagOn(w1, f1, j, p, env)
  }

  function ExtractOn(w: World, fuel: nat, j: string, p: int, sha: string, env: Env): (r: Exec<Ending>)
    requires j in w.jobs
    ensures r.w.jobs.Keys == w.jobs.Keys
  {
    var (w1, f1, _) :- ExtractStep(w, fuel, j, p, env);
    IndexOn(w1, f1, j, p, sha, env)
  }

  /** Everything after the paper row is claimed. */
  function Process(w: World, fuel: nat, j: string, p: int, got: Fetched, env: Env): (r: Exec<Ending>)
    requires j in w.jobs
    ensures r.w.jobs.Keys == w.jobs.Keys
  {
    var (w1, f1, _) :- WriteMeta(w, fuel, p, got.meta);
    ExtractOn(w1, f1, j, p, got.sha, env)
  }

  /** From the hash on: the duplicate short-circuit, or the paper and its steps. */
  ghost function AfterDownload(w: World, fuel: nat, j: string, got: Fetched, env: Env): (r: Exec<Ending>)
    requires j in w.jobs
    ensures r.w.jobs.Keys == w.jobs.Keys
  {
    var existing := FindBySha(w, got.sha);
    if existing.Some? && Extract !in w.jobs[j].steps then ShortCircuit(w, fuel, j, got.sha, existing.value)
    else
      var (w1, f1, p) :- ClaimPaper(w, fuel, j, got);
      Process(w1, f1, j, p, got, env)
  }

  ghost function Pipeline(w: World, fuel: nat, j: string, env: Env): (r: Exec<Ending>)
    requires j in w.jobs
    ensures r.w.jobs.Keys == w.jobs.Keys
  {
    var (w1, f1, got) :- DownloadStep(w, fuel, j, env);
    AfterDownload(w1, f1, j, got, env)
  }

  /** The exception handler: an attempt that raised marks its job failed, unless the
      process died with it. */
  function Settled(r: Exec<Ending>, j: string, killed: bool): (World, Option<Ending>)
    requires j in r.w.jobs
  {
    match r
    case Go(w, _, ending) => (w, Some(ending))
    case Stop(w) => (if killed then w else SetState(w, j, Failed), None)
  }

  function Counted(w: World, j: string): World
    requires j in w.jobs
  {
    SetJob(w, j, w.jobs[j].(attempts := w.jobs[j].attempts + 1))
  }

  /** One attempt: count it, run it, settle it. A failure to count is outside the
      handler and changes nothing. */
  ghost function Attempt(w: World, j: string, env: Env): (r: (World, Option<Ending>))
    requires j in w.jobs
    ensures r.0.jobs.Keys == w.jobs.Keys
  {
    if !env.counted then (w, None)
    else Settled(Pipeline(Counted(w, j), env.budget, j, env), j, env.killed)
  }

  /** The retry route: only a failed job goes back to the queue, and a queue that
      cannot take it puts it back to failed. */
  function Retry(w: World, j: string, enqueued: bool): (World, bool) {
    if j !in w.jobs || !w.jobs[j].state.Failed? then (w, false)
    else if enqueued then (SetState(w, j, Queued), true)
    else (SetState(w, j, Failed), false)
  }

  /** The hash of an upload is known before the job exists. */
  function NewJob(kind: Kind, payload: Payload): Job {
    Job(kind, payload, Queued, None, if kind.Upload? then payload.sha else None, false, 0, [], None, None)
  }
}
