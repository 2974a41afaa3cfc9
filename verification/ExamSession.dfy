/** One exam: the row it is stored in, and what one turn or one expiry check does
    to that row. The class `ExamStore.ExamStore` does the same in place. */
module ExamSession {
  import opened Wrappers
  import opened Text
  import opened LlmRetry
  import opened ExamSchemas

  datatype Phase = Explain | Probing | Graded

  datatype Kind = Opening | Answering | Asking | Pushback | Verdicting

  /** A transcript entry; section, focus and targetsGap only where the kind has them. */
  datatype Turn = Turn(kind: Kind, content: string, at: int, section: Option<string>,
                       focus: Option<Focus>, targetsGap: Option<bool>)

  datatype ExamState = ExamState(probes: seq<Probe>, probeIndex: int, pushbackUsed: bool)

  const NO_STATE := ExamState([], 0, false)

  datatype Gaps = Gaps(misconceptions: seq<Misconception>, reread: seq<string>, summary: string)

  /** The columns of a test_sessions row; JSON columns hold the values written. */
  datatype ExamRow = ExamRow(phase: Phase, turnCount: nat, transcript: seq<Turn>, state: ExamState,
                             score: Option<int>, rubric: Option<Rubric>, gaps: Gaps,
                             expiresAt: int, completedAt: Option<int>)

  datatype Settings = Settings(maxTurns: int, ttl: int, attempts: nat, wording: Wording)

  /** The fixed texts: the opening question, the pushback around the section label, and
      the summary shown when none was stored. */
  datatype Wording = Wording(opening: string, pushbackHead: string, pushbackTail: string, completed: string)

  /** The user's text with the verdicts of the done pattern and the vagueness test on it. */
  datatype Answer = Answer(text: string, done: bool, vague: bool)

  datatype Section = Section(heading: string, text: string)

  /** What the collaborators give one call: the section tree's titles, the grounding
      material, and the model's replies, attempt by attempt. */
  datatype World = World(titles: Option<seq<string>>, material: Option<seq<Section>>,
                         planPosts: seq<Post<seq<Probe>>>, verdictPosts: seq<Post<Verdict>>)

  datatype ExamError = NoTree | NotFound | NoExcerpts | Model(error: LlmError)

  // ---- decoding a row ------------------------------------------------------

  function ClampIndex(index: int, n: nat): nat {
    if index < 0 then 0 else if index < n then index else n
  }

  function StateFromRaw(raw: ExamState): (state: ExamState)
    ensures 0 <= state.probeIndex <= |state.probes|
  {
    match ValidProbes(raw.probes)
    case None => NO_STATE
    case Some(probes) => ExamState(probes, ClampIndex(raw.probeIndex, |probes|), raw.pushbackUsed)
  }

  function VerdictFromRow(cfg: Settings, row: ExamRow): Option<Verdict> {
    if row.score.None? || row.rubric.None? then None
    else
      ValidVerdict(Verdict(row.rubric.value, row.gaps.misconceptions, row.gaps.reread, row.score.value,
                           if row.gaps.summary == "" then cfg.wording.completed else row.gaps.summary), [])
  }

  // ---- grounding and the two model calls -----------------------------------

  predicate UsableTree(w: World) {
    w.titles.Some? && exists i :: 0 <= i < |w.titles.value| && !Blank(w.titles.value[i])
  }

  /** The section is one of the tree's non-blank titles and has readable text. */
  predicate Grounded(titles: seq<string>, s: Section) {
    && (exists i :: 0 <= i < |titles| && !Blank(titles[i]) && Strip(titles[i]) == s.heading)
    && !Blank(s.text)
  }

  function Headings(titles: seq<string>, sections: seq<Section>): seq<string> {
    if sections == [] then []
    else
      var before, last := Headings(titles, sections[..|sections| - 1]), sections[|sections| - 1];
      if Grounded(titles, last) then before + [last.heading] else before
  }

  /** The section labels a model reply may cite. */
  function Allowed(w: World): seq<string> {
    if w.titles.Some? && w.material.Some? then Headings(w.titles.value, w.material.value) else []
  }

  function GroundingError(w: World): Option<ExamError> {
    if !UsableTree(w) then Some(NoTree)
    else if w.material.None? then Some(NotFound)
    else if Allowed(w) == [] then Some(NoExcerpts)
    else None
  }

  lemma PlanOutcome(cfg: Settings, w: World)
    ensures var r := Outcome(w.planPosts, cfg.attempts, raw => ValidPlan(raw, Allowed(w)));
            r.Ok? ==> exists raw :: ValidPlan(raw, Allowed(w)) == Some(r.value)
  {
    var validate := (raw: seq<Probe>) => ValidPlan(raw, Allowed(w));
    OutcomeMeaning(w.planPosts, cfg.attempts, validate);
    var r := Outcome(w.planPosts, cfg.attempts, validate);
    if r.Ok? {
      var i: nat :| i < cfg.attempts && FirstAcceptedAt(w.planPosts, validate, i, r.value);
      assert ValidPlan(w.planPosts[i].body.value, Allowed(w)) == Some(r.value);
    }
  }

  lemma VerdictOutcome(cfg: Settings, w: World)
    ensures var r := Outcome(w.verdictPosts, cfg.attempts, raw => ValidVerdict(raw, Allowed(w)));
            r.Ok? ==> exists raw :: ValidVerdict(raw, Allowed(w)) == Some(r.value)
  {
    var validate := (raw: Verdict) => ValidVerdict(raw, Allowed(w));
    OutcomeMeaning(w.verdictPosts, cfg.attempts, validate);
    var r := Outcome(w.verdictPosts, cfg.attempts, validate);
    if r.Ok? {
      var i: nat :| i < cfg.attempts && FirstAcceptedAt(w.verdictPosts, validate, i, r.value);
      assert ValidVerdict(w.verdictPosts[i].body.value, Allowed(w)) == Some(r.value);
    }
  }

  /** An accepted plan passed the plan validator against the labels of this very call. */
  function PlanProbes(cfg: Settings, w: World): (r: Result<seq<Probe>, ExamError>)
    ensures r.Ok? ==> Allowed(w) != [] && exists raw :: ValidPlan(raw, Allowed(w)) == Some(r.value)
  {
    PlanOutcome(cfg, w);
    if GroundingError(w).Some? then Err(GroundingError(w).value)
    else match Outcome(w.planPosts, cfg.attempts, raw => ValidPlan(raw, Allowed(w)))
      case Err(e) => Err(Model(e))
      case Ok(plan) => Ok(plan)
  }

  function BuildVerdict(cfg: Settings, w: World): (r: Result<Verdict, ExamError>)
    ensures r.Ok? ==> Allowed(w) != [] && exists raw :: ValidVerdict(raw, Allowed(w)) == Some(r.value)
  {
    VerdictOutcome(cfg, w);
    if GroundingError(w).Some? then Err(GroundingError(w).value)
    else match Outcome(w.verdictPosts, cfg.attempts, raw => ValidVerdict(raw, Allowed(w)))
      case Err(e) => Err(Model(e))
      case Ok(v) => Ok(v)
  }

  lemma PlanSize(cfg: Settings, w: World)
    ensures PlanProbes(cfg, w).Ok? ==> 2 <= |PlanProbes(cfg, w).value| <= 3
  {
    if PlanProbes(cfg, w).Ok? {
      var raw :| ValidPlan(raw, Allowed(w)) == Some(PlanProbes(cfg, w).value);
      ProbesAgain(raw);
    }
  }

  // ---- the transitions -----------------------------------------------------

  datatype Reply = Reply(row: ExamRow, assistantText: string, verdict: Option<Verdict>)

  function Max1(n: int): nat {
    if n < 1 then 1 else n
  }

  function Plain(kind: Kind, content: string, now: int): Turn {
    Turn(kind, content, now, None, None, None)
  }

  function AskTurn(p: Probe, now: int): Turn {
    Turn(Asking, p.question, now, Some(p.section), Some(p.focus), Some(p.targetsGap))
  }

  function PushbackText(cfg: Settings, p: Probe): string {
    cfg.wording.pushbackHead + p.section + cfg.wording.pushbackTail
  }

  function PushbackTurn(cfg: Settings, p: Probe, now: int): Turn {
    Turn(Pushback, PushbackText(cfg, p), now, Some(p.section), None, None)
  }

  function NewRow(cfg: Settings, now: int): ExamRow {
    ExamRow(Explain, 0, [Plain(Opening, cfg.wording.opening, now)], NO_STATE, None, None, Gaps([], [], ""),
            now + Max1(cfg.ttl), None)
  }

  function Expired(row: ExamRow, now: int): bool {
    !row.phase.Graded? && now >= row.expiresAt
  }

  function Persisted(cfg: Settings, row: ExamRow, transcript: seq<Turn>, state: ExamState, turns: nat, now: int)
    : ExamRow
  {
    row.(phase := Probing, transcript := transcript, state := state, turnCount := turns,
         expiresAt := now + Max1(cfg.ttl))
  }

  function GapsOf(v: Verdict): Gaps {
    Gaps(v.misconceptions, v.reread, v.summary)
  }

  function Closed(row: ExamRow, transcript: seq<Turn>, turns: nat, v: Verdict, now: int): ExamRow {
    row.(phase := Graded, turnCount := turns, state := NO_STATE, score := Some(v.score), rubric := Some(v.rubric),
         transcript := transcript + [Plain(Verdicting, v.summary, now)],
         gaps := GapsOf(v), completedAt := Some(now))
  }

  function Finalize(cfg: Settings, row: ExamRow, transcript: seq<Turn>, turns: nat, now: int, w: World)
    : Result<Reply, ExamError>
  {
    match BuildVerdict(cfg, w)
    case Err(e) => Err(e)
    case Ok(v) => Ok(Reply(Closed(row, transcript, turns, v, now), "", Some(v)))
  }

  /** One user turn. An error leaves the row as it was. */
  function Advance(cfg: Settings, row: ExamRow, a: Answer, now: int, w: World): Result<Reply, ExamError> {
    if row.phase.Graded? then Ok(Reply(row, "", VerdictFromRow(cfg, row)))
    else if Expired(row, now) then Finalize(cfg, row, row.transcript, row.turnCount, now, w)
    else
      var transcript := row.transcript + [Plain(Answering, Strip(a.text), now)];
      var turns := row.turnCount + 1;
      if a.done || turns >= Max1(cfg.maxTurns) then Finalize(cfg, row, transcript, turns, now, w)
      else if row.phase.Explain? then
        match PlanProbes(cfg, w)
        case Err(e) => Err(e)
        case Ok(plan) =>
          PlanSize(cfg, w);
          Ok(Reply(Persisted(cfg, row, transcript + [AskTurn(plan[0], now)], ExamState(plan, 0, false), turns, now),
                   plan[0].question, None))
      else
        var state := StateFromRaw(row.state);
        if state.probeIndex >= |state.probes| then Finalize(cfg, row, transcript, turns, now, w)
        else AfterProbe(cfg, row, state, a.vague, transcript, turns, now, w)
  }

  /** The answer to a probe: one pushback if vague, else on to the next probe or the verdict. */
  function AfterProbe(cfg: Settings, row: ExamRow, state: ExamState, vague: bool, transcript: seq<Turn>,
                      turns: nat, now: int, w: World): Result<Reply, ExamError>
    requires 0 <= state.probeIndex < |state.probes|
  {
    var probe, next := state.probes[state.probeIndex], state.probeIndex + 1;
    if vague && !state.pushbackUsed then
      Ok(Reply(Persisted(cfg, row, transcript + [PushbackTurn(cfg, probe, now)],
                         state.(pushbackUsed := true), turns, now),
               PushbackText(cfg, probe), None))
    else if next >= |state.probes| then Finalize(cfg, row, transcript, turns, now, w)
    else
      Ok(Reply(Persisted(cfg, row, transcript + [AskTurn(state.probes[next], now)],
                         ExamState(state.probes, next, false), turns, now),
               state.probes[next].question, None))
  }

  /** Opening a session page: an expired exam is graded as it stands. */
  function EnsureCurrent(cfg: Settings, row: ExamRow, now: int, w: World): Result<Reply, ExamError> {
    if !Expired(row, now) then Ok(Reply(row, "", VerdictFromRow(cfg, row)))
    else Finalize(cfg, row, row.transcript, row.turnCount, now, w)
  }

  /** The question now open: the last thing asked, None once graded or when it is empty. */
  function CurrentQuestion(cfg: Settings, row: ExamRow): Option<string> {
    if row.phase.Graded? then None else LastAsked(cfg, row.transcript, row.phase)
  }

  function LastAsked(cfg: Settings, transcript: seq<Turn>, phase: Phase): Option<string> {
    if transcript == [] then (if phase.Explain? then Some(cfg.wording.opening) else None)
    else
      var last := transcript[|transcript| - 1];
      if last.kind.Opening? || last.kind.Asking? || last.kind.Pushback?
      then (if last.content == "" then None else Some(last.content))
      else LastAsked(cfg, transcript[..|transcript| - 1], phase)
  }
}
