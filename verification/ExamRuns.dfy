/** What holds over every exam: its shape at each moment, that it ends, what it
    cites, and what survives being saved and loaded. */
module ExamRuns {
  import opened Wrappers
  import LlmRetry
  import opened Text
  import opened ExamSchemas
  import opened ExamSession

  // ---- reading a transcript ------------------------------------------------

  /** A probe as the transcript shows it, with the pushbacks that followed it. */
  datatype Asked = Asked(question: string, section: Option<string>, pushbacks: nat)

  function AskedIn(ts: seq<Turn>): seq<Asked> {
    if ts == [] then []
    else
      var before, last := AskedIn(ts[..|ts| - 1]), ts[|ts| - 1];
      if last.kind.Asking? then before + [Asked(last.content, last.section, 0)]
      else if last.kind.Pushback? && before != [] then PushedBack(before)
      else before
  }

  function AnswersIn(ts: seq<Turn>): nat {
    if ts == [] then 0 else AnswersIn(ts[..|ts| - 1]) + if ts[|ts| - 1].kind.Answering? then 1 else 0
  }

  function Pushbacks(asked: seq<Asked>): nat {
    if asked == [] then 0 else Pushbacks(asked[..|asked| - 1]) + asked[|asked| - 1].pushbacks
  }

  /** The probes asked are the first of the plan, in order, each pushed back at most once. */
  ghost predicate FollowsPlan(asked: seq<Asked>, plan: seq<Probe>) {
    && |asked| <= |plan|
    && forall i :: 0 <= i < |asked| ==>
         asked[i].question == plan[i].question && asked[i].section == Some(plan[i].section) && asked[i].pushbacks <= 1
  }

  lemma {:induction false} PushbacksBound(asked: seq<Asked>, plan: seq<Probe>)
    requires FollowsPlan(asked, plan)
    ensures Pushbacks(asked) <= |asked|
    decreases |asked|
  {
    if asked != [] {
      PushbacksBound(asked[..|asked| - 1], plan);
    }
  }

  lemma Grown(ts: seq<Turn>, t: Turn)
    ensures AnswersIn(ts + [t]) == AnswersIn(ts) + if t.kind.Answering? then 1 else 0
    ensures AskedIn(ts + [t]) ==
            if t.kind.Asking? then AskedIn(ts) + [Asked(t.content, t.section, 0)]
            else if t.kind.Pushback? && AskedIn(ts) != [] then PushedBack(AskedIn(ts))
            else AskedIn(ts)
  {
  }

  function PushedBack(asked: seq<Asked>): seq<Asked>
    requires asked != []
  {
    var last := asked[|asked| - 1];
    asked[|asked| - 1 := last.(pushbacks := last.pushbacks + 1)]
  }

  lemma FollowsPlanGrown(asked: seq<Asked>, plan: seq<Probe>)
    requires FollowsPlan(asked, plan)
    ensures |asked| < |plan| ==> FollowsPlan(asked + [AskedOf(plan[|asked|])], plan)
    ensures asked != [] && asked[|asked| - 1].pushbacks == 0 ==> FollowsPlan(PushedBack(asked), plan)
  {
  }

  function AskedOf(p: Probe): Asked {
    Asked(p.question, Some(p.section), 0)
  }

  lemma PushbacksGrown(asked: seq<Asked>, a: Asked)
    ensures Pushbacks(asked + [a]) == Pushbacks(asked) + a.pushbacks
    ensures asked != [] ==> Pushbacks(PushedBack(asked)) == Pushbacks(asked) + 1
  {
  }

  // ---- the invariant -------------------------------------------------------

  ghost predicate Planned(plan: seq<Probe>) {
    exists raw, allowed :: ValidPlan(raw, allowed) == Some(plan)
  }

  /** The exam's shape, with plan the probes accepted when it left the explain phase. */
  ghost predicate Sound(cfg: Settings, row: ExamRow, plan: seq<Probe>) {
    var asked := AskedIn(row.transcript);
    && AnswersIn(row.transcript) == row.turnCount
    && FollowsPlan(asked, plan)
    && match row.phase
       case Explain => plan == [] && row.turnCount == 0 && row.state == NO_STATE && row.score.None?
       case Probing =>
         && Planned(plan) && row.state.probes == plan && row.score.None?
         && 0 <= row.state.probeIndex < |plan| && |asked| == row.state.probeIndex + 1
         && asked[|asked| - 1].pushbacks == (if row.state.pushbackUsed then 1 else 0)
         && row.turnCount == |asked| + Pushbacks(asked)
         && row.turnCount < Max1(cfg.maxTurns)
       case Graded =>
         && row.score.Some? && row.rubric.Some?
         && (plan == [] || Planned(plan))
         && row.turnCount <= Max1(cfg.maxTurns)
         && row.turnCount <= 1 + |asked| + Pushbacks(asked)
  }

  datatype Event = Turning(a: Answer, now: int, w: World) | Checking(now: int, w: World)

  function Happens(cfg: Settings, row: ExamRow, e: Event): Result<Reply, ExamError> {
    match e
    case Turning(a, now, w) => Advance(cfg, row, a, now, w)
    case Checking(now, w) => EnsureCurrent(cfg, row, now, w)
  }

  /** The stored row after the call: a failed call writes nothing. */
  function RowAfter(cfg: Settings, row: ExamRow, e: Event): ExamRow {
    match Happens(cfg, row, e) case Ok(r) => r.row case Err(_) => row
  }

  function PlanAfter(row: ExamRow, row': ExamRow, plan: seq<Probe>): seq<Probe> {
    if row.phase.Explain? && row'.phase.Probing? then row'.state.probes else plan
  }

  function Rank(phase: Phase): nat {
    match phase case Explain => 0 case Probing => 1 case Graded => 2
  }

  lemma ClosedSound(cfg: Settings, row: ExamRow, plan: seq<Probe>, a: Turn, v: Verdict, now: int)
    requires Sound(cfg, row, plan) && !row.phase.Graded? && a.kind.Answering?
    ensures Sound(cfg, Closed(row, row.transcript, row.turnCount, v, now), plan)
    ensures Sound(cfg, Closed(row, row.transcript + [a], row.turnCount + 1, v, now), plan)
    ensures row.transcript <= Closed(row, row.transcript + [a], row.turnCount + 1, v, now).transcript
  {
    var t := Plain(Verdicting, v.summary, now);
    Grown(row.transcript, a);
    Grown(row.transcript, t);
    Grown(row.transcript + [a], t);
  }

  lemma ReloadedPlan(state: ExamState)
    requires Planned(state.probes) && 0 <= state.probeIndex <= |state.probes|
    ensures StateFromRaw(state) ==
            if forall i :: 0 <= i < |state.probes| ==> ProbeFilled(state.probes[i]) then state else NO_STATE
  {
    var raw, allowed :| ValidPlan(raw, allowed) == Some(state.probes);
    ProbesAgain(raw);
  }

  // An accepted turn on an open exam, by case: it closes the exam, opens the probing,
  // pushes back on the current probe, or asks the next one.

  ghost predicate Closes(row: ExamRow, t: Turn, now: int, row': ExamRow) {
    && row'.score.Some? && row'.rubric.Some?
    && row' == Closed(row, row.transcript + [t], row.turnCount + 1, StoredVerdict(row'), now)
  }

  function StoredVerdict(row: ExamRow): Verdict
    requires row.score.Some? && row.rubric.Some?
  {
    Verdict(row.rubric.value, row.gaps.misconceptions, row.gaps.reread, row.score.value, row.gaps.summary)
  }

  ghost predicate OpensProbing(cfg: Settings, row: ExamRow, t: Turn, now: int, row': ExamRow) {
    var probes := row'.state.probes;
    && row.turnCount + 1 < Max1(cfg.maxTurns) && row.phase.Explain? && probes != [] && Planned(probes)
    && row' == Persisted(cfg, row, row.transcript + [t] + [AskTurn(probes[0], now)], ExamState(probes, 0, false),
                         row.turnCount + 1, now)
  }

  ghost predicate PushesBack(cfg: Settings, row: ExamRow, t: Turn, now: int, row': ExamRow) {
    && row.turnCount + 1 < Max1(cfg.maxTurns) && row.phase.Probing? && 0 <= row.state.probeIndex < |row.state.probes|
    && !row.state.pushbackUsed
    && row' == Persisted(cfg, row,
                         row.transcript + [t] + [PushbackTurn(cfg, row.state.probes[row.state.probeIndex], now)],
                         row.state.(pushbackUsed := true), row.turnCount + 1, now)
  }

  ghost predicate AsksNext(cfg: Settings, row: ExamRow, t: Turn, now: int, row': ExamRow) {
    && row.turnCount + 1 < Max1(cfg.maxTurns) && row.phase.Probing?
       && 0 <= row.state.probeIndex < |row.state.probes| - 1
    && row' == Persisted(cfg, row, row.transcript + [t] + [AskTurn(row.state.probes[row.state.probeIndex + 1], now)],
                         ExamState(row.state.probes, row.state.probeIndex + 1, false), row.turnCount + 1, now)
  }

  ghost predicate TurnTaken(cfg: Settings, row: ExamRow, t: Turn, now: int, row': ExamRow) {
    || Closes(row, t, now, row') || OpensProbing(cfg, row, t, now, row')
    || PushesBack(cfg, row, t, now, row') || AsksNext(cfg, row, t, now, row')
  }

  lemma AdvanceCases(cfg: Settings, row: ExamRow, a: Answer, now: int, w: World)
    requires !row.phase.Graded? && !Expired(row, now) && Advance(cfg, row, a, now, w).Ok?
    requires row.phase.Probing? ==> Planned(row.state.probes) && 0 <= row.state.probeIndex <= |row.state.probes|
    ensures var row' := Advance(cfg, row, a, now, w).value.row;
            TurnTaken(cfg, row, Plain(Answering, Strip(a.text), now), now, row')
  {
    if a.done || row.turnCount + 1 >= Max1(cfg.maxTurns) {
      assert Closes(row, Plain(Answering, Strip(a.text), now), now, Advance(cfg, row, a, now, w).value.row);
    } else if row.phase.Explain? {
      PlanSize(cfg, w);
    } else {
      ReloadedPlan(row.state);
      ProbeCases(cfg, row, a, now, w, Advance(cfg, row, a, now, w).value.row);
    }
  }

  lemma ProbeCases(cfg: Settings, row: ExamRow, a: Answer, now: int, w: World, row': ExamRow)
    requires row.phase.Probing? && !Expired(row, now)
    requires Advance(cfg, row, a, now, w).Ok? && row' == Advance(cfg, row, a, now, w).value.row
    requires Planned(row.state.probes) && 0 <= row.state.probeIndex <= |row.state.probes|
    requires StateFromRaw(row.state) == row.state || StateFromRaw(row.state) == NO_STATE
    requires !a.done && row.turnCount + 1 < Max1(cfg.maxTurns)
    ensures TurnTaken(cfg, row, Plain(Answering, Strip(a.text), now), now, row')
  {
  }

  /** Which of the four a turn is: pushed back exactly when vague for the first time on
      this probe, on to the next probe while there is one, and closed otherwise. */
  lemma TurnExactly(cfg: Settings, row: ExamRow, plan: seq<Probe>, a: Answer, now: int, w: World, row': ExamRow)
    requires Sound(cfg, row, plan) && !row.phase.Graded? && !Expired(row, now) && Advance(cfg, row, a, now, w).Ok?
    requires forall i :: 0 <= i < |plan| ==> ProbeFilled(plan[i])
    requires row' == Advance(cfg, row, a, now, w).value.row
    ensures var t := Plain(Answering, Strip(a.text), now);
            var goesOn := !a.done && row.turnCount + 1 < Max1(cfg.maxTurns);
            var pushed := goesOn && row.phase.Probing? && a.vague && !row.state.pushbackUsed;
            var more := goesOn && row.phase.Probing? && !pushed && row.state.probeIndex + 1 < |row.state.probes|;
            && (OpensProbing(cfg, row, t, now, row') <==> goesOn && row.phase.Explain?)
            && (PushesBack(cfg, row, t, now, row') <==> pushed)
            && (AsksNext(cfg, row, t, now, row') <==> more)
            && (Closes(row, t, now, row') <==> !(goesOn && row.phase.Explain?) && !pushed && !more)
  {
    AdvanceCases(cfg, row, a, now, w);
    if row.phase.Explain? {
      PlanSize(cfg, w);
    } else {
      ReloadedPlan(row.state);
    }
  }

  lemma AsksNextSound(cfg: Settings, row: ExamRow, plan: seq<Probe>, a: Turn, now: int, row': ExamRow)
    requires Sound(cfg, row, plan) && a.kind.Answering? && AsksNext(cfg, row, a, now, row')
    ensures Sound(cfg, row', plan)
  {
    var asked, t := AskedIn(row.transcript), AskTurn(plan[row.state.probeIndex + 1], now);
    Grown(row.transcript, a);
    Grown(row.transcript + [a], t);
    PushbacksGrown(asked, AskedOf(plan[row.state.probeIndex + 1]));
    FollowsPlanGrown(asked, plan);
  }

  lemma PushesBackSound(cfg: Settings, row: ExamRow, plan: seq<Probe>, a: Turn, now: int, row': ExamRow)
    requires Sound(cfg, row, plan) && a.kind.Answering? && PushesBack(cfg, row, a, now, row')
    ensures Sound(cfg, row', plan)
  {
    var asked, t := AskedIn(row.transcript), PushbackTurn(cfg, plan[row.state.probeIndex], now);
    Grown(row.transcript, a);
    Grown(row.transcript + [a], t);
    PushbacksGrown(asked, Asked("", None, 0));
    FollowsPlanGrown(asked, plan);
  }

  lemma OpensProbingSound(cfg: Settings, row: ExamRow, a: Turn, now: int, row': ExamRow)
    requires Sound(cfg, row, []) && a.kind.Answering? && OpensProbing(cfg, row, a, now, row')
    ensures Sound(cfg, row', row'.state.probes)
  {
  }

  lemma TurnSound(cfg: Settings, row: ExamRow, plan: seq<Probe>, t: Turn, now: int, row': ExamRow)
    requires Sound(cfg, row, plan) && !row.phase.Graded? && t.kind.Answering? && TurnTaken(cfg, row, t, now, row')
    ensures Sound(cfg, row', PlanAfter(row, row', plan))
  {
    if Closes(row, t, now, row') {
      ClosedSound(cfg, row, plan, t, StoredVerdict(row'), now);
    } else if OpensProbing(cfg, row, t, now, row') {
      OpensProbingSound(cfg, row, t, now, row');
    } else if PushesBack(cfg, row, t, now, row') {
      PushesBackSound(cfg, row, plan, t, now, row');
    } else {
      AsksNextSound(cfg, row, plan, t, now, row');
    }
  }

  lemma TurnGrows(cfg: Settings, row: ExamRow, t: Turn, now: int, row': ExamRow)
    requires !row.phase.Graded? && TurnTaken(cfg, row, t, now, row')
    ensures row.transcript <= row'.transcript && row'.turnCount == row.turnCount + 1
    ensures Rank(row.phase) <= Rank(row'.phase)
  {
  }

  lemma AdvanceSound(cfg: Settings, row: ExamRow, plan: seq<Probe>, a: Answer, now: int, w: World, row': ExamRow)
    requires Sound(cfg, row, plan) && !row.phase.Graded? && !Expired(row, now) && Advance(cfg, row, a, now, w).Ok?
    requires row' == Advance(cfg, row, a, now, w).value.row
    ensures Sound(cfg, row', PlanAfter(row, row', plan))
    ensures row.transcript <= row'.transcript && row'.turnCount == row.turnCount + 1
    ensures Rank(row.phase) <= Rank(row'.phase)
  {
    var t := Plain(Answering, Strip(a.text), now);
    AdvanceCases(cfg, row, a, now, w);
    TurnSound(cfg, row, plan, t, now, row');
    TurnGrows(cfg, row, t, now, row');
  }

  /** Any call keeps the exam's shape, only adds to the transcript, and never
      moves the phase back; once graded the row never changes again. */
  lemma EventSound(cfg: Settings, row: ExamRow, plan: seq<Probe>, e: Event)
    requires Sound(cfg, row, plan)
    ensures var row' := RowAfter(cfg, row, e);
            && Sound(cfg, row', PlanAfter(row, row', plan))
            && row.transcript <= row'.transcript
            && Rank(row.phase) <= Rank(row'.phase)
            && (row.phase.Graded? ==> row' == row)
  {
    if Happens(cfg, row, e).Ok? && !row.phase.Graded? {
      if Expired(row, e.now) {
        ClosedSound(cfg, row, plan, Plain(Answering, "", 0), BuildVerdict(cfg, e.w).value, e.now);
      } else if e.Turning? {
        AdvanceSound(cfg, row, plan, e.a, e.now, e.w, RowAfter(cfg, row, e));
      }
    }
  }

  // ---- whole exams ---------------------------------------------------------

  /** A run's result: the row, the plan it followed, and how many turns were accepted. */
  datatype Exam = Exam(row: ExamRow, plan: seq<Probe>, accepted: nat)

  function Next(cfg: Settings, x: Exam, e: Event): Exam {
    var row := RowAfter(cfg, x.row, e);
    Exam(row, PlanAfter(x.row, row, x.plan), x.accepted + if e.Turning? && Happens(cfg, x.row, e).Ok? then 1 else 0)
  }

  function Run(cfg: Settings, x: Exam, events: seq<Event>): Exam
    decreases |events|
  {
    if events == [] then x else Run(cfg, Next(cfg, x, events[0]), events[1..])
  }

  function Begin(cfg: Settings, now: int): Exam {
    Exam(NewRow(cfg, now), [], 0)
  }

  /** While the exam is open every accepted turn was answered and counted. */
  ghost predicate Counted(x: Exam) {
    !x.row.phase.Graded? ==> x.accepted == x.row.turnCount
  }

  lemma {:induction false} RunSound(cfg: Settings, x: Exam, events: seq<Event>)
    requires Sound(cfg, x.row, x.plan) && Counted(x)
    ensures Sound(cfg, Run(cfg, x, events).row, Run(cfg, x, events).plan)
    ensures Counted(Run(cfg, x, events))
    ensures x.row.transcript <= Run(cfg, x, events).row.transcript
    decreases |events|
  {
    if events != [] {
      var e := events[0];
      EventSound(cfg, x.row, x.plan, e);
      if Happens(cfg, x.row, e).Ok? && !x.row.phase.Graded? && !Expired(x.row, e.now) && e.Turning? {
        AdvanceSound(cfg, x.row, x.plan, e.a, e.now, e.w, RowAfter(cfg, x.row, e));
      }
      RunSound(cfg, Next(cfg, x, e), events[1..]);
    }
  }

  lemma BeginSound(cfg: Settings, now: int)
    ensures Sound(cfg, NewRow(cfg, now), []) && Counted(Begin(cfg, now))
  {
  }

  function Least(a: nat, b: nat): nat {
    if a <= b then a else b
  }

  /** Turns stay within the turn limit and within one more than two per planned
      probe, and an open exam is strictly inside the turn limit. */
  ghost predicate WithinLimits(cfg: Settings, x: Exam) {
    && x.row.turnCount <= Least(Max1(cfg.maxTurns), 1 + 2 * |x.plan|)
    && (!x.row.phase.Graded? ==> x.row.turnCount < Max1(cfg.maxTurns) && x.row.turnCount <= 2 * |x.plan|)
  }

  lemma SoundWithinLimits(cfg: Settings, x: Exam)
    requires Sound(cfg, x.row, x.plan)
    ensures WithinLimits(cfg, x)
  {
    PushbacksBound(AskedIn(x.row.transcript), x.plan);
  }

  /** Every exam, whatever the answers, replies, failures and clock, keeps its shape
      and its limits. */
  lemma EveryExamSound(cfg: Settings, start: int, events: seq<Event>)
    ensures var x := Run(cfg, Begin(cfg, start), events); Sound(cfg, x.row, x.plan) && WithinLimits(cfg, x)
  {
    BeginSound(cfg, start);
    RunSound(cfg, Begin(cfg, start), events);
    SoundWithinLimits(cfg, Run(cfg, Begin(cfg, start), events));
  }

  /** Once min(max(1, turn limit), 1 + 2 * planned probes) turns have been accepted
      the exam is graded. */
  lemma EveryExamEnds(cfg: Settings, start: int, events: seq<Event>, x: Exam)
    requires x == Run(cfg, Begin(cfg, start), events)
    requires x.accepted >= Least(Max1(cfg.maxTurns), 1 + 2 * |x.plan|)
    ensures x.row.phase.Graded?
  {
    BeginSound(cfg, start);
    RunSound(cfg, Begin(cfg, start), events);
    SoundWithinLimits(cfg, x);
  }

  /** Turns left at most: by phase, then two per probe not done, less a used pushback. */
  function TurnsLeft(row: ExamRow): int {
    match row.phase
    case Explain => 7
    case Probing => 2 * (|row.state.probes| - row.state.probeIndex) - if row.state.pushbackUsed then 1 else 0
    case Graded => 0
  }

  lemma TurnTakenUses(cfg: Settings, row: ExamRow, t: Turn, now: int, row': ExamRow)
    requires !row.phase.Graded? && TurnTaken(cfg, row, t, now, row')
    requires row.phase.Explain? ==> |row'.state.probes| <= 3
    requires row.phase.Probing? ==> 0 <= row.state.probeIndex < |row.state.probes|
    ensures 0 <= TurnsLeft(row') < TurnsLeft(row)
  {
  }

  lemma PlanSizeAfter(cfg: Settings, row: ExamRow, a: Answer, now: int, w: World)
    requires row.phase.Explain? && Advance(cfg, row, a, now, w).Ok?
    ensures |Advance(cfg, row, a, now, w).value.row.state.probes| <= |row.state.probes| + 3
  {
    PlanSize(cfg, w);
  }

  /** Every accepted turn on an open exam uses up at least one of the turns left. */
  lemma TurnsLeftDecreases(cfg: Settings, row: ExamRow, plan: seq<Probe>, a: Answer, now: int, w: World, row': ExamRow)
    requires Sound(cfg, row, plan) && !row.phase.Graded? && Advance(cfg, row, a, now, w).Ok?
    requires row' == Advance(cfg, row, a, now, w).value.row
    ensures 0 <= TurnsLeft(row') < TurnsLeft(row)
  {
    if Expired(row, now) {
      assert row'.phase.Graded?;
    } else {
      if row.phase.Explain? {
        PlanSizeAfter(cfg, row, a, now, w);
      }
      AdvanceCases(cfg, row, a, now, w);
      TurnTakenUses(cfg, row, Plain(Answering, Strip(a.text), now), now, row');
    }
  }

  // ---- citations -----------------------------------------------------------

  ghost predicate CitesWithin(row: ExamRow, labels: set<string>) {
    && (forall i :: 0 <= i < |row.transcript| && row.transcript[i].section.Some? ==>
        row.transcript[i].section.value in labels)
    && (forall i :: 0 <= i < |row.state.probes| ==> row.state.probes[i].section in labels)
    && (forall i :: 0 <= i < |row.gaps.misconceptions| ==> row.gaps.misconceptions[i].section in labels)
    && (forall i :: 0 <= i < |row.gaps.reread| ==> row.gaps.reread[i] in labels)
  }

  function LabelSet(w: World): set<string> {
    set s | s in Allowed(w)
  }

  lemma CitesEvent(cfg: Settings, row: ExamRow, plan: seq<Probe>, e: Event, labels: set<string>)
    requires Sound(cfg, row, plan) && CitesWithin(row, labels)
    ensures CitesWithin(RowAfter(cfg, row, e), labels + LabelSet(e.w))
  {
    if Happens(cfg, row, e).Ok? && !row.phase.Graded? && (e.Turning? || Expired(row, e.now)) {
      var all := labels + LabelSet(e.w);
      if Expired(row, e.now) {
        CitesVerdict(cfg, row, row.transcript, row.turnCount, e.now, e.w, labels);
      } else {
        AdvanceCases(cfg, row, e.a, e.now, e.w);
        AdvanceSourced(cfg, row, e.a, e.now, e.w);
        CitesTurn(cfg, row, Plain(Answering, Strip(e.a.text), e.now), e.now, e.w, RowAfter(cfg, row, e), labels);
      }
    }
  }

  lemma CitesVerdict(cfg: Settings, row: ExamRow, transcript: seq<Turn>, turns: nat, now: int, w: World,
                     labels: set<string>)
    requires CitesWithin(row.(transcript := transcript), labels)
    ensures BuildVerdict(cfg, w).Ok? ==>
              CitesWithin(Closed(row, transcript, turns, BuildVerdict(cfg, w).value, now), labels + LabelSet(w))
  {
  }

  ghost predicate VerdictWithin(gaps: Gaps, labels: set<string>) {
    && (forall i :: 0 <= i < |gaps.misconceptions| ==> gaps.misconceptions[i].section in labels)
    && (forall i :: 0 <= i < |gaps.reread| ==> gaps.reread[i] in labels)
  }

  ghost predicate ProbesWithin(probes: seq<Probe>, labels: set<string>) {
    forall i :: 0 <= i < |probes| ==> probes[i].section in labels
  }

  lemma TurnCites(cfg: Settings, row: ExamRow, t: Turn, now: int, row': ExamRow, labels: set<string>)
    requires !row.phase.Graded? && t.section.None? && TurnTaken(cfg, row, t, now, row')
    requires CitesWithin(row, labels) && VerdictWithin(row'.gaps, labels) && ProbesWithin(row'.state.probes, labels)
    ensures CitesWithin(row', labels)
  {
  }

  lemma CallsWithin(cfg: Settings, w: World)
    ensures PlanProbes(cfg, w).Ok? ==> ProbesWithin(PlanProbes(cfg, w).value, LabelSet(w))
    ensures BuildVerdict(cfg, w).Ok? ==>
              VerdictWithin(GapsOf(BuildVerdict(cfg, w).value), LabelSet(w))
  {
  }

  /** Where an accepted turn's stored probes and gaps come from. */
  ghost predicate Sourced(cfg: Settings, row: ExamRow, w: World, row': ExamRow) {
    && (row'.gaps == row.gaps
        || (BuildVerdict(cfg, w).Ok? && row'.gaps == GapsOf(BuildVerdict(cfg, w).value)))
    && (row'.state.probes == [] || row'.state.probes == row.state.probes
        || (PlanProbes(cfg, w).Ok? && row'.state.probes == PlanProbes(cfg, w).value))
  }

  lemma AdvanceSourced(cfg: Settings, row: ExamRow, a: Answer, now: int, w: World)
    requires !row.phase.Graded? && !Expired(row, now) && Advance(cfg, row, a, now, w).Ok?
    requires row.phase.Probing? ==> Planned(row.state.probes) && 0 <= row.state.probeIndex <= |row.state.probes|
    ensures Sourced(cfg, row, w, Advance(cfg, row, a, now, w).value.row)
  {
    if row.phase.Probing? {
      ReloadedPlan(row.state);
    }
  }

  lemma CitesTurn(cfg: Settings, row: ExamRow, t: Turn, now: int, w: World, row': ExamRow, labels: set<string>)
    requires CitesWithin(row, labels) && !row.phase.Graded? && t.section.None?
    requires TurnTaken(cfg, row, t, now, row') && Sourced(cfg, row, w, row')
    ensures CitesWithin(row', labels + LabelSet(w))
  {
    CallsWithin(cfg, w);
    TurnCites(cfg, row, t, now, row', labels + LabelSet(w));
  }

  function AllLabels(events: seq<Event>): set<string>
    decreases |events|
  {
    if events == [] then {} else LabelSet(events[0].w) + AllLabels(events[1..])
  }

  lemma {:induction false} CitesRun(cfg: Settings, x: Exam, events: seq<Event>, labels: set<string>)
    requires Sound(cfg, x.row, x.plan) && CitesWithin(x.row, labels)
    ensures CitesWithin(Run(cfg, x, events).row, labels + AllLabels(events))
    decreases |events|
  {
    if events != [] {
      CitesEvent(cfg, x.row, x.plan, events[0], labels);
      EventSound(cfg, x.row, x.plan, events[0]);
      CitesRun(cfg, Next(cfg, x, events[0]), events[1..], labels + LabelSet(events[0].w));
      assert labels + LabelSet(events[0].w) + AllLabels(events[1..]) == labels + AllLabels(events);
    }
  }

  /** Every section label stored anywhere in an exam's row was on the list of labels
      offered to one of its calls. */
  lemma EveryCitationOffered(cfg: Settings, start: int, events: seq<Event>)
    ensures CitesWithin(Run(cfg, Begin(cfg, start), events).row, AllLabels(events))
  {
    BeginSound(cfg, start);
    CitesRun(cfg, Begin(cfg, start), events, {});
    assert {} + AllLabels(events) == AllLabels(events);
  }

  /** At any moment of any exam: whatever labels the row cites, after the next call it cites
      these and ones offered to that very call, and no others. */
  lemma NewCitationsOffered(cfg: Settings, start: int, events: seq<Event>, e: Event, labels: set<string>)
    requires CitesWithin(Run(cfg, Begin(cfg, start), events).row, labels)
    ensures CitesWithin(RowAfter(cfg, Run(cfg, Begin(cfg, start), events).row, e), labels + LabelSet(e.w))
  {
    EveryExamSound(cfg, start, events);
    var x := Run(cfg, Begin(cfg, start), events);
    CitesEvent(cfg, x.row, x.plan, e, labels);
  }

  // ---- saving and loading --------------------------------------------------

  /** An accepted plan, saved with any position in it, loads as saved exactly when no
      text of a probe was blank; otherwise the whole state is lost. */
  lemma StateReloads(raw: seq<Probe>, allowed: seq<string>, index: nat, pushbackUsed: bool)
    requires ValidPlan(raw, allowed).Some? && index <= |raw|
    ensures var saved := ExamState(ValidPlan(raw, allowed).value, index, pushbackUsed);
            && (StateFromRaw(saved) == saved <==>
                  forall i :: 0 <= i < |raw| ==>
                    !Blank(raw[i].question) && !Blank(raw[i].section) && !Blank(raw[i].gap))
            && (StateFromRaw(saved) != saved ==> StateFromRaw(saved) == NO_STATE)
  {
    var plan := ValidPlan(raw, allowed).value;
    ProbesAgain(raw);
    ReloadedPlan(ExamState(plan, index, pushbackUsed));
    forall i | 0 <= i < |raw|
      ensures ProbeFilled(plan[i]) <==> !Blank(raw[i].question) && !Blank(raw[i].section) && !Blank(raw[i].gap)
    {
      ProbesPointwise(raw, i);
      FieldAgain(raw[i].question, 1000);
      FieldAgain(raw[i].section, 300);
      FieldAgain(raw[i].gap, 1000);
    }
  }

  lemma {:induction false} ProbesPointwise(raw: seq<Probe>, i: nat)
    requires ValidProbes(raw).Some? && i < |raw|
    ensures |ValidProbes(raw).value| == |raw| && ValidProbe(raw[i]) == Some(ValidProbes(raw).value[i])
    decreases |raw|
  {
    if i > 0 {
      ProbesPointwise(raw[1..], i - 1);
    } else {
      ProbesAgain(raw);
    }
  }

  /** The verdict written when an exam closes loads back as given exactly when none
      of its texts is blank. */
  lemma VerdictReloads(cfg: Settings, row: ExamRow, transcript: seq<Turn>, turns: nat, now: int, w: World)
    requires BuildVerdict(cfg, w).Ok? && !Blank(cfg.wording.completed)
    ensures var v := BuildVerdict(cfg, w).value;
            VerdictFromRow(cfg, Closed(row, transcript, turns, v, now)) == Some(v) <==> VerdictFilled(v)
  {
    var v := BuildVerdict(cfg, w).value;
    var raw :| ValidVerdict(raw, Allowed(w)) == Some(v);
    VerdictAgain(raw, Allowed(w));
    TidyFacts(cfg.wording.completed);
    var again := VerdictFromRow(cfg, Closed(row, transcript, turns, v, now));
    if v.summary == "" && again.Some? {
      assert again.value.summary == Tidy(cfg.wording.completed);
    }
  }

  /** A plan with a blank text does not survive the save, so the answer to its first
      probe closes the exam: no further probe is asked. */
  lemma BlankPlanEndsExam(cfg: Settings, row: ExamRow, plan: seq<Probe>, a: Answer, now: int, w: World)
    requires Sound(cfg, row, plan) && row.phase.Probing? && Advance(cfg, row, a, now, w).Ok?
    requires exists i :: 0 <= i < |plan| && !ProbeFilled(plan[i])
    ensures Advance(cfg, row, a, now, w).value.row.phase.Graded?
  {
    ReloadedPlan(row.state);
    LostPlanGrades(cfg, row, a, now, w);
  }

  lemma LostPlanGrades(cfg: Settings, row: ExamRow, a: Answer, now: int, w: World)
    requires row.phase.Probing? && StateFromRaw(row.state) == NO_STATE && Advance(cfg, row, a, now, w).Ok?
    ensures Advance(cfg, row, a, now, w).value.row.phase.Graded?
  {
  }

  /** After any accepted turn that leaves the exam open, the question shown on reload
      is the text just returned. */
  lemma CurrentQuestionIsTheReply(cfg: Settings, row: ExamRow, a: Answer, now: int, w: World)
    requires Advance(cfg, row, a, now, w).Ok? && !Advance(cfg, row, a, now, w).value.row.phase.Graded?
    ensures var r := Advance(cfg, row, a, now, w).value;
            CurrentQuestion(cfg, r.row) == if r.assistantText == "" then None else Some(r.assistantText)
  {
  }

  // ---- inputs with a blank text --------------------------------------------

  /** A paper with one readable section, and a model that sends just those. */
  function BlankWorld(): World {
    World(Some(["A"]), Some([Section("A", "t")]), [LlmRetry.Content(Some(BlankPlan()))],
          [LlmRetry.Content(Some(BlankVerdict()))])
  }

  lemma BlankWorldAllows()
    ensures Allowed(BlankWorld()) == ["A"] && GroundingError(BlankWorld()).None?
  {
    var w := BlankWorld();
    var titles, section := ["A"], Section("A", "t");
    StripFixed("A");
    assert !IsSpace(titles[0][0]) && !IsSpace(section.text[0]);
    assert Grounded(titles, section);
    var none: seq<Section> := [];
    assert w.material.value[..0] == none && Headings(titles, none) == [];
  }

  lemma BlankPlanReply(cfg: Settings)
    requires cfg.attempts >= 1
    ensures PlanProbes(cfg, BlankWorld()) == Ok(BlankPlanStored())
  {
    BlankWorldAllows();
    BlankPlanAccepted();
  }

  lemma BlankVerdictReply(cfg: Settings)
    requires cfg.attempts >= 1
    ensures BuildVerdict(cfg, BlankWorld()) == Ok(BlankVerdictStored())
  {
    BlankWorldAllows();
    BlankVerdictAccepted();
  }

  /** The verdict the examiner accepted and stored cannot be read back at all. */
  lemma BlankVerdictLost(cfg: Settings, row: ExamRow, transcript: seq<Turn>, turns: nat, now: int)
    requires cfg.attempts >= 1
    ensures BuildVerdict(cfg, BlankWorld()) == Ok(BlankVerdictStored())
    ensures VerdictFromRow(cfg, Closed(row, transcript, turns, BlankVerdictStored(), now)) == None
  {
    BlankVerdictReply(cfg);
    BlankVerdictAccepted();
  }

  /** An exam with that plan: one probe is asked, and the next answer, whatever it is,
      closes the exam although the cap is not reached. */
  lemma BlankPlanExam(cfg: Settings, a: Answer, b: Answer, x1: Exam, x2: Exam)
    requires cfg.attempts >= 1 && cfg.maxTurns >= 3 && !a.done
    requires x1 == Next(cfg, Begin(cfg, 0), Turning(a, 0, BlankWorld()))
    requires x2 == Next(cfg, x1, Turning(b, 0, BlankWorld()))
    ensures x1.row.phase.Probing? && |x1.row.state.probes| == 2
    ensures x2.row.phase.Graded? && x2.row.turnCount == 2
  {
    BlankPlanReply(cfg);
    BlankVerdictReply(cfg);
    BlankPlanAccepted();
    OpensWith(cfg, NewRow(cfg, 0), a, 0, BlankWorld(), BlankPlanStored());
    LostPlanCloses(cfg, x1.row, b, 0, BlankWorld());
  }

  lemma OpensWith(cfg: Settings, row: ExamRow, a: Answer, now: int, w: World, plan: seq<Probe>)
    requires row.phase.Explain? && !Expired(row, now) && !a.done && row.turnCount + 1 < Max1(cfg.maxTurns)
    requires PlanProbes(cfg, w) == Ok(plan) && plan != []
    ensures var r := Advance(cfg, row, a, now, w);
            && r.Ok? && r.value.row.phase.Probing? && r.value.row.state == ExamState(plan, 0, false)
            && r.value.row.turnCount == row.turnCount + 1 && r.value.row.expiresAt == now + Max1(cfg.ttl)
  {
  }

  /** A session whose plan did not survive the save is closed by the next answer. */
  lemma LostPlanCloses(cfg: Settings, row: ExamRow, b: Answer, now: int, w: World)
    requires row.phase.Probing? && !Expired(row, now) && StateFromRaw(row.state) == NO_STATE && BuildVerdict(cfg, w).Ok?
    ensures var r := Advance(cfg, row, b, now, w);
            r.Ok? && r.value.row.phase.Graded? && r.value.row.turnCount == row.turnCount + 1
  {
  }
}
