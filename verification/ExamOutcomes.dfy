/** What each call on an exam leaves in its row, column by column, and exactly when it fails:
    opening it, an expiry check, an answer too late, and each kind of turn. */
module ExamOutcomes {
  import opened Wrappers
  import opened Text
  import opened LlmRetry
  import opened ExamSchemas
  import opened ExamSession
  import opened ExamRuns

  // ---- the labels offered --------------------------------------------------

  /** The section is headed by one of the tree's titles, stripped, and has text to read. */
  predicate Offered(titles: seq<string>, s: Section) {
    !Blank(s.text) && exists i :: 0 <= i < |titles| && !Blank(titles[i]) && s.heading == Strip(titles[i])
  }

  /** The labels are the headings of the sections at the positions given, in order, and no
      other section is offered. */
  ghost predicate OfferedAt(at: seq<nat>, titles: seq<string>, sections: seq<Section>, labels: seq<string>) {
    && |at| == |labels|
    && (forall i, j :: 0 <= i < j < |at| ==> at[i] < at[j])
    && (forall i :: 0 <= i < |at| ==>
          at[i] < |sections| && Offered(titles, sections[at[i]]) && labels[i] == sections[at[i]].heading)
    && (forall j :: 0 <= j < |sections| && j !in at ==> !Offered(titles, sections[j]))
  }

  lemma {:induction false} HeadingsOffered(titles: seq<string>, sections: seq<Section>) returns (at: seq<nat>)
    ensures OfferedAt(at, titles, sections, Headings(titles, sections))
    decreases |sections|
  {
    at := [];
    if sections != [] {
      var n := |sections| - 1;
      at := HeadingsOffered(titles, sections[..n]);
      var labels := Headings(titles, sections[..n]);
      if Offered(titles, sections[n]) {
        OneMore(at, titles, sections, labels);
        at := at + [n];
      } else {
        NoMore(at, titles, sections, labels);
      }
    }
  }

  lemma NoMore(at: seq<nat>, titles: seq<string>, sections: seq<Section>, labels: seq<string>)
    requires sections != [] && OfferedAt(at, titles, sections[..|sections| - 1], labels)
    requires !Offered(titles, sections[|sections| - 1])
    ensures OfferedAt(at, titles, sections, labels)
  {
    assert forall j :: 0 <= j < |sections| - 1 ==> sections[..|sections| - 1][j] == sections[j];
  }

  lemma OneMore(at: seq<nat>, titles: seq<string>, sections: seq<Section>, labels: seq<string>)
    requires sections != [] && OfferedAt(at, titles, sections[..|sections| - 1], labels)
    requires Offered(titles, sections[|sections| - 1])
    ensures var n := |sections| - 1; OfferedAt(at + [n], titles, sections, labels + [sections[n].heading])
  {
    var n, more := |sections| - 1, at + [|sections| - 1];
    forall i | 0 <= i < |more|
      ensures more[i] < |sections| && Offered(titles, sections[more[i]])
      ensures (labels + [sections[n].heading])[i] == sections[more[i]].heading
    {
      assert i < |at| ==> sections[..n][at[i]] == sections[at[i]];
    }
    assert more[|at|] == n;
    forall j | 0 <= j < |sections| && j !in more
      ensures !Offered(titles, sections[j])
    {
      assert j < n && j !in at && sections[..n][j] == sections[j];
    }
  }

  predicate HasTitle(w: World) {
    w.titles.Some? && exists i :: 0 <= i < |w.titles.value| && !Blank(w.titles.value[i])
  }

  predicate HasExcerpt(w: World) {
    && w.titles.Some? && w.material.Some?
    && exists j :: 0 <= j < |w.material.value| && Offered(w.titles.value, w.material.value[j])
  }

  lemma AnyOffer(at: seq<nat>, titles: seq<string>, sections: seq<Section>, labels: seq<string>)
    requires OfferedAt(at, titles, sections, labels)
    ensures labels != [] <==> exists j :: 0 <= j < |sections| && Offered(titles, sections[j])
  {
    if labels != [] {
      assert Offered(titles, sections[at[0]]);
    }
  }

  /** The grounding of a call fails without a titled section, without the paper, and
      without a readable excerpt, in this order. */
  lemma GroundingExactly(w: World)
    ensures GroundingError(w) == if !HasTitle(w) then Some(NoTree) else if w.material.None? then Some(NotFound)
                                 else if !HasExcerpt(w) then Some(NoExcerpts) else None
  {
    if w.titles.Some? && w.material.Some? {
      var at := HeadingsOffered(w.titles.value, w.material.value);
      AnyOffer(at, w.titles.value, w.material.value, Allowed(w));
    }
  }

  // ---- the two calls -------------------------------------------------------

  /** The call grounds, and v is what the first acceptable reply within the attempts comes to. */
  ghost predicate VerdictGiven(cfg: Settings, w: World, v: Verdict) {
    HasTitle(w) && HasExcerpt(w) && exists i: nat :: i < cfg.attempts && VerdictAt(w, i, v)
  }

  ghost predicate VerdictAt(w: World, i: nat, v: Verdict) {
    FirstAcceptedAt(w.verdictPosts, (raw: Verdict) => ValidVerdict(raw, Allowed(w)), i, v)
  }

  ghost predicate PlanGiven(cfg: Settings, w: World, plan: seq<Probe>) {
    HasTitle(w) && HasExcerpt(w) && exists i: nat :: i < cfg.attempts && PlanAt(w, i, plan)
  }

  ghost predicate PlanAt(w: World, i: nat, plan: seq<Probe>) {
    FirstAcceptedAt(w.planPosts, (raw: seq<Probe>) => ValidPlan(raw, Allowed(w)), i, plan)
  }

  lemma VerdictExactly(cfg: Settings, w: World, v: Verdict)
    ensures BuildVerdict(cfg, w) == Ok(v) <==> VerdictGiven(cfg, w, v)
  {
    GroundingExactly(w);
    var validate := (raw: Verdict) => ValidVerdict(raw, Allowed(w));
    OutcomeMeaning(w.verdictPosts, cfg.attempts, validate);
    if i: nat :| i < cfg.attempts && FirstAcceptedAt(w.verdictPosts, validate, i, v) {
      assert VerdictAt(w, i, v);
    }
  }

  lemma PlanExactly(cfg: Settings, w: World, plan: seq<Probe>)
    ensures PlanProbes(cfg, w) == Ok(plan) <==> PlanGiven(cfg, w, plan)
  {
    GroundingExactly(w);
    var validate := (raw: seq<Probe>) => ValidPlan(raw, Allowed(w));
    OutcomeMeaning(w.planPosts, cfg.attempts, validate);
    if i: nat :| i < cfg.attempts && FirstAcceptedAt(w.planPosts, validate, i, plan) {
      assert PlanAt(w, i, plan);
    }
  }

  // ---- rows ----------------------------------------------------------------

  predicate Says(t: Turn, kind: Kind, content: string, now: int) {
    t.kind == kind && t.content == content && t.at == now
  }

  /** The row closed with verdict v: its columns, and the summary as the last thing said. */
  predicate GradedAs(row: ExamRow, row': ExamRow, transcript: seq<Turn>, turns: nat, v: Verdict, now: int) {
    && row'.phase.Graded? && row'.score == Some(v.score) && row'.rubric == Some(v.rubric)
    && row'.gaps.misconceptions == v.misconceptions && row'.gaps.reread == v.reread && row'.gaps.summary == v.summary
    && |row'.transcript| == |transcript| + 1 && row'.transcript[..|transcript|] == transcript
    && Says(row'.transcript[|transcript|], Verdicting, v.summary, now)
    && row'.turnCount == turns && row'.completedAt == Some(now)
    && row'.state.probes == [] && row'.expiresAt == row.expiresAt
  }

  /** The reply of a call that grades: it fails exactly when no verdict is given. */
  ghost predicate Grades(cfg: Settings, row: ExamRow, transcript: seq<Turn>, turns: nat, now: int, w: World,
                         r: Result<Reply, ExamError>) {
    && (r.Ok? <==> exists v :: VerdictGiven(cfg, w, v))
    && (r.Ok? ==>
          && r.value.verdict.Some? && VerdictGiven(cfg, w, r.value.verdict.value) && r.value.assistantText == ""
          && GradedAs(row, r.value.row, transcript, turns, r.value.verdict.value, now))
  }

  lemma FinalizeGrades(cfg: Settings, row: ExamRow, transcript: seq<Turn>, turns: nat, now: int, w: World)
    ensures Grades(cfg, row, transcript, turns, now, w, Finalize(cfg, row, transcript, turns, now, w))
  {
    forall v
      ensures BuildVerdict(cfg, w) == Ok(v) <==> VerdictGiven(cfg, w, v)
    {
      VerdictExactly(cfg, w, v);
    }
  }

  // ---- expiry --------------------------------------------------------------

  predicate Overdue(row: ExamRow, now: int) {
    !row.phase.Graded? && now >= row.expiresAt
  }

  /** A check grades an overdue exam as it stands and leaves any other row alone. */
  lemma CheckOutcome(cfg: Settings, row: ExamRow, now: int, w: World)
    ensures var r := EnsureCurrent(cfg, row, now, w);
            if Overdue(row, now) then Grades(cfg, row, row.transcript, row.turnCount, now, w, r)
            else r.Ok? && r.value.row == row && r.value.assistantText == ""
  {
    FinalizeGrades(cfg, row, row.transcript, row.turnCount, now, w);
  }

  /** An answer that comes too late is not recorded: the exam is graded without it. An exam
      already graded takes none. */
  lemma LateAnswerOutcome(cfg: Settings, row: ExamRow, a: Answer, now: int, w: World)
    ensures var r := Advance(cfg, row, a, now, w);
            && (Overdue(row, now) ==> Grades(cfg, row, row.transcript, row.turnCount, now, w, r))
            && (row.phase.Graded? ==> r.Ok? && r.value.row == row && r.value.assistantText == "")
  {
    FinalizeGrades(cfg, row, row.transcript, row.turnCount, now, w);
  }

  // ---- turns in time -------------------------------------------------------

  /** The row of an exam still open, with the time to answer renewed. */
  predicate StaysOpen(cfg: Settings, row: ExamRow, row': ExamRow, probes: seq<Probe>, index: int, pushed: bool,
                      now: int) {
    && row'.phase.Probing? && row'.turnCount == row.turnCount + 1
    && row'.state.probes == probes && row'.state.probeIndex == index && row'.state.pushbackUsed == pushed
    && row'.expiresAt == now + (if cfg.ttl < 1 then 1 else cfg.ttl)
    && row'.score == row.score && row'.rubric == row.rubric && row'.gaps == row.gaps
       && row'.completedAt == row.completedAt
  }

  /** The answer is added as given, stripped, and after it what the examiner says. */
  predicate Spoken(row: ExamRow, row': ExamRow, a: Answer, now: int) {
    && |row'.transcript| == |row.transcript| + 2 && row'.transcript[..|row.transcript|] == row.transcript
    && Says(row'.transcript[|row.transcript|], Answering, Strip(a.text), now)
  }

  predicate AsksProbe(row: ExamRow, row': ExamRow, p: Probe, now: int)
    requires |row'.transcript| > |row.transcript| + 1
  {
    var t := row'.transcript[|row.transcript| + 1];
    Says(t, Asking, p.question, now) && t.section == Some(p.section) && t.focus == Some(p.focus)
    && t.targetsGap == Some(p.targetsGap)
  }

  /** Why an answer in time closes the exam: the user is done, it is the last turn allowed,
      or the last probe is answered well enough or for the second time. */
  predicate LastAnswer(cfg: Settings, row: ExamRow, a: Answer) {
    || a.done || row.turnCount + 1 >= (if cfg.maxTurns < 1 then 1 else cfg.maxTurns)
    || (row.phase.Probing? && row.state.probeIndex + 1 >= |row.state.probes| && (!a.vague || row.state.pushbackUsed))
  }

  ghost predicate OpenInTime(cfg: Settings, row: ExamRow, plan: seq<Probe>, now: int) {
    && Sound(cfg, row, plan) && !row.phase.Graded? && now < row.expiresAt
    && forall i :: 0 <= i < |plan| ==> ProbeFilled(plan[i])
  }

  /** The answer that closes: recorded, counted, and graded with everything said. */
  lemma LastAnswerOutcome(cfg: Settings, row: ExamRow, plan: seq<Probe>, a: Answer, now: int, w: World)
    requires OpenInTime(cfg, row, plan, now) && LastAnswer(cfg, row, a)
    ensures Grades(cfg, row, row.transcript + [Plain(Answering, Strip(a.text), now)], row.turnCount + 1, now, w,
                   Advance(cfg, row, a, now, w))
  {
    if row.phase.Probing? {
      ReloadedPlan(row.state);
    }
    FinalizeGrades(cfg, row, row.transcript + [Plain(Answering, Strip(a.text), now)], row.turnCount + 1, now, w);
  }

  /** The explanation: the plan given is stored and its first probe asked; without a plan
      the call fails. */
  lemma ExplanationOutcome(cfg: Settings, row: ExamRow, plan: seq<Probe>, a: Answer, now: int, w: World)
    requires OpenInTime(cfg, row, plan, now) && row.phase.Explain? && !LastAnswer(cfg, row, a)
    ensures var r := Advance(cfg, row, a, now, w);
            && (r.Ok? <==> exists probes :: PlanGiven(cfg, w, probes))
            && (r.Ok? ==>
                  var row', probes := r.value.row, r.value.row.state.probes;
                  && PlanGiven(cfg, w, probes) && probes != [] && StaysOpen(cfg, row, row', probes, 0, false, now)
                  && Spoken(row, row', a, now) && AsksProbe(row, row', probes[0], now)
                  && r.value.assistantText == probes[0].question && r.value.verdict.None?)
  {
    forall probes
      ensures PlanProbes(cfg, w) == Ok(probes) <==> PlanGiven(cfg, w, probes)
    {
      PlanExactly(cfg, w, probes);
    }
    PlanSize(cfg, w);
  }

  /** The pushback names the probe's section and is what the user reads. */
  predicate PushedOn(cfg: Settings, row: ExamRow, r: Reply, p: Probe, now: int)
    requires |r.row.transcript| > |row.transcript| + 1
  {
    var t := r.row.transcript[|row.transcript| + 1];
    && Says(t, Pushback, r.assistantText, now) && t.section == Some(p.section)
    && r.assistantText == cfg.wording.pushbackHead + p.section + cfg.wording.pushbackTail
  }

  /** A first vague answer to a probe is pushed back; no model call is made, so none fails. */
  lemma VagueAnswerOutcome(cfg: Settings, row: ExamRow, plan: seq<Probe>, a: Answer, now: int, w: World)
    requires OpenInTime(cfg, row, plan, now) && row.phase.Probing? && !LastAnswer(cfg, row, a)
    requires a.vague && !row.state.pushbackUsed
    ensures var r, i := Advance(cfg, row, a, now, w), row.state.probeIndex;
            && r.Ok? && r.value.verdict.None? && Spoken(row, r.value.row, a, now)
            && StaysOpen(cfg, row, r.value.row, plan, i, true, now) && PushedOn(cfg, row, r.value, plan[i], now)
  {
    ReloadedPlan(row.state);
  }

  /** Any other answer that is not the last brings the next probe, again without a call. */
  lemma NextProbeOutcome(cfg: Settings, row: ExamRow, plan: seq<Probe>, a: Answer, now: int, w: World)
    requires OpenInTime(cfg, row, plan, now) && row.phase.Probing? && !LastAnswer(cfg, row, a)
    requires !a.vague || row.state.pushbackUsed
    ensures var r, i := Advance(cfg, row, a, now, w), row.state.probeIndex + 1;
            && i < |plan| && r.Ok? && r.value.verdict.None? && Spoken(row, r.value.row, a, now)
            && StaysOpen(cfg, row, r.value.row, plan, i, false, now) && AsksProbe(row, r.value.row, plan[i], now)
            && r.value.assistantText == plan[i].question
  {
    ReloadedPlan(row.state);
  }

  /** A new exam: the opening question asked, nothing answered, and the time to answer running. */
  lemma NewExamOutcome(cfg: Settings, now: int)
    ensures var row := NewRow(cfg, now);
            && row.phase.Explain? && row.turnCount == 0 && row.score.None? && row.rubric.None? && row.completedAt.None?
            && |row.transcript| == 1 && Says(row.transcript[0], Opening, cfg.wording.opening, now)
            && row.state.probes == [] && row.gaps.misconceptions == [] && row.gaps.reread == []
            && CurrentQuestion(cfg, row) == (if cfg.wording.opening == "" then None else Some(cfg.wording.opening))
            && !Overdue(row, now) && (forall later :: Overdue(row, later) <==> later >= now + Max1(cfg.ttl))
  {
  }
}
