/** Which replies of the model the examiner accepts, and what it keeps of them: sizes, text
    lengths, scores, coverage and citations, reply by reply. */
module ExamAcceptance {
  import opened Wrappers
  import opened Text
  import opened ExamSchemas

  predicate Fits(text: string, limit: nat) {
    1 <= |text| <= limit
  }

  // ---- plans ---------------------------------------------------------------

  predicate ProbeFits(p: Probe) {
    Fits(p.question, 1000) && Fits(p.section, 300) && Fits(p.gap, 1000)
  }

  /** The probe as sent, its texts tidied. */
  predicate ProbeKept(sent: Probe, kept: Probe) {
    && kept.question == Tidy(sent.question) && kept.section == Tidy(sent.section) && kept.gap == Tidy(sent.gap)
    && kept.focus == sent.focus && kept.targetsGap == sent.targetsGap
  }

  ghost predicate ProbesKept(sent: seq<Probe>, kept: seq<Probe>) {
    |kept| == |sent| && forall i :: 0 <= i < |sent| ==> ProbeKept(sent[i], kept[i])
  }

  lemma {:induction false} ProbesFit(sent: seq<Probe>)
    ensures ValidProbes(sent).Some? <==> forall i :: 0 <= i < |sent| ==> ProbeFits(sent[i])
    ensures ValidProbes(sent).Some? ==> ProbesKept(sent, ValidProbes(sent).value)
    decreases |sent|
  {
    if sent != [] {
      ProbesFit(sent[1..]);
      assert forall i :: 0 < i < |sent| ==> sent[i] == sent[1..][i - 1];
      assert ValidProbe(sent[0]).Some? <==> ProbeFits(sent[0]);
    }
  }

  /** The three foci are met, some probe goes for a gap, and each section is on the list,
      unless the list is empty. */
  ghost predicate PlanMeets(sent: seq<Probe>, allowed: seq<string>) {
    && GoesForGap(sent) && Meets(sent, {Methodology})
    && Meets(sent, {Results, ResultsAndLimitations}) && Meets(sent, {Limitations, ResultsAndLimitations})
    && (allowed != [] ==> forall i :: 0 <= i < |sent| ==> Tidy(sent[i].section) in allowed)
  }

  predicate GoesForGap(sent: seq<Probe>) {
    exists i :: 0 <= i < |sent| && sent[i].targetsGap
  }

  predicate Meets(sent: seq<Probe>, foci: set<Focus>) {
    exists i :: 0 <= i < |sent| && sent[i].focus in foci
  }

  lemma PlanAcceptedExactly(sent: seq<Probe>, allowed: seq<string>)
    ensures ValidPlan(sent, allowed).Some? <==>
            2 <= |sent| <= 3 && (forall i :: 0 <= i < |sent| ==> ProbeFits(sent[i])) && PlanMeets(sent, allowed)
    ensures ValidPlan(sent, allowed).Some? ==> ProbesKept(sent, ValidPlan(sent, allowed).value)
  {
    ProbesFit(sent);
    if ValidProbes(sent).Some? {
      RuleMeets(sent, ValidProbes(sent).value, allowed);
    }
  }

  lemma RuleMeets(sent: seq<Probe>, kept: seq<Probe>, allowed: seq<string>)
    requires ProbesKept(sent, kept)
    ensures PlanRule(kept, allowed) <==> PlanMeets(sent, allowed)
  {
    FocusMeets(sent, kept, Methodology, Methodology);
    FocusMeets(sent, kept, Results, ResultsAndLimitations);
    FocusMeets(sent, kept, Limitations, ResultsAndLimitations);
    assert {Methodology, Methodology} == {Methodology};
    GapMeets(sent, kept);
    forall i | 0 <= i < |sent|
      ensures kept[i].section == Tidy(sent[i].section)
    {
      assert ProbeKept(sent[i], kept[i]);
    }
  }

  lemma GapMeets(sent: seq<Probe>, kept: seq<Probe>)
    requires ProbesKept(sent, kept)
    ensures GoesForGap(kept) <==> GoesForGap(sent)
  {
    forall i | 0 <= i < |sent|
      ensures kept[i].targetsGap == sent[i].targetsGap
    {
      assert ProbeKept(sent[i], kept[i]);
    }
  }

  lemma FocusMeets(sent: seq<Probe>, kept: seq<Probe>, a: Focus, b: Focus)
    requires ProbesKept(sent, kept)
    ensures Covered(kept, a, b) <==> Meets(sent, {a, b})
  {
    forall i | 0 <= i < |sent|
      ensures kept[i].focus == sent[i].focus
    {
      assert ProbeKept(sent[i], kept[i]);
    }
  }

  // ---- verdicts ------------------------------------------------------------

  predicate DimensionFits(d: Dimension) {
    1 <= d.score <= 5 && Fits(d.justification, 2000)
  }

  predicate DimensionKept(sent: Dimension, kept: Dimension) {
    kept.score == sent.score && kept.justification == Tidy(sent.justification)
  }

  predicate MisconceptionFits(m: Misconception) {
    Fits(m.userSaid, 2000) && Fits(m.paperSays, 2000) && Fits(m.section, 300)
  }

  predicate MisconceptionKept(sent: Misconception, kept: Misconception) {
    && kept.userSaid == Tidy(sent.userSaid) && kept.paperSays == Tidy(sent.paperSays)
    && kept.section == Tidy(sent.section)
  }

  ghost predicate AllKept(sent: seq<Misconception>, kept: seq<Misconception>) {
    |kept| == |sent| && forall i :: 0 <= i < |sent| ==> MisconceptionKept(sent[i], kept[i])
  }

  lemma {:induction false} MisconceptionsFit(sent: seq<Misconception>)
    ensures ValidMisconceptions(sent).Some? <==> forall i :: 0 <= i < |sent| ==> MisconceptionFits(sent[i])
    ensures ValidMisconceptions(sent).Some? ==> AllKept(sent, ValidMisconceptions(sent).value)
    decreases |sent|
  {
    if sent != [] {
      MisconceptionsFit(sent[1..]);
      assert forall i :: 0 < i < |sent| ==> sent[i] == sent[1..][i - 1];
      assert ValidMisconception(sent[0]).Some? <==> MisconceptionFits(sent[0]);
    }
  }

  /** The labels to read again are those sent, tidied, blanks left out. */
  lemma {:induction false} RereadMembers(sent: seq<string>, heading: string)
    ensures heading in TidyReread(sent) <==> heading != "" && exists i :: 0 <= i < |sent| && Tidy(sent[i]) == heading
    decreases |sent|
  {
    if sent != [] {
      var init := sent[..|sent| - 1];
      RereadMembers(init, heading);
      if i :| 0 <= i < |init| && Tidy(init[i]) == heading {
        assert sent[i] == init[i];
      }
      if i :| 0 <= i < |sent| && Tidy(sent[i]) == heading {
        assert i < |init| ==> init[i] == sent[i];
      }
    }
  }

  ghost predicate VerdictFits(sent: Verdict) {
    && DimensionFits(sent.rubric.problem) && DimensionFits(sent.rubric.methods) && DimensionFits(sent.rubric.results)
    && |sent.misconceptions| <= 50 && |sent.reread| <= 20 && 1 <= sent.score <= 5 && Fits(sent.summary, 500)
    && forall i :: 0 <= i < |sent.misconceptions| ==> MisconceptionFits(sent.misconceptions[i])
  }

  /** Every heading cited is on the list. */
  ghost predicate VerdictCites(sent: Verdict, allowed: seq<string>) {
    && (forall i :: 0 <= i < |sent.misconceptions| ==> Tidy(sent.misconceptions[i].section) in allowed)
    && (forall i :: 0 <= i < |sent.reread| ==> Blank(sent.reread[i]) || Tidy(sent.reread[i]) in allowed)
  }

  /** The verdict as sent, its texts tidied and its labels without blanks and repeats. */
  ghost predicate VerdictKept(sent: Verdict, kept: Verdict) {
    && DimensionKept(sent.rubric.problem, kept.rubric.problem)
       && DimensionKept(sent.rubric.methods, kept.rubric.methods)
    && DimensionKept(sent.rubric.results, kept.rubric.results)
    && AllKept(sent.misconceptions, kept.misconceptions)
    && kept.score == sent.score && kept.summary == Tidy(sent.summary)
    && RereadShape(kept.reread)
    && forall heading :: heading in kept.reread <==>
         heading != "" && exists i :: 0 <= i < |sent.reread| && Tidy(sent.reread[i]) == heading
  }

  lemma VerdictAcceptedExactly(sent: Verdict, allowed: seq<string>)
    ensures ValidVerdict(sent, allowed).Some? <==> VerdictFits(sent) && (allowed == [] || VerdictCites(sent, allowed))
    ensures ValidVerdict(sent, allowed).Some? ==> VerdictKept(sent, ValidVerdict(sent, allowed).value)
  {
    UngroundedVerdict(sent);
    if VerdictFits(sent) {
      var kept := ValidVerdict(sent, []).value;
      CitesMeets(sent, kept, allowed);
      GroundedVerdict(sent, kept, allowed);
    }
  }

  lemma GroundedVerdict(sent: Verdict, kept: Verdict, allowed: seq<string>)
    requires ValidVerdict(sent, []) == Some(kept)
    ensures ValidVerdict(sent, allowed) == if allowed == [] || CitesOnly(kept, allowed) then Some(kept) else None
  {
  }

  lemma UngroundedParts(sent: Verdict)
    ensures ValidVerdict(sent, []).Some? <==>
            && DimensionFits(sent.rubric.problem) && DimensionFits(sent.rubric.methods)
            && DimensionFits(sent.rubric.results) && ValidMisconceptions(sent.misconceptions).Some?
            && |sent.misconceptions| <= 50 && |sent.reread| <= 20 && 1 <= sent.score <= 5 && Fits(sent.summary, 500)
    ensures ValidVerdict(sent, []).Some? ==>
              var kept := ValidVerdict(sent, []).value;
              && DimensionKept(sent.rubric.problem, kept.rubric.problem)
              && DimensionKept(sent.rubric.methods, kept.rubric.methods)
              && DimensionKept(sent.rubric.results, kept.rubric.results)
              && Some(kept.misconceptions) == ValidMisconceptions(sent.misconceptions)
              && kept.reread == TidyReread(sent.reread) && kept.score == sent.score
              && kept.summary == Tidy(sent.summary)
  {
  }

  lemma UngroundedVerdict(sent: Verdict)
    ensures ValidVerdict(sent, []).Some? <==> VerdictFits(sent)
    ensures ValidVerdict(sent, []).Some? ==> VerdictKept(sent, ValidVerdict(sent, []).value)
  {
    UngroundedParts(sent);
    MisconceptionsFit(sent.misconceptions);
    TidyRereadShape(sent.reread);
    forall heading
      ensures heading in TidyReread(sent.reread) <==>
              heading != "" && exists i :: 0 <= i < |sent.reread| && Tidy(sent.reread[i]) == heading
    {
      RereadMembers(sent.reread, heading);
    }
  }

  lemma CitesMeets(sent: Verdict, kept: Verdict, allowed: seq<string>)
    requires AllKept(sent.misconceptions, kept.misconceptions)
    requires forall heading :: heading in kept.reread <==>
               heading != "" && exists i :: 0 <= i < |sent.reread| && Tidy(sent.reread[i]) == heading
    ensures CitesOnly(kept, allowed) <==> VerdictCites(sent, allowed)
  {
    forall i | 0 <= i < |sent.misconceptions|
      ensures kept.misconceptions[i].section == Tidy(sent.misconceptions[i].section)
    {
      assert MisconceptionKept(sent.misconceptions[i], kept.misconceptions[i]);
    }
    forall i | 0 <= i < |sent.reread|
      ensures Blank(sent.reread[i]) <==> Tidy(sent.reread[i]) == ""
    {
      TidyFacts(sent.reread[i]);
    }
    if CitesOnly(kept, allowed) {
      forall i | 0 <= i < |sent.reread| && !Blank(sent.reread[i])
        ensures Tidy(sent.reread[i]) in allowed
      {
        assert Tidy(sent.reread[i]) in kept.reread;
      }
    }
    forall i | 0 <= i < |kept.reread|
      ensures exists j :: 0 <= j < |sent.reread| && Tidy(sent.reread[j]) == kept.reread[i] && !Blank(sent.reread[j])
    {
      assert kept.reread[i] in kept.reread;
      var j :| 0 <= j < |sent.reread| && Tidy(sent.reread[j]) == kept.reread[i];
    }
  }
}
