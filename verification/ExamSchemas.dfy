/** What the examiner accepts from the model. Length limits are tested on the raw
    field, then the field is tidied; the list and grounding rules see tidied text. */
module ExamSchemas {
  import opened Wrappers
  import opened Text

  datatype Focus = Methodology | Results | Limitations | ResultsAndLimitations

  datatype Probe = Probe(question: string, section: string, focus: Focus, targetsGap: bool, gap: string)

  datatype Dimension = Dimension(score: int, justification: string)

  datatype Rubric = Rubric(problem: Dimension, methods: Dimension, results: Dimension)

  datatype Misconception = Misconception(userSaid: string, paperSays: string, section: string)

  datatype Verdict = Verdict(rubric: Rubric, misconceptions: seq<Misconception>, reread: seq<string>,
                             score: int, summary: string)

  function Field(raw: string, limit: nat): Option<string> {
    if 1 <= |raw| <= limit then Some(Tidy(raw)) else None
  }

  // ---- probes --------------------------------------------------------------

  function ValidProbe(raw: Probe): Option<Probe> {
    var question, section, gap := Field(raw.question, 1000), Field(raw.section, 300), Field(raw.gap, 1000);
    if question.Some? && section.Some? && gap.Some?
    then Some(Probe(question.value, section.value, raw.focus, raw.targetsGap, gap.value))
    else None
  }

  function ValidProbes(raw: seq<Probe>): Option<seq<Probe>> {
    if raw == [] then Some([])
    else
      var first, rest := ValidProbe(raw[0]), ValidProbes(raw[1..]);
      if first.Some? && rest.Some? then Some([first.value] + rest.value) else None
  }

  predicate Covered(probes: seq<Probe>, a: Focus, b: Focus) {
    exists i :: 0 <= i < |probes| && (probes[i].focus == a || probes[i].focus == b)
  }

  /** The plan-level rule; an empty allowed list switches the grounding test off. */
  predicate PlanRule(probes: seq<Probe>, allowed: seq<string>) {
    && (allowed != [] ==> forall i :: 0 <= i < |probes| ==> probes[i].section in allowed)
    && (exists i :: 0 <= i < |probes| && probes[i].targetsGap)
    && Covered(probes, Methodology, Methodology)
    && Covered(probes, Results, ResultsAndLimitations)
    && Covered(probes, Limitations, ResultsAndLimitations)
  }

  function ValidPlan(raw: seq<Probe>, allowed: seq<string>): Option<seq<Probe>> {
    if !(2 <= |raw| <= 3) then None
    else
      var probes := ValidProbes(raw);
      if probes.Some? && PlanRule(probes.value, allowed) then probes else None
  }

  // ---- verdicts ------------------------------------------------------------

  function ValidDimension(raw: Dimension): Option<Dimension> {
    var text := Field(raw.justification, 2000);
    if 1 <= raw.score <= 5 && text.Some? then Some(Dimension(raw.score, text.value)) else None
  }

  function ValidRubric(raw: Rubric): Option<Rubric> {
    var a, b, c := ValidDimension(raw.problem), ValidDimension(raw.methods), ValidDimension(raw.results);
    if a.Some? && b.Some? && c.Some? then Some(Rubric(a.value, b.value, c.value)) else None
  }

  function ValidMisconception(raw: Misconception): Option<Misconception> {
    var said, says, section := Field(raw.userSaid, 2000), Field(raw.paperSays, 2000), Field(raw.section, 300);
    if said.Some? && says.Some? && section.Some?
    then Some(Misconception(said.value, says.value, section.value))
    else None
  }

  function ValidMisconceptions(raw: seq<Misconception>): Option<seq<Misconception>> {
    if raw == [] then Some([])
    else
      var first, rest := ValidMisconception(raw[0]), ValidMisconceptions(raw[1..]);
      if first.Some? && rest.Some? then Some([first.value] + rest.value) else None
  }

  /** Tidied, blanks dropped, first occurrences kept. */
  function TidyReread(raw: seq<string>): seq<string> {
    if raw == [] then []
    else
      var before, section := TidyReread(raw[..|raw| - 1]), Tidy(raw[|raw| - 1]);
      if section != "" && section !in before then before + [section] else before
  }

  predicate CitesOnly(v: Verdict, allowed: seq<string>) {
    && (forall i :: 0 <= i < |v.misconceptions| ==> v.misconceptions[i].section in allowed)
    && (forall i :: 0 <= i < |v.reread| ==> v.reread[i] in allowed)
  }

  function ValidVerdict(raw: Verdict, allowed: seq<string>): Option<Verdict> {
    var rubric, misconceptions := ValidRubric(raw.rubric), ValidMisconceptions(raw.misconceptions);
    var summary := Field(raw.summary, 500);
    if rubric.Some? && |raw.misconceptions| <= 50 && misconceptions.Some? && |raw.reread| <= 20
       && 1 <= raw.score <= 5 && summary.Some?
    then
      var v := Verdict(rubric.value, misconceptions.value, TidyReread(raw.reread), raw.score, summary.value);
      if allowed == [] || CitesOnly(v, allowed) then Some(v) else None
    else None
  }

  method TidyRereadLoop(value: seq<string>) returns (result: seq<string>)
    ensures result == TidyReread(value)
  {
    result := [];
    for i := 0 to |value|
      invariant result == TidyReread(value[..i])
    {
      var section := Tidy(value[i]);
      assert value[..i + 1][..i] == value[..i];
      if section != "" && section !in result {
        result := result + [section];
      }
    }
    assert value[..|value|] == value;
  }

  // ---- validating what was already validated -------------------------------

  predicate ProbeFilled(p: Probe) {
    p.question != "" && p.section != "" && p.gap != ""
  }

  predicate MisconceptionFilled(m: Misconception) {
    m.userSaid != "" && m.paperSays != "" && m.section != ""
  }

  predicate VerdictFilled(v: Verdict) {
    && v.rubric.problem.justification != "" && v.rubric.methods.justification != ""
       && v.rubric.results.justification != ""
    && (forall i :: 0 <= i < |v.misconceptions| ==> MisconceptionFilled(v.misconceptions[i]))
    && v.summary != ""
  }

  /** An accepted field is tidy and within its limit; accepted again, it is
      unchanged, unless it was blank: the empty string fails the minimum length. */
  lemma FieldAgain(raw: string, limit: nat)
    requires Field(raw, limit).Some?
    ensures Field(raw, limit).value == "" <==> Blank(raw)
    ensures Field(Field(raw, limit).value, limit) == if Blank(raw) then None else Field(raw, limit)
  {
    TidyFacts(raw);
    TidyFixed(Tidy(raw));
  }

  lemma ProbeAgain(raw: Probe)
    requires ValidProbe(raw).Some?
    ensures ValidProbe(ValidProbe(raw).value) == if ProbeFilled(ValidProbe(raw).value) then ValidProbe(raw) else None
    ensures IsTidy(ValidProbe(raw).value.section)
  {
    FieldAgain(raw.question, 1000);
    FieldAgain(raw.section, 300);
    FieldAgain(raw.gap, 1000);
    TidyFacts(raw.section);
  }

  lemma {:induction false} ProbesAgain(raw: seq<Probe>)
    requires ValidProbes(raw).Some?
    ensures var p := ValidProbes(raw).value;
            && |p| == |raw|
            && (forall i :: 0 <= i < |p| ==> IsTidy(p[i].section))
            && ValidProbes(p) == if forall i :: 0 <= i < |p| ==> ProbeFilled(p[i]) then Some(p) else None
    decreases |raw|
  {
    if raw != [] {
      ProbeAgain(raw[0]);
      ProbesAgain(raw[1..]);
      var p, rest := ValidProbes(raw).value, ValidProbes(raw[1..]).value;
      assert p[0] == ValidProbe(raw[0]).value && p[1..] == rest;
      if forall i :: 0 <= i < |p| ==> ProbeFilled(p[i]) {
        assert forall i :: 0 <= i < |rest| ==> rest[i] == p[i + 1];
      } else if ProbeFilled(p[0]) {
        assert exists i :: 0 <= i < |rest| && !ProbeFilled(rest[i]) by {
          var i :| 0 <= i < |p| && !ProbeFilled(p[i]);
          assert rest[i - 1] == p[i];
        }
      }
    }
  }

  lemma DimensionAgain(raw: Dimension)
    requires ValidDimension(raw).Some?
    ensures var d := ValidDimension(raw).value;
            ValidDimension(d) == if d.justification != "" then Some(d) else None
  {
    FieldAgain(raw.justification, 2000);
  }

  lemma MisconceptionAgain(raw: Misconception)
    requires ValidMisconception(raw).Some?
    ensures var m := ValidMisconception(raw).value;
            && ValidMisconception(m) == (if MisconceptionFilled(m) then Some(m) else None)
            && IsTidy(m.section)
  {
    FieldAgain(raw.userSaid, 2000);
    FieldAgain(raw.paperSays, 2000);
    FieldAgain(raw.section, 300);
    TidyFacts(raw.section);
  }

  lemma {:induction false} MisconceptionsAgain(raw: seq<Misconception>)
    requires ValidMisconceptions(raw).Some?
    ensures var p := ValidMisconceptions(raw).value;
            && |p| == |raw|
            && (forall i :: 0 <= i < |p| ==> IsTidy(p[i].section))
            && ValidMisconceptions(p) ==
               if forall i :: 0 <= i < |p| ==> MisconceptionFilled(p[i]) then Some(p) else None
    decreases |raw|
  {
    if raw != [] {
      MisconceptionAgain(raw[0]);
      MisconceptionsAgain(raw[1..]);
      var p, rest := ValidMisconceptions(raw).value, ValidMisconceptions(raw[1..]).value;
      assert p[0] == ValidMisconception(raw[0]).value && p[1..] == rest;
      if forall i :: 0 <= i < |p| ==> MisconceptionFilled(p[i]) {
        assert forall i :: 0 <= i < |rest| ==> rest[i] == p[i + 1];
      } else if MisconceptionFilled(p[0]) {
        assert exists i :: 0 <= i < |rest| && !MisconceptionFilled(rest[i]) by {
          var i :| 0 <= i < |p| && !MisconceptionFilled(p[i]);
          assert rest[i - 1] == p[i];
        }
      }
    }
  }

  ghost predicate RereadShape(s: seq<string>) {
    && (forall i :: 0 <= i < |s| ==> IsTidy(s[i]) && s[i] != "")
    && (forall i, j :: 0 <= i < j < |s| ==> s[i] != s[j])
  }

  lemma {:induction false} TidyRereadShape(raw: seq<string>)
    ensures RereadShape(TidyReread(raw)) && |TidyReread(raw)| <= |raw|
    decreases |raw|
  {
    if raw != [] {
      TidyRereadShape(raw[..|raw| - 1]);
      TidyFacts(raw[|raw| - 1]);
    }
  }

  lemma RereadLast(s: seq<string>, init: seq<string>, last: string)
    requires s != [] && init == s[..|s| - 1] && last == s[|s| - 1] && TidyReread(init) == init
    requires Tidy(last) == last != "" && last !in init
    ensures TidyReread(s) == init + [last]
  {
  }

  lemma {:induction false} TidyRereadFixed(s: seq<string>)
    requires RereadShape(s)
    ensures TidyReread(s) == s
    decreases |s|
  {
    if s != [] {
      var init, last := s[..|s| - 1], s[|s| - 1];
      TidyRereadFixed(init);
      TidyFixed(last);
      assert last !in init;
      RereadLast(s, init, last);
      assert init + [last] == s;
    }
  }

  /** An accepted verdict, accepted again without the grounding list, comes back
      the same exactly when none of its texts was blank. */
  lemma VerdictAgain(raw: Verdict, allowed: seq<string>)
    requires ValidVerdict(raw, allowed).Some?
    ensures var v := ValidVerdict(raw, allowed).value;
            ValidVerdict(v, []) == if VerdictFilled(v) then Some(v) else None
  {
    var v := ValidVerdict(raw, allowed).value;
    DimensionAgain(raw.rubric.problem);
    DimensionAgain(raw.rubric.methods);
    DimensionAgain(raw.rubric.results);
    MisconceptionsAgain(raw.misconceptions);
    TidyRereadShape(raw.reread);
    TidyRereadFixed(v.reread);
    FieldAgain(raw.summary, 500);
  }

  // ---- which labels can be cited -------------------------------------------

  // The labels offered are compared as they stand, the citations after tidying.

  /** Tidy, and no longer than the fields that cite a label may be. */
  predicate CanCite(name: string) {
    IsTidy(name) && |name| <= 300
  }

  ghost predicate PlanCites(raw: seq<Probe>, allowed: seq<string>, name: string) {
    var plan := ValidPlan(raw, allowed);
    plan.Some? && exists i :: 0 <= i < |plan.value| && plan.value[i].section == name
  }

  ghost predicate MisconceptionCites(raw: Verdict, allowed: seq<string>, name: string) {
    var v := ValidVerdict(raw, allowed);
    v.Some? && exists i :: 0 <= i < |v.value.misconceptions| && v.value.misconceptions[i].section == name
  }

  ghost predicate RereadCites(raw: Verdict, allowed: seq<string>, name: string) {
    ValidVerdict(raw, allowed).Some? && name in ValidVerdict(raw, allowed).value.reread
  }

  /** What to send for a label; the empty one comes from a blank field. */
  function Sent(name: string): string {
    if name == "" then " " else name
  }

  lemma SentField(name: string)
    requires CanCite(name)
    ensures Field(Sent(name), 300) == Some(name)
  {
    TidyFixed(name);
    TidyFacts(Sent(name));
  }

  function CitingPlan(name: string): seq<Probe> {
    [Probe("q", Sent(name), Methodology, true, "g"), Probe("q", Sent(name), ResultsAndLimitations, false, "g")]
  }

  function Remark(name: string): Misconception {
    Misconception("a", "b", Sent(name))
  }

  function PlainVerdict(misconceptions: seq<Misconception>, reread: seq<string>): Verdict {
    var d := Dimension(1, "x");
    Verdict(Rubric(d, d, d), misconceptions, reread, 1, "x")
  }

  /** A label on the list can be cited by an accepted plan exactly when it is tidy and no
      longer than the field that cites it may be. */
  lemma PlanCitesExactly(allowed: seq<string>, name: string)
    requires name in allowed
    ensures (exists raw :: PlanCites(raw, allowed, name)) <==> CanCite(name)
  {
    if raw :| PlanCites(raw, allowed, name) {
      SectionsShort(raw);
    }
    if CanCite(name) {
      CitingPlanAccepted(allowed, name);
    }
  }

  lemma CitingPlanAccepted(allowed: seq<string>, name: string)
    requires name in allowed && CanCite(name)
    ensures PlanCites(CitingPlan(name), allowed, name)
  {
    var raw := CitingPlan(name);
    SentField(name);
    PairValid(raw[0], raw[1]);
    var plan := [ValidProbe(raw[0]).value, ValidProbe(raw[1]).value];
    assert ValidProbes(raw) == Some(plan);
    assert plan[0].section == name && plan[0].focus == Methodology && plan[0].targetsGap;
    assert plan[1].section == name && plan[1].focus == ResultsAndLimitations;
    assert ValidPlan(raw, allowed) == Some(plan);
  }

  lemma PairValid(a: Probe, b: Probe)
    requires ValidProbe(a).Some? && ValidProbe(b).Some?
    ensures ValidProbes([a, b]) == Some([ValidProbe(a).value, ValidProbe(b).value])
  {
    var none: seq<Probe> := [];
    assert [a, b][1..] == [b] && [b][1..] == none;
    assert [ValidProbe(b).value] + none == [ValidProbe(b).value];
    assert ValidProbes(none) == Some([]) && ValidProbes([b]) == Some([ValidProbe(b).value]);
    assert [ValidProbe(a).value] + [ValidProbe(b).value] == [ValidProbe(a).value, ValidProbe(b).value];
  }

  lemma {:induction false} SectionsShort(raw: seq<Probe>)
    requires ValidProbes(raw).Some?
    ensures forall i :: 0 <= i < |ValidProbes(raw).value| ==>
              IsTidy(ValidProbes(raw).value[i].section) && |ValidProbes(raw).value[i].section| <= 300
    decreases |raw|
  {
    if raw != [] {
      SectionsShort(raw[1..]);
      TidyFacts(raw[0].section);
    }
  }

  /** The same for a misconception of an accepted verdict. */
  lemma MisconceptionCitesExactly(allowed: seq<string>, name: string)
    requires name in allowed
    ensures (exists raw :: MisconceptionCites(raw, allowed, name)) <==> CanCite(name)
  {
    if raw :| MisconceptionCites(raw, allowed, name) {
      MisconceptionsShort(raw.misconceptions);
    }
    if CanCite(name) {
      RemarkAccepted(allowed, name);
    }
  }

  lemma RemarkValid(name: string)
    requires CanCite(name)
    ensures ValidMisconception(Remark(name)).Some? && ValidMisconception(Remark(name)).value.section == name
    ensures ValidMisconceptions([Remark(name)]) == Some([ValidMisconception(Remark(name)).value])
  {
    SentField(name);
    var m := ValidMisconception(Remark(name)).value;
    var none: seq<Misconception> := [];
    assert [Remark(name)][1..] == none && ValidMisconceptions(none) == Some([]) && [m] + none == [m];
  }

  lemma RemarkAccepted(allowed: seq<string>, name: string)
    requires name in allowed && CanCite(name)
    ensures MisconceptionCites(PlainVerdict([Remark(name)], []), allowed, name)
  {
    RemarkValid(name);
    assert TidyReread([]) == [];
    var v := ValidVerdict(PlainVerdict([Remark(name)], []), allowed);
    assert v.Some? && v.value.misconceptions == [ValidMisconception(Remark(name)).value];
    assert v.value.misconceptions[0].section == name;
  }

  lemma {:induction false} MisconceptionsShort(raw: seq<Misconception>)
    requires ValidMisconceptions(raw).Some?
    ensures forall i :: 0 <= i < |ValidMisconceptions(raw).value| ==>
              IsTidy(ValidMisconceptions(raw).value[i].section) && |ValidMisconceptions(raw).value[i].section| <= 300
    decreases |raw|
  {
    if raw != [] {
      MisconceptionsShort(raw[1..]);
      TidyFacts(raw[0].section);
    }
  }

  /** The sections to read again have no limit on their length, and blank ones are dropped. */
  lemma RereadCitesExactly(allowed: seq<string>, name: string)
    requires name in allowed
    ensures (exists raw :: RereadCites(raw, allowed, name)) <==> IsTidy(name) && name != ""
  {
    if raw :| RereadCites(raw, allowed, name) {
      TidyRereadShape(raw.reread);
    }
    if IsTidy(name) && name != "" {
      RereadAccepted(allowed, name);
    }
  }

  lemma RereadAccepted(allowed: seq<string>, name: string)
    requires name in allowed && IsTidy(name) && name != ""
    ensures RereadCites(PlainVerdict([], [name]), allowed, name)
  {
    OneReread(name);
    assert ValidMisconceptions([]) == Some([]);
  }

  lemma OneReread(name: string)
    requires IsTidy(name) && name != ""
    ensures TidyReread([name]) == [name]
  {
    TidyFixed(name);
    assert [name][..0] == [];
  }

  /** Some plan is accepted exactly when the grounding test is off, the list being empty,
      or some label on the list can be cited. */
  lemma SomePlanAcceptedExactly(allowed: seq<string>)
    ensures (exists raw :: ValidPlan(raw, allowed).Some?) <==>
            allowed == [] || exists name :: name in allowed && CanCite(name)
  {
    if raw :| ValidPlan(raw, allowed).Some? {
      SectionsShort(raw);
      ProbesAgain(raw);
      var first := ValidPlan(raw, allowed).value[0].section;
      assert CanCite(first);
      assert allowed != [] ==> first in allowed;
    }
    if name :| name in allowed && CanCite(name) {
      CitingPlanAccepted(allowed, name);
    } else if allowed == [] {
      UngroundedPlanAccepted();
    }
  }

  lemma UngroundedPlanAccepted()
    ensures ValidPlan(CitingPlan(""), []).Some?
  {
    CitingPlanAccepted([""], "");
  }

  /** A tree whose one heading has two blanks in a row: no plan is ever accepted. */
  lemma DoubledBlankHeading(raw: seq<Probe>)
    ensures ValidPlan(raw, ["A  B"]).None?
  {
    var heading := "A  B";
    assert IsSpace(heading[1]) && IsSpace(heading[2]);
    SomePlanAcceptedExactly([heading]);
  }

  // ---- replies with a blank text -------------------------------------------

  /** A plan whose first gap is one blank, and what is stored for it. */
  function BlankPlan(): seq<Probe> {
    [Probe("q", "A", Methodology, true, " "), Probe("q", "A", ResultsAndLimitations, false, "g")]
  }

  function BlankPlanStored(): seq<Probe> {
    [Probe("q", "A", Methodology, true, ""), Probe("q", "A", ResultsAndLimitations, false, "g")]
  }

  /** A verdict with one blank for a justification, and what is stored for it. */
  function BlankVerdict(): Verdict {
    Verdict(Rubric(Dimension(1, " "), Dimension(1, "x"), Dimension(1, "x")), [], [], 1, "x")
  }

  function BlankVerdictStored(): Verdict {
    Verdict(Rubric(Dimension(1, ""), Dimension(1, "x"), Dimension(1, "x")), [], [], 1, "x")
  }

  lemma OneLetter(c: char)
    requires !IsSpace(c)
    ensures Tidy([c]) == [c]
  {
    TidyFixed([c]);
  }

  lemma OneBlank()
    ensures Tidy(" ") == ""
  {
    TidyFacts(" ");
  }

  lemma BlankPlanAccepted()
    ensures ValidPlan(BlankPlan(), ["A"]) == Some(BlankPlanStored())
    ensures BlankPlanStored()[0].gap == "" && ValidProbes(BlankPlanStored()).None?
  {
    OneBlank();
    OneLetter('A');
    OneLetter('q');
    OneLetter('g');
    PairValid(BlankPlan()[0], BlankPlan()[1]);
    assert ValidProbes(BlankPlan()) == Some(BlankPlanStored());
    BlankPlanCovers();
  }

  lemma BlankPlanCovers()
    ensures PlanRule(BlankPlanStored(), ["A"])
  {
    var p := BlankPlanStored();
    assert p[0].focus == Methodology && p[0].targetsGap && p[0].section == "A";
    assert p[1].focus == ResultsAndLimitations && p[1].section == "A";
  }

  lemma BlankVerdictAccepted()
    ensures ValidVerdict(BlankVerdict(), ["A"]) == Some(BlankVerdictStored())
    ensures ValidVerdict(BlankVerdictStored(), []).None?
  {
    OneBlank();
    OneLetter('x');
  }
}
