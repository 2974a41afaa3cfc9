/** Fitting the grounding material into the prompt budget: whole papers are evicted
    from the weakest up, and only a last remaining paper is trimmed. */
module Grounding {
  import opened Wrappers
  import opened Text
  import Fusion

  datatype Section = Section(name: string, text: string, startPage: int, endPage: int)

  datatype Material = Material(paper: int, title: string, score: real, sections: seq<Section>)

  const FRAME: nat := 48

  function Overhead(title: string, s: Section): nat {
    |title| + |s.name| + FRAME
  }

  function SectionChars(title: string, sections: seq<Section>): nat {
    if sections == [] then 0 else Overhead(title, sections[0]) + |sections[0].text| + SectionChars(title, sections[1..])
  }

  function ContextChars(m: Material): nat {
    SectionChars(m.title, m.sections)
  }

  function Total(ms: seq<Material>): nat {
    if ms == [] then 0 else Total(ms[..|ms| - 1]) + ContextChars(ms[|ms| - 1])
  }

  function Max0(b: int): nat {
    if b < 0 then 0 else b
  }

  /** The lowest score, and the latest of equals. */
  function Weakest(ms: seq<Material>): (w: nat)
    requires ms != []
    ensures w < |ms| && (forall i :: 0 <= i < |ms| ==> ms[w].score <= ms[i].score)
    ensures forall i :: w < i < |ms| ==> ms[w].score < ms[i].score
  {
    var n := |ms| - 1;
    if n == 0 then 0
    else
      var w := Weakest(ms[..n]);
      if ms[n].score <= ms[w].score then n else w
  }

  function Without(ms: seq<Material>, w: nat): seq<Material>
    requires w < |ms|
  {
    ms[..w] + ms[w + 1..]
  }

  function Evict(ms: seq<Material>, budget: int): (kept: seq<Material>)
    decreases |ms|
  {
    if |ms| > 1 && Total(ms) > budget then Evict(Without(ms, Weakest(ms)), budget) else ms
  }

  lemma {:induction false} RStripTail(s: string)
    ensures forall i :: |RStrip(s)| <= i < |s| ==> IsSpace(s[i])
    decreases |s|
  {
    if s != "" && IsSpace(s[|s| - 1]) {
      RStripTail(s[..|s| - 1]);
    }
  }

  /** What of a text fits in the space available, less trailing whitespace and no more. */
  function Fitted(text: string, available: nat): (r: string)
    ensures r <= text && |r| <= available
    ensures r != "" ==> !IsSpace(r[|r| - 1])
    ensures forall i :: |r| <= i < |text| && i < available ==> IsSpace(text[i])
  {
    var cut := if |text| <= available then text else text[..available];
    RStripFacts(cut);
    RStripTail(cut);
    RStrip(cut)
  }

  function Trim(title: string, sections: seq<Section>, remaining: int): (kept: seq<Section>)
    decreases |sections|
  {
    if sections == [] || remaining <= Overhead(title, sections[0]) then []
    else
      var s, available := sections[0], remaining - Overhead(title, sections[0]);
      var text := Fitted(s.text, available);
      if text == "" then Trim(title, sections[1..], remaining)
      else [s.(text := text)] + Trim(title, sections[1..], available - |text|)
  }

  function Budgeted(ms: seq<Material>, budget: int): seq<Material> {
    var kept := Evict(ms, budget);
    if kept == [] || Total(kept) <= budget then kept
    else
      var sections := Trim(kept[0].title, kept[0].sections, Max0(budget));
      if sections == [] then [] else [kept[0].(sections := sections)]
  }

  // ---- the loops -----------------------------------------------------------

  method FindWeakest(kept: seq<Material>) returns (w: nat)
    requires kept != []
    ensures w == Weakest(kept)
  {
    w := 0;
    for i := 1 to |kept|
      invariant w == Weakest(kept[..i])
    {
      assert kept[..i + 1][..i] == kept[..i];
      if kept[i].score <= kept[w].score {
        w := i;
      }
    }
    assert kept[..|kept|] == kept;
  }

  method TrimSections(title: string, all: seq<Section>, budget: nat) returns (sections: seq<Section>)
    ensures sections == Trim(title, all, budget)
  {
    ghost var goal := Trim(title, all, budget);
    ghost var tail := goal;
    sections := [];
    var remaining: int := budget;
    var i := 0;
    assert all[0..] == all;
    while i < |all|
      invariant 0 <= i <= |all|
      invariant goal == sections + tail && tail == Trim(title, all[i..], remaining)
    {
      var section := all[i];
      assert all[i..][0] == section && all[i..][1..] == all[i + 1..];
      var available := remaining - Overhead(title, section);
      if available <= 0 {
        assert tail == [];
        return;
      }
      var text := Fitted(section.text, available);
      ghost var left := if text == "" then remaining else available - |text|;
      ghost var next := Trim(title, all[i + 1..], left);
      TrimNext(title, all[i..], remaining, available, text, tail, next);
      if text != "" {
        var trimmed := section.(text := text);
        Assoc(sections, [trimmed], next);
        sections := sections + [trimmed];
        remaining := available - |text|;
      }
      tail := next;
      i := i + 1;
    }
    assert tail == [];
  }

  lemma TrimNext(title: string, rest: seq<Section>, remaining: int, available: int, text: string, tail: seq<Section>,
                 next: seq<Section>)
    requires rest != [] && available == remaining - Overhead(title, rest[0]) && available > 0
    requires text == Fitted(rest[0].text, available)
    requires tail == Trim(title, rest, remaining)
    requires next == Trim(title, rest[1..], if text == "" then remaining else available - |text|)
    ensures tail == if text == "" then next else [rest[0].(text := text)] + next
  {
  }

  method BudgetGroundingMaterial(materials: seq<Material>, budget: int) returns (kept: seq<Material>)
    ensures kept == Budgeted(materials, budget)
  {
    kept := materials;
    while |kept| > 1 && Total(kept) > budget
      invariant Evict(kept, budget) == Evict(materials, budget)
      decreases |kept|
    {
      var weakest := FindWeakest(kept);
      kept := kept[..weakest] + kept[weakest + 1..];
    }
    if kept == [] || Total(kept) <= budget {
      return;
    }
    var material := kept[0];
    var sections := TrimSections(material.title, material.sections, Max0(budget));
    kept := if sections == [] then [] else [material.(sections := sections)];
  }

  // ---- the budget holds ----------------------------------------------------

  lemma {:induction false} EvictSize(ms: seq<Material>, budget: int)
    ensures ms != [] ==> Evict(ms, budget) != []
    ensures |Evict(ms, budget)| > 1 ==> Total(Evict(ms, budget)) <= budget
    decreases |ms|
  {
    if |ms| > 1 && Total(ms) > budget {
      EvictSize(Without(ms, Weakest(ms)), budget);
    }
  }

  lemma {:induction false} TrimFits(title: string, sections: seq<Section>, remaining: int)
    ensures SectionChars(title, Trim(title, sections, remaining)) <= Max0(remaining)
    decreases |sections|
  {
    if sections != [] && remaining > Overhead(title, sections[0]) {
      var s, available := sections[0], remaining - Overhead(title, sections[0]);
      TrimFits(title, sections[1..], remaining);
      TrimFits(title, sections[1..], available - |Fitted(s.text, available)|);
    }
  }

  /** The prompt can never grow beyond its budget, whatever the material. */
  lemma BudgetHolds(ms: seq<Material>, budget: int)
    ensures Total(Budgeted(ms, budget)) <= Max0(budget)
  {
    EvictSize(ms, budget);
    var kept := Evict(ms, budget);
    if kept != [] && Total(kept) > budget {
      TrimFits(kept[0].title, kept[0].sections, Max0(budget));
      assert Total([]) == 0;
      assert forall m: Material :: [m][..0] == [];
    }
  }

  // ---- what is kept --------------------------------------------------------

  /** at is a strictly increasing choice of positions below n. */
  ghost predicate Picks(at: seq<nat>, n: nat) {
    (forall i :: 0 <= i < |at| ==> at[i] < n) && (forall i, j :: 0 <= i < j < |at| ==> at[i] < at[j])
  }

  /** kept holds, in their old order, the papers at the chosen positions, and nothing
      left out scores higher than anything kept. */
  ghost predicate KeptAt(at: seq<nat>, ms: seq<Material>, kept: seq<Material>) {
    && Picks(at, |ms|) && |kept| == |at|
    && (forall i :: 0 <= i < |at| ==> kept[i] == ms[at[i]])
    && (forall j, i :: 0 <= j < |ms| && j !in at && 0 <= i < |kept| ==> ms[j].score <= kept[i].score)
  }

  lemma {:induction false} WeakestGoFirst(ms: seq<Material>, budget: int)
    ensures exists at :: KeptAt(at, ms, Evict(ms, budget))
    decreases |ms|
  {
    if |ms| > 1 && Total(ms) > budget {
      var w := Weakest(ms);
      WeakestGoFirst(Without(ms, w), budget);
      var at :| KeptAt(at, Without(ms, w), Evict(ms, budget));
      PicksAround(ms, w, at, Evict(ms, budget));
    } else {
      var at := seq(|ms|, i requires 0 <= i < |ms| => i as nat);
      forall j | 0 <= j < |ms|
        ensures j in at
      {
        assert at[j] == j;
      }
      assert Evict(ms, budget) == ms && KeptAt(at, ms, ms);
    }
  }

  /** Putting the weakest back among the positions. */
  lemma PicksAround(ms: seq<Material>, w: nat, at: seq<nat>, kept: seq<Material>)
    requires ms != [] && w == Weakest(ms) && KeptAt(at, Without(ms, w), kept)
    ensures exists at' :: KeptAt(at', ms, kept)
  {
    var at' := seq(|at|, i requires 0 <= i < |at| => Around(at[i], w));
    forall i | 0 <= i < |at|
      ensures kept[i] == ms[at'[i]]
    {
      assert kept[i] == Without(ms, w)[at[i]];
    }
    forall j, i | 0 <= j < |ms| && j !in at' && 0 <= i < |kept|
      ensures ms[j].score <= kept[i].score
    {
      assert kept[i] == ms[at'[i]];
      if j != w {
        LeftOut(ms, w, at, at', kept, j, i);
      }
    }
    assert KeptAt(at', ms, kept);
  }

  /** The old position of what now stands at k. */
  function Around(k: nat, w: nat): nat {
    if k < w then k else k + 1
  }

  lemma LeftOut(ms: seq<Material>, w: nat, at: seq<nat>, at': seq<nat>, kept: seq<Material>, j: nat, i: nat)
    requires w < |ms| && KeptAt(at, Without(ms, w), kept)
    requires |at'| == |at| && forall m :: 0 <= m < |at| ==> at'[m] == Around(at[m], w)
    requires j < |ms| && j != w && j !in at' && i < |kept|
    ensures ms[j].score <= kept[i].score
  {
    var k := if j < w then j else j - 1;
    assert Without(ms, w)[k] == ms[j];
    forall m | 0 <= m < |at|
      ensures at[m] != k
    {
      assert at'[m] in at';
    }
  }

  // ---- in ranked order -----------------------------------------------------

  ghost predicate BestFirst(ms: seq<Material>) {
    forall i, j :: 0 <= i < j < |ms| ==> ms[i].score >= ms[j].score
  }

  /** n papers are kept: no longer prefix fits, and this one does unless it is one paper. */
  ghost predicate LongestFit(ms: seq<Material>, budget: int, n: nat) {
    && 1 <= n <= |ms| && (n == 1 || Total(ms[..n]) <= budget)
    && forall m :: n < m <= |ms| ==> Total(ms[..m]) > budget
  }

  lemma {:induction false} EvictsFromTheEnd(ms: seq<Material>, budget: int) returns (n: nat)
    requires BestFirst(ms) && ms != []
    ensures LongestFit(ms, budget, n) && Evict(ms, budget) == ms[..n]
    decreases |ms|
  {
    assert ms[..|ms|] == ms;
    n := |ms|;
    if |ms| > 1 && Total(ms) > budget {
      var last := |ms| - 1;
      assert Weakest(ms) == last;
      assert Without(ms, last) == ms[..last];
      n := EvictsFromTheEnd(ms[..last], budget);
      assert ms[..last][..n] == ms[..n];
      forall m | n < m <= |ms|
        ensures Total(ms[..m]) > budget
      {
        if m < |ms| {
          assert ms[..last][..m] == ms[..m];
        }
      }
    }
  }

  /** For papers in ranked order the result is the longest prefix that fits, or, when not
      even the first paper does, that paper trimmed. */
  lemma RankedOrderPrefix(ms: seq<Material>, budget: int)
    requires BestFirst(ms) && ms != []
    ensures ContextChars(ms[0]) <= budget ==>
              exists n: nat :: LongestFit(ms, budget, n) && Total(ms[..n]) <= budget && Budgeted(ms, budget) == ms[..n]
    ensures ContextChars(ms[0]) > budget ==>
              var sections := Trim(ms[0].title, ms[0].sections, Max0(budget));
              Budgeted(ms, budget) == if sections == [] then [] else [ms[0].(sections := sections)]
  {
    var n := EvictsFromTheEnd(ms, budget);
    assert ms[..1][..0] == [] && Total(ms[..1]) == ContextChars(ms[0]);
    if n > 1 {
      PrefixTotal(ms, 1, n);
    }
  }

  /** Material gathered for the leading fused candidates, carrying their scores, is in
      ranked order, so for it budgeting means the longest fitting prefix. */
  lemma FusedMaterialBestFirst(ms: seq<Material>, vectorIds: seq<int>, ftsIds: seq<int>)
    requires |ms| <= |Fusion.Fused(vectorIds, ftsIds)|
    requires forall i :: 0 <= i < |ms| ==>
               var p := Fusion.Fused(vectorIds, ftsIds)[i];
               ms[i].paper == p && ms[i].score == Fusion.FusedScore(vectorIds, ftsIds, p)
    ensures BestFirst(ms)
    ensures forall i, j :: 0 <= i < j < |ms| ==> ms[i].paper != ms[j].paper
  {
    Fusion.FusedUnion(vectorIds, ftsIds);
  }

  lemma {:induction false} PrefixTotal(ms: seq<Material>, m: nat, n: nat)
    requires m <= n <= |ms|
    ensures Total(ms[..m]) <= Total(ms[..n])
    decreases n
  {
    if m < n {
      assert ms[..n][..n - 1] == ms[..n - 1];
      PrefixTotal(ms, m, n - 1);
    }
  }

  // ---- trimming ------------------------------------------------------------

  /** The trimmed sections are some of the sections in order, each with a prefix of its
      text that is not empty and does not end in whitespace. */
  ghost predicate TrimmedAt(at: seq<nat>, sections: seq<Section>, kept: seq<Section>) {
    && Picks(at, |sections|) && |kept| == |at|
    && forall i :: 0 <= i < |at| ==>
         && kept[i] == sections[at[i]].(text := kept[i].text) && kept[i].text <= sections[at[i]].text
         && kept[i].text != "" && !IsSpace(kept[i].text[|kept[i].text| - 1])
  }

  lemma TrimKeepsPrefixes(title: string, sections: seq<Section>, remaining: int)
    ensures exists at :: TrimmedAt(at, sections, Trim(title, sections, remaining))
  {
    var at := TrimPicks(title, sections, remaining);
  }

  lemma {:induction false} TrimPicks(title: string, sections: seq<Section>, remaining: int) returns (at: seq<nat>)
    ensures TrimmedAt(at, sections, Trim(title, sections, remaining))
    decreases |sections|
  {
    at := [];
    if sections != [] && remaining > Overhead(title, sections[0]) {
      var s, available := sections[0], remaining - Overhead(title, sections[0]);
      var text := Fitted(s.text, available);
      var left := if text == "" then remaining else available - |text|;
      var rest := Trim(title, sections[1..], left);
      var whole := Trim(title, sections, remaining);
      TrimNext(title, sections, remaining, available, text, whole, rest);
      at := TrimPicks(title, sections[1..], left);
      at := WithFront(at, sections, rest, text, whole);
    }
  }

  /** The positions once the first section is put back, if anything of it is left. */
  lemma WithFront(next: seq<nat>, sections: seq<Section>, rest: seq<Section>, text: string, whole: seq<Section>)
    returns (at: seq<nat>)
    requires sections != [] && TrimmedAt(next, sections[1..], rest)
    requires text <= sections[0].text && (text != "" ==> !IsSpace(text[|text| - 1]))
    requires whole == if text == "" then rest else [sections[0].(text := text)] + rest
    ensures TrimmedAt(at, sections, whole)
  {
    at := LaterPicks(next, sections, rest);
    if text != "" {
      FrontPick(at, sections, rest, sections[0].(text := text));
      at := [0] + at;
    }
  }

  lemma LaterPicks(at: seq<nat>, sections: seq<Section>, kept: seq<Section>) returns (later: seq<nat>)
    requires sections != [] && TrimmedAt(at, sections[1..], kept)
    ensures TrimmedAt(later, sections, kept) && 0 !in later
  {
    later := seq(|at|, i requires 0 <= i < |at| => at[i] + 1);
    forall i | 0 <= i < |at|
      ensures sections[later[i]] == sections[1..][at[i]]
    {
    }
  }

  lemma FrontPick(later: seq<nat>, sections: seq<Section>, kept: seq<Section>, first: Section)
    requires sections != [] && TrimmedAt(later, sections, kept) && 0 !in later
    requires first == sections[0].(text := first.text) && first.text <= sections[0].text
    requires first.text != "" && !IsSpace(first.text[|first.text| - 1])
    ensures TrimmedAt([0] + later, sections, [first] + kept)
  {
  }

  /** Nothing is lost from sections that fit and carry no trailing whitespace. */
  lemma {:induction false} TrimKeepsWhatFits(title: string, sections: seq<Section>, remaining: int)
    requires SectionChars(title, sections) <= remaining
    requires forall i :: 0 <= i < |sections| ==> sections[i].text != "" && RStrip(sections[i].text) == sections[i].text
    ensures Trim(title, sections, remaining) == sections
    decreases |sections|
  {
    if sections != [] {
      TrimKeepsWhatFits(title, sections[1..], remaining - Overhead(title, sections[0]) - |sections[0].text|);
    }
  }
}
