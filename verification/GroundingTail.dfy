/** When trimming the last remaining paper shortens only its tail, as the comment in the
    service says, and when it cuts a section in the middle and keeps a later one. */
module GroundingTail {
  import opened Text
  import opened Grounding

  /** The kept sections are the first ones, unchanged but for the last, which may be shortened. */
  ghost predicate OnlyTail(sections: seq<Section>, kept: seq<Section>) {
    && |kept| <= |sections|
    && forall i :: 0 <= i < |kept| ==>
         && kept[i] == sections[i].(text := kept[i].text) && kept[i].text <= sections[i].text
         && (i < |kept| - 1 ==> kept[i] == sections[i])
  }

  /** The section goes into the room as it stands. */
  predicate Whole(title: string, s: Section, room: int) {
    s.text != "" && !IsSpace(s.text[|s.text| - 1]) && Overhead(title, s) + |s.text| <= room
  }

  /** What of a section fits in the room. */
  function Part(title: string, s: Section, room: int): string {
    if room <= Overhead(title, s) then "" else Fitted(s.text, room - Overhead(title, s))
  }

  /** The room left once a section has taken its part; one that gives nothing takes nothing. */
  function RoomLeft(title: string, s: Section, room: int): int {
    if Part(title, s, room) == "" then room else room - Overhead(title, s) - |Part(title, s, room)|
  }

  /** The room is used up: the sections give blanks only, until one whose heading alone no
      longer fits. */
  ghost predicate UsedUp(title: string, rest: seq<Section>, room: int) {
    exists m: nat :: EndsAt(title, rest, room, m)
  }

  ghost predicate EndsAt(title: string, rest: seq<Section>, room: int, m: nat) {
    && m <= |rest| && (m < |rest| ==> room <= Overhead(title, rest[m]))
    && forall i :: 0 <= i < m ==> Part(title, rest[i], room) == ""
  }

  lemma {:induction false} UsedUpExactly(title: string, rest: seq<Section>, room: int)
    ensures Trim(title, rest, room) == [] <==> UsedUp(title, rest, room)
    decreases |rest|
  {
    if rest == [] || room <= Overhead(title, rest[0]) {
      assert EndsAt(title, rest, room, 0);
    } else {
      UsedUpExactly(title, rest[1..], room);
      if m: nat :| EndsAt(title, rest[1..], room, m) && Part(title, rest[0], room) == "" {
        assert EndsAt(title, rest, room, m + 1);
      }
      if m: nat :| EndsAt(title, rest, room, m) {
        assert EndsAt(title, rest[1..], room, m - 1);
      }
    }
  }

  /** The condition: every section goes in as it stands, or the first that does not takes
      a part after which the room is used up. */
  ghost predicate CutsAtEnd(title: string, sections: seq<Section>, room: int)
    decreases |sections|
  {
    if sections == [] || room <= Overhead(title, sections[0]) then true
    else if Whole(title, sections[0], room) then
      CutsAtEnd(title, sections[1..], room - Overhead(title, sections[0]) - |sections[0].text|)
    else UsedUp(title, sections[1..], RoomLeft(title, sections[0], room))
  }

  lemma WholeFitted(title: string, s: Section, room: int)
    requires room > Overhead(title, s)
    ensures Whole(title, s, room) <==> Part(title, s, room) == s.text && s.text != ""
  {
  }

  lemma TrimWhole(title: string, sections: seq<Section>, room: int)
    requires sections != [] && Whole(title, sections[0], room)
    ensures Trim(title, sections, room) ==
            [sections[0]] + Trim(title, sections[1..], room - Overhead(title, sections[0]) - |sections[0].text|)
  {
    WholeFitted(title, sections[0], room);
  }

  lemma OnlyTailLater(first: Section, rest: seq<Section>, kept: seq<Section>, all: seq<Section>)
    requires all != [] && first == all[0] && rest == all[1..]
    ensures OnlyTail(all, [first] + kept) <==> OnlyTail(rest, kept)
  {
    var taken := [first] + kept;
    if OnlyTail(all, taken) {
      forall i | 0 <= i < |kept|
        ensures kept[i] == rest[i].(text := kept[i].text) && kept[i].text <= rest[i].text
        ensures i < |kept| - 1 ==> kept[i] == rest[i]
      {
        assert taken[i + 1] == kept[i] && all[i + 1] == rest[i];
      }
    }
  }

  /** A section that gives nothing cannot be the source of what is kept after it. */
  lemma {:induction false} NotFromSkipped(title: string, s: Section, rest: seq<Section>, room: int)
    requires room > Overhead(title, s) && Part(title, s, room) == "" && Trim(title, rest, room) != []
    ensures var first := Trim(title, rest, room)[0];
            !(first == s.(text := first.text) && first.text <= s.text)
    decreases |rest|
  {
    var first := Trim(title, rest, room)[0];
    if Part(title, rest[0], room) == "" {
      NotFromSkipped(title, s, rest[1..], room);
    } else if first == s.(text := first.text) && first.text <= s.text {
      InkFits(s.text, room - Overhead(title, s), first.text);
    }
  }

  lemma InkFits(text: string, available: nat, part: string)
    requires part <= text && 0 < |part| <= available && !IsSpace(part[|part| - 1])
    ensures Fitted(text, available) != ""
  {
    var cut := if |text| <= available then text else text[..available];
    RStripFacts(cut);
    assert cut[|part| - 1] == part[|part| - 1];
    RStripKeeps(cut, |part| - 1);
  }

  lemma {:induction false} RStripKeeps(s: string, i: nat)
    requires i < |s| && !IsSpace(s[i])
    ensures RStrip(s) != ""
  {
    if IsSpace(s[|s| - 1]) {
      RStripKeeps(s[..|s| - 1], i);
    }
  }

  lemma TrimCut(title: string, sections: seq<Section>, room: int, part: string, later: seq<Section>)
    requires sections != [] && room > Overhead(title, sections[0]) && part == Part(title, sections[0], room)
    requires later == Trim(title, sections[1..], RoomLeft(title, sections[0], room))
    ensures Trim(title, sections, room) == if part == "" then later else [sections[0].(text := part)] + later
  {
    TrimNext(title, sections, room, room - Overhead(title, sections[0]), part, Trim(title, sections, room), later);
  }

  lemma OnlyTailCut(sections: seq<Section>, cut: string, kept: seq<Section>)
    requires sections != [] && cut <= sections[0].text && cut != sections[0].text
    ensures OnlyTail(sections, [sections[0].(text := cut)] + kept) <==> kept == []
  {
    var taken := [sections[0].(text := cut)] + kept;
    if kept != [] {
      assert taken[0] != sections[0];
    }
  }

  lemma CutFirst(title: string, sections: seq<Section>, room: int)
    requires sections != [] && room > Overhead(title, sections[0]) && !Whole(title, sections[0], room)
    ensures OnlyTail(sections, Trim(title, sections, room)) <==> CutsAtEnd(title, sections, room)
  {
    var s, part, left := sections[0], Part(title, sections[0], room), RoomLeft(title, sections[0], room);
    var later := Trim(title, sections[1..], left);
    WholeFitted(title, s, room);
    UsedUpExactly(title, sections[1..], left);
    TrimCut(title, sections, room, part, later);
    if part != "" {
      OnlyTailCut(sections, part, later);
    } else if later != [] {
      NotFromSkipped(title, s, sections[1..], room);
      assert Trim(title, sections, room)[0] == later[0];
    } else {
      assert Trim(title, sections, room) == [];
    }
  }

  /** For every paper and budget, only the tail is trimmed exactly when the condition holds. */
  lemma {:induction false} OnlyTailExactly(title: string, sections: seq<Section>, room: int)
    ensures OnlyTail(sections, Trim(title, sections, room)) <==> CutsAtEnd(title, sections, room)
    decreases |sections|
  {
    if sections != [] && room > Overhead(title, sections[0]) {
      if Whole(title, sections[0], room) {
        var left := room - Overhead(title, sections[0]) - |sections[0].text|;
        TrimWhole(title, sections, room);
        OnlyTailExactly(title, sections[1..], left);
        OnlyTailLater(sections[0], sections[1..], Trim(title, sections[1..], left), sections);
      } else {
        CutFirst(title, sections, room);
      }
    }
  }

  // ---- sections as they are gathered ---------------------------------------

  /** Texts are stripped and empty ones left out before they get here. */
  predicate Stripped(s: Section) {
    s.text != "" && !IsSpace(s.text[0]) && !IsSpace(s.text[|s.text| - 1])
  }

  predicate MiddleCut(title: string, s: Section, next: Section, room: int) {
    Overhead(title, s) < room < Overhead(title, s) + |s.text| && Overhead(title, next) < RoomLeft(title, s, room)
  }

  /** The sections before n fit, n is cut, and the blanks dropped at the cut make room for
      the heading of the section after it. */
  predicate MiddleCutAt(title: string, sections: seq<Section>, room: int, n: nat) {
    && n + 1 < |sections|
    && MiddleCut(title, sections[n], sections[n + 1], room - SectionChars(title, sections[..n]))
  }

  lemma CharsNext(title: string, sections: seq<Section>, n: nat)
    requires n < |sections|
    ensures SectionChars(title, sections[..n + 1]) ==
            Overhead(title, sections[0]) + |sections[0].text| + SectionChars(title, sections[1..][..n])
  {
    assert sections[..n + 1][1..] == sections[1..][..n];
  }

  lemma MiddleCutLater(title: string, sections: seq<Section>, room: int, n: nat, rest: seq<Section>, left: int)
    requires sections != [] && rest == sections[1..] && left == room - Overhead(title, sections[0]) - |sections[0].text|
    ensures MiddleCutAt(title, sections, room, n + 1) <==> MiddleCutAt(title, rest, left, n)
  {
    if n + 2 < |sections| {
      CharsNext(title, sections, n);
    }
  }

  lemma WholeNotCut(title: string, sections: seq<Section>, room: int)
    requires sections != [] && Whole(title, sections[0], room)
    ensures !MiddleCutAt(title, sections, room, 0)
  {
    if |sections| > 1 {
      FirstMiddleCut(title, sections, room);
    }
  }

  lemma StrippedPart(title: string, s: Section, room: int)
    requires Stripped(s) && room > Overhead(title, s)
    ensures Part(title, s, room) != ""
  {
    InkFits(s.text, room - Overhead(title, s), s.text[..1]);
  }

  /** No later section is cut where the first one already takes all the room. */
  lemma NoLaterCut(title: string, sections: seq<Section>, room: int, n: nat)
    requires sections != [] && room <= Overhead(title, sections[0]) + |sections[0].text|
    ensures !MiddleCutAt(title, sections, room, n + 1)
  {
    if n + 2 < |sections| {
      CharsNext(title, sections, n);
    }
  }

  lemma FirstMiddleCut(title: string, sections: seq<Section>, room: int)
    requires |sections| > 1
    ensures MiddleCutAt(title, sections, room, 0) <==> MiddleCut(title, sections[0], sections[1], room)
  {
    assert SectionChars(title, sections[..0]) == 0;
  }

  lemma StrippedUsedUp(title: string, rest: seq<Section>, room: int)
    requires rest != [] ==> Stripped(rest[0])
    ensures UsedUp(title, rest, room) <==> rest == [] || room <= Overhead(title, rest[0])
  {
    if rest != [] && room > Overhead(title, rest[0]) {
      StrippedPart(title, rest[0], room);
    } else {
      assert EndsAt(title, rest, room, 0);
    }
  }

  ghost predicate CutInTheMiddle(title: string, sections: seq<Section>, room: int) {
    exists n: nat :: MiddleCutAt(title, sections, room, n)
  }

  lemma CutAfterWhole(title: string, sections: seq<Section>, room: int, rest: seq<Section>, left: int)
    requires sections != [] && Whole(title, sections[0], room)
    requires rest == sections[1..] && left == room - Overhead(title, sections[0]) - |sections[0].text|
    ensures CutInTheMiddle(title, sections, room) <==> CutInTheMiddle(title, rest, left)
  {
    WholeNotCut(title, sections, room);
    if n: nat :| MiddleCutAt(title, sections, room, n) {
      MiddleCutLater(title, sections, room, n - 1, rest, left);
    }
    if n: nat :| MiddleCutAt(title, rest, left, n) {
      MiddleCutLater(title, sections, room, n, rest, left);
    }
  }

  lemma CutAtFirst(title: string, sections: seq<Section>, room: int)
    requires sections != [] && !Whole(title, sections[0], room)
    requires forall i :: 0 <= i < |sections| ==> Stripped(sections[i])
    ensures CutInTheMiddle(title, sections, room) <==> !CutsAtEnd(title, sections, room)
  {
    StrippedUsedUp(title, sections[1..], RoomLeft(title, sections[0], room));
    if |sections| > 1 {
      FirstMiddleCut(title, sections, room);
    }
    if n: nat :| MiddleCutAt(title, sections, room, n) && n > 0 {
      NoLaterCut(title, sections, room, n - 1);
    }
  }

  lemma SameCuts(title: string, sections: seq<Section>, room: int, rest: seq<Section>, left: int)
    requires sections != [] && Whole(title, sections[0], room)
    requires rest == sections[1..] && left == room - Overhead(title, sections[0]) - |sections[0].text|
    ensures CutsAtEnd(title, sections, room) <==> CutsAtEnd(title, rest, left)
  {
  }

  lemma {:induction false} GatheredCuts(title: string, sections: seq<Section>, room: int)
    requires forall i :: 0 <= i < |sections| ==> Stripped(sections[i])
    ensures CutInTheMiddle(title, sections, room) <==> !CutsAtEnd(title, sections, room)
    decreases |sections|
  {
    if sections != [] {
      if Whole(title, sections[0], room) {
        var rest, left := sections[1..], room - Overhead(title, sections[0]) - |sections[0].text|;
        GatheredCuts(title, rest, left);
        SameCuts(title, sections, room, rest, left);
        CutAfterWhole(title, sections, room, rest, left);
      } else {
        CutAtFirst(title, sections, room);
      }
    }
  }

  /** For texts as they are gathered the promise is broken exactly by a cut in the middle. */
  lemma GatheredTailExactly(title: string, sections: seq<Section>, room: int)
    requires forall i :: 0 <= i < |sections| ==> Stripped(sections[i])
    ensures OnlyTail(sections, Trim(title, sections, room)) <==> !CutInTheMiddle(title, sections, room)
  {
    OnlyTailExactly(title, sections, room);
    GatheredCuts(title, sections, room);
  }

  // ---- an input ------------------------------------------------------------

  /** Two sections without names: one letter, then sixty blanks and another letter; and one letter. */
  function Gapped(blanks: string): seq<Section> {
    [Section("", "a" + blanks + "b", 1, 1), Section("", "c", 2, 2)]
  }

  lemma {:induction false} BlanksDropped(blanks: string)
    requires Blank(blanks)
    ensures RStrip("a" + blanks) == "a"
    decreases |blanks|
  {
    var s := "a" + blanks;
    if blanks != "" {
      assert s[..|s| - 1] == "a" + blanks[..|blanks| - 1];
      BlanksDropped(blanks[..|blanks| - 1]);
    }
  }

  /** With room for 109 characters the first is cut after its letter and the second kept. */
  lemma SectionCutInTheMiddle(blanks: string)
    requires |blanks| == 60 && Blank(blanks)
    ensures Trim("", Gapped(blanks), 109) == [Section("", "a", 1, 1), Section("", "c", 2, 2)]
    ensures !OnlyTail(Gapped(blanks), Trim("", Gapped(blanks), 109))
  {
    var all := Gapped(blanks);
    var text := all[0].text;
    assert text[..61] == "a" + blanks;
    BlanksDropped(blanks);
    assert Part("", all[0], 109) == "a";
    var last := Trim("", all[1..], 60);
    assert all[1..] == [all[1]] && RStrip("c") == "c";
    TrimCut("", all, 109, "a", last);
    var none: seq<Section> := [];
    assert Trim("", none, 11) == none && all[1..][1..] == none;
    TrimCut("", all[1..], 60, "c", none);
    assert [all[1].(text := "c")] + none == [all[1]];
    assert Trim("", all, 109)[0] != all[0];
  }
}
