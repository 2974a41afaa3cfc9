/** The prior messages put before a question, newest kept, within a size budget. */
module History {
  import opened Wrappers
  import opened Text

  /** A stored message; either field may be missing. */
  datatype Message = Message(role: Option<string>, content: Option<string>)

  datatype Turn = Turn(role: string, content: string)

  function OrEmpty(s: Option<string>): string {
    if s.Some? then s.value else ""
  }

  function Stripped(m: Message): Turn {
    Turn(OrEmpty(m.role), Strip(OrEmpty(m.content)))
  }

  /** The turns that say anything, stripped, in order. */
  function Spoken(ms: seq<Message>): seq<Turn> {
    if ms == [] then []
    else (if Stripped(ms[0]).content == "" then [] else [Stripped(ms[0])]) + Spoken(ms[1..])
  }

  /** A message with something to say becomes one turn in its own role, without the blanks
      around what it says; one without is left out. */
  lemma SpokenOne(m: Message)
    ensures Spoken([m]) ==
            if m.content.None? || Blank(m.content.value) then []
            else [Turn(if m.role.Some? then m.role.value else "", Strip(m.content.value))]
  {
    var k := StripFacts(OrEmpty(m.content));
    assert [m][1..] == [];
  }

  /** Messages are taken one by one, in order. */
  lemma {:induction false} SpokenJoin(a: seq<Message>, b: seq<Message>)
    ensures Spoken(a + b) == Spoken(a) + Spoken(b)
    decreases |a|
  {
    if a == [] {
      assert a + b == b;
    } else {
      assert (a + b)[1..] == a[1..] + b;
      SpokenJoin(a[1..], b);
    }
  }

  function Joined(ts: seq<Turn>): string {
    if ts == [] then "" else ts[0].content + Joined(ts[1..])
  }

  function Least(a: nat, b: nat): nat {
    if a <= b then a else b
  }

  /** The last n items, or all of them. */
  function Last<T>(s: seq<T>, n: nat): seq<T> {
    s[|s| - Least(n, |s|)..]
  }

  lemma LastOfBoth(a: string, b: string, n: nat)
    ensures Last(a + b, n) == if n <= |b| then Last(b, n) else Last(a, n - |b|) + b
  {
  }

  /** kept is the newest of the turns spoken, whole but for the oldest one kept, which
      may have lost its beginning. */
  ghost predicate NewestOf(kept: seq<Turn>, spoken: seq<Turn>) {
    && |kept| <= |spoken|
    && (kept != [] ==>
          var first := spoken[|spoken| - |kept|];
          && kept[0].role == first.role && kept[0].content != ""
          && |kept[0].content| <= |first.content| && kept[0].content == Last(first.content, |kept[0].content|)
          && kept[1..] == spoken[|spoken| - |kept| + 1..])
  }

  /** What the bounded history must be: it reads as the last budget characters of
      everything said in the last maxMessages messages. */
  ghost predicate Bounded(kept: seq<Turn>, messages: seq<Message>, maxMessages: int, budget: int) {
    if maxMessages <= 0 || budget <= 0 then kept == []
    else
      var spoken := Spoken(Last(messages, maxMessages));
      Joined(kept) == Last(Joined(spoken), budget) && NewestOf(kept, spoken)
  }

  /** The state of the loop with the messages from i on behind it. */
  ghost predicate Midway(kept: seq<Turn>, spoken: seq<Turn>, budget: nat, remaining: nat) {
    && Joined(kept) == Last(Joined(spoken), budget) && |Joined(kept)| + remaining == budget
    && NewestOf(kept, spoken)
    && (remaining > 0 ==> kept == spoken)
  }

  /** Taking in one older turn. */
  lemma TakeOne(kept: seq<Turn>, spoken: seq<Turn>, budget: nat, remaining: nat, t: Turn)
    requires Midway(kept, spoken, budget, remaining) && t.content != "" && remaining > 0
    ensures var bounded := Last(t.content, remaining);
            Midway([t.(content := bounded)] + kept, [t] + spoken, budget, remaining - |bounded|)
  {
    var bounded := Last(t.content, remaining);
    var newKept, newSpoken := [t.(content := bounded)] + kept, [t] + spoken;
    assert newKept[1..] == kept && newSpoken[1..] == spoken;
    assert Joined(newSpoken) == t.content + Joined(spoken) && Joined(newKept) == bounded + Joined(kept);
    LastOfBoth(t.content, Joined(spoken), budget);
    assert Last(Joined(spoken), budget) == Joined(spoken);
    if |t.content| <= remaining {
      assert bounded == t.content && newKept[0] == t;
      assert newKept == newSpoken;
    }
  }

  /** An older turn that no longer fits. */
  lemma SkipOne(kept: seq<Turn>, spoken: seq<Turn>, budget: nat, t: Turn)
    requires Midway(kept, spoken, budget, 0) && budget > 0
    ensures Midway(kept, [t] + spoken, budget, 0)
  {
  }

  function Reversed<T>(s: seq<T>): seq<T> {
    if s == [] then [] else Reversed(s[1..]) + [s[0]]
  }

  lemma {:induction false} ReversedSnoc<T>(s: seq<T>, x: T)
    ensures Reversed(s + [x]) == [x] + Reversed(s)
  {
    if s != [] {
      assert (s + [x])[1..] == s[1..] + [x];
      ReversedSnoc(s[1..], x);
    } else {
      assert (s + [x])[1..] == [];
    }
  }

  lemma SpokenFrom(ms: seq<Message>, i: nat)
    requires i < |ms|
    ensures var t, before := Stripped(ms[i]), Spoken(ms[i + 1..]);
            Spoken(ms[i..]) == if t.content == "" then before else [t] + before
  {
    assert ms[i..][1..] == ms[i + 1..];
  }

  method BoundHistory(messages: seq<Message>, maxMessages: int, budget: int) returns (kept: seq<Turn>)
    ensures Bounded(kept, messages, maxMessages, budget)
  {
    if maxMessages <= 0 || budget <= 0 {
      return [];
    }
    var window := Last(messages, maxMessages);
    var keptReversed: seq<Turn> := [];
    var remaining := budget;
    var i := |window|;
    while i > 0
      invariant 0 <= i <= |window| && 0 <= remaining
      invariant Midway(Reversed(keptReversed), Spoken(window[i..]), budget, remaining)
    {
      i := i - 1;
      var t := Stripped(window[i]);
      ghost var before := Spoken(window[i + 1..]);
      SpokenFrom(window, i);
      if t.content == "" || remaining <= 0 {
        if t.content != "" {
          SkipOne(Reversed(keptReversed), before, budget, t);
        }
      } else {
        var bounded := Last(t.content, remaining);
        TakeOne(Reversed(keptReversed), before, budget, remaining, t);
        ReversedSnoc(keptReversed, Turn(t.role, bounded));
        keptReversed := keptReversed + [Turn(t.role, bounded)];
        remaining := remaining - |bounded|;
      }
    }
    assert window[0..] == window;
    kept := Reversed(keptReversed);
  }

  /** The promise fixes the history: no two answers meet it. */
  lemma BoundedUnique(a: seq<Turn>, b: seq<Turn>, messages: seq<Message>, maxMessages: int, budget: int)
    requires Bounded(a, messages, maxMessages, budget) && Bounded(b, messages, maxMessages, budget)
    ensures a == b
  {
    if maxMessages > 0 && budget > 0 {
      var spoken := Spoken(Last(messages, maxMessages));
      SameNewest(a, b, spoken);
    }
  }

  lemma {:induction false} TailReadsShorter(ts: seq<Turn>, j: nat, k: nat)
    requires j <= k <= |ts|
    ensures |Joined(ts[k..])| <= |Joined(ts[j..])|
    decreases k - j
  {
    if j < k {
      assert ts[j..][1..] == ts[j + 1..];
      TailReadsShorter(ts, j + 1, k);
    }
  }

  /** A longer selection of the newest turns reads longer. */
  lemma LongerReadsLonger(a: seq<Turn>, b: seq<Turn>, spoken: seq<Turn>)
    requires NewestOf(a, spoken) && NewestOf(b, spoken) && |a| < |b|
    ensures |Joined(a)| < |Joined(b)|
  {
    var j, k := |spoken| - |b|, |spoken| - |a|;
    HeadReads(b, spoken, j);
    if a != [] {
      HeadReads(a, spoken, k);
    }
    LongerByTails(a, b, spoken, j, k);
  }

  lemma LongerByTails(a: seq<Turn>, b: seq<Turn>, spoken: seq<Turn>, j: nat, k: nat)
    requires j < k <= |spoken|
    requires |Joined(spoken[j + 1..])| < |Joined(b)|
    requires k == |spoken| ==> a == []
    requires k < |spoken| ==> |Joined(a)| <= |spoken[k].content| + |Joined(spoken[k + 1..])|
    ensures |Joined(a)| < |Joined(b)|
  {
    TailReadsShorter(spoken, j + 1, k);
    if k < |spoken| {
      assert spoken[k..][1..] == spoken[k + 1..];
    }
  }

  lemma HeadReads(a: seq<Turn>, spoken: seq<Turn>, k: nat)
    requires NewestOf(a, spoken) && a != [] && k + |a| == |spoken|
    ensures |Joined(spoken[k + 1..])| < |Joined(a)|
    ensures |Joined(a)| <= |spoken[k].content| + |Joined(spoken[k + 1..])|
  {
  }

  lemma SameNewest(a: seq<Turn>, b: seq<Turn>, spoken: seq<Turn>)
    requires NewestOf(a, spoken) && NewestOf(b, spoken) && Joined(a) == Joined(b)
    ensures a == b
  {
    if |a| < |b| {
      LongerReadsLonger(a, b, spoken);
    } else if |b| < |a| {
      LongerReadsLonger(b, a, spoken);
    } else if a != [] {
      SameLengthNewest(a, b, spoken);
    }
  }

  lemma SameLengthNewest(a: seq<Turn>, b: seq<Turn>, spoken: seq<Turn>)
    requires NewestOf(a, spoken) && NewestOf(b, spoken) && Joined(a) == Joined(b) && |a| == |b| > 0
    ensures a == b
  {
    HeadLength(a);
    HeadLength(b);
    NewestByLength(a, b, spoken);
  }

  /** How much is kept and how long its oldest turn is decide what is kept. */
  lemma NewestByLength(a: seq<Turn>, b: seq<Turn>, spoken: seq<Turn>)
    requires NewestOf(a, spoken) && NewestOf(b, spoken) && |a| == |b| > 0
    ensures a[1..] == b[1..]
    ensures |a[0].content| == |b[0].content| ==> a == b
  {
    if |a[0].content| == |b[0].content| {
      SameParts(a, b);
    }
  }

  lemma HeadLength(ts: seq<Turn>)
    requires ts != []
    ensures |ts[0].content| == |Joined(ts)| - |Joined(ts[1..])|
  {
  }

  lemma SameParts<T>(a: seq<T>, b: seq<T>)
    requires |a| == |b| > 0 && a[0] == b[0] && a[1..] == b[1..]
    ensures a == b
  {
    assert a == [a[0]] + a[1..];
    assert b == [b[0]] + b[1..];
  }
}
