/** The string helpers the services share: Python's strip, the whitespace
    collapse of `re.sub(r"\s+", " ", s).strip()`, and SQLite's NOCASE folding. */
module Text {

  /** ASCII whitespace, as both `\s` and `str.strip` see it. */
  predicate IsSpace(c: char) {
    c == ' ' || '\t' <= c <= '\r' || '\U{1C}' <= c <= '\U{1F}'
  }

  predicate Blank(s: string) {
    forall i :: 0 <= i < |s| ==> IsSpace(s[i])
  }

  function LStrip(s: string): string {
    if s != "" && IsSpace(s[0]) then LStrip(s[1..]) else s
  }

  function RStrip(s: string): string {
    if s != "" && IsSpace(s[|s| - 1]) then RStrip(s[..|s| - 1]) else s
  }

  function Strip(s: string): string {
    RStrip(LStrip(s))
  }

  /** Every run of whitespace becomes one space. */
  function Collapse(s: string): string {
    if s == "" then ""
    else if !IsSpace(s[0]) then [s[0]] + Collapse(s[1..])
    else if |s| > 1 && IsSpace(s[1]) then Collapse(s[1..])
    else " " + Collapse(s[1..])
  }

  function Tidy(s: string): string {
    Strip(Collapse(s))
  }

  /** The shape of a tidied string: single plain spaces, none at either end. */
  predicate IsTidy(s: string) {
    && SingleSpaced(s)
    && (s != "" ==> !IsSpace(s[0]) && !IsSpace(s[|s| - 1]))
  }

  /** All whitespace is the plain space, never two in a row. */
  predicate SingleSpaced(s: string) {
    && (forall i :: 0 <= i < |s| && IsSpace(s[i]) ==> s[i] == ' ')
    && (forall i :: 0 <= i < |s| - 1 && IsSpace(s[i]) ==> !IsSpace(s[i + 1]))
  }

  /** The characters that are not whitespace, in order. */
  function Ink(s: string): string {
    if s == "" then "" else (if IsSpace(s[0]) then "" else [s[0]]) + Ink(s[1..])
  }

  lemma {:induction false} InkAppend(s: string, t: string)
    ensures Ink(s + t) == Ink(s) + Ink(t)
  {
    if s == "" {
      assert s + t == t;
    } else {
      assert (s + t)[1..] == s[1..] + t;
      InkAppend(s[1..], t);
    }
  }

  lemma {:induction false} LStripFacts(s: string)
    ensures |LStrip(s)| <= |s| && LStrip(s) == s[|s| - |LStrip(s)|..]
    ensures LStrip(s) == "" || !IsSpace(LStrip(s)[0])
    ensures Ink(LStrip(s)) == Ink(s)
    ensures Blank(s) <==> LStrip(s) == ""
  {
    if s != "" && IsSpace(s[0]) {
      LStripFacts(s[1..]);
      assert Blank(s) <==> Blank(s[1..]);
    }
  }

  lemma {:induction false} RStripFacts(s: string)
    ensures |RStrip(s)| <= |s| && RStrip(s) == s[..|RStrip(s)|]
    ensures RStrip(s) == "" || !IsSpace(RStrip(s)[|RStrip(s)| - 1])
    ensures Ink(RStrip(s)) == Ink(s)
    ensures s != "" && !IsSpace(s[0]) ==> RStrip(s) != "" && RStrip(s)[0] == s[0]
  {
    if s != "" && IsSpace(s[|s| - 1]) {
      var t := s[..|s| - 1];
      RStripFacts(t);
      assert s == t + [s[|s| - 1]];
      InkAppend(t, [s[|s| - 1]]);
    }
  }

  lemma StripFacts(s: string) returns (k: nat)
    ensures k + |Strip(s)| <= |s| && Strip(s) == s[k..k + |Strip(s)|]
    ensures Ink(Strip(s)) == Ink(s)
    ensures Strip(s) == "" <==> Blank(s)
    ensures Strip(s) != "" ==> !IsSpace(Strip(s)[0]) && !IsSpace(Strip(s)[|Strip(s)| - 1])
  {
    LStripFacts(s);
    RStripFacts(LStrip(s));
    k := |s| - |LStrip(s)|;
  }

  /** Strip leaves alone a string with no whitespace at its ends. */
  lemma StripFixed(s: string)
    requires s != "" ==> !IsSpace(s[0]) && !IsSpace(s[|s| - 1])
    ensures Strip(s) == s
  {
  }

  lemma {:induction false} CollapseFacts(s: string)
    ensures |Collapse(s)| <= |s| && Ink(Collapse(s)) == Ink(s)
    ensures Collapse(s) == "" <==> s == ""
    ensures s != "" ==> (IsSpace(Collapse(s)[0]) <==> IsSpace(s[0]))
    ensures SingleSpaced(Collapse(s))
  {
    if s != "" {
      CollapseFacts(s[1..]);
    }
  }

  lemma {:induction false} CollapseFixed(s: string)
    requires SingleSpaced(s)
    ensures Collapse(s) == s
  {
    if s != "" {
      CollapseFixed(s[1..]);
    }
  }

  lemma {:induction false} InkBlank(s: string)
    ensures Ink(s) == "" <==> Blank(s)
  {
    if s != "" {
      InkBlank(s[1..]);
      assert Blank(s) <==> IsSpace(s[0]) && Blank(s[1..]);
    }
  }

  /** Tidying yields a tidy string with the same ink, never a longer one, and
      is empty exactly for blank input. */
  lemma TidyFacts(s: string)
    ensures IsTidy(Tidy(s)) && Ink(Tidy(s)) == Ink(s) && |Tidy(s)| <= |s|
    ensures Tidy(s) == "" <==> Blank(s)
  {
    var c := Collapse(s);
    CollapseFacts(s);
    var k := StripFacts(c);
    InkBlank(s);
    InkBlank(c);
    SliceSpaced(c, k, k + |Tidy(s)|);
  }

  lemma SliceSpaced(c: string, i: nat, j: nat)
    requires i <= j <= |c| && SingleSpaced(c)
    ensures SingleSpaced(c[i..j])
  {
  }

  /** Tidying a tidy string changes nothing, so tidying twice is tidying once. */
  lemma TidyFixed(s: string)
    requires IsTidy(s)
    ensures Tidy(s) == s
  {
    CollapseFixed(s);
    StripFixed(s);
  }

  function Lower(c: char): char {
    if 'A' <= c <= 'Z' then (c as int + 32) as char else c
  }

  /** ASCII case folding, the comparison key of a NOCASE column. */
  function Fold(s: string): string {
    seq(|s|, i requires 0 <= i < |s| => Lower(s[i]))
  }
}
