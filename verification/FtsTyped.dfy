/** From what is typed in the search box to what is searched for: phrases in quotes and
    words are found again in the query as typed, whatever blanks stand around them. */
module FtsTyped {
  import opened Wrappers
  import opened Text
  import opened FtsQuery

  /** The tokens with something to search for. */
  function Searched(ts: seq<Token>): seq<Token> {
    if ts == [] then []
    else
      var before, last := Searched(ts[..|ts| - 1]), ts[|ts| - 1];
      if HasAlnum(last.text) then before + [last] else before
  }

  function StrippedTexts(ts: seq<Token>): (r: seq<string>)
    ensures |r| == |ts| && forall i :: 0 <= i < |ts| ==> r[i] == Strip(ts[i].text)
  {
    seq(|ts|, i requires 0 <= i < |ts| => Strip(ts[i].text))
  }

  ghost predicate AllPlain(ts: seq<Token>) {
    forall i :: 0 <= i < |ts| ==> Plain(ts[i])
  }

  /** The terms of plain tokens. */
  lemma {:induction false} KeptOfPlain(ts: seq<Token>)
    requires AllPlain(ts)
    ensures |Kept(ts)| == |Searched(ts)|
    ensures forall i :: 0 <= i < |Kept(ts)| ==>
              Kept(ts)[i] == Term(Strip(Searched(ts)[i].text), Searched(ts)[i].Quoted?)
  {
    if ts != [] {
      KeptOfPlain(ts[..|ts| - 1]);
      PlainTerm(ts[|ts| - 1]);
    }
  }

  lemma PlainTerm(t: Token)
    requires Plain(t)
    ensures CleanTerm(t.text) == "" <==> !HasAlnum(t.text)
    ensures HasAlnum(t.text) ==> CleanTerm(t.text) == Strip(t.text) && t.text != ""
  {
    CleanFacts(t.text);
  }

  // ---- the ends of what is typed -------------------------------------------

  lemma {:induction false} TypedEnds(ts: seq<Token>)
    requires ts != [] && AllPlain(ts)
    ensures Typed(ts) != "" && !IsSpace(Typed(ts)[0]) && !IsSpace(Typed(ts)[|Typed(ts)| - 1])
    decreases |ts|
  {
    if |ts| > 1 {
      TypedEnds(ts[1..]);
    }
    SourceEnds(ts[0]);
  }

  lemma SourceEnds(t: Token)
    requires Plain(t)
    ensures Source(t) != "" && !IsSpace(Source(t)[0]) && !IsSpace(Source(t)[|Source(t)| - 1])
  {
  }

  lemma {:induction false} LStripAfter(a: string, s: string)
    requires Blank(a)
    ensures LStrip(a + s) == LStrip(s)
    decreases |a|
  {
    if a != "" {
      assert (a + s)[1..] == a[1..] + s;
      LStripAfter(a[1..], s);
    } else {
      assert a + s == s;
    }
  }

  lemma {:induction false} RStripBefore(s: string, b: string)
    requires Blank(b)
    ensures RStrip(s + b) == RStrip(s)
    decreases |b|
  {
    if b != "" {
      assert (s + b)[..|s + b| - 1] == s + b[..|b| - 1];
      RStripBefore(s, b[..|b| - 1]);
    } else {
      assert s + b == s;
    }
  }

  lemma {:induction false} LStripThen(s: string, b: string)
    requires !Blank(s)
    ensures LStrip(s + b) == LStrip(s) + b
    decreases |s|
  {
    if IsSpace(s[0]) {
      assert (s + b)[1..] == s[1..] + b;
      LStripThen(s[1..], b);
    }
  }

  lemma StripAround(a: string, s: string, b: string)
    requires Blank(a) && Blank(b)
    ensures Strip(a + s + b) == Strip(s)
  {
    Assoc(a, s, b);
    LStripAfter(a, s + b);
    if Blank(s) {
      LStripAfter(s, b);
      LStripAfter(s, "");
      assert s + "" == s;
      RStripBefore("", b);
      LStripAfter(b, "");
      assert b + "" == b;
    } else {
      LStripThen(s, b);
      RStripBefore(LStrip(s), b);
    }
  }

  // ---- the query for what is typed -----------------------------------------

  /** Blanks around what is typed change nothing. */
  lemma BlanksAroundIgnored(a: string, typed: string, b: string)
    requires Blank(a) && Blank(b)
    ensures Query(Some(a + typed + b)) == Query(Some(typed))
  {
    StripAround(a, typed, b);
  }

  lemma TokensTyped(ts: seq<Token>)
    requires AllPlain(ts)
    ensures Tokens(Some(Typed(ts))) == ts
  {
    ScanReadsTyped(ts);
    if ts != [] {
      TypedEnds(ts);
      StripFixed(Typed(ts));
    }
  }

  /** Phrases and words, typed with single blanks between, give a query for exactly those
      with something to search for, in order, each as typed but for blanks at its ends, the
      last one open-ended exactly when it is a bare word; with none of them there is no query. */
  lemma TypedQuery(ts: seq<Token>)
    requires AllPlain(ts)
    ensures var asked, q := Searched(ts), Query(Some(Typed(ts)));
            if asked == [] then q.None?
            else q.Some? && Parse(q.value) == Some(Parsed(StrippedTexts(asked), asked[|asked| - 1].Bare?))
  {
    TokensTyped(ts);
    KeptOfPlain(ts);
    if Searched(ts) != [] {
      KeptParses(ts);
      assert Texts(Kept(ts)) == StrippedTexts(Searched(ts));
    }
  }

  /** Where every token has something to search for, all of them are searched for. */
  lemma {:induction false} AllSearched(ts: seq<Token>)
    requires forall i :: 0 <= i < |ts| ==> HasAlnum(ts[i].text)
    ensures Searched(ts) == ts
  {
    if ts != [] {
      AllSearched(ts[..|ts| - 1]);
    }
  }

  /** A phrase typed in quotes stays one phrase and is not widened. */
  lemma PhraseQuery(text: string)
    requires NoQuote(text) && HasAlnum(text)
    ensures var q := Query(Some("\"" + text + "\""));
            q.Some? && Parse(q.value) == Some(Parsed([Strip(text)], false))
  {
    var ts := [Quoted(text)];
    AllSearched(ts);
    TypedQuery(ts);
    assert StrippedTexts(ts) == [Strip(text)];
  }
}
