/** The search box's expression printer: terms are scanned, cleaned, quoted and AND-ed.
    A parser for the printed form reads the cleaned terms back. */
module FtsQuery {
  import opened Wrappers
  import opened Text

  // ---- scanning ------------------------------------------------------------

  datatype Token = Quoted(text: string) | Bare(text: string)

  function NextQuote(s: string, i: nat): (j: nat)
    requires i <= |s|
    ensures i <= j <= |s| && (j < |s| ==> s[j] == '"') && forall k :: i <= k < j ==> s[k] != '"'
    decreases |s| - i
  {
    if i == |s| || s[i] == '"' then i else NextQuote(s, i + 1)
  }

  function RunEnd(s: string, i: nat): (j: nat)
    requires i <= |s|
    ensures i <= j <= |s| && (j < |s| ==> IsSpace(s[j])) && forall k :: i <= k < j ==> !IsSpace(s[k])
    decreases |s| - i
  {
    if i == |s| || IsSpace(s[i]) then i else RunEnd(s, i + 1)
  }

  /** What the scan finds at i, if anything, and where it goes on: a phrase up to the
      next quote, a blank passed over, or a run, which may contain quotes; a quote that
      is never closed starts a run. */
  function Step(s: string, i: nat): (r: (Option<Token>, nat))
    requires i < |s|
    ensures i < r.1 <= |s|
  {
    if s[i] == '"' && NextQuote(s, i + 1) < |s| then
      (Some(Quoted(s[i + 1..NextQuote(s, i + 1)])), NextQuote(s, i + 1) + 1)
    else if IsSpace(s[i]) then (None, i + 1)
    else (Some(Bare(s[i..RunEnd(s, i)])), RunEnd(s, i))
  }

  /** All matches, leftmost first. */
  function Scan(s: string, i: nat): seq<Token>
    requires i <= |s|
    decreases |s| - i
  {
    if i == |s| then []
    else
      var (t, j) := Step(s, i);
      if t.Some? then [t.value] + Scan(s, j) else Scan(s, j)
  }

  /** The text a token was scanned from. */
  function Source(t: Token): string {
    match t
    case Quoted(text) => "\"" + text + "\""
    case Bare(text) => text
  }

  function Sources(ts: seq<Token>): string {
    if ts == [] then "" else Source(ts[0]) + Sources(ts[1..])
  }

  /** Scanning loses nothing but whitespace. */
  lemma {:induction false} ScanCovers(s: string, i: nat)
    requires i <= |s|
    ensures Ink(Sources(Scan(s, i))) == Ink(s[i..])
    decreases |s| - i
  {
    if i < |s| {
      var (t, j) := Step(s, i);
      StepSource(s, i, t, j);
      ScanCovers(s, j);
      if t.Some? {
        ScanPiece(s, i, j, t.value, Scan(s, i));
      }
    }
  }

  lemma StepSource(s: string, i: nat, t: Option<Token>, j: nat)
    requires i < |s| && (t, j) == Step(s, i)
    ensures t.Some? ==> Source(t.value) == s[i..j]
    ensures t.None? ==> Ink(s[i..]) == Ink(s[j..])
  {
    if s[i] == '"' && NextQuote(s, i + 1) < |s| {
      QuotedSource(s, i, j - 1);
    } else if IsSpace(s[i]) {
      SkipSpace(s, i);
    } else {
      assert t == Some(Bare(s[i..j]));
    }
  }

  lemma SkipSpace(s: string, i: nat)
    requires i < |s| && IsSpace(s[i])
    ensures Ink(s[i..]) == Ink(s[i + 1..])
  {
  }

  lemma QuotedSource(s: string, i: nat, q: nat)
    requires i < q < |s| && s[i] == s[q] == '"'
    ensures Source(Quoted(s[i + 1..q])) == s[i..q + 1]
  {
    assert s[i..i + 1] == "\"" && s[q..q + 1] == "\"";
    assert s[i..q + 1] == s[i..i + 1] + s[i + 1..q] + s[q..q + 1];
  }

  lemma ScanPiece(s: string, i: nat, j: nat, t: Token, ts: seq<Token>)
    requires i <= j <= |s| && Source(t) == s[i..j] && Ink(Sources(Scan(s, j))) == Ink(s[j..])
    requires ts == [t] + Scan(s, j)
    ensures Ink(Sources(ts)) == Ink(s[i..])
  {
    SourcesCons(t, Scan(s, j));
    InkAppend(Source(t), Sources(Scan(s, j)));
    assert s[i..] == s[i..j] + s[j..];
    InkAppend(s[i..j], s[j..]);
  }

  lemma SourcesCons(t: Token, ts: seq<Token>)
    ensures Sources([t] + ts) == Source(t) + Sources(ts)
  {
    assert ([t] + ts)[1..] == ts;
  }

  /** A search typed token by token with single blanks between. */
  function Typed(ts: seq<Token>): string {
    if ts == [] then "" else if |ts| == 1 then Source(ts[0]) else Source(ts[0]) + (" " + Typed(ts[1..]))
  }

  /** A phrase without a quote inside, or a word without quotes and blanks. */
  predicate Plain(t: Token) {
    match t
    case Quoted(text) => forall i :: 0 <= i < |text| ==> text[i] != '"'
    case Bare(text) => text != "" && forall i :: 0 <= i < |text| ==> text[i] != '"' && !IsSpace(text[i])
  }

  lemma {:induction false} NextQuoteShift(a: string, b: string, i: nat)
    requires i <= |b|
    ensures NextQuote(a + b, |a| + i) == |a| + NextQuote(b, i)
    decreases |b| - i
  {
    if i < |b| && b[i] != '"' {
      NextQuoteShift(a, b, i + 1);
    }
  }

  lemma {:induction false} RunEndShift(a: string, b: string, i: nat)
    requires i <= |b|
    ensures RunEnd(a + b, |a| + i) == |a| + RunEnd(b, i)
    decreases |b| - i
  {
    if i < |b| && !IsSpace(b[i]) {
      RunEndShift(a, b, i + 1);
    }
  }

  lemma StepShift(a: string, b: string, i: nat)
    requires i < |b|
    ensures Step(a + b, |a| + i) == (Step(b, i).0, |a| + Step(b, i).1)
  {
    assert (a + b)[|a| + i] == b[i];
    NextQuoteShift(a, b, i + 1);
    RunEndShift(a, b, i);
    SliceShift(a, b, i + 1, NextQuote(b, i + 1));
    SliceShift(a, b, i, RunEnd(b, i));
  }

  /** What was scanned before does not matter. */
  lemma {:induction false} ScanShift(a: string, b: string, i: nat)
    requires i <= |b|
    ensures Scan(a + b, |a| + i) == Scan(b, i)
    decreases |b| - i
  {
    if i < |b| {
      var (t, j) := Step(b, i);
      StepShift(a, b, i);
      ScanShift(a, b, j);
      ScanNext(b, i, t, j);
      ScanNext(a + b, |a| + i, t, |a| + j);
    }
  }

  lemma ScanNext(s: string, i: nat, t: Option<Token>, j: nat)
    requires i < |s| && Step(s, i) == (t, j)
    ensures Scan(s, i) == if t.Some? then [t.value] + Scan(s, j) else Scan(s, j)
  {
  }

  lemma SliceShift(a: string, b: string, i: nat, j: nat)
    requires i <= j <= |b|
    ensures (a + b)[|a| + i..|a| + j] == b[i..j]
  {
  }

  /** The scan takes one plain token off the front of what was typed. */
  lemma ScanToken(t: Token, rest: string)
    requires Plain(t) && (rest == "" || rest[0] == ' ')
    ensures Scan(Source(t) + rest, 0) == [t] + Scan(rest, 0)
  {
    var s := Source(t) + rest;
    match t
    case Quoted(text) =>
      ParseTerm(text, rest);
      ScanShift(Source(t), rest, 0);
    case Bare(text) =>
      forall k | 0 <= k < |text|
        ensures !IsSpace(s[k]) && s[k] != '"'
      {
        assert s[k] == text[k];
      }
      assert |text| < |s| ==> s[|text|] == ' ';
      assert RunEnd(s, 0) == |text| && s[0..|text|] == text;
      ScanShift(Source(t), rest, 0);
  }

  /** Scanning reads back plain tokens exactly as typed. */
  lemma {:induction false} ScanReadsTyped(ts: seq<Token>)
    requires forall i :: 0 <= i < |ts| ==> Plain(ts[i])
    ensures Scan(Typed(ts), 0) == ts
  {
    if |ts| == 1 {
      ScanToken(ts[0], "");
      assert Source(ts[0]) + "" == Source(ts[0]);
    } else if |ts| > 1 {
      var rest := Typed(ts[1..]);
      ScanReadsTyped(ts[1..]);
      ScanToken(ts[0], " " + rest);
      SkipsBlank(rest);
    }
  }

  lemma SkipsBlank(rest: string)
    ensures Scan(" " + rest, 0) == Scan(rest, 0)
  {
    ScanShift(" ", rest, 0);
  }

  // ---- cleaning ------------------------------------------------------------

  predicate IsAlnum(c: char) {
    '0' <= c <= '9' || 'A' <= c <= 'Z' || 'a' <= c <= 'z'
  }

  predicate HasAlnum(s: string) {
    exists i :: 0 <= i < |s| && IsAlnum(s[i])
  }

  function Unquoted(s: string): (r: string)
    ensures |r| == |s| && forall i :: 0 <= i < |s| ==> r[i] == if s[i] == '"' then ' ' else s[i]
  {
    if s == "" then "" else [if s[0] == '"' then ' ' else s[0]] + Unquoted(s[1..])
  }

  function CleanTerm(term: string): string {
    var cleaned := Strip(Unquoted(term));
    if HasAlnum(cleaned) then cleaned else ""
  }

  predicate NoQuote(s: string) {
    forall i :: 0 <= i < |s| ==> s[i] != '"'
  }

  lemma {:induction false} InkAlnum(s: string)
    ensures HasAlnum(Ink(s)) <==> HasAlnum(s)
  {
    if s != "" {
      InkAlnum(s[1..]);
      AlnumOne(s[0]);
      assert s == [s[0]] + s[1..];
      AlnumAppend([s[0]], s[1..]);
      AlnumAppend([s[0]], Ink(s[1..]));
      assert "" + Ink(s[1..]) == Ink(s[1..]);
    }
  }

  lemma AlnumOne(c: char)
    ensures HasAlnum([c]) <==> IsAlnum(c)
    ensures IsAlnum(c) ==> !IsSpace(c)
  {
    assert [c][0] == c;
  }

  lemma AlnumAppend(a: string, b: string)
    ensures HasAlnum(a + b) <==> HasAlnum(a) || HasAlnum(b)
  {
    if HasAlnum(a) {
      var i :| 0 <= i < |a| && IsAlnum(a[i]);
      assert (a + b)[i] == a[i];
    }
    if HasAlnum(b) {
      var i :| 0 <= i < |b| && IsAlnum(b[i]);
      assert (a + b)[|a| + i] == b[i];
    }
    if HasAlnum(a + b) {
      var i :| 0 <= i < |a + b| && IsAlnum((a + b)[i]);
      assert (a + b)[i] == if i < |a| then a[i] else b[i - |a|];
    }
  }

  /** A term is dropped exactly when nothing in it is alphanumeric; a kept one holds no
      quote, and is itself but for its quotes and outer whitespace. */
  lemma CleanFacts(term: string)
    ensures CleanTerm(term) == "" <==> !HasAlnum(term)
    ensures NoQuote(CleanTerm(term))
    ensures NoQuote(term) && HasAlnum(term) ==> CleanTerm(term) == Strip(term)
  {
    var u := Unquoted(term);
    var k := StripFacts(u);
    InkAlnum(u);
    InkAlnum(Strip(u));
    UnquotedAlnum(term);
    if NoQuote(term) {
      assert u == term;
    }
  }

  /** A kept term is what was typed from some place on, a blank for each quote, with nothing
      but blanks and quotes left out on either side. */
  lemma CleanShape(term: string) returns (k: nat)
    requires HasAlnum(term)
    ensures var c := CleanTerm(term);
            && k + |c| <= |term|
            && (forall i :: 0 <= i < |c| ==> c[i] == if term[k + i] == '"' then ' ' else term[k + i])
            && (forall i :: 0 <= i < |term| && !(k <= i < k + |c|) ==> IsSpace(term[i]) || term[i] == '"')
  {
    CleanFacts(term);
    k := StripShape(Unquoted(term));
  }

  /** Strip leaves out blanks only. */
  lemma StripShape(s: string) returns (k: nat)
    ensures k + |Strip(s)| <= |s| && forall i :: 0 <= i < |Strip(s)| ==> Strip(s)[i] == s[k + i]
    ensures forall i :: 0 <= i < |s| && !(k <= i < k + |Strip(s)|) ==> IsSpace(s[i])
  {
    k := StripFacts(s);
    var n := |Strip(s)|;
    SidesBlank(s[..k], Strip(s), s[k + n..], s);
    forall i | 0 <= i < |s| && !(k <= i < k + n)
      ensures IsSpace(s[i])
    {
      assert if i < k then s[i] == s[..k][i] else s[i] == s[k + n..][i - k - n];
    }
  }

  /** Where the middle holds all the ink, the sides are blank. */
  lemma SidesBlank(before: string, middle: string, after: string, whole: string)
    requires whole == before + middle + after && Ink(whole) == Ink(middle)
    ensures Blank(before) && Blank(after)
  {
    InkAppend(before + middle, after);
    InkAppend(before, middle);
    InkBlank(before);
    InkBlank(after);
  }

  lemma UnquotedAlnum(s: string)
    ensures HasAlnum(Unquoted(s)) <==> HasAlnum(s)
    ensures NoQuote(Unquoted(s))
  {
    var u := Unquoted(s);
    if HasAlnum(s) {
      var i :| 0 <= i < |s| && IsAlnum(s[i]);
      assert IsAlnum(u[i]);
    }
    if HasAlnum(u) {
      var i :| 0 <= i < |u| && IsAlnum(u[i]);
      assert IsAlnum(s[i]);
    }
  }

  // ---- building ------------------------------------------------------------

  datatype Term = Term(text: string, quoted: bool)

  /** The terms that survive cleaning. */
  function Kept(tokens: seq<Token>): seq<Term> {
    if tokens == [] then []
    else
      var t := tokens[|tokens| - 1];
      var cleaned := CleanTerm(t.text);
      Kept(tokens[..|tokens| - 1]) + if cleaned == "" then [] else [Term(cleaned, t.Quoted? && t.text != "")]
  }

  function Print(terms: seq<Term>, star: bool): string
    requires terms != []
  {
    var part := "\"" + terms[0].text + "\"";
    if |terms| == 1 then part + (if star then "*" else "")
    else part + " AND " + Print(terms[1..], star)
  }

  function Tokens(raw: Option<string>): seq<Token> {
    Scan(Strip(if raw.Some? then raw.value else ""), 0)
  }

  function Query(raw: Option<string>): Option<string> {
    var terms := Kept(Tokens(raw));
    if terms == [] then None else Some(Print(terms, !terms[|terms| - 1].quoted))
  }

  method FindAll(s: string) returns (tokens: seq<Token>)
    ensures tokens == Scan(s, 0)
  {
    tokens := [];
    var i := 0;
    while i < |s|
      invariant 0 <= i <= |s|
      invariant Scan(s, 0) == tokens + Scan(s, i)
      decreases |s| - i
    {
      var (t, j) := Step(s, i);
      if t.Some? {
        Assoc(tokens, [t.value], Scan(s, j));
        tokens := tokens + [t.value];
      }
      i := j;
    }
  }

  method BuildFtsQuery(raw: Option<string>) returns (q: Option<string>)
    ensures q == Query(raw)
  {
    var text := Strip(if raw.Some? then raw.value else "");
    if text == "" {
      return None;
    }
    var tokens := FindAll(text);
    var terms := KeepTerms(tokens);
    if terms == [] {
      return None;
    }
    var printed := PrintTerms(terms);
    q := Some(printed);
  }

  method KeepTerms(tokens: seq<Token>) returns (terms: seq<Term>)
    ensures terms == Kept(tokens)
  {
    terms := [];
    for i := 0 to |tokens|
      invariant terms == Kept(tokens[..i])
    {
      assert tokens[..i + 1][..i] == tokens[..i];
      var cleaned := CleanTerm(tokens[i].text);
      if cleaned != "" {
        terms := terms + [Term(cleaned, tokens[i].Quoted? && tokens[i].text != "")];
      }
    }
    assert tokens[..|tokens|] == tokens;
  }

  method PrintTerms(terms: seq<Term>) returns (s: string)
    requires terms != []
    ensures s == Print(terms, !terms[|terms| - 1].quoted)
  {
    var parts := seq(|terms|, i requires 0 <= i < |terms| => "\"" + terms[i].text + "\"");
    var last := |parts| - 1;
    if !terms[last].quoted {
      parts := parts[last := parts[last] + "*"];
    }
    s := JoinParts(parts, terms, !terms[last].quoted);
  }

  method JoinParts(parts: seq<string>, ghost terms: seq<Term>, ghost star: bool) returns (s: string)
    requires |parts| == |terms| > 0
    requires forall i :: 0 <= i < |parts| ==>
               parts[i] == "\"" + terms[i].text + "\"" + if star && i == |parts| - 1 then "*" else ""
    ensures s == Print(terms, star)
  {
    var i := |parts| - 1;
    s := parts[i];
    assert s == Print(terms[i..], star);
    while i > 0
      invariant 0 <= i < |parts| && s == Print(terms[i..], star)
    {
      i := i - 1;
      assert terms[i..][1..] == terms[i + 1..];
      assert parts[i] == "\"" + terms[i].text + "\"";
      s := parts[i] + " AND " + s;
    }
    assert terms[0..] == terms;
  }

  // ---- reading it back -----------------------------------------------------

  datatype Parsed = Parsed(terms: seq<string>, star: bool)

  /** Quoted strings joined by AND, with an optional star at the very end. */
  function Parse(s: string): Option<Parsed>
    decreases |s|
  {
    if s == "" || s[0] != '"' || NextQuote(s, 1) == |s| then None
    else
      var j := NextQuote(s, 1);
      var term, rest := s[1..j], s[j + 1..];
      if rest == "" then Some(Parsed([term], false))
      else if rest == "*" then Some(Parsed([term], true))
      else if |rest| < 5 || rest[..5] != " AND " then None
      else
        match Parse(rest[5..])
        case None => None
        case Some(more) => Some(Parsed([term] + more.terms, more.star))
  }

  function Texts(terms: seq<Term>): (ts: seq<string>)
    ensures |ts| == |terms| && forall i :: 0 <= i < |ts| ==> ts[i] == terms[i].text
  {
    seq(|terms|, i requires 0 <= i < |terms| => terms[i].text)
  }

  lemma {:induction false} NextQuoteIs(s: string, i: nat, j: nat)
    requires i <= j < |s| && s[j] == '"' && forall k :: i <= k < j ==> s[k] != '"'
    ensures NextQuote(s, i) == j
    decreases j - i
  {
  }

  /** The parser splits off a quoted term. */
  lemma ParseTerm(term: string, rest: string)
    requires NoQuote(term)
    ensures var s := "\"" + term + "\"" + rest;
            s != "" && s[0] == '"' && NextQuote(s, 1) == |term| + 1 && s[1..|term| + 1] == term
              && s[|term| + 2..] == rest
  {
    var s := "\"" + term + "\"" + rest;
    forall k | 1 <= k < |term| + 1
      ensures s[k] != '"'
    {
      assert s[k] == term[k - 1];
    }
    NextQuoteIs(s, 1, |term| + 1);
  }

  lemma ParseLast(term: string, star: bool)
    requires NoQuote(term)
    ensures Parse("\"" + term + "\"" + if star then "*" else "") == Some(Parsed([term], star))
  {
    ParseTerm(term, if star then "*" else "");
  }

  lemma ParseMore(term: string, rest: string, more: Parsed)
    requires NoQuote(term) && Parse(rest) == Some(more)
    ensures Parse("\"" + term + "\"" + (" AND " + rest)) == Some(Parsed([term] + more.terms, more.star))
  {
    ParseTerm(term, " AND " + rest);
    assert (" AND " + rest)[..5] == " AND " && (" AND " + rest)[5..] == rest;
  }

  /** What is printed reads back as the terms printed. */
  lemma {:induction false} PrintParses(terms: seq<Term>, star: bool)
    requires terms != [] && forall i :: 0 <= i < |terms| ==> NoQuote(terms[i].text)
    ensures Parse(Print(terms, star)) == Some(Parsed(Texts(terms), star))
    decreases |terms|
  {
    var term := terms[0].text;
    if |terms| == 1 {
      ParseLast(term, star);
      assert Texts(terms) == [term];
    } else {
      PrintParses(terms[1..], star);
      ParseMore(term, Print(terms[1..], star), Parsed(Texts(terms[1..]), star));
      PrintMore(terms, star);
      TextsMore(terms);
    }
  }

  lemma PrintMore(terms: seq<Term>, star: bool)
    requires |terms| > 1
    ensures Print(terms, star) == "\"" + terms[0].text + "\"" + (" AND " + Print(terms[1..], star))
  {
    Assoc("\"" + terms[0].text + "\"", " AND ", Print(terms[1..], star));
  }

  lemma TextsMore(terms: seq<Term>)
    requires terms != []
    ensures Texts(terms) == [terms[0].text] + Texts(terms[1..])
  {
  }

  // ---- the query -----------------------------------------------------------

  lemma {:induction false} KeptNoQuote(tokens: seq<Token>)
    ensures forall i :: 0 <= i < |Kept(tokens)| ==> NoQuote(Kept(tokens)[i].text)
  {
    if tokens != [] {
      KeptNoQuote(tokens[..|tokens| - 1]);
      CleanFacts(tokens[|tokens| - 1].text);
    }
  }

  lemma {:induction false} KeptNone(tokens: seq<Token>)
    ensures Kept(tokens) == [] <==> !HasAlnum(Sources(tokens))
  {
    if tokens != [] {
      var n := |tokens| - 1;
      KeptNone(tokens[..n]);
      KeptLast(tokens, tokens[n].text);
      SourcesAlnum(tokens);
    }
  }

  lemma KeptLast(tokens: seq<Token>, text: string)
    requires tokens != [] && text == tokens[|tokens| - 1].text
    ensures Kept(tokens) == [] <==> Kept(tokens[..|tokens| - 1]) == [] && !HasAlnum(text)
  {
    CleanFacts(text);
  }

  lemma SourcesAlnum(tokens: seq<Token>)
    requires tokens != []
    ensures var n := |tokens| - 1;
            HasAlnum(Sources(tokens)) <==> HasAlnum(Sources(tokens[..n])) || HasAlnum(tokens[n].text)
  {
    var init, t := tokens[..|tokens| - 1], tokens[|tokens| - 1];
    assert tokens == init + [t];
    SourceAlnum(t);
    SourcesSnoc(init, t);
    AlnumAppend(Sources(init), Source(t));
  }

  ghost predicate IsTermOf(term: Term, tokens: seq<Token>, k: nat) {
    k < |tokens| && HasAlnum(tokens[k].text) && term == Term(CleanTerm(tokens[k].text), tokens[k].Quoted?)
  }

  /** The terms are those of the tokens at the positions given, cleaned, in order, and
      marked quoted as typed; the other tokens have nothing alphanumeric in them. */
  ghost predicate KeptAt(at: seq<nat>, tokens: seq<Token>, terms: seq<Term>) {
    && |at| == |terms|
    && (forall i, j :: 0 <= i < j < |at| ==> at[i] < at[j])
    && (forall i :: 0 <= i < |at| ==> IsTermOf(terms[i], tokens, at[i]))
    && (forall j :: 0 <= j < |tokens| && j !in at ==> !HasAlnum(tokens[j].text))
  }

  lemma {:induction false} KeptExactly(tokens: seq<Token>) returns (at: seq<nat>)
    ensures KeptAt(at, tokens, Kept(tokens))
  {
    at := [];
    if tokens != [] {
      var n := |tokens| - 1;
      at := KeptExactly(tokens[..n]);
      CleanFacts(tokens[n].text);
      if HasAlnum(tokens[n].text) {
        KeptAdded(tokens, at, Kept(tokens[..n]), Kept(tokens));
        at := at + [n];
      } else {
        KeptDropped(tokens, at, Kept(tokens));
      }
    }
  }

  lemma KeptDropped(tokens: seq<Token>, at: seq<nat>, terms: seq<Term>)
    requires tokens != [] && KeptAt(at, tokens[..|tokens| - 1], terms) && !HasAlnum(tokens[|tokens| - 1].text)
    ensures KeptAt(at, tokens, terms)
  {
    var init := tokens[..|tokens| - 1];
    forall i | 0 <= i < |at|
      ensures IsTermOf(terms[i], tokens, at[i])
    {
      assert IsTermOf(terms[i], init, at[i]);
    }
    assert forall j :: 0 <= j < |init| ==> init[j] == tokens[j];
  }

  lemma KeptAdded(tokens: seq<Token>, at: seq<nat>, before: seq<Term>, after: seq<Term>)
    requires tokens != [] && KeptAt(at, tokens[..|tokens| - 1], before)
    requires var t := tokens[|tokens| - 1]; HasAlnum(t.text) && after == before + [Term(CleanTerm(t.text), t.Quoted?)]
    ensures KeptAt(at + [|tokens| - 1], tokens, after)
  {
    var init, more := tokens[..|tokens| - 1], at + [|tokens| - 1];
    forall i | 0 <= i < |more|
      ensures IsTermOf(after[i], tokens, more[i])
    {
      assert i < |at| ==> IsTermOf(before[i], init, at[i]);
    }
    assert more[|at|] == |init|;
    forall j | 0 <= j < |tokens| && j !in more
      ensures !HasAlnum(tokens[j].text)
    {
      assert j < |init| && j !in at && init[j] == tokens[j];
    }
  }

  lemma SourceAlnum(t: Token)
    ensures HasAlnum(Source(t)) <==> HasAlnum(t.text)
  {
    AlnumAppend("\"" + t.text, "\"");
    AlnumAppend("\"", t.text);
  }

  lemma {:induction false} SourcesSnoc(ts: seq<Token>, t: Token)
    ensures Sources(ts + [t]) == Sources(ts) + Source(t)
  {
    if ts == [] {
      assert ts + [t] == [t];
    } else {
      assert (ts + [t])[1..] == ts[1..] + [t];
      SourcesSnoc(ts[1..], t);
      Assoc(Source(ts[0]), Sources(ts[1..]), Source(t));
    }
  }

  /** There is no query exactly when nothing typed is alphanumeric, no matter how it is
      quoted. */
  lemma NoQueryExactly(raw: Option<string>)
    ensures Query(raw) == None <==> raw.None? || !HasAlnum(raw.value)
  {
    var given := if raw.Some? then raw.value else "";
    var text := Strip(given);
    var k := StripFacts(given);
    ScanCovers(text, 0);
    assert text[0..] == text;
    KeptNone(Scan(text, 0));
    InkAlnum(given);
    InkAlnum(text);
    InkAlnum(Sources(Scan(text, 0)));
  }

  /** Otherwise the query reads back as exactly the cleaned terms in order, with a star
      exactly when the last of them was typed bare. */
  lemma QueryReadsBack(raw: Option<string>)
    requires Query(raw).Some?
    ensures var terms := Kept(Tokens(raw));
            terms != [] && Parse(Query(raw).value) == Some(Parsed(Texts(terms), !terms[|terms| - 1].quoted))
  {
    KeptParses(Tokens(raw));
  }

  lemma KeptParses(tokens: seq<Token>)
    requires Kept(tokens) != []
    ensures var terms := Kept(tokens);
            Parse(Print(terms, !terms[|terms| - 1].quoted)) == Some(Parsed(Texts(terms), !terms[|terms| - 1].quoted))
  {
    KeptNoQuote(tokens);
    var terms := Kept(tokens);
    PrintParses(terms, !terms[|terms| - 1].quoted);
  }
}
