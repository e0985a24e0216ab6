/** The reader's front end in utils.cpp: `tokenizeLisp`, which cuts the input
    into tokens with the regular expression `(\()|(\))|("[^"]*")|([^\s()]+)`,
    and `areParenthesesBalanced`, the string-aware parenthesis counter run
    before anything is tokenized.

    The regular expression is re-expressed as hand-written scanners over
    characters. `std::regex_search` returns the leftmost match and, at that
    position, the first alternative that matches: every character that is not
    white space starts a match, so the next token starts at the first
    non-space character; it is `(` or `)` alone, a quoted literal up to the
    NEXT `"` when one exists, and otherwise the longest run of characters that
    are neither white space nor parentheses (which may contain `"`). */
module Lexer {
  import opened Results
  import Syntax

  /** `\s` of the classic C locale: space, tab, newline, vertical tab, form
      feed and carriage return. */
  predicate IsSpace(c: char) {
    c == ' ' || ('\t' <= c <= '\r')
  }

  predicate IsParen(c: char) {
    c == '(' || c == ')'
  }

  predicate AllSpace(s: string) {
    forall j :: 0 <= j < |s| ==> IsSpace(s[j])
  }

  /** Number of white-space characters at the front of `s`. */
  function LeadingSpace(s: string): (k: nat)
    ensures k <= |s|
    ensures forall j :: 0 <= j < k ==> IsSpace(s[j])
    ensures k < |s| ==> !IsSpace(s[k])
  {
    if |s| == 0 || !IsSpace(s[0]) then 0
    else
      var k := 1 + LeadingSpace(s[1..]);
      assert forall j :: 1 <= j < k ==> s[j] == s[1..][j - 1];
      k
  }

  /** Index of the first `"` in `s`, if any. */
  function FindQuote(s: string): (r: Option<nat>)
    ensures r.Some? ==> r.value < |s| && s[r.value] == '"'
    ensures r.Some? ==> forall j :: 0 <= j < r.value ==> s[j] != '"'
    ensures r.None? ==> forall j :: 0 <= j < |s| ==> s[j] != '"'
  {
    if |s| == 0 then None
    else if s[0] == '"' then Some(0)
    else
      match FindQuote(s[1..])
      case None =>
        assert forall j :: 1 <= j < |s| ==> s[j] == s[1..][j - 1];
        None
      case Some(k) =>
        assert forall j :: 1 <= j < k + 1 ==> s[j] == s[1..][j - 1];
        Some(k + 1)
  }

  /** Length of the longest prefix of `s` free of white space and parentheses
      (the `[^\s()]+` alternative). */
  function RunLength(s: string): (n: nat)
    ensures n <= |s|
    ensures forall j :: 0 <= j < n ==> !IsSpace(s[j]) && !IsParen(s[j])
    ensures n < |s| ==> IsSpace(s[n]) || IsParen(s[n])
  {
    if |s| == 0 || IsSpace(s[0]) || IsParen(s[0]) then 0
    else
      var n := 1 + RunLength(s[1..]);
      assert forall j :: 1 <= j < n ==> s[j] == s[1..][j - 1];
      n
  }

  /** Length of the token that starts at the front of `s`. */
  function TokenLength(s: string): (n: nat)
    requires |s| > 0 && !IsSpace(s[0])
    ensures 0 < n <= |s|
  {
    if IsParen(s[0]) then 1
    else if s[0] == '"' && FindQuote(s[1..]).Some? then FindQuote(s[1..]).value + 2
    else RunLength(s)
  }

  /** The token sequence `tokenizeLisp` produces: skip white space, take one
      token, continue on the rest (`s = match.suffix()`). */
  function Lex(s: string): seq<string>
    decreases |s|
  {
    var k := LeadingSpace(s);
    if k == |s| then []
    else
      var t := s[k..];
      var n := TokenLength(t);
      [t[..n]] + Lex(t[n..])
  }

  /** `tokenizeLisp` (utils.cpp): repeatedly search the remaining text for
      the next token, append it and continue after it. */
  method TokenizeLisp(input: string) returns (tokens: seq<string>)
    ensures tokens == Lex(input)
  {
    tokens := [];
    var s := input;
    var k := LeadingSpace(s);
    while k < |s|
      invariant k == LeadingSpace(s)
      invariant tokens + Lex(s) == Lex(input)
      decreases |s|
    {
      var rest := s[k..];
      var n := TokenLength(rest);
      Syntax.AppendAssoc(tokens, [rest[..n]], Lex(rest[n..]));
      tokens := tokens + [rest[..n]];
      s := rest[n..];
      k := LeadingSpace(s);
    }
  }

  /** A token of the third alternative: `"`, no `"`, `"`. */
  predicate QuotedToken(t: string) {
    |t| >= 2 && t[0] == '"' && t[|t| - 1] == '"' &&
    forall j :: 0 < j < |t| - 1 ==> t[j] != '"'
  }

  /** A token of the fourth alternative that is not also a quoted literal. */
  predicate RunToken(t: string) {
    |t| >= 1 && !QuotedToken(t) &&
    forall j :: 0 <= j < |t| ==> !IsSpace(t[j]) && !IsParen(t[j])
  }

  predicate WellFormedToken(t: string) {
    t == "(" || t == ")" || QuotedToken(t) || RunToken(t)
  }

  /** The first alternative that matches wins: at a `"`, the quoted-literal
      alternative takes the token exactly when a closing `"` follows somewhere
      later in the text, across white space and parentheses alike; only an
      unterminated `"` falls through to the run alternative. */
  lemma {:induction false} QuoteFirstWins(s: string)
    requires |s| > 0 && s[0] == '"'
    ensures |Lex(s)| > 0
    ensures QuotedToken(Lex(s)[0]) <==> exists j :: 0 < j < |s| && s[j] == '"'
  {
    assert LeadingSpace(s) == 0;
    var n := TokenLength(s);
    var tok := s[..n];
    assert Lex(s)[0] == tok;
    match FindQuote(s[1..])
    case Some(q) =>
      assert s[q + 1] == s[1..][q];
      assert forall j :: 0 < j < n - 1 ==> tok[j] == s[1..][j - 1];
    case None =>
      forall j | 0 < j < |s|
        ensures s[j] != '"'
      {
        assert s[j] == s[1..][j - 1];
      }
  }

  lemma {:induction false} FirstTokenKind(t: string)
    requires |t| > 0 && !IsSpace(t[0])
    ensures WellFormedToken(t[..TokenLength(t)])
  {
    var n := TokenLength(t);
    var tok := t[..n];
    if IsParen(t[0]) {
      assert tok == [t[0]];
    } else if t[0] == '"' && FindQuote(t[1..]).Some? {
      var q := FindQuote(t[1..]).value;
      assert forall j :: 0 < j < n - 1 ==> tok[j] == t[1..][j - 1];
    } else {
      if |tok| >= 2 && tok[0] == '"' {
        assert t[1..][n - 2] == tok[n - 1];
      }
    }
  }

  /** Every token `tokenizeLisp` returns is `(`, `)`, a quoted literal with no
      inner `"`, or a non-empty run free of white space and parentheses. An
      unterminated `"` therefore ends up inside a run token, never in an error. */
  lemma {:induction false} LexTokenKinds(s: string)
    ensures forall i :: 0 <= i < |Lex(s)| ==> WellFormedToken(Lex(s)[i])
    decreases |s|
  {
    var k := LeadingSpace(s);
    if k < |s| {
      var t := s[k..];
      FirstTokenKind(t);
      LexTokenKinds(t[TokenLength(t)..]);
    }
  }

  /** Only white space yields no token at all. */
  lemma {:induction false} LexEmpty(s: string)
    ensures Lex(s) == [] <==> AllSpace(s)
  {
    var k := LeadingSpace(s);
    if k < |s| {
      assert !IsSpace(s[k]);
    }
  }

  /** The white-space gaps around the tokens of `s`. */
  function Gaps(s: string): seq<string>
    decreases |s|
  {
    var k := LeadingSpace(s);
    if k == |s| then [s]
    else
      var t := s[k..];
      [s[..k]] + Gaps(t[TokenLength(t)..])
  }

  /** `g0 + t0 + g1 + t1 + ... + gn`. */
  function Interleave(gaps: seq<string>, toks: seq<string>): string
    requires |gaps| == |toks| + 1
  {
    if |toks| == 0 then gaps[0]
    else gaps[0] + (toks[0] + Interleave(gaps[1..], toks[1..]))
  }

  lemma {:induction false} GapsShape(s: string)
    ensures |Gaps(s)| == |Lex(s)| + 1
    ensures forall i :: 0 <= i < |Gaps(s)| ==> AllSpace(Gaps(s)[i])
    decreases |s|
  {
    var k := LeadingSpace(s);
    assert AllSpace(s[..k]) by {
      forall j | 0 <= j < k ensures IsSpace(s[..k][j]) {
        assert s[..k][j] == s[j];
      }
    }
    if k < |s| {
      var t := s[k..];
      var u := t[TokenLength(t)..];
      GapsShape(u);
      var g := Gaps(s);
      assert g == [s[..k]] + Gaps(u);
      assert |Lex(s)| == 1 + |Lex(u)|;
      forall i | 0 <= i < |g| ensures AllSpace(g[i]) {
        if i > 0 {
          assert g[i] == Gaps(u)[i - 1];
        }
      }
    }
  }

  /** The input is exactly its tokens, in order and without overlap, separated
      by runs of white space (possibly empty): nothing but white space is ever
      dropped. */
  lemma {:induction false} LexCoversInput(s: string)
    ensures |Gaps(s)| == |Lex(s)| + 1
    ensures forall i :: 0 <= i < |Gaps(s)| ==> AllSpace(Gaps(s)[i])
    ensures Interleave(Gaps(s), Lex(s)) == s
  {
    GapsShape(s);
    GapsInterleave(s);
  }

  lemma {:induction false} InterleaveCons(g: string, gaps: seq<string>, t: string, toks: seq<string>)
    requires |gaps| == |toks| + 1
    ensures Interleave([g] + gaps, [t] + toks) == g + (t + Interleave(gaps, toks))
  {
    assert ([g] + gaps)[1..] == gaps && ([t] + toks)[1..] == toks;
  }

  lemma {:induction false} GapsInterleave(s: string)
    ensures |Gaps(s)| == |Lex(s)| + 1
    ensures Interleave(Gaps(s), Lex(s)) == s
    decreases |s|
  {
    var k := LeadingSpace(s);
    if k < |s| {
      var t := s[k..];
      var n := TokenLength(t);
      var u := t[n..];
      GapsInterleave(u);
      assert Gaps(s) == [s[..k]] + Gaps(u);
      assert Lex(s) == [t[..n]] + Lex(u);
      InterleaveCons(s[..k], Gaps(u), t[..n], Lex(u));
      assert t[..n] + u == t;
      assert s[..k] + t == s;
    }
  }

  /** A `"` with no closing `"` after it does not start a quoted literal: the
      text becomes one ordinary run token and the tokenizer does not fail. */
  lemma {:induction false} UnterminatedQuote(s: string)
    requires |s| >= 1 && s[0] == '"'
    requires forall j :: 1 <= j < |s| ==> s[j] != '"' && !IsSpace(s[j]) && !IsParen(s[j])
    ensures Lex(s) == [s]
    ensures RunToken(s)
  {
    assert FindQuote(s[1..]).None? by {
      assert forall j :: 0 <= j < |s| - 1 ==> s[1..][j] == s[j + 1];
    }
    assert RunLength(s) == |s|;
    assert s[..|s|] == s && s[|s|..] == "";
    assert Lex("") == [];
  }

  /** Leading white space never changes the tokens. */
  lemma {:induction false} LeadingSpaceAppend(w: string, s: string)
    requires AllSpace(w)
    ensures LeadingSpace(w + s) == |w| + LeadingSpace(s)
    decreases |w|
  {
    if |w| > 0 {
      var x := w + s;
      assert x[0] == w[0] && x[1..] == w[1..] + s;
      LeadingSpaceAppend(w[1..], s);
    } else {
      assert w + s == s;
    }
  }

  lemma {:induction false} LexSkipsSpace(w: string, s: string)
    requires AllSpace(w)
    ensures Lex(w + s) == Lex(s)
  {
    LeadingSpaceAppend(w, s);
    var k := LeadingSpace(s);
    if k < |s| {
      assert (w + s)[|w| + k..] == s[k..];
    }
  }

  /** Tokens that read back unchanged when written out with spaces: runs must
      not contain `"` (a run starting with `"` only arises when no later `"`
      exists, which a following quoted token would contradict). */
  predicate Printable(t: string) {
    t == "(" || t == ")" || QuotedToken(t) || (RunToken(t) && '"' !in t)
  }

  lemma {:induction false} FirstTokenOf(t: string, rest: string)
    requires Printable(t)
    requires |rest| == 0 || IsSpace(rest[0])
    ensures LeadingSpace(t + rest) == 0
    ensures TokenLength(t + rest) == |t|
  {
    var x := t + rest;
    assert x[0] == t[0];
    if QuotedToken(t) {
      var y := x[1..];
      assert y[|t| - 2] == '"';
      assert forall j :: 0 <= j < |t| - 2 ==> y[j] == t[j + 1];
    } else if RunToken(t) && '"' !in t {
      assert t[0] in t;
      assert x[0] != '"';
      assert forall j :: 0 <= j < |t| ==> x[j] == t[j];
      assert |rest| > 0 ==> x[|t|] == rest[0];
      assert RunLength(x) == |t|;
    }
  }

  /** A printable token followed by white space or nothing is read first. */
  lemma {:induction false} LexFirst(t: string, rest: string)
    requires Printable(t)
    requires |rest| == 0 || IsSpace(rest[0])
    ensures Lex(t + rest) == [t] + Lex(rest)
  {
    FirstTokenOf(t, rest);
    var x := t + rest;
    assert x[0..] == x;
    assert x[..|t|] == t && x[|t|..] == rest;
  }

  /** Writing printable tokens separated by single spaces and tokenizing the
      text gives the same tokens back. */
  lemma {:induction false} LexJoin(toks: seq<string>)
    requires forall i :: 0 <= i < |toks| ==> Printable(toks[i])
    ensures Lex(Syntax.Join(toks)) == toks
  {
    if |toks| == 0 {
      assert Lex("") == [];
    } else if |toks| == 1 {
      LexFirst(toks[0], "");
      assert toks[0] + "" == toks[0];
      assert Lex("") == [];
    } else {
      var t, more := toks[0], Syntax.Join(toks[1..]);
      assert Syntax.Join(toks) == t + (" " + more);
      LexFirst(t, " " + more);
      LexSkipsSpace(" ", more);
      LexJoin(toks[1..]);
      assert toks == [t] + toks[1..];
    }
  }

  // ---------------------------------------------------------------------------
  // areParenthesesBalanced

  /** A `"` not preceded by a backslash toggles the in-string state. */
  predicate UnescapedQuote(s: string, i: nat)
    requires i < |s|
  {
    s[i] == '"' && (i == 0 || s[i - 1] != '\\')
  }

  /** Number of unescaped quotes among the first `k` characters. */
  function QuoteCount(s: string, k: nat): nat
    requires k <= |s|
  {
    if k == 0 then 0 else QuoteCount(s, k - 1) + (if UnescapedQuote(s, k - 1) then 1 else 0)
  }

  /** Character `i` is counted: after its own toggle, an even number of
      unescaped quotes has been seen. */
  predicate Counted(s: string, i: nat)
    requires i < |s|
  {
    QuoteCount(s, i + 1) % 2 == 0
  }

  /** Counted `(` among the first `k` characters. */
  function Opens(s: string, k: nat): nat
    requires k <= |s|
  {
    if k == 0 then 0 else Opens(s, k - 1) + (if s[k - 1] == '(' && Counted(s, k - 1) then 1 else 0)
  }

  /** Counted `)` among the first `k` characters. */
  function Closes(s: string, k: nat): nat
    requires k <= |s|
  {
    if k == 0 then 0 else Closes(s, k - 1) + (if s[k - 1] == ')' && Counted(s, k - 1) then 1 else 0)
  }

  /** Balanced outside string literals: no prefix closes more than it opens,
      and the whole text opens as many as it closes. */
  predicate Balanced(s: string) {
    (forall k :: 0 <= k <= |s| ==> Closes(s, k) <= Opens(s, k)) &&
    Opens(s, |s|) == Closes(s, |s|)
  }

  /** `areParenthesesBalanced` (utils.cpp). */
  method AreParenthesesBalanced(input: string) returns (b: bool)
    ensures b == Balanced(input)
  {
    var openCount := 0;
    var inString := false;
    var i := 0;
    while i < |input|
      invariant 0 <= i <= |input|
      invariant inString == (QuoteCount(input, i) % 2 == 1)
      invariant openCount == Opens(input, i) - Closes(input, i)
      invariant forall k :: 0 <= k <= i ==> Closes(input, k) <= Opens(input, k)
    {
      var ch := input[i];
      if ch == '"' && (i == 0 || input[i - 1] != '\\') {
        inString := !inString;
      }
      if !inString {
        if ch == '(' {
          openCount := openCount + 1;
        } else if ch == ')' {
          openCount := openCount - 1;
          if openCount < 0 {
            assert Closes(input, i + 1) > Opens(input, i + 1);
            return false;
          }
        }
      }
      i := i + 1;
    }
    return openCount == 0;
  }

  lemma {:induction false} UnbalancedExample()
    ensures !Balanced("(+ 1 2")
  {
    assert Opens("(+ 1 2", 6) == 1;
    assert Closes("(+ 1 2", 6) == 0;
  }

  lemma {:induction false} BalancedExample()
    ensures Balanced("(+ 1 (* 2 3))")
  {
    var s := "(+ 1 (* 2 3))";
    assert |s| == 13;
    assert Opens(s, 0) == 0 && Closes(s, 0) == 0;
    assert Opens(s, 1) == 1 && Closes(s, 1) == 0;
    assert Opens(s, 2) == 1 && Closes(s, 2) == 0;
    assert Opens(s, 3) == 1 && Closes(s, 3) == 0;
    assert Opens(s, 4) == 1 && Closes(s, 4) == 0;
    assert Opens(s, 5) == 1 && Closes(s, 5) == 0;
    assert Opens(s, 6) == 2 && Closes(s, 6) == 0;
    assert Opens(s, 7) == 2 && Closes(s, 7) == 0;
    assert Opens(s, 8) == 2 && Closes(s, 8) == 0;
    assert Opens(s, 9) == 2 && Closes(s, 9) == 0;
    assert Opens(s, 10) == 2 && Closes(s, 10) == 0;
    assert Opens(s, 11) == 2 && Closes(s, 11) == 0;
    assert Opens(s, 12) == 2 && Closes(s, 12) == 1;
    assert Opens(s, 13) == 2 && Closes(s, 13) == 2;
  }

  /** A parenthesis inside a string literal is not counted. */
  lemma {:induction false} QuotedParenExample()
    ensures Balanced("(f \"(\")")
  {
    var s := "(f \"(\")";
    assert |s| == 7;
    assert Opens(s, 0) == 0 && Closes(s, 0) == 0;
    assert Opens(s, 1) == 1 && Closes(s, 1) == 0;
    assert Opens(s, 2) == 1 && Closes(s, 2) == 0;
    assert Opens(s, 3) == 1 && Closes(s, 3) == 0;
    assert QuoteCount(s, 4) == 1;
    assert Opens(s, 4) == 1 && Closes(s, 4) == 0;
    assert QuoteCount(s, 5) == 1;
    assert Opens(s, 5) == 1 && Closes(s, 5) == 0;
    assert QuoteCount(s, 6) == 2;
    assert Opens(s, 6) == 1 && Closes(s, 6) == 0;
    assert QuoteCount(s, 7) == 2;
    assert Opens(s, 7) == 1 && Closes(s, 7) == 1;
  }
}
