/** `ListObject::parse_tokens` (listobject.cpp) over a token cursor.

    The cursor class of tokenstream.h is not part of this model; it is
    represented by `TokenStream` below, a token sequence with a position and
    the three operations the parser uses: `hasNext`, `peek` and `next`. */
module Reader {
  import opened Results
  import opened Syntax

  /** The token cursor the parser advances. */
  class TokenStream {
    const tokens: seq<string>
    var pos: nat

    ghost predicate Valid()
      reads this
    {
      pos <= |tokens|
    }

    constructor (tokens: seq<string>)
      ensures Valid() && this.tokens == tokens && pos == 0
    {
      this.tokens := tokens;
      pos := 0;
    }

    function HasNext(): (b: bool)
      reads this
      ensures b <==> pos < |tokens|
    {
      pos < |tokens|
    }

    function Peek(): (t: string)
      reads this
      requires HasNext()
      ensures t == tokens[pos]
    {
      tokens[pos]
    }

    method Next() returns (t: string)
      requires Valid() && HasNext()
      modifies this
      ensures Valid()
      ensures t == tokens[old(pos)] && pos == old(pos) + 1
    {
      t := tokens[pos];
      pos := pos + 1;
    }
  }

  /** ASCII `::toupper` of the C locale. */
  function UpperChar(c: char): char
  {
    if 'a' <= c <= 'z' then (c as int - 32) as char else c
  }

  function Upper(s: string): (r: string)
    ensures |r| == |s|
  {
    seq(|s|, i requires 0 <= i < |s| => UpperChar(s[i]))
  }

  /** The atom text the parser builds from a non-parenthesis token: a quoted
      literal verbatim, anything else upper-cased. */
  function NormalizeAtom(t: string): (a: string)
    ensures IsQuoted(t) ==> a == t
    ensures |a| == |t|
    ensures !IsQuoted(t) ==> forall i :: 0 <= i < |t| ==>
      (('a' <= t[i] <= 'z') ==> a[i] as int == t[i] as int - 32) &&
      (!('a' <= t[i] <= 'z') ==> a[i] == t[i])
  {
    if IsQuoted(t) then t else Upper(t)
  }

  /** Normalising twice changes nothing: every parsed atom is already in its
      normal form, so `define` and `DEFINE` name the same thing. */
  lemma {:induction false} NormalizeIdempotent(t: string)
    ensures NormalizeAtom(NormalizeAtom(t)) == NormalizeAtom(t)
  {
    var u := Upper(t);
    assert |t| >= 2 ==> u[0] == UpperChar(t[0]) && u[|u| - 1] == UpperChar(t[|t| - 1]);
    assert IsQuoted(u) <==> IsQuoted(t);
    assert Upper(u) == u;
  }

  /** A parsed atom is never the lower-case `else` that COND looks for. */
  lemma {:induction false} NormalizeNeverLowerElse(t: string)
    ensures NormalizeAtom(t) != "else"
  {
    if |t| > 0 {
      assert NormalizeAtom(t)[0] != 'e';
    }
  }

  /** The outcome of a parse: the node or the failure, and where the cursor
      stands afterwards. */
  datatype Parsed = Parsed(result: Result<Node>, next: nat)

  /** `parse_tokens` as a function of the token sequence and the cursor. */
  function ParseForm(toks: seq<string>, p: nat): (r: Parsed)
    requires p <= |toks|
    ensures p <= r.next <= |toks|
    ensures r.result.Ok? ==> p < r.next
    decreases |toks| - p, 0
  {
    if p == |toks| then Parsed(Err(UnexpectedEnd), p)
    else if toks[p] == "(" then ParseItems(toks, p + 1, [])
    else if toks[p] == ")" then Parsed(Err(UnexpectedClose), p + 1)
    else Parsed(Ok(Atom(NormalizeAtom(toks[p]))), p + 1)
  }

  /** The loop of `parse_tokens` after an opening `(`: children are parsed
      while a token other than `)` remains. */
  function ParseItems(toks: seq<string>, p: nat, acc: seq<Node>): (r: Parsed)
    requires p <= |toks|
    ensures p <= r.next <= |toks|
    ensures r.result.Ok? ==> p < r.next
    decreases |toks| - p, 1
  {
    if p < |toks| && toks[p] != ")" then
      var c := ParseForm(toks, p);
      if c.result.Err? then c
      else ParseItems(toks, c.next, acc + [c.result.value])
    else if p == |toks| then Parsed(Err(MissingClose), p)
    else Parsed(Ok(List(acc)), p + 1)
  }

  /** `parse_tokens` (listobject.cpp): consume one form from the cursor. */
  method ParseTokens(ts: TokenStream) returns (r: Result<Node>)
    requires ts.Valid()
    modifies ts
    ensures ts.Valid()
    ensures ParseForm(ts.tokens, old(ts.pos)) == Parsed(r, ts.pos)
    decreases |ts.tokens| - ts.pos
  {
    if !ts.HasNext() {
      return Err(UnexpectedEnd);
    }
    var token := ts.Next();
    if token == "(" {
      var list: seq<Node> := [];
      while ts.HasNext() && ts.Peek() != ")"
        invariant ts.Valid() && old(ts.pos) < ts.pos
        invariant ParseForm(ts.tokens, old(ts.pos)) == ParseItems(ts.tokens, ts.pos, list)
        decreases |ts.tokens| - ts.pos
      {
        var child := ParseTokens(ts);
        if child.Err? {
          return Err(child.error);
        }
        list := list + [child.value];
      }
      if !ts.HasNext() {
        return Err(MissingClose);
      }
      var _ := ts.Next();
      return Ok(List(list));
    } else if token == ")" {
      return Err(UnexpectedClose);
    } else {
      return Ok(Atom(NormalizeAtom(token)));
    }
  }

  // ---------------------------------------------------------------------------
  // Round trip between nodes and token sequences

  /** The tokens that spell a node: an atom is its own token, a list is `(`,
      its children's tokens and `)`. */
  function TokensOf(n: Node): seq<string>
  {
    match n
    case Atom(a) => [a]
    case List(items) => ["("] + TokensOfAll(items) + [")"]
  }

  function TokensOfAll(items: seq<Node>): seq<string>
  {
    if |items| == 0 then [] else TokensOf(items[0]) + TokensOfAll(items[1..])
  }

  /** A node the parser can produce: no atom is a parenthesis token and every
      atom is already normalised. */
  predicate Readable(n: Node)
  {
    match n
    case Atom(a) => a != "(" && a != ")" && NormalizeAtom(a) == a
    case List(items) => forall i :: 0 <= i < |items| ==> Readable(items[i])
  }

  /** A slice that spells `x + y` splits into a slice spelling `x` followed
      by one spelling `y`. */
  lemma {:induction false} SliceSplits<T>(s: seq<T>, a: nat, x: seq<T>, y: seq<T>)
    requires a + |x| + |y| <= |s| && s[a..a + |x| + |y|] == x + y
    ensures s[a..a + |x|] == x && s[a + |x|..a + |x| + |y|] == y
  {
    forall i | 0 <= i < |x| ensures s[a..a + |x|][i] == x[i] {
      assert s[a + i] == s[a..a + |x| + |y|][i] == (x + y)[i];
    }
    forall i | 0 <= i < |y| ensures s[a + |x|..a + |x| + |y|][i] == y[i] {
      assert s[a + |x| + i] == s[a..a + |x| + |y|][|x| + i] == (x + y)[|x| + i];
    }
  }

  /** Adjacent slices concatenate. */
  lemma {:induction false} SliceJoins<T>(s: seq<T>, a: nat, b: nat, c: nat)
    requires a <= b <= c <= |s|
    ensures s[a..b] + s[b..c] == s[a..c]
  {
    assert |s[a..b] + s[b..c]| == |s[a..c]|;
    forall i | 0 <= i < c - a ensures (s[a..b] + s[b..c])[i] == s[a..c][i] {
      if i < b - a {
        assert (s[a..b] + s[b..c])[i] == s[a..b][i];
      } else {
        assert (s[a..b] + s[b..c])[i] == s[b..c][i - (b - a)];
      }
    }
  }

  lemma {:induction false} TokensOfAllCons(x: Node, rest: seq<Node>)
    ensures TokensOfAll([x] + rest) == TokensOf(x) + TokensOfAll(rest)
  {
    assert ([x] + rest)[0] == x && ([x] + rest)[1..] == rest;
  }

  /** A slice that spells `(`, `inner`, `)` has its brackets at both ends
      and `inner` between them. */
  lemma {:induction false} BracketSlices(toks: seq<string>, p: nat, inner: seq<string>)
    requires p + |inner| + 2 <= |toks| && toks[p..p + |inner| + 2] == ["("] + inner + [")"]
    ensures toks[p] == "(" && toks[p + 1 + |inner|] == ")"
    ensures toks[p + 1..p + 1 + |inner|] == inner
  {
    SliceSplits(toks, p, ["("] + inner, [")"]);
    SliceSplits(toks, p, ["("], inner);
    assert toks[p] == toks[p..p + 1][0];
    assert toks[p + 1 + |inner|] == toks[p + 1 + |inner|..p + 2 + |inner|][0];
  }

  /** Parsing the tokens of a readable node returns that node and stops right
      after its last token, whatever follows. */
  lemma {:induction false} ParseTokensOf(n: Node, toks: seq<string>, p: nat)
    requires Readable(n)
    requires p + |TokensOf(n)| <= |toks|
    requires toks[p..p + |TokensOf(n)|] == TokensOf(n)
    ensures ParseForm(toks, p) == Parsed(Ok(n), p + |TokensOf(n)|)
    decreases n, 1
  {
    match n
    case Atom(a) =>
      assert toks[p] == toks[p..p + 1][0];
    case List(items) =>
      BracketSlices(toks, p, TokensOfAll(items));
      assert ParseForm(toks, p) == ParseItems(toks, p + 1, []);
      ParseItemsTokensOf(items, [], toks, p + 1);
      assert [] + items == items;
  }

  lemma {:induction false} ParseItemsTokensOf(items: seq<Node>, acc: seq<Node>, toks: seq<string>, p: nat)
    requires forall i :: 0 <= i < |items| ==> Readable(items[i])
    requires p + |TokensOfAll(items)| < |toks|
    requires toks[p..p + |TokensOfAll(items)|] == TokensOfAll(items)
    requires toks[p + |TokensOfAll(items)|] == ")"
    ensures ParseItems(toks, p, acc) == Parsed(Ok(List(acc + items)), p + |TokensOfAll(items)| + 1)
    decreases items, 0
  {
    if |items| == 0 {
      assert acc + items == acc;
    } else {
      var first, rest := TokensOf(items[0]), TokensOfAll(items[1..]);
      assert TokensOfAll(items) == first + rest;
      SliceSplits(toks, p, first, rest);
      ParseTokensOf(items[0], toks, p);
      assert toks[p] == first[0] by {
        assert toks[p] == toks[p..p + |first|][0];
      }
      assert toks[p] != ")" by {
        match items[0]
        case Atom(a) => assert a != ")";
        case List(_) => assert first[0] == "(";
      }
      ParseItemsTokensOf(items[1..], acc + [items[0]], toks, p + |first|);
      assert acc + [items[0]] + items[1..] == acc + items;
    }
  }

  /** The result of mapping `NormalizeAtom` over a token sequence (parentheses
      are left unchanged by it). */
  function NormalizeAll(toks: seq<string>): (r: seq<string>)
    ensures |r| == |toks|
    ensures forall i :: 0 <= i < |toks| ==> r[i] == NormalizeAtom(toks[i])
  {
    seq(|toks|, i requires 0 <= i < |toks| => NormalizeAtom(toks[i]))
  }

  lemma {:induction false} NormalizeAllJoins(a: seq<string>, b: seq<string>)
    ensures NormalizeAll(a + b) == NormalizeAll(a) + NormalizeAll(b)
  {
    var l, r := NormalizeAll(a + b), NormalizeAll(a) + NormalizeAll(b);
    forall i | 0 <= i < |l| ensures l[i] == r[i] {
      if i < |a| {
        assert (a + b)[i] == a[i];
      } else {
        assert (a + b)[i] == b[i - |a|];
      }
    }
  }

  /** Normalising keeps a bracketed token run bracketed. */
  lemma {:induction false} NormalizeBracketed(toks: seq<string>, p: nat, q: nat)
    requires p < q < |toks| && toks[p] == "(" && toks[q] == ")"
    ensures NormalizeAll(toks[p..q + 1]) == ["("] + NormalizeAll(toks[p + 1..q]) + [")"]
  {
    SliceJoins(toks, p, p + 1, q);
    SliceJoins(toks, p, q, q + 1);
    assert toks[p..p + 1] == ["("] && toks[q..q + 1] == [")"];
    NormalizeAllJoins(["("], toks[p + 1..q]);
    NormalizeAllJoins(["("] + toks[p + 1..q], [")"]);
    assert NormalizeAtom("(") == "(" by {
      assert Upper("(")[0] == UpperChar('(');
    }
    assert NormalizeAtom(")") == ")" by {
      assert Upper(")")[0] == UpperChar(')');
    }
    assert NormalizeAll(["("]) == ["("] && NormalizeAll([")"]) == [")"];
  }

  /** Only a parenthesis token normalises to a parenthesis. */
  lemma {:induction false} NormalizeKeepsParens(t: string)
    requires t != "(" && t != ")"
    ensures NormalizeAtom(t) != "(" && NormalizeAtom(t) != ")"
  {
    if |t| == 1 {
      assert !IsQuoted(t) && t == [t[0]];
      assert NormalizeAtom(t)[0] == UpperChar(t[0]);
    }
  }

  /** A successful parse consumes exactly the tokens of one form: the tokens
      between the start and the new cursor, normalised, spell the node, and
      the node is readable. */
  lemma {:induction false} ParseConsumesOneForm(toks: seq<string>, p: nat)
    requires p <= |toks|
    requires ParseForm(toks, p).result.Ok?
    ensures Readable(ParseForm(toks, p).result.value)
    ensures TokensOf(ParseForm(toks, p).result.value) == NormalizeAll(toks[p..ParseForm(toks, p).next])
    decreases |toks| - p, 0
  {
    var r := ParseForm(toks, p);
    if toks[p] == "(" {
      assert r == ParseItems(toks, p + 1, []);
      ParseItemsConsumes(toks, p + 1, []);
      var items := r.result.value.items;
      assert items[0..] == items;
      NormalizeBracketed(toks, p, r.next - 1);
    } else {
      NormalizeIdempotent(toks[p]);
      NormalizeKeepsParens(toks[p]);
      assert toks[p..p + 1] == [toks[p]];
    }
  }

  /** One step of the items loop: if the rest of the list was read from
      `toks[mid..next]` after `acc + [x]`, and `x` was read from
      `toks[p..mid]`, then the list was read from `toks[p..next]` after `acc`. */
  lemma {:induction false} ItemsStep(toks: seq<string>, p: nat, mid: nat, next: nat,
                                     acc: seq<Node>, x: Node, items: seq<Node>)
    requires p <= mid <= next <= |toks|
    requires Readable(x) && TokensOf(x) == NormalizeAll(toks[p..mid])
    requires |items| >= |acc| + 1 && items[..|acc| + 1] == acc + [x]
    requires forall i :: 0 <= i < |items| ==> Readable(items[i])
    requires TokensOfAll(items[|acc| + 1..]) == NormalizeAll(toks[mid..next])
    ensures items[..|acc|] == acc
    ensures TokensOfAll(items[|acc|..]) == NormalizeAll(toks[p..next])
  {
    assert items[..|acc|] == items[..|acc| + 1][..|acc|];
    assert items[|acc|] == items[..|acc| + 1][|acc|];
    assert items[|acc|..] == [x] + items[|acc| + 1..];
    TokensOfAllCons(x, items[|acc| + 1..]);
    SliceJoins(toks, p, mid, next);
    NormalizeAllJoins(toks[p..mid], toks[mid..next]);
  }

  lemma {:induction false} ParseItemsConsumes(toks: seq<string>, p: nat, acc: seq<Node>)
    requires p <= |toks|
    requires forall i :: 0 <= i < |acc| ==> Readable(acc[i])
    requires ParseItems(toks, p, acc).result.Ok?
    ensures ParseItems(toks, p, acc).result.value.List?
    ensures ParseItems(toks, p, acc).next >= p + 1
    ensures toks[ParseItems(toks, p, acc).next - 1] == ")"
    ensures var items := ParseItems(toks, p, acc).result.value.items;
      |items| >= |acc| && items[..|acc|] == acc &&
      (forall i :: 0 <= i < |items| ==> Readable(items[i])) &&
      TokensOfAll(items[|acc|..]) == NormalizeAll(toks[p..ParseItems(toks, p, acc).next - 1])
    decreases |toks| - p, 1
  {
    var r := ParseItems(toks, p, acc);
    if p < |toks| && toks[p] != ")" {
      var c := ParseForm(toks, p);
      ParseConsumesOneForm(toks, p);
      var acc' := acc + [c.result.value];
      assert r == ParseItems(toks, c.next, acc');
      ParseItemsConsumes(toks, c.next, acc');
      ItemsStep(toks, p, c.next, r.next - 1, acc, c.result.value, r.result.value.items);
    } else {
      assert r.result.value.items == acc;
      assert toks[p..p] == [];
    }
  }

  /** `()` parses to the empty list. */
  lemma {:induction false} EmptyListExample()
    ensures ParseForm(["(", ")"], 0) == Parsed(Ok(List([])), 2)
  {
  }

  /** A leading `)` and running out before `)` are the two syntax errors. */
  lemma {:induction false} ParseErrorExamples()
    ensures ParseForm([")"], 0).result == Err(UnexpectedClose)
    ensures ParseForm(["(", "+", "1"], 0).result == Err(MissingClose)
    ensures ParseForm([], 0).result == Err(UnexpectedEnd)
  {
    assert ParseForm(["(", "+", "1"], 0) == ParseItems(["(", "+", "1"], 1, []);
    var toks := ["(", "+", "1"];
    assert toks[1] != "(" && toks[1] != ")" && toks[2] != "(" && toks[2] != ")";
    assert ParseForm(toks, 1).next == 2 && ParseForm(toks, 1).result.Ok?;
    assert ParseForm(toks, 2).next == 3 && ParseForm(toks, 2).result.Ok?;
  }
}
