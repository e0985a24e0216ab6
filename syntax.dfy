/** The S-expression node of listobject.h / listobject.cpp: a variant holding
    either an atom's text or a list of child nodes, with its checked accessors
    and its bracketed printer. */
module Syntax {
  import opened Results

  /** `std::variant<std::string, List>`: an atom (built from a string) or a
      list (built from a vector of children). Nodes never change once built. */
  datatype Node = Atom(name: string) | List(items: seq<Node>)

  /** Text of at least two characters that starts and ends with `"`: the
      shape of a string literal that the reader keeps verbatim and the string
      constructor of `Value` unwraps. */
  predicate IsQuoted(t: string) {
    |t| >= 2 && t[0] == '"' && t[|t| - 1] == '"'
  }

  /** `asAtom`: the atom's text; `std::get` fails on a list. */
  function AsAtom(n: Node): (r: Result<string>)
    ensures r.Ok? <==> n.Atom?
    ensures r.Ok? ==> n == Atom(r.value)
    ensures r.Err? ==> r.error == BadVariantAccess
  {
    if n.Atom? then Ok(n.name) else Err(BadVariantAccess)
  }

  /** `asList`: the children; `std::get` fails on an atom. */
  function AsList(n: Node): (r: Result<seq<Node>>)
    ensures r.Ok? <==> n.List?
    ensures r.Ok? ==> n == List(r.value)
    ensures r.Err? ==> r.error == BadVariantAccess
  {
    if n.List? then Ok(n.items) else Err(BadVariantAccess)
  }

  /** The parts written one after another with a single space between
      neighbours (the `if (i < list.size() - 1) out << " "` of `print`). */
  function Join(parts: seq<string>): string
  {
    if |parts| == 0 then ""
    else if |parts| == 1 then parts[0]
    else parts[0] + " " + Join(parts[1..])
  }

  /** Concatenation is associative. */
  lemma {:induction false} AppendAssoc<T>(a: seq<T>, b: seq<T>, c: seq<T>)
    ensures (a + b) + c == a + (b + c)
  {
  }

  /** A suffix is its first element followed by the next suffix. */
  lemma {:induction false} DropCons<T>(v: seq<T>, i: nat)
    requires i < |v|
    ensures v[i..] == [v[i]] + v[i + 1..]
    ensures v[i..][0] == v[i] && v[i..][1..] == v[i + 1..]
  {
  }

  /** Dropping nothing after an empty prefix is the sequence itself. */
  lemma {:induction false} DropNone<T>(acc: seq<T>, v: seq<T>)
    requires acc == []
    ensures acc + v[0..] == v && v[0..] == v
  {
  }

  /** `print`: an atom is written verbatim, a list as `[`, its children
      separated by single spaces, and `]`. */
  function Print(n: Node): (r: string)
    ensures n.Atom? ==> r == n.name
    ensures n.List? ==> |r| >= 2 && r[0] == '[' && r[|r| - 1] == ']'
  {
    match n
    case Atom(a) => a
    case List(items) =>
      "[" + Join(seq(|items|, i requires 0 <= i < |items| => Print(items[i]))) + "]"
  }

  /** Number of occurrences of `c` in `s`. */
  function Count(s: string, c: char): nat
  {
    if |s| == 0 then 0 else (if s[0] == c then 1 else 0) + Count(s[1..], c)
  }

  /** Number of list nodes in the tree. */
  function ListCount(n: Node): nat
  {
    match n
    case Atom(_) => 0
    case List(items) => 1 + ListCountAll(items)
  }

  function ListCountAll(items: seq<Node>): nat
  {
    if |items| == 0 then 0 else ListCount(items[0]) + ListCountAll(items[1..])
  }

  /** No atom anywhere in the tree contains a bracket character. */
  predicate BracketFree(n: Node)
  {
    match n
    case Atom(a) => '[' !in a && ']' !in a
    case List(items) => forall i :: 0 <= i < |items| ==> BracketFree(items[i])
  }

  lemma {:induction false} CountAppend(a: string, b: string, c: char)
    ensures Count(a + b, c) == Count(a, c) + Count(b, c)
  {
    if |a| > 0 {
      assert (a + b)[1..] == a[1..] + b;
      CountAppend(a[1..], b, c);
    } else {
      assert a + b == b;
    }
  }

  lemma {:induction false} CountAbsent(s: string, c: char)
    requires c !in s
    ensures Count(s, c) == 0
  {
    if |s| > 0 {
      assert s == [s[0]] + s[1..];
      CountAbsent(s[1..], c);
    }
  }

  lemma {:induction false} CountJoin(parts: seq<string>, c: char, total: nat)
    requires c != ' '
    requires total == SumCounts(parts, c)
    ensures Count(Join(parts), c) == total
  {
    if |parts| == 1 {
    } else if |parts| > 1 {
      CountJoin(parts[1..], c, SumCounts(parts[1..], c));
      CountAppend(parts[0] + " ", Join(parts[1..]), c);
      CountAppend(parts[0], " ", c);
      assert Count(" ", c) == 0 by { assert " "[1..] == ""; }
    }
  }

  function SumCounts(parts: seq<string>, c: char): nat
  {
    if |parts| == 0 then 0 else Count(parts[0], c) + SumCounts(parts[1..], c)
  }

  /** Printing writes exactly one `[` and one `]` per list node: brackets are
      never dropped, duplicated or unbalanced (for atoms without brackets). */
  lemma {:induction false} PrintBrackets(n: Node)
    requires BracketFree(n)
    ensures Count(Print(n), '[') == ListCount(n)
    ensures Count(Print(n), ']') == ListCount(n)
    decreases n, 0
  {
    match n
    case Atom(a) =>
      CountAbsent(a, '[');
      CountAbsent(a, ']');
    case List(items) =>
      var parts := seq(|items|, i requires 0 <= i < |items| => Print(items[i]));
      PrintItemsBrackets(items, parts);
      CountJoin(parts, '[', ListCountAll(items));
      CountJoin(parts, ']', ListCountAll(items));
      CountAppend("[" + Join(parts), "]", '[');
      CountAppend("[", Join(parts), '[');
      CountAppend("[" + Join(parts), "]", ']');
      CountAppend("[", Join(parts), ']');
      assert Count("[", '[') == 1 && Count("]", ']') == 1 by {
        assert "["[1..] == "" && "]"[1..] == "";
      }
      assert Count("]", '[') == 0 && Count("[", ']') == 0 by {
        assert "["[1..] == "" && "]"[1..] == "";
      }
  }

  lemma {:induction false} PrintItemsBrackets(items: seq<Node>, parts: seq<string>)
    requires forall i :: 0 <= i < |items| ==> BracketFree(items[i])
    requires |parts| == |items|
    requires forall i :: 0 <= i < |items| ==> parts[i] == Print(items[i])
    ensures SumCounts(parts, '[') == ListCountAll(items)
    ensures SumCounts(parts, ']') == ListCountAll(items)
    decreases items, 1
  {
    if |items| > 0 {
      PrintBrackets(items[0]);
      PrintItemsBrackets(items[1..], parts[1..]);
    }
  }
}
