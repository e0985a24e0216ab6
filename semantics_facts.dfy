/** Properties of the evaluator defined in the Semantics module: how atoms
    are classified, how the head of an application is resolved, which frame
    each special form writes, what the arithmetic, comparison and logic
    primitives compute on number literals, and how procedure bodies see
    their callers' variables. */
module SemanticsFacts {
  import opened Results
  import opened Syntax
  import opened Values
  import opened Scopes
  import opened Classify
  import opened Semantics
  import Lexer
  import Reader

  /** Replacing the innermost frame by itself changes nothing. */
  lemma {:induction false} PutSame(s: Scope)
    requires |s| > 0
    ensures Put(s, s[0]) == s
  {
    assert s == [s[0]] + s[1..];
  }

  // ---------------------------------------------------------------------------
  // Atoms

  /** An atom never changes the frame it is evaluated in. A number literal
      is its value and a quoted atom its string whatever the chain binds, so
      a variable spelled like a literal can never be read back; any other
      atom is the innermost binding of its name, and an unbound one fails
      with the "no such type" failure, not with "variable not found". */
  lemma {:induction false} EvalAtom(host: Host, fuel: nat, name: string, s: Scope)
    requires fuel > 0 && |s| > 0
    ensures Eval(host, fuel, Atom(name), s).top == s[0]
    ensures IsNumeral(name) ==> Eval(host, fuel, Atom(name), s).result == Ok(Number(ParseNumber(name)))
    ensures IsString(Atom(name)) ==> Eval(host, fuel, Atom(name), s).result == Ok(FromString(name))
    ensures !IsNumber(Atom(name)) && !IsBoolean(Atom(name)) && !IsString(Atom(name)) ==>
      Eval(host, fuel, Atom(name), s).result == (if Bound(s, name) then Lookup(s, name) else Err(NoFoundType))
  {
    AtomClassesDisjoint(Atom(name));
  }

  /** The name of a primitive is not a variable: on its own it evaluates to
      the "no such type" failure unless the program has defined it. */
  lemma {:induction false} PrimitiveNameAlone(host: Host, fuel: nat, name: string, s: Scope)
    requires fuel > 0 && |s| > 0 && name in PrimitiveTable && !Bound(s, name)
    ensures Eval(host, fuel, Atom(name), s) == Step(Err(NoFoundType), s[0])
  {
    var b := Unsigned(name);
    assert |b| == 0 || !IsDigit(b[0]);
    assert DigitRun(b) == 0;
    EvalAtom(host, fuel, name, s);
  }

  // ---------------------------------------------------------------------------
  // Application heads

  /** A list headed by the name of a primitive calls that primitive on the
      unevaluated arguments, whatever the chain binds to that name. */
  lemma {:induction false} PrimitiveHeadWins(host: Host, fuel: nat, name: string, args: seq<Node>, s: Scope)
    requires fuel > 0 && |s| > 0 && name in PrimitiveTable
    ensures Eval(host, fuel, List([Atom(name)] + args), s)
         == CallPrimitive(host, fuel - 1, PrimitiveTable[name], args, s)
  {
    var e := List([Atom(name)] + args);
    assert "LAMBDA" !in PrimitiveTable;
    assert !IsLambda(e);
    assert e.items[1..] == args;
    PutSame(s);
  }

  /** A list headed by a variable bound to a procedure (not named like a
      primitive, and not a lambda literal) calls that procedure on the
      unevaluated arguments in the caller's chain; the head is evaluated
      twice, once by `isApplication` and once by `Apply`, with no effect. */
  lemma {:induction false} ProcedureHeadCalls(host: Host, fuel: nat, f: string, params: seq<string>, body: Node,
                                              args: seq<Node>, s: Scope)
    requires fuel > 1 && |s| > 0
    requires f !in PrimitiveTable && !IsNumber(Atom(f)) && !IsBoolean(Atom(f)) && !IsString(Atom(f))
    requires Lookup(s, f) == Ok(Lambda(params, body)) && !IsLambda(List([Atom(f)] + args))
    ensures Eval(host, fuel, List([Atom(f)] + args), s) == CallClosure(host, fuel - 1, params, body, args, s)
  {
    var e := List([Atom(f)] + args);
    assert Bound(s, f);
    EvalAtom(host, fuel - 1, f, s);
    assert e.items[0] == Atom(f) && e.items[1..] == args;
    assert IsApplication(host, fuel - 1, e, s) == Step(Ok(true), s[0]);
    PutSame(s);
    assert ApplyProcedure(host, fuel - 1, Atom(f), args, s) == CallClosure(host, fuel - 1, params, body, args, s);
  }

  /** A list headed by a name that is unbound, or bound to something other
      than a procedure, is not an application: the failure of the head's
      evaluation is swallowed, and the list fails with "No found type". */
  lemma {:induction false} NonProcedureHead(host: Host, fuel: nat, f: string, args: seq<Node>, s: Scope)
    requires fuel > 1 && |s| > 0
    requires f !in PrimitiveTable && !IsNumber(Atom(f)) && !IsBoolean(Atom(f)) && !IsString(Atom(f))
    requires Lookup(s, f).Ok? ==> !Lookup(s, f).value.Lambda?
    requires !IsLambda(List([Atom(f)] + args))
    ensures Eval(host, fuel, List([Atom(f)] + args), s) == Step(Err(NoFoundType), s[0])
  {
    var e := List([Atom(f)] + args);
    EvalAtom(host, fuel - 1, f, s);
    assert e.items[0] == Atom(f);
    assert IsApplication(host, fuel - 1, e, s) == Step(Ok(false), s[0]);
  }

  /** A lambda literal evaluates nothing: it yields a procedure of its
      parameter atoms whose body is the list of the remaining elements. */
  lemma {:induction false} LambdaLiteral(host: Host, fuel: nat, e: Node, s: Scope)
    requires fuel > 0 && |s| > 0 && IsLambda(e)
    ensures Eval(host, fuel, e, s) == Step(Ok(Lambda(LambdaParams(e), List(e.items[2..]))), s[0])
  {
    assert e.List?;
  }

  /** A body that is one variable yields that variable's binding. */
  lemma {:induction false} VariableBody(host: Host, fuel: nat, y: string, s: Scope)
    requires fuel > 0 && |s| > 0 && Bound(s, y)
    requires !IsNumber(Atom(y)) && !IsBoolean(Atom(y)) && !IsString(Atom(y))
    ensures RunBody(host, fuel, List([Atom(y)]), s).result == Lookup(s, y)
  {
    EvalAtom(host, fuel, y, s);
    assert [Atom(y)][0] == Atom(y);
    var v := Eval(host, fuel, Atom(y), s);
    assert EvalSeq(host, fuel, [Atom(y)], 0, Default, s) == EvalSeq(host, fuel, [Atom(y)], 1, v.result.value, Put(s, v.top));
  }

  /** Binding number-literal arguments succeeds, leaves the caller's frame
      as it was, and binds exactly the parameters on top of `frame`. */
  lemma {:induction false} BindNumerals(host: Host, fuel: nat, params: seq<string>, args: seq<Node>,
                                        i: nat, frame: Frame, s: Scope)
    requires fuel > 0 && |s| > 0 && i <= |params| <= |args| && AllNumerals(args)
    ensures var b := BindArgs(host, fuel, params, args, i, frame, s);
      b.top == s[0] && b.result.Ok? &&
      forall k :: k in b.result.value <==> k in frame || k in params[i..]
    decreases |params| - i
  {
    if i < |params| {
      EvalNumeral(host, fuel, args, i, s);
      PutSame(s);
      var v := Number(NumeralValues(args)[i]);
      BindNumerals(host, fuel, params, args, i + 1, frame[params[i] := v], s);
      assert params[i..] == [params[i]] + params[i + 1..];
    }
  }

  /** Procedures are dynamically scoped: a procedure whose body is a
      variable that is not one of its parameters yields that variable's
      binding in the CALLER's chain at the time of the call, whatever number
      of literal arguments it is given. The body runs in a fresh frame on
      top of the caller's chain, so a later redefinition in the caller is
      seen by the next call. */
  lemma {:induction false} DynamicScope(host: Host, fuel: nat, f: string, params: seq<string>, args: seq<Node>,
                                        y: string, s: Scope)
    requires fuel > 1 && |s| > 0
    requires f !in PrimitiveTable && f != "LAMBDA"
    requires !IsNumber(Atom(f)) && !IsBoolean(Atom(f)) && !IsString(Atom(f))
    requires !IsNumber(Atom(y)) && !IsBoolean(Atom(y)) && !IsString(Atom(y)) && Bound(s, y)
    requires Lookup(s, f) == Ok(Lambda(params, List([Atom(y)])))
    requires y !in params && |params| <= |args| && AllNumerals(args)
    ensures Eval(host, fuel, List([Atom(f)] + args), s) == Step(Lookup(s, y), s[0])
  {
    ProcedureHeadCalls(host, fuel, f, params, List([Atom(y)]), args, s);
    BindNumerals(host, fuel - 1, params, args, 0, map[], s);
    var b := BindArgs(host, fuel - 1, params, args, 0, map[], s);
    assert params[0..] == params;
    assert y !in b.result.value;
    PutSame(s);
    var inner: Scope := [b.result.value] + s;
    LookupWalksChain(inner, y);
    assert inner[1..] == s;
    assert Bound(inner, y) by {
      var k := Nearest(s, y);
      assert y in inner[k + 1];
    }
    VariableBody(host, fuel - 1, y, inner);
  }

  // ---------------------------------------------------------------------------
  // Frames written by the special forms

  /** DEFINE writes the frame it runs in: `(DEFINE x e)` evaluates `e`; a
      failure is the outcome as it stands, and a value `v` is the outcome
      with the frame `e` left behind now binding `x` to `v`, so that `x`
      then evaluates to `v`. */
  lemma {:induction false} DefineThenRead(host: Host, fuel: nat, x: string, e: Node, s: Scope)
    requires fuel > 1 && |s| > 0
    requires !IsNumber(Atom(x)) && !IsBoolean(Atom(x)) && !IsString(Atom(x))
    ensures var r := Eval(host, fuel - 1, e, s);
      var d := Eval(host, fuel, List([Atom("DEFINE"), Atom(x), e]), s);
      (r.result.Err? ==> d == r) &&
      (r.result.Ok? ==> d == Step(r.result, r.top[x := r.result.value]) &&
                        Eval(host, fuel, Atom(x), Put(s, d.top)) == Step(r.result, d.top))
  {
    var args := [Atom(x), e];
    assert [Atom("DEFINE")] + args == [Atom("DEFINE"), Atom(x), e];
    PrimitiveHeadWins(host, fuel, "DEFINE", args, s);
    var r := Eval(host, fuel - 1, e, s);
    if r.result.Ok? {
      var s1 := Put(s, r.top);
      assert Put(s1, s1[0][x := r.result.value]) == Put(s, r.top[x := r.result.value]);
      ReadDefined(host, fuel, x, r.result.value, s1);
    }
  }

  /** DEFINE of a number literal binds its value in the innermost frame. */
  lemma {:induction false} DefineNumeral(host: Host, fuel: nat, x: string, n: string, s: Scope)
    requires fuel > 0 && |s| > 0 && IsNumeral(n)
    ensures var v := Number(ParseNumber(n));
      CallPrimitive(host, fuel, DefinePrim, [Atom(x), Atom(n)], s) == Step(Ok(v), s[0][x := v])
  {
    var args := [Atom(x), Atom(n)];
    assert args[1] == Atom(n) && IsNumber(args[1]);
    assert Eval(host, fuel, args[1], s) == Step(Ok(Number(ParseNumber(n))), s[0]);
  }

  /** A name bound in the innermost frame reads back its value. */
  lemma {:induction false} ReadDefined(host: Host, fuel: nat, x: string, v: Value, s: Scope)
    requires fuel > 0 && |s| > 0
    requires !IsNumber(Atom(x)) && !IsBoolean(Atom(x)) && !IsString(Atom(x))
    ensures Eval(host, fuel, Atom(x), Put(s, s[0][x := v])) == Step(Ok(v), s[0][x := v])
  {
    var s1 := Put(s, s[0][x := v]);
    LookupWalksChain(s1, x);
    assert Bound(s1, x) by { assert x in s1[0]; }
    EvalAtom(host, fuel, x, s1);
  }

  /** BEGIN runs its body in a fresh frame: whatever the body defines, the
      caller's frame is unchanged afterwards. */
  lemma {:induction false} BeginKeepsFrame(host: Host, fuel: nat, body: seq<Node>, s: Scope)
    requires fuel > 0 && |s| > 0
    ensures Eval(host, fuel, List([Atom("BEGIN")] + body), s).top == s[0]
  {
    PrimitiveHeadWins(host, fuel, "BEGIN", body, s);
  }

  // ---------------------------------------------------------------------------
  // Arithmetic on number literals

  /** Every argument is a number literal. */
  predicate AllNumerals(args: seq<Node>) {
    forall k :: 0 <= k < |args| ==> IsNumber(args[k])
  }

  /** The values of number-literal arguments. */
  function NumeralValues(args: seq<Node>): (xs: seq<real>)
    requires AllNumerals(args)
    ensures |xs| == |args|
    ensures forall k :: 0 <= k < |args| ==> xs[k] == ParseNumber(args[k].name)
  {
    seq(|args|, k requires 0 <= k < |args| => ParseNumber(args[k].name))
  }

  /** `acc op x0 op x1 ...`, left to right. */
  function FoldReals(op: Arith, acc: real, xs: seq<real>): real
    requires op == Div ==> forall k :: 0 <= k < |xs| ==> xs[k] != 0.0
    decreases |xs|
  {
    if |xs| == 0 then acc else FoldReals(op, Combine(op, acc, xs[0]), xs[1..])
  }

  /** A number literal evaluates to its value and leaves the frame alone. */
  lemma {:induction false} EvalNumeral(host: Host, fuel: nat, args: seq<Node>, i: nat, s: Scope)
    requires fuel > 0 && |s| > 0 && i < |args| && AllNumerals(args)
    ensures Eval(host, fuel, args[i], s) == Step(Ok(Number(NumeralValues(args)[i])), s[0])
  {
    assert IsNumber(args[i]);
  }

  /** One turn of the accumulator loop over a number literal that is not a
      zero divisor: its value is combined into the accumulator. */
  lemma {:induction false} FoldStepNumeral(host: Host, fuel: nat, op: Arith, args: seq<Node>, i: nat, acc: real, s: Scope)
    requires fuel > 0 && |s| > 0 && i < |args| && AllNumerals(args)
    requires op == Div ==> NumeralValues(args)[i] != 0.0
    ensures FoldFrom(host, fuel, op, args, i, acc, s)
         == FoldFrom(host, fuel, op, args, i + 1, Combine(op, acc, NumeralValues(args)[i]), s)
  {
    EvalNumeral(host, fuel, args, i, s);
    PutSame(s);
  }

  /** A literal zero divisor stops the loop. */
  lemma {:induction false} FoldStepZero(host: Host, fuel: nat, args: seq<Node>, i: nat, acc: real, s: Scope)
    requires fuel > 0 && |s| > 0 && i < |args| && AllNumerals(args) && NumeralValues(args)[i] == 0.0
    ensures FoldFrom(host, fuel, Div, args, i, acc, s) == Step(Err(DivisionByZero), s[0])
  {
    EvalNumeral(host, fuel, args, i, s);
  }

  /** The accumulator loop over number literals folds their values and
      leaves the frame alone. */
  lemma {:induction false} FoldNumerals(host: Host, fuel: nat, op: Arith, args: seq<Node>, i: nat, acc: real, s: Scope)
    requires fuel > 0 && |s| > 0 && i <= |args| && AllNumerals(args)
    requires op == Div ==> forall k :: i <= k < |args| ==> NumeralValues(args)[k] != 0.0
    ensures FoldFrom(host, fuel, op, args, i, acc, s)
         == Step(Ok(Number(FoldReals(op, acc, NumeralValues(args)[i..]))), s[0])
    decreases |args| - i
  {
    var xs := NumeralValues(args);
    if i < |args| {
      FoldStepNumeral(host, fuel, op, args, i, acc, s);
      DropCons(xs, i);
      FoldNumerals(host, fuel, op, args, i + 1, Combine(op, acc, xs[i]), s);
    }
  }

  /** A literal zero among the divisors fails the loop. */
  lemma {:induction false} FoldZeroDivisor(host: Host, fuel: nat, args: seq<Node>, i: nat, acc: real, s: Scope, z: nat)
    requires fuel > 0 && |s| > 0 && i <= z < |args| && AllNumerals(args)
    requires NumeralValues(args)[z] == 0.0
    ensures FoldFrom(host, fuel, Div, args, i, acc, s) == Step(Err(DivisionByZero), s[0])
    decreases |args| - i
  {
    var x := NumeralValues(args)[i];
    if x == 0.0 {
      FoldStepZero(host, fuel, args, i, acc, s);
    } else {
      assert i < z;
      var acc' := Combine(Div, acc, x);
      FoldStepNumeral(host, fuel, Div, args, i, acc, s);
      FoldZeroDivisor(host, fuel, args, i + 1, acc', s, z);
    }
  }

  /** `+` and `*` on number literals: the sum from 0 and the product from 1;
      the frame is untouched. */
  lemma {:induction false} SumAndProductOfNumerals(host: Host, fuel: nat, op: Arith, args: seq<Node>, s: Scope)
    requires fuel > 0 && |s| > 0 && AllNumerals(args) && (op == Add || op == Mul)
    ensures CallPrimitive(host, fuel, ArithPrim(op), args, s)
         == Step(Ok(Number(FoldReals(op, if op == Add then 0.0 else 1.0, NumeralValues(args)))), s[0])
  {
    FoldNumerals(host, fuel, op, args, 0, if op == Add then 0.0 else 1.0, s);
    DropNone([], NumeralValues(args));
  }

  /** `-` and `/` on number literals after the first operand: the rest are
      folded into it. */
  lemma {:induction false} MinusDivFirst(host: Host, fuel: nat, op: Arith, args: seq<Node>, s: Scope)
    requires fuel > 0 && |s| > 0 && AllNumerals(args) && |args| >= 2 && (op == Sub || op == Div)
    ensures StdMinusDiv(host, fuel, op, args, s) == FoldFrom(host, fuel, op, args, 1, NumeralValues(args)[0], s)
  {
    EvalNumeral(host, fuel, args, 0, s);
    PutSame(s);
  }

  /** `-` on number literals: an operand is needed, one operand is negated,
      more are subtracted from the first left to right; the frame is
      untouched. */
  lemma {:induction false} MinusOfNumerals(host: Host, fuel: nat, args: seq<Node>, s: Scope)
    requires fuel > 0 && |s| > 0 && AllNumerals(args)
    ensures var xs := NumeralValues(args);
      var r := StdMinusDiv(host, fuel, Sub, args, s);
      r.top == s[0] &&
      (|xs| == 0 ==> r.result == Err(Arity("-"))) &&
      (|xs| == 1 ==> r.result == Ok(Number(-xs[0]))) &&
      (|xs| >= 2 ==> r.result == Ok(Number(FoldReals(Sub, xs[0], xs[1..]))))
  {
    if |args| == 1 {
      EvalNumeral(host, fuel, args, 0, s);
    } else if |args| >= 2 {
      MinusDivFirst(host, fuel, Sub, args, s);
      FoldNumerals(host, fuel, Sub, args, 1, NumeralValues(args)[0], s);
    }
  }

  /** `/` on number literals: an operand is needed; one operand is
      inverted, and fails when it is zero; more divide the first left to
      right, and fail when any but the first is zero (a zero dividend is
      fine); the frame is untouched. */
  lemma {:induction false} DivideOfNumerals(host: Host, fuel: nat, args: seq<Node>, s: Scope)
    requires fuel > 0 && |s| > 0 && AllNumerals(args)
    ensures var xs := NumeralValues(args);
      var r := StdMinusDiv(host, fuel, Div, args, s);
      r.top == s[0] &&
      (|xs| == 0 ==> r.result == Err(Arity("/"))) &&
      (|xs| == 1 ==> r.result == if xs[0] == 0.0 then Err(DivisionByZero) else Ok(Number(1.0 / xs[0]))) &&
      (|xs| >= 2 && (exists k :: 1 <= k < |xs| && xs[k] == 0.0) ==> r.result == Err(DivisionByZero)) &&
      (|xs| >= 2 && (forall k :: 1 <= k < |xs| ==> xs[k] != 0.0) ==>
         r.result == Ok(Number(FoldReals(Div, xs[0], xs[1..]))))
  {
    var xs := NumeralValues(args);
    if |args| == 1 {
      EvalNumeral(host, fuel, args, 0, s);
    } else if |args| >= 2 {
      MinusDivFirst(host, fuel, Div, args, s);
      if exists k :: 1 <= k < |xs| && xs[k] == 0.0 {
        var k :| 1 <= k < |xs| && xs[k] == 0.0;
        FoldZeroDivisor(host, fuel, args, 1, xs[0], s, k);
      } else {
        FoldNumerals(host, fuel, Div, args, 1, xs[0], s);
      }
    }
  }

  /** The empty sum is 0 and the empty product 1. */
  lemma {:induction false} EmptySumAndProduct(host: Host, fuel: nat, s: Scope)
    requires fuel > 1 && |s| > 0
    ensures Eval(host, fuel, List([Atom("+")]), s) == Step(Ok(Number(0.0)), s[0])
    ensures Eval(host, fuel, List([Atom("*")]), s) == Step(Ok(Number(1.0)), s[0])
  {
    assert [Atom("+")] + [] == [Atom("+")];
    assert [Atom("*")] + [] == [Atom("*")];
    PrimitiveHeadWins(host, fuel, "+", [], s);
    PrimitiveHeadWins(host, fuel, "*", [], s);
    SumAndProductOfNumerals(host, fuel - 1, Add, [], s);
    SumAndProductOfNumerals(host, fuel - 1, Mul, [], s);
  }

  // ---------------------------------------------------------------------------
  // Comparison and logic on number literals

  /** The values of number-literal arguments, as values. */
  function NumeralNumbers(args: seq<Node>): (vs: seq<Value>)
    requires AllNumerals(args)
    ensures |vs| == |args|
    ensures forall k :: 0 <= k < |args| ==> vs[k] == Number(NumeralValues(args)[k])
  {
    seq(|args|, k requires 0 <= k < |args| => Number(ParseNumber(args[k].name)))
  }

  /** One turn of the evaluation loop over a number literal. */
  lemma {:induction false} EvalAllStepNumeral(host: Host, fuel: nat, args: seq<Node>, i: nat, acc: seq<Value>, s: Scope)
    requires fuel > 0 && |s| > 0 && i < |args| && AllNumerals(args)
    ensures EvalAll(host, fuel, args, i, acc, s) == EvalAll(host, fuel, args, i + 1, acc + [NumeralNumbers(args)[i]], s)
  {
    EvalNumeral(host, fuel, args, i, s);
    PutSame(s);
  }

  /** Evaluating number literals one after another collects their values
      and leaves the frame alone. */
  lemma {:induction false} EvalAllNumerals(host: Host, fuel: nat, args: seq<Node>, i: nat, acc: seq<Value>, s: Scope)
    requires fuel > 0 && |s| > 0 && i <= |args| && AllNumerals(args)
    ensures EvalAll(host, fuel, args, i, acc, s) == Step(Ok(acc + NumeralNumbers(args)[i..]), s[0])
    decreases |args| - i
  {
    var vs := NumeralNumbers(args);
    if i < |args| {
      var acc' := acc + [vs[i]];
      EvalAllStepNumeral(host, fuel, args, i, acc, s);
      DropCons(vs, i);
      AppendAssoc(acc, [vs[i]], vs[i + 1..]);
      assert acc + vs[i..] == acc' + vs[i + 1..];
      EvalAllNumerals(host, fuel, args, i + 1, acc', s);
    } else {
      assert vs[i..] == [];
      assert acc + vs[i..] == acc;
    }
  }

  /** `>`, `<`, `>=` and `<=` on number literals hold when each adjacent
      pair is in order; the frame is untouched. */
  lemma {:induction false} CompareNumerals(host: Host, fuel: nat, c: Cmp, args: seq<Node>, s: Scope)
    requires fuel > 0 && |s| > 0 && AllNumerals(args)
    ensures StdCompare(host, fuel, c, args, s) == Step(Ok(Bool(InOrder(c, NumeralValues(args)))), s[0])
  {
    var vs, xs := NumeralNumbers(args), NumeralValues(args);
    EvalAllNumerals(host, fuel, args, 0, [], s);
    DropNone([], vs);
    assert StdCompare(host, fuel, c, args, s) == Step(CompareAll(vs, c), s[0]);
    CompareNumbers(vs, xs, c);
  }

  /** A comparison of number literals that answers TRUE orders every pair,
      not only the adjacent ones. */
  lemma {:induction false} CompareOrdersAllPairs(host: Host, fuel: nat, c: Cmp, args: seq<Node>, s: Scope)
    requires fuel > 0 && |s| > 0 && AllNumerals(args)
    requires StdCompare(host, fuel, c, args, s).result == Ok(Bool(true))
    ensures forall i, j :: 0 <= i < j < |args| ==> Holds(c, NumeralValues(args)[i], NumeralValues(args)[j])
  {
    var vs := NumeralNumbers(args);
    EvalAllNumerals(host, fuel, args, 0, [], s);
    DropNone([], vs);
    assert CompareAll(vs, c) == Ok(Bool(true));
    forall i, j | 0 <= i < j < |args|
      ensures Holds(c, NumeralValues(args)[i], NumeralValues(args)[j])
    {
      CompareChainOrdersAll(vs, c, i, j);
    }
  }

  /** AND and OR answer with a boolean, never with an operand's value. */
  lemma {:induction false} LogicYieldsBoolean(host: Host, fuel: nat, args: seq<Node>, i: nat, s: Scope)
    requires |s| > 0 && i <= |args|
    ensures AndFrom(host, fuel, args, i, s).result.Ok? ==> AndFrom(host, fuel, args, i, s).result.value.Bool?
    ensures OrFrom(host, fuel, args, i, s).result.Ok? ==> OrFrom(host, fuel, args, i, s).result.value.Bool?
    decreases |args| - i
  {
    if i < |args| {
      var v := Eval(host, fuel, args[i], s);
      if v.result.Ok? {
        LogicYieldsBoolean(host, fuel, args, i + 1, Put(s, v.top));
      }
    }
  }

  /** A number literal neither stops AND nor OR. */
  lemma {:induction false} AndStepNumeral(host: Host, fuel: nat, args: seq<Node>, i: nat, s: Scope)
    requires fuel > 0 && |s| > 0 && i < |args| && AllNumerals(args)
    ensures AndFrom(host, fuel, args, i, s) == AndFrom(host, fuel, args, i + 1, s)
  {
    EvalNumeral(host, fuel, args, i, s);
    PutSame(s);
  }

  lemma {:induction false} OrStepNumeral(host: Host, fuel: nat, args: seq<Node>, i: nat, s: Scope)
    requires fuel > 0 && |s| > 0 && i < |args| && AllNumerals(args)
    ensures OrFrom(host, fuel, args, i, s) == OrFrom(host, fuel, args, i + 1, s)
  {
    EvalNumeral(host, fuel, args, i, s);
    PutSame(s);
  }

  /** Numbers count as true for AND: AND of number literals is TRUE. */
  lemma {:induction false} AndOfNumerals(host: Host, fuel: nat, args: seq<Node>, i: nat, s: Scope)
    requires fuel > 0 && |s| > 0 && i <= |args| && AllNumerals(args)
    ensures AndFrom(host, fuel, args, i, s) == Step(Ok(Bool(true)), s[0])
    decreases |args| - i
  {
    if i < |args| {
      AndStepNumeral(host, fuel, args, i, s);
      AndOfNumerals(host, fuel, args, i + 1, s);
    }
  }

  /** Numbers do not count as true for OR: only the value TRUE makes OR
      true, so OR of number literals is FALSE. */
  lemma {:induction false} OrOfNumerals(host: Host, fuel: nat, args: seq<Node>, i: nat, s: Scope)
    requires fuel > 0 && |s| > 0 && i <= |args| && AllNumerals(args)
    ensures OrFrom(host, fuel, args, i, s) == Step(Ok(Bool(false)), s[0])
    decreases |args| - i
  {
    if i < |args| {
      OrStepNumeral(host, fuel, args, i, s);
      OrOfNumerals(host, fuel, args, i + 1, s);
    }
  }

  // ---------------------------------------------------------------------------
  // COND

  /** A clause whose condition is a number literal is chosen, since only
      FALSE skips a clause. */
  lemma {:induction false} CondTakesNumber(host: Host, fuel: nat, clauses: seq<Node>, i: nat, n: string, body: Node, s: Scope)
    requires fuel > 0 && |s| > 0 && i < |clauses| && IsNumeral(n)
    requires clauses[i] == List([Atom(n), body])
    ensures CondFrom(host, fuel, clauses, i, s) == Eval(host, fuel, body, s)
  {
    assert n != "else" by { assert DigitRun("else") == 0; }
    EvalAtom(host, fuel, n, s);
    PutSame(s);
  }

  /** A clause COND skips: a list whose head is not the lower-case `else`
      and whose condition evaluates to FALSE without writing the frame. */
  predicate SkipsClause(host: Host, fuel: nat, c: Node, s: Scope)
    requires |s| > 0
  {
    c.List? && |c.items| > 0 && c.items[0] != Atom("else") &&
    Eval(host, fuel, c.items[0], s) == Step(Ok(Bool(false)), s[0])
  }

  /** COND takes the first clause whose condition is not FALSE: after
      clauses that all evaluate to FALSE, a clause whose condition evaluates
      to any other value gives its body's outcome, evaluated in the frame
      the condition left behind. */
  lemma {:induction false} CondFirstNotFalse(host: Host, fuel: nat, clauses: seq<Node>, i: nat, k: nat, s: Scope)
    requires fuel > 0 && |s| > 0 && i <= k < |clauses|
    requires forall j :: i <= j < k ==> SkipsClause(host, fuel, clauses[j], s)
    requires clauses[k].List? && |clauses[k].items| >= 2 && clauses[k].items[0] != Atom("else")
    requires Eval(host, fuel, clauses[k].items[0], s).result.Ok?
    requires Eval(host, fuel, clauses[k].items[0], s).result.value != Bool(false)
    ensures CondFrom(host, fuel, clauses, i, s)
         == Eval(host, fuel, clauses[k].items[1], Put(s, Eval(host, fuel, clauses[k].items[0], s).top))
    decreases k - i
  {
    if i < k {
      assert SkipsClause(host, fuel, clauses[i], s);
      PutSame(s);
      CondFirstNotFalse(host, fuel, clauses, i + 1, k, s);
    }
  }

  /** When every clause's condition evaluates to FALSE, COND yields the
      default value, Number 0, and the frame is as it was. */
  lemma {:induction false} CondAllFalse(host: Host, fuel: nat, clauses: seq<Node>, i: nat, s: Scope)
    requires fuel > 0 && |s| > 0 && i <= |clauses|
    requires forall j :: i <= j < |clauses| ==> SkipsClause(host, fuel, clauses[j], s)
    ensures CondFrom(host, fuel, clauses, i, s) == Step(Ok(Default), s[0])
    decreases |clauses| - i
  {
    if i < |clauses| {
      assert SkipsClause(host, fuel, clauses[i], s);
      PutSame(s);
      CondAllFalse(host, fuel, clauses, i + 1, s);
    }
  }

  /** The reader upper-cases every atom it does not keep verbatim, so no
      form read from text is the lower-case `else` COND tests for: an
      `else` clause in a program is an ordinary clause whose condition is
      the variable ELSE. */
  lemma {:induction false} ParsedElseIsVariable(toks: seq<string>, p: nat)
    requires p < |toks| && Reader.ParseForm(toks, p).result.Ok?
    ensures Reader.ParseForm(toks, p).result.value != Atom("else")
  {
    Reader.ParseConsumesOneForm(toks, p);
    Reader.NormalizeNeverLowerElse("else");
  }

  // ---------------------------------------------------------------------------
  // Arguments

  /** Arguments beyond the parameters are never evaluated. */
  lemma {:induction false} SurplusArgumentsIgnored(host: Host, fuel: nat, params: seq<string>, args: seq<Node>,
                                                   extra: seq<Node>, i: nat, frame: Frame, s: Scope)
    requires |s| > 0 && i <= |params| <= |args|
    ensures BindArgs(host, fuel, params, args + extra, i, frame, s) == BindArgs(host, fuel, params, args, i, frame, s)
    decreases |params| - i
  {
    if i < |params| {
      assert (args + extra)[i] == args[i];
      var v := Eval(host, fuel, args[i], s);
      if v.result.Ok? {
        SurplusArgumentsIgnored(host, fuel, params, args, extra, i + 1, frame[params[i] := v.result.value], Put(s, v.top));
      }
    }
  }

  /** Too few arguments fail: with the first failing argument's error, or
      with the missing-argument failure once the arguments run out. */
  lemma {:induction false} TooFewArgumentsFail(host: Host, fuel: nat, params: seq<string>, args: seq<Node>,
                                               i: nat, frame: Frame, s: Scope)
    requires |s| > 0 && i <= |args| < |params|
    ensures BindArgs(host, fuel, params, args, i, frame, s).result.Err?
    decreases |params| - i
  {
    if i < |args| {
      var v := Eval(host, fuel, args[i], s);
      if v.result.Ok? {
        TooFewArgumentsFail(host, fuel, params, args, i + 1, frame[params[i] := v.result.value], Put(s, v.top));
      }
    }
  }

  // ---------------------------------------------------------------------------
  // The read-evaluate step

  /** Text with an unclosed parenthesis is rejected before it is read, and
      nothing is evaluated. */
  lemma {:induction false} UnbalancedInputRejected(host: Host, fuel: nat, s: Scope)
    requires |s| > 0
    ensures EvaluateSource(host, fuel, "(+ 1 2", s) == Step(Err(Unbalanced), s[0])
  {
    Lexer.UnbalancedExample();
  }
}
