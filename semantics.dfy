/** The evaluator of evaluator.cpp and the primitives of primitive.cpp as
    functions: the reference the imperative interpreter is proved against.

    State. Evaluation reads the whole chain of frames but writes only the
    innermost one (DEFINE binds there; procedures and BEGIN write fresh child
    frames that are dropped afterwards). So every function here takes the
    chain `s` and returns, besides its result, the new innermost frame `top`.
    The frame is returned on failure too: bindings made before a failure
    stay in place, as they do in the source.

    Depth. `fuel` bounds how deeply `Eval` may nest. Running out is the
    `StackOverflow` failure, the counterpart of the host stack the source
    recurses on. `Eval` with fuel `f + 1` hands `f` to what it calls, and
    these evaluate sub-expressions with `Eval(f, ...)`.

    The outside world. The libm results, the file reads of LOAD-FILE and the
    sample points of DRAW-PLOT come from a `Host` value. */
module Semantics {
  import opened Results
  import opened Syntax
  import opened Values
  import opened Scopes
  import opened Classify
  import Lexer
  import Reader

  /** A result together with the innermost frame after the computation. */
  datatype Step<T> = Step(result: Result<T>, top: Frame)

  /** The chain with its innermost frame replaced. */
  function Put(s: Scope, top: Frame): (r: Scope)
    requires |s| > 0
    ensures |r| == |s| && r[0] == top && r[1..] == s[1..]
  {
    [top] + s[1..]
  }

  datatype Kind = NumberKind | StringKind | BoolKind | LambdaKind
  datatype MathFn = Sqrt | Sin | Cos | Tan | Asin | Acos | Atan
  datatype Arith = Add | Sub | Mul | Div

  /** The entries of the primitive table. */
  datatype Prim =
    | DefinePrim | BeginPrim | CondPrim | EqualPrim | ComparePrim(c: Cmp)
    | AndPrim | OrPrim | NotPrim | IsTypePrim(k: Kind)
    | ArithPrim(op: Arith) | MathPrim(f: MathFn) | PowPrim
    | ExitPrim | LoadFilePrim | DrawPlotPrim

  /** The table the `Evaluator` constructor fills, keyed by upper-case name. */
  const PrimitiveTable: map<string, Prim> := map[
    "DEFINE" := DefinePrim, "BEGIN" := BeginPrim, "COND" := CondPrim,
    "=" := EqualPrim, ">" := ComparePrim(Gt), "<" := ComparePrim(Lt),
    ">=" := ComparePrim(Ge), "<=" := ComparePrim(Le),
    "AND" := AndPrim, "OR" := OrPrim, "NOT" := NotPrim,
    "NUMBER?" := IsTypePrim(NumberKind), "STRING?" := IsTypePrim(StringKind),
    "BOOL?" := IsTypePrim(BoolKind), "LAMBDA?" := IsTypePrim(LambdaKind),
    "+" := ArithPrim(Add), "-" := ArithPrim(Sub), "*" := ArithPrim(Mul), "/" := ArithPrim(Div),
    "SQRT" := MathPrim(Sqrt), "POW" := PowPrim, "SIN" := MathPrim(Sin), "COS" := MathPrim(Cos),
    "TAN" := MathPrim(Tan), "ASIN" := MathPrim(Asin), "ACOS" := MathPrim(Acos),
    "ATAN" := MathPrim(Atan),
    "EXIT" := ExitPrim, "LOAD-FILE" := LoadFilePrim, "DRAW-PLOT" := DrawPlotPrim
  ]

  /** What the evaluator gets from outside: libm, the file system and the
      x coordinates DRAW-PLOT samples for a window of the given size. */
  datatype Host = Host(
    math: (MathFn, real) -> real,
    pow: (real, real) -> real,
    readFile: string -> Option<string>,
    plotSamples: (real, real) -> seq<real>)

  /** The name a failure message gives for a math function. */
  function MathName(f: MathFn): string
  {
    match f
    case Sqrt => "sqrt" case Sin => "sin" case Cos => "cos" case Tan => "tan"
    case Asin => "asin" case Acos => "acos" case Atan => "atan"
  }

  function ArithName(op: Arith): string
  {
    match op case Add => "+" case Sub => "-" case Mul => "*" case Div => "/"
  }

  function KindName(k: Kind): string
  {
    match k
    case NumberKind => "number?" case StringKind => "string?"
    case BoolKind => "bool?" case LambdaKind => "lambda?"
  }

  /** The accumulator step of `+`, `-`, `*` and `/`. */
  function Combine(op: Arith, acc: real, x: real): real
    requires op == Div ==> x != 0.0
  {
    match op
    case Add => acc + x
    case Sub => acc - x
    case Mul => acc * x
    case Div => acc / x
  }

  /** The variant test of `NUMBER?`, `STRING?`, `BOOL?` and `LAMBDA?`. */
  predicate HasKind(v: Value, k: Kind)
  {
    match k
    case NumberKind => v.Number?
    case StringKind => v.String?
    case BoolKind => v.Bool?
    case LambdaKind => v.Lambda?
  }

  /** `=`: same-variant numbers, booleans or strings that are equal. */
  predicate ValuesEqual(l: Value, r: Value)
  {
    (l.Number? && r.Number? && l.num == r.num) ||
    (l.Bool? && r.Bool? && l.b == r.b) ||
    (l.String? && r.String? && l.text == r.text)
  }

  /** `define` applied to each parameter in turn, binding it to the value
      at the same position. */
  function BindValues(frame: Frame, params: seq<string>, vals: seq<Value>): Frame
    requires |vals| >= |params|
    decreases |params|
  {
    if |params| == 0 then frame
    else BindValues(frame[params[0] := vals[0]], params[1..], vals[1..])
  }

  // ---------------------------------------------------------------------------
  // The evaluator

  /** `Evaluator::Eval`: the classifiers in their order. */
  function Eval(host: Host, fuel: nat, e: Node, s: Scope): Step<Value>
    requires |s| > 0
    decreases fuel, 0
  {
    if fuel == 0 then Step(Err(StackOverflow), s[0])
    else if IsNumber(e) then Step(Ok(Number(ParseNumber(e.name))), s[0])
    else if IsBoolean(e) then Step(Ok(Bool(e.name == "TRUE")), s[0])
    else if IsString(e) then Step(Ok(FromString(e.name)), s[0])
    else if e.Atom? && Bound(s, e.name) then Step(Lookup(s, e.name), s[0])
    else if IsLambda(e) then Step(Ok(Lambda(LambdaParams(e), List(e.items[2..]))), s[0])
    else
      var a := IsApplication(host, fuel - 1, e, s);
      if a.result.Err? then Step(Err(a.result.error), a.top)
      else if a.result.value then Apply(host, fuel - 1, e.items[0], e.items[1..], Put(s, a.top))
      else Step(Err(NoFoundType), a.top)
  }

  /** `isApplication`: a non-empty list whose head names a primitive or
      evaluates to a procedure. The head's evaluation keeps its effects; its
      failures mean "not an application", except a stack overflow or EXIT,
      which no `catch` intercepts. */
  function IsApplication(host: Host, fuel: nat, e: Node, s: Scope): (r: Step<bool>)
    requires |s| > 0
    ensures r.result.Err? ==> Fatal(r.result.error)
    decreases fuel, 1
  {
    if e.Atom? || |e.items| == 0 then Step(Ok(false), s[0])
    else if e.items[0].Atom? && e.items[0].name in PrimitiveTable then Step(Ok(true), s[0])
    else
      var h := Eval(host, fuel, e.items[0], s);
      if h.result.Err? then
        (if Fatal(h.result.error) then Step(Err(h.result.error), h.top) else Step(Ok(false), h.top))
      else Step(Ok(h.result.value.Lambda?), h.top)
  }

  /** `Evaluator::Apply`: a primitive head gets the unevaluated arguments and
      the caller's chain; any other head is applied as a procedure. */
  function Apply(host: Host, fuel: nat, head: Node, args: seq<Node>, s: Scope): Step<Value>
    requires |s| > 0
    decreases fuel, 7
  {
    if head.Atom? && head.name in PrimitiveTable then
      CallPrimitive(host, fuel, PrimitiveTable[head.name], args, s)
    else ApplyProcedure(host, fuel, head, args, s)
  }

  /** The procedure branch of `Apply`: the head is evaluated (again) to a
      procedure, whose parameters are bound in a fresh frame to arguments
      evaluated in the caller's chain, and whose body runs in that frame on
      top of the caller's chain. */
  function ApplyProcedure(host: Host, fuel: nat, head: Node, args: seq<Node>, s: Scope): Step<Value>
    requires |s| > 0
    decreases fuel, 4
  {
    var h := Eval(host, fuel, head, s);
    if h.result.Err? then h
    else if !h.result.value.Lambda? then Step(Err(BadVariantAccess), h.top)
    else CallClosure(host, fuel, h.result.value.params, h.result.value.body, args, Put(s, h.top))
  }

  /** A procedure applied to argument expressions: the parameters bound in a
      fresh frame, the body run in that frame on top of the caller's chain;
      the caller's frame is whatever the argument evaluations left. */
  function CallClosure(host: Host, fuel: nat, params: seq<string>, body: Node, args: seq<Node>, s: Scope): Step<Value>
    requires |s| > 0
    decreases fuel, 3
  {
    var b := BindArgs(host, fuel, params, args, 0, map[], s);
    if b.result.Err? then Step(Err(b.result.error), b.top)
    else
      var r := RunBody(host, fuel, body, [b.result.value] + Put(s, b.top));
      Step(r.result, b.top)
  }

  /** The binding loop of `Apply`: parameter `i` gets argument `i` evaluated
      in the caller's chain; a missing argument fails. The result is the new
      frame; `top` is the caller's frame. */
  function BindArgs(host: Host, fuel: nat, params: seq<string>, args: seq<Node>, i: nat,
                    frame: Frame, s: Scope): Step<Frame>
    requires |s| > 0 && i <= |params|
    decreases fuel, 1, |params| - i
  {
    if i == |params| then Step(Ok(frame), s[0])
    else if i >= |args| then Step(Err(MissingArgument), s[0])
    else
      var v := Eval(host, fuel, args[i], s);
      if v.result.Err? then Step(Err(v.result.error), v.top)
      else BindArgs(host, fuel, params, args, i + 1, frame[params[i] := v.result.value], Put(s, v.top))
  }

  /** The body step shared by `Apply` and `ApplyLambda`: a non-empty list
      body is a sequence of expressions whose last value is the result; any
      other body is evaluated as one expression. */
  function RunBody(host: Host, fuel: nat, body: Node, s: Scope): Step<Value>
    requires |s| > 0
    decreases fuel, 2
  {
    if body.List? && |body.items| >= 1 then EvalSeq(host, fuel, body.items, 0, Default, s)
    else Eval(host, fuel, body, s)
  }

  /** Evaluate `exprs[i..]` in order in one chain; the result is the last
      value (`last` when there is nothing left). */
  function EvalSeq(host: Host, fuel: nat, exprs: seq<Node>, i: nat, last: Value, s: Scope): Step<Value>
    requires |s| > 0 && i <= |exprs|
    decreases fuel, 1, |exprs| - i
  {
    if i == |exprs| then Step(Ok(last), s[0])
    else
      var v := Eval(host, fuel, exprs[i], s);
      if v.result.Err? then v
      else EvalSeq(host, fuel, exprs, i + 1, v.result.value, Put(s, v.top))
  }

  /** `Evaluator::ApplyLambda`: like `Apply` with values already computed,
      so the caller's frame does not change. */
  function ApplyLambda(host: Host, fuel: nat, params: seq<string>, body: Node, vals: seq<Value>, s: Scope): Step<Value>
    requires |s| > 0
    decreases fuel, 3
  {
    if |vals| < |params| then Step(Err(MissingArgument), s[0])
    else
      var r := RunBody(host, fuel, body, [BindValues(map[], params, vals)] + s);
      Step(r.result, s[0])
  }

  // ---------------------------------------------------------------------------
  // The primitives

  /** The primitive table's call: each entry is one function of
      primitive.cpp. */
  function CallPrimitive(host: Host, fuel: nat, p: Prim, args: seq<Node>, s: Scope): Step<Value>
    requires |s| > 0
    decreases fuel, 6
  {
    match p
    case DefinePrim => StdDefine(host, fuel, args, s)
    case BeginPrim => StdBegin(host, fuel, args, s)
    case CondPrim => StdCond(host, fuel, args, s)
    case EqualPrim => StdEqual(host, fuel, args, s)
    case ComparePrim(c) => StdCompare(host, fuel, c, args, s)
    case AndPrim => StdAnd(host, fuel, args, s)
    case OrPrim => StdOr(host, fuel, args, s)
    case NotPrim => StdNot(host, fuel, args, s)
    case IsTypePrim(k) => StdIsType(host, fuel, k, args, s)
    case ArithPrim(op) =>
      if op == Add || op == Mul then FoldFrom(host, fuel, op, args, 0, if op == Add then 0.0 else 1.0, s)
      else StdMinusDiv(host, fuel, op, args, s)
    case MathPrim(f) => StdMath(host, fuel, f, args, s)
    case PowPrim => StdPow(host, fuel, args, s)
    case ExitPrim => StdExit(args, s)
    case LoadFilePrim => StdLoadFile(host, fuel, args, s)
    case DrawPlotPrim => StdDrawPlot(host, fuel, args, s)
  }

  /** DEFINE: the value of the second argument, bound to the first in the
      innermost frame. */
  function StdDefine(host: Host, fuel: nat, args: seq<Node>, s: Scope): Step<Value>
    requires |s| > 0
    decreases fuel, 5
  {
    if |args| != 2 then Step(Err(Arity("define")), s[0])
    else if !args[0].Atom? then Step(Err(NotSymbol), s[0])
    else
      var v := Eval(host, fuel, args[1], s);
      if v.result.Err? then v
      else Step(v.result, v.top[args[0].name := v.result.value])
  }

  /** BEGIN: the arguments in order in a fresh frame; the last value. */
  function StdBegin(host: Host, fuel: nat, args: seq<Node>, s: Scope): Step<Value>
    requires |s| > 0
    decreases fuel, 5
  {
    if |args| == 0 then Step(Err(Arity("begin")), s[0])
    else Step(EvalSeq(host, fuel, args, 0, Default, [map[]] + s).result, s[0])
  }

  /** COND: at least one clause. */
  function StdCond(host: Host, fuel: nat, args: seq<Node>, s: Scope): Step<Value>
    requires |s| > 0
    decreases fuel, 5
  {
    if |args| == 0 then Step(Err(Arity("cond")), s[0])
    else CondFrom(host, fuel, args, 0, s)
  }

  /** `=`: two operands, equal when of the same non-procedure kind and
      equal content. */
  function StdEqual(host: Host, fuel: nat, args: seq<Node>, s: Scope): Step<Value>
    requires |s| > 0
    decreases fuel, 5
  {
    if |args| != 2 then Step(Err(Arity("=")), s[0])
    else
      var l := Eval(host, fuel, args[0], s);
      if l.result.Err? then l
      else
        var r := Eval(host, fuel, args[1], Put(s, l.top));
        if r.result.Err? then r
        else Step(Ok(Bool(ValuesEqual(l.result.value, r.result.value))), r.top)
  }

  /** `>`, `<`, `>=`, `<=`: every operand evaluated, then the chain rule. */
  function StdCompare(host: Host, fuel: nat, c: Cmp, args: seq<Node>, s: Scope): Step<Value>
    requires |s| > 0
    decreases fuel, 5
  {
    var vs := EvalAll(host, fuel, args, 0, [], s);
    if vs.result.Err? then Step(Err(vs.result.error), vs.top)
    else Step(CompareAll(vs.result.value, c), vs.top)
  }

  /** AND: at least one operand. */
  function StdAnd(host: Host, fuel: nat, args: seq<Node>, s: Scope): Step<Value>
    requires |s| > 0
    decreases fuel, 5
  {
    if |args| == 0 then Step(Err(Arity("and")), s[0])
    else AndFrom(host, fuel, args, 0, s)
  }

  /** OR: at least one operand; the arity failure names 'and'. */
  function StdOr(host: Host, fuel: nat, args: seq<Node>, s: Scope): Step<Value>
    requires |s| > 0
    decreases fuel, 5
  {
    if |args| == 0 then Step(Err(Arity("and")), s[0])
    else OrFrom(host, fuel, args, 0, s)
  }

  /** NOT: TRUE exactly for FALSE. */
  function StdNot(host: Host, fuel: nat, args: seq<Node>, s: Scope): Step<Value>
    requires |s| > 0
    decreases fuel, 5
  {
    if |args| != 1 then Step(Err(Arity("not")), s[0])
    else
      var v := Eval(host, fuel, args[0], s);
      if v.result.Err? then v
      else Step(Ok(Bool(v.result.value == Bool(false))), v.top)
  }

  /** `number?`, `string?`, `bool?`, `lambda?`. */
  function StdIsType(host: Host, fuel: nat, k: Kind, args: seq<Node>, s: Scope): Step<Value>
    requires |s| > 0
    decreases fuel, 5
  {
    if |args| != 1 then Step(Err(Arity(KindName(k))), s[0])
    else
      var v := Eval(host, fuel, args[0], s);
      if v.result.Err? then v
      else Step(Ok(Bool(HasKind(v.result.value, k))), v.top)
  }

  /** `-` and `/`: at least one operand; a single operand is negated or
      inverted, otherwise the rest are folded into the first. */
  function StdMinusDiv(host: Host, fuel: nat, op: Arith, args: seq<Node>, s: Scope): Step<Value>
    requires |s| > 0 && (op == Sub || op == Div)
    decreases fuel, 5
  {
    if |args| == 0 then Step(Err(Arity(ArithName(op))), s[0])
    else
      var first := Eval(host, fuel, args[0], s);
      if first.result.Err? then first
      else if !first.result.value.Number? then Step(Err(TypeMismatch(ArithName(op))), first.top)
      else if |args| == 1 then
        var x := first.result.value.num;
        if op == Sub then Step(Ok(Number(-x)), first.top)
        else if x == 0.0 then Step(Err(DivisionByZero), first.top)
        else Step(Ok(Number(1.0 / x)), first.top)
      else FoldFrom(host, fuel, op, args, 1, first.result.value.num, Put(s, first.top))
  }

  /** `sqrt`, `sin`, `cos`, `tan`, `asin`, `acos`, `atan`. */
  function StdMath(host: Host, fuel: nat, f: MathFn, args: seq<Node>, s: Scope): Step<Value>
    requires |s| > 0
    decreases fuel, 5
  {
    if |args| != 1 then Step(Err(Arity(MathName(f))), s[0])
    else
      var v := Eval(host, fuel, args[0], s);
      if v.result.Err? then v
      else if !v.result.value.Number? then Step(Err(TypeMismatch(MathName(f))), v.top)
      else Step(Ok(Number(host.math(f, v.result.value.num))), v.top)
  }

  /** `pow`: both operands evaluated before either is checked. */
  function StdPow(host: Host, fuel: nat, args: seq<Node>, s: Scope): Step<Value>
    requires |s| > 0
    decreases fuel, 5
  {
    if |args| != 2 then Step(Err(Arity("pow")), s[0])
    else
      var b := Eval(host, fuel, args[0], s);
      if b.result.Err? then b
      else
        var x := Eval(host, fuel, args[1], Put(s, b.top));
        if x.result.Err? then x
        else if !b.result.value.Number? || !x.result.value.Number? then Step(Err(TypeMismatch("pow")), x.top)
        else Step(Ok(Number(host.pow(b.result.value.num, x.result.value.num))), x.top)
  }

  /** EXIT: no operands; the process ends. The arity failure names '/'. */
  function StdExit(args: seq<Node>, s: Scope): Step<Value>
    requires |s| > 0
  {
    if |args| != 0 then Step(Err(Arity("/")), s[0])
    else Step(Err(Halted), s[0])
  }

  /** LOAD-FILE: one string operand naming a readable file, whose forms are
      evaluated one after another in the caller's chain. */
  function StdLoadFile(host: Host, fuel: nat, args: seq<Node>, s: Scope): Step<Value>
    requires |s| > 0
    decreases fuel, 5
  {
    if |args| != 1 then Step(Err(Arity("load-file")), s[0])
    else
      var f := Eval(host, fuel, args[0], s);
      if f.result.Err? then f
      else if !f.result.value.String? then Step(Err(TypeMismatch("load-file")), f.top)
      else
        var content := host.readFile(f.result.value.text);
        if content.None? then Step(Err(IOError(f.result.value.text)), f.top)
        else LoadForms(host, fuel, Lexer.Lex(content.value), 0, Put(s, f.top))
  }

  /** DRAW-PLOT: width, height and procedure; wrong kinds answer FALSE,
      otherwise the procedure is sampled and the answer is TRUE. */
  function StdDrawPlot(host: Host, fuel: nat, args: seq<Node>, s: Scope): Step<Value>
    requires |s| > 0
    decreases fuel, 5
  {
    if |args| != 3 then Step(Err(Arity("draw-plot")), s[0])
    else
      var vs := EvalAll(host, fuel, args, 0, [], s);
      if vs.result.Err? then Step(Err(vs.result.error), vs.top)
      else
        var w, h, lm := vs.result.value[0], vs.result.value[1], vs.result.value[2];
        if !w.Number? || !h.Number? || !lm.Lambda? then Step(Ok(Bool(false)), vs.top)
        else PlotLoop(host, fuel, lm.params, lm.body, host.plotSamples(w.num, h.num), 0, Put(s, vs.top))
  }

  /** The clause loop of COND. */
  function CondFrom(host: Host, fuel: nat, clauses: seq<Node>, i: nat, s: Scope): Step<Value>
    requires |s| > 0 && i <= |clauses|
    decreases fuel, 1, |clauses| - i
  {
    if i == |clauses| then Step(Ok(Default), s[0])
    else if clauses[i].Atom? then Step(Err(CondClauseNotList), s[0])
    else if |clauses[i].items| == 0 then Step(Err(CondClauseEmpty), s[0])
    else
      var inner := clauses[i].items;
      if inner[0] == Atom("else") then
        if |inner| < 2 then Step(Err(CondElseNoBody), s[0])
        else Eval(host, fuel, inner[1], s)
      else
        var c := Eval(host, fuel, inner[0], s);
        if c.result.Err? then c
        else if c.result.value != Bool(false) then
          if |inner| < 2 then Step(Err(CondNoBody), c.top)
          else Eval(host, fuel, inner[1], Put(s, c.top))
        else CondFrom(host, fuel, clauses, i + 1, Put(s, c.top))
  }

  /** Evaluate `args[i..]` left to right, collecting the values after `acc`. */
  function EvalAll(host: Host, fuel: nat, args: seq<Node>, i: nat, acc: seq<Value>, s: Scope): (r: Step<seq<Value>>)
    requires |s| > 0 && i <= |args|
    ensures r.result.Ok? ==> |r.result.value| == |acc| + |args| - i
    decreases fuel, 1, |args| - i
  {
    if i == |args| then Step(Ok(acc), s[0])
    else
      var v := Eval(host, fuel, args[i], s);
      if v.result.Err? then Step(Err(v.result.error), v.top)
      else EvalAll(host, fuel, args, i + 1, acc + [v.result.value], Put(s, v.top))
  }

  /** The loop of AND: FALSE at the first `FALSE`, TRUE after the last. */
  function AndFrom(host: Host, fuel: nat, args: seq<Node>, i: nat, s: Scope): Step<Value>
    requires |s| > 0 && i <= |args|
    decreases fuel, 1, |args| - i
  {
    if i == |args| then Step(Ok(Bool(true)), s[0])
    else
      var v := Eval(host, fuel, args[i], s);
      if v.result.Err? then v
      else if v.result.value == Bool(false) then Step(Ok(Bool(false)), v.top)
      else AndFrom(host, fuel, args, i + 1, Put(s, v.top))
  }

  /** The loop of OR: TRUE at the first `TRUE`, FALSE after the last. */
  function OrFrom(host: Host, fuel: nat, args: seq<Node>, i: nat, s: Scope): Step<Value>
    requires |s| > 0 && i <= |args|
    decreases fuel, 1, |args| - i
  {
    if i == |args| then Step(Ok(Bool(false)), s[0])
    else
      var v := Eval(host, fuel, args[i], s);
      if v.result.Err? then v
      else if v.result.value == Bool(true) then Step(Ok(Bool(true)), v.top)
      else OrFrom(host, fuel, args, i + 1, Put(s, v.top))
  }

  /** The accumulator loop of `+`, `-`, `*` and `/` over `args[i..]`. */
  function FoldFrom(host: Host, fuel: nat, op: Arith, args: seq<Node>, i: nat, acc: real, s: Scope): Step<Value>
    requires |s| > 0 && i <= |args|
    decreases fuel, 1, |args| - i
  {
    if i == |args| then Step(Ok(Number(acc)), s[0])
    else
      var v := Eval(host, fuel, args[i], s);
      if v.result.Err? then v
      else if !v.result.value.Number? then Step(Err(TypeMismatch(ArithName(op))), v.top)
      else if op == Div && v.result.value.num == 0.0 then Step(Err(DivisionByZero), v.top)
      else FoldFrom(host, fuel, op, args, i + 1, Combine(op, acc, v.result.value.num), Put(s, v.top))
  }

  /** The loop of LOAD-FILE: read one form at a time from the tokens and
      evaluate it in the caller's chain; TRUE when the tokens run out. */
  function LoadForms(host: Host, fuel: nat, toks: seq<string>, p: nat, s: Scope): Step<Value>
    requires |s| > 0 && p <= |toks|
    decreases fuel, 1, |toks| - p
  {
    if p == |toks| then Step(Ok(Bool(true)), s[0])
    else
      var form := Reader.ParseForm(toks, p);
      if form.result.Err? then Step(Err(form.result.error), s[0])
      else
        var v := Eval(host, fuel, form.result.value, s);
        if v.result.Err? then v
        else LoadForms(host, fuel, toks, form.next, Put(s, v.top))
  }

  /** The sampling loop of DRAW-PLOT: the procedure is applied to each x;
      the values only feed the painting. */
  function PlotLoop(host: Host, fuel: nat, params: seq<string>, body: Node, xs: seq<real>, i: nat, s: Scope): Step<Value>
    requires |s| > 0 && i <= |xs|
    decreases fuel, 4, |xs| - i
  {
    if i == |xs| then Step(Ok(Bool(true)), s[0])
    else
      var y := ApplyLambda(host, fuel, params, body, [Number(xs[i])], s);
      if y.result.Err? then y
      else PlotLoop(host, fuel, params, body, xs, i + 1, s)
  }

  // ---------------------------------------------------------------------------
  // The read-evaluate step of the main window

  /** One press of "evaluate": reject unbalanced text, otherwise read the
      first form and evaluate it in the global chain. Tokens after the first
      form are ignored. */
  function EvaluateSource(host: Host, fuel: nat, src: string, s: Scope): Step<Value>
    requires |s| > 0
  {
    if !Lexer.Balanced(src) then Step(Err(Unbalanced), s[0])
    else
      var form := Reader.ParseForm(Lexer.Lex(src), 0);
      if form.result.Err? then Step(Err(form.result.error), s[0])
      else Eval(host, fuel, form.result.value, s)
  }
}
