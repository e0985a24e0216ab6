/** The evaluator of evaluator.cpp and the primitives of primitive.cpp as the
    source writes them: methods that evaluate into `Environment` objects,
    allocate child frames and run accumulator loops. Each method is proved to
    compute what the Semantics module defines: the result, and the frame it
    leaves in the environment it was given. */
module Interpreter {
  import opened Results
  import opened Syntax
  import opened Values
  import opened Scopes
  import opened Classify
  import opened Environments
  import Lexer
  import Reader
  import S = Semantics

  class Evaluator {
    /** The primitive table, keyed by upper-case name. */
    const primitives: map<string, S.Prim>
    /** libm, the file system and the plot sampler. */
    const host: S.Host

    /** `Evaluator()`: registers the thirty primitives. */
    constructor (host: S.Host)
      ensures primitives == S.PrimitiveTable && this.host == host
    {
      var m: map<string, S.Prim> := map[];
      m := m["DEFINE" := S.DefinePrim];
      m := m["BEGIN" := S.BeginPrim];
      m := m["COND" := S.CondPrim];
      m := m["=" := S.EqualPrim];
      m := m[">" := S.ComparePrim(Gt)];
      m := m["<" := S.ComparePrim(Lt)];
      m := m[">=" := S.ComparePrim(Ge)];
      m := m["<=" := S.ComparePrim(Le)];
      m := m["AND" := S.AndPrim];
      m := m["OR" := S.OrPrim];
      m := m["NOT" := S.NotPrim];
      m := m["NUMBER?" := S.IsTypePrim(S.NumberKind)];
      m := m["STRING?" := S.IsTypePrim(S.StringKind)];
      m := m["BOOL?" := S.IsTypePrim(S.BoolKind)];
      m := m["LAMBDA?" := S.IsTypePrim(S.LambdaKind)];
      m := m["+" := S.ArithPrim(S.Add)];
      m := m["-" := S.ArithPrim(S.Sub)];
      m := m["*" := S.ArithPrim(S.Mul)];
      m := m["/" := S.ArithPrim(S.Div)];
      m := m["SQRT" := S.MathPrim(S.Sqrt)];
      m := m["POW" := S.PowPrim];
      m := m["SIN" := S.MathPrim(S.Sin)];
      m := m["COS" := S.MathPrim(S.Cos)];
      m := m["TAN" := S.MathPrim(S.Tan)];
      m := m["ASIN" := S.MathPrim(S.Asin)];
      m := m["ACOS" := S.MathPrim(S.Acos)];
      m := m["ATAN" := S.MathPrim(S.Atan)];
      m := m["EXIT" := S.ExitPrim];
      m := m["LOAD-FILE" := S.LoadFilePrim];
      m := m["DRAW-PLOT" := S.DrawPlotPrim];
      primitives := m;
      this.host := host;
    }

    /** `isPrimitive`. */
    function IsPrimitive(name: string): (b: bool)
      requires primitives == S.PrimitiveTable
      ensures b <==> name in S.PrimitiveTable
    {
      name in primitives
    }

    /** `getPrimitive`: the table entry, or " Unknown primitive". */
    function GetPrimitive(name: string): (r: Result<S.Prim>)
      requires primitives == S.PrimitiveTable
      ensures r.Ok? <==> name in S.PrimitiveTable
      ensures r.Ok? ==> r.value == S.PrimitiveTable[name]
      ensures r.Err? ==> r.error == UnknownPrimitive(name)
    {
      if name in primitives then Ok(primitives[name]) else Err(UnknownPrimitive(name))
    }

    /** `Eval`. */
    method Eval(fuel: nat, e: Node, env: Environment) returns (r: Result<Value>)
      requires primitives == S.PrimitiveTable && env.Valid()
      modifies env
      ensures S.Eval(host, fuel, e, old(env.Frames())) == S.Step(r, env.vars)
      decreases fuel, 0
    {
      if fuel == 0 {
        return Err(StackOverflow);
      }
      if IsNumber(e) {
        return Ok(Number(ParseNumber(e.name)));
      } else if IsBoolean(e) {
        var token := e.name;
        if token == "TRUE" {
          return Ok(Bool(true));
        } else {
          return Ok(Bool(false));
        }
      } else if IsString(e) {
        return Ok(FromString(e.name));
      } else if e.Atom? && env.Has(e.name) {
        return env.Get(e.name);
      }
      if IsLambda(e) {
        var names := ParamNames(e);
        return Ok(Lambda(names, List(e.items[2..])));
      }
      var isApp := IsApplication(fuel - 1, e, env);
      if isApp.Err? {
        return Err(isApp.error);
      } else if isApp.value {
        var list := e.items;
        var args := list[1..];
        r := Apply(fuel - 1, list[0], args, env);
      } else {
        r := Err(NoFoundType);
      }
    }

    /** The parameter loop of the lambda case of `Eval`: each parameter atom
        gives its name. */
    method ParamNames(e: Node) returns (names: seq<string>)
      requires IsLambda(e)
      ensures names == LambdaParams(e)
    {
      var paramList := e.items[1].items;
      names := [];
      for i := 0 to |paramList|
        invariant |names| == i
        invariant forall j :: 0 <= j < i ==> paramList[j] == Atom(names[j])
      {
        names := names + [paramList[i].name];
      }
    }

    /** `isApplication` (utils.cpp), with its `catch (...)`. */
    method IsApplication(fuel: nat, e: Node, env: Environment) returns (r: Result<bool>)
      requires primitives == S.PrimitiveTable && env.Valid()
      modifies env
      ensures S.IsApplication(host, fuel, e, old(env.Frames())) == S.Step(r, env.vars)
      decreases fuel, 1
    {
      if e.Atom? {
        return Ok(false);
      }
      var list := e.items;
      if |list| == 0 {
        return Ok(false);
      }
      if list[0].Atom? && IsPrimitive(list[0].name) {
        return Ok(true);
      }
      var first := Eval(fuel, list[0], env);
      if first.Err? {
        if Fatal(first.error) {
          return Err(first.error);
        }
        return Ok(false);
      }
      return Ok(first.value.Lambda?);
    }

    /** `Apply`. */
    method Apply(fuel: nat, head: Node, args: seq<Node>, env: Environment) returns (r: Result<Value>)
      requires primitives == S.PrimitiveTable && env.Valid()
      modifies env
      ensures S.Apply(host, fuel, head, args, old(env.Frames())) == S.Step(r, env.vars)
      decreases fuel, 8
    {
      if head.Atom? && IsPrimitive(head.name) {
        var prim := GetPrimitive(head.name);
        r := CallPrimitive(fuel, prim.value, args, env);
      } else {
        r := ApplyProcedure(fuel, head, args, env);
      }
    }

    /** The procedure branch of `Apply`: the head evaluated to a procedure,
        the arguments bound in a child of `env`, the body run there. */
    method ApplyProcedure(fuel: nat, head: Node, args: seq<Node>, env: Environment) returns (r: Result<Value>)
      requires primitives == S.PrimitiveTable && env.Valid()
      modifies env
      ensures S.ApplyProcedure(host, fuel, head, args, old(env.Frames())) == S.Step(r, env.vars)
      decreases fuel, 4
    {
      var lambda := Eval(fuel, head, env);
      if lambda.Err? {
        return lambda;
      }
      if !lambda.value.Lambda? {
        return Err(BadVariantAccess);
      }
      r := CallClosure(fuel, lambda.value.params, lambda.value.body, args, env);
    }

    /** The arguments bound in a child of `env`, the body run there. */
    method CallClosure(fuel: nat, params: seq<string>, body: Node, args: seq<Node>, env: Environment)
      returns (r: Result<Value>)
      requires primitives == S.PrimitiveTable && env.Valid()
      modifies env
      ensures S.CallClosure(host, fuel, params, body, args, old(env.Frames())) == S.Step(r, env.vars)
      decreases fuel, 3
    {
      var newEnv := new Environment.Child(env);
      var bound := BindArguments(fuel, params, args, newEnv, env);
      if bound.Err? {
        return Err(bound.error);
      }
      r := RunBody(fuel, body, newEnv);
    }

    /** The binding loop of `Apply`: each parameter is defined in `frame`
        to its argument evaluated in `env`. */
    method BindArguments(fuel: nat, params: seq<string>, args: seq<Node>, frame: Environment, env: Environment)
      returns (r: Result<Frame>)
      requires primitives == S.PrimitiveTable && env.Valid() && frame.Valid() && frame.parent == env
      modifies frame, env
      ensures S.BindArgs(host, fuel, params, args, 0, old(frame.vars), old(env.Frames())) == S.Step(r, env.vars)
      ensures r.Ok? ==> r.value == frame.vars
      decreases fuel, 1, 1
    {
      assert frame != env && frame !in env.ancestors;
      var i := 0;
      while i < |params|
        invariant 0 <= i <= |params| && env.Valid() && frame.Valid() && frame.parent == env
        invariant S.BindArgs(host, fuel, params, args, 0, old(frame.vars), old(env.Frames()))
               == S.BindArgs(host, fuel, params, args, i, frame.vars, env.Frames())
      {
        var stop;
        stop, r := BindStep(fuel, params, args, i, frame, env);
        if stop {
          return r;
        }
        i := i + 1;
      }
      return Ok(frame.vars);
    }

    /** One turn of the binding loop: parameter `i` defined in `frame` to
        argument `i` evaluated in `env`; `stop` with the failure in `r` when
        the argument is missing or its evaluation fails. */
    method BindStep(fuel: nat, params: seq<string>, args: seq<Node>, i: nat, frame: Environment, env: Environment)
      returns (stop: bool, r: Result<Frame>)
      requires primitives == S.PrimitiveTable && env.Valid() && frame.Valid() && frame.parent == env
      requires i < |params|
      modifies frame, env
      ensures env.Valid() && frame.Valid() && (stop ==> r.Err?)
      ensures stop ==>
        S.BindArgs(host, fuel, params, args, i, old(frame.vars), old(env.Frames())) == S.Step(r, env.vars)
      ensures !stop ==>
        S.BindArgs(host, fuel, params, args, i, old(frame.vars), old(env.Frames()))
          == S.BindArgs(host, fuel, params, args, i + 1, frame.vars, env.Frames())
      decreases fuel, 1, 0
    {
      assert frame != env && frame !in env.ancestors;
      if i >= |args| {
        return true, Err(MissingArgument);
      }
      var argValue := Eval(fuel, args[i], env);
      if argValue.Err? {
        return true, Err(argValue.error);
      }
      frame.Define(params[i], argValue.value);
      return false, Ok(frame.vars);
    }

    /** The body step of `Apply` and `ApplyLambda`. */
    method RunBody(fuel: nat, body: Node, env: Environment) returns (r: Result<Value>)
      requires primitives == S.PrimitiveTable && env.Valid()
      modifies env
      ensures S.RunBody(host, fuel, body, old(env.Frames())) == S.Step(r, env.vars)
      decreases fuel, 2
    {
      if body.List? && |body.items| >= 1 {
        r := EvalSequence(fuel, body.items, env);
      } else {
        r := Eval(fuel, body, env);
      }
    }

    /** `for (auto& expr : ...) result = eval.Eval(expr, env);`: the body
        loop of `Apply`, `ApplyLambda` and BEGIN. */
    method EvalSequence(fuel: nat, exprs: seq<Node>, env: Environment) returns (r: Result<Value>)
      requires primitives == S.PrimitiveTable && env.Valid()
      modifies env
      ensures S.EvalSeq(host, fuel, exprs, 0, Default, old(env.Frames())) == S.Step(r, env.vars)
      decreases fuel, 1, 1
    {
      var result := Default;
      for i := 0 to |exprs|
        invariant env.Valid()
        invariant S.EvalSeq(host, fuel, exprs, 0, Default, old(env.Frames()))
               == S.EvalSeq(host, fuel, exprs, i, result, env.Frames())
      {
        r := SequenceStep(fuel, exprs, i, result, env);
        if r.Err? {
          return r;
        }
        result := r.value;
      }
      return Ok(result);
    }

    /** One turn of the body loop: evaluate `exprs[i]`, whose value becomes
        the last one. */
    method SequenceStep(fuel: nat, exprs: seq<Node>, i: nat, last: Value, env: Environment) returns (r: Result<Value>)
      requires primitives == S.PrimitiveTable && env.Valid() && i < |exprs|
      modifies env
      ensures env.Valid()
      ensures r.Err? ==> S.EvalSeq(host, fuel, exprs, i, last, old(env.Frames())) == S.Step(r, env.vars)
      ensures r.Ok? ==>
        S.EvalSeq(host, fuel, exprs, i, last, old(env.Frames()))
          == S.EvalSeq(host, fuel, exprs, i + 1, r.value, env.Frames())
      decreases fuel, 1, 0
    {
      r := Eval(fuel, exprs[i], env);
    }

    /** `ApplyLambda`. */
    method ApplyLambda(fuel: nat, params: seq<string>, body: Node, args: seq<Value>, env: Environment)
      returns (r: Result<Value>)
      requires primitives == S.PrimitiveTable && env.Valid()
      modifies env
      ensures S.ApplyLambda(host, fuel, params, body, args, old(env.Frames())) == S.Step(r, env.vars)
      decreases fuel, 3
    {
      var newEnv := new Environment.Child(env);
      var i := 0;
      while i < |params|
        invariant 0 <= i <= |params| && i <= |args|
        invariant newEnv.Valid() && fresh(newEnv) && newEnv.parent == env && unchanged(env)
        invariant |args| >= |params| ==>
          S.BindValues(map[], params, args) == S.BindValues(newEnv.vars, params[i..], args[i..])
      {
        if i >= |args| {
          return Err(MissingArgument);
        }
        newEnv.Define(params[i], args[i]);
        i := i + 1;
      }
      assert params[i..] == [];
      assert newEnv.Frames() == [S.BindValues(map[], params, args)] + env.Frames();
      r := RunBody(fuel, body, newEnv);
    }

    /** The call through the primitive table. */
    method CallPrimitive(fuel: nat, p: S.Prim, args: seq<Node>, env: Environment) returns (r: Result<Value>)
      requires primitives == S.PrimitiveTable && env.Valid()
      modifies env
      ensures S.CallPrimitive(host, fuel, p, args, old(env.Frames())) == S.Step(r, env.vars)
      decreases fuel, 6
    {
      match p
      case DefinePrim => r := StdDefine(fuel, args, env);
      case BeginPrim => r := StdBegin(fuel, args, env);
      case CondPrim => r := StdCond(fuel, args, env);
      case EqualPrim => r := StdEqual(fuel, args, env);
      case ComparePrim(c) => r := StdCompare(fuel, c, args, env);
      case AndPrim => r := StdAnd(fuel, args, env);
      case OrPrim => r := StdOr(fuel, args, env);
      case NotPrim => r := StdNot(fuel, args, env);
      case IsTypePrim(k) => r := StdIsType(fuel, k, args, env);
      case ArithPrim(op) =>
        if op == S.Add {
          r := FoldArgs(fuel, op, args, 0, 0.0, env);
        } else if op == S.Mul {
          r := FoldArgs(fuel, op, args, 0, 1.0, env);
        } else if op == S.Sub {
          r := StdMinus(fuel, args, env);
        } else {
          r := StdDiv(fuel, args, env);
        }
      case MathPrim(f) => r := StdMath(fuel, f, args, env);
      case PowPrim => r := StdPow(fuel, args, env);
      case ExitPrim => r := StdExit(args);
      case LoadFilePrim => r := StdLoadFile(fuel, args, env);
      case DrawPlotPrim => r := StdDrawPlot(fuel, args, env);
    }

    /** `std_define`. */
    method StdDefine(fuel: nat, args: seq<Node>, env: Environment) returns (r: Result<Value>)
      requires primitives == S.PrimitiveTable && env.Valid()
      modifies env
      ensures S.StdDefine(host, fuel, args, old(env.Frames())) == S.Step(r, env.vars)
      decreases fuel, 5
    {
      if |args| != 2 {
        return Err(Arity("define"));
      }
      var name, valueExpr := args[0], args[1];
      if !name.Atom? {
        return Err(NotSymbol);
      }
      var val := Eval(fuel, valueExpr, env);
      if val.Err? {
        return val;
      }
      env.Define(name.name, val.value);
      return val;
    }

    /** `std_begin`. */
    method StdBegin(fuel: nat, args: seq<Node>, env: Environment) returns (r: Result<Value>)
      requires primitives == S.PrimitiveTable && env.Valid()
      modifies env
      ensures S.StdBegin(host, fuel, args, old(env.Frames())) == S.Step(r, env.vars)
      decreases fuel, 5
    {
      if |args| == 0 {
        return Err(Arity("begin"));
      }
      var newEnv := new Environment.Child(env);
      r := EvalSequence(fuel, args, newEnv);
    }

    /** `std_cond`. */
    method StdCond(fuel: nat, args: seq<Node>, env: Environment) returns (r: Result<Value>)
      requires primitives == S.PrimitiveTable && env.Valid()
      modifies env
      ensures S.StdCond(host, fuel, args, old(env.Frames())) == S.Step(r, env.vars)
      decreases fuel, 5
    {
      if |args| == 0 {
        return Err(Arity("cond"));
      }
      r := CondClauses(fuel, args, env);
    }

    /** The clause loop of `std_cond`: the first clause whose condition is
        not FALSE is chosen and its body evaluated; the `else` test compares
        with the lower-case atom. */
    method CondClauses(fuel: nat, args: seq<Node>, env: Environment) returns (r: Result<Value>)
      requires primitives == S.PrimitiveTable && env.Valid()
      modifies env
      ensures S.CondFrom(host, fuel, args, 0, old(env.Frames())) == S.Step(r, env.vars)
      decreases fuel, 1, 1
    {
      ghost var target := S.CondFrom(host, fuel, args, 0, env.Frames());
      var i, chosen := 0, false;
      while i < |args| && !chosen
        invariant 0 <= i <= |args| && env.Valid()
        invariant !chosen ==> target == S.CondFrom(host, fuel, args, i, env.Frames())
        invariant chosen ==>
          i < |args| && args[i].List? && |args[i].items| >= 2 &&
          target == S.Eval(host, fuel, args[i].items[1], env.Frames())
        decreases |args| - i, if chosen then 0 else 1
      {
        var stop;
        stop, chosen, r := CondTest(fuel, args, i, env);
        if stop {
          return r;
        }
        if !chosen {
          i := i + 1;
        }
      }
      if !chosen {
        return Ok(Default);
      }
      r := Eval(fuel, args[i].items[1], env);
    }

    /** One clause of COND: its shape is checked and its test evaluated;
        `chosen` when the test holds (or is `else`), `stop` with the failure
        in `r` when something is wrong. */
    method CondTest(fuel: nat, args: seq<Node>, i: nat, env: Environment)
      returns (stop: bool, chosen: bool, r: Result<Value>)
      requires primitives == S.PrimitiveTable && env.Valid() && i < |args|
      modifies env
      ensures env.Valid()
      ensures stop ==> S.CondFrom(host, fuel, args, i, old(env.Frames())) == S.Step(r, env.vars)
      ensures !stop && chosen ==>
        args[i].List? && |args[i].items| >= 2 &&
        S.CondFrom(host, fuel, args, i, old(env.Frames())) == S.Eval(host, fuel, args[i].items[1], env.Frames())
      ensures !stop && !chosen ==>
        S.CondFrom(host, fuel, args, i, old(env.Frames())) == S.CondFrom(host, fuel, args, i + 1, env.Frames())
      decreases fuel, 1, 0
    {
      stop, chosen := true, false;
      var clause := args[i];
      if clause.Atom? {
        return true, false, Err(CondClauseNotList);
      }
      var inner := clause.items;
      if |inner| == 0 {
        return true, false, Err(CondClauseEmpty);
      }
      var condition := inner[0];
      if condition.Atom? && condition.name == "else" {
        if |inner| < 2 {
          return true, false, Err(CondElseNoBody);
        }
        return false, true, Ok(Default);
      }
      r := Eval(fuel, condition, env);
      if r.Err? {
        return true, false, r;
      }
      if !r.value.Bool? || r.value.b {
        if |inner| < 2 {
          return true, false, Err(CondNoBody);
        }
        return false, true, r;
      }
      return false, false, r;
    }

    /** `std_equal`. */
    method StdEqual(fuel: nat, args: seq<Node>, env: Environment) returns (r: Result<Value>)
      requires primitives == S.PrimitiveTable && env.Valid()
      modifies env
      ensures S.StdEqual(host, fuel, args, old(env.Frames())) == S.Step(r, env.vars)
      decreases fuel, 5
    {
      if |args| != 2 {
        return Err(Arity("="));
      }
      var left := Eval(fuel, args[0], env);
      if left.Err? {
        return left;
      }
      var right := Eval(fuel, args[1], env);
      if right.Err? {
        return right;
      }
      var l, rv := left.value, right.value;
      if l.Number? && rv.Number? {
        return Ok(Bool(l.num == rv.num));
      }
      if l.Bool? && rv.Bool? {
        return Ok(Bool(l.b == rv.b));
      }
      if l.String? && rv.String? {
        return Ok(Bool(l.text == rv.text));
      }
      return Ok(Bool(false));
    }

    /** `std_gt`, `std_lt`, `std_ge` and `std_le`: every argument is
        evaluated, then the chain is checked. */
    method StdCompare(fuel: nat, c: Cmp, args: seq<Node>, env: Environment) returns (r: Result<Value>)
      requires primitives == S.PrimitiveTable && env.Valid()
      modifies env
      ensures S.StdCompare(host, fuel, c, args, old(env.Frames())) == S.Step(r, env.vars)
      decreases fuel, 5
    {
      var vals := EvalArgs(fuel, args, env);
      if vals.Err? {
        return Err(vals.error);
      }
      r := EnsureSingleTypeAndCompare(vals.value, c);
    }

    /** Every argument evaluated left to right in `env`, stopping at the
        first failure. */
    method EvalArgs(fuel: nat, args: seq<Node>, env: Environment) returns (r: Result<seq<Value>>)
      requires primitives == S.PrimitiveTable && env.Valid()
      modifies env
      ensures S.EvalAll(host, fuel, args, 0, [], old(env.Frames())) == S.Step(r, env.vars)
      decreases fuel, 1
    {
      var vals: seq<Value> := [];
      for i := 0 to |args|
        invariant env.Valid()
        invariant S.EvalAll(host, fuel, args, 0, [], old(env.Frames()))
               == S.EvalAll(host, fuel, args, i, vals, env.Frames())
      {
        var v := Eval(fuel, args[i], env);
        if v.Err? {
          return Err(v.error);
        }
        vals := vals + [v.value];
      }
      return Ok(vals);
    }

    /** `std_and`. */
    method StdAnd(fuel: nat, args: seq<Node>, env: Environment) returns (r: Result<Value>)
      requires primitives == S.PrimitiveTable && env.Valid()
      modifies env
      ensures S.StdAnd(host, fuel, args, old(env.Frames())) == S.Step(r, env.vars)
      decreases fuel, 5
    {
      if |args| == 0 {
        return Err(Arity("and"));
      }
      for i := 0 to |args|
        invariant env.Valid()
        invariant S.StdAnd(host, fuel, args, old(env.Frames()))
               == S.AndFrom(host, fuel, args, i, env.Frames())
      {
        var value := Eval(fuel, args[i], env);
        if value.Err? {
          return value;
        }
        if value.value.Bool? && value.value.b == false {
          return Ok(Bool(false));
        }
      }
      return Ok(Bool(true));
    }

    /** `std_or` (its arity message names 'and'). */
    method StdOr(fuel: nat, args: seq<Node>, env: Environment) returns (r: Result<Value>)
      requires primitives == S.PrimitiveTable && env.Valid()
      modifies env
      ensures S.StdOr(host, fuel, args, old(env.Frames())) == S.Step(r, env.vars)
      decreases fuel, 5
    {
      if |args| == 0 {
        return Err(Arity("and"));
      }
      for i := 0 to |args|
        invariant env.Valid()
        invariant S.StdOr(host, fuel, args, old(env.Frames()))
               == S.OrFrom(host, fuel, args, i, env.Frames())
      {
        var value := Eval(fuel, args[i], env);
        if value.Err? {
          return value;
        }
        if value.value.Bool? && value.value.b == true {
          return Ok(Bool(true));
        }
      }
      return Ok(Bool(false));
    }

    /** `std_not`. */
    method StdNot(fuel: nat, args: seq<Node>, env: Environment) returns (r: Result<Value>)
      requires primitives == S.PrimitiveTable && env.Valid()
      modifies env
      ensures S.StdNot(host, fuel, args, old(env.Frames())) == S.Step(r, env.vars)
      decreases fuel, 5
    {
      if |args| != 1 {
        return Err(Arity("not"));
      }
      var value := Eval(fuel, args[0], env);
      if value.Err? {
        return value;
      }
      if value.value.Bool? && value.value.b == false {
        return Ok(Bool(true));
      } else {
        return Ok(Bool(false));
      }
    }

    /** `std_is_number`, `std_is_string`, `std_is_bool`, `std_is_lambda`. */
    method StdIsType(fuel: nat, k: S.Kind, args: seq<Node>, env: Environment) returns (r: Result<Value>)
      requires primitives == S.PrimitiveTable && env.Valid()
      modifies env
      ensures S.StdIsType(host, fuel, k, args, old(env.Frames())) == S.Step(r, env.vars)
      decreases fuel, 5
    {
      if |args| != 1 {
        return Err(Arity(S.KindName(k)));
      }
      var val := Eval(fuel, args[0], env);
      if val.Err? {
        return val;
      }
      var v := val.value;
      match k
      case NumberKind => return Ok(Bool(v.Number?));
      case StringKind => return Ok(Bool(v.String?));
      case BoolKind => return Ok(Bool(v.Bool?));
      case LambdaKind => return Ok(Bool(v.Lambda?));
    }

    /** The accumulator loop of `std_plus`, `std_minus`, `std_mul` and
        `std_div` over `args[start..]`. */
    method FoldArgs(fuel: nat, op: S.Arith, args: seq<Node>, start: nat, init: real, env: Environment)
      returns (r: Result<Value>)
      requires primitives == S.PrimitiveTable && env.Valid() && start <= |args|
      modifies env
      ensures S.FoldFrom(host, fuel, op, args, start, init, old(env.Frames())) == S.Step(r, env.vars)
      decreases fuel, 1, 1
    {
      var result := init;
      for i := start to |args|
        invariant env.Valid()
        invariant S.FoldFrom(host, fuel, op, args, start, init, old(env.Frames()))
               == S.FoldFrom(host, fuel, op, args, i, result, env.Frames())
      {
        var stop;
        stop, r, result := FoldOne(fuel, op, args, i, result, env);
        if stop {
          return r;
        }
      }
      return Ok(Number(result));
    }

    /** One turn of the accumulator loop: evaluate `args[i]`, check it is a
        number (and not a zero divisor), and combine it into `acc`; `stop`
        with the failure in `r` otherwise. */
    method FoldOne(fuel: nat, op: S.Arith, args: seq<Node>, i: nat, acc: real, env: Environment)
      returns (stop: bool, r: Result<Value>, next: real)
      requires primitives == S.PrimitiveTable && env.Valid() && i < |args|
      modifies env
      ensures env.Valid()
      ensures stop ==> S.FoldFrom(host, fuel, op, args, i, acc, old(env.Frames())) == S.Step(r, env.vars)
      ensures !stop ==>
        S.FoldFrom(host, fuel, op, args, i, acc, old(env.Frames()))
          == S.FoldFrom(host, fuel, op, args, i + 1, next, env.Frames())
      decreases fuel, 1, 0
    {
      next := acc;
      r := Eval(fuel, args[i], env);
      if r.Err? {
        return true, r, next;
      }
      if !r.value.Number? {
        return true, Err(TypeMismatch(S.ArithName(op))), next;
      }
      if op == S.Div && r.value.num == 0.0 {
        return true, Err(DivisionByZero), next;
      }
      return false, r, S.Combine(op, acc, r.value.num);
    }

    /** `std_minus`: negation with one argument, otherwise `result -= x`
        from the first. */
    method StdMinus(fuel: nat, args: seq<Node>, env: Environment) returns (r: Result<Value>)
      requires primitives == S.PrimitiveTable && env.Valid()
      modifies env
      ensures S.StdMinusDiv(host, fuel, S.Sub, args, old(env.Frames())) == S.Step(r, env.vars)
      decreases fuel, 5
    {
      if |args| == 0 {
        return Err(Arity("-"));
      }
      var resultVal := Eval(fuel, args[0], env);
      if resultVal.Err? {
        return resultVal;
      }
      if !resultVal.value.Number? {
        return Err(TypeMismatch("-"));
      }
      var result := resultVal.value.num;
      if |args| == 1 {
        return Ok(Number(-result));
      }
      r := FoldArgs(fuel, S.Sub, args, 1, result, env);
    }

    /** `std_div`: inversion with one argument, otherwise `result /= x` from
        the first; a zero divisor fails in both forms. */
    method StdDiv(fuel: nat, args: seq<Node>, env: Environment) returns (r: Result<Value>)
      requires primitives == S.PrimitiveTable && env.Valid()
      modifies env
      ensures S.StdMinusDiv(host, fuel, S.Div, args, old(env.Frames())) == S.Step(r, env.vars)
      decreases fuel, 5
    {
      if |args| == 0 {
        return Err(Arity("/"));
      }
      var firstVal := Eval(fuel, args[0], env);
      if firstVal.Err? {
        return firstVal;
      }
      if !firstVal.value.Number? {
        return Err(TypeMismatch("/"));
      }
      var result := firstVal.value.num;
      if |args| == 1 {
        if result == 0.0 {
          return Err(DivisionByZero);
        }
        return Ok(Number(1.0 / result));
      }
      r := FoldArgs(fuel, S.Div, args, 1, result, env);
    }

    /** `std_sqrt`, `std_sin`, `std_cos`, `std_tan`, `std_asin`, `std_acos`,
        `std_atan`. */
    method StdMath(fuel: nat, f: S.MathFn, args: seq<Node>, env: Environment) returns (r: Result<Value>)
      requires primitives == S.PrimitiveTable && env.Valid()
      modifies env
      ensures S.StdMath(host, fuel, f, args, old(env.Frames())) == S.Step(r, env.vars)
      decreases fuel, 5
    {
      if |args| != 1 {
        return Err(Arity(S.MathName(f)));
      }
      var val := Eval(fuel, args[0], env);
      if val.Err? {
        return val;
      }
      if !val.value.Number? {
        return Err(TypeMismatch(S.MathName(f)));
      }
      return Ok(Number(host.math(f, val.value.num)));
    }

    /** `std_pow`: both operands are evaluated before either is checked. */
    method StdPow(fuel: nat, args: seq<Node>, env: Environment) returns (r: Result<Value>)
      requires primitives == S.PrimitiveTable && env.Valid()
      modifies env
      ensures S.StdPow(host, fuel, args, old(env.Frames())) == S.Step(r, env.vars)
      decreases fuel, 5
    {
      if |args| != 2 {
        return Err(Arity("pow"));
      }
      var base := Eval(fuel, args[0], env);
      if base.Err? {
        return base;
      }
      var exponent := Eval(fuel, args[1], env);
      if exponent.Err? {
        return exponent;
      }
      if !base.value.Number? || !exponent.value.Number? {
        return Err(TypeMismatch("pow"));
      }
      return Ok(Number(host.pow(base.value.num, exponent.value.num)));
    }

    /** `std_exit`: with no arguments the process ends. */
    method StdExit(args: seq<Node>) returns (r: Result<Value>)
      ensures r.Err?
      ensures |args| != 0 ==> r.error == Arity("/")
      ensures |args| == 0 ==> r.error == Halted
    {
      if |args| != 0 {
        return Err(Arity("/"));
      }
      return Err(Halted);
    }

    /** `std_load_file`: read the file, then parse and evaluate its forms one
        after another in the caller's environment. */
    method StdLoadFile(fuel: nat, args: seq<Node>, env: Environment) returns (r: Result<Value>)
      requires primitives == S.PrimitiveTable && env.Valid()
      modifies env
      ensures S.StdLoadFile(host, fuel, args, old(env.Frames())) == S.Step(r, env.vars)
      decreases fuel, 5
    {
      if |args| != 1 {
        return Err(Arity("load-file"));
      }
      var filename := Eval(fuel, args[0], env);
      if filename.Err? {
        return filename;
      }
      if !filename.value.String? {
        return Err(TypeMismatch("load-file"));
      }
      var content := host.readFile(filename.value.text);
      if content.None? {
        return Err(IOError(filename.value.text));
      }
      var tokens := Lexer.TokenizeLisp(content.value);
      r := LoadTokens(fuel, tokens, env);
    }

    /** The read-evaluate loop of `std_load_file`: one form at a time from a
        token stream, each evaluated in `env`; TRUE once the stream is
        exhausted. */
    method LoadTokens(fuel: nat, tokens: seq<string>, env: Environment) returns (r: Result<Value>)
      requires primitives == S.PrimitiveTable && env.Valid()
      modifies env
      ensures S.LoadForms(host, fuel, tokens, 0, old(env.Frames())) == S.Step(r, env.vars)
      decreases fuel, 1, 1
    {
      var ts := new Reader.TokenStream(tokens);
      while ts.HasNext()
        invariant env.Valid() && ts.Valid() && fresh(ts) && ts.tokens == tokens
        invariant S.LoadForms(host, fuel, tokens, 0, old(env.Frames()))
               == S.LoadForms(host, fuel, tokens, ts.pos, env.Frames())
        decreases |tokens| - ts.pos
      {
        var stop;
        stop, r := LoadOne(fuel, ts, env);
        if stop {
          return r;
        }
      }
      return Ok(Bool(true));
    }

    /** One turn of the LOAD-FILE loop: read a form and evaluate it; `stop`
        when either fails, with the failure in `r`. */
    method LoadOne(fuel: nat, ts: Reader.TokenStream, env: Environment) returns (stop: bool, r: Result<Value>)
      requires primitives == S.PrimitiveTable && env.Valid() && ts.Valid() && ts.HasNext()
      modifies env, ts
      ensures env.Valid() && ts.Valid() && ts.pos > old(ts.pos)
      ensures stop ==> S.LoadForms(host, fuel, ts.tokens, old(ts.pos), old(env.Frames())) == S.Step(r, env.vars)
      ensures !stop ==>
        S.LoadForms(host, fuel, ts.tokens, old(ts.pos), old(env.Frames()))
          == S.LoadForms(host, fuel, ts.tokens, ts.pos, env.Frames())
      decreases fuel, 1, 0
    {
      var exp := Reader.ParseTokens(ts);
      if exp.Err? {
        return true, Err(exp.error);
      }
      r := Eval(fuel, exp.value, env);
      stop := r.Err?;
    }

    /** `std_draw_plot` without the painting: the three operands, the type
        check that answers FALSE, and the sampling loop whose failures
        propagate. */
    method StdDrawPlot(fuel: nat, args: seq<Node>, env: Environment) returns (r: Result<Value>)
      requires primitives == S.PrimitiveTable && env.Valid()
      modifies env
      ensures S.StdDrawPlot(host, fuel, args, old(env.Frames())) == S.Step(r, env.vars)
      decreases fuel, 5
    {
      if |args| != 3 {
        return Err(Arity("draw-plot"));
      }
      var vals := EvalArgs(fuel, args, env);
      if vals.Err? {
        return Err(vals.error);
      }
      var wd, hg, lm := vals.value[0], vals.value[1], vals.value[2];
      if !wd.Number? || !hg.Number? || !lm.Lambda? {
        return Ok(Bool(false));
      }
      var xs := host.plotSamples(wd.num, hg.num);
      r := PlotSamples(fuel, lm.params, lm.body, xs, env);
    }

    /** The sampling loop of `std_draw_plot`: the procedure applied to each
        x in turn; a failure ends the plot. */
    method PlotSamples(fuel: nat, params: seq<string>, body: Node, xs: seq<real>, env: Environment)
      returns (r: Result<Value>)
      requires primitives == S.PrimitiveTable && env.Valid()
      modifies env
      ensures S.PlotLoop(host, fuel, params, body, xs, 0, old(env.Frames())) == S.Step(r, env.vars)
      decreases fuel, 4, 1
    {
      for i := 0 to |xs|
        invariant env.Valid()
        invariant S.PlotLoop(host, fuel, params, body, xs, 0, old(env.Frames()))
               == S.PlotLoop(host, fuel, params, body, xs, i, env.Frames())
      {
        r := PlotStep(fuel, params, body, xs, i, env);
        if r.Err? {
          return r;
        }
      }
      return Ok(Bool(true));
    }

    /** One turn of the sampling loop: the procedure applied to `xs[i]`. */
    method PlotStep(fuel: nat, params: seq<string>, body: Node, xs: seq<real>, i: nat, env: Environment)
      returns (r: Result<Value>)
      requires primitives == S.PrimitiveTable && env.Valid() && i < |xs|
      modifies env
      ensures env.Valid()
      ensures r.Err? ==> S.PlotLoop(host, fuel, params, body, xs, i, old(env.Frames())) == S.Step(r, env.vars)
      ensures r.Ok? ==>
        S.PlotLoop(host, fuel, params, body, xs, i, old(env.Frames()))
          == S.PlotLoop(host, fuel, params, body, xs, i + 1, env.Frames())
      decreases fuel, 4, 0
    {
      ghost var before := env.Frames();
      r := ApplyLambda(fuel, params, body, [Number(xs[i])], env);
      assert env.Frames() == before;
    }

    /** The evaluate button: the balance check, then one form read and
        evaluated in the global environment. */
    method EvaluateSource(fuel: nat, src: string, env: Environment) returns (r: Result<Value>)
      requires primitives == S.PrimitiveTable && env.Valid()
      modifies env
      ensures S.EvaluateSource(host, fuel, src, old(env.Frames())) == S.Step(r, env.vars)
    {
      var balanced := Lexer.AreParenthesesBalanced(src);
      if !balanced {
        return Err(Unbalanced);
      }
      var tokens := Lexer.TokenizeLisp(src);
      var ts := new Reader.TokenStream(tokens);
      var exp := Reader.ParseTokens(ts);
      if exp.Err? {
        return Err(exp.error);
      }
      r := Eval(fuel, exp.value, env);
    }
  }
}
