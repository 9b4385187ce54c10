/**
 Programs in which the pass never changes an outcome: those whose hoisted operands are
 arithmetic over literals and names that hold integers.
*/
module LoweringSafe {
  import opened LoweringSyntax
  import opened Lowering
  import opened LoweringScope
  import opened LoweringProof
  import opened LoweringTheorem

  // ---------------------------------------------------------------------
  // Names that hold integers
  // ---------------------------------------------------------------------

  // x is bound by a let to integer arithmetic, or is one of the given integer inputs.
  predicate KnownInt(scope: Scope, x: string, inputs: set<string>)
    decreases scope, 0
  {
    match scope
    case Top => x in inputs
    case Inside(clauses, outer) => ClausesSay(clauses, |clauses|, x, "").Passes? && KnownInt(outer, x, inputs)
    case LetIn(y, bound, outer) => if x == y then IntExpr(bound, outer, inputs) else KnownInt(outer, x, inputs)
    case Params(names, outer) => x !in names && KnownInt(outer, x, inputs)
  }

  // Arithmetic over such names and literals that cannot fail.
  predicate IntExpr(e: Expr, scope: Scope, inputs: set<string>)
    decreases scope, 1, e
  {
    match e
    case Int(_) => true
    case Ident(x) => KnownInt(scope, x, inputs)
    case Bin(op, l, r) =>
      && (op.Add? || op.Sub? || op.Mul? || ((op.Div? || op.Mod?) && r.Int? && r.v != 0))
      && IntExpr(l, scope, inputs) && IntExpr(r, scope, inputs)
    case _ => false
  }

  ghost predicate IntsHold(env: Env, scope: Scope, inputs: set<string>) {
    forall x :: KnownInt(scope, x, inputs) ==> IsInt(Lookup(env, x))
  }

  lemma {:induction false} IntExprIsInt(n: nat, e: Expr, env: Env, scope: Scope, scope': Scope, inputs: set<string>)
    requires IntExpr(e, scope, inputs) && IntsHold(env, scope, inputs)
    ensures IsInt(Eval(n, e, env, scope')) && Slips(n, e, env, scope', false).NoSlip?
    decreases e
  {
    if e.Bin? {
      IntExprIsInt(n, e.left, env, scope, scope', inputs);
      IntExprIsInt(n, e.right, env, scope, scope', inputs);
    }
  }

  lemma IntsImport(env: Env, clauses: seq<Clause>, outer: Scope, inputs: set<string>)
    requires IntsHold(env, outer, inputs)
    ensures IntsHold(BindClauses(env, clauses, |clauses|), Inside(clauses, outer), inputs)
  {
    forall x | KnownInt(Inside(clauses, outer), x, inputs)
      ensures IsInt(Lookup(BindClauses(env, clauses, |clauses|), x))
    {
      ClausesFind(env, clauses, |clauses|, x, "");
    }
  }

  lemma IntsLet(n: nat, env: Env, x: string, bound: Expr, outer: Scope, inputs: set<string>)
    requires IntsHold(env, outer, inputs) && Eval(n, bound, env, outer).Val?
    ensures IntsHold(Bind(x, Eval(n, bound, env, outer).v, env), LetIn(x, bound, outer), inputs)
  {
    if IntExpr(bound, outer, inputs) { IntExprIsInt(n, bound, env, outer, outer, inputs); }
  }

  // ---------------------------------------------------------------------
  // Programs and values whose operands are known
  // ---------------------------------------------------------------------

  predicate OperandKnown(call: Call, args: Args, scope: Scope, inputs: set<string>) {
    var m := MatchApply(call, args, scope);
    m.Some? && m.value.scalar.Hoisted? ==> IntExpr(m.value.scalar.e, scope, inputs)
  }

  // Every site hoists integer arithmetic only.
  predicate Safe(e: Expr, scope: Scope, inner: bool, inputs: set<string>) {
    match e
    case Int(_) => true
    case Ident(_) => true
    case Bin(_, l, r) => Safe(l, scope, false, inputs) && Safe(r, scope, false, inputs)
    case Lambda(params, body) => Safe(body, Params(params, scope), false, inputs)
    case Apply(call, args) =>
      && (!inner ==> OperandKnown(call, args, scope, inputs))
      && (call.Of? ==> Safe(call.e, scope, true, inputs)) && SafeArgs(args, scope, inputs)
    case Import(clauses, inside) => Safe(inside, Inside(clauses, scope), false, inputs)
    case Let(x, bound, inside) =>
      Safe(bound, scope, false, inputs) && Safe(inside, LetIn(x, bound, scope), false, inputs)
    case If(c, t, f) =>
      Safe(c, scope, false, inputs) && Safe(t, scope, false, inputs) && Safe(f, scope, false, inputs)
    case Kernel(_, _, _) => false
  }

  predicate SafeArgs(args: Args, scope: Scope, inputs: set<string>) {
    args.Arg? ==> Safe(args.first, scope, false, inputs) && SafeArgs(args.rest, scope, inputs)
  }

  ghost predicate SafeValue(v: Value, inputs: set<string>) {
    match v
    case VClosure(params, body, env, scope) =>
      && IntsHold(env, scope, inputs) && SafeEnv(env, inputs) && Safe(body, scope, false, inputs)
      && forall p :: p in params ==> !KnownInt(scope, p, inputs)
    case VPrim(_, got) => SafeValues(got, inputs)
    case _ => true
  }

  ghost predicate SafeValues(vs: Values, inputs: set<string>) {
    vs.Cons? ==> SafeValue(vs.head, inputs) && SafeValues(vs.tail, inputs)
  }

  ghost predicate SafeEnv(env: Env, inputs: set<string>) {
    env.Bind? ==> SafeValue(env.value, inputs) && SafeEnv(env.rest, inputs)
  }

  lemma {:induction false} SafeLookup(env: Env, x: string, inputs: set<string>)
    requires SafeEnv(env, inputs)
    ensures Lookup(env, x).Val? ==> SafeValue(Lookup(env, x).v, inputs)
  {
    if env.Bind? { SafeLookup(env.rest, x, inputs); }
  }

  lemma {:induction false} SafeAppend(vs: Values, v: Value, inputs: set<string>)
    requires SafeValues(vs, inputs) && SafeValue(v, inputs)
    ensures SafeValues(Append(vs, v), inputs)
  {
    if vs.Cons? { SafeAppend(vs.tail, v, inputs); }
  }

  lemma {:induction false} SafeAliases(env: Env, fqn: string, aliases: seq<Alias>, n: nat, inputs: set<string>)
    requires n <= |aliases| && SafeEnv(env, inputs)
    ensures SafeEnv(BindAliases(env, fqn, aliases, n), inputs)
  {
    if n > 0 { SafeAliases(env, fqn, aliases, n - 1, inputs); }
  }

  lemma {:induction false} SafeExports(env: Env, fqn: string, exports: seq<string>, n: nat, inputs: set<string>)
    requires n <= |exports| && SafeEnv(env, inputs)
    ensures SafeEnv(BindExports(env, fqn, exports, n), inputs)
  {
    if n > 0 { SafeExports(env, fqn, exports, n - 1, inputs); }
  }

  lemma {:induction false} SafeClauses(env: Env, clauses: seq<Clause>, n: nat, inputs: set<string>)
    requires n <= |clauses| && SafeEnv(env, inputs)
    ensures SafeEnv(BindClauses(env, clauses, n), inputs)
  {
    if n > 0 {
      SafeClauses(env, clauses, n - 1, inputs);
      var before := BindClauses(env, clauses, n - 1);
      match clauses[n - 1]
      case Functions(fqn, aliases) => SafeAliases(before, fqn, aliases, |aliases|, inputs);
      case WholeModule(fqn, exports) => SafeExports(before, fqn, exports, |exports|, inputs);
    }
  }

  // The arguments of a flattened chain are those of its applications.
  lemma {:induction false} FlatSafe(e: Expr, scope: Scope, inner: bool, inputs: set<string>)
    requires e.Apply? && Safe(e, scope, inner, inputs)
    ensures SafeArgs(FlatArgs(e.call, e.args), scope, inputs)
    decreases e
  {
    if e.call.Of? && e.call.e.Apply? {
      FlatSafe(e.call.e, scope, true, inputs);
      SafeJoin(FlatArgs(e.call.e.call, e.call.e.args), e.args, scope, inputs);
    }
  }

  lemma {:induction false} SafeJoin(a: Args, b: Args, scope: Scope, inputs: set<string>)
    requires SafeArgs(a, scope, inputs) && SafeArgs(b, scope, inputs)
    ensures SafeArgs(Join(a, b), scope, inputs)
  {
    if a.Arg? { SafeJoin(a.rest, b, scope, inputs); }
  }

  lemma {:induction false} LastSafe(args: Args, scope: Scope, inputs: set<string>)
    requires args.Arg? && SafeArgs(args, scope, inputs)
    ensures Safe(LastArg(args), scope, false, inputs)
  {
    if args.rest.Arg? { LastSafe(args.rest, scope, inputs); }
  }

  // ---------------------------------------------------------------------
  // Their evaluation never reaches a site that would trap
  // ---------------------------------------------------------------------

  // No slip, and a value whose operands are known.
  ghost predicate Calm(r: Outcome, slip: Slip, inputs: set<string>) {
    slip.NoSlip? && (r.Val? ==> SafeValue(r.v, inputs))
  }

  lemma {:induction false} NeverSlips(n: nat, e: Expr, env: Env, scope: Scope, inner: bool, inputs: set<string>)
    requires Safe(e, scope, inner, inputs) && IntsHold(env, scope, inputs) && SafeEnv(env, inputs)
    ensures Calm(Eval(n, e, env, scope), Slips(n, e, env, scope, inner), inputs)
    decreases n, 4, e, 1
  {
    match e
    case Int(_) =>
    case Ident(x) => SafeLookup(env, x, inputs);
    case Bin(op, l, r) =>
      NeverSlips(n, l, env, scope, false, inputs);
      NeverSlips(n, r, env, scope, false, inputs);
      var a, b := Eval(n, l, env, scope), Eval(n, r, env, scope);
      if a.Val? && b.Val? { CombineCalm(n, op, a.v, b.v, inputs); }
    case Lambda(_, _) =>
    case Apply(_, _) => ApplyCalm(n, e, env, scope, inner, inputs);
    case Import(clauses, inside) =>
      IntsImport(env, clauses, scope, inputs);
      SafeClauses(env, clauses, |clauses|, inputs);
      NeverSlips(n, inside, BindClauses(env, clauses, |clauses|), Inside(clauses, scope), false, inputs);
    case Let(x, bound, inside) =>
      NeverSlips(n, bound, env, scope, false, inputs);
      var v := Eval(n, bound, env, scope);
      if v.Val? {
        IntsLet(n, env, x, bound, scope, inputs);
        NeverSlips(n, inside, Bind(x, v.v, env), LetIn(x, bound, scope), false, inputs);
      }
    case If(c, t, f) =>
      NeverSlips(n, c, env, scope, false, inputs);
      NeverSlips(n, t, env, scope, false, inputs);
      NeverSlips(n, f, env, scope, false, inputs);
  }

  lemma {:induction false} CombineCalm(n: nat, op: Op, l: Value, r: Value, inputs: set<string>)
    requires SafeValue(l, inputs) && SafeValue(r, inputs)
    ensures Calm(Combine(n, op, l, r), CombineSlips(n, op, l, r), inputs)
    decreases n, 3
  {
    match op
    case PipeRight => OneCalm(n, r, l, inputs);
    case PipeLeft => OneCalm(n, l, r, inputs);
    case _ =>
  }

  lemma {:induction false} ApplyCalm(n: nat, e: Expr, env: Env, scope: Scope, inner: bool, inputs: set<string>)
    requires e.Apply? && Safe(e, scope, inner, inputs) && IntsHold(env, scope, inputs) && SafeEnv(env, inputs)
    ensures Calm(Eval(n, e, env, scope), Slips(n, e, env, scope, inner), inputs)
    decreases n, 4, e, 0
  {
    var call, args := e.call, e.args;
    var f, vs := Callee(n, call, env, scope), EvalArgs(n, args, env, scope);
    match call {
      case Name(x) => SafeLookup(env, x, inputs);
      case Module(_, _) =>
      case Of(c) => NeverSlips(n, c, env, scope, true, inputs);
    }
    ArgsCalm(n, args, env, scope, inputs);
    if f.Val? && vs.Vals? { AllCalm(n, f.v, vs.vs, inputs); }
    if !inner && MatchApply(call, args, scope).Some? { SiteCalm(n, e, env, scope, inputs); }
  }

  lemma {:induction false} SiteCalm(n: nat, e: Expr, env: Env, scope: Scope, inputs: set<string>)
    requires e.Apply? && Safe(e, scope, false, inputs) && IntsHold(env, scope, inputs) && SafeEnv(env, inputs)
    requires MatchApply(e.call, e.args, scope).Some?
    ensures Slips(n, e, env, scope, false).NoSlip?
    decreases n, 4, e, -1
  {
    var m := MatchApply(e.call, e.args, scope).value;
    PartsInside(e.call, e.args, scope);
    FlatSafe(e, scope, false, inputs);
    LastSafe(FlatArgs(e.call, e.args), scope, inputs);
    NeverSlips(n, m.column, env, scope, false, inputs);
    if m.scalar.Hoisted? { IntExprIsInt(Inner(n), m.scalar.e, env, scope, scope, inputs); }
  }

  lemma {:induction false} ArgsCalm(n: nat, args: Args, env: Env, scope: Scope, inputs: set<string>)
    requires SafeArgs(args, scope, inputs) && IntsHold(env, scope, inputs) && SafeEnv(env, inputs)
    ensures ArgsSlip(n, args, env, scope).NoSlip?
    ensures EvalArgs(n, args, env, scope).Vals? ==> SafeValues(EvalArgs(n, args, env, scope).vs, inputs)
    decreases n, 4, args
  {
    if args.Arg? {
      NeverSlips(n, args.first, env, scope, false, inputs);
      ArgsCalm(n, args.rest, env, scope, inputs);
    }
  }

  lemma {:induction false} AllCalm(n: nat, f: Value, vs: Values, inputs: set<string>)
    requires SafeValue(f, inputs) && SafeValues(vs, inputs)
    ensures Calm(ApplyAll(n, f, vs), AllSlip(n, f, vs), inputs)
    decreases n, 3, vs
  {
    if vs.Cons? {
      OneCalm(n, f, vs.head, inputs);
      var g := Apply1(n, f, vs.head);
      if g.Val? { AllCalm(n, g.v, vs.tail, inputs); }
    }
  }

  lemma {:induction false} OneCalm(n: nat, f: Value, v: Value, inputs: set<string>)
    requires SafeValue(f, inputs) && SafeValue(v, inputs)
    ensures Calm(Apply1(n, f, v), OneSlips(n, f, v), inputs)
    decreases n, 2
  {
    match f
    case VClosure(params, body, env, scope) =>
      if params != [] {
        assert params[0] in params;
        if |params| == 1 && n > 0 { NeverSlips(n - 1, body, Bind(params[0], v, env), scope, false, inputs); }
      }
    case VPrim(symbol, got) =>
      SafeAppend(got, v, inputs);
      if n > 1 && Length(got) + 1 == Arity(symbol) { PrimCalm(n - 1, symbol, Append(got, v), inputs); }
    case _ =>
  }

  lemma {:induction false} PrimCalm(n: nat, symbol: string, vs: Values, inputs: set<string>)
    requires SafeValues(vs, inputs)
    ensures Calm(RunPrim(n, symbol, vs), PrimSlips(n, symbol, vs), inputs)
    decreases n, 5
  {
    match vs
    case Cons(f, Cons(VArr(xs), Nil)) =>
      MapCalm(n, f, xs, inputs);
      FilterCalm(n, f, xs, inputs);
    case Cons(f, Cons(init, Cons(VArr(xs), Nil))) => FoldCalm(n, f, init, xs, inputs);
    case _ =>
  }

  lemma {:induction false} MapCalm(n: nat, f: Value, xs: seq<int>, inputs: set<string>)
    requires SafeValue(f, inputs)
    ensures Calm(MapColumn(n, f, xs), MapSlips(n, f, xs), inputs)
    decreases n, 3, |xs|
  {
    if xs != [] {
      OneCalm(n, f, VInt(xs[0]), inputs);
      MapCalm(n, f, xs[1..], inputs);
    }
  }

  lemma {:induction false} FilterCalm(n: nat, f: Value, xs: seq<int>, inputs: set<string>)
    requires SafeValue(f, inputs)
    ensures Calm(FilterColumn(n, f, xs), FilterSlips(n, f, xs), inputs)
    decreases n, 3, |xs|
  {
    if xs != [] {
      OneCalm(n, f, VInt(xs[0]), inputs);
      FilterCalm(n, f, xs[1..], inputs);
    }
  }

  lemma {:induction false} FoldCalm(n: nat, f: Value, acc: Value, xs: seq<int>, inputs: set<string>)
    requires SafeValue(f, inputs) && SafeValue(acc, inputs)
    ensures Calm(FoldColumn(n, f, acc, xs), FoldSlips(n, f, acc, xs), inputs)
    decreases n, 3, |xs|
  {
    if xs != [] {
      OneCalm(n, f, acc, inputs);
      var g := Apply1(n, f, acc);
      if g.Val? {
        OneCalm(n, g.v, VInt(xs[0]), inputs);
        var next := Apply1(n, g.v, VInt(xs[0]));
        if next.Val? { FoldCalm(n, f, next.v, xs[1..], inputs); }
      }
    }
  }

  lemma {:induction false} DataSafe(env: Env, inputs: set<string>)
    requires Data(env)
    ensures SafeEnv(env, inputs)
  {
    if env.Bind? { DataSafe(env.rest, inputs); }
  }

  /**
   If every operand the pass hoists is arithmetic over literals and names that hold
   integers, the lowered program has the original's outcome, whatever it is, on every
   input and with any fuel.
  */
  lemma SafeLoweringPreserves(n: nat, e: Expr, env: Env, inputs: set<string>)
    requires Clean(e, Top, false) && Safe(e, Top, false, inputs)
    requires Data(env) && forall x :: x in inputs ==> IsInt(Lookup(env, x))
    ensures Eval(n, Rewrite(e, Top, false), env, Top) == RO(Eval(n, e, env, Top))
  {
    DataSafe(env, inputs);
    NeverSlips(n, e, env, Top, false, inputs);
    LoweredOutcome(n, e, env);
  }
}
