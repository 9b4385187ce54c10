/**
 Values of the original and of the lowered program, and what the column functions
 compute over the lambdas that the accelerator pass accepts.
*/
module LoweringProof {
  import opened LoweringSyntax
  import opened Lowering
  import opened LoweringScope
  import opened LoweringFuel

  // ---------------------------------------------------------------------
  // The sites the pass may rewrite
  // ---------------------------------------------------------------------

  predicate DistinctParams(args: Args) {
    args.Arg? && args.first.Lambda? && |args.first.params| == 2 ==> args.first.params[0] != args.first.params[1]
  }

  // The name at the head of the call means the import that the pass finds for it.
  predicate HeadSeen(head: Head, scope: Scope) { head.ByName? ==> Seen(scope, head.name) }

  // A site that the pass rewrites calls what the pass takes it to call, and folds with
  // two parameters.
  predicate SiteOk(call: Call, args: Args, scope: Scope) {
    var m := MatchApply(call, args, scope);
    m.Some? ==>
      && HeadSeen(FlatHead(call), scope)
      && (m.value.kernel == ReduceSum ==> DistinctParams(FlatArgs(call, args)))
  }

  // Every site of a source program is like that.
  predicate Clean(e: Expr, scope: Scope, inner: bool) {
    match e
    case Int(_) => true
    case Ident(_) => true
    case Bin(_, l, r) => Clean(l, scope, false) && Clean(r, scope, false)
    case Lambda(params, body) => Clean(body, Params(params, scope), false)
    case Apply(call, args) =>
      && (!inner ==> SiteOk(call, args, scope))
      && (call.Of? ==> Clean(call.e, scope, true)) && CleanArgs(args, scope)
    case Import(clauses, inside) => Clean(inside, Inside(clauses, scope), false)
    case Let(x, bound, inside) => Clean(bound, scope, false) && Clean(inside, LetIn(x, bound, scope), false)
    case If(c, t, f) => Clean(c, scope, false) && Clean(t, scope, false) && Clean(f, scope, false)
    case Kernel(_, _, _) => false
  }

  predicate CleanArgs(args: Args, scope: Scope) {
    args.Arg? ==> Clean(args.first, scope, false) && CleanArgs(args.rest, scope)
  }

  // ---------------------------------------------------------------------
  // Values of the lowered program
  // ---------------------------------------------------------------------

  function RS(scope: Scope): Scope {
    match scope
    case Top => Top
    case Inside(clauses, outer) => Inside(clauses, RS(outer))
    case LetIn(x, bound, outer) => LetIn(x, Rewrite(bound, outer, false), RS(outer))
    case Params(names, outer) => Params(names, RS(outer))
  }

  function RV(v: Value): Value {
    match v
    case VClosure(params, body, env, scope) => VClosure(params, Rewrite(body, scope, false), RE(env), RS(scope))
    case VPrim(symbol, got) => VPrim(symbol, RVs(got))
    case _ => v
  }

  function RVs(vs: Values): Values {
    match vs
    case Nil => Nil
    case Cons(v, rest) => Cons(RV(v), RVs(rest))
  }

  function RE(env: Env): Env {
    match env
    case Empty => Empty
    case Bind(x, v, rest) => Bind(x, RV(v), RE(rest))
  }

  function RO(r: Outcome): Outcome { if r.Val? then Val(RV(r.v)) else r }

  ghost predicate ValueOk(v: Value) {
    match v
    case VClosure(params, body, env, scope) =>
      && Agrees(env, scope) && EnvOk(env) && Clean(body, scope, false)
      && forall p :: p in params ==> !Seen(scope, p)
    case VPrim(_, got) => ValuesOk(got)
    case _ => true
  }

  ghost predicate ValuesOk(vs: Values) { vs.Cons? ==> ValueOk(vs.head) && ValuesOk(vs.tail) }

  ghost predicate EnvOk(env: Env) { env.Bind? ==> ValueOk(env.value) && EnvOk(env.rest) }

  lemma {:induction false} LookupOk(env: Env, x: string)
    requires EnvOk(env)
    ensures Lookup(RE(env), x) == RO(Lookup(env, x)) && (Lookup(env, x).Val? ==> ValueOk(Lookup(env, x).v))
    ensures !Lookup(env, x).OutOfFuel?
  {
    if env.Bind? { LookupOk(env.rest, x); }
  }

  lemma {:induction false} AliasesOk(env: Env, fqn: string, aliases: seq<Alias>, n: nat)
    requires n <= |aliases| && EnvOk(env)
    ensures EnvOk(BindAliases(env, fqn, aliases, n))
    ensures RE(BindAliases(env, fqn, aliases, n)) == BindAliases(RE(env), fqn, aliases, n)
  {
    if n > 0 {
      AliasesOk(env, fqn, aliases, n - 1);
      var v := VPrim(Mangle(fqn, aliases[n - 1].name), Nil);
      assert RV(v) == v;
    }
  }

  lemma {:induction false} ExportsOk(env: Env, fqn: string, exports: seq<string>, n: nat)
    requires n <= |exports| && EnvOk(env)
    ensures EnvOk(BindExports(env, fqn, exports, n))
    ensures RE(BindExports(env, fqn, exports, n)) == BindExports(RE(env), fqn, exports, n)
  {
    if n > 0 {
      ExportsOk(env, fqn, exports, n - 1);
      var v := VPrim(Mangle(fqn, exports[n - 1]), Nil);
      assert RV(v) == v;
    }
  }

  lemma {:induction false} ClausesOk(env: Env, clauses: seq<Clause>, n: nat)
    requires n <= |clauses| && EnvOk(env)
    ensures EnvOk(BindClauses(env, clauses, n))
    ensures RE(BindClauses(env, clauses, n)) == BindClauses(RE(env), clauses, n)
  {
    if n > 0 {
      ClausesOk(env, clauses, n - 1);
      var before := BindClauses(env, clauses, n - 1);
      match clauses[n - 1]
      case Functions(fqn, aliases) => AliasesOk(before, fqn, aliases, |aliases|);
      case WholeModule(fqn, exports) => ExportsOk(before, fqn, exports, |exports|);
    }
  }

  lemma {:induction false} AppendOk(vs: Values, v: Value)
    ensures RVs(Append(vs, v)) == Append(RVs(vs), RV(v)) && Length(RVs(vs)) == Length(vs)
    ensures ValuesOk(vs) && ValueOk(v) ==> ValuesOk(Append(vs, v))
  {
    if vs.Cons? { AppendOk(vs.tail, v); }
  }

  // ---------------------------------------------------------------------
  // Flattening an application keeps its meaning
  // ---------------------------------------------------------------------

  function Count(args: Args): nat { if args.NoArgs? then 0 else 1 + Count(args.rest) }

  function JoinValues(a: Values, b: Values): Values {
    match a
    case Nil => b
    case Cons(v, rest) => Cons(v, JoinValues(rest, b))
  }

  lemma {:induction false} ApplyJoined(n: nat, f: Value, a: Values, b: Values)
    ensures var g := ApplyAll(n, f, a);
            ApplyAll(n, f, JoinValues(a, b)) == if g.Val? then ApplyAll(n, g.v, b) else g
    decreases a
  {
    if a.Cons? {
      var g := Apply1(n, f, a.head);
      if g.Val? { ApplyJoined(n, g.v, a.tail, b); }
    }
  }

  lemma {:induction false} ArgsJoined(n: nat, a: Args, b: Args, env: Env, scope: Scope)
    ensures var va, vb := EvalArgs(n, a, env, scope), EvalArgs(n, b, env, scope);
            EvalArgs(n, Join(a, b), env, scope)
            == if !va.Vals? then va else if !vb.Vals? then vb else Vals(JoinValues(va.vs, vb.vs))
    ensures EvalArgs(n, a, env, scope).Vals? ==> Length(EvalArgs(n, a, env, scope).vs) == Count(a)
    ensures Count(Join(a, b)) == Count(a) + Count(b)
    decreases a
  {
    if a.Arg? { ArgsJoined(n, a.rest, b, env, scope); }
  }

  // Too few arguments only wait for more.
  lemma {:induction false} PartialWaits(n: nat, symbol: string, got: Values, vs: Values)
    requires Length(got) + Length(vs) < Arity(symbol)
    ensures ApplyAll(n, VPrim(symbol, got), vs).Val?
    decreases vs
  {
    if vs.Cons? {
      AppendLength(got, vs.head);
      PartialWaits(n, symbol, Append(got, vs.head), vs.tail);
    }
  }

  lemma {:induction false} AppendLength(vs: Values, v: Value)
    ensures Length(Append(vs, v)) == Length(vs) + 1
  {
    if vs.Cons? { AppendLength(vs.tail, v); }
  }

  // A column function applied to all its flattened arguments.
  function EvalFlat(n: nat, symbol: string, args: Args, env: Env, scope: Scope): Outcome {
    var vs := EvalArgs(n, args, env, scope);
    if vs.TrapAll? then Trap else if vs.OutOfFuelAll? then OutOfFuel else ApplyAll(n, VPrim(symbol, Nil), vs.vs)
  }

  lemma {:induction false} FlatMeaning(n: nat, call: Call, args: Args, env: Env, scope: Scope, symbol: string)
    requires Agrees(env, scope) && Symbol(FlatHead(call), scope) == Some(symbol) && HeadSeen(FlatHead(call), scope)
    requires Count(FlatArgs(call, args)) <= Arity(symbol)
    ensures Eval(n, Apply(call, args), env, scope) == EvalFlat(n, symbol, FlatArgs(call, args), env, scope)
    decreases call
  {
    if call.Of? {
      var c, a := call.e.call, FlatArgs(call.e.call, call.e.args);
      ArgsJoined(n, a, args, env, scope);
      FlatMeaning(n, c, call.e.args, env, scope, symbol);
      var va, vb := EvalArgs(n, a, env, scope), EvalArgs(n, args, env, scope);
      if va.Vals? {
        if vb.Vals? { ApplyJoined(n, VPrim(symbol, Nil), va.vs, vb.vs); }
        if args.Arg? { PartialWaits(n, symbol, Nil, va.vs); }
      }
    }
  }

  // ---------------------------------------------------------------------
  // Hoisting
  // ---------------------------------------------------------------------

  // A simple scalar means the same inside the lambda and outside.
  lemma {:induction false} HoistSame(e: Expr, p: string, v: Value, env: Env, n: nat, scope: Scope, scope': Scope)
    requires IsSimpleScalar(e, p)
    ensures Eval(n, e, Bind(p, v, env), scope) == Eval(n, e, env, scope')
    decreases e
  {
    if e.Bin? {
      HoistSame(e.left, p, v, env, n, scope, scope');
      HoistSame(e.right, p, v, env, n, scope, scope');
    }
  }

  // Whatever fuel the two runs have, if both end they give the same; and if the one
  // inside ends, so does one outside with no less.
  lemma Hoist(e: Expr, p: string, v: Value, env: Env, n: nat, k: nat, scope: Scope, scope': Scope)
    requires IsSimpleScalar(e, p) && !Eval(n, e, Bind(p, v, env), scope).OutOfFuel?
    ensures n <= k || !Eval(k, e, env, scope').OutOfFuel? ==>
              Eval(k, e, env, scope') == Eval(n, e, Bind(p, v, env), scope)
  {
    HoistSame(e, p, v, env, n, scope, scope');
    if n <= k {
      EvalMore(n, k, e, env, scope');
    } else if !Eval(k, e, env, scope').OutOfFuel? {
      EvalMore(k, n, e, env, scope');
    }
  }

  // It has no sites, so the pass leaves it alone.
  lemma {:induction false} SimpleKept(e: Expr, p: string, scope: Scope)
    requires IsSimpleScalar(e, p)
    ensures Rewrite(e, scope, false) == e && Clean(e, scope, false)
  {
    if e.Bin? {
      SimpleKept(e.left, p, scope);
      SimpleKept(e.right, p, scope);
    }
  }

  lemma OperateSame(op: Op, l: Value, r: Value)
    ensures Operate(op, RV(l), RV(r)) == RO(Operate(op, l, r))
  {
  }

  // ---------------------------------------------------------------------
  // Column functions over the lambdas the pass accepts
  // ---------------------------------------------------------------------

  lemma WrapNegate(x: int, v: int)
    ensures Wrap(x + Wrap(-v)) == Wrap(x - v)
  {
    var q := (-v + TWO63) / TWO64;
    assert Wrap(-v) == -v + (-q) * TWO64;
    SameResidue(x - v + TWO63, -q);
  }

  // The operand of a kernel, where the lambda it replaces would have evaluated it: n is
  // the fuel of the site.
  function Operand(n: nat, s: Scalar, env: Env, scope: Scope): Outcome {
    match s
    case NoScalar => Val(VInt(0))
    case Literal(v) => Val(VInt(v))
    case Hoisted(h, negate) => Negated(Eval(Inner(n), h, env, scope), negate)
  }

  predicate IsInt(r: Outcome) { r.Val? && r.v.VInt? }

  predicate OperandSimple(s: Scalar, p: string) { s.Hoisted? ==> IsSimpleScalar(s.e, p) }

  lemma ClassifiedSimple(f: Expr, column: Expr)
    ensures ClassifyMap(f, column).Some? ==> OperandSimple(ClassifyMap(f, column).value.scalar, f.params[0])
    ensures ClassifyFilter(f, column).Some? ==> OperandSimple(ClassifyFilter(f, column).value.scalar, f.params[0])
  {
  }

  // What a lambda computes of an operand that must be an integer.
  function Mapped(k: KernelName, s: Outcome, x: int): Outcome {
    if s.OutOfFuel? then OutOfFuel else if IsInt(s) then Val(VInt(Elem(k, s.v.i, x))) else Trap
  }

  function Tested(k: KernelName, s: Outcome, x: int): Outcome {
    if s.OutOfFuel? then OutOfFuel else if IsInt(s) then Val(VBool(Keeps(k, s.v.i, x))) else Trap
  }

  // A whole column: once there are elements, the operand decides.
  function OnColumn(k: KernelName, s: Outcome, xs: seq<int>): Outcome {
    if xs == [] then (if k.ReduceSum? then Val(VInt(0)) else Val(VArr([])))
    else if s.OutOfFuel? then OutOfFuel
    else if s.Val? then RunKernel(k, s.v, VArr(xs))
    else Trap
  }

  // One element of a map: the lambda computes what the kernel computes, or fails when
  // the operand gives no integer.
  lemma MapElement(k: nat, f: Expr, column: Expr, env: Env, scope: Scope, x: int, outer: Scope)
    requires ClassifyMap(f, column).Some? && k > 0
    ensures var m := ClassifyMap(f, column).value;
            Apply1(k, VClosure(f.params, f.body, env, scope), VInt(x))
            == Mapped(m.kernel, Operand(k + 1, m.scalar, env, outer), x)
  {
    ParamMeaning(k, f, env, scope, x);
    var m, p, inner := ClassifyMap(f, column).value, f.params[0], Bind(f.params[0], VInt(x), env);
    if m.scalar.Hoisted? { HoistSame(m.scalar.e, p, VInt(x), env, k - 1, scope, outer); }
    var h := if m.scalar.Hoisted? then Eval(k - 1, m.scalar.e, env, outer) else Trap;
    OpElement(m, Operand(k + 1, m.scalar, env, outer), f, Eval(k - 1, f.body.left, inner, scope),
              Eval(k - 1, f.body.right, inner, scope), x, h);
  }

  // The body of an accepted lambda, given what its two sides give.
  lemma OpElement(m: Match, s: Outcome, f: Expr, a: Outcome, b: Outcome, x: int, h: Outcome)
    requires f.Lambda? && |f.params| == 1 && f.body.Bin? && ClassifyMap(f, m.column) == Some(m)
    requires IsParam(f.body.left, f.params[0]) ==> a == Val(VInt(x))
    requires IsParam(f.body.right, f.params[0]) ==> b == Val(VInt(x))
    requires f.body.left.Int? ==> a == Val(VInt(f.body.left.v))
    requires f.body.right.Int? ==> b == Val(VInt(f.body.right.v))
    requires m.scalar.NoScalar? ==> s == Val(VInt(0))
    requires m.scalar.Literal? ==> s == Val(VInt(m.scalar.v))
    requires m.scalar.Hoisted? ==>
               s == Negated(h, m.scalar.negate) && h == if IsParam(f.body.left, f.params[0]) then b else a
    ensures (if !a.Val? then a else if !b.Val? then b else Operate(f.body.op, a.v, b.v)) == Mapped(m.kernel, s, x)
  {
    match f.body.op
    case Add => AddElement(m, s, f, a, b, x);
    case Sub => SubElement(m, s, f, a, b, x, h);
    case Mul => MulElement(m, s, f, a, b, x);
  }

  lemma AddElement(m: Match, s: Outcome, f: Expr, a: Outcome, b: Outcome, x: int)
    requires f.Lambda? && |f.params| == 1 && f.body.Bin? && f.body.op == Add && ClassifyMap(f, m.column) == Some(m)
    requires IsParam(f.body.left, f.params[0]) ==> a == Val(VInt(x))
    requires IsParam(f.body.right, f.params[0]) ==> b == Val(VInt(x))
    requires m.scalar.Hoisted? ==> s == if IsParam(f.body.left, f.params[0]) then b else a
    requires m.scalar.Literal? ==> s == Val(VInt(m.scalar.v))
    ensures a.Val? && b.Val? ==>
              Operate(Add, a.v, b.v) == if IsInt(s) then Val(VInt(Elem(m.kernel, s.v.i, x))) else Trap
    ensures (!a.Val? ==> s == a) && (a.Val? && !b.Val? ==> s == b)
  {
  }

  lemma SubElement(m: Match, s: Outcome, f: Expr, a: Outcome, b: Outcome, x: int, h: Outcome)
    requires f.Lambda? && |f.params| == 1 && f.body.Bin? && f.body.op == Sub && ClassifyMap(f, m.column) == Some(m)
    requires IsParam(f.body.left, f.params[0]) ==> a == Val(VInt(x))
    requires IsParam(f.body.right, f.params[0]) ==> b == Val(VInt(x))
    requires f.body.left.Int? ==> a == Val(VInt(f.body.left.v))
    requires f.body.right.Int? ==> b == Val(VInt(f.body.right.v))
    requires m.scalar.Hoisted? ==> s == Negated(h, true) && h == b
    requires m.scalar.Literal? ==> s == Val(VInt(m.scalar.v))
    ensures a.Val? && b.Val? ==>
              Operate(Sub, a.v, b.v) == if IsInt(s) then Val(VInt(Elem(m.kernel, s.v.i, x))) else Trap
    ensures (!a.Val? ==> s == a) && (a.Val? && !b.Val? ==> s == b)
  {
    if m.kernel.MapAdd? && IsInt(b) { WrapNegate(x, b.v.i); }
  }

  lemma MulElement(m: Match, s: Outcome, f: Expr, a: Outcome, b: Outcome, x: int)
    requires f.Lambda? && |f.params| == 1 && f.body.Bin? && f.body.op == Mul && ClassifyMap(f, m.column) == Some(m)
    requires IsParam(f.body.left, f.params[0]) ==> a == Val(VInt(x))
    requires IsParam(f.body.right, f.params[0]) ==> b == Val(VInt(x))
    requires m.scalar.Hoisted? ==> s == if IsParam(f.body.left, f.params[0]) then b else a
    requires m.scalar.NoScalar? ==> s == Val(VInt(0))
    ensures a.Val? && b.Val? ==>
              Operate(Mul, a.v, b.v) == if IsInt(s) then Val(VInt(Elem(m.kernel, s.v.i, x))) else Trap
    ensures (!a.Val? ==> s == a) && (a.Val? && !b.Val? ==> s == b)
  {
  }

  // Calling the lambda evaluates its body, where the parameter is the argument.
  lemma ParamMeaning(k: nat, f: Expr, env: Env, scope: Scope, x: int)
    requires f.Lambda? && |f.params| == 1 && f.body.Bin? && k > 0
    ensures var inner := Bind(f.params[0], VInt(x), env);
            && Apply1(k, VClosure(f.params, f.body, env, scope), VInt(x)) == Eval(k - 1, f.body, inner, scope)
            && Eval(k - 1, Ident(f.params[0]), inner, scope) == Val(VInt(x))
  {
  }

  lemma FilterElement(k: nat, f: Expr, column: Expr, env: Env, scope: Scope, x: int, outer: Scope)
    requires ClassifyFilter(f, column).Some? && k > 0
    ensures var m := ClassifyFilter(f, column).value;
            Apply1(k, VClosure(f.params, f.body, env, scope), VInt(x))
            == Tested(m.kernel, Operand(k + 1, m.scalar, env, outer), x)
  {
    var m := ClassifyFilter(f, column).value;
    ParamMeaning(k, f, env, scope, x);
    HoistSame(m.scalar.e, f.params[0], VInt(x), env, k - 1, scope, outer);
  }

  lemma {:induction false} MapMeaning(k: nat, f: Expr, column: Expr, env: Env, scope: Scope, xs: seq<int>, outer: Scope)
    requires ClassifyMap(f, column).Some? && k > 0
    ensures var m := ClassifyMap(f, column).value;
            MapColumn(k, VClosure(f.params, f.body, env, scope), xs)
            == OnColumn(m.kernel, Operand(k + 1, m.scalar, env, outer), xs)
    decreases |xs|
  {
    if xs != [] {
      MapElement(k, f, column, env, scope, xs[0], outer);
      MapMeaning(k, f, column, env, scope, xs[1..], outer);
      var m, s := ClassifyMap(f, column).value, Operand(k + 1, ClassifyMap(f, column).value.scalar, env, outer);
      assert IsInt(s) ==> OnColumn(m.kernel, s, xs[1..]) == Val(VArr(Each(m.kernel, s.v.i, xs[1..])));
    }
  }

  lemma {:induction false} FilterMeaning(k: nat, f: Expr, column: Expr, env: Env, scope: Scope, xs: seq<int>,
                                         outer: Scope)
    requires ClassifyFilter(f, column).Some? && k > 0
    ensures var m := ClassifyFilter(f, column).value;
            FilterColumn(k, VClosure(f.params, f.body, env, scope), xs)
            == OnColumn(m.kernel, Operand(k + 1, m.scalar, env, outer), xs)
    decreases |xs|
  {
    if xs != [] {
      FilterElement(k, f, column, env, scope, xs[0], outer);
      FilterMeaning(k, f, column, env, scope, xs[1..], outer);
      var m, s := ClassifyFilter(f, column).value, Operand(k + 1, ClassifyFilter(f, column).value.scalar, env, outer);
      assert IsInt(s) ==> [] + Those(m.kernel, s.v.i, xs[1..]) == Those(m.kernel, s.v.i, xs[1..]);
    }
  }

  lemma FoldElement(k: nat, f: Expr, init: Expr, column: Expr, env: Env, scope: Scope, acc: int, x: int)
    requires ClassifyFold(f, init, column).Some? && f.params[0] != f.params[1] && k > 0
    ensures var g := Apply1(k, VClosure(f.params, f.body, env, scope), VInt(acc));
            g.Val? && Apply1(k, g.v, VInt(x)) == Val(VInt(Wrap(acc + x)))
  {
    var a, b := f.params[0], f.params[1];
    assert f.params[1..] == [b];
    var inner := Bind(b, VInt(x), Bind(a, VInt(acc), env));
    assert Lookup(inner, a) == Val(VInt(acc)) && Lookup(inner, b) == Val(VInt(x));
    var l, r := Eval(k - 1, f.body.left, inner, scope), Eval(k - 1, f.body.right, inner, scope);
    assert l.v.VInt? && r.v.VInt? && l.v.i + r.v.i == acc + x;
    assert Eval(k - 1, f.body, inner, scope) == Combine(k - 1, Add, l.v, r.v) == Operate(Add, l.v, r.v);
  }

  lemma {:induction false} FoldMeaning(k: nat, f: Expr, init: Expr, column: Expr, env: Env, scope: Scope, acc: int,
                                       xs: seq<int>)
    requires ClassifyFold(f, init, column).Some? && f.params[0] != f.params[1]
    ensures FoldColumn(k, VClosure(f.params, f.body, env, scope), VInt(acc), xs)
            == if xs == [] then Val(VInt(acc)) else if k == 0 then OutOfFuel else Val(VInt(SumFrom(acc, xs)))
    decreases |xs|
  {
    if xs != [] {
      var g := Apply1(k, VClosure(f.params, f.body, env, scope), VInt(acc));
      assert f.params[1..] == [f.params[1]];
      if k > 0 {
        FoldElement(k, f, init, column, env, scope, acc, xs[0]);
        FoldMeaning(k, f, init, column, env, scope, Wrap(acc + xs[0]), xs[1..]);
      }
    }
  }
}
