/**
 Fuel only cuts evaluation short: what ends with some fuel ends the same way with more.
*/
module LoweringFuel {
  import opened LoweringSyntax

  lemma {:induction false} EvalMore(n: nat, k: nat, e: Expr, env: Env, scope: Scope)
    requires n <= k && !Eval(n, e, env, scope).OutOfFuel?
    ensures Eval(k, e, env, scope) == Eval(n, e, env, scope)
    decreases n, 4, e, 1
  {
    match e
    case Bin(op, l, r) =>
      EvalMore(n, k, l, env, scope);
      var a := Eval(n, l, env, scope);
      if a.Val? {
        EvalMore(n, k, r, env, scope);
        var b := Eval(n, r, env, scope);
        if b.Val? { CombineMore(n, k, op, a.v, b.v); }
      }
    case Apply(_, _) => ApplyMore(n, k, e, env, scope);
    case Import(clauses, inside) =>
      EvalMore(n, k, inside, BindClauses(env, clauses, |clauses|), Inside(clauses, scope));
    case Let(x, bound, inside) =>
      EvalMore(n, k, bound, env, scope);
      var v := Eval(n, bound, env, scope);
      if v.Val? { EvalMore(n, k, inside, Bind(x, v.v, env), LetIn(x, bound, scope)); }
    case If(c, t, f) =>
      EvalMore(n, k, c, env, scope);
      var v := Eval(n, c, env, scope);
      if v.Val? && v.v.VBool? { EvalMore(n, k, if v.v.b then t else f, env, scope); }
    case Kernel(_, _, _) => KernelMore(n, k, e, env, scope);
    case _ =>
  }

  lemma {:induction false} KernelMore(n: nat, k: nat, e: Expr, env: Env, scope: Scope)
    requires e.Kernel? && n <= k && !Eval(n, e, env, scope).OutOfFuel?
    ensures Eval(k, e, env, scope) == Eval(n, e, env, scope)
    decreases n, 4, e, 0
  {
    if e.scalar.Hoisted? {
      EvalMore(Inner(n), Inner(k), e.scalar.e, env, scope);
      if Negated(Eval(Inner(n), e.scalar.e, env, scope), e.scalar.negate).Val? { EvalMore(n, k, e.column, env, scope); }
    } else {
      EvalMore(n, k, e.column, env, scope);
    }
  }

  lemma {:induction false} ApplyMore(n: nat, k: nat, e: Expr, env: Env, scope: Scope)
    requires e.Apply? && n <= k && !Eval(n, e, env, scope).OutOfFuel?
    ensures Eval(k, e, env, scope) == Eval(n, e, env, scope)
    decreases n, 4, e, 0
  {
    if e.call.Of? { EvalMore(n, k, e.call.e, env, scope); }
    var f :=
      if e.call.Name? then Lookup(env, e.call.name)
      else if e.call.Module? then Val(VPrim(Mangle(e.call.fqn, e.call.name), Nil))
      else Eval(n, e.call.e, env, scope);
    if f.Val? {
      ArgsMore(n, k, e.args, env, scope);
      var vs := EvalArgs(n, e.args, env, scope);
      if vs.Vals? { AllMore(n, k, f.v, vs.vs); }
    }
  }

  lemma {:induction false} ArgsMore(n: nat, k: nat, args: Args, env: Env, scope: Scope)
    requires n <= k && !EvalArgs(n, args, env, scope).OutOfFuelAll?
    ensures EvalArgs(k, args, env, scope) == EvalArgs(n, args, env, scope)
    decreases n, 4, args
  {
    if args.Arg? {
      EvalMore(n, k, args.first, env, scope);
      if Eval(n, args.first, env, scope).Val? { ArgsMore(n, k, args.rest, env, scope); }
    }
  }

  lemma {:induction false} CombineMore(n: nat, k: nat, op: Op, l: Value, r: Value)
    requires n <= k && !Combine(n, op, l, r).OutOfFuel?
    ensures Combine(k, op, l, r) == Combine(n, op, l, r)
    decreases n, 3
  {
    match op
    case PipeRight => OneMore(n, k, r, l);
    case PipeLeft => OneMore(n, k, l, r);
    case _ =>
  }

  lemma {:induction false} AllMore(n: nat, k: nat, f: Value, vs: Values)
    requires n <= k && !ApplyAll(n, f, vs).OutOfFuel?
    ensures ApplyAll(k, f, vs) == ApplyAll(n, f, vs)
    decreases n, 3, vs
  {
    if vs.Cons? {
      OneMore(n, k, f, vs.head);
      var g := Apply1(n, f, vs.head);
      if g.Val? { AllMore(n, k, g.v, vs.tail); }
    }
  }

  lemma {:induction false} OneMore(n: nat, k: nat, f: Value, v: Value)
    requires n <= k && !Apply1(n, f, v).OutOfFuel?
    ensures Apply1(k, f, v) == Apply1(n, f, v)
    decreases n, 2
  {
    match f
    case VClosure(params, body, env, scope) =>
      if |params| == 1 && n > 0 { EvalMore(n - 1, k - 1, body, Bind(params[0], v, env), scope); }
    case VPrim(symbol, got) =>
      if n > 1 && Length(got) + 1 == Arity(symbol) { PrimMore(n - 1, k - 1, symbol, Append(got, v)); }
    case _ =>
  }

  lemma {:induction false} PrimMore(n: nat, k: nat, symbol: string, vs: Values)
    requires n <= k && !RunPrim(n, symbol, vs).OutOfFuel?
    ensures RunPrim(k, symbol, vs) == RunPrim(n, symbol, vs)
    decreases n, 5
  {
    match vs
    case Cons(f, Cons(VArr(xs), Nil)) =>
      if symbol == MAP { MapMore(n, k, f, xs); }
      if symbol == FILTER { FilterMore(n, k, f, xs); }
    case Cons(f, Cons(init, Cons(VArr(xs), Nil))) =>
      if symbol == FOLDL { FoldMore(n, k, f, init, xs); }
    case _ =>
  }

  lemma {:induction false} MapMore(n: nat, k: nat, f: Value, xs: seq<int>)
    requires n <= k && !MapColumn(n, f, xs).OutOfFuel?
    ensures MapColumn(k, f, xs) == MapColumn(n, f, xs)
    decreases n, 3, |xs|
  {
    if xs != [] {
      OneMore(n, k, f, VInt(xs[0]));
      var y := Apply1(n, f, VInt(xs[0]));
      if y.Val? && y.v.VInt? { MapMore(n, k, f, xs[1..]); }
    }
  }

  lemma {:induction false} FilterMore(n: nat, k: nat, f: Value, xs: seq<int>)
    requires n <= k && !FilterColumn(n, f, xs).OutOfFuel?
    ensures FilterColumn(k, f, xs) == FilterColumn(n, f, xs)
    decreases n, 3, |xs|
  {
    if xs != [] {
      OneMore(n, k, f, VInt(xs[0]));
      var y := Apply1(n, f, VInt(xs[0]));
      if y.Val? && y.v.VBool? { FilterMore(n, k, f, xs[1..]); }
    }
  }

  lemma {:induction false} FoldMore(n: nat, k: nat, f: Value, acc: Value, xs: seq<int>)
    requires n <= k && !FoldColumn(n, f, acc, xs).OutOfFuel?
    ensures FoldColumn(k, f, acc, xs) == FoldColumn(n, f, acc, xs)
    decreases n, 3, |xs|
  {
    if xs != [] {
      OneMore(n, k, f, acc);
      var g := Apply1(n, f, acc);
      if g.Val? {
        OneMore(n, k, g.v, VInt(xs[0]));
        var next := Apply1(n, g.v, VInt(xs[0]));
        if next.Val? { FoldMore(n, k, f, next.v, xs[1..]); }
      }
    }
  }
}
