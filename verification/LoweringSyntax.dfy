/**
 The part of the language the accelerator pass looks at, and what it means:
 integer arithmetic, functions, imports, juxtaposition, and the IntArray column
 functions (include/ast.h; src/compiled_runtime.c, yona_rt_int_array_*).
*/
module LoweringSyntax {

  datatype Option<T> = None | Some(value: T)

  // Subclasses of BinaryOpExpr: those that work on integers, and the two pipes.
  datatype Op = Add | Sub | Mul | Div | Mod | Gt | Lt | PipeRight | PipeLeft

  datatype Expr =
    | Int(v: int)
    | Ident(name: string)
    | Bin(op: Op, left: Expr, right: Expr)
    | Lambda(params: seq<string>, body: Expr)
    | Apply(call: Call, args: Args)
    | Import(clauses: seq<Clause>, inside: Expr)
    | Let(name: string, bound: Expr, inside: Expr)
    | If(cond: Expr, thn: Expr, els: Expr)
    | Kernel(kernel: KernelName, scalar: Scalar, column: Expr)

  // NameCall, ModuleCall, ExprCall.
  datatype Call = Name(name: string) | Module(fqn: string, name: string) | Of(e: Expr)

  datatype Args = NoArgs | Arg(first: Expr, rest: Args)

  datatype Alias = Alias(name: string, alias: Option<string>)

  // A list of names, or all that a module exports.
  datatype Clause = Functions(fqn: string, aliases: seq<Alias>) | WholeModule(fqn: string, exports: seq<string>)

  datatype KernelName = MapAdd | MapMul | MapSquare | FilterGt | FilterLt | ReduceSum

  // The kernel's operand: a constant, or an expression evaluated once.
  datatype Scalar = NoScalar | Literal(v: int) | Hoisted(e: Expr, negate: bool)

  // The binders that enclose a node, innermost first: what its parent chain holds.
  datatype Scope =
    | Top
    | Inside(clauses: seq<Clause>, outer: Scope)
    | LetIn(name: string, bound: Expr, outer: Scope)
    | Params(names: seq<string>, outer: Scope)

  function Mangle(fqn: string, name: string): string {
    "yona_" + Underscored(fqn) + "__" + name
  }

  function Underscored(s: string): string {
    if s == "" then "" else (if s[0] == '\\' then "_" else [s[0]]) + Underscored(s[1..])
  }

  const MAP := "yona_Std_IntArray__map"
  const FILTER := "yona_Std_IntArray__filter"
  const FOLDL := "yona_Std_IntArray__foldl"

  // ---------------------------------------------------------------------
  // 64-bit arithmetic
  // ---------------------------------------------------------------------

  const TWO63: int := 0x8000_0000_0000_0000
  const TWO64: int := 0x1_0000_0000_0000_0000

  function Wrap(x: int): int { (x + TWO63) % TWO64 - TWO63 }

  lemma SameResidue(x: int, q: int)
    ensures (x + q * TWO64) % TWO64 == x % TWO64
  {
    var d := (x + q * TWO64) / TWO64 - x / TWO64 - q;
    assert d * TWO64 == x % TWO64 - (x + q * TWO64) % TWO64;
  }

  function Abs(x: int): nat { if x < 0 then -x else x }

  // Division toward zero.
  function Quotient(x: int, y: int): int
    requires y != 0
  {
    if (x < 0) == (y < 0) then Abs(x) / Abs(y) else -(Abs(x) / Abs(y))
  }

  // ---------------------------------------------------------------------
  // Evaluation
  // ---------------------------------------------------------------------

  datatype Value =
    | VInt(i: int)
    | VBool(b: bool)
    | VArr(a: seq<int>)
    | VClosure(params: seq<string>, body: Expr, env: Env, scope: Scope)
    | VPrim(symbol: string, got: Values)

  datatype Values = Nil | Cons(head: Value, tail: Values)

  datatype Env = Empty | Bind(name: string, value: Value, rest: Env)

  // A trap is any run-time failure; evaluation stops.
  datatype Outcome = Val(v: Value) | Trap | OutOfFuel

  datatype Outcomes = Vals(vs: Values) | TrapAll | OutOfFuelAll

  function Lookup(env: Env, x: string): Outcome {
    match env
    case Empty => Trap
    case Bind(y, v, rest) => if x == y then Val(v) else Lookup(rest, x)
  }

  // Clauses, aliases and exports bind in order, so later ones win.
  function BindAliases(env: Env, fqn: string, aliases: seq<Alias>, n: nat): Env
    requires n <= |aliases|
  {
    if n == 0 then env
    else
      Bind(Local(aliases[n - 1]), VPrim(Mangle(fqn, aliases[n - 1].name), Nil), BindAliases(env, fqn, aliases, n - 1))
  }

  function Local(a: Alias): string { if a.alias.Some? then a.alias.value else a.name }

  function BindExports(env: Env, fqn: string, exports: seq<string>, n: nat): Env
    requires n <= |exports|
  {
    if n == 0 then env
    else Bind(exports[n - 1], VPrim(Mangle(fqn, exports[n - 1]), Nil), BindExports(env, fqn, exports, n - 1))
  }

  function BindClause(env: Env, clause: Clause): Env {
    match clause
    case Functions(fqn, aliases) => BindAliases(env, fqn, aliases, |aliases|)
    case WholeModule(fqn, exports) => BindExports(env, fqn, exports, |exports|)
  }

  function BindClauses(env: Env, clauses: seq<Clause>, n: nat): Env
    requires n <= |clauses|
  {
    if n == 0 then env else BindClause(BindClauses(env, clauses, n - 1), clauses[n - 1])
  }

  // The column functions; 0 for any other function.
  function Arity(symbol: string): nat {
    if symbol == MAP || symbol == FILTER then 2 else if symbol == FOLDL then 3 else 0
  }

  function Append(vs: Values, v: Value): Values {
    match vs
    case Nil => Cons(v, Nil)
    case Cons(h, t) => Cons(h, Append(t, v))
  }

  function Length(vs: Values): nat {
    match vs
    case Nil => 0
    case Cons(_, t) => 1 + Length(t)
  }

  function Operate(op: Op, l: Value, r: Value): Outcome {
    if !l.VInt? || !r.VInt? then Trap
    else match op
      case Add => Val(VInt(Wrap(l.i + r.i)))
      case Sub => Val(VInt(Wrap(l.i - r.i)))
      case Mul => Val(VInt(Wrap(l.i * r.i)))
      case Div => if r.i == 0 then Trap else Val(VInt(Wrap(Quotient(l.i, r.i))))
      case Mod => if r.i == 0 then Trap else Val(VInt(Wrap(l.i - r.i * Quotient(l.i, r.i))))
      case Gt => Val(VBool(l.i > r.i))
      case Lt => Val(VBool(l.i < r.i))
      case _ => Trap
  }

  // Fuel bounds how deep calls nest.  Entering a function body costs one unit; a column
  // function, or the kernel in its place, costs one and needs another for the function
  // it is given.  The scope is carried along only to be remembered by closures, each
  // with the scope of its body.
  function Eval(n: nat, e: Expr, env: Env, scope: Scope): Outcome
    decreases n, 4, e
  {
    match e
    case Int(v) => Val(VInt(v))
    case Ident(x) => Lookup(env, x)
    case Bin(op, l, r) =>
      var a := Eval(n, l, env, scope);
      if !a.Val? then a else
      var b := Eval(n, r, env, scope);
      if !b.Val? then b else Combine(n, op, a.v, b.v)
    case Lambda(params, body) => if params == [] then Trap else Val(VClosure(params, body, env, Params(params, scope)))
    case Apply(call, args) =>
      var f :=
        if call.Name? then Lookup(env, call.name)
        else if call.Module? then Val(VPrim(Mangle(call.fqn, call.name), Nil))
        else Eval(n, call.e, env, scope);
      if !f.Val? then f else
      var vs := EvalArgs(n, args, env, scope);
      if vs.TrapAll? then Trap else if vs.OutOfFuelAll? then OutOfFuel else ApplyAll(n, f.v, vs.vs)
    case Import(clauses, inside) =>
      Eval(n, inside, BindClauses(env, clauses, |clauses|), Inside(clauses, scope))
    case Let(x, bound, inside) =>
      var v := Eval(n, bound, env, scope);
      if !v.Val? then v else Eval(n, inside, Bind(x, v.v, env), LetIn(x, bound, scope))
    case If(c, t, f) =>
      var v := Eval(n, c, env, scope);
      if !v.Val? then v
      else if !v.v.VBool? then Trap
      else if v.v.b then Eval(n, t, env, scope) else Eval(n, f, env, scope)
    case Kernel(k, scalar, column) =>
      var s :=
        if scalar.NoScalar? then Val(VInt(0))
        else if scalar.Literal? then Val(VInt(scalar.v))
        else Negated(Eval(Inner(n), scalar.e, env, scope), scalar.negate);
      if !s.Val? then s else
      var a := Eval(n, column, env, scope);
      if !a.Val? then a else if n < 2 then OutOfFuel else RunKernel(k, s.v, a.v)
  }

  // What is left inside the function that a column function calls.
  function Inner(n: nat): nat { if n < 2 then 0 else n - 2 }

  // A pipe applies its function to its other side.
  function Combine(n: nat, op: Op, l: Value, r: Value): Outcome
    decreases n, 3
  {
    match op
    case PipeRight => Apply1(n, r, l)
    case PipeLeft => Apply1(n, l, r)
    case _ => Operate(op, l, r)
  }

  function Negated(s: Outcome, negate: bool): Outcome {
    if negate && s.Val? && s.v.VInt? then Val(VInt(Wrap(-s.v.i))) else s
  }

  function EvalArgs(n: nat, args: Args, env: Env, scope: Scope): Outcomes
    decreases n, 4, args
  {
    match args
    case NoArgs => Vals(Nil)
    case Arg(e, rest) =>
      var v := Eval(n, e, env, scope);
      if v.Trap? then TrapAll else if v.OutOfFuel? then OutOfFuelAll else
      var vs := EvalArgs(n, rest, env, scope);
      if vs.Vals? then Vals(Cons(v.v, vs.vs)) else vs
  }

  function ApplyAll(n: nat, f: Value, vs: Values): Outcome
    decreases n, 3, vs
  {
    match vs
    case Nil => Val(f)
    case Cons(v, rest) =>
      var g := Apply1(n, f, v);
      if g.Val? then ApplyAll(n, g.v, rest) else g
  }

  function Apply1(n: nat, f: Value, v: Value): Outcome
    decreases n, 2
  {
    match f
    case VClosure(params, body, env, scope) =>
      if params == [] then Trap
      else if |params| > 1 then Val(VClosure(params[1..], body, Bind(params[0], v, env), scope))
      else if n == 0 then OutOfFuel
      else Eval(n - 1, body, Bind(params[0], v, env), scope)
    case VPrim(symbol, got) =>
      // The call of a function from another module stays as it is.
      if Length(got) + 1 < Arity(symbol) || Arity(symbol) == 0 then Val(VPrim(symbol, Append(got, v)))
      else if Length(got) + 1 > Arity(symbol) then Trap
      else if n < 2 then OutOfFuel
      else RunPrim(n - 1, symbol, Append(got, v))
    case _ => Trap
  }

  function RunPrim(n: nat, symbol: string, vs: Values): Outcome
    decreases n, 5
  {
    match vs
    case Cons(f, Cons(VArr(xs), Nil)) =>
      if symbol == MAP then MapColumn(n, f, xs) else if symbol == FILTER then FilterColumn(n, f, xs) else Trap
    case Cons(f, Cons(init, Cons(VArr(xs), Nil))) =>
      if symbol == FOLDL then FoldColumn(n, f, init, xs) else Trap
    case _ => Trap
  }

  function MapColumn(n: nat, f: Value, xs: seq<int>): Outcome
    decreases n, 3, |xs|
  {
    if xs == [] then Val(VArr([])) else
    var y := Apply1(n, f, VInt(xs[0]));
    if !y.Val? then y else if !y.v.VInt? then Trap else
    var ys := MapColumn(n, f, xs[1..]);
    if ys.Val? && ys.v.VArr? then Val(VArr([y.v.i] + ys.v.a)) else ys
  }

  function FilterColumn(n: nat, f: Value, xs: seq<int>): Outcome
    decreases n, 3, |xs|
  {
    if xs == [] then Val(VArr([])) else
    var y := Apply1(n, f, VInt(xs[0]));
    if !y.Val? then y else if !y.v.VBool? then Trap else
    var ys := FilterColumn(n, f, xs[1..]);
    if ys.Val? && ys.v.VArr? && y.v.b then Val(VArr([xs[0]] + ys.v.a)) else ys
  }

  function FoldColumn(n: nat, f: Value, acc: Value, xs: seq<int>): Outcome
    decreases n, 3, |xs|
  {
    if xs == [] then Val(acc) else
    var g := Apply1(n, f, acc);
    if !g.Val? then g else
    var next := Apply1(n, g.v, VInt(xs[0]));
    if !next.Val? then next else FoldColumn(n, f, next.v, xs[1..])
  }

  // ---------------------------------------------------------------------
  // The kernels (src/runtime/gpu_cpu.c)
  // ---------------------------------------------------------------------

  function RunKernel(k: KernelName, s: Value, a: Value): Outcome {
    if !s.VInt? || !a.VArr? then Trap
    else if k.ReduceSum? then Val(VInt(SumFrom(0, a.a)))
    else if k.FilterGt? || k.FilterLt? then Val(VArr(Those(k, s.i, a.a)))
    else Val(VArr(Each(k, s.i, a.a)))
  }

  function Elem(k: KernelName, s: int, x: int): int {
    match k
    case MapAdd => Wrap(x + s)
    case MapMul => Wrap(x * s)
    case MapSquare => Wrap(x * x)
    case _ => x
  }

  predicate Keeps(k: KernelName, s: int, x: int) {
    match k
    case FilterGt => x > s
    case FilterLt => x < s
    case _ => true
  }

  function Each(k: KernelName, s: int, xs: seq<int>): seq<int> {
    if xs == [] then [] else [Elem(k, s, xs[0])] + Each(k, s, xs[1..])
  }

  function Those(k: KernelName, s: int, xs: seq<int>): seq<int> {
    if xs == [] then [] else (if Keeps(k, s, xs[0]) then [xs[0]] else []) + Those(k, s, xs[1..])
  }

  // Left-to-right wrapping sum.
  function SumFrom(acc: int, xs: seq<int>): int
    decreases |xs|
  {
    if xs == [] then acc else SumFrom(Wrap(acc + xs[0]), xs[1..])
  }

}
