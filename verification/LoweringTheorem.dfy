/**
 The main theorem of the accelerator pass: what the lowered program computes.
*/
module LoweringTheorem {
  import opened LoweringSyntax
  import opened Lowering
  import opened LoweringScope
  import opened LoweringFuel
  import opened LoweringProof

  // ---------------------------------------------------------------------
  // One site
  // ---------------------------------------------------------------------

  // What a matched site computes, given its column's value.
  function SiteValue(n: nat, m: Match, column: Value, s: Outcome): Outcome {
    if n < 2 then OutOfFuel else if !column.VArr? then Trap else OnColumn(m.kernel, s, column.a)
  }

  lemma MapSite(n: nat, f: Expr, c: Expr, env: Env, scope: Scope)
    requires ClassifyMap(f, c).Some?
    ensures var m, r := ClassifyMap(f, c).value, Eval(n, c, env, scope);
            EvalFlat(n, MAP, Arg(f, Arg(c, NoArgs)), env, scope)
            == if r.Val? then SiteValue(n, m, r.v, Operand(n, m.scalar, env, scope)) else r
  {
    var r := Eval(n, c, env, scope);
    TwoArgs(n, f, c, env, scope);
    if r.Val? {
      var clo := VClosure(f.params, f.body, env, Params(f.params, scope));
      TwoApplied(n, MAP, clo, r.v);
      if n > 1 && r.v.VArr? { MapMeaning(n - 1, f, c, env, Params(f.params, scope), r.v.a, scope); }
    }
  }

  lemma FilterSite(n: nat, f: Expr, c: Expr, env: Env, scope: Scope)
    requires ClassifyFilter(f, c).Some?
    ensures var m, r := ClassifyFilter(f, c).value, Eval(n, c, env, scope);
            EvalFlat(n, FILTER, Arg(f, Arg(c, NoArgs)), env, scope)
            == if r.Val? then SiteValue(n, m, r.v, Operand(n, m.scalar, env, scope)) else r
  {
    var r := Eval(n, c, env, scope);
    TwoArgs(n, f, c, env, scope);
    if r.Val? {
      var clo := VClosure(f.params, f.body, env, Params(f.params, scope));
      TwoApplied(n, FILTER, clo, r.v);
      if n > 1 && r.v.VArr? { FilterMeaning(n - 1, f, c, env, Params(f.params, scope), r.v.a, scope); }
    }
  }

  lemma FoldSite(n: nat, f: Expr, c: Expr, env: Env, scope: Scope)
    requires ClassifyFold(f, Int(0), c).Some? && f.params[0] != f.params[1]
    ensures var m, r := ClassifyFold(f, Int(0), c).value, Eval(n, c, env, scope);
            EvalFlat(n, FOLDL, Arg(f, Arg(Int(0), Arg(c, NoArgs))), env, scope)
            == if r.Val? then SiteValue(n, m, r.v, Operand(n, m.scalar, env, scope)) else r
  {
    var r := Eval(n, c, env, scope);
    ThreeArgs(n, f, c, env, scope);
    if r.Val? {
      var clo := VClosure(f.params, f.body, env, Params(f.params, scope));
      ThreeApplied(n, clo, VInt(0), r.v);
      if n > 1 && r.v.VArr? { FoldMeaning(n - 1, f, Int(0), c, env, Params(f.params, scope), 0, r.v.a); }
    }
  }

  lemma OneArg(n: nat, c: Expr, env: Env, scope: Scope)
    ensures var r := Eval(n, c, env, scope);
            EvalArgs(n, Arg(c, NoArgs), env, scope)
            == if r.Val? then Vals(Cons(r.v, Nil)) else if r.Trap? then TrapAll else OutOfFuelAll
  {
    assert EvalArgs(n, NoArgs, env, scope) == Vals(Nil);
  }

  lemma TwoArgs(n: nat, f: Expr, c: Expr, env: Env, scope: Scope)
    requires f.Lambda? && f.params != []
    ensures var r := Eval(n, c, env, scope);
            EvalArgs(n, Arg(f, Arg(c, NoArgs)), env, scope)
            == if r.Val? then Vals(Cons(VClosure(f.params, f.body, env, Params(f.params, scope)), Cons(r.v, Nil)))
               else if r.Trap? then TrapAll else OutOfFuelAll
  {
    OneArg(n, c, env, scope);
  }

  lemma ThreeArgs(n: nat, f: Expr, c: Expr, env: Env, scope: Scope)
    requires f.Lambda? && f.params != []
    ensures var r := Eval(n, c, env, scope);
            EvalArgs(n, Arg(f, Arg(Int(0), Arg(c, NoArgs))), env, scope)
            == if r.Val? then
                 Vals(Cons(VClosure(f.params, f.body, env, Params(f.params, scope)), Cons(VInt(0), Cons(r.v, Nil))))
               else if r.Trap? then TrapAll else OutOfFuelAll
  {
    OneArg(n, c, env, scope);
    var r := Eval(n, c, env, scope);
    assert EvalArgs(n, Arg(Int(0), Arg(c, NoArgs)), env, scope)
        == if r.Val? then Vals(Cons(VInt(0), Cons(r.v, Nil))) else if r.Trap? then TrapAll else OutOfFuelAll;
  }

  lemma TwoApplied(n: nat, symbol: string, f: Value, v: Value)
    requires Arity(symbol) == 2
    ensures ApplyAll(n, VPrim(symbol, Nil), Cons(f, Cons(v, Nil)))
            == if n < 2 then OutOfFuel else RunPrim(n - 1, symbol, Cons(f, Cons(v, Nil)))
  {
    var one := VPrim(symbol, Cons(f, Nil));
    assert Append(Nil, f) == Cons(f, Nil) && Apply1(n, VPrim(symbol, Nil), f) == Val(one);
    assert Append(Nil, v) == Cons(v, Nil) && Append(Cons(f, Nil), v) == Cons(f, Cons(v, Nil));
    assert Length(Cons(f, Nil)) == 1;
    ApplyOne(n, one, v);
  }

  lemma ThreeApplied(n: nat, f: Value, init: Value, v: Value)
    ensures ApplyAll(n, VPrim(FOLDL, Nil), Cons(f, Cons(init, Cons(v, Nil))))
            == if n < 2 then OutOfFuel else RunPrim(n - 1, FOLDL, Cons(f, Cons(init, Cons(v, Nil))))
  {
    var one, two := VPrim(FOLDL, Cons(f, Nil)), VPrim(FOLDL, Cons(f, Cons(init, Nil)));
    assert Arity(FOLDL) == 3;
    assert Append(Nil, f) == Cons(f, Nil) && Apply1(n, VPrim(FOLDL, Nil), f) == Val(one);
    assert Length(Cons(f, Nil)) == 1;
    assert Append(Nil, init) == Cons(init, Nil) && Append(Cons(f, Nil), init) == Cons(f, Cons(init, Nil));
    assert Apply1(n, one, init) == Val(two);
    assert Append(Nil, v) == Cons(v, Nil) && Append(Cons(init, Nil), v) == Cons(init, Cons(v, Nil));
    assert Append(Cons(f, Cons(init, Nil)), v) == Cons(f, Cons(init, Cons(v, Nil)));
    assert Length(Cons(init, Nil)) == 1 && Length(Cons(f, Cons(init, Nil))) == 2;
    ApplyOne(n, two, v);
    assert ApplyAll(n, one, Cons(init, Cons(v, Nil))) == ApplyAll(n, two, Cons(v, Nil));
  }

  lemma ApplyOne(n: nat, f: Value, v: Value)
    ensures ApplyAll(n, f, Cons(v, Nil)) == Apply1(n, f, v)
  {
    var g := Apply1(n, f, v);
    if g.Val? { assert ApplyAll(n, g.v, Nil) == Val(g.v); }
  }

  lemma TwoOrThree(all: Args)
    ensures all.Arg? && all.rest.Arg? && all.rest.rest.NoArgs? ==> Count(all) == 2 && LastArg(all) == all.rest.first
    ensures all.Arg? && all.rest.Arg? && all.rest.rest.Arg? && all.rest.rest.rest.NoArgs? ==>
              Count(all) == 3 && LastArg(all) == all.rest.rest.first
  {
    if all.Arg? && all.rest.Arg? {
      assert Count(all.rest) == 1 + Count(all.rest.rest);
      if all.rest.rest.Arg? { assert Count(all.rest.rest) == 1 + Count(all.rest.rest.rest); }
    }
  }

  // The original site, whatever its kind.
  lemma SiteMeaning(n: nat, call: Call, args: Args, env: Env, scope: Scope)
    requires Agrees(env, scope) && MatchApply(call, args, scope).Some? && SiteOk(call, args, scope)
    ensures var m := MatchApply(call, args, scope).value;
            var r := Eval(n, m.column, env, scope);
            && LastArg(FlatArgs(call, args)) == m.column
            && Eval(n, Apply(call, args), env, scope)
               == if r.Val? then SiteValue(n, m, r.v, Operand(n, m.scalar, env, scope)) else r
  {
    var symbol, all := Symbol(FlatHead(call), scope).value, FlatArgs(call, args);
    TwoOrThree(all);
    FlatMeaning(n, call, args, env, scope, symbol);
    if symbol == MAP {
      MapSite(n, all.first, all.rest.first, env, scope);
    } else if symbol == FILTER {
      FilterSite(n, all.first, all.rest.first, env, scope);
    } else {
      FoldSite(n, all.first, all.rest.rest.first, env, scope);
    }
  }

  // The kernel in its place.
  lemma KernelMeaning(n: nat, m: Match, column: Expr, env: Env, scope: Scope)
    ensures var s, c := Operand(n, m.scalar, env, scope), Eval(n, column, env, scope);
            Eval(n, Kernel(m.kernel, m.scalar, column), env, scope)
            == if !s.Val? then s else if !c.Val? then c else if n < 2 then OutOfFuel else RunKernel(m.kernel, s.v, c.v)
  {
  }

  lemma MatchedSimple(call: Call, args: Args, scope: Scope)
    requires MatchApply(call, args, scope).Some?
    ensures exists p :: OperandSimple(MatchApply(call, args, scope).value.scalar, p)
  {
    var all := FlatArgs(call, args);
    ClassifiedSimple(all.first, all.rest.first);
    assert OperandSimple(MatchApply(call, args, scope).value.scalar, all.first.params[0]);
  }

  // ---------------------------------------------------------------------
  // Where the lowered program departs from the original
  // ---------------------------------------------------------------------

  // The lowered program goes on as the original does; or traps; or does not end with
  // the fuel at hand.
  datatype Slip = NoSlip | ToTrap | ToStarve

  // The first of two slips on the way.
  function Then(first: Slip, next: Slip): Slip { if first.NoSlip? then next else first }

  function Lowered(r: Outcome, slip: Slip): Outcome {
    match slip
    case NoSlip => RO(r)
    case ToTrap => Trap
    case ToStarve => OutOfFuel
  }

  // Until the column turns out to be an array with elements, the original does not look
  // at the operand; the kernel does, and slips if it gives no integer.
  function SiteSlips(n: nat, s: Outcome, column: Outcome): Slip {
    if s.Val? then (if n > 1 && column == Val(VArr([])) && !s.v.VInt? then ToTrap else NoSlip)
    else if n > 1 && column.Val? && column.v.VArr? && column.v.a != [] then NoSlip
    else if s.Trap? then ToTrap
    else ToStarve
  }

  /**
   A site and its kernel, when operand and column are preserved.  Of a site that returns a
   value the kernel returns the same value if and only if the operand gives an integer or
   the column is not empty.  Where the site traps, so does the kernel, unless its operand
   does not end.
  */
  lemma SiteReplaced(n: nat, call: Call, args: Args, column': Expr, env: Env, scope: Scope, scope': Scope)
    requires Agrees(env, scope)
    requires MatchApply(call, args, scope).Some? && SiteOk(call, args, scope)
    requires var m := MatchApply(call, args, scope).value;
             && Eval(n, column', RE(env), scope') == RO(Eval(n, m.column, env, scope))
             && Operand(n, m.scalar, RE(env), scope') == RO(Operand(n, m.scalar, env, scope))
    ensures var m := MatchApply(call, args, scope).value;
            var s, c := Operand(n, m.scalar, env, scope), Eval(n, m.column, env, scope);
            var r, r' := Eval(n, Apply(call, args), env, scope),
                         Eval(n, Kernel(m.kernel, m.scalar, column'), RE(env), scope');
            && r' == Lowered(r, SiteSlips(n, s, c))
            && (r.Val? ==> (r' == RO(r) <==> IsInt(s) || c != Val(VArr([]))))
            && (r.Trap? ==> (r' == Trap <==> !s.OutOfFuel?))
  {
    var m := MatchApply(call, args, scope).value;
    SiteMeaning(n, call, args, env, scope);
    KernelMeaning(n, m, column', RE(env), scope');
    ReplacedOutcome(n, m, Operand(n, m.scalar, env, scope), Eval(n, m.column, env, scope));
  }

  lemma ReplacedOutcome(n: nat, m: Match, s: Outcome, c: Outcome)
    ensures var r := if c.Val? then SiteValue(n, m, c.v, s) else c;
            var r' := if !s.Val? then s else if !c.Val? then c
                      else if n < 2 then OutOfFuel else RunKernel(m.kernel, RV(s.v), RV(c.v));
            && r' == Lowered(r, SiteSlips(n, s, c))
            && (r.Val? ==> (r' == RO(r) <==> IsInt(s) || c != Val(VArr([]))))
            && (r.Trap? ==> (r' == Trap <==> !s.OutOfFuel?))
  {
  }

  // The column of a match lies inside its site.
  lemma {:induction false} LastInside(args: Args)
    requires args.Arg?
    ensures LastArg(args) < args
    decreases args
  {
    if args.rest.Arg? { LastInside(args.rest); }
  }

  lemma {:induction false} FlatInside(call: Call, args: Args)
    requires FlatArgs(call, args).Arg?
    ensures LastArg(FlatArgs(call, args)) < Apply(call, args)
    decreases call
  {
    if args.Arg? {
      LastInside(args);
      if call.Of? && call.e.Apply? { LastJoined(FlatArgs(call.e.call, call.e.args), args); }
    } else {
      FlatInside(call.e.call, call.e.args);
      JoinNone(FlatArgs(call.e.call, call.e.args));
    }
  }

  lemma {:induction false} FirstInside(call: Call, args: Args)
    requires FlatArgs(call, args).Arg?
    ensures FlatArgs(call, args).first < Apply(call, args)
    decreases call
  {
    if call.Of? && call.e.Apply? && FlatArgs(call.e.call, call.e.args).Arg? { FirstInside(call.e.call, call.e.args); }
  }

  // Column and operand of a match lie inside its site.
  lemma PartsInside(call: Call, args: Args, scope: Scope)
    requires MatchApply(call, args, scope).Some?
    ensures var m := MatchApply(call, args, scope).value;
            && m.column == LastArg(FlatArgs(call, args)) < Apply(call, args)
            && (m.scalar.Hoisted? ==> m.scalar.e < Apply(call, args))
  {
    TwoOrThree(FlatArgs(call, args));
    FlatInside(call, args);
    FirstInside(call, args);
  }

  lemma {:induction false} JoinNone(a: Args)
    ensures Join(a, NoArgs) == a
  {
    if a.Arg? { JoinNone(a.rest); }
  }

  lemma {:induction false} LastJoined(a: Args, b: Args)
    requires b.Arg?
    ensures LastArg(Join(a, b)) == LastArg(b) && Join(a, b).Arg?
  {
    if a.Arg? { LastJoined(a.rest, b); }
  }

  function Callee(n: nat, call: Call, env: Env, scope: Scope): Outcome {
    if call.Name? then Lookup(env, call.name)
    else if call.Module? then Val(VPrim(Mangle(call.fqn, call.name), Nil))
    else Eval(n, call.e, env, scope)
  }

  /**
   What the lowered program meets first that the original does not, told from the
   original's evaluation: at a site, first inside the operand, then inside the column.
  */
  function Slips(n: nat, e: Expr, env: Env, scope: Scope, inner: bool): Slip
    decreases n, 4, e
  {
    match e
    case Bin(op, l, r) =>
      var a, b := Eval(n, l, env, scope), Eval(n, r, env, scope);
      Then(Slips(n, l, env, scope, false), if !a.Val? then NoSlip else
           Then(Slips(n, r, env, scope, false), if !b.Val? then NoSlip else CombineSlips(n, op, a.v, b.v)))
    case Apply(call, args) =>
      if !inner && MatchApply(call, args, scope).Some? then
        var m := MatchApply(call, args, scope).value;
        var s, c := Operand(n, m.scalar, env, scope), Eval(n, m.column, env, scope);
        PartsInside(call, args, scope);
        Then(if m.scalar.Hoisted? then Slips(Inner(n), m.scalar.e, env, scope, false) else NoSlip,
             Then(if s.Val? then Slips(n, m.column, env, scope, false) else NoSlip, SiteSlips(n, s, c)))
      else
        var f, vs := Callee(n, call, env, scope), EvalArgs(n, args, env, scope);
        Then(if call.Of? then Slips(n, call.e, env, scope, true) else NoSlip, if !f.Val? then NoSlip else
             Then(ArgsSlip(n, args, env, scope), if !vs.Vals? then NoSlip else AllSlip(n, f.v, vs.vs)))
    case Import(clauses, inside) =>
      Slips(n, inside, BindClauses(env, clauses, |clauses|), Inside(clauses, scope), false)
    case Let(x, bound, inside) =>
      var v := Eval(n, bound, env, scope);
      Then(Slips(n, bound, env, scope, false), if !v.Val? then NoSlip else
           Slips(n, inside, Bind(x, v.v, env), LetIn(x, bound, scope), false))
    case If(c, t, f) =>
      var v := Eval(n, c, env, scope);
      Then(Slips(n, c, env, scope, false), if !v.Val? || !v.v.VBool? then NoSlip else
           if v.v.b then Slips(n, t, env, scope, false) else Slips(n, f, env, scope, false))
    case _ => NoSlip
  }

  function ArgsSlip(n: nat, args: Args, env: Env, scope: Scope): Slip
    decreases n, 4, args
  {
    if args.NoArgs? then NoSlip else
    Then(Slips(n, args.first, env, scope, false),
         if Eval(n, args.first, env, scope).Val? then ArgsSlip(n, args.rest, env, scope) else NoSlip)
  }

  function CombineSlips(n: nat, op: Op, l: Value, r: Value): Slip
    decreases n, 3
  {
    match op
    case PipeRight => OneSlips(n, r, l)
    case PipeLeft => OneSlips(n, l, r)
    case _ => NoSlip
  }

  function AllSlip(n: nat, f: Value, vs: Values): Slip
    decreases n, 3, vs
  {
    if vs.Nil? then NoSlip else
    var g := Apply1(n, f, vs.head);
    Then(OneSlips(n, f, vs.head), if g.Val? then AllSlip(n, g.v, vs.tail) else NoSlip)
  }

  function OneSlips(n: nat, f: Value, v: Value): Slip
    decreases n, 2
  {
    match f
    case VClosure(params, body, env, scope) =>
      if |params| == 1 && n > 0 then Slips(n - 1, body, Bind(params[0], v, env), scope, false) else NoSlip
    case VPrim(symbol, got) =>
      if n > 1 && Length(got) + 1 == Arity(symbol) then PrimSlips(n - 1, symbol, Append(got, v)) else NoSlip
    case _ => NoSlip
  }

  function PrimSlips(n: nat, symbol: string, vs: Values): Slip
    decreases n, 5
  {
    match vs
    case Cons(f, Cons(VArr(xs), Nil)) =>
      if symbol == MAP then MapSlips(n, f, xs) else if symbol == FILTER then FilterSlips(n, f, xs) else NoSlip
    case Cons(f, Cons(init, Cons(VArr(xs), Nil))) => if symbol == FOLDL then FoldSlips(n, f, init, xs) else NoSlip
    case _ => NoSlip
  }

  function MapSlips(n: nat, f: Value, xs: seq<int>): Slip
    decreases n, 3, |xs|
  {
    if xs == [] then NoSlip else
    var y := Apply1(n, f, VInt(xs[0]));
    Then(OneSlips(n, f, VInt(xs[0])), if y.Val? && y.v.VInt? then MapSlips(n, f, xs[1..]) else NoSlip)
  }

  function FilterSlips(n: nat, f: Value, xs: seq<int>): Slip
    decreases n, 3, |xs|
  {
    if xs == [] then NoSlip else
    var y := Apply1(n, f, VInt(xs[0]));
    Then(OneSlips(n, f, VInt(xs[0])), if y.Val? && y.v.VBool? then FilterSlips(n, f, xs[1..]) else NoSlip)
  }

  function FoldSlips(n: nat, f: Value, acc: Value, xs: seq<int>): Slip
    decreases n, 3, |xs|
  {
    if xs == [] then NoSlip else
    var g := Apply1(n, f, acc);
    Then(OneSlips(n, f, acc), if !g.Val? then NoSlip else
         var next := Apply1(n, g.v, VInt(xs[0]));
         Then(OneSlips(n, g.v, VInt(xs[0])), if next.Val? then FoldSlips(n, f, next.v, xs[1..]) else NoSlip))
  }

  // The lowered outcome r' for the original r.
  ghost predicate Follows(r: Outcome, r': Outcome, slip: Slip) {
    r' == Lowered(r, slip) && (r.Val? ==> ValueOk(r.v))
  }

  function LoweredArgs(r: Outcomes, slip: Slip): Outcomes {
    match slip
    case NoSlip => if r.Vals? then Vals(RVs(r.vs)) else r
    case ToTrap => TrapAll
    case ToStarve => OutOfFuelAll
  }

  ghost predicate FollowsArgs(r: Outcomes, r': Outcomes, slip: Slip) {
    r' == LoweredArgs(r, slip) && (r.Vals? ==> ValuesOk(r.vs))
  }

  // ---------------------------------------------------------------------
  // Whole programs
  // ---------------------------------------------------------------------

  lemma {:induction false} Preserved(n: nat, e: Expr, env: Env, scope: Scope, inner: bool)
    requires Clean(e, scope, inner) && Agrees(env, scope) && EnvOk(env)
    ensures Follows(Eval(n, e, env, scope), Eval(n, Rewrite(e, scope, inner), RE(env), RS(scope)),
                    Slips(n, e, env, scope, inner))
    decreases n, 4, e, 1
  {
    match e
    case Int(_) =>
    case Ident(x) => LookupOk(env, x);
    case Bin(_, _, _) => PreservedBin(n, e, env, scope);
    case Lambda(params, _) => AgreesParams(env, params, scope);
    case Apply(_, _) => PreservedApply(n, e, env, scope, inner);
    case Import(_, _) => PreservedImport(n, e, env, scope);
    case Let(_, _, _) => PreservedLet(n, e, env, scope);
    case If(_, _, _) => PreservedIf(n, e, env, scope);
  }

  lemma {:induction false} PreservedBin(n: nat, e: Expr, env: Env, scope: Scope)
    requires e.Bin? && Clean(e, scope, false) && Agrees(env, scope) && EnvOk(env)
    ensures Follows(Eval(n, e, env, scope), Eval(n, Rewrite(e, scope, false), RE(env), RS(scope)),
                    Slips(n, e, env, scope, false))
    decreases n, 4, e, 0
  {
    Preserved(n, e.left, env, scope, false);
    Preserved(n, e.right, env, scope, false);
    var a, b := Eval(n, e.left, env, scope), Eval(n, e.right, env, scope);
    if a.Val? && b.Val? { PreservedCombine(n, e.op, a.v, b.v); }
  }

  lemma {:induction false} PreservedCombine(n: nat, op: Op, l: Value, r: Value)
    requires ValueOk(l) && ValueOk(r)
    ensures Follows(Combine(n, op, l, r), Combine(n, op, RV(l), RV(r)), CombineSlips(n, op, l, r))
    decreases n, 3
  {
    match op
    case PipeRight => PreservedApply1(n, r, l);
    case PipeLeft => PreservedApply1(n, l, r);
    case _ => OperateSame(op, l, r);
  }

  lemma {:induction false} PreservedIf(n: nat, e: Expr, env: Env, scope: Scope)
    requires e.If? && Clean(e, scope, false) && Agrees(env, scope) && EnvOk(env)
    ensures Follows(Eval(n, e, env, scope), Eval(n, Rewrite(e, scope, false), RE(env), RS(scope)),
                    Slips(n, e, env, scope, false))
    decreases n, 4, e, 0
  {
    Preserved(n, e.cond, env, scope, false);
    Preserved(n, e.thn, env, scope, false);
    Preserved(n, e.els, env, scope, false);
  }

  lemma {:induction false} PreservedImport(n: nat, e: Expr, env: Env, scope: Scope)
    requires e.Import? && Clean(e, scope, false) && Agrees(env, scope) && EnvOk(env)
    ensures Follows(Eval(n, e, env, scope), Eval(n, Rewrite(e, scope, false), RE(env), RS(scope)),
                    Slips(n, e, env, scope, false))
    decreases n, 4, e, 0
  {
    AgreesImport(env, e.clauses, scope);
    ClausesOk(env, e.clauses, |e.clauses|);
    Preserved(n, e.inside, BindClauses(env, e.clauses, |e.clauses|), Inside(e.clauses, scope), false);
  }

  lemma {:induction false} PreservedLet(n: nat, e: Expr, env: Env, scope: Scope)
    requires e.Let? && Clean(e, scope, false) && Agrees(env, scope) && EnvOk(env)
    ensures Follows(Eval(n, e, env, scope), Eval(n, Rewrite(e, scope, false), RE(env), RS(scope)),
                    Slips(n, e, env, scope, false))
    decreases n, 4, e, 0
  {
    Preserved(n, e.bound, env, scope, false);
    var v := Eval(n, e.bound, env, scope);
    if v.Val? {
      AgreesLet(env, e.name, v.v, e.bound, scope);
      Preserved(n, e.inside, Bind(e.name, v.v, env), LetIn(e.name, e.bound, scope), false);
    }
  }

  lemma {:induction false} PreservedApply(n: nat, e: Expr, env: Env, scope: Scope, inner: bool)
    requires e.Apply? && Clean(e, scope, inner) && Agrees(env, scope) && EnvOk(env)
    ensures Follows(Eval(n, e, env, scope), Eval(n, Rewrite(e, scope, inner), RE(env), RS(scope)),
                    Slips(n, e, env, scope, inner))
    decreases n, 4, e, 0
  {
    if !inner && MatchApply(e.call, e.args, scope).Some? {
      PreservedSite(n, e, env, scope);
    } else {
      PreservedPlain(n, e, env, scope, inner);
    }
  }

  lemma {:induction false} PreservedSite(n: nat, e: Expr, env: Env, scope: Scope)
    requires e.Apply? && Clean(e, scope, false) && Agrees(env, scope) && EnvOk(env)
    requires MatchApply(e.call, e.args, scope).Some?
    ensures Follows(Eval(n, e, env, scope), Eval(n, Rewrite(e, scope, false), RE(env), RS(scope)),
                    Slips(n, e, env, scope, false))
    decreases n, 4, e, -1
  {
    var call, args := e.call, e.args;
    var m := MatchApply(call, args, scope).value;
    PartsInside(call, args, scope);
    FlatClean(e, scope, false);
    LastClean(FlatArgs(call, args), scope);
    Preserved(n, m.column, env, scope, false);
    if m.scalar.Hoisted? {
      MatchedSimple(call, args, scope);
      var p :| OperandSimple(m.scalar, p);
      SimpleKept(m.scalar.e, p, scope);
      Preserved(Inner(n), m.scalar.e, env, scope, false);
    }
    FlatArgsRewritten(call, args, scope);
    LastRewritten(FlatArgs(call, args), scope);
    SiteFollows(n, call, args, Rewrite(m.column, scope, false), env, scope, RS(scope));
  }

  lemma SiteFollows(n: nat, call: Call, args: Args, column': Expr, env: Env, scope: Scope, scope': Scope)
    requires Agrees(env, scope) && EnvOk(env)
    requires MatchApply(call, args, scope).Some? && SiteOk(call, args, scope)
    requires var m := MatchApply(call, args, scope).value;
             && Follows(Eval(n, m.column, env, scope), Eval(n, column', RE(env), scope'),
                        Slips(n, m.column, env, scope, false))
             && (m.scalar.Hoisted? ==>
                   Follows(Eval(Inner(n), m.scalar.e, env, scope), Eval(Inner(n), m.scalar.e, RE(env), scope'),
                           Slips(Inner(n), m.scalar.e, env, scope, false)))
    ensures Follows(Eval(n, Apply(call, args), env, scope),
                    Eval(n, Kernel(MatchApply(call, args, scope).value.kernel,
                                   MatchApply(call, args, scope).value.scalar, column'), RE(env), scope'),
                    Slips(n, Apply(call, args), env, scope, false))
  {
    var m := MatchApply(call, args, scope).value;
    var o := if m.scalar.Hoisted? then Slips(Inner(n), m.scalar.e, env, scope, false) else NoSlip;
    SiteMeaning(n, call, args, env, scope);
    KernelMeaning(n, m, column', RE(env), scope');
    OperandFollows(n, m.scalar, env, scope, scope');
    SiteOutcome(n, m, Operand(n, m.scalar, env, scope), Eval(n, m.column, env, scope), o,
                Slips(n, m.column, env, scope, false));
  }

  lemma OperandFollows(n: nat, s: Scalar, env: Env, scope: Scope, scope': Scope)
    requires s.Hoisted? ==>
               Follows(Eval(Inner(n), s.e, env, scope), Eval(Inner(n), s.e, RE(env), scope'),
                       Slips(Inner(n), s.e, env, scope, false))
    ensures Operand(n, s, RE(env), scope')
            == Lowered(Operand(n, s, env, scope),
                       if s.Hoisted? then Slips(Inner(n), s.e, env, scope, false) else NoSlip)
  {
  }

  // A site and its kernel, whatever happens inside operand and column.
  lemma SiteOutcome(n: nat, m: Match, s: Outcome, c: Outcome, operandSlip: Slip, columnSlip: Slip)
    ensures var r := if c.Val? then SiteValue(n, m, c.v, s) else c;
            var s', c' := Lowered(s, operandSlip), Lowered(c, columnSlip);
            var r' := if !s'.Val? then s' else if !c'.Val? then c'
                      else if n < 2 then OutOfFuel else RunKernel(m.kernel, s'.v, c'.v);
            && r' == Lowered(r, Then(operandSlip, Then(if s.Val? then columnSlip else NoSlip, SiteSlips(n, s, c))))
            && (r.Val? ==> ValueOk(r.v))
  {
    if operandSlip.NoSlip? && columnSlip.NoSlip? { ReplacedOutcome(n, m, s, c); }
  }

  // An application that stays one.
  lemma {:induction false} PreservedPlain(n: nat, e: Expr, env: Env, scope: Scope, inner: bool)
    requires e.Apply? && Clean(e, scope, inner) && Agrees(env, scope) && EnvOk(env)
    requires inner || MatchApply(e.call, e.args, scope).None?
    ensures Follows(Eval(n, e, env, scope), Eval(n, Rewrite(e, scope, inner), RE(env), RS(scope)),
                    Slips(n, e, env, scope, inner))
    decreases n, 4, e, -1
  {
    PreservedArgs(n, e.args, env, scope);
    PreservedCallee(n, e.call, env, scope);
    var f, vs := Callee(n, e.call, env, scope), EvalArgs(n, e.args, env, scope);
    if f.Val? && vs.Vals? { PreservedApplyAll(n, f.v, vs.vs); }
    var call', args' := if e.call.Of? then Of(Rewrite(e.call.e, scope, true)) else e.call, RewriteArgs(e.args, scope);
    CalledFollows(n, f, Callee(n, call', RE(env), RS(scope)),
                  if e.call.Of? then Slips(n, e.call.e, env, scope, true) else NoSlip,
                  vs, EvalArgs(n, args', RE(env), RS(scope)), ArgsSlip(n, e.args, env, scope));
    EvalIsCalled(n, e.call, e.args, env, scope);
    EvalIsCalled(n, call', args', RE(env), RS(scope));
    PlainRewritten(n, e, env, scope, inner);
  }

  lemma EvalIsCalled(n: nat, call: Call, args: Args, env: Env, scope: Scope)
    ensures Eval(n, Apply(call, args), env, scope)
            == Called(n, Callee(n, call, env, scope), EvalArgs(n, args, env, scope))
  {
  }

  lemma PlainRewritten(n: nat, e: Expr, env: Env, scope: Scope, inner: bool)
    requires e.Apply? && (inner || MatchApply(e.call, e.args, scope).None?)
    ensures var f, vs := Callee(n, e.call, env, scope), EvalArgs(n, e.args, env, scope);
            Slips(n, e, env, scope, inner)
            == CalledSlips(n, f, if e.call.Of? then Slips(n, e.call.e, env, scope, true) else NoSlip,
                           vs, ArgsSlip(n, e.args, env, scope))
    ensures Rewrite(e, scope, inner)
            == Apply(if e.call.Of? then Of(Rewrite(e.call.e, scope, true)) else e.call, RewriteArgs(e.args, scope))
  {
  }

  function CalledSlips(n: nat, f: Outcome, fSlips: Slip, vs: Outcomes, vsSlip: Slip): Slip {
    Then(fSlips, if !f.Val? then NoSlip else Then(vsSlip, if !vs.Vals? then NoSlip else AllSlip(n, f.v, vs.vs)))
  }

  // What an application computes from its parts.
  function Called(n: nat, f: Outcome, vs: Outcomes): Outcome {
    if !f.Val? then f
    else if vs.TrapAll? then Trap
    else if vs.OutOfFuelAll? then OutOfFuel
    else ApplyAll(n, f.v, vs.vs)
  }

  lemma CalledFollows(n: nat, f: Outcome, f': Outcome, fSlips: Slip, vs: Outcomes, vs': Outcomes, vsSlip: Slip)
    requires Follows(f, f', fSlips) && FollowsArgs(vs, vs', vsSlip)
    requires f.Val? && vs.Vals? ==>
               Follows(ApplyAll(n, f.v, vs.vs), ApplyAll(n, RV(f.v), RVs(vs.vs)), AllSlip(n, f.v, vs.vs))
    ensures Follows(Called(n, f, vs), Called(n, f', vs'), CalledSlips(n, f, fSlips, vs, vsSlip))
  {
  }

  lemma {:induction false} LastRewritten(args: Args, scope: Scope)
    requires args.Arg?
    ensures LastArg(RewriteArgs(args, scope)) == Rewrite(LastArg(args), scope, false)
  {
    if args.rest.Arg? { LastRewritten(args.rest, scope); }
  }

  // The arguments of a flattened chain are those of its applications.
  lemma {:induction false} FlatClean(e: Expr, scope: Scope, inner: bool)
    requires e.Apply? && Clean(e, scope, inner)
    ensures CleanArgs(FlatArgs(e.call, e.args), scope)
    decreases e
  {
    if e.call.Of? && e.call.e.Apply? {
      FlatClean(e.call.e, scope, true);
      CleanJoin(FlatArgs(e.call.e.call, e.call.e.args), e.args, scope);
    }
  }

  lemma {:induction false} CleanJoin(a: Args, b: Args, scope: Scope)
    requires CleanArgs(a, scope) && CleanArgs(b, scope)
    ensures CleanArgs(Join(a, b), scope)
  {
    if a.Arg? { CleanJoin(a.rest, b, scope); }
  }

  lemma {:induction false} LastClean(args: Args, scope: Scope)
    requires args.Arg? && CleanArgs(args, scope)
    ensures Clean(LastArg(args), scope, false)
  {
    if args.rest.Arg? { LastClean(args.rest, scope); }
  }

  lemma {:induction false} PreservedCallee(n: nat, call: Call, env: Env, scope: Scope)
    requires call.Of? ==> Clean(call.e, scope, true)
    requires Agrees(env, scope) && EnvOk(env)
    ensures Follows(Callee(n, call, env, scope),
                    Callee(n, if call.Of? then Of(Rewrite(call.e, scope, true)) else call, RE(env), RS(scope)),
                    if call.Of? then Slips(n, call.e, env, scope, true) else NoSlip)
    decreases n, 4, call
  {
    match call
    case Name(x) => LookupOk(env, x);
    case Module(fqn, x) => assert RV(VPrim(Mangle(fqn, x), Nil)) == VPrim(Mangle(fqn, x), Nil);
    case Of(e) => Preserved(n, e, env, scope, true);
  }

  lemma {:induction false} PreservedArgs(n: nat, args: Args, env: Env, scope: Scope)
    requires CleanArgs(args, scope) && Agrees(env, scope) && EnvOk(env)
    ensures FollowsArgs(EvalArgs(n, args, env, scope), EvalArgs(n, RewriteArgs(args, scope), RE(env), RS(scope)),
                        ArgsSlip(n, args, env, scope))
    decreases n, 4, args
  {
    if args.Arg? {
      Preserved(n, args.first, env, scope, false);
      PreservedArgs(n, args.rest, env, scope);
    }
  }

  lemma {:induction false} PreservedApplyAll(n: nat, f: Value, vs: Values)
    requires ValueOk(f) && ValuesOk(vs)
    ensures Follows(ApplyAll(n, f, vs), ApplyAll(n, RV(f), RVs(vs)), AllSlip(n, f, vs))
    decreases n, 3, vs
  {
    if vs.Cons? {
      PreservedApply1(n, f, vs.head);
      var g := Apply1(n, f, vs.head);
      if g.Val? { PreservedApplyAll(n, g.v, vs.tail); }
    }
  }

  lemma {:induction false} PreservedApply1(n: nat, f: Value, v: Value)
    requires ValueOk(f) && ValueOk(v)
    ensures Follows(Apply1(n, f, v), Apply1(n, RV(f), RV(v)), OneSlips(n, f, v))
    decreases n, 2
  {
    match f
    case VClosure(params, body, env, scope) =>
      if params != [] {
        assert params[0] in params;
        assert RE(Bind(params[0], v, env)) == Bind(params[0], RV(v), RE(env));
        AgreesBind(env, params[0], v, scope);
        if |params| == 1 && n > 0 { Preserved(n - 1, body, Bind(params[0], v, env), scope, false); }
      }
    case VPrim(symbol, got) =>
      AppendOk(got, v);
      if n > 1 && Length(got) + 1 == Arity(symbol) { PreservedPrim(n - 1, symbol, Append(got, v)); }
    case _ =>
  }

  lemma {:induction false} PreservedPrim(n: nat, symbol: string, vs: Values)
    requires ValuesOk(vs)
    ensures Follows(RunPrim(n, symbol, vs), RunPrim(n, symbol, RVs(vs)), PrimSlips(n, symbol, vs))
    decreases n, 5
  {
    ShapeKept(vs);
    match vs
    case Cons(f, Cons(VArr(xs), Nil)) =>
      PreservedMap(n, f, xs);
      PreservedFilter(n, f, xs);
    case Cons(f, Cons(init, Cons(VArr(xs), Nil))) =>
      PreservedFold(n, f, init, xs);
    case _ =>
  }

  // Lowering keeps the shape of an argument list, and its arrays.
  lemma ShapeKept(vs: Values)
    ensures vs.Nil? ==> RVs(vs) == vs
    ensures vs.Cons? ==> RVs(vs) == Cons(RV(vs.head), RVs(vs.tail)) && RV(vs.head).VArr? == vs.head.VArr?
    ensures vs.Cons? && vs.tail.Nil? ==> RVs(vs.tail) == Nil
    ensures vs.Cons? && vs.tail.Cons? ==>
              && RVs(vs.tail) == Cons(RV(vs.tail.head), RVs(vs.tail.tail))
              && RV(vs.tail.head).VArr? == vs.tail.head.VArr?
              && (vs.tail.head.VArr? ==> RV(vs.tail.head) == vs.tail.head)
              && (vs.tail.tail.Nil? ==> RVs(vs.tail.tail) == Nil)
    ensures vs.Cons? && vs.tail.Cons? && vs.tail.tail.Cons? ==>
              && RVs(vs.tail.tail) == Cons(RV(vs.tail.tail.head), RVs(vs.tail.tail.tail))
              && RV(vs.tail.tail.head).VArr? == vs.tail.tail.head.VArr?
              && (vs.tail.tail.head.VArr? ==> RV(vs.tail.tail.head) == vs.tail.tail.head)
              && RVs(vs.tail.tail.tail).Nil? == vs.tail.tail.tail.Nil?
  {
  }

  lemma {:induction false} PreservedMap(n: nat, f: Value, xs: seq<int>)
    requires ValueOk(f)
    ensures Follows(MapColumn(n, f, xs), MapColumn(n, RV(f), xs), MapSlips(n, f, xs))
    decreases n, 3, |xs|
  {
    if xs != [] {
      PreservedApply1(n, f, VInt(xs[0]));
      PreservedMap(n, f, xs[1..]);
    }
  }

  lemma {:induction false} PreservedFilter(n: nat, f: Value, xs: seq<int>)
    requires ValueOk(f)
    ensures Follows(FilterColumn(n, f, xs), FilterColumn(n, RV(f), xs), FilterSlips(n, f, xs))
    decreases n, 3, |xs|
  {
    if xs != [] {
      PreservedApply1(n, f, VInt(xs[0]));
      PreservedFilter(n, f, xs[1..]);
    }
  }

  lemma {:induction false} PreservedFold(n: nat, f: Value, acc: Value, xs: seq<int>)
    requires ValueOk(f) && ValueOk(acc)
    ensures Follows(FoldColumn(n, f, acc, xs), FoldColumn(n, RV(f), RV(acc), xs), FoldSlips(n, f, acc, xs))
    decreases n, 3, |xs|
  {
    if xs != [] {
      PreservedApply1(n, f, acc);
      var g := Apply1(n, f, acc);
      if g.Val? {
        PreservedApply1(n, g.v, VInt(xs[0]));
        var next := Apply1(n, g.v, VInt(xs[0]));
        if next.Val? { PreservedFold(n, f, next.v, xs[1..]); }
      }
    }
  }

  // Inputs: numbers, truth values and arrays.
  ghost predicate Data(env: Env) {
    env.Bind? ==> (env.value.VInt? || env.value.VBool? || env.value.VArr?) && Data(env.rest)
  }

  lemma {:induction false} DataSame(env: Env)
    requires Data(env)
    ensures RE(env) == env && EnvOk(env)
  {
    if env.Bind? { DataSame(env.rest); }
  }

  /**
   Main theorem.  With any fuel the lowered program has the original's outcome, or traps,
   or needs more fuel, as Slips says of the original; of a program that returns a value it
   returns the same value exactly when nothing slips.
  */
  lemma LoweredOutcome(n: nat, e: Expr, env: Env)
    requires Clean(e, Top, false) && Data(env)
    ensures var r, r' := Eval(n, e, env, Top), Eval(n, Rewrite(e, Top, false), env, Top);
            var slip := Slips(n, e, env, Top, false);
            && r' == Lowered(r, slip)
            && (r.Val? ==> (r' == RO(r) <==> slip.NoSlip?))
            && (r.Val? && (r.v.VInt? || r.v.VBool? || r.v.VArr?) ==> (r' == r <==> slip.NoSlip?))
  {
    DataSame(env);
    Preserved(n, e, env, Top, false);
  }

  function Original(k: nat, e: Expr, env: Env): Outcome { Eval(k, e, env, Top) }

  function After(k: nat, e: Expr, env: Env): Outcome { Eval(k, Rewrite(e, Top, false), env, Top) }

  function SlipOf(k: nat, e: Expr, env: Env): Slip { Slips(k, e, env, Top, false) }

  /**
   Fuel aside: of a program that returns a value, the lowered program returns the same
   value if and only if with enough fuel nothing slips, traps if and only if with enough
   fuel something slips to a trap, and otherwise does not end.
  */
  lemma LoweredEnds(n: nat, e: Expr, env: Env)
    requires Clean(e, Top, false) && Data(env) && Original(n, e, env).Val?
    ensures (exists k: nat :: After(k, e, env) == RO(Original(n, e, env)))
            <==> exists k: nat :: n <= k && SlipOf(k, e, env).NoSlip?
    ensures (exists k: nat :: After(k, e, env) == Trap) <==> exists k: nat :: n <= k && SlipOf(k, e, env).ToTrap?
    ensures (forall k: nat :: After(k, e, env) == OutOfFuel)
            <==> forall k: nat :: n <= k ==> SlipOf(k, e, env).ToStarve?
  {
    forall k: nat
      ensures n <= k ==> After(k, e, env) == Lowered(Original(n, e, env), SlipOf(k, e, env))
      ensures k < n && !After(k, e, env).OutOfFuel? ==> After(n, e, env) == After(k, e, env)
    {
      AtFuel(n, k, e, env);
    }
    InTheLimit(n, Original(n, e, env), e, env);
  }

  lemma AtFuel(n: nat, k: nat, e: Expr, env: Env)
    requires Clean(e, Top, false) && Data(env) && Original(n, e, env).Val?
    ensures n <= k ==> After(k, e, env) == Lowered(Original(n, e, env), SlipOf(k, e, env))
    ensures k < n && !After(k, e, env).OutOfFuel? ==> After(n, e, env) == After(k, e, env)
  {
    if n <= k {
      EvalMore(n, k, e, env, Top);
      LoweredOutcome(k, e, env);
    } else if !After(k, e, env).OutOfFuel? {
      EvalMore(k, n, Rewrite(e, Top, false), env, Top);
    }
  }

  lemma InTheLimit(n: nat, r: Outcome, e: Expr, env: Env)
    requires r.Val?
    requires forall k: nat :: n <= k ==> After(k, e, env) == Lowered(r, SlipOf(k, e, env))
    requires forall k: nat :: k < n && !After(k, e, env).OutOfFuel? ==> After(n, e, env) == After(k, e, env)
    ensures (exists k: nat :: After(k, e, env) == RO(r)) <==> exists k: nat :: n <= k && SlipOf(k, e, env).NoSlip?
    ensures (exists k: nat :: After(k, e, env) == Trap) <==> exists k: nat :: n <= k && SlipOf(k, e, env).ToTrap?
    ensures (forall k: nat :: After(k, e, env) == OutOfFuel)
            <==> forall k: nat :: n <= k ==> SlipOf(k, e, env).ToStarve?
  {
    assert After(n, e, env) == Lowered(r, SlipOf(n, e, env));
    forall k: nat | n <= k && SlipOf(k, e, env).NoSlip? ensures After(k, e, env) == RO(r) {}
    forall k: nat | n <= k && SlipOf(k, e, env).ToTrap? ensures After(k, e, env) == Trap {}
    forall k: nat | n <= k && SlipOf(k, e, env).ToStarve? ensures After(k, e, env) == OutOfFuel {}
  }
}
