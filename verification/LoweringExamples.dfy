/**
 Programs on which the accelerator pass fails, one for each of its conditions, and one
 on which it does not.
*/
module LoweringExamples {
  import opened LoweringSyntax
  import opened Lowering
  import opened LoweringScope
  import opened LoweringProof
  import opened LoweringTheorem
  import opened LoweringSafe

  // ---------------------------------------------------------------------
  // Folds
  // ---------------------------------------------------------------------

  /**
   A fold the pass accepts sums every array exactly when its two parameters have
   different names.
  */
  lemma FoldSumsIff(f: Expr, init: Expr, column: Expr, env: Env, scope: Scope)
    requires ClassifyFold(f, init, column).Some?
    ensures (forall xs ::
               FoldColumn(1, VClosure(f.params, f.body, env, scope), VInt(0), xs) == Val(VInt(SumFrom(0, xs))))
            <==> f.params[0] != f.params[1]
  {
    var clo := VClosure(f.params, f.body, env, scope);
    if f.params[0] != f.params[1] {
      forall xs ensures FoldColumn(1, clo, VInt(0), xs) == Val(VInt(SumFrom(0, xs))) {
        FoldMeaning(1, f, init, column, env, scope, 0, xs);
      }
    } else {
      var a := f.params[0];
      assert f.params[1..] == [a];
      var inner := Bind(a, VInt(1), Bind(a, VInt(0), env));
      assert Eval(0, Ident(a), inner, scope) == Val(VInt(1));
      assert Eval(0, f.body, inner, scope) == Val(VInt(2));
      assert Apply1(1, VClosure([a], f.body, Bind(a, VInt(0), env), scope), VInt(1)) == Val(VInt(2));
      assert [1][1..] == [];
      assert FoldColumn(1, clo, VInt(2), []) == Val(VInt(2));
      assert FoldColumn(1, clo, VInt(0), [1]) == Val(VInt(2));
      assert SumFrom(1, []) == 1;
      assert SumFrom(0, [1]) == 1;
    }
  }

  // ---------------------------------------------------------------------
  // Imported names that mean something else
  // ---------------------------------------------------------------------

  // map (\x -> x + s) xs, and what the pass makes of it.
  function Plus(s: Expr): Expr { Lambda(["x"], Bin(Add, Ident("x"), s)) }

  function PlusArgs(s: Expr): Args { Arg(Plus(s), Arg(Ident("xs"), NoArgs)) }

  function PlusSite(s: Expr): Expr { Apply(Name("map"), PlusArgs(s)) }

  function PlusKernel(s: Expr): Expr { Kernel(MapAdd, Hoisted(s, false), Ident("xs")) }

  const INC := Plus(Int(1))
  const SITE := PlusSite(Int(1))
  const KERNEL := PlusKernel(Int(1))

  const XS := Bind("xs", VArr([1]), Empty)

  function ImportMap(fqn: string): seq<Clause> { [Functions(fqn, [Alias("map", None)])] }

  lemma ImportsMap(fqn: string, env: Env)
    requires Mangle(fqn, "map") == MAP
    ensures ResolveClauses(ImportMap(fqn), 1, "map") == Some(MAP)
    ensures BindClauses(env, ImportMap(fqn), 1) == Bind("map", VPrim(MAP, Nil), env)
  {
    var aliases := [Alias("map", None)];
    assert ResolveAliases(fqn, aliases, 1, "map") == Some(MAP);
    assert BindAliases(env, fqn, aliases, 0) == env;
    assert BindClauses(env, ImportMap(fqn), 0) == env;
    assert BindClauses(env, ImportMap(fqn), 1) == BindAliases(env, fqn, aliases, 1);
  }

  lemma PlusMatched(s: Expr, scope: Scope)
    requires Resolve(scope, "map") == Some(MAP) && IsSimpleScalar(s, "x")
    ensures FlatArgs(Name("map"), PlusArgs(s)) == PlusArgs(s)
    ensures MatchApply(Name("map"), PlusArgs(s), scope) == Some(Match(MapAdd, Hoisted(s, false), Ident("xs")))
    ensures Rewrite(PlusSite(s), scope, false) == PlusKernel(s)
  {
    var args := PlusArgs(s);
    assert ClassifyMap(Plus(s), Ident("xs")) == Some(Match(MapAdd, Hoisted(s, false), Ident("xs")));
    FlatArgsRewritten(Name("map"), args, scope);
    LastRewritten(args, scope);
    TwoOrThree(args);
  }

  lemma {:induction false} ScalarClean(s: Expr, p: string, scope: Scope, inputs: set<string>)
    requires IsSimpleScalar(s, p)
    ensures Clean(s, scope, false) && Safe(s, scope, false, inputs)
  {
    if s.Bin? {
      ScalarClean(s.left, p, scope, inputs);
      ScalarClean(s.right, p, scope, inputs);
    }
  }

  lemma PlusClean(s: Expr, scope: Scope, inputs: set<string>)
    requires Seen(scope, "map") && Resolve(scope, "map") == Some(MAP) && IsSimpleScalar(s, "x")
    ensures Clean(PlusSite(s), scope, false)
    ensures IntExpr(s, scope, inputs) ==> Safe(PlusSite(s), scope, false, inputs)
  {
    PlusMatched(s, scope);
    ScalarClean(s, "x", Params(["x"], scope), inputs);
    assert Clean(Plus(s), scope, false) && Safe(Plus(s), scope, false, inputs);
    assert CleanArgs(NoArgs, scope) && SafeArgs(NoArgs, scope, inputs);
    assert CleanArgs(Arg(Ident("xs"), NoArgs), scope) && SafeArgs(Arg(Ident("xs"), NoArgs), scope, inputs);
  }

  lemma KernelAdds(env: Env, scope: Scope)
    requires Lookup(env, "xs") == Val(VArr([1]))
    ensures Eval(2, KERNEL, env, scope) == Val(VArr([2]))
  {
    assert Each(MapAdd, 1, [1][1..]) == [];
    assert Each(MapAdd, 1, [1]) == [2];
  }

  lemma ArgsOfSite(env: Env, scope: Scope)
    requires Lookup(env, "xs") == Val(VArr([1]))
    ensures EvalArgs(2, PlusArgs(Int(1)), env, scope)
            == Vals(Cons(VClosure(["x"], INC.body, env, Params(["x"], scope)), Cons(VArr([1]), Nil)))
  {
    OneArg(2, Ident("xs"), env, scope);
    TwoArgs(2, INC, Ident("xs"), env, scope);
  }

  // A let that reuses an imported name is overlooked: the call below returns its
  // second argument, the kernel maps it.
  lemma HiddenImportIsLowered(fqn: string) returns (e: Expr)
    requires Mangle(fqn, "map") == MAP
    ensures Eval(2, e, XS, Top) == Val(VArr([1]))
    ensures Eval(2, Rewrite(e, Top, false), XS, Top) == Val(VArr([2]))
  {
    var second := Lambda(["f", "c"], Ident("c"));
    e := Import(ImportMap(fqn), Let("map", second, SITE));
    var outside, scope := Bind("map", VPrim(MAP, Nil), XS), Inside(ImportMap(fqn), Top);
    ImportsMap(fqn, XS);
    var clo := VClosure(["f", "c"], Ident("c"), outside, Params(["f", "c"], scope));
    var env := Bind("map", clo, outside);
    assert Lookup(env, "xs") == Val(VArr([1]));
    LetSite(env, LetIn("map", second, scope));
    var inc := VClosure(["x"], INC.body, env, Params(["x"], LetIn("map", second, scope)));
    ReturnsSecond(outside, Params(["f", "c"], scope), inc, VArr([1]));
    assert Eval(2, Let("map", second, SITE), outside, scope) == Val(VArr([1]));

    PlusMatched(Int(1), LetIn("map", second, scope));
    assert Rewrite(second, scope, false) == second;
    KernelAdds(env, LetIn("map", second, scope));
    assert Rewrite(e, Top, false) == Import(ImportMap(fqn), Let("map", second, KERNEL));
    assert Eval(2, Let("map", second, KERNEL), outside, scope) == Val(VArr([2]));
  }

  lemma LetSite(env: Env, scope: Scope)
    requires Lookup(env, "xs") == Val(VArr([1])) && Lookup(env, "map").Val?
    ensures Eval(2, SITE, env, scope)
            == ApplyAll(2, Lookup(env, "map").v,
                        Cons(VClosure(["x"], INC.body, env, Params(["x"], scope)), Cons(VArr([1]), Nil)))
  {
    ArgsOfSite(env, scope);
  }

  lemma ReturnsSecond(env: Env, scope: Scope, f: Value, v: Value)
    ensures ApplyAll(2, VClosure(["f", "c"], Ident("c"), env, scope), Cons(f, Cons(v, Nil))) == Val(v)
  {
    var both := VClosure(["f", "c"], Ident("c"), env, scope);
    assert ["f", "c"][1..] == ["c"];
    var half := VClosure(["c"], Ident("c"), Bind("f", f, env), scope);
    assert Apply1(2, both, f) == Val(half);
    assert Eval(1, Ident("c"), Bind("c", v, Bind("f", f, env)), scope) == Val(v);
    assert Apply1(2, half, v) == Val(v);
    ApplyOne(2, half, v);
  }

  // A whole module imported further in rebinds the name: the call below is that
  // module's function, the kernel maps the array.
  lemma WildcardIsOverlooked(fqn: string, other: string, exports: seq<string>) returns (e: Expr, f: Value)
    requires Mangle(fqn, "map") == MAP && Arity(Mangle(other, "map")) == 0
    requires "map" in exports && "xs" !in exports
    ensures Eval(2, e, XS, Top) == Val(VPrim(Mangle(other, "map"), Cons(f, Cons(VArr([1]), Nil))))
    ensures Eval(2, Rewrite(e, Top, false), XS, Top) == Val(VArr([2]))
  {
    var whole := [WholeModule(other, exports)];
    e := Import(ImportMap(fqn), Import(whole, SITE));
    var outside, scope := Bind("map", VPrim(MAP, Nil), XS), Inside(ImportMap(fqn), Top);
    ImportsMap(fqn, XS);
    var env, inside := BindClauses(outside, whole, 1), Inside(whole, scope);
    WholeBinds(outside, other, exports);
    f := VClosure(["x"], INC.body, env, Params(["x"], inside));
    LetSite(env, inside);
    StaysCall(Mangle(other, "map"), f, VArr([1]));
    assert Eval(2, Import(whole, SITE), outside, scope) == Eval(2, SITE, env, inside);

    assert ResolveClauses(whole, 0, "map") == None && ResolveClauses(whole, 1, "map") == None;
    PlusMatched(Int(1), inside);
    KernelAdds(env, inside);
    assert Rewrite(e, Top, false) == Import(ImportMap(fqn), Import(whole, KERNEL));
    assert Eval(2, Import(whole, KERNEL), outside, scope) == Val(VArr([2]));
  }

  lemma WholeBinds(env: Env, other: string, exports: seq<string>)
    requires "map" in exports && "xs" !in exports && Lookup(env, "xs") == Val(VArr([1]))
    ensures var inside := BindClauses(env, [WholeModule(other, exports)], 1);
            Lookup(inside, "map") == Val(VPrim(Mangle(other, "map"), Nil)) && Lookup(inside, "xs") == Val(VArr([1]))
  {
    var whole := [WholeModule(other, exports)];
    assert BindClauses(env, whole, 0) == env;
    ExportsScope(env, other, exports, |exports|, "map");
    ExportsScope(env, other, exports, |exports|, "xs");
    assert exports[..|exports|] == exports;
  }

  lemma StaysCall(symbol: string, f: Value, v: Value)
    requires Arity(symbol) == 0
    ensures ApplyAll(2, VPrim(symbol, Nil), Cons(f, Cons(v, Nil))) == Val(VPrim(symbol, Cons(f, Cons(v, Nil))))
  {
    var one := VPrim(symbol, Cons(f, Nil));
    assert Append(Nil, f) == Cons(f, Nil) && Apply1(2, VPrim(symbol, Nil), f) == Val(one);
    assert Append(Nil, v) == Cons(v, Nil) && Append(Cons(f, Nil), v) == Cons(f, Cons(v, Nil));
    ApplyOne(2, one, v);
  }

  // ---------------------------------------------------------------------
  // Hoisted operands
  // ---------------------------------------------------------------------

  // Over an empty array the original never divides by zero; the kernel does.
  lemma EmptyColumnTraps(fqn: string) returns (e: Expr, env: Env)
    requires Mangle(fqn, "map") == MAP
    ensures Clean(e, Top, false) && Data(env)
    ensures Eval(2, e, env, Top) == Val(VArr([]))
    ensures Eval(2, Rewrite(e, Top, false), env, Top) == Trap
  {
    var zero := Bin(Div, Int(1), Int(0));
    e, env := Import(ImportMap(fqn), PlusSite(zero)), Bind("xs", VArr([]), Empty);
    ImportsMap(fqn, env);
    var scope, inside := Inside(ImportMap(fqn), Top), Bind("map", VPrim(MAP, Nil), env);
    MapIsSeen(fqn, scope);
    PlusMatched(zero, scope);
    PlusClean(zero, scope, {});
    assert Lookup(inside, "xs") == Val(VArr([]));
    assert Operate(Div, VInt(1), VInt(0)) == Trap && Eval(0, zero, inside, scope) == Trap;
    MapsNothing(2, Plus(zero), inside, scope);
    assert Eval(2, e, env, Top) == Eval(2, PlusSite(zero), inside, scope);
    assert Operand(2, Hoisted(zero, false), inside, scope) == Trap;
    assert Slips(2, PlusSite(zero), inside, scope, false).ToTrap?;
    LoweredOutcome(2, e, env);
  }

  lemma MapIsSeen(fqn: string, scope: Scope)
    requires Mangle(fqn, "map") == MAP && scope == Inside(ImportMap(fqn), Top)
    ensures Resolve(scope, "map") == Some(MAP) && Seen(scope, "map")
  {
    ImportsMap(fqn, Empty);
    UnhiddenIsSeen(scope, "map");
  }

  // A function that hands itself to itself.
  const LOOP := Bin(PipeRight, Ident("g"), Ident("g"))

  lemma {:induction false} LoopsForever(n: nat, env: Env, scope: Scope)
    ensures var w := VClosure(["g"], LOOP, env, scope); Apply1(n, w, w) == OutOfFuel
  {
    var w := VClosure(["g"], LOOP, env, scope);
    if n > 0 {
      LoopsForever(n - 1, env, scope);
      assert Eval(n - 1, LOOP, Bind("g", w, env), scope) == Combine(n - 1, PipeRight, w, w);
    }
  }

  // A pipe is taken for a simple scalar, although it calls a function: over an empty
  // array the original ends, the kernel's operand never does.
  lemma PipeNeverReturns(fqn: string, n: nat) returns (e: Expr, env: Env)
    requires Mangle(fqn, "map") == MAP
    ensures IsSimpleScalar(Bin(PipeRight, Ident("w"), Ident("w")), "x")
    ensures n > 1 ==> Eval(n, e, env, Top) == Val(VArr([]))
    ensures Eval(n, Rewrite(e, Top, false), env, Top) == OutOfFuel
  {
    var pipe, loop := Bin(PipeRight, Ident("w"), Ident("w")), Lambda(["g"], LOOP);
    e, env := Import(ImportMap(fqn), Let("w", loop, PlusSite(pipe))), Bind("xs", VArr([]), Empty);
    ImportsMap(fqn, env);
    var outside, scope := Bind("map", VPrim(MAP, Nil), env), Inside(ImportMap(fqn), Top);
    var w := VClosure(["g"], LOOP, outside, Params(["g"], scope));
    var inside, within := Bind("w", w, outside), LetIn("w", loop, scope);
    assert Lookup(inside, "xs") == Val(VArr([])) && Lookup(inside, "map") == Val(VPrim(MAP, Nil));
    assert IsSimpleScalar(Ident("w"), "x");

    MapsNothing(n, Plus(pipe), inside, within);
    assert Eval(n, Let("w", loop, PlusSite(pipe)), outside, scope) == Eval(n, PlusSite(pipe), inside, within);

    PlusMatched(pipe, within);
    LoopsForever(Inner(n), outside, Params(["g"], scope));
    assert Eval(Inner(n), pipe, inside, within) == Combine(Inner(n), PipeRight, w, w) == OutOfFuel;
    LoopRewritten(scope);
    assert Rewrite(e, Top, false) == Import(ImportMap(fqn), Let("w", loop, PlusKernel(pipe)));
    assert Eval(n, Let("w", loop, PlusKernel(pipe)), outside, scope) == Eval(n, PlusKernel(pipe), inside, within);
  }

  lemma LoopRewritten(scope: Scope)
    ensures Rewrite(Lambda(["g"], LOOP), scope, false) == Lambda(["g"], LOOP)
  {
    var inside := Params(["g"], scope);
    assert Rewrite(Ident("g"), inside, false) == Ident("g");
    assert Rewrite(LOOP, inside, false) == LOOP;
  }

  lemma MapsNothing(n: nat, f: Expr, env: Env, scope: Scope)
    requires f.Lambda? && f.params != []
    requires Lookup(env, "xs") == Val(VArr([])) && Lookup(env, "map") == Val(VPrim(MAP, Nil))
    ensures n > 1 ==> Eval(n, Apply(Name("map"), Arg(f, Arg(Ident("xs"), NoArgs))), env, scope) == Val(VArr([]))
  {
    var clo := VClosure(f.params, f.body, env, Params(f.params, scope));
    OneArg(n, Ident("xs"), env, scope);
    TwoArgs(n, f, Ident("xs"), env, scope);
    TwoApplied(n, MAP, clo, VArr([]));
  }

  // An operand that a let binds to a number is safe.
  lemma KnownNameIsSafe(fqn: string, k: int) returns (e: Expr)
    requires Mangle(fqn, "map") == MAP
    ensures Clean(e, Top, false) && Safe(e, Top, false, {})
    ensures Rewrite(e, Top, false)
            == Let("k", Int(k), Import(ImportMap(fqn), Kernel(MapAdd, Hoisted(Ident("k"), false), Ident("xs"))))
  {
    var clauses := ImportMap(fqn);
    e := Let("k", Int(k), Import(clauses, PlusSite(Ident("k"))));
    var outer := LetIn("k", Int(k), Top);
    var scope := Inside(clauses, outer);
    ImportsMap(fqn, Empty);
    UnhiddenIsSeen(scope, "map");
    NoneBindsK(fqn);
    assert IntExpr(Int(k), Top, {}) && KnownInt(outer, "k", {});
    assert KnownInt(scope, "k", {});
    PlusMatched(Ident("k"), scope);
    PlusClean(Ident("k"), scope, {});
  }

  lemma NoneBindsK(fqn: string)
    ensures ClausesSay(ImportMap(fqn), 1, "k", "").Passes?
  {
    assert ResolveAliases(fqn, [Alias("map", None)], 0, "k") == None;
    assert ResolveAliases(fqn, [Alias("map", None)], 1, "k") == None;
    assert ClausesSay(ImportMap(fqn), 0, "k", "").Passes?;
  }

  // ---------------------------------------------------------------------
  // Symbols
  // ---------------------------------------------------------------------

  lemma {:induction false} UnderscoredJoin(a: string, b: string)
    ensures Underscored(a + b) == Underscored(a) + Underscored(b)
  {
    if a == "" {
      assert a + b == b;
    } else {
      assert (a + b)[1..] == a[1..] + b;
      UnderscoredJoin(a[1..], b);
    }
  }

  lemma {:induction false} UnderscoredPlain(s: string)
    requires '\\' !in s
    ensures Underscored(s) == s
  {
    if s != "" { UnderscoredPlain(s[1..]); }
  }

  lemma MangleTwoParts(a: string, b: string, name: string)
    requires '\\' !in a && '\\' !in b
    ensures Mangle(a + ("\\" + b), name) == "yona_" + (a + ("_" + b)) + "__" + name
  {
    UnderscoredJoin(a, "\\" + b);
    UnderscoredPlain(a);
    UnderscoredPlain(b);
    assert ("\\" + b)[1..] == b;
  }

  lemma MapIsStdIntArray()
    ensures Mangle("Std" + ("\\" + "IntArray"), "map") == MAP
  {
    MangleTwoParts("Std", "IntArray", "map");
    assert "Std" + ("_" + "IntArray") == "Std_IntArray";
  }
}
