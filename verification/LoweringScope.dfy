/**
 resolve_imported_symbol against lexical scope: the name it finds is the one that
 top-down binding finds exactly when no other binder of that name stands between.
*/
module LoweringScope {
  import opened LoweringSyntax
  import opened Lowering

  // The environment that the enclosing binders build from the top down, when every
  // let and every parameter holds the value `local`.
  function ScopeEnv(scope: Scope, local: Value): Env {
    match scope
    case Top => Empty
    case Inside(clauses, outer) => BindClauses(ScopeEnv(outer, local), clauses, |clauses|)
    case LetIn(x, _, outer) => Bind(x, local, ScopeEnv(outer, local))
    case Params(names, outer) => BindAll(ScopeEnv(outer, local), names, |names|, local)
  }

  function BindAll(env: Env, names: seq<string>, n: nat, local: Value): Env
    requires n <= |names|
  {
    if n == 0 then env else Bind(names[n - 1], local, BindAll(env, names, n - 1, local))
  }

  // ---------------------------------------------------------------------
  // What stands between a site and the import that the pass finds for x
  // ---------------------------------------------------------------------

  // Among the first n clauses, the last one to bind x is a whole module that exports it
  // under another symbol than s; or x is bound to s; or none of them binds x.
  datatype Verdict = Hides | Shows | Passes

  function ClausesSay(clauses: seq<Clause>, n: nat, x: string, s: string): Verdict
    requires n <= |clauses|
  {
    if n == 0 then Passes
    else if Says(clauses[n - 1], x, s).Passes? then ClausesSay(clauses, n - 1, x, s)
    else Says(clauses[n - 1], x, s)
  }

  function Says(clause: Clause, x: string, s: string): Verdict {
    match clause
    case Functions(fqn, aliases) =>
      var found := ResolveAliases(fqn, aliases, |aliases|, x);
      if found.None? then Passes else if found.value == s then Shows else Hides
    case WholeModule(fqn, exports) =>
      if x !in exports then Passes else if Mangle(fqn, x) == s then Shows else Hides
  }

  // A let, a parameter or the export of a whole module rebinds x further in than the
  // import that binds it to s.
  predicate Hidden(scope: Scope, x: string, s: string) {
    match scope
    case Top => false
    case Inside(clauses, outer) =>
      var v := ClausesSay(clauses, |clauses|, x, s);
      v.Hides? || (v.Passes? && Hidden(outer, x, s))
    case LetIn(y, _, outer) => x == y || Hidden(outer, x, s)
    case Params(names, outer) => x in names || Hidden(outer, x, s)
  }

  lemma {:induction false} AliasesScope(env: Env, fqn: string, aliases: seq<Alias>, n: nat, x: string)
    requires n <= |aliases|
    ensures var found := ResolveAliases(fqn, aliases, n, x);
            Lookup(BindAliases(env, fqn, aliases, n), x)
            == if found.Some? then Val(VPrim(found.value, Nil)) else Lookup(env, x)
  {
    if n > 0 { AliasesScope(env, fqn, aliases, n - 1, x); }
  }

  lemma {:induction false} ExportsScope(env: Env, fqn: string, exports: seq<string>, n: nat, x: string)
    requires n <= |exports|
    ensures Lookup(BindExports(env, fqn, exports, n), x)
            == if x in exports[..n] then Val(VPrim(Mangle(fqn, x), Nil)) else Lookup(env, x)
  {
    if n > 0 {
      ExportsScope(env, fqn, exports, n - 1, x);
      assert exports[..n] == exports[..n - 1] + [exports[n - 1]];
    }
  }

  // What a lookup of x finds when a verdict about s was given.
  ghost predicate Finds(v: Verdict, r: Outcome, outside: Outcome, s: string) {
    match v
    case Shows => r == Val(VPrim(s, Nil))
    case Hides => r.Val? && r.v.VPrim? && r.v.symbol != s
    case Passes => r == outside
  }

  lemma ClauseFinds(env: Env, clause: Clause, x: string, s: string)
    ensures Finds(Says(clause, x, s), Lookup(BindClause(env, clause), x), Lookup(env, x), s)
  {
    match clause
    case Functions(fqn, aliases) => AliasesScope(env, fqn, aliases, |aliases|, x);
    case WholeModule(fqn, exports) =>
      ExportsScope(env, fqn, exports, |exports|, x);
      assert exports[..|exports|] == exports;
  }

  lemma {:induction false} ClausesFind(env: Env, clauses: seq<Clause>, n: nat, x: string, s: string)
    requires n <= |clauses|
    ensures Finds(ClausesSay(clauses, n, x, s), Lookup(BindClauses(env, clauses, n), x), Lookup(env, x), s)
  {
    if n > 0 {
      ClausesFind(env, clauses, n - 1, x, s);
      ClauseFinds(BindClauses(env, clauses, n - 1), clauses[n - 1], x, s);
    }
  }

  // The clauses in which the pass finds s show it, unless a whole module comes after.
  lemma {:induction false} ResolvedSays(clauses: seq<Clause>, n: nat, x: string, s: string)
    requires n <= |clauses|
    ensures ResolveClauses(clauses, n, x) == Some(s) ==> !ClausesSay(clauses, n, x, s).Passes?
    ensures ResolveClauses(clauses, n, x).Some? && ResolveClauses(clauses, n, x) != Some(s) ==>
              !ClausesSay(clauses, n, x, s).Passes?
  {
    if n > 0 { ResolvedSays(clauses, n - 1, x, s); }
  }

  lemma {:induction false} AllBound(env: Env, names: seq<string>, n: nat, local: Value, x: string)
    requires n <= |names|
    ensures Lookup(BindAll(env, names, n, local), x) == if x in names[..n] then Val(local) else Lookup(env, x)
  {
    if n > 0 {
      AllBound(env, names, n - 1, local, x);
      assert names[..n] == names[..n - 1] + [names[n - 1]];
    }
  }

  /**
   Walking up the parents, last clause and last alias first, finds what top-down
   scoping binds if and only if neither a let nor a parameter of that name, nor a whole
   module that exports it as another function, stands between the name and the import.
  */
  lemma {:induction false} ResolveIsScopingIff(scope: Scope, x: string, local: Value)
    requires Resolve(scope, x).Some? && !local.VPrim?
    ensures Lookup(ScopeEnv(scope, local), x) == Val(VPrim(Resolve(scope, x).value, Nil))
            <==> !Hidden(scope, x, Resolve(scope, x).value)
  {
    match scope
    case Inside(clauses, outer) =>
      var s := Resolve(scope, x).value;
      ClausesFind(ScopeEnv(outer, local), clauses, |clauses|, x, s);
      ResolvedSays(clauses, |clauses|, x, s);
      if ResolveClauses(clauses, |clauses|, x).None? { ResolveIsScopingIff(outer, x, local); }
    case LetIn(_, _, outer) => ResolveIsScopingIff(outer, x, local);
    case Params(names, outer) =>
      ResolveIsScopingIff(outer, x, local);
      AllBound(ScopeEnv(outer, local), names, |names|, local, x);
      assert names[..|names|] == names;
  }

  // Without whole-module imports and local binders of x there is nothing to hide it.
  predicate Unhidden(scope: Scope, x: string) {
    match scope
    case Top => true
    case Inside(clauses, outer) =>
      (forall c :: c in clauses && c.WholeModule? ==> x !in c.exports) && Unhidden(outer, x)
    case LetIn(y, _, outer) => x != y && Unhidden(outer, x)
    case Params(names, outer) => x !in names && Unhidden(outer, x)
  }

  lemma {:induction false} ListedShows(clauses: seq<Clause>, n: nat, x: string, s: string)
    requires n <= |clauses| && forall c :: c in clauses && c.WholeModule? ==> x !in c.exports
    ensures ClausesSay(clauses, n, x, s)
            == match ResolveClauses(clauses, n, x)
               case None => Passes
               case Some(t) => if t == s then Shows else Hides
  {
    if n > 0 {
      assert clauses[n - 1] in clauses;
      ListedShows(clauses, n - 1, x, s);
    }
  }

  lemma {:induction false} UnhiddenIsSeen(scope: Scope, x: string)
    requires Unhidden(scope, x) && Resolve(scope, x).Some?
    ensures !Hidden(scope, x, Resolve(scope, x).value)
  {
    match scope
    case Inside(clauses, outer) =>
      ListedShows(clauses, |clauses|, x, Resolve(scope, x).value);
      if ResolveClauses(clauses, |clauses|, x).None? { UnhiddenIsSeen(outer, x); }
    case LetIn(_, _, outer) => UnhiddenIsSeen(outer, x);
    case Params(_, outer) => UnhiddenIsSeen(outer, x);
  }

  // ---------------------------------------------------------------------
  // Environments
  // ---------------------------------------------------------------------

  // The import the pass finds for x is the one that x means.
  predicate Seen(scope: Scope, x: string) {
    Resolve(scope, x).Some? && !Hidden(scope, x, Resolve(scope, x).value)
  }

  // Names whose import is seen still mean what it bound.
  ghost predicate Agrees(env: Env, scope: Scope) {
    forall x :: Seen(scope, x) ==> Lookup(env, x) == Val(VPrim(Resolve(scope, x).value, Nil))
  }

  lemma AgreesImport(env: Env, clauses: seq<Clause>, outer: Scope)
    requires Agrees(env, outer)
    ensures Agrees(BindClauses(env, clauses, |clauses|), Inside(clauses, outer))
  {
    var scope := Inside(clauses, outer);
    forall x | Seen(scope, x)
      ensures Lookup(BindClauses(env, clauses, |clauses|), x) == Val(VPrim(Resolve(scope, x).value, Nil))
    {
      var s := Resolve(scope, x).value;
      ClausesFind(env, clauses, |clauses|, x, s);
      ResolvedSays(clauses, |clauses|, x, s);
      if ClausesSay(clauses, |clauses|, x, s).Passes? { assert Seen(outer, x); }
    }
  }

  lemma AgreesLet(env: Env, x: string, v: Value, bound: Expr, outer: Scope)
    requires Agrees(env, outer)
    ensures Agrees(Bind(x, v, env), LetIn(x, bound, outer))
  {
    forall y | Seen(LetIn(x, bound, outer), y)
      ensures Lookup(Bind(x, v, env), y) == Val(VPrim(Resolve(outer, y).value, Nil))
    {
      assert Seen(outer, y);
    }
  }

  lemma AgreesParams(env: Env, names: seq<string>, outer: Scope)
    requires Agrees(env, outer)
    ensures Agrees(env, Params(names, outer)) && forall p :: p in names ==> !Seen(Params(names, outer), p)
  {
    forall y | Seen(Params(names, outer), y) ensures Lookup(env, y) == Val(VPrim(Resolve(outer, y).value, Nil)) {
      assert Seen(outer, y);
    }
  }

  lemma AgreesBind(env: Env, x: string, v: Value, scope: Scope)
    requires Agrees(env, scope) && !Seen(scope, x)
    ensures Agrees(Bind(x, v, env), scope)
  {
  }
}
