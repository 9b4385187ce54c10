/**
 The sites of the accelerator pass as the walk collects them (collect_from_walk and
 walk_ast in src/AcceleratorLowering.cpp), and their place in the rewritten program.
*/
module LoweringSites {
  import opened LoweringSyntax
  import opened Lowering
  import opened LoweringTheorem
  import opened Sequences

  // The matches of a program in walk order: a site before what lies inside it.
  function Sites(e: Expr, scope: Scope, inner: bool): seq<Match> {
    match e
    case Int(_) => []
    case Ident(_) => []
    case Bin(_, l, r) => Sites(l, scope, false) + Sites(r, scope, false)
    case Lambda(params, body) => Sites(body, Params(params, scope), false)
    case Apply(call, args) =>
      var m := MatchApply(call, args, scope);
      (if !inner && m.Some? then [m.value] else [])
      + (if call.Of? then Sites(call.e, scope, true) else []) + SitesArgs(args, scope)
    case Import(clauses, inside) => Sites(inside, Inside(clauses, scope), false)
    case Let(x, bound, inside) => Sites(bound, scope, false) + Sites(inside, LetIn(x, bound, scope), false)
    case If(c, t, f) => Sites(c, scope, false) + Sites(t, scope, false) + Sites(f, scope, false)
    case Kernel(_, _, column) => Sites(column, scope, false)
  }

  function SitesArgs(args: Args, scope: Scope): seq<Match> {
    match args
    case NoArgs => []
    case Arg(e, rest) => Sites(e, scope, false) + SitesArgs(rest, scope)
  }

  // The walk, which appends to one list.
  method Collect(e: Expr, scope: Scope, inner: bool, sofar: seq<Match>) returns (all: seq<Match>)
    ensures all == sofar + Sites(e, scope, inner)
    decreases e, 1
  {
    match e
    case Int(_) => return sofar;
    case Ident(_) => return sofar;
    case Bin(_, l, r) =>
      all := Collect(l, scope, false, sofar);
      all := Collect(r, scope, false, all);
      Regroup(sofar, Sites(l, scope, false), Sites(r, scope, false));
    case Lambda(params, body) =>
      all := Collect(body, Params(params, scope), false, sofar);
    case Apply(_, _) =>
      all := CollectApply(e, scope, inner, sofar);
    case Import(clauses, inside) =>
      all := Collect(inside, Inside(clauses, scope), false, sofar);
    case Let(x, bound, inside) =>
      all := Collect(bound, scope, false, sofar);
      all := Collect(inside, LetIn(x, bound, scope), false, all);
      Regroup(sofar, Sites(bound, scope, false), Sites(inside, LetIn(x, bound, scope), false));
    case If(c, t, f) =>
      all := Collect(c, scope, false, sofar);
      all := Collect(t, scope, false, all);
      all := Collect(f, scope, false, all);
      Regroup(sofar, Sites(c, scope, false), Sites(t, scope, false));
      Regroup(sofar, Sites(c, scope, false) + Sites(t, scope, false), Sites(f, scope, false));
    case Kernel(_, _, column) =>
      all := Collect(column, scope, false, sofar);
  }

  // on_apply: the match, unless the application is itself applied, then its parts.
  method CollectApply(e: Expr, scope: Scope, inner: bool, sofar: seq<Match>) returns (all: seq<Match>)
    requires e.Apply?
    ensures all == sofar + Sites(e, scope, inner)
    decreases e, 0
  {
    ghost var here, below: seq<Match> := [], [];
    all := sofar;
    if !inner {
      var m := MatchApply(e.call, e.args, scope);
      if m.Some? {
        all := all + [m.value];
        here := [m.value];
      }
    }
    if e.call.Of? {
      all := Collect(e.call.e, scope, true, all);
      below := Sites(e.call.e, scope, true);
    }
    all := CollectArgs(e.args, scope, all);
    Regroup(sofar, here, below);
    Regroup(sofar, here + below, SitesArgs(e.args, scope));
  }

  method CollectArgs(args: Args, scope: Scope, sofar: seq<Match>) returns (all: seq<Match>)
    ensures all == sofar + SitesArgs(args, scope)
    decreases args, 1
  {
    match args
    case NoArgs => return sofar;
    case Arg(e, rest) =>
      all := Collect(e, scope, false, sofar);
      all := CollectArgs(rest, scope, all);
      Regroup(sofar, Sites(e, scope, false), SitesArgs(rest, scope));
  }

  // The kernels of a program, in the same order.
  function Kernels(e: Expr): seq<(KernelName, Scalar)> {
    match e
    case Int(_) => []
    case Ident(_) => []
    case Bin(_, l, r) => Kernels(l) + Kernels(r)
    case Lambda(_, body) => Kernels(body)
    case Apply(call, args) => (if call.Of? then Kernels(call.e) else []) + KernelsArgs(args)
    case Import(_, inside) => Kernels(inside)
    case Let(_, bound, inside) => Kernels(bound) + Kernels(inside)
    case If(c, t, f) => Kernels(c) + Kernels(t) + Kernels(f)
    case Kernel(k, s, column) => [(k, s)] + Kernels(column)
  }

  function KernelsArgs(args: Args): seq<(KernelName, Scalar)> {
    match args
    case NoArgs => []
    case Arg(e, rest) => Kernels(e) + KernelsArgs(rest)
  }

  function Names(ms: seq<Match>): seq<(KernelName, Scalar)> {
    if ms == [] then [] else [(ms[0].kernel, ms[0].scalar)] + Names(ms[1..])
  }

  lemma {:induction false} NamesConcat(a: seq<Match>, b: seq<Match>)
    ensures Names(a + b) == Names(a) + Names(b)
  {
    if a == [] {
      assert a + b == b;
    } else {
      assert (a + b)[1..] == a[1..] + b;
      NamesConcat(a[1..], b);
    }
  }

  lemma {:induction false} SitesJoin(a: Args, b: Args, scope: Scope)
    ensures SitesArgs(Join(a, b), scope) == SitesArgs(a, scope) + SitesArgs(b, scope)
  {
    if a.Arg? { SitesJoin(a.rest, b, scope); }
  }

  // An application that is itself applied is no site.
  lemma InnerSites(e: Expr, scope: Scope)
    requires e.Apply?
    ensures Sites(e, scope, true)
            == (if e.call.Of? then Sites(e.call.e, scope, true) else []) + SitesArgs(e.args, scope)
  {
  }

  // A chain of applications holds the sites of its arguments.
  lemma {:induction false} SitesFlat(call: Call, args: Args, scope: Scope)
    requires Symbol(FlatHead(call), scope).Some?
    ensures (if call.Of? then Sites(call.e, scope, true) else []) + SitesArgs(args, scope)
            == SitesArgs(FlatArgs(call, args), scope)
    decreases call
  {
    if call.Of? {
      var c, a := call.e.call, call.e.args;
      SitesFlat(c, a, scope);
      SitesJoin(FlatArgs(c, a), args, scope);
      InnerSites(call.e, scope);
    }
  }

  lemma {:induction false} SimpleHasNone(e: Expr, p: string, scope: Scope)
    requires IsSimpleScalar(e, p)
    ensures Sites(e, scope, false) == []
  {
    if e.Bin? {
      SimpleHasNone(e.left, p, scope);
      SimpleHasNone(e.right, p, scope);
    }
  }

  lemma LambdaHasNone(f: Expr, init: Expr, c: Expr, scope: Scope)
    requires ClassifyMap(f, c).Some? || ClassifyFilter(f, c).Some? || ClassifyFold(f, init, c).Some?
    ensures Sites(f, scope, false) == []
  {
    var l, r, p, inside := f.body.left, f.body.right, f.params[0], Params(f.params, scope);
    assert Sites(f, scope, false) == Sites(f.body, inside, false);
    assert Sites(f.body, inside, false) == Sites(l, inside, false) + Sites(r, inside, false);
    if IsSimpleScalar(l, p) { SimpleHasNone(l, p, inside); } else { assert Sites(l, inside, false) == []; }
    if IsSimpleScalar(r, p) { SimpleHasNone(r, p, inside); } else { assert Sites(r, inside, false) == []; }
  }

  lemma TwoSites(all: Args, scope: Scope)
    requires all.Arg? && all.rest.Arg? && all.rest.rest.NoArgs? && Sites(all.first, scope, false) == []
    ensures SitesArgs(all, scope) == Sites(all.rest.first, scope, false)
  {
    assert SitesArgs(all.rest, scope) == Sites(all.rest.first, scope, false) + SitesArgs(all.rest.rest, scope);
  }

  lemma ThreeSites(all: Args, scope: Scope)
    requires all.Arg? && all.rest.Arg? && all.rest.rest.Arg? && all.rest.rest.rest.NoArgs?
    requires Sites(all.first, scope, false) == [] && all.rest.first.Int?
    ensures SitesArgs(all, scope) == Sites(all.rest.rest.first, scope, false)
  {
    TwoSites(all.rest, scope);
  }

  // The sites inside a matched site are those of its column.
  lemma InsideSite(call: Call, args: Args, scope: Scope)
    requires MatchApply(call, args, scope).Some?
    ensures (if call.Of? then Sites(call.e, scope, true) else []) + SitesArgs(args, scope)
            == Sites(MatchApply(call, args, scope).value.column, scope, false)
    ensures LastArg(FlatArgs(if call.Of? then Of(Rewrite(call.e, scope, true)) else call, RewriteArgs(args, scope)))
            == Rewrite(MatchApply(call, args, scope).value.column, scope, false)
  {
    var all := FlatArgs(call, args);
    SitesFlat(call, args, scope);
    FlatArgsRewritten(call, args, scope);
    LastRewritten(all, scope);
    var symbol := Symbol(FlatHead(call), scope).value;
    TwoOrThree(all);
    if symbol == FOLDL {
      LambdaHasNone(all.first, all.rest.first, all.rest.rest.first, scope);
      ThreeSites(all, scope);
    } else {
      LambdaHasNone(all.first, Int(0), all.rest.first, scope);
      TwoSites(all, scope);
    }
  }

  // Every collected match becomes one kernel of the rewritten program, with its
  // operand, in the same order, and there are no others.
  lemma {:induction false} KernelsAreSites(e: Expr, scope: Scope, inner: bool)
    requires Kernels(e) == []
    ensures Kernels(Rewrite(e, scope, inner)) == Names(Sites(e, scope, inner))
    decreases e, 1
  {
    match e
    case Int(_) =>
    case Ident(_) =>
    case Bin(_, l, r) =>
      KernelsAreSites(l, scope, false);
      KernelsAreSites(r, scope, false);
      NamesConcat(Sites(l, scope, false), Sites(r, scope, false));
    case Lambda(params, body) => KernelsAreSites(body, Params(params, scope), false);
    case Apply(_, _) => ApplyKernels(e, scope, inner);
    case Import(clauses, inside) => KernelsAreSites(inside, Inside(clauses, scope), false);
    case Let(x, bound, inside) =>
      KernelsAreSites(bound, scope, false);
      KernelsAreSites(inside, LetIn(x, bound, scope), false);
      NamesConcat(Sites(bound, scope, false), Sites(inside, LetIn(x, bound, scope), false));
    case If(c, t, f) =>
      KernelsAreSites(c, scope, false);
      KernelsAreSites(t, scope, false);
      KernelsAreSites(f, scope, false);
      NamesConcat(Sites(c, scope, false), Sites(t, scope, false));
      NamesConcat(Sites(c, scope, false) + Sites(t, scope, false), Sites(f, scope, false));
  }

  // What KernelsAreSites says of one expression, and of each of a list.
  ghost predicate Good(e: Expr, scope: Scope) {
    Kernels(Rewrite(e, scope, false)) == Names(Sites(e, scope, false))
  }

  ghost predicate GoodArgs(args: Args, scope: Scope) {
    args.Arg? ==> Good(args.first, scope) && GoodArgs(args.rest, scope)
  }

  lemma {:induction false} GoodJoin(a: Args, b: Args, scope: Scope)
    requires GoodArgs(a, scope) && GoodArgs(b, scope)
    ensures GoodArgs(Join(a, b), scope)
  {
    if a.Arg? { GoodJoin(a.rest, b, scope); }
  }

  lemma {:induction false} GoodTotal(args: Args, scope: Scope)
    requires GoodArgs(args, scope)
    ensures KernelsArgs(RewriteArgs(args, scope)) == Names(SitesArgs(args, scope))
  {
    if args.Arg? {
      GoodTotal(args.rest, scope);
      NamesConcat(Sites(args.first, scope, false), SitesArgs(args.rest, scope));
    }
  }

  lemma {:induction false} EachArg(args: Args, scope: Scope)
    requires KernelsArgs(args) == []
    ensures GoodArgs(args, scope)
    decreases args, 2
  {
    if args.Arg? {
      KernelsAreSites(args.first, scope, false);
      EachArg(args.rest, scope);
    }
  }

  lemma {:induction false} EachFlat(call: Call, args: Args, scope: Scope)
    requires GoodArgs(args, scope) && (call.Of? ==> Kernels(call.e) == [])
    ensures GoodArgs(FlatArgs(call, args), scope)
    decreases call
  {
    if call.Of? && call.e.Apply? {
      EachArg(call.e.args, scope);
      EachFlat(call.e.call, call.e.args, scope);
      GoodJoin(FlatArgs(call.e.call, call.e.args), args, scope);
    }
  }

  lemma {:induction false} PlainApply(call: Call, args: Args, scope: Scope)
    requires call.Of? ==> Kernels(Rewrite(call.e, scope, true)) == Names(Sites(call.e, scope, true))
    requires GoodArgs(args, scope)
    ensures (if call.Of? then Kernels(Rewrite(call.e, scope, true)) else []) + KernelsArgs(RewriteArgs(args, scope))
            == Names((if call.Of? then Sites(call.e, scope, true) else []) + SitesArgs(args, scope))
  {
    GoodTotal(args, scope);
    NamesConcat(if call.Of? then Sites(call.e, scope, true) else [], SitesArgs(args, scope));
  }

  // The column of a match is an argument of its flattened site.
  lemma ColumnGood(call: Call, args: Args, scope: Scope)
    requires MatchApply(call, args, scope).Some? && GoodArgs(FlatArgs(call, args), scope)
    ensures Good(MatchApply(call, args, scope).value.column, scope)
  {
    var all := FlatArgs(call, args);
    assert GoodArgs(all.rest, scope);
    assert all.rest.rest.Arg? ==> GoodArgs(all.rest.rest, scope);
  }

  lemma SitesOfSite(e: Expr, scope: Scope)
    requires e.Apply? && MatchApply(e.call, e.args, scope).Some?
    ensures var m := MatchApply(e.call, e.args, scope).value;
            Sites(e, scope, false) == [m] + Sites(m.column, scope, false)
  {
    var below := if e.call.Of? then Sites(e.call.e, scope, true) else [];
    InsideSite(e.call, e.args, scope);
    Regroup([MatchApply(e.call, e.args, scope).value], below, SitesArgs(e.args, scope));
  }

  lemma RewrittenSite(e: Expr, scope: Scope)
    requires e.Apply? && MatchApply(e.call, e.args, scope).Some?
    ensures var m := MatchApply(e.call, e.args, scope).value;
            Rewrite(e, scope, false) == Kernel(m.kernel, m.scalar, Rewrite(m.column, scope, false))
  {
    InsideSite(e.call, e.args, scope);
  }

  lemma KernelOfSite(m: Match, column: Expr, inside: seq<Match>)
    requires Kernels(column) == Names(inside)
    ensures Kernels(Kernel(m.kernel, m.scalar, column)) == Names([m] + inside)
  {
    assert Names([m]) == [(m.kernel, m.scalar)];
    NamesConcat([m], inside);
  }

  lemma SiteKernels(e: Expr, scope: Scope)
    requires e.Apply? && MatchApply(e.call, e.args, scope).Some? && GoodArgs(FlatArgs(e.call, e.args), scope)
    ensures Kernels(Rewrite(e, scope, false)) == Names(Sites(e, scope, false))
  {
    var m := MatchApply(e.call, e.args, scope).value;
    ColumnGood(e.call, e.args, scope);
    SitesOfSite(e, scope);
    RewrittenSite(e, scope);
    KernelOfSite(m, Rewrite(m.column, scope, false), Sites(m.column, scope, false));
  }

  lemma OtherKernels(e: Expr, scope: Scope, inner: bool)
    requires e.Apply? && (inner || MatchApply(e.call, e.args, scope).None?) && GoodArgs(e.args, scope)
    requires e.call.Of? ==> Kernels(Rewrite(e.call.e, scope, true)) == Names(Sites(e.call.e, scope, true))
    ensures Kernels(Rewrite(e, scope, inner)) == Names(Sites(e, scope, inner))
  {
    PlainApply(e.call, e.args, scope);
    OtherRewritten(e, scope, inner);
    OtherSites(e, scope, inner);
  }

  lemma OtherRewritten(e: Expr, scope: Scope, inner: bool)
    requires e.Apply? && (inner || MatchApply(e.call, e.args, scope).None?)
    ensures Kernels(Rewrite(e, scope, inner))
            == (if e.call.Of? then Kernels(Rewrite(e.call.e, scope, true)) else [])
               + KernelsArgs(RewriteArgs(e.args, scope))
  {
    var call' := if e.call.Of? then Of(Rewrite(e.call.e, scope, true)) else e.call;
    assert Rewrite(e, scope, inner) == Apply(call', RewriteArgs(e.args, scope));
  }

  lemma OtherSites(e: Expr, scope: Scope, inner: bool)
    requires e.Apply? && (inner || MatchApply(e.call, e.args, scope).None?)
    ensures Sites(e, scope, inner)
            == (if e.call.Of? then Sites(e.call.e, scope, true) else []) + SitesArgs(e.args, scope)
  {
    var below := if e.call.Of? then Sites(e.call.e, scope, true) else [];
    assert [] + below == below;
  }

  lemma {:induction false} ApplyKernels(e: Expr, scope: Scope, inner: bool)
    requires e.Apply? && Kernels(e) == []
    ensures Kernels(Rewrite(e, scope, inner)) == Names(Sites(e, scope, inner))
    decreases e, 0
  {
    EachArg(e.args, scope);
    if e.call.Of? { KernelsAreSites(e.call.e, scope, true); }
    if !inner && MatchApply(e.call, e.args, scope).Some? {
      EachFlat(e.call, e.args, scope);
      SiteKernels(e, scope);
    } else {
      OtherKernels(e, scope, inner);
    }
  }
}
