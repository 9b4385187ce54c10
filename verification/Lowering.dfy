/**
 Transparent accelerator lowering (src/AcceleratorLowering.cpp): recognise column
 calls whose lambda has a fixed kernel, and put the kernel in their place.
*/
module Lowering {
  import opened LoweringSyntax

  // ---------------------------------------------------------------------
  // resolve_imported_symbol
  // ---------------------------------------------------------------------

  // Last alias first.
  function ResolveAliases(fqn: string, aliases: seq<Alias>, n: nat, x: string): Option<string>
    requires n <= |aliases|
  {
    if n == 0 then None
    else if Local(aliases[n - 1]) == x then Some(Mangle(fqn, aliases[n - 1].name))
    else ResolveAliases(fqn, aliases, n - 1, x)
  }

  // Last clause first.
  function ResolveClauses(clauses: seq<Clause>, n: nat, x: string): Option<string>
    requires n <= |clauses|
  {
    if n == 0 then None
    else if clauses[n - 1].WholeModule? then ResolveClauses(clauses, n - 1, x)
    else
      var found := ResolveAliases(clauses[n - 1].fqn, clauses[n - 1].aliases, |clauses[n - 1].aliases|, x);
      if found.Some? then found else ResolveClauses(clauses, n - 1, x)
  }

  // Up the parent chain, nearest import first; other binders are passed over.
  function Resolve(scope: Scope, x: string): Option<string> {
    match scope
    case Top => None
    case Inside(clauses, outer) =>
      var found := ResolveClauses(clauses, |clauses|, x);
      if found.Some? then found else Resolve(outer, x)
    case LetIn(_, _, outer) => Resolve(outer, x)
    case Params(_, outer) => Resolve(outer, x)
  }

  // The source's loops: parents, then clauses and aliases backwards.
  method ResolveImportedSymbol(scope: Scope, x: string) returns (symbol: Option<string>)
    ensures symbol == Resolve(scope, x)
  {
    var p := scope;
    while !p.Top?
      invariant Resolve(scope, x) == Resolve(p, x)
      decreases p
    {
      if p.Inside? {
        symbol := ResolveInClauses(p.clauses, x);
        if symbol.Some? { return; }
      }
      p := p.outer;
    }
    return None;
  }

  method ResolveInClauses(clauses: seq<Clause>, x: string) returns (symbol: Option<string>)
    ensures symbol == ResolveClauses(clauses, |clauses|, x)
  {
    var i := |clauses|;
    while i > 0
      invariant 0 <= i <= |clauses|
      invariant ResolveClauses(clauses, |clauses|, x) == ResolveClauses(clauses, i, x)
    {
      var clause := clauses[i - 1];
      if clause.Functions? {
        var j := |clause.aliases|;
        while j > 0
          invariant 0 <= j <= |clause.aliases|
          invariant ResolveAliases(clause.fqn, clause.aliases, |clause.aliases|, x)
                    == ResolveAliases(clause.fqn, clause.aliases, j, x)
        {
          if Local(clause.aliases[j - 1]) == x {
            return Some(Mangle(clause.fqn, clause.aliases[j - 1].name));
          }
          j := j - 1;
        }
      }
      i := i - 1;
    }
    return None;
  }

  // ---------------------------------------------------------------------
  // flatten_apply, collect_arg_exprs
  // ---------------------------------------------------------------------

  datatype Head = ByName(name: string) | ByModule(fqn: string, name: string) | Unknown

  function FlatHead(call: Call): Head {
    match call
    case Name(x) => ByName(x)
    case Module(fqn, x) => ByModule(fqn, x)
    case Of(e) => if e.Apply? then FlatHead(e.call) else Unknown
  }

  function Join(a: Args, b: Args): Args {
    match a
    case NoArgs => b
    case Arg(e, rest) => Arg(e, Join(rest, b))
  }

  // All arguments of a chain of applications, in application order.
  function FlatArgs(call: Call, args: Args): Args
    decreases call
  {
    match call
    case Of(e) => if e.Apply? then Join(FlatArgs(e.call, e.args), args) else args
    case _ => args
  }

  // The loop over the chain: outermost application first, so each inner one's
  // arguments go in front.
  method FlattenApply(call: Call, args: Args) returns (head: Head, all: Args)
    ensures head == FlatHead(call) && all == FlatArgs(call, args)
  {
    var cur := call;
    all := args;
    while cur.Of? && cur.e.Apply?
      invariant FlatHead(call) == FlatHead(cur)
      invariant FlatArgs(call, args) == FlatArgs(cur, all)
      decreases cur
    {
      JoinFlat(cur.e.call, cur.e.args, all);
      all := Join(cur.e.args, all);
      cur := cur.e.call;
    }
    head := match cur
      case Name(x) => ByName(x)
      case Module(fqn, x) => ByModule(fqn, x)
      case Of(_) => Unknown;
  }

  lemma {:induction false} JoinAssoc(a: Args, b: Args, c: Args)
    ensures Join(Join(a, b), c) == Join(a, Join(b, c))
  {
    if a.Arg? { JoinAssoc(a.rest, b, c); }
  }

  lemma JoinFlat(call: Call, args: Args, more: Args)
    ensures Join(FlatArgs(call, args), more) == FlatArgs(call, Join(args, more))
  {
    if call.Of? && call.e.Apply? { JoinAssoc(FlatArgs(call.e.call, call.e.args), args, more); }
  }

  // ---------------------------------------------------------------------
  // Classification
  // ---------------------------------------------------------------------

  datatype Match = Match(kernel: KernelName, scalar: Scalar, column: Expr)

  predicate IsParam(e: Expr, p: string) { e == Ident(p) }

  predicate IsSimpleScalar(e: Expr, p: string) {
    match e
    case Ident(x) => x != p
    case Int(_) => true
    case Bin(_, l, r) => IsSimpleScalar(l, p) && IsSimpleScalar(r, p)
    case _ => false
  }

  datatype Split = Split(other: Expr, paramOnLeft: bool)

  function SplitParam(l: Expr, r: Expr, p: string): Option<Split> {
    if IsParam(l, p) && !IsParam(r, p) then (if IsSimpleScalar(r, p) then Some(Split(r, true)) else None)
    else if IsParam(r, p) && !IsParam(l, p) then (if IsSimpleScalar(l, p) then Some(Split(l, false)) else None)
    else None
  }

  function ClassifyMap(f: Expr, column: Expr): Option<Match> {
    if !f.Lambda? || |f.params| != 1 || !f.body.Bin? then None else
    var p, l, r := f.params[0], f.body.left, f.body.right;
    var split := SplitParam(l, r, p);
    match f.body.op
    case Add =>
      if IsParam(l, p) && IsParam(r, p) then Some(Match(MapMul, Literal(2), column))
      else if split.Some? then Some(Match(MapAdd, Hoisted(split.value.other, false), column)) else None
    case Sub =>
      if l == Int(0) && IsParam(r, p) then Some(Match(MapMul, Literal(-1), column))
      else if split.None? || !split.value.paramOnLeft then None
      else if split.value.other.Int? then Some(Match(MapAdd, Literal(Wrap(-split.value.other.v)), column))
      else Some(Match(MapAdd, Hoisted(split.value.other, true), column))
    case Mul =>
      if IsParam(l, p) && IsParam(r, p) then Some(Match(MapSquare, NoScalar, column))
      else if split.Some? then Some(Match(MapMul, Hoisted(split.value.other, false), column)) else None
    case _ => None
  }

  function ClassifyFilter(f: Expr, column: Expr): Option<Match> {
    if !f.Lambda? || |f.params| != 1 || !f.body.Bin? then None else
    var split := SplitParam(f.body.left, f.body.right, f.params[0]);
    if split.None? then None else
    match f.body.op
    case Gt =>
      if split.value.paramOnLeft then Some(Match(FilterGt, Hoisted(split.value.other, false), column)) else None
    case Lt =>
      var kernel := if split.value.paramOnLeft then FilterLt else FilterGt;
      Some(Match(kernel, Hoisted(split.value.other, false), column))
    case _ => None
  }

  function ClassifyFold(f: Expr, init: Expr, column: Expr): Option<Match> {
    if init != Int(0) || !f.Lambda? || |f.params| != 2 || !f.body.Bin? || f.body.op != Add then None else
    var a, b, l, r := f.params[0], f.params[1], f.body.left, f.body.right;
    if (IsParam(l, a) && IsParam(r, b)) || (IsParam(l, b) && IsParam(r, a)) then
      Some(Match(ReduceSum, NoScalar, column))
    else None
  }

  function MatchColumn(symbol: string, args: Args): Option<Match> {
    match args
    case Arg(f, Arg(column, NoArgs)) =>
      if symbol == MAP then ClassifyMap(f, column) else if symbol == FILTER then ClassifyFilter(f, column) else None
    case Arg(f, Arg(init, Arg(column, NoArgs))) =>
      if symbol == FOLDL then ClassifyFold(f, init, column) else None
    case _ => None
  }

  function Symbol(head: Head, scope: Scope): Option<string> {
    match head
    case ByName(x) => Resolve(scope, x)
    case ByModule(fqn, x) => Some(Mangle(fqn, x))
    case Unknown => None
  }

  // match_transparent_apply
  function MatchApply(call: Call, args: Args, scope: Scope): Option<Match> {
    var symbol := Symbol(FlatHead(call), scope);
    if symbol.None? then None else MatchColumn(symbol.value, FlatArgs(call, args))
  }

  // ---------------------------------------------------------------------
  // The rewrite: every site the walk collects becomes its kernel
  // ---------------------------------------------------------------------

  function LastArg(args: Args): Expr {
    match args
    case NoArgs => Int(0)
    case Arg(e, NoArgs) => e
    case Arg(_, rest) => LastArg(rest)
  }

  // `inner` marks an application that is the callee of another one: not a site.
  function Rewrite(e: Expr, scope: Scope, inner: bool): Expr {
    match e
    case Int(_) => e
    case Ident(_) => e
    case Bin(op, l, r) => Bin(op, Rewrite(l, scope, false), Rewrite(r, scope, false))
    case Lambda(params, body) => Lambda(params, Rewrite(body, Params(params, scope), false))
    case Apply(call, args) =>
      var call' := if call.Of? then Of(Rewrite(call.e, scope, true)) else call;
      var args' := RewriteArgs(args, scope);
      var m := MatchApply(call, args, scope);
      if !inner && m.Some? then Kernel(m.value.kernel, m.value.scalar, LastArg(FlatArgs(call', args')))
      else Apply(call', args')
    case Import(clauses, inside) => Import(clauses, Rewrite(inside, Inside(clauses, scope), false))
    case Let(x, bound, inside) => Let(x, Rewrite(bound, scope, false), Rewrite(inside, LetIn(x, bound, scope), false))
    case If(c, t, f) => If(Rewrite(c, scope, false), Rewrite(t, scope, false), Rewrite(f, scope, false))
    case Kernel(k, s, column) => Kernel(k, s, Rewrite(column, scope, false))
  }

  function RewriteArgs(args: Args, scope: Scope): Args {
    match args
    case NoArgs => NoArgs
    case Arg(e, rest) => Arg(Rewrite(e, scope, false), RewriteArgs(rest, scope))
  }

  // The kernel's column is the rewritten last argument of the flattened site.
  lemma {:induction false} FlatArgsRewritten(call: Call, args: Args, scope: Scope)
    ensures FlatArgs(if call.Of? then Of(Rewrite(call.e, scope, true)) else call, RewriteArgs(args, scope))
            == RewriteArgs(FlatArgs(call, args), scope)
    decreases call
  {
    if call.Of? && call.e.Apply? {
      FlatArgsRewritten(call.e.call, call.e.args, scope);
      JoinRewritten(FlatArgs(call.e.call, call.e.args), args, scope);
    }
  }

  lemma {:induction false} JoinRewritten(a: Args, b: Args, scope: Scope)
    ensures Join(RewriteArgs(a, scope), RewriteArgs(b, scope)) == RewriteArgs(Join(a, b), scope)
  {
    if a.Arg? { JoinRewritten(a.rest, b, scope); }
  }
}
