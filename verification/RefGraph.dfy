/**
 The theory behind exact reference counting: a graph of counted nodes, the
 references held outside it, and what one release does to it.

 A node with the sentinel count (arena or static data) owns nothing and is never
 counted.  Every other count must equal the number of references to the node:
 external ones plus one for each time a node owns it.
*/
module RefGraph {

  // A pointer as the 64-bit word that stores it; 0 is null.
  type Addr = int

  const SENTINEL: int := 0x7FFF_FFFF_FFFF_FFFF

  datatype Node = Node(rc: int, owns: multiset<Addr>)

  type Graph = map<Addr, Node>

  ghost function Pick<T>(s: set<T>): (x: T)
    requires s != {}
    ensures x in s
  {
    var x :| x in s;
    x
  }

  ghost function Edges(g: Graph, s: set<Addr>): multiset<Addr>
    requires s <= g.Keys
  {
    if s == {} then multiset{} else g[Pick(s)].owns + Edges(g, s - {Pick(s)})
  }

  ghost function Refs(g: Graph, ext: multiset<Addr>): multiset<Addr> {
    ext + Edges(g, g.Keys)
  }

  // Every referenced address is a node, and every count counts its references.
  ghost predicate Counted(g: Graph, refs: multiset<Addr>) {
    && 0 !in g
    && (forall a :: a in refs ==> a in g)
    && (forall a :: a in g && g[a].rc != SENTINEL ==> 1 <= g[a].rc < SENTINEL && g[a].rc == refs[a])
  }

  ghost predicate Exact(g: Graph, ext: multiset<Addr>) {
    Counted(g, Refs(g, ext))
  }

  type Ranking = map<Addr, nat>

  ghost function Rank(rank: Ranking, a: Addr): nat { if a in rank then rank[a] else 0 }

  // Acyclicity: a rank that falls along every owning edge.
  ghost predicate Ranked(g: Graph, rank: Ranking) {
    forall a, b :: a in g && b in g[a].owns ==> Rank(rank, b) < Rank(rank, a)
  }

  ghost predicate Acyclic(g: Graph) {
    exists rank: Ranking :: Ranked(g, rank)
  }

  ghost predicate Inv(g: Graph, ext: multiset<Addr>) {
    Exact(g, ext) && Acyclic(g)
  }

  // ---------------------------------------------------------------------
  // Edges
  // ---------------------------------------------------------------------

  lemma {:induction false} EdgesSplit(g: Graph, s: set<Addr>, a: Addr)
    requires s <= g.Keys && a in s
    ensures Edges(g, s) == g[a].owns + Edges(g, s - {a})
  {
    var b := Pick(s);
    if b != a {
      EdgesSplit(g, s - {b}, a);
      EdgesSplit(g, s - {a}, b);
      assert s - {b} - {a} == s - {a} - {b};
    }
  }

  // Edges depend only on what each node owns.
  lemma {:induction false} EdgesSame(g: Graph, h: Graph, s: set<Addr>)
    requires s <= g.Keys && s <= h.Keys
    requires forall b :: b in s ==> g[b].owns == h[b].owns
    ensures Edges(g, s) == Edges(h, s)
  {
    if s != {} {
      var b := Pick(s);
      EdgesSame(g, h, s - {b});
      EdgesSplit(g, s, b);
      EdgesSplit(h, s, b);
    }
  }

  lemma {:induction false} EdgeSource(g: Graph, s: set<Addr>, a: Addr) returns (b: Addr)
    requires s <= g.Keys && a in Edges(g, s)
    ensures b in s && a in g[b].owns
  {
    b := Pick(s);
    if a !in g[b].owns { b := EdgeSource(g, s - {b}, a); }
  }

  lemma OwnedPresent(g: Graph, ext: multiset<Addr>, x: Addr, y: Addr)
    requires Exact(g, ext) && x in g && y in g[x].owns
    ensures y in g
  {
    EdgesSplit(g, g.Keys, x);
    assert y in Refs(g, ext);
  }

  lemma ExternalPresent(g: Graph, ext: multiset<Addr>, a: Addr)
    requires Exact(g, ext) && a in ext
    ensures a in g && a != 0
  {
    assert a in Refs(g, ext);
  }

  // ---------------------------------------------------------------------
  // One release, as a relation between graphs
  // ---------------------------------------------------------------------

  // h is g with some counted nodes gone; the rest own what they owned.
  ghost predicate Shrunk(g: Graph, h: Graph) {
    && h.Keys <= g.Keys
    && (forall a :: a in h ==> h[a].owns == g[a].owns && (h[a].rc == SENTINEL <==> g[a].rc == SENTINEL))
    && (forall a :: a in g && g[a].rc == SENTINEL ==> a in h)
  }

  ghost predicate Released(g: Graph, ext: multiset<Addr>, p: Addr, h: Graph) {
    Shrunk(g, h) && Exact(h, if p == 0 then ext else ext - multiset{p})
  }

  lemma ShrunkTwice(g: Graph, m: Graph, h: Graph)
    requires Shrunk(g, m) && Shrunk(m, h)
    ensures Shrunk(g, h)
  {
  }

  lemma ShrunkRanked(g: Graph, h: Graph, rank: Ranking)
    requires Shrunk(g, h) && Ranked(g, rank)
    ensures Ranked(h, rank)
  {
  }

  // Multiset identities, kept away from everything else.
  lemma DropRef(ext: multiset<Addr>, edges: multiset<Addr>, p: Addr)
    requires p in ext
    ensures (ext - multiset{p}) + edges == (ext + edges) - multiset{p}
  {
  }

  lemma AddRef(ext: multiset<Addr>, edges: multiset<Addr>, p: Addr)
    ensures (ext + multiset{p}) + edges == (ext + edges) + multiset{p}
  {
  }

  lemma HandOver(ext: multiset<Addr>, own: multiset<Addr>, rest: multiset<Addr>, p: Addr)
    requires p in ext
    ensures (ext - multiset{p} + own) + rest == (ext + (own + rest)) - multiset{p}
  {
  }

  lemma TakeOver(ext: multiset<Addr>, own: multiset<Addr>, rest: multiset<Addr>, a: Addr)
    requires own <= ext
    ensures (ext - own + multiset{a}) + (own + rest) == (ext + rest) + multiset{a}
  {
  }

  lemma CountedLower(g: Graph, refs: multiset<Addr>, p: Addr)
    requires Counted(g, refs) && p in g && g[p].rc != SENTINEL && g[p].rc > 1
    ensures Counted(g[p := g[p].(rc := g[p].rc - 1)], refs - multiset{p})
  {
  }

  lemma CountedRaise(g: Graph, refs: multiset<Addr>, p: Addr)
    requires Counted(g, refs) && p in g && g[p].rc < SENTINEL - 1
    ensures Counted(g[p := g[p].(rc := g[p].rc + 1)], refs + multiset{p})
  {
  }

  lemma CountedSentinel(g: Graph, refs: multiset<Addr>, p: Addr)
    requires Counted(g, refs) && p in g && g[p].rc == SENTINEL
    ensures Counted(g, refs + multiset{p}) && Counted(g, refs - multiset{p})
  {
  }

  lemma CountedRemove(g: Graph, refs: multiset<Addr>, p: Addr)
    requires Counted(g, refs) && p in refs && g[p].rc == 1
    ensures Counted(g - {p}, refs - multiset{p})
  {
    var rest := refs - multiset{p};
    assert rest[p] == 0;
    forall a | a in rest ensures a in g - {p} { assert a in refs; }
  }

  lemma CountedAdd(g: Graph, refs: multiset<Addr>, a: Addr, n: Node)
    requires Counted(g, refs) && a != 0 && a !in g && (n.rc == 1 || n.rc == SENTINEL)
    ensures Counted(g[a := n], refs + multiset{a})
  {
    assert refs[a] == 0;
  }

  lemma Recount(g: Graph, p: Addr, n: int)
    requires p in g && g[p].rc != SENTINEL && n != SENTINEL
    ensures var h := g[p := g[p].(rc := n)]; Shrunk(g, h) && Edges(h, h.Keys) == Edges(g, g.Keys)
  {
    var h := g[p := g[p].(rc := n)];
    assert h.Keys == g.Keys;
    EdgesSame(g, h, g.Keys);
  }

  lemma DropSentinel(g: Graph, ext: multiset<Addr>, p: Addr)
    requires Exact(g, ext) && p in ext && p in g && g[p].rc == SENTINEL
    ensures Exact(g, ext - multiset{p})
  {
    DropRef(ext, Edges(g, g.Keys), p);
    CountedSentinel(g, Refs(g, ext), p);
  }

  // Count above one: dropping the reference just lowers the count.
  lemma LowerCount(g: Graph, ext: multiset<Addr>, p: Addr)
    requires Exact(g, ext) && p in ext && p in g && g[p].rc != SENTINEL && g[p].rc > 1
    ensures var h := g[p := g[p].(rc := g[p].rc - 1)]; Shrunk(g, h) && Exact(h, ext - multiset{p})
  {
    Recount(g, p, g[p].rc - 1);
    CountedLower(g, Refs(g, ext), p);
    DropRef(ext, Edges(g, g.Keys), p);
  }

  // Count one: the node leaves, and what it owned is now held from outside.
  lemma Dying(g: Graph, ext: multiset<Addr>, p: Addr)
    requires Exact(g, ext) && p in ext && p in g && g[p].rc == 1
    ensures Exact(g - {p}, ext - multiset{p} + g[p].owns) && Shrunk(g, g - {p})
  {
    var h := g - {p};
    assert h.Keys == g.Keys - {p};
    EdgesSplit(g, g.Keys, p);
    EdgesSame(g, h, h.Keys);
    CountedRemove(g, Refs(g, ext), p);
    HandOver(ext, g[p].owns, Edges(h, h.Keys), p);
  }

  // ---------------------------------------------------------------------
  // Allocation and increment keep the invariant
  // ---------------------------------------------------------------------

  // The references stored in a new node move into it from outside.
  lemma AddExact(g: Graph, ext: multiset<Addr>, a: Addr, n: Node)
    requires Exact(g, ext) && a != 0 && a !in g && n.owns <= ext && (n.rc == 1 || n.rc == SENTINEL)
    ensures Exact(g[a := n], ext - n.owns + multiset{a})
  {
    var h := g[a := n];
    assert h.Keys - {a} == g.Keys;
    EdgesSplit(h, h.Keys, a);
    EdgesSame(g, h, g.Keys);
    CountedAdd(g, Refs(g, ext), a, n);
    TakeOver(ext, n.owns, Edges(g, g.Keys), a);
  }

  lemma {:induction false} RankBound(s: set<Addr>, rank: Ranking) returns (top: nat)
    ensures forall a :: a in s ==> Rank(rank, a) < top
  {
    if s == {} {
      top := 0;
    } else {
      var a := Pick(s);
      top := RankBound(s - {a}, rank);
      if Rank(rank, a) >= top { top := Rank(rank, a) + 1; }
    }
  }

  lemma AddRanked(g: Graph, a: Addr, n: Node, rank: Ranking, top: nat)
    requires Ranked(g, rank) && a !in g
    requires forall x, y :: x in g && y in g[x].owns ==> y in g
    requires forall y :: y in n.owns ==> y in g
    requires forall x :: x in g ==> Rank(rank, x) < top
    ensures Ranked(g[a := n], rank[a := top])
  {
  }

  lemma AddAcyclic(g: Graph, ext: multiset<Addr>, a: Addr, n: Node)
    requires Inv(g, ext) && a !in g && n.owns <= ext
    ensures Acyclic(g[a := n])
  {
    var rank: Ranking :| Ranked(g, rank);
    var top := RankBound(g.Keys, rank);
    forall x, y | x in g && y in g[x].owns ensures y in g { OwnedPresent(g, ext, x, y); }
    forall y | y in n.owns ensures y in g { ExternalPresent(g, ext, y); }
    AddRanked(g, a, n, rank, top);
  }

  lemma AddKeepsInv(g: Graph, ext: multiset<Addr>, a: Addr, n: Node)
    requires Inv(g, ext) && a != 0 && a !in g && n.owns <= ext && (n.rc == 1 || n.rc == SENTINEL)
    ensures Inv(g[a := n], ext - n.owns + multiset{a})
  {
    AddAcyclic(g, ext, a, n);
    AddExact(g, ext, a, n);
  }

  // A count that reaches the sentinel makes its node immortal.
  function Incremented(g: Graph, p: Addr): Graph
    requires p in g
  {
    if g[p].rc == SENTINEL then g
    else if g[p].rc == SENTINEL - 1 then g[p := Node(SENTINEL, multiset{})]
    else g[p := g[p].(rc := g[p].rc + 1)]
  }

  lemma IncrementExact(g: Graph, ext: multiset<Addr>, p: Addr)
    requires Exact(g, ext) && p in g && g[p].rc != SENTINEL - 1
    ensures Exact(Incremented(g, p), ext + multiset{p}) && Shrunk(g, Incremented(g, p))
  {
    AddRef(ext, Edges(g, g.Keys), p);
    if g[p].rc == SENTINEL {
      CountedSentinel(g, Refs(g, ext), p);
    } else {
      Recount(g, p, g[p].rc + 1);
      CountedRaise(g, Refs(g, ext), p);
    }
  }

  lemma IncrementKeepsInv(g: Graph, ext: multiset<Addr>, p: Addr)
    requires Inv(g, ext) && p in g && g[p].rc != SENTINEL - 1
    ensures Inv(Incremented(g, p), ext + multiset{p})
  {
    IncrementExact(g, ext, p);
    var rank: Ranking :| Ranked(g, rank);
    ShrunkRanked(g, Incremented(g, p), rank);
  }

  // The references that the increment of p takes out of the graph: what an immortal
  // block owned is never released again.
  ghost function Lost(g: Graph, p: Addr): multiset<Addr>
    requires p in g
  {
    if g[p].rc == SENTINEL - 1 then g[p].owns else multiset{}
  }

  lemma KeepOut(ext: multiset<Addr>, own: multiset<Addr>, rest: multiset<Addr>, p: Addr)
    ensures (ext + multiset{p} + own) + (multiset{} + rest) == (ext + (own + rest)) + multiset{p}
  {
  }

  lemma CountedImmortal(g: Graph, refs: multiset<Addr>, p: Addr)
    requires Counted(g, refs) && p in g
    ensures Counted(g[p := Node(SENTINEL, multiset{})], refs + multiset{p})
  {
  }

  // The edges of a graph in which p owns nothing any more.
  lemma ImmortalEdges(g: Graph, p: Addr)
    requires p in g
    ensures var h := g[p := Node(SENTINEL, multiset{})];
            && Edges(g, g.Keys) == g[p].owns + Edges(g, g.Keys - {p})
            && Edges(h, h.Keys) == multiset{} + Edges(g, g.Keys - {p})
  {
    var h := g[p := Node(SENTINEL, multiset{})];
    assert h.Keys == g.Keys;
    EdgesSplit(g, g.Keys, p);
    EdgesSplit(h, g.Keys, p);
    EdgesSame(g, h, g.Keys - {p});
  }

  // The increment that makes p immortal leaves counts that are exact if what p owned
  // is counted as held from outside, for ever.
  lemma ImmortalKeepsInv(g: Graph, ext: multiset<Addr>, p: Addr)
    requires Inv(g, ext) && p in g && g[p].rc == SENTINEL - 1
    ensures Inv(Incremented(g, p), ext + multiset{p} + g[p].owns)
  {
    var rank: Ranking :| Ranked(g, rank);
    assert Ranked(Incremented(g, p), rank);
    ImmortalEdges(g, p);
    KeepOut(ext, g[p].owns, Edges(g, g.Keys - {p}), p);
    CountedImmortal(g, Refs(g, ext), p);
  }

  // Every increment, then, keeps exact counts and acyclicity.
  lemma AnyIncrementKeepsInv(g: Graph, ext: multiset<Addr>, p: Addr)
    requires Inv(g, ext) && p in g
    ensures Inv(Incremented(g, p), ext + multiset{p} + Lost(g, p))
  {
    if g[p].rc == SENTINEL - 1 {
      ImmortalKeepsInv(g, ext, p);
    } else {
      IncrementKeepsInv(g, ext, p);
      assert ext + multiset{p} + Lost(g, p) == ext + multiset{p};
    }
  }

  ghost predicate OwnsOnlySentinels(g: Graph, p: Addr)
    requires p in g
  {
    forall k :: k in g[p].owns ==> k in g && g[k].rc == SENTINEL
  }

  lemma CountedWithoutSentinels(g: Graph, refs: multiset<Addr>, lost: multiset<Addr>)
    requires Counted(g, refs) && lost <= refs && forall k :: k in lost ==> k in g && g[k].rc == SENTINEL
    ensures Counted(g, refs - lost)
  {
  }

  lemma LoseRefs(ext: multiset<Addr>, lost: multiset<Addr>, edges: multiset<Addr>)
    ensures ext + edges == (ext + lost + edges) - lost && lost <= ext + lost + edges
  {
  }

  /**
   An increment of p keeps the invariant of the references it should keep it for
   exactly when it does not make p immortal, or p owns nothing but sentinels.
  */
  lemma IncrementKeepsInvIff(g: Graph, ext: multiset<Addr>, p: Addr)
    requires Inv(g, ext) && p in g
    ensures Inv(Incremented(g, p), ext + multiset{p}) <==> g[p].rc != SENTINEL - 1 || OwnsOnlySentinels(g, p)
  {
    var h, own, all := Incremented(g, p), g[p].owns, ext + multiset{p};
    if g[p].rc != SENTINEL - 1 {
      IncrementKeepsInv(g, ext, p);
    } else {
      ImmortalKeepsInv(g, ext, p);
      LoseRefs(all, own, Edges(h, h.Keys));
      if OwnsOnlySentinels(g, p) {
        CountedWithoutSentinels(h, Refs(h, all + own), own);
      } else {
        var k := CountedOwned(g, ext, p);
        assert Refs(h, all)[k] < Refs(h, all + own)[k] == h[k].rc;
      }
    }
  }

  // A block that owns more than sentinels owns a counted block, not itself.
  lemma CountedOwned(g: Graph, ext: multiset<Addr>, p: Addr) returns (k: Addr)
    requires Inv(g, ext) && p in g && !OwnsOnlySentinels(g, p)
    ensures k in g[p].owns && k != p && k in g && g[k].rc != SENTINEL
  {
    k :| k in g[p].owns && !(k in g && g[k].rc == SENTINEL);
    OwnedPresent(g, ext, p, k);
    var rank: Ranking :| Ranked(g, rank);
    assert Rank(rank, k) < Rank(rank, p);
  }

  // ---------------------------------------------------------------------
  // What a release frees
  // ---------------------------------------------------------------------

  // a is held from outside, or owned by a node reachable in n - 1 edges.
  ghost predicate ReachableIn(g: Graph, ext: multiset<Addr>, a: Addr, n: nat)
    decreases n
  {
    a in g && if n == 0 then a in ext
              else exists b :: b in g && a in g[b].owns && ReachableIn(g, ext, b, n - 1)
  }

  ghost predicate Reachable(g: Graph, ext: multiset<Addr>, a: Addr) {
    exists n: nat :: ReachableIn(g, ext, a, n)
  }

  // No garbage: a counted node is always reachable.
  lemma {:induction false} LiveReachable(g: Graph, ext: multiset<Addr>, rank: Ranking, top: nat, a: Addr)
    requires Exact(g, ext) && Ranked(g, rank) && (forall x :: x in g ==> Rank(rank, x) < top)
    requires a in g && g[a].rc != SENTINEL
    requires forall x :: x in g && g[x].rc == SENTINEL ==> g[x].owns == multiset{}
    ensures Reachable(g, ext, a)
    decreases top - Rank(rank, a)
  {
    assert a in Refs(g, ext);
    if a in ext {
      assert ReachableIn(g, ext, a, 0);
    } else {
      var b := EdgeSource(g, g.Keys, a);
      LiveReachable(g, ext, rank, top, b);
      var n: nat :| ReachableIn(g, ext, b, n);
      assert ReachableIn(g, ext, a, n + 1);
    }
  }

  // What the remaining references reach survives, and was reachable before.
  lemma {:induction false} ReachableSurvives(g: Graph, h: Graph, ext: multiset<Addr>, a: Addr, n: nat)
    requires Shrunk(g, h) && Exact(h, ext) && ReachableIn(g, ext, a, n)
    ensures a in h
    decreases n
  {
    if n == 0 {
      ExternalPresent(h, ext, a);
    } else {
      var b :| b in g && a in g[b].owns && ReachableIn(g, ext, b, n - 1);
      ReachableSurvives(g, h, ext, b, n - 1);
      OwnedPresent(h, ext, b, a);
    }
  }

  lemma {:induction false} ReachableBefore(g: Graph, h: Graph, ext: multiset<Addr>, a: Addr, n: nat)
    requires Shrunk(g, h) && ReachableIn(h, ext, a, n)
    ensures ReachableIn(g, ext, a, n)
    decreases n
  {
    if n > 0 {
      var b :| b in h && a in h[b].owns && ReachableIn(h, ext, b, n - 1);
      ReachableBefore(g, h, ext, b, n - 1);
    }
  }

  ghost predicate SentinelsOwnNothing(g: Graph) {
    forall a :: a in g && g[a].rc == SENTINEL ==> g[a].owns == multiset{}
  }

  // Survivors of any shrinking that ends exactly counted are the reachable nodes.
  lemma SurvivorsReachable(g: Graph, h: Graph, ext: multiset<Addr>, a: Addr)
    requires Shrunk(g, h) && Inv(h, ext) && SentinelsOwnNothing(g) && a in g && g[a].rc != SENTINEL
    ensures a in h <==> Reachable(g, ext, a)
  {
    if a in h {
      var rank: Ranking :| Ranked(h, rank);
      var top := RankBound(h.Keys, rank);
      LiveReachable(h, ext, rank, top, a);
      var n: nat :| ReachableIn(h, ext, a, n);
      ReachableBefore(g, h, ext, a, n);
    }
    if Reachable(g, ext, a) {
      var n: nat :| ReachableIn(g, ext, a, n);
      ReachableSurvives(g, h, ext, a, n);
    }
  }

  /**
   Whatever graph a release of p leaves behind, it satisfies the invariant
   without that reference, and a counted node is gone exactly when the remaining
   external references no longer reach it.
  */
  lemma ReleaseFreesUnreachable(g: Graph, ext: multiset<Addr>, p: Addr, h: Graph)
    requires Inv(g, ext) && SentinelsOwnNothing(g) && p in ext && Released(g, ext, p, h)
    ensures Inv(h, ext - multiset{p})
    ensures forall a :: a in g ==> (a in h <==> g[a].rc == SENTINEL || Reachable(g, ext - multiset{p}, a))
  {
    ReleaseKeepsInv(g, ext, p, h);
    forall a | a in g && g[a].rc != SENTINEL
      ensures a in h <==> Reachable(g, ext - multiset{p}, a)
    {
      SurvivorsReachable(g, h, ext - multiset{p}, a);
    }
  }

  lemma ReleaseKeepsInv(g: Graph, ext: multiset<Addr>, p: Addr, h: Graph)
    requires Inv(g, ext) && p in ext && Released(g, ext, p, h)
    ensures Inv(h, ext - multiset{p})
  {
    ExternalPresent(g, ext, p);
    var rank: Ranking :| Ranked(g, rank);
    ShrunkRanked(g, h, rank);
  }

  // No garbage: in a graph with exact counts, the counted nodes are all reachable.
  lemma CountedReachable(g: Graph, ext: multiset<Addr>, a: Addr)
    requires Inv(g, ext) && SentinelsOwnNothing(g) && a in g && g[a].rc != SENTINEL
    ensures Reachable(g, ext, a)
  {
    SurvivorsReachable(g, g, ext, a);
  }

  lemma {:induction false} NothingReachable(g: Graph, a: Addr, n: nat)
    ensures !ReachableIn(g, multiset{}, a, n)
    decreases n
  {
    if n > 0 && ReachableIn(g, multiset{}, a, n) {
      var b :| b in g && a in g[b].owns && ReachableIn(g, multiset{}, b, n - 1);
      NothingReachable(g, b, n - 1);
    }
  }

  // ---------------------------------------------------------------------
  // Whole runs
  // ---------------------------------------------------------------------

  datatype Event =
    | Alloc(a: Addr, owns: multiset<Addr>)
    | ArenaAlloc(a: Addr)
    | Inc(p: Addr)
    | Dec(p: Addr)

  // `ext` counts the references that callers hold, `stuck` those that immortal blocks
  // owned when they became immortal; nobody can give the latter back.
  datatype State = State(graph: Graph, ext: multiset<Addr>, stuck: multiset<Addr>)

  ghost function Held(s: State): multiset<Addr> { s.ext + s.stuck }

  ghost predicate Step(s: State, e: Event, t: State) {
    match e
    case Alloc(a, owns) =>
      && a != 0 && a !in s.graph && owns <= s.ext
      && t == State(s.graph[a := Node(1, owns)], s.ext - owns + multiset{a}, s.stuck)
    case ArenaAlloc(a) =>
      && a != 0 && a !in s.graph
      && t == State(s.graph[a := Node(SENTINEL, multiset{})], s.ext - multiset{} + multiset{a}, s.stuck)
    case Inc(p) =>
      && p in s.graph
      && t == State(Incremented(s.graph, p), s.ext + multiset{p}, s.stuck + Lost(s.graph, p))
    case Dec(p) =>
      && p in s.ext && Released(s.graph, Held(s), p, t.graph)
      && t.ext == s.ext - multiset{p} && t.stuck == s.stuck
  }

  // A run: each event with the state it led to.
  datatype Trace = Start(first: State) | Then(before: Trace, e: Event, after: State)

  function Last(t: Trace): State { if t.Start? then t.first else t.after }

  ghost predicate From(s: State, t: Trace) {
    match t
    case Start(first) => first == s
    case Then(before, e, after) => From(s, before) && Step(Last(before), e, after)
  }

  const EMPTY := State(map[], multiset{}, multiset{})

  // A run from the empty heap.
  ghost predicate Possible(t: Trace) { From(EMPTY, t) }

  lemma MoveIn(ext: multiset<Addr>, stuck: multiset<Addr>, own: multiset<Addr>, a: Addr)
    requires own <= ext
    ensures own <= ext + stuck && (ext + stuck) - own + multiset{a} == (ext - own + multiset{a}) + stuck
  {
  }

  lemma MoveOut(ext: multiset<Addr>, stuck: multiset<Addr>, lost: multiset<Addr>, p: Addr)
    ensures (ext + stuck) + multiset{p} + lost == (ext + multiset{p}) + (stuck + lost)
  {
  }

  lemma StepKeepsInv(s: State, e: Event, t: State)
    requires Inv(s.graph, Held(s)) && SentinelsOwnNothing(s.graph) && Step(s, e, t)
    ensures Inv(t.graph, Held(t)) && SentinelsOwnNothing(t.graph)
  {
    match e
    case Alloc(a, owns) => AllocKeepsInv(s, Node(1, owns), a);
    case ArenaAlloc(a) => AllocKeepsInv(s, Node(SENTINEL, multiset{}), a);
    case Inc(p) => IncKeepsInv(s, p);
    case Dec(p) => DecKeepsInv(s, p, t.graph);
  }

  lemma AllocKeepsInv(s: State, n: Node, a: Addr)
    requires Inv(s.graph, Held(s)) && SentinelsOwnNothing(s.graph) && a != 0 && a !in s.graph && n.owns <= s.ext
    requires n.rc == 1 || n == Node(SENTINEL, multiset{})
    ensures Inv(s.graph[a := n], (s.ext - n.owns + multiset{a}) + s.stuck)
    ensures SentinelsOwnNothing(s.graph[a := n])
  {
    MoveIn(s.ext, s.stuck, n.owns, a);
    AddKeepsInv(s.graph, Held(s), a, n);
  }

  lemma IncKeepsInv(s: State, p: Addr)
    requires Inv(s.graph, Held(s)) && SentinelsOwnNothing(s.graph) && p in s.graph
    ensures Inv(Incremented(s.graph, p), (s.ext + multiset{p}) + (s.stuck + Lost(s.graph, p)))
    ensures SentinelsOwnNothing(Incremented(s.graph, p))
  {
    MoveOut(s.ext, s.stuck, Lost(s.graph, p), p);
    AnyIncrementKeepsInv(s.graph, Held(s), p);
  }

  lemma DecKeepsInv(s: State, p: Addr, h: Graph)
    requires Inv(s.graph, Held(s)) && SentinelsOwnNothing(s.graph) && p in s.ext && Released(s.graph, Held(s), p, h)
    ensures Inv(h, (s.ext - multiset{p}) + s.stuck) && SentinelsOwnNothing(h)
  {
    DropRef(s.ext, s.stuck, p);
    ReleaseKeepsInv(s.graph, Held(s), p, h);
  }

  lemma EmptyInv()
    ensures Inv(map[], multiset{})
  {
    assert Ranked(map[], map[]);
  }

  lemma {:induction false} RunFromKeepsInv(s: State, t: Trace)
    requires Inv(s.graph, Held(s)) && SentinelsOwnNothing(s.graph) && From(s, t)
    ensures Inv(Last(t).graph, Held(Last(t))) && SentinelsOwnNothing(Last(t).graph)
  {
    if t.Then? {
      RunFromKeepsInv(s, t.before);
      StepKeepsInv(Last(t.before), t.e, t.after);
    }
  }

  /**
   Along every run, whatever its increments reach, each count is exact for the
   references that callers and blocks hold and those that are stuck.
  */
  lemma RunKeepsInv(t: Trace)
    requires Possible(t)
    ensures Inv(Last(t).graph, Held(Last(t))) && SentinelsOwnNothing(Last(t).graph)
  {
    EmptyInv();
    assert Held(EMPTY) == multiset{};
    RunFromKeepsInv(EMPTY, t);
  }

  /**
   A run that has handed back every reference has freed every counted node but
   those that a node now immortal owned, through any number of nodes.
  */
  lemma BalancedRunLeaves(t: Trace, a: Addr)
    requires Possible(t) && Last(t).ext == multiset{} && a in Last(t).graph && Last(t).graph[a].rc != SENTINEL
    ensures Reachable(Last(t).graph, Last(t).stuck, a)
  {
    RunKeepsInv(t);
    assert Held(Last(t)) == Last(t).stuck;
    CountedReachable(Last(t).graph, Held(Last(t)), a);
  }

  // If no count reached the sentinel, nothing leaks.
  lemma BalancedRunLeavesNothing(t: Trace, a: Addr)
    requires Possible(t) && Last(t).ext == multiset{} && Last(t).stuck == multiset{} && a in Last(t).graph
    ensures Last(t).graph[a].rc == SENTINEL
  {
    if Last(t).graph[a].rc != SENTINEL {
      BalancedRunLeaves(t, a);
      var n: nat :| ReachableIn(Last(t).graph, multiset{}, a, n);
      NothingReachable(Last(t).graph, a, n);
    }
  }

  // ---------------------------------------------------------------------
  // What an immortal node keeps
  // ---------------------------------------------------------------------

  // After a step a node owns what it owned, unless the step made it immortal, and
  // then that is stuck.
  lemma StepOwns(s: State, e: Event, t: State, b: Addr)
    requires Step(s, e, t) && b in s.graph && b in t.graph
    ensures t.graph[b].owns == s.graph[b].owns || s.graph[b].owns <= t.stuck
    ensures s.stuck <= t.stuck
  {
  }

  lemma {:induction false} StepKeepsStuck(s: State, e: Event, t: State, a: Addr, n: nat)
    requires Inv(s.graph, Held(s)) && SentinelsOwnNothing(s.graph) && Step(s, e, t)
    requires ReachableIn(s.graph, s.stuck, a, n)
    ensures Reachable(t.graph, t.stuck, a)
    decreases n
  {
    StepKeepsInv(s, e, t);
    if n == 0 {
      StuckPresent(s, e, t, a);
      assert ReachableIn(t.graph, t.stuck, a, 0);
    } else {
      var b :| b in s.graph && a in s.graph[b].owns && ReachableIn(s.graph, s.stuck, b, n - 1);
      StepKeepsStuck(s, e, t, b, n - 1);
      var m: nat :| ReachableIn(t.graph, t.stuck, b, m);
      StepOwns(s, e, t, b);
      OwnerReaches(t, b, a, m, s.graph[b].owns);
    }
  }

  lemma StuckPresent(s: State, e: Event, t: State, a: Addr)
    requires Step(s, e, t) && Inv(t.graph, Held(t)) && a in s.stuck
    ensures a in t.graph && a in t.stuck
  {
    assert a in t.stuck;
    assert a in Held(t);
    ExternalPresent(t.graph, Held(t), a);
  }

  lemma OwnerReaches(t: State, b: Addr, a: Addr, m: nat, owns: multiset<Addr>)
    requires Inv(t.graph, Held(t)) && ReachableIn(t.graph, t.stuck, b, m) && a in owns
    requires t.graph[b].owns == owns || owns <= t.stuck
    ensures Reachable(t.graph, t.stuck, a)
  {
    if t.graph[b].owns == owns {
      OwnedPresent(t.graph, Held(t), b, a);
      assert ReachableIn(t.graph, t.stuck, a, m + 1);
    } else {
      assert a in t.stuck;
      assert a in Held(t);
      ExternalPresent(t.graph, Held(t), a);
      assert ReachableIn(t.graph, t.stuck, a, 0);
    }
  }

  /**
   What an immortal node owned, and all that this owns in turn, survives every
   later run: the runtime never frees it.
  */
  lemma {:induction false} StuckForGood(s: State, t: Trace, a: Addr)
    requires Inv(s.graph, Held(s)) && SentinelsOwnNothing(s.graph) && From(s, t) && Reachable(s.graph, s.stuck, a)
    ensures Reachable(Last(t).graph, Last(t).stuck, a) && a in Last(t).graph
  {
    if t.Then? {
      StuckForGood(s, t.before, a);
      RunFromKeepsInv(s, t.before);
      var m := Last(t.before);
      var n: nat :| ReachableIn(m.graph, m.stuck, a, n);
      StepKeepsStuck(m, t.e, t.after, a, n);
    }
    var n: nat :| ReachableIn(Last(t).graph, Last(t).stuck, a, n);
  }

  // Such a run exists: the node 2 owns 1, and is incremented to the sentinel.
  ghost function TwoNodes(n: int): Graph { map[1 := Node(1, multiset{}), 2 := Node(n, multiset{1})] }

  lemma {:induction false} CountUpTo(n: nat) returns (t: Trace)
    requires 1 <= n < SENTINEL
    ensures Possible(t) && Last(t).stuck == multiset{} && Last(t).graph == TwoNodes(n)
    decreases n
  {
    if n == 1 {
      t := AllocTwo();
    } else {
      var before := CountUpTo(n - 1);
      var s := Last(before);
      CountOnce(s, n - 1);
      t := Then(before, Inc(2), State(TwoNodes(n), s.ext + multiset{2}, multiset{}));
    }
  }

  lemma CountOnce(s: State, n: nat)
    requires 1 <= n < SENTINEL - 1 && s.graph == TwoNodes(n) && s.stuck == multiset{}
    ensures Step(s, Inc(2), State(TwoNodes(n + 1), s.ext + multiset{2}, multiset{}))
  {
    assert s.stuck + Lost(s.graph, 2) == multiset{};
    assert Incremented(s.graph, 2) == TwoNodes(n + 1);
  }

  lemma AllocTwo() returns (t: Trace)
    ensures Possible(t) && Last(t).stuck == multiset{} && Last(t).graph == TwoNodes(1)
  {
    var one := State(map[1 := Node(1, multiset{})], multiset{} - multiset{} + multiset{1}, multiset{});
    var two := State(TwoNodes(1), one.ext - multiset{1} + multiset{2}, multiset{});
    assert two.graph == one.graph[2 := Node(1, multiset{1})];
    assert Step(EMPTY, Alloc(1, multiset{}), one) && Step(one, Alloc(2, multiset{1}), two);
    var first := Start(EMPTY);
    assert From(EMPTY, first);
    t := Then(Then(first, Alloc(1, multiset{}), one), Alloc(2, multiset{1}), two);
  }

  lemma ImmortalLeaks() returns (t: Trace)
    ensures Possible(t) && t.Then? && t.e == Inc(2) && Last(t).stuck == multiset{1}
    ensures !Inv(Last(t).graph, Last(t).ext)
    ensures forall more: Trace :: From(Last(t), more) ==> 1 in Last(more).graph
  {
    var before := CountUpTo(SENTINEL - 1);
    var s := Last(before);
    t := Then(before, Inc(2), State(Incremented(s.graph, 2), s.ext + multiset{2}, s.stuck + Lost(s.graph, 2)));
    RunKeepsInv(before);
    assert Held(s) == s.ext;
    assert 1 in s.graph[2].owns && s.graph[1].rc != SENTINEL;
    IncrementKeepsInvIff(s.graph, s.ext, 2);
    RunKeepsInv(t);
    var after := Last(t);
    assert ReachableIn(after.graph, after.stuck, 1, 0);
    forall more: Trace | From(after, more) ensures 1 in Last(more).graph { StuckForGood(after, more, 1); }
  }
}
