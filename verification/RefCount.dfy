/**
 Reference counting with recursive, tag-directed destruction
 (src/compiled_runtime.c, rc_alloc / yona_rt_rc_inc / yona_rt_rc_dec, and
 src/runtime/hamt.c, yona_rt_hamt_destroy_children).

 A heap maps the payload address of every block not yet given back to the
 allocator to its two header words and its payload words.
*/
module RefCount {
  import opened RefGraph

  datatype Cell = Cell(rc: int, word: int, payload: seq<int>)

  type Heap = map<Addr, Cell>

  // ---------------------------------------------------------------------
  // Which words a block owns, read from its tag, flags and masks
  // ---------------------------------------------------------------------

  const TAG_SEQ := 1
  const TAG_SET := 2
  const TAG_DICT := 3
  const TAG_ADT := 4
  const TAG_CLOSURE := 5
  const TAG_TUPLE := 9
  const TAG_CHUNKED := 11
  const TAG_RBT_NODE := 13
  const TAG_RBT_LEAF := 14

  // Bits 0-7 of the second header word.
  function Tag(word: int): int { word % 0x100 }

  // Bit i of a two's complement word; `/` and `%` by 2 round down.
  predicate Bit(word: int, i: nat)
    decreases i, word
  {
    if i == 0 then word % 2 == 1 else Bit(word / 2, i - 1)
  }

  function PopCount(word: int, bits: nat): nat
    decreases bits, word
  {
    if bits == 0 then 0 else word % 2 + PopCount(word / 2, bits - 1)
  }

  function At(p: seq<int>, i: int): int { if 0 <= i < |p| then p[i] else 0 }

  function NonNull(v: int): seq<int> { if v != 0 then [v] else [] }

  // The non-null words among p[start .. start + count).
  function Run(p: seq<int>, start: int, count: int): seq<int>
    decreases count, p
  {
    if count <= 0 then [] else Run(p, start, count - 1) + NonNull(At(p, start + count - 1))
  }

  // The same, keeping only the words whose mask bit is set.
  function Masked(p: seq<int>, start: int, count: int, mask: int): seq<int>
    decreases count
  {
    if count <= 0 then []
    else Masked(p, start, count - 1, mask)
         + if Bit(mask, count - 1) then NonNull(At(p, start + count - 1)) else []
  }

  // Inline entries of a HAMT node: key then value, each owned by its own flag.
  function Entries(p: seq<int>, count: nat, keyHeap: bool, valHeap: bool): seq<int> {
    if count == 0 then []
    else Entries(p, count - 1, keyHeap, valHeap)
         + (if keyHeap then NonNull(At(p, 3 + 2 * (count - 1))) else [])
         + (if valHeap then NonNull(At(p, 3 + 2 * (count - 1) + 1)) else [])
  }

  function Min64(n: int): int { if n < 64 then n else 64 }

  // Upper half of a word, read back as a 32-bit signed int.
  function SignedHigh(word: int): int {
    var high := (word / 0x1_0000_0000) % 0x1_0000_0000;
    if high < 0x8000_0000 then high else high - 0x1_0000_0000
  }

  // The pointers that yona_rt_rc_dec releases when this block dies, in order.
  function OwnedWords(word: int, p: seq<int>): seq<int> {
    var tag := Tag(word);
    if tag == TAG_SEQ then
      (if At(p, 1) % 0x1_0000_0000 != 0 then Run(p, 2 + SignedHigh(At(p, 1)), At(p, 0)) else [])
    else if tag == TAG_CHUNKED then NonNull(At(p, 35))
    else if tag == TAG_RBT_NODE then Run(p, 0, 32)
    else if tag == TAG_RBT_LEAF then (if At(p, 0) != 0 then Run(p, 1, 32) else [])
    else if tag == TAG_CLOSURE then Masked(p, 5, Min64(At(p, 3)), At(p, 4))
    else if tag == TAG_ADT then Masked(p, 3, Min64(At(p, 1)), At(p, 2))
    else if tag == TAG_DICT then
      var dc := PopCount(At(p, 0), 64);
      Entries(p, dc, Bit(word, 16), Bit(word, 17)) + Run(p, 3 + 2 * dc, PopCount(At(p, 1), 64))
    else if tag == TAG_SET then (if At(p, 1) != 0 then Run(p, 2, At(p, 0)) else [])
    else if tag == TAG_TUPLE then Masked(p, 2, Min64(At(p, 0)), At(p, 1))
    else []
  }

  function Owned(c: Cell): seq<int> { OwnedWords(c.word, c.payload) }

  // The words s[i..] with their multiplicities.
  ghost function BagFrom(s: seq<Addr>, i: nat): multiset<Addr>
    requires i <= |s|
    decreases |s| - i
  {
    if i == |s| then multiset{} else multiset{s[i]} + BagFrom(s, i + 1)
  }

  ghost function Bag(s: seq<Addr>): multiset<Addr> { BagFrom(s, 0) }

  lemma {:induction false} InBag(s: seq<Addr>, i: nat, k: nat)
    requires i <= k < |s|
    ensures s[k] in BagFrom(s, i)
    decreases k - i
  {
    if i < k { InBag(s, i + 1, k); }
  }

  // The node a block stands for; a sentinel block owns nothing.
  ghost function NodeOf(c: Cell): Node {
    Node(c.rc, if c.rc == SENTINEL then multiset{} else Bag(Owned(c)))
  }

  // The graph of the blocks of a heap that are not under destruction: `dying`
  // blocks are still allocated but no longer part of the graph.
  ghost predicate Models(h: Heap, g: Graph, dying: set<Addr>) {
    && (forall a :: a in h <==> a in g || a in dying)
    && (forall a :: a in g ==> a !in dying && g[a] == NodeOf(h[a]))
  }

  // The block at p with another count.
  function Recounted(h: Heap, p: Addr, n: int): Heap
    requires p in h
  {
    h[p := h[p].(rc := n)]
  }

  lemma ModelsAdd(h: Heap, g: Graph, a: Addr, c: Cell)
    requires Models(h, g, {}) && a !in h
    ensures Models(h[a := c], g[a := NodeOf(c)], {})
  {
  }

  lemma ModelsRecount(h: Heap, g: Graph, dying: set<Addr>, p: Addr, n: int)
    requires Models(h, g, dying) && p in g && g[p].rc != SENTINEL && n != SENTINEL
    ensures Models(Recounted(h, p, n), g[p := g[p].(rc := n)], dying)
  {
  }

  function Raised(h: Heap, p: Addr): Heap
    requires p in h
  {
    if h[p].rc == SENTINEL then h else Recounted(h, p, h[p].rc + 1)
  }

  lemma ModelsRaise(h: Heap, g: Graph, p: Addr)
    requires Models(h, g, {}) && p in h
    ensures g[p].rc == h[p].rc && Models(Raised(h, p), Incremented(g, p), {})
  {
  }

  lemma ModelsDie(h: Heap, g: Graph, dying: set<Addr>, p: Addr, n: int)
    requires Models(h, g, dying) && p in g
    ensures Models(Recounted(h, p, n), g - {p}, dying + {p})
  {
  }

  lemma ModelsFree(h: Heap, g: Graph, dying: set<Addr>, p: Addr)
    requires Models(h, g, dying + {p}) && p !in dying
    ensures Models(h - {p}, g, dying)
  {
  }

  // h became k: some blocks were handed back, each once, and the others at most
  // had their counts changed.
  ghost predicate Progress(h: Heap, k: Heap, before: multiset<Addr>, after: multiset<Addr>) {
    && (forall a :: a in k ==> a in h && k[a] == h[a].(rc := k[a].rc))
    && (forall a :: after[a] == before[a] + if a in h && a !in k then 1 else 0)
  }

  lemma ProgressTwice(h: Heap, m: Heap, k: Heap, f: multiset<Addr>, f': multiset<Addr>, f'': multiset<Addr>)
    requires Progress(h, m, f, f') && Progress(m, k, f', f'')
    ensures Progress(h, k, f, f'')
  {
  }

  lemma ProgressRecount(h: Heap, p: Addr, n: int, f: multiset<Addr>)
    requires p in h
    ensures Progress(h, Recounted(h, p, n), f, f)
  {
  }

  lemma ProgressFree(h: Heap, k: Heap, p: Addr, f: multiset<Addr>, f': multiset<Addr>)
    requires p in k && Progress(h, k, f, f')
    ensures Progress(h, k - {p}, f, f' + multiset{p})
  {
  }

  lemma OwnedRankBelow(g: Graph, rank: Ranking, p: Addr, kids: seq<Addr>)
    requires Ranked(g, rank) && p in g && g[p].owns == Bag(kids)
    ensures forall k :: k in kids ==> Rank(rank, k) < Rank(rank, p)
  {
    forall i | 0 <= i < |kids| ensures Rank(rank, kids[i]) < Rank(rank, p) { InBag(kids, 0, i); }
  }

  lemma NextChild(kids: seq<Addr>, i: nat, base: multiset<Addr>)
    requires i < |kids|
    ensures kids[i] in base + BagFrom(kids, i)
    ensures base + BagFrom(kids, i) - multiset{kids[i]} == base + BagFrom(kids, i + 1)
  {
  }

  // The last reference to p goes: p leaves the graph and stays allocated, and what it
  // owned is now held by its destruction.
  lemma StartDying(h: Heap, g: Graph, ext: multiset<Addr>, dying: set<Addr>, rank: Ranking, p: Addr, f: multiset<Addr>)
    requires Models(h, g, dying) && Exact(g, ext) && Ranked(g, rank) && p in ext && p in g && h[p].rc == 1
    ensures Models(Recounted(h, p, 0), g - {p}, dying + {p})
    ensures Exact(g - {p}, ext - multiset{p} + Bag(Owned(h[p]))) && Ranked(g - {p}, rank) && Shrunk(g, g - {p})
    ensures Progress(h, Recounted(h, p, 0), f, f)
    ensures forall k :: k in Owned(h[p]) ==> Rank(rank, k) < Rank(rank, p)
    ensures p !in dying
  {
    Dying(g, ext, p);
    ShrunkRanked(g, g - {p}, rank);
    ModelsDie(h, g, dying, p, 0);
    ProgressRecount(h, p, 0, f);
    OwnedRankBelow(g, rank, p, Owned(h[p]));
  }

  // The blocks under destruction are left as they are.
  ghost predicate Untouched(h: Heap, k: Heap, dying: set<Addr>) {
    forall d :: d in dying && d in h ==> d in k && k[d] == h[d]
  }

  // What it owned has been released: p is handed back.
  lemma EndDying(h: Heap, g: Graph, k: Heap, m: Graph, dying: set<Addr>, p: Addr, f: multiset<Addr>, f': multiset<Addr>)
    requires p in h && p in g && p !in dying && Models(k, m, dying + {p}) && Shrunk(g, g - {p})
    requires Shrunk(g - {p}, m) && Progress(h, Recounted(h, p, 0), f, f) && Progress(Recounted(h, p, 0), k, f, f')
    requires Untouched(Recounted(h, p, 0), k, dying + {p})
    ensures Models(k - {p}, m, dying) && Shrunk(g, m) && Progress(h, k - {p}, f, f' + multiset{p})
    ensures Untouched(h, k - {p}, dying)
  {
    ModelsFree(k, m, dying, p);
    ShrunkTwice(g, g - {p}, m);
    ProgressTwice(h, Recounted(h, p, 0), k, f, f, f');
    ProgressFree(h, k, p, f, f');
  }

  // A reference to a sentinel goes, or none does.
  lemma NothingChanges(h: Heap, g: Graph, dying: set<Addr>, f: multiset<Addr>)
    ensures Shrunk(g, g) && Progress(h, h, f, f) && Untouched(h, h, dying)
  {
  }

  // One reference of several goes.
  lemma LowerOne(h: Heap, g: Graph, ext: multiset<Addr>, dying: set<Addr>, p: Addr, f: multiset<Addr>)
    requires Models(h, g, dying) && Exact(g, ext) && p in ext && p in g && h[p].rc != SENTINEL && h[p].rc > 1
    ensures var n := h[p].rc - 1;
            && Models(Recounted(h, p, n), g[p := g[p].(rc := n)], dying)
            && Exact(g[p := g[p].(rc := n)], ext - multiset{p}) && Shrunk(g, g[p := g[p].(rc := n)])
            && Progress(h, Recounted(h, p, n), f, f) && Untouched(h, Recounted(h, p, n), dying)
  {
    LowerCount(g, ext, p);
    ModelsRecount(h, g, dying, p, h[p].rc - 1);
    ProgressRecount(h, p, h[p].rc - 1, f);
  }

  /**
   The runtime's heap.  `freed` counts how often each block was handed back.
   `graph` is the counted graph of the blocks that are not under destruction;
   the references held outside the heap are passed along as `ext`.
  */
  class Runtime {
    var cells: Heap
    ghost var freed: multiset<Addr>
    ghost var graph: Graph

    ghost predicate Valid(dying: set<Addr>)
      reads this
    {
      Models(cells, graph, dying)
    }

    constructor ()
      ensures Valid({}) && Inv(graph, multiset{}) && cells == map[] && freed == multiset{}
    {
      cells, freed, graph := map[], multiset{}, map[];
      new;
      EmptyInv();
    }

    // rc_alloc at address a together with its caller's payload stores, which
    // move the references they store from the caller into the block.
    method RcAlloc(a: Addr, word: int, payload: seq<int>, ghost ext: multiset<Addr>)
      requires Valid({}) && Inv(graph, ext) && a != 0 && a !in cells
      requires Bag(Owned(Cell(1, word, payload))) <= ext
      modifies this
      ensures Valid({}) && Inv(graph, ext - Bag(Owned(Cell(1, word, payload))) + multiset{a})
      ensures cells == old(cells)[a := Cell(1, word, payload)] && freed == old(freed)
    {
      var c := Cell(1, word, payload);
      AddKeepsInv(graph, ext, a, NodeOf(c));
      ModelsAdd(cells, graph, a, c);
      cells := cells[a := c];
      graph := graph[a := NodeOf(c)];
    }

    // One count below the sentinel, an increment makes the block immortal: it keeps the
    // invariant only with what the block owned counted as held for ever.
    method RcInc(p: Addr, ghost ext: multiset<Addr>)
      requires Valid({}) && Inv(graph, ext) && (p == 0 || p in cells)
      modifies this
      ensures Valid({}) && freed == old(freed)
      ensures p == 0 ==> cells == old(cells) && graph == old(graph)
      ensures p != 0 ==> cells == Raised(old(cells), p) && graph == Incremented(old(graph), p)
      ensures p != 0 ==> Inv(graph, ext + multiset{p} + Lost(old(graph), p))
      ensures p != 0 ==>
                (Inv(graph, ext + multiset{p})
                 <==> old(cells)[p].rc != SENTINEL - 1 || OwnsOnlySentinels(old(graph), p))
    {
      if p == 0 { return; }
      ModelsRaise(cells, graph, p);
      AnyIncrementKeepsInv(graph, ext, p);
      IncrementKeepsInvIff(graph, ext, p);
      graph := Incremented(graph, p);
      var c := cells[p];
      if c.rc == SENTINEL { return; }
      cells := cells[p := c.(rc := c.rc + 1)];
    }

    // yona_rt_rc_dec as its callers see it: no destruction is under way.
    method Drop(p: Addr, ghost ext: multiset<Addr>)
      requires Valid({}) && Inv(graph, ext) && p in ext
      modifies this
      ensures Valid({}) && Inv(graph, ext - multiset{p})
      ensures forall a :: a in old(cells) ==>
                (a in cells <==> old(cells)[a].rc == SENTINEL || Reachable(old(graph), ext - multiset{p}, a))
      ensures Progress(old(cells), cells, old(freed), freed)
    {
      ghost var g := graph;
      ghost var rank: Ranking :| Ranked(g, rank);
      RcDec(p, ext, {}, rank);
      assert SentinelsOwnNothing(g);
      ReleaseFreesUnreachable(g, ext, p, graph);
    }

    method RcDec(p: Addr, ghost ext: multiset<Addr>, ghost dying: set<Addr>, ghost rank: Ranking)
      requires Valid(dying) && Exact(graph, ext) && Ranked(graph, rank)
      requires p == 0 || p in ext
      modifies this
      ensures Valid(dying) && Exact(graph, if p == 0 then ext else ext - multiset{p})
      ensures Shrunk(old(graph), graph) && Progress(old(cells), cells, old(freed), freed)
      ensures Untouched(old(cells), cells, dying)
      decreases Rank(rank, p), 2
    {
      if p == 0 {
        NothingChanges(cells, graph, dying, freed);
        return;
      }
      ExternalPresent(graph, ext, p);
      if cells[p].rc == SENTINEL {
        DropSentinel(graph, ext, p);
        NothingChanges(cells, graph, dying, freed);
      } else if cells[p].rc > 1 {
        Lower(p, ext, dying);
      } else {
        Destroy(p, ext, dying, rank);
      }
    }

    method Lower(p: Addr, ghost ext: multiset<Addr>, ghost dying: set<Addr>)
      requires Valid(dying) && Exact(graph, ext)
      requires p in ext && p in graph && p in cells && cells[p].rc != SENTINEL && cells[p].rc > 1
      modifies this
      ensures Valid(dying) && Exact(graph, ext - multiset{p})
      ensures Shrunk(old(graph), graph) && Progress(old(cells), cells, old(freed), freed)
      ensures Untouched(old(cells), cells, dying)
    {
      LowerOne(cells, graph, ext, dying, p, freed);
      graph := graph[p := graph[p].(rc := cells[p].rc - 1)];
      cells := Recounted(cells, p, cells[p].rc - 1);
    }

    // What yona_rt_rc_dec does once the count it lowered was one.
    method Destroy(p: Addr, ghost ext: multiset<Addr>, ghost dying: set<Addr>, ghost rank: Ranking)
      requires Valid(dying) && Exact(graph, ext) && Ranked(graph, rank)
      requires p in ext && p in graph && p in cells && cells[p].rc == 1
      modifies this
      ensures Valid(dying) && Exact(graph, ext - multiset{p})
      ensures Shrunk(old(graph), graph) && Progress(old(cells), cells, old(freed), freed)
      ensures Untouched(old(cells), cells, dying)
      decreases Rank(rank, p), 1
    {
      ghost var h, g := cells, graph;
      StartDying(h, g, ext, dying, rank, p, freed);
      var kids := Owned(cells[p]);
      cells := Recounted(cells, p, 0);
      graph := graph - {p};
      ReleaseAll(kids, ext - multiset{p}, dying + {p}, rank, Rank(rank, p));
      EndDying(h, g, cells, graph, dying, p, old(freed), freed);
      cells := cells - {p};
      freed := freed + multiset{p};
    }

    // The loops of yona_rt_rc_dec over the words a dying block owns.
    method ReleaseAll(kids: seq<Addr>, ghost base: multiset<Addr>, ghost dying: set<Addr>,
                      ghost rank: Ranking, ghost bound: nat)
      requires Valid(dying) && Exact(graph, base + Bag(kids)) && Ranked(graph, rank)
      requires forall k :: k in kids ==> Rank(rank, k) < bound
      modifies this
      ensures Valid(dying) && Exact(graph, base)
      ensures Shrunk(old(graph), graph) && Progress(old(cells), cells, old(freed), freed)
      ensures Untouched(old(cells), cells, dying)
      decreases bound, 0
    {
      var i := 0;
      while i < |kids|
        invariant 0 <= i <= |kids|
        invariant Valid(dying) && Exact(graph, base + BagFrom(kids, i)) && Ranked(graph, rank)
        invariant Shrunk(old(graph), graph) && Progress(old(cells), cells, old(freed), freed)
        invariant Untouched(old(cells), cells, dying)
      {
        NextChild(kids, i, base);
        ghost var h, g, f := cells, graph, freed;
        ExternalPresent(g, base + BagFrom(kids, i), kids[i]);
        RcDec(kids[i], base + BagFrom(kids, i), dying, rank);
        ShrunkRanked(g, graph, rank);
        ShrunkTwice(old(graph), g, graph);
        ProgressTwice(old(cells), h, cells, old(freed), f, freed);
        i := i + 1;
      }
      assert base + BagFrom(kids, i) == base;
    }
  }
}
