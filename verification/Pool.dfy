/**
 The size-class slab pool under rc_alloc (src/compiled_runtime.c, pool_class_for,
 pool_grow, pool_alloc, pool_free).

 Free blocks are linked through their own first word.  The program may write
 anything into a block it holds, so only the words of free blocks are links.
 calloc and malloc are the environment: each call gets a fresh, 8-aligned region.
*/
module Pool {

  type Addr = int

  const CLASSES := 5
  const SLAB_BLOCKS := 256
  const POOL_SIZES: seq<nat> := [32, 64, 128, 296, 608]

  // The smallest class that fits, or -1.
  method PoolClassFor(total: nat) returns (cls: int)
    ensures cls == ClassFor(total)
  {
    var i := 0;
    while i < CLASSES
      invariant 0 <= i <= CLASSES
      invariant forall j :: 0 <= j < i ==> total > POOL_SIZES[j]
    {
      if total <= POOL_SIZES[i] { return i; }
      i := i + 1;
    }
    return -1;
  }

  function ClassFor(total: nat): (cls: int)
    ensures -1 <= cls < CLASSES
    ensures cls >= 0 ==> total <= POOL_SIZES[cls]
    ensures cls == -1 ==> total > 608
    ensures forall j :: 0 <= j < cls ==> total > POOL_SIZES[j]
  {
    if total <= 32 then 0 else if total <= 64 then 1 else if total <= 128 then 2
    else if total <= 296 then 3 else if total <= 608 then 4 else -1
  }

  // ---------------------------------------------------------------------
  // The class travels in the block's tag word
  // ---------------------------------------------------------------------

  function EncodeTag(tag: nat, cls: int): int { tag + (cls + 1) * 0x100 }

  function DecodeTag(word: int): int { word % 0x100 }

  function DecodePoolClass(word: int): int { (word / 0x100) % 0x100 - 1 }

  // What rc_dec hands to pool_free leads back to the class rc_alloc chose,
  // whatever auxiliary bits the HAMT code has put above bit 16 since.
  lemma FreedToItsOwnClass(total: nat, tag: nat, aux: int)
    requires tag < 0x100
    ensures var word := EncodeTag(tag, ClassFor(total)) + aux * 0x1_0000;
            && DecodeTag(word) == tag
            && DecodePoolClass(word) == ClassFor(total)
            && (ClassFor(total) >= 0 ==> ClassFor(POOL_SIZES[DecodePoolClass(word)]) == ClassFor(total))
  {
    var cls := ClassFor(total);
    var word := EncodeTag(tag, cls) + aux * 0x1_0000;
    assert word == tag + 0x100 * (cls + 1 + 0x100 * aux);
    assert word / 0x100 == cls + 1 + 0x100 * aux;
  }

  // ---------------------------------------------------------------------
  // Free lists
  // ---------------------------------------------------------------------

  function Link(list: seq<Addr>, i: nat): Addr { if i < |list| then list[i] else 0 }

  // The first word of the block at a; calloc clears what nobody wrote.
  function Word(mem: map<Addr, Addr>, a: Addr): Addr { if a in mem then mem[a] else 0 }

  // From head, the links in memory spell out exactly this list, then null.
  ghost predicate Chain(mem: map<Addr, Addr>, head: Addr, list: seq<Addr>) {
    && head == Link(list, 0)
    && (forall i {:trigger Word(mem, list[i])} :: 0 <= i < |list| ==> Word(mem, list[i]) == Link(list, i + 1))
  }

  ghost predicate Distinct(list: seq<Addr>) {
    forall i, j :: 0 <= i < j < |list| ==> list[i] != list[j]
  }

  lemma ChainPush(mem: map<Addr, Addr>, head: Addr, list: seq<Addr>, b: Addr)
    requires Chain(mem, head, list) && b !in list
    ensures Chain(mem[b := head], b, [b] + list)
  {
    var longer, mem' := [b] + list, mem[b := head];
    forall i {:trigger Word(mem', longer[i])} | 0 <= i < |longer|
      ensures Word(mem', longer[i]) == Link(longer, i + 1)
    {
      if i > 0 { assert longer[i] == list[i - 1] && Word(mem, list[i - 1]) == Link(list, i); }
    }
  }

  lemma ChainPop(mem: map<Addr, Addr>, head: Addr, list: seq<Addr>)
    requires Chain(mem, head, list) && list != []
    ensures head == list[0] && Chain(mem, Word(mem, head), list[1..])
  {
    var rest := list[1..];
    assert Word(mem, list[0]) == Link(list, 1);
    forall i {:trigger Word(mem, rest[i])} | 0 <= i < |rest|
      ensures Word(mem, rest[i]) == Link(rest, i + 1)
    {
      assert rest[i] == list[i + 1] && Word(mem, list[i + 1]) == Link(list, i + 2);
    }
  }

  lemma ChainElsewhere(mem: map<Addr, Addr>, head: Addr, list: seq<Addr>, b: Addr, w: Addr)
    requires Chain(mem, head, list) && b !in list
    ensures Chain(mem[b := w], head, list)
  {
    var mem' := mem[b := w];
    forall i {:trigger Word(mem', list[i])} | 0 <= i < |list|
      ensures Word(mem', list[i]) == Link(list, i + 1)
    {
      assert Word(mem, list[i]) == Link(list, i + 1);
    }
  }

  // ---------------------------------------------------------------------
  // The state of the pool
  // ---------------------------------------------------------------------

  // Bytes a block spans and the class it belongs to, -1 for a malloc'd block.
  datatype Extent = Extent(size: nat, cls: int)

  type Blocks = map<Addr, Extent>

  ghost predicate Apart(a: Addr, m: nat, b: Addr, n: nat) { a + m <= b || b + n <= a }

  predicate Sized(e: Extent) {
    && -1 <= e.cls < CLASSES && e.size > 0
    && (e.cls >= 0 ==> e.size == POOL_SIZES[e.cls])
  }

  // Every block known is aligned and shares no byte with another.
  ghost predicate Disjoint(blocks: Blocks) {
    && (forall a :: a in blocks ==> a > 0 && a % 8 == 0 && Sized(blocks[a]))
    && (forall a, b :: a in blocks && b in blocks && a != b ==> Apart(a, blocks[a].size, b, blocks[b].size))
  }

  // A region of n bytes at r shares no byte with a known block.
  ghost predicate Fresh(blocks: Blocks, r: Addr, n: nat) {
    && r > 0 && r % 8 == 0
    && (forall a :: a in blocks ==> Apart(a, blocks[a].size, r, n))
  }

  ghost predicate FreeList(list: seq<Addr>, c: int, blocks: Blocks, live: set<Addr>) {
    && Distinct(list)
    && (forall b :: b in list ==> b in blocks && blocks[b].cls == c && b !in live)
  }

  // A block is held by the program or on the list of its class, never both.
  ghost predicate Accounted(blocks: Blocks, free: seq<seq<Addr>>, live: set<Addr>)
    requires |free| == CLASSES
  {
    && (forall b :: b in live ==> b in blocks)
    && (forall c :: 0 <= c < CLASSES ==> FreeList(free[c], c, blocks, live))
    && (forall b :: b in blocks && b !in live ==> 0 <= blocks[b].cls < CLASSES && b in free[blocks[b].cls])
  }

  ghost predicate Linked(mem: map<Addr, Addr>, head: seq<Addr>, free: seq<seq<Addr>>) {
    && |head| == CLASSES && |free| == CLASSES
    && (forall c :: 0 <= c < CLASSES ==> Chain(mem, head[c], free[c]))
  }

  // Block i of a slab region.
  function BlockAt(data: Addr, c: nat, i: nat): Addr
    requires c < CLASSES
  {
    data + i * POOL_SIZES[c]
  }

  lemma BlockInRegion(data: Addr, c: nat, i: nat)
    requires c < CLASSES && i < SLAB_BLOCKS
    ensures data <= BlockAt(data, c, i) && BlockAt(data, c, i) + POOL_SIZES[c] <= data + SLAB_BLOCKS * POOL_SIZES[c]
    ensures data % 8 == 0 ==> BlockAt(data, c, i) % 8 == 0
  {
    var w := POOL_SIZES[c] / 8;
    assert i * POOL_SIZES[c] == 8 * (i * w);
    assert (i + 1) * POOL_SIZES[c] <= SLAB_BLOCKS * POOL_SIZES[c];
  }

  // Cutting the next block off a fresh region leaves the rest of it fresh.
  lemma CutBlock(blocks: Blocks, data: Addr, c: nat, i: nat)
    requires c < CLASSES && i < SLAB_BLOCKS && Disjoint(blocks) && data % 8 == 0
    requires Fresh(blocks, BlockAt(data, c, i), (SLAB_BLOCKS - i) * POOL_SIZES[c])
    ensures var b := BlockAt(data, c, i);
            && b !in blocks && Disjoint(blocks[b := Extent(POOL_SIZES[c], c)])
            && Fresh(blocks[b := Extent(POOL_SIZES[c], c)], BlockAt(data, c, i + 1),
                     (SLAB_BLOCKS - (i + 1)) * POOL_SIZES[c])
  {
    var s := POOL_SIZES[c];
    var b := BlockAt(data, c, i);
    BlockInRegion(data, c, i);
    assert (SLAB_BLOCKS - i) * s == (SLAB_BLOCKS - (i + 1)) * s + s;
    assert BlockAt(data, c, i + 1) == b + s;
    assert (b + s) % 8 == 0;
  }

  lemma AccountNew(blocks: Blocks, free: seq<seq<Addr>>, live: set<Addr>, b: Addr, c: nat)
    requires |free| == CLASSES && c < CLASSES && Accounted(blocks, free, live) && b !in blocks
    ensures Accounted(blocks[b := Extent(POOL_SIZES[c], c)], free[c := [b] + free[c]], live)
    ensures forall k :: 0 <= k < CLASSES ==> b !in free[k]
  {
    var blocks', free' := blocks[b := Extent(POOL_SIZES[c], c)], free[c := [b] + free[c]];
    assert b !in live;
    forall k | 0 <= k < CLASSES
      ensures b !in free[k] && FreeList(free'[k], k, blocks', live)
    {
      assert FreeList(free[k], k, blocks, live);
    }
  }

  lemma AccountTake(blocks: Blocks, free: seq<seq<Addr>>, live: set<Addr>, c: nat)
    requires |free| == CLASSES && c < CLASSES && Accounted(blocks, free, live) && free[c] != []
    ensures var b := free[c][0];
            && b in blocks && b !in live && blocks[b].cls == c
            && Accounted(blocks, free[c := free[c][1..]], live + {b})
  {
    var b := free[c][0];
    var free', live' := free[c := free[c][1..]], live + {b};
    assert FreeList(free[c], c, blocks, live) && b in free[c];
    forall k | 0 <= k < CLASSES
      ensures FreeList(free'[k], k, blocks, live')
    {
      assert FreeList(free[k], k, blocks, live);
    }
    forall x | x in blocks && x !in live'
      ensures 0 <= blocks[x].cls < CLASSES && x in free'[blocks[x].cls]
    {
      if blocks[x].cls == c { assert x in free[c] && free[c] == [b] + free[c][1..]; }
    }
  }

  lemma AccountGive(blocks: Blocks, free: seq<seq<Addr>>, live: set<Addr>, c: nat, b: Addr)
    requires |free| == CLASSES && c < CLASSES && Accounted(blocks, free, live)
    requires b in live && blocks[b].cls == c
    ensures forall k :: 0 <= k < CLASSES ==> b !in free[k]
    ensures Accounted(blocks, free[c := [b] + free[c]], live - {b})
  {
    var free', live' := free[c := [b] + free[c]], live - {b};
    forall k | 0 <= k < CLASSES
      ensures b !in free[k] && FreeList(free'[k], k, blocks, live')
    {
      assert FreeList(free[k], k, blocks, live);
    }
  }

  lemma AccountMalloc(blocks: Blocks, free: seq<seq<Addr>>, live: set<Addr>, b: Addr, n: nat)
    requires |free| == CLASSES && Accounted(blocks, free, live) && b !in blocks
    ensures Accounted(blocks[b := Extent(n, -1)], free, live + {b})
  {
    forall k | 0 <= k < CLASSES
      ensures FreeList(free[k], k, blocks[b := Extent(n, -1)], live + {b})
    {
      assert FreeList(free[k], k, blocks, live);
    }
  }

  lemma AccountRelease(blocks: Blocks, free: seq<seq<Addr>>, live: set<Addr>, b: Addr)
    requires |free| == CLASSES && Accounted(blocks, free, live) && b in live && blocks[b].cls == -1
    ensures Accounted(blocks - {b}, free, live - {b})
  {
    forall k | 0 <= k < CLASSES
      ensures FreeList(free[k], k, blocks - {b}, live - {b})
    {
      assert FreeList(free[k], k, blocks, live);
    }
  }

  /**
   The thread-local pool.  `free` are the lists the links spell out, `live` the
   blocks the program holds, `blocks` everything ever cut from a slab plus the
   malloc'd blocks still held.
  */
  class BlockPool {
    var head: seq<Addr>
    var mem: map<Addr, Addr>
    ghost var free: seq<seq<Addr>>
    ghost var live: set<Addr>
    ghost var blocks: Blocks

    ghost predicate Valid()
      reads this
    {
      Linked(mem, head, free) && Accounted(blocks, free, live) && Disjoint(blocks)
    }

    constructor ()
      ensures Valid() && live == {} && blocks == map[]
    {
      head, mem, free, live, blocks := [0, 0, 0, 0, 0], map[], [[], [], [], [], []], {}, map[];
    }

    // The program stores into a block it holds.
    method Store(p: Addr, w: Addr)
      requires Valid() && p in live
      modifies this`mem
      ensures Valid() && mem == old(mem)[p := w]
    {
      forall c | 0 <= c < CLASSES
        ensures Chain(mem[p := w], head[c], free[c])
      {
        assert FreeList(free[c], c, blocks, live);
        ChainElsewhere(mem, head[c], free[c], p, w);
      }
      mem := mem[p := w];
    }

    // Put block b, on no list, in front of list c.
    method Push(c: nat, b: Addr)
      requires Linked(mem, head, free) && c < CLASSES
      requires forall k :: 0 <= k < CLASSES ==> b !in free[k]
      modifies this`mem, this`head, this`free
      ensures Linked(mem, head, free) && free == old(free)[c := [b] + old(free[c])]
    {
      ghost var w := head[c];
      forall k | 0 <= k < CLASSES
        ensures k != c ==> Chain(mem[b := w], head[k], free[k])
      {
        ChainElsewhere(mem, head[k], free[k], b, w);
      }
      ChainPush(mem, head[c], free[c], b);
      mem := mem[b := head[c]];
      head := head[c := b];
      free := free[c := [b] + free[c]];
    }

    // Cut a fresh slab of 256 blocks, the last one ending up in front.
    method PoolGrow(c: nat, slab: Addr)
      requires Valid() && c < CLASSES && slab > 0
      requires Fresh(blocks, slab + 8, SLAB_BLOCKS * POOL_SIZES[c])
      modifies this
      ensures Valid() && live == old(live)
      ensures forall k :: 0 <= k < CLASSES && k != c ==> free[k] == old(free[k])
      ensures |free[c]| == |old(free[c])| + SLAB_BLOCKS && free[c][SLAB_BLOCKS..] == old(free[c])
      ensures forall i :: 0 <= i < SLAB_BLOCKS ==> free[c][i] == BlockAt(slab + 8, c, SLAB_BLOCKS - 1 - i)
      ensures forall b :: b in old(blocks) ==> b in blocks && blocks[b] == old(blocks)[b]
    {
      var data := slab + 8;
      var i := 0;
      while i < SLAB_BLOCKS
        invariant 0 <= i <= SLAB_BLOCKS
        invariant Valid() && live == old(live)
        invariant Fresh(blocks, BlockAt(data, c, i), (SLAB_BLOCKS - i) * POOL_SIZES[c])
        invariant forall k :: 0 <= k < CLASSES && k != c ==> free[k] == old(free[k])
        invariant |free[c]| == |old(free[c])| + i && free[c][i..] == old(free[c])
        invariant forall j :: 0 <= j < i ==> free[c][j] == BlockAt(data, c, i - 1 - j)
        invariant forall b :: b in old(blocks) ==> b in blocks && blocks[b] == old(blocks)[b]
      {
        var b := BlockAt(data, c, i);
        CutBlock(blocks, data, c, i);
        AccountNew(blocks, free, live, b, c);
        Push(c, b);
        blocks := blocks[b := Extent(POOL_SIZES[c], c)];
        i := i + 1;
      }
    }

    /**
     A block of at least `total` bytes.  `region` is what calloc (for a new slab)
     or malloc (for a block too large for any class) would return.
    */
    method PoolAlloc(total: nat, region: Addr) returns (p: Addr)
      requires Valid()
      requires ClassFor(total) == -1 ==> Fresh(blocks, region, total)
      requires ClassFor(total) >= 0 && free[ClassFor(total)] == [] ==>
                 region > 0 && Fresh(blocks, region + 8, SLAB_BLOCKS * POOL_SIZES[ClassFor(total)])
      modifies this
      ensures Valid()
      ensures p !in old(live) && live == old(live) + {p}
      ensures p > 0 && p % 8 == 0 && blocks[p].cls == ClassFor(total) && blocks[p].size >= total
      ensures forall q :: q in old(live) ==> Apart(p, blocks[p].size, q, blocks[q].size)
      ensures forall b :: b in old(blocks) ==> b in blocks && blocks[b] == old(blocks)[b]
      ensures ClassFor(total) >= 0 && old(free[ClassFor(total)]) != [] ==> p == old(free[ClassFor(total)])[0]
    {
      var cls := PoolClassFor(total);
      if cls < 0 {
        assert region !in blocks;
        AccountMalloc(blocks, free, live, region, total);
        blocks, live := blocks[region := Extent(total, -1)], live + {region};
        return region;
      }
      HeadNull(cls);
      if head[cls] == 0 { PoolGrow(cls, region); }
      ChainPop(mem, head[cls], free[cls]);
      AccountTake(blocks, free, live, cls);
      p := head[cls];
      head := head[cls := Word(mem, p)];
      live := live + {p};
      free := free[cls := free[cls][1..]];
    }

    // The head word of a list is null exactly when the list is empty.
    lemma HeadNull(c: nat)
      requires Valid() && c < CLASSES
      ensures head[c] == 0 <==> free[c] == []
    {
      assert Chain(mem, head[c], free[c]) && FreeList(free[c], c, blocks, live);
      assert free[c] != [] ==> free[c][0] in free[c];
    }

    // `total` is any size of the class the block came from.
    method PoolFree(p: Addr, total: nat)
      requires Valid() && (p == 0 || (p in live && blocks[p].cls == ClassFor(total)))
      modifies this
      ensures Valid()
      ensures p == 0 ==> live == old(live) && free == old(free) && blocks == old(blocks)
      ensures p != 0 ==> live == old(live) - {p}
      ensures p != 0 && ClassFor(total) >= 0 ==>
                blocks == old(blocks) && free == old(free)[ClassFor(total) := [p] + old(free[ClassFor(total)])]
      ensures p != 0 && ClassFor(total) == -1 ==> blocks == old(blocks) - {p} && free == old(free)
    {
      if p == 0 { return; }
      var cls := PoolClassFor(total);
      if cls < 0 {
        AccountRelease(blocks, free, live, p);
        blocks, live := blocks - {p}, live - {p};
        return;
      }
      AccountGive(blocks, free, live, cls, p);
      Push(cls, p);
      live := live - {p};
    }
  }
}
