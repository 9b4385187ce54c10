/**
 The bump arena with an overflow chain (src/compiled_runtime.c,
 yona_rt_arena_create, yona_rt_arena_alloc, yona_rt_arena_destroy).

 The chain is a list of blocks; following `next` is moving on by one.
*/
module Arena {

  type Addr = int

  const DEFAULT_SIZE := 4096
  const HEADER := 32  // sizeof(yona_arena_t)
  const RC_HEADER := 16

  datatype Block = Block(base: Addr, cursor: Addr, end: Addr)

  // Bytes handed to the program: two header words and the payload.
  datatype Range = Range(start: Addr, len: nat)

  ghost predicate Apart(a: Addr, m: int, b: Addr, n: int) { a + m <= b || b + n <= a }

  ghost predicate BlockOk(b: Block) {
    b.base <= b.cursor <= b.end && b.base % 8 == 0 && b.cursor % 8 == 0
  }

  ghost predicate BlocksApart(a: Block, b: Block) {
    Apart(a.base, a.end - a.base, b.base, b.end - b.base)
  }

  ghost predicate Chained(chain: seq<Block>) {
    && |chain| > 0
    && (forall i :: 0 <= i < |chain| ==> BlockOk(chain[i]))
    && (forall i, j :: 0 <= i < j < |chain| ==> BlocksApart(chain[i], chain[j]))
  }

  ghost predicate Below(b: Block, g: Range) {
    b.base <= g.start && g.start + g.len <= b.cursor && g.start % 8 == 0
  }

  ghost predicate Inside(chain: seq<Block>, g: Range) {
    exists i :: 0 <= i < |chain| && Below(chain[i], g)
  }

  // Every range handed out lies aligned below the cursor of one block, and no
  // two share a byte.
  ghost predicate Given(chain: seq<Block>, given: seq<Range>) {
    && (forall g :: g in given ==> Inside(chain, g))
    && (forall i, j :: 0 <= i < j < |given| ==> Apart(given[i].start, given[i].len, given[j].start, given[j].len))
  }

  // malloc's promise about the region of an overflow block.
  ghost predicate FreshRegion(chain: seq<Block>, region: Addr, size: int) {
    && region > 0 && region % 8 == 0
    && forall i :: 0 <= i < |chain| ==>
         Apart(chain[i].base, chain[i].end - chain[i].base, region + HEADER, size)
  }

  function Total(payload: nat): (t: nat)
    ensures t >= RC_HEADER + payload && t % 8 == 0
  {
    (RC_HEADER + payload + 7) / 8 * 8
  }

  function OverflowSize(total: nat): (size: nat)
    ensures size >= total
  {
    if total > DEFAULT_SIZE then total * 2 else DEFAULT_SIZE
  }

  function Create(size: int, region: Addr): Block {
    Block(region + HEADER, region + HEADER, region + HEADER + if size <= 0 then DEFAULT_SIZE else size)
  }

  // Appending a fresh block disturbs nothing handed out before.
  lemma AppendBlock(chain: seq<Block>, given: seq<Range>, region: Addr, size: nat)
    requires Chained(chain) && Given(chain, given) && size > 0 && FreshRegion(chain, region, size)
    ensures Chained(chain + [Create(size, region)]) && Given(chain + [Create(size, region)], given)
  {
    var longer := chain + [Create(size, region)];
    forall g | g in given ensures Inside(longer, g) {
      var i :| 0 <= i < |chain| && Below(chain[i], g);
      assert Below(longer[i], g);
    }
  }

  // Bumping the cursor of block k hands out bytes nobody has.
  lemma BumpBlock(chain: seq<Block>, given: seq<Range>, k: nat, len: nat)
    requires k < |chain| && Chained(chain) && Given(chain, given)
    requires len % 8 == 0 && chain[k].cursor + len <= chain[k].end
    ensures var after := chain[k := chain[k].(cursor := chain[k].cursor + len)];
            Chained(after) && Given(after, given + [Range(chain[k].cursor, len)])
  {
    var after, newest := chain[k := chain[k].(cursor := chain[k].cursor + len)], Range(chain[k].cursor, len);
    forall i, j | 0 <= i < j < |after| ensures BlocksApart(after[i], after[j]) {
      assert BlocksApart(chain[i], chain[j]);
    }
    forall g | g in given
      ensures Inside(after, g) && Apart(g.start, g.len, newest.start, newest.len)
    {
      var i :| 0 <= i < |chain| && Below(chain[i], g);
      assert Below(after[i], g) && BlockOk(chain[i]);
      assert i < k ==> BlocksApart(chain[i], chain[k]);
      assert k < i ==> BlocksApart(chain[k], chain[i]);
    }
    assert Below(after[k], newest);
  }

  class Arena {
    var chain: seq<Block>
    ghost var given: seq<Range>

    ghost predicate Valid()
      reads this
    {
      Chained(chain) && Given(chain, given)
    }

    // yona_rt_arena_create, in the region malloc returned.
    constructor (size: int, region: Addr)
      requires region > 0 && region % 8 == 0
      ensures Valid() && given == [] && chain == [Create(size, region)]
    {
      chain, given := [Create(size, region)], [];
    }

    /**
     The payload address of a block of `payload` bytes, in the first block of
     the chain with room.  `region` is what malloc would return if none has any.
    */
    method Alloc(payload: nat, region: Addr) returns (p: Addr)
      requires Valid() && FreshRegion(chain, region, OverflowSize(Total(payload)))
      modifies this
      ensures Valid() && given == old(given) + [Range(p - RC_HEADER, Total(payload))]
      ensures |old(chain)| <= |chain| <= |old(chain)| + 1
      ensures forall i :: 0 <= i < |old(chain)| ==>
                chain[i].base == old(chain)[i].base && chain[i].end == old(chain)[i].end
      ensures |chain| > |old(chain)| <==>
                forall i :: 0 <= i < |old(chain)| ==> old(chain)[i].cursor + Total(payload) > old(chain)[i].end
    {
      var total := Total(payload);
      var i := 0;
      while chain[i].cursor + total > chain[i].end
        invariant 0 <= i < |chain| && Valid() && given == old(given)
        invariant chain == old(chain) || chain == old(chain) + [Create(OverflowSize(total), region)]
        invariant chain != old(chain) ==> i == |old(chain)|
        invariant forall j :: 0 <= j < i ==> old(chain)[j].cursor + total > old(chain)[j].end
        decreases |old(chain)| + 1 - i
      {
        if i + 1 == |chain| {
          AppendBlock(chain, given, region, OverflowSize(total));
          chain := chain + [Create(OverflowSize(total), region)];
        }
        i := i + 1;
      }
      BumpBlock(chain, given, i, total);
      p := chain[i].cursor + RC_HEADER;
      given := given + [Range(chain[i].cursor, total)];
      chain := chain[i := chain[i].(cursor := chain[i].cursor + total)];
    }

    // Releases every block of the chain once, front to back.  No byte is released
    // twice, and every range that was given out is.
    method Destroy() returns (freed: seq<Block>)
      requires Valid()
      modifies this
      ensures freed == old(chain) && chain == []
      ensures forall i, j :: 0 <= i < j < |freed| ==> BlocksApart(freed[i], freed[j])
      ensures forall g :: g in old(given) ==> Inside(freed, g)
    {
      freed := [];
      while chain != []
        invariant freed + chain == old(chain)
        decreases |chain|
      {
        freed, chain := freed + [chain[0]], chain[1..];
      }
      assert freed == old(chain);
    }
  }
}
