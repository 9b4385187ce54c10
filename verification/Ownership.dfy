/**
 How often a counted block owns a pointer, stated by payload position, against the
 list that its destruction walks (yona_rt_rc_dec in src/compiled_runtime.c).
*/
module Ownership {
  import opened RefCount

  // The payload positions that hold owned pointers.
  ghost predicate OwnsSlot(word: int, p: seq<int>, i: int) {
    var tag := Tag(word);
    if tag == TAG_SEQ then
      var first := 2 + SignedHigh(At(p, 1));
      At(p, 1) % 0x1_0000_0000 != 0 && first <= i < first + At(p, 0)
    else if tag == TAG_CHUNKED then i == 35
    else if tag == TAG_RBT_NODE then 0 <= i < 32
    else if tag == TAG_RBT_LEAF then At(p, 0) != 0 && 1 <= i < 33
    else if tag == TAG_CLOSURE then MaskSlot(i, 5, Min64(At(p, 3)), At(p, 4))
    else if tag == TAG_ADT then MaskSlot(i, 3, Min64(At(p, 1)), At(p, 2))
    else if tag == TAG_DICT then
      DictSlot(i, PopCount(At(p, 0), 64), PopCount(At(p, 1), 64), Bit(word, 16), Bit(word, 17))
    else if tag == TAG_SET then At(p, 1) != 0 && 2 <= i < 2 + At(p, 0)
    else if tag == TAG_TUPLE then MaskSlot(i, 2, Min64(At(p, 0)), At(p, 1))
    else false
  }

  ghost predicate MaskSlot(i: int, start: int, count: int, mask: int) {
    start <= i < start + count && Bit(mask, i - start)
  }

  // Keys and values alternate from position 3; the children follow the last entry.
  ghost predicate DictSlot(i: int, entries: nat, children: nat, keyHeap: bool, valHeap: bool) {
    var kids := 3 + 2 * entries;
    EntrySlot(i, entries, keyHeap, valHeap) || kids <= i < kids + children
  }

  ghost predicate EntrySlot(i: int, entries: nat, keyHeap: bool, valHeap: bool) {
    3 <= i < 3 + 2 * entries && if i % 2 == 1 then keyHeap else valHeap
  }

  function Occurs(s: seq<int>, x: int): nat {
    if s == [] then 0 else Occurs(s[..|s| - 1], x) + if s[|s| - 1] == x then 1 else 0
  }

  // The positions from lo to hi that are owning slots and hold x.
  ghost function SlotsFrom(p: seq<int>, owns: int -> bool, lo: int, hi: int, x: int): nat
    decreases hi - lo
  {
    if hi <= lo then 0
    else SlotsFrom(p, owns, lo, hi - 1, x) + if owns(hi - 1) && At(p, hi - 1) == x then 1 else 0
  }

  // How many of the block's owning slots hold x.
  ghost function SlotsHolding(word: int, p: seq<int>, x: int): nat {
    SlotsFrom(p, i => OwnsSlot(word, p, i), 0, |p|, x)
  }

  // ---------------------------------------------------------------------
  // Counting in lists
  // ---------------------------------------------------------------------

  lemma {:induction false} OccursAppend(s: seq<int>, t: seq<int>, x: int)
    ensures Occurs(s + t, x) == Occurs(s, x) + Occurs(t, x)
    decreases |t|
  {
    if t == [] {
      assert s + t == s;
    } else {
      var front := t[..|t| - 1];
      OccursAppend(s, front, x);
      assert (s + t)[..|s + t| - 1] == s + front;
    }
  }

  lemma OccursNonNull(v: int, x: int)
    requires x != 0
    ensures Occurs(NonNull(v), x) == if v == x then 1 else 0
  {
    if v != 0 { assert [v][..0] == []; }
  }

  lemma {:induction false} BagCounts(s: seq<int>, i: nat, x: int)
    requires i <= |s|
    ensures BagFrom(s, i)[x] == Occurs(s[i..], x)
    decreases |s| - i
  {
    if i < |s| {
      BagCounts(s, i + 1, x);
      assert s[i..] == [s[i]] + s[i + 1..];
      OccursAppend([s[i]], s[i + 1..], x);
      assert [s[i]][..0] == [];
    }
  }

  // ---------------------------------------------------------------------
  // Counting slots
  // ---------------------------------------------------------------------

  // Positions that own nothing, or lie outside the payload, do not count.
  lemma {:induction false} SlotsTrim(p: seq<int>, owns: int -> bool, a: int, lo: int, hi: int, b: int, x: int)
    requires a <= lo <= hi <= b
    requires forall i :: a <= i < lo || hi <= i < b ==> !owns(i) || At(p, i) != x
    ensures SlotsFrom(p, owns, a, b, x) == SlotsFrom(p, owns, lo, hi, x)
    decreases b - a
  {
    if hi < b {
      SlotsTrim(p, owns, a, lo, hi, b - 1, x);
    } else if lo < hi {
      SlotsTrim(p, owns, a, lo, hi - 1, b - 1, x);
    } else if a < lo {
      SlotsTrim(p, owns, a, lo - 1, hi - 1, b - 1, x);
    }
  }

  lemma SlotsWhole(p: seq<int>, owns: int -> bool, lo: int, hi: int, x: int)
    requires x != 0 && lo <= hi && forall i :: owns(i) ==> lo <= i < hi
    ensures SlotsFrom(p, owns, lo, hi, x) == SlotsFrom(p, owns, 0, |p|, x)
  {
    var a, b := if lo < 0 then lo else 0, if hi > |p| then hi else |p|;
    SlotsTrim(p, owns, a, lo, hi, b, x);
    SlotsTrim(p, owns, a, 0, |p|, b, x);
  }

  lemma {:induction false} SlotsSplit(p: seq<int>, owns: int -> bool, lo: int, mid: int, hi: int, x: int)
    requires lo <= mid <= hi
    ensures SlotsFrom(p, owns, lo, hi, x) == SlotsFrom(p, owns, lo, mid, x) + SlotsFrom(p, owns, mid, hi, x)
    decreases hi - mid
  {
    if mid < hi { SlotsSplit(p, owns, lo, mid, hi - 1, x); }
  }

  // ---------------------------------------------------------------------
  // The three shapes of loop
  // ---------------------------------------------------------------------

  lemma {:induction false} RunSlots(p: seq<int>, start: int, count: int, owns: int -> bool, x: int)
    requires x != 0 && forall i :: start <= i < start + count ==> owns(i)
    ensures Occurs(Run(p, start, count), x) == SlotsFrom(p, owns, start, start + count, x)
    decreases count
  {
    if count > 0 {
      RunSlots(p, start, count - 1, owns, x);
      var v := At(p, start + count - 1);
      OccursAppend(Run(p, start, count - 1), NonNull(v), x);
      OccursNonNull(v, x);
    }
  }

  lemma {:induction false} MaskedSlots(p: seq<int>, start: int, count: int, mask: int, owns: int -> bool, x: int)
    requires x != 0 && forall i :: start <= i < start + count ==> owns(i) == Bit(mask, i - start)
    ensures Occurs(Masked(p, start, count, mask), x) == SlotsFrom(p, owns, start, start + count, x)
    decreases count
  {
    if count > 0 {
      MaskedSlots(p, start, count - 1, mask, owns, x);
      OneMasked(p, start, count, mask, x);
    }
  }

  lemma OneMasked(p: seq<int>, start: int, count: int, mask: int, x: int)
    requires x != 0 && count > 0
    ensures Occurs(Masked(p, start, count, mask), x)
            == Occurs(Masked(p, start, count - 1, mask), x)
               + if Bit(mask, count - 1) && At(p, start + count - 1) == x then 1 else 0
  {
    var before, v := Masked(p, start, count - 1, mask), At(p, start + count - 1);
    if Bit(mask, count - 1) {
      assert Masked(p, start, count, mask) == before + NonNull(v);
      OccursAppend(before, NonNull(v), x);
      OccursNonNull(v, x);
    } else {
      assert Masked(p, start, count, mask) == before;
    }
  }

  // The first `count` entries own their keys and values as the two flags say.
  ghost predicate Alternates(owns: int -> bool, count: nat, keyHeap: bool, valHeap: bool) {
    count > 0 ==>
      && Alternates(owns, count - 1, keyHeap, valHeap)
      && owns(1 + 2 * count) == keyHeap && owns(2 + 2 * count) == valHeap
  }

  lemma {:induction false} EntriesAlternate(owns: int -> bool, count: nat, all: nat, keyHeap: bool, valHeap: bool)
    requires count <= all && forall i :: 3 <= i < 3 + 2 * all ==> owns(i) == EntrySlot(i, all, keyHeap, valHeap)
    ensures Alternates(owns, count, keyHeap, valHeap)
  {
    if count > 0 {
      EntriesAlternate(owns, count - 1, all, keyHeap, valHeap);
      assert (1 + 2 * count) % 2 == 1 && (2 + 2 * count) % 2 == 0;
    }
  }

  lemma {:induction false} EntrySlots(p: seq<int>, count: nat, keyHeap: bool, valHeap: bool, owns: int -> bool, x: int)
    requires x != 0 && Alternates(owns, count, keyHeap, valHeap)
    ensures Occurs(Entries(p, count, keyHeap, valHeap), x) == SlotsFrom(p, owns, 3, 3 + 2 * count, x)
  {
    if count > 0 {
      EntrySlots(p, count - 1, keyHeap, valHeap, owns, x);
      OneEntry(p, count, keyHeap, valHeap, x);
      TwoSlots(p, owns, 1 + 2 * count, x);
    }
  }

  lemma OneEntry(p: seq<int>, count: nat, keyHeap: bool, valHeap: bool, x: int)
    requires x != 0 && count > 0
    ensures var k := 1 + 2 * count;
            Occurs(Entries(p, count, keyHeap, valHeap), x)
            == Occurs(Entries(p, count - 1, keyHeap, valHeap), x)
               + (if keyHeap && At(p, k) == x then 1 else 0) + (if valHeap && At(p, k + 1) == x then 1 else 0)
  {
    var k, before := 1 + 2 * count, Entries(p, count - 1, keyHeap, valHeap);
    var key := if keyHeap then NonNull(At(p, k)) else [];
    var val := if valHeap then NonNull(At(p, k + 1)) else [];
    EntriesGrow(p, count, keyHeap, valHeap);
    OccursAppend(before, key, x);
    OccursAppend(before + key, val, x);
    OccursNonNull(At(p, k), x);
    OccursNonNull(At(p, k + 1), x);
  }

  lemma EntriesGrow(p: seq<int>, count: nat, keyHeap: bool, valHeap: bool)
    requires count > 0
    ensures var k := 1 + 2 * count;
            Entries(p, count, keyHeap, valHeap)
            == Entries(p, count - 1, keyHeap, valHeap)
               + (if keyHeap then NonNull(At(p, k)) else []) + (if valHeap then NonNull(At(p, k + 1)) else [])
  {
  }

  lemma TwoSlots(p: seq<int>, owns: int -> bool, k: nat, x: int)
    requires k >= 3
    ensures SlotsFrom(p, owns, 3, k + 2, x)
            == SlotsFrom(p, owns, 3, k, x) + (if owns(k) && At(p, k) == x then 1 else 0)
               + (if owns(k + 1) && At(p, k + 1) == x then 1 else 0)
  {
    assert SlotsFrom(p, owns, 3, k + 1, x)
        == SlotsFrom(p, owns, 3, k, x) + if owns(k) && At(p, k) == x then 1 else 0;
  }

  // ---------------------------------------------------------------------
  // Every tag
  // ---------------------------------------------------------------------

  // A block that owns the pointers at [start .. start + count).
  lemma OwnedRun(word: int, p: seq<int>, start: int, count: int, x: int)
    requires x != 0 && OwnedWords(word, p) == Run(p, start, count)
    requires forall i :: OwnsSlot(word, p, i) <==> start <= i < start + count
    ensures Occurs(OwnedWords(word, p), x) == SlotsHolding(word, p, x)
  {
    var owns := i => OwnsSlot(word, p, i);
    var len := if count < 0 then 0 else count;
    assert Run(p, start, count) == Run(p, start, len);
    RunSlots(p, start, len, owns, x);
    SlotsWhole(p, owns, start, start + len, x);
  }

  lemma OwnedMasked(word: int, p: seq<int>, start: int, count: int, mask: int, x: int)
    requires x != 0 && OwnedWords(word, p) == Masked(p, start, count, mask)
    requires forall i :: OwnsSlot(word, p, i) <==> MaskSlot(i, start, count, mask)
    ensures Occurs(OwnedWords(word, p), x) == SlotsHolding(word, p, x)
  {
    var owns := i => OwnsSlot(word, p, i);
    var len := if count < 0 then 0 else count;
    assert Masked(p, start, count, mask) == Masked(p, start, len, mask);
    MaskedSlots(p, start, len, mask, owns, x);
    SlotsWhole(p, owns, start, start + len, x);
  }

  lemma OwnedByDict(word: int, p: seq<int>, x: int)
    requires x != 0 && Tag(word) == TAG_DICT
    ensures Occurs(OwnedWords(word, p), x) == SlotsHolding(word, p, x)
  {
    OwnedDict(word, p, PopCount(At(p, 0), 64), PopCount(At(p, 1), 64), Bit(word, 16), Bit(word, 17), x);
  }

  lemma OwnedDict(word: int, p: seq<int>, dc: nat, nc: nat, keyHeap: bool, valHeap: bool, x: int)
    requires x != 0 && OwnedWords(word, p) == Entries(p, dc, keyHeap, valHeap) + Run(p, 3 + 2 * dc, nc)
    requires forall i :: OwnsSlot(word, p, i) <==> DictSlot(i, dc, nc, keyHeap, valHeap)
    ensures Occurs(OwnedWords(word, p), x) == SlotsHolding(word, p, x)
  {
    var owns := i => OwnsSlot(word, p, i);
    EntriesAlternate(owns, dc, dc, keyHeap, valHeap);
    DictSlots(p, dc, nc, keyHeap, valHeap, owns, x);
    SlotsWhole(p, owns, 3, 3 + 2 * dc + nc, x);
  }

  lemma DictSlots(p: seq<int>, dc: nat, nc: nat, keyHeap: bool, valHeap: bool, owns: int -> bool, x: int)
    requires x != 0 && Alternates(owns, dc, keyHeap, valHeap)
    requires forall i :: 3 + 2 * dc <= i < 3 + 2 * dc + nc ==> owns(i)
    ensures Occurs(Entries(p, dc, keyHeap, valHeap) + Run(p, 3 + 2 * dc, nc), x)
            == SlotsFrom(p, owns, 3, 3 + 2 * dc + nc, x)
  {
    var kids := 3 + 2 * dc;
    OccursAppend(Entries(p, dc, keyHeap, valHeap), Run(p, kids, nc), x);
    EntrySlots(p, dc, keyHeap, valHeap, owns, x);
    RunSlots(p, kids, nc, owns, x);
    SlotsSplit(p, owns, 3, kids, kids + nc, x);
  }

  lemma OwnedByRun(word: int, p: seq<int>, x: int)
    requires x != 0 && Tag(word) in {TAG_SEQ, TAG_SET, TAG_CHUNKED, TAG_RBT_NODE, TAG_RBT_LEAF}
    ensures Occurs(OwnedWords(word, p), x) == SlotsHolding(word, p, x)
  {
    var tag := Tag(word);
    if tag == TAG_SEQ {
      OwnedRun(word, p, 2 + SignedHigh(At(p, 1)), if At(p, 1) % 0x1_0000_0000 != 0 then At(p, 0) else 0, x);
    } else if tag == TAG_SET {
      OwnedRun(word, p, 2, if At(p, 1) != 0 then At(p, 0) else 0, x);
    } else if tag == TAG_CHUNKED {
      assert Run(p, 35, 1) == Run(p, 35, 0) + NonNull(At(p, 35));
      OwnedRun(word, p, 35, 1, x);
    } else if tag == TAG_RBT_NODE {
      OwnedRun(word, p, 0, 32, x);
    } else {
      OwnedRun(word, p, 1, if At(p, 0) != 0 then 32 else 0, x);
    }
  }

  lemma OwnedByMask(word: int, p: seq<int>, x: int)
    requires x != 0 && Tag(word) in {TAG_CLOSURE, TAG_ADT, TAG_TUPLE}
    ensures Occurs(OwnedWords(word, p), x) == SlotsHolding(word, p, x)
  {
    if Tag(word) == TAG_CLOSURE {
      OwnedMasked(word, p, 5, Min64(At(p, 3)), At(p, 4), x);
    } else if Tag(word) == TAG_ADT {
      OwnedMasked(word, p, 3, Min64(At(p, 1)), At(p, 2), x);
    } else {
      OwnedMasked(word, p, 2, Min64(At(p, 0)), At(p, 1), x);
    }
  }

  /**
   yona_rt_rc_dec releases each non-null pointer exactly as often as it stands at one
   of those positions.
  */
  lemma OwnedExactly(word: int, p: seq<int>, x: int)
    requires x != 0
    ensures Bag(OwnedWords(word, p))[x] == SlotsHolding(word, p, x)
  {
    var s := OwnedWords(word, p);
    BagCounts(s, 0, x);
    assert s[0..] == s;
    if Tag(word) in {TAG_SEQ, TAG_SET, TAG_CHUNKED, TAG_RBT_NODE, TAG_RBT_LEAF} {
      OwnedByRun(word, p, x);
    } else if Tag(word) in {TAG_CLOSURE, TAG_ADT, TAG_TUPLE} {
      OwnedByMask(word, p, x);
    } else if Tag(word) == TAG_DICT {
      OwnedByDict(word, p, x);
    } else {
      SlotsWhole(p, i => OwnsSlot(word, p, i), 0, 0, x);
    }
  }

  lemma {:induction false} RunNonNull(p: seq<int>, start: int, count: int)
    ensures 0 !in Run(p, start, count)
    decreases count
  {
    if count > 0 { RunNonNull(p, start, count - 1); }
  }

  lemma {:induction false} MaskedNonNull(p: seq<int>, start: int, count: int, mask: int)
    ensures 0 !in Masked(p, start, count, mask)
    decreases count
  {
    if count > 0 { MaskedNonNull(p, start, count - 1, mask); }
  }

  lemma {:induction false} EntriesNonNull(p: seq<int>, count: nat, keyHeap: bool, valHeap: bool)
    ensures 0 !in Entries(p, count, keyHeap, valHeap)
  {
    if count > 0 { EntriesNonNull(p, count - 1, keyHeap, valHeap); }
  }

  lemma DictNonNull(p: seq<int>, dc: nat, nc: nat, keyHeap: bool, valHeap: bool)
    ensures 0 !in Entries(p, dc, keyHeap, valHeap) + Run(p, 3 + 2 * dc, nc)
  {
    EntriesNonNull(p, dc, keyHeap, valHeap);
    RunNonNull(p, 3 + 2 * dc, nc);
  }

  // It never releases a null pointer.
  lemma NullNotOwned(word: int, p: seq<int>)
    ensures 0 !in OwnedWords(word, p)
  {
    var tag := Tag(word);
    if tag == TAG_DICT {
      DictNonNull(p, PopCount(At(p, 0), 64), PopCount(At(p, 1), 64), Bit(word, 16), Bit(word, 17));
    } else if tag in {TAG_CLOSURE, TAG_ADT, TAG_TUPLE} {
      MaskNonNull(word, p);
    } else {
      SlicesNonNull(word, p);
    }
  }

  lemma MaskNonNull(word: int, p: seq<int>)
    requires Tag(word) in {TAG_CLOSURE, TAG_ADT, TAG_TUPLE}
    ensures 0 !in OwnedWords(word, p)
  {
    if Tag(word) == TAG_CLOSURE {
      MaskedNonNull(p, 5, Min64(At(p, 3)), At(p, 4));
    } else if Tag(word) == TAG_ADT {
      MaskedNonNull(p, 3, Min64(At(p, 1)), At(p, 2));
    } else {
      MaskedNonNull(p, 2, Min64(At(p, 0)), At(p, 1));
    }
  }

  lemma SlicesNonNull(word: int, p: seq<int>)
    requires Tag(word) !in {TAG_CLOSURE, TAG_ADT, TAG_TUPLE, TAG_DICT}
    ensures 0 !in OwnedWords(word, p)
  {
    if Tag(word) == TAG_SEQ {
      RunNonNull(p, 2 + SignedHigh(At(p, 1)), At(p, 0));
    } else if Tag(word) == TAG_RBT_NODE {
      RunNonNull(p, 0, 32);
    } else if Tag(word) == TAG_RBT_LEAF {
      RunNonNull(p, 1, 32);
    } else if Tag(word) == TAG_SET {
      RunNonNull(p, 2, At(p, 0));
    }
  }
}
