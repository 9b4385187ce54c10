/**
 Reference counts of trie nodes after an insertion into a node with several owners: when
 the count of each child is the number of nodes that own it.
*/
module HamtOwners {
  import opened Hash
  import opened Hamt
  import opened HamtContents
  import opened HamtProof
  import opened HamtTheorem

  // The insertion returns the very node it was given.
  ghost predicate InPlace(f: Fragments, t: Trie, key: bv64, level: nat)
    requires Formed(t)
  {
    t.owners == 1
    && match At(t, f(key, level))
       case Data(e) => e.key == key
       case Kid(_) => true
       case Empty => false
  }

  // What both versions hold at u has gained an owner; what only one of them holds has
  // the owners it had, or is new.
  ghost predicate Counted(t: Trie, out: Outcome, u: Slot)
    requires Shaped(t) && At(t, u).Kid?
  {
    && Shaped(out.result) && Shaped(out.source) && At(out.result, u).Kid? && At(out.source, u).Kid?
    && var c, a, b := At(t, u).child, At(out.result, u).child, At(out.source, u).child;
       if a == b then a.owners == c.owners + 1 else a.owners == 1 && b.owners == c.owners
  }

  ghost predicate Gained(t: Trie, n: Trie, s: Slot)
    requires Shaped(t)
  {
    && Shaped(n)
    && forall u: Slot :: u != s && At(t, u).Kid? ==>
         At(n, u) == Kid(At(t, u).child.(owners := At(t, u).child.owners + 1))
  }

  lemma PromotedGains(t: Trie, s: Slot, child: Trie)
    requires Shaped(t) && At(t, s).Data? && t.owners != 1
    ensures Gained(t, Promoted(t, s, child, false), s)
  {
    var n := Promoted(t, s, child, false);
    PromotedShaped(t, s, child, false);
    forall u: Slot | u != s && At(t, u).Kid?
      ensures At(n, u) == Kid(At(t, u).child.(owners := At(t, u).child.owners + 1))
    {
      AddBit(t.nodemap, s, u);
      InsertedAt(Retained(t.children), Index(t.nodemap, s), child, Index(t.nodemap, u));
    }
  }

  lemma ReplacedGains(t: Trie, s: Slot, child: Trie, n: Trie)
    requires Shaped(t) && At(t, s).Kid? && n.datamap == t.datamap && n.nodemap == t.nodemap
    requires n.entries == t.entries && n.children == Retained(t.children)[Index(t.nodemap, s) := child]
    ensures Gained(t, n, s) && At(n, s) == Kid(child)
  {
    forall u: Slot | u != s && At(t, u).Kid?
      ensures At(n, u) == Kid(At(t, u).child.(owners := At(t, u).child.owners + 1))
    {
      OtherIndex(t.nodemap, s, u);
    }
  }

  // Both versions hold every child but the one on the key's way.
  lemma SiblingsGain(f: Fragments, t: Trie, key: bv64, val: bv64, level: nat, dies: bool)
    requires Formed(t) && t.owners != 1
    ensures var out := PutImpl(f, t, key, val, level, dies);
            Gained(t, out.result, f(key, level)) && Gained(t, out.source, f(key, level))
  {
    var s := f(key, level);
    match At(t, s)
    case Data(e) =>
      WithValueEdits(t, s, val);
      if e.key != key { PromotedGains(t, s, MergeTwo(f, e, Entry(key, val), level + 1)); }
    case Empty => WithDataEdits(t, s, Entry(key, val), dies);
    case Kid(c) =>
      var below := PutImpl(f, c, key, val, level + 1, false);
      var out := PutImpl(f, t, key, val, level, dies);
      ReplacedGains(t, s, below.result, out.result);
      ReplacedGains(t, s, below.source, out.source);
  }

  // Result and source of an insertion are the same node, or differ as values and the
  // result is new.
  lemma SameNode(f: Fragments, t: Trie, key: bv64, val: bv64, level: nat, dies: bool)
    requires Formed(t)
    ensures var out := PutImpl(f, t, key, val, level, dies);
            && (out.result == out.source <==> InPlace(f, t, key, level))
            && out.result.owners == 1 && out.source.owners == t.owners
  {
  }

  /**
   After an insertion into a node with several owners, which is therefore copied, every
   child is counted once for each node that owns it if and only if the child on the key's
   way is not written in place: such a child is then held by both versions and counted
   once.
  */
  lemma OwnersExactIff(f: Fragments, t: Trie, key: bv64, val: bv64, level: nat, dies: bool)
    requires Formed(t) && t.owners != 1
    ensures var c := At(t, f(key, level));
            (forall u: Slot :: At(t, u).Kid? ==> Counted(t, PutImpl(f, t, key, val, level, dies), u))
            <==> !(c.Kid? && InPlace(f, c.child, key, level + 1))
  {
    var s := f(key, level);
    SiblingsGain(f, t, key, val, level, dies);
    if At(t, s).Kid? {
      var out, below := PutImpl(f, t, key, val, level, dies),
                        PutImpl(f, At(t, s).child, key, val, level + 1, false);
      SameNode(f, At(t, s).child, key, val, level + 1, false);
      ReplacedGains(t, s, below.result, out.result);
      ReplacedGains(t, s, below.source, out.source);
    }
  }

  // The version of SharedVersionChanges: its child is counted once and held twice.
  lemma SharedChildUndercounted(a: bv64, b: bv64, c: bv64)
    ensures var shared := Owned(Run([Write(0, a, 1, true), Write(FELLOW, b, 1, true)]), 2);
            && shared.Some? && Formed(shared.value)
            && exists u: Slot :: At(shared.value, u).Kid?
                              && !Counted(shared.value, PutImpl(Fragment, shared.value, FELLOW, c, 0, false), u)
  {
    var shared := Owned(Run([Write(0, a, 1, true), Write(FELLOW, b, 1, true)]), 2);
    SharedChild(a, b);
    OwnersExactIff(Fragment, shared.value, FELLOW, c, 0, false);
  }
}
