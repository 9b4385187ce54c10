/**
 The dictionary theorems: traversal agrees with lookup, tries stay at most thirteen
 levels high, and every run of insertions holds the last value put under each key.
*/
module HamtTheorem {
  import opened Hash
  import opened Hamt
  import opened HamtProof
  import opened HamtContents

  // ---------------------------------------------------------------------
  // The slot of a position
  // ---------------------------------------------------------------------

  ghost function FindBit(b: Bitmap, i: nat, n: nat): (s: Slot)
    requires n <= WIDTH && i < Rank(b, n)
    ensures s < n && b[s] && Rank(b, s) == i
    decreases n
  {
    if b[n - 1] && Rank(b, n - 1) == i then n - 1 else FindBit(b, i, n - 1)
  }

  ghost function EntrySlot(t: Trie, i: nat): (s: Slot)
    requires Shaped(t) && i < |t.entries|
    ensures At(t, s) == Data(t.entries[i])
  {
    FindBit(t.datamap, i, WIDTH)
  }

  ghost function ChildSlot(t: Trie, i: nat): (s: Slot)
    requires Shaped(t) && i < |t.children|
    ensures At(t, s) == Kid(t.children[i]) && Rank(t.nodemap, s) == i
  {
    FindBit(t.nodemap, i, WIDTH)
  }

  // ---------------------------------------------------------------------
  // Traversal and lookup agree
  // ---------------------------------------------------------------------

  lemma {:induction false} TraverseMember(ts: seq<Trie>, e: Entry)
    ensures e in TraverseAll(ts) <==> exists i :: 0 <= i < |ts| && e in Traverse(ts[i])
  {
    if ts != [] {
      TraverseMember(ts[1..], e);
      assert forall i :: 1 <= i < |ts| ==> ts[i] == ts[1..][i - 1];
    }
  }

  lemma {:induction false} TraversedOnPath(f: Fragments, t: Trie, path: seq<Slot>, e: Entry)
    requires Placed(f, t, path) && Formed(t) && e in Traverse(t)
    ensures OnPath(f, e.key, path) && Get(f, t, e.key, |path|) == Some(e.val)
    decreases t
  {
    if e in t.entries {
      var i :| 0 <= i < |t.entries| && t.entries[i] == e;
      HereOnPath(f, t, path, i);
    } else {
      TraverseMember(t.children, e);
      var i :| 0 <= i < |t.children| && e in Traverse(t.children[i]);
      var s := ChildSlot(t, i);
      TraversedOnPath(f, t.children[i], path + [s], e);
      LastOnPath(f, e.key, path, s);
    }
  }

  lemma LastOnPath(f: Fragments, key: bv64, path: seq<Slot>, s: Slot)
    requires OnPath(f, key, path + [s])
    ensures OnPath(f, key, path) && f(key, |path|) == s
  {
    forall i: nat | i < |path| ensures f(key, i) == path[i] {
      assert (path + [s])[i] == path[i];
    }
    assert (path + [s])[|path|] == s;
  }

  lemma HereOnPath(f: Fragments, t: Trie, path: seq<Slot>, i: nat)
    requires Placed(f, t, path) && Formed(t) && i < |t.entries|
    ensures OnPath(f, t.entries[i].key, path) && f(t.entries[i].key, |path|) == EntrySlot(t, i)
    ensures Get(f, t, t.entries[i].key, |path|) == Some(t.entries[i].val)
  {
    LastOnPath(f, t.entries[i].key, path, EntrySlot(t, i));
  }

  lemma {:induction false} FoundTraversed(f: Fragments, t: Trie, key: bv64, level: nat)
    requires Formed(t) && Get(f, t, key, level).Some?
    ensures Entry(key, Get(f, t, key, level).value) in Traverse(t)
    decreases t
  {
    var s := f(key, level);
    match At(t, s)
    case Data(e) =>
    case Kid(c) =>
      FoundTraversed(f, c, key, level + 1);
      var e := Entry(key, Get(f, t, key, level).value);
      assert c == t.children[Index(t.nodemap, s)];
      TraverseMember(t.children, e);
  }

  // The traversal lists exactly the entries lookup finds.
  lemma TraverseIsGet(f: Fragments, t: Trie, e: Entry)
    requires Placed(f, t, []) && Formed(t)
    ensures e in Traverse(t) <==> Get(f, t, e.key, 0) == Some(e.val)
  {
    if e in Traverse(t) { TraversedOnPath(f, t, [], e); }
    if Get(f, t, e.key, 0) == Some(e.val) { FoundTraversed(f, t, e.key, 0); }
  }

  // ---------------------------------------------------------------------
  // Each key once
  // ---------------------------------------------------------------------

  ghost predicate Distinct(es: seq<Entry>) {
    forall i, j :: 0 <= i < j < |es| ==> es[i].key != es[j].key
  }

  lemma DistinctConcat(a: seq<Entry>, b: seq<Entry>)
    requires Distinct(a) && Distinct(b)
    requires forall d, e :: d in a && e in b ==> d.key != e.key
    ensures Distinct(a + b)
  {
    var es := a + b;
    forall i, j | 0 <= i < j < |es| ensures es[i].key != es[j].key {
      if i < |a| <= j { assert es[i] in a && es[j] in b; }
    }
  }

  lemma EntriesDistinct(f: Fragments, t: Trie, path: seq<Slot>)
    requires Placed(f, t, path) && Formed(t)
    ensures Distinct(t.entries)
  {
    forall i, j | 0 <= i < j < |t.entries| ensures t.entries[i].key != t.entries[j].key {
      HereOnPath(f, t, path, i);
      HereOnPath(f, t, path, j);
    }
  }

  // The key of an entry below child i has the child's slot at this level.
  lemma BelowChild(f: Fragments, t: Trie, path: seq<Slot>, i: nat, e: Entry)
    requires Placed(f, t, path) && Formed(t) && i < |t.children| && e in Traverse(t.children[i])
    ensures f(e.key, |path|) == ChildSlot(t, i)
  {
    var s := ChildSlot(t, i);
    TraversedOnPath(f, t.children[i], path + [s], e);
    LastOnPath(f, e.key, path, s);
  }

  lemma Disjoint(f: Fragments, t: Trie, path: seq<Slot>, i: nat, d: Entry, e: Entry)
    requires Placed(f, t, path) && Formed(t) && i < |t.children|
    requires d in Traverse(t.children[i]) && e in TraverseAll(t.children[i + 1..])
    ensures d.key != e.key
  {
    TraverseMember(t.children[i + 1..], e);
    var j :| 0 <= j < |t.children[i + 1..]| && e in Traverse(t.children[i + 1..][j]);
    BelowChild(f, t, path, i, d);
    BelowChild(f, t, path, i + 1 + j, e);
  }

  lemma EntryDisjoint(f: Fragments, t: Trie, path: seq<Slot>, d: Entry, e: Entry)
    requires Placed(f, t, path) && Formed(t) && d in t.entries && e in TraverseAll(t.children)
    ensures d.key != e.key
  {
    var i :| 0 <= i < |t.entries| && t.entries[i] == d;
    HereOnPath(f, t, path, i);
    TraverseMember(t.children, e);
    var j :| 0 <= j < |t.children| && e in Traverse(t.children[j]);
    BelowChild(f, t, path, j, e);
  }

  lemma {:induction false} ChildrenDistinct(f: Fragments, t: Trie, path: seq<Slot>, i: nat)
    requires Placed(f, t, path) && Formed(t) && i <= |t.children|
    requires forall k :: i <= k < |t.children| ==> Distinct(Traverse(t.children[k]))
    ensures Distinct(TraverseAll(t.children[i..]))
    decreases |t.children| - i
  {
    if i < |t.children| {
      ChildrenDistinct(f, t, path, i + 1);
      var rest := TraverseAll(t.children[i + 1..]);
      forall d, e | d in Traverse(t.children[i]) && e in rest ensures d.key != e.key {
        Disjoint(f, t, path, i, d, e);
      }
      DistinctConcat(Traverse(t.children[i]), rest);
      assert t.children[i..][0] == t.children[i] && t.children[i..][1..] == t.children[i + 1..];
    }
  }

  lemma {:induction false} TraverseDistinct(f: Fragments, t: Trie, path: seq<Slot>)
    requires Placed(f, t, path) && Formed(t)
    ensures Distinct(Traverse(t))
    decreases t
  {
    forall k | 0 <= k < |t.children| ensures Distinct(Traverse(t.children[k])) {
      TraverseDistinct(f, t.children[k], path + [ChildSlot(t, k)]);
    }
    EntriesDistinct(f, t, path);
    ChildrenDistinct(f, t, path, 0);
    assert t.children[0..] == t.children;
    forall d, e | d in t.entries && e in TraverseAll(t.children) ensures d.key != e.key {
      EntryDisjoint(f, t, path, d, e);
    }
    DistinctConcat(t.entries, TraverseAll(t.children));
  }

  // ---------------------------------------------------------------------
  // Height
  // ---------------------------------------------------------------------

  function Height(t: Trie): nat
    decreases t
  {
    1 + HeightAll(t.children)
  }

  function HeightAll(ts: seq<Trie>): nat
    decreases ts
  {
    if ts == [] then 0
    else var h, rest := Height(ts[0]), HeightAll(ts[1..]); if h < rest then rest else h
  }

  lemma {:induction false} HeightAllBound(ts: seq<Trie>, bound: nat)
    requires forall i :: 0 <= i < |ts| ==> Height(ts[i]) <= bound
    ensures HeightAll(ts) <= bound
  {
    if ts != [] { HeightAllBound(ts[1..], bound); }
  }

  lemma {:induction false} PlacedHeight(f: Fragments, t: Trie, path: seq<Slot>)
    requires Placed(f, t, path)
    ensures Height(t) + |path| <= LEVELS
    decreases t
  {
    forall k | 0 <= k < |t.children| ensures Height(t.children[k]) <= LEVELS - |path| - 1 {
      PlacedHeight(f, t.children[k], path + [ChildSlot(t, k)]);
    }
    HeightAllBound(t.children, LEVELS - |path| - 1);
  }

  // ---------------------------------------------------------------------
  // Runs of insertions
  // ---------------------------------------------------------------------

  // One insertion into the version before it, whose root then has that many owners; an
  // only owner may let go of that version when a copy takes its place.
  datatype Write = Write(key: bv64, val: bv64, owners: nat, dies: bool)

  lemma FragmentSeparates()
    ensures Separates(Fragment)
  {
    forall j, k | j != k ensures Apart(Fragment, j, k, 0) {
      FragmentsSeparate(j, k);
    }
  }

  ghost predicate Sound(root: Option<Trie>) {
    root.Some? ==> Placed(Fragment, root.value, []) && Formed(root.value) && Sized(root.value)
  }

  ghost function Find(root: Option<Trie>, key: bv64): Option<bv64>
    requires Sound(root)
  {
    if root.None? then None else Get(Fragment, root.value, key, 0)
  }

  lemma OneEntryEdits(n: Trie, s: Slot, e: Entry)
    requires n.datamap == NO_BITS[s := true] && n.nodemap == NO_BITS && n.entries == [e] && n.children == []
    ensures Shaped(n) && At(n, s) == Data(e) && forall u: Slot :: u != s ==> At(n, u).Empty?
  {
    RankNone(WIDTH);
    RankNone(s);
    RankSet(NO_BITS, s, WIDTH);
    RankSet(NO_BITS, s, s);
  }

  lemma FirstPut(f: Fragments, key: bv64, val: bv64, dies: bool)
    ensures var n := Put(f, None, key, val, dies);
            && Placed(f, n, []) && Formed(n) && Sized(n)
            && forall k :: Get(f, n, k, 0) == if k == key then Some(val) else None
  {
    var n := Put(f, None, key, val, dies);
    var s := f(key, 0);
    OneEntryEdits(n, s, Entry(key, val));
    forall u: Slot ensures CellPlaced(f, At(n, u), [] + [u]) {
      assert u != s ==> At(n, u).Empty?;
    }
    assert Placed(f, n, []);
    PlacedFormed(f, n, []);
    assert TraverseAll(n.children) == [];
  }

  lemma PutSound(root: Option<Trie>, key: bv64, val: bv64, dies: bool)
    requires Sound(root)
    ensures var n := Put(Fragment, root, key, val, dies);
            Sound(Some(n)) && forall k :: Find(Some(n), k) == if k == key then Some(val) else Find(root, k)
  {
    if root.None? {
      FirstPut(Fragment, key, val, dies);
    } else {
      FragmentSeparates();
      PutHolds(Fragment, root.value, [], key, val, dies);
      PutSized(Fragment, root.value, key, val, 0, dies);
    }
  }

  // The number of owners of the root may change between insertions.
  function Owned(root: Option<Trie>, owners: nat): Option<Trie> {
    if root.None? then None else Some(root.value.(owners := owners))
  }

  lemma OwnedSound(root: Option<Trie>, owners: nat)
    requires Sound(root)
    ensures Sound(Owned(root, owners)) && forall k :: Find(Owned(root, owners), k) == Find(root, k)
  {
    if root.Some? {
      OwnersIrrelevant(Fragment, root.value, root.value.(owners := owners), []);
      OwnersTraverse(root.value, root.value.(owners := owners));
    }
  }

  ghost function Run(writes: seq<Write>): (root: Option<Trie>)
    ensures Sound(root)
  {
    if writes == [] then None
    else
      var w := writes[|writes| - 1];
      var before := Run(writes[..|writes| - 1]);
      OwnedSound(before, w.owners);
      PutSound(Owned(before, w.owners), w.key, w.val, w.dies);
      Some(Put(Fragment, Owned(before, w.owners), w.key, w.val, w.dies))
  }

  // The last value written under a key.
  ghost function LastWritten(writes: seq<Write>, key: bv64): Option<bv64> {
    if writes == [] then None
    else
      var w := writes[|writes| - 1];
      if w.key == key then Some(w.val) else LastWritten(writes[..|writes| - 1], key)
  }

  // After any run of insertions lookup finds the last value written under each key
  // and nothing else; the traversal lists each key once, and its length is the size.
  lemma {:induction false} RunFindsLast(writes: seq<Write>, key: bv64)
    ensures Find(Run(writes), key) == LastWritten(writes, key)
  {
    if writes != [] {
      var w := writes[|writes| - 1];
      var before := Run(writes[..|writes| - 1]);
      RunFindsLast(writes[..|writes| - 1], key);
      OwnedSound(before, w.owners);
      PutSound(Owned(before, w.owners), w.key, w.val, w.dies);
    }
  }

  lemma RunTraversal(writes: seq<Write>, e: Entry)
    requires writes != []
    ensures var t := Run(writes).value;
            && (e in Traverse(t) <==> LastWritten(writes, e.key) == Some(e.val))
            && Distinct(Traverse(t)) && t.size == |Traverse(t)| && Height(t) <= LEVELS
  {
    var t := Run(writes).value;
    RunFindsLast(writes, e.key);
    TraverseIsGet(Fragment, t, e);
    TraverseDistinct(Fragment, t, []);
    PlacedHeight(Fragment, t, []);
  }

  // ---------------------------------------------------------------------
  // A shared version that changes
  // ---------------------------------------------------------------------

  // Keys 0 and FELLOW share their first fragment, so the second insertion makes a
  // child with one owner. With two owners of the root, inserting FELLOW again copies
  // the root but writes that child: the version the other owner holds changes too.
  const FELLOW: bv64 := UnhashInt(32)

  lemma FellowFragments()
    ensures Fragment(0, 0) == Fragment(FELLOW, 0) && Fragment(0, 1) != Fragment(FELLOW, 1) && FELLOW != 0
  {
    HashIntBijective(32);
    HashIntBijective(0);
    assert HashInt(0) == 0;
    assert Shifted(0, 0) == 0 && Shifted(32, 0) == 32;
    assert Shifted(0, 1) == 0 && Shifted(32, 1) == 1;
    assert LowBits(0) == 0 && LowBits(32) == 0 && LowBits(1) == 1;
  }

  // The trie that holds both keys: a root with one child, which has one owner.
  lemma SharedChild(a: bv64, b: bv64)
    ensures var t := Run([Write(0, a, 1, true), Write(FELLOW, b, 1, true)]).value;
            && Formed(t.(owners := 2)) && WritesSource(Fragment, t.(owners := 2), FELLOW, 0)
            && At(t.(owners := 2), Fragment(FELLOW, 0)).Kid?
            && var m := At(t.(owners := 2), Fragment(FELLOW, 0)).child;
               Formed(m) && m.owners == 1 && At(m, Fragment(FELLOW, 1)) == Data(Entry(FELLOW, b))
  {
    var w0, w1 := Write(0, a, 1, true), Write(FELLOW, b, 1, true);
    assert [w0, w1][..1] == [w0] && [w0][..0] == [];
    var n := Put(Fragment, None, 0, a, true);
    FellowFragments();
    var s := Fragment(0, 0);
    OneEntryEdits(n, s, Entry(0, a));
    var m := MergeTwo(Fragment, Entry(0, a), Entry(FELLOW, b), 1);
    TwoEntriesEdits(Entry(0, a), Fragment(0, 1), Entry(FELLOW, b), Fragment(FELLOW, 1));
    PromotedShaped(n, s, m, true);
    assert Run([w0]) == Some(n);
    assert Owned(Some(n), 1) == Some(n);
    var t := Run([w0, w1]).value;
    OwnedSound(Some(t), 2);
    assert t == Put(Fragment, Some(n), FELLOW, b, true);
    assert t == Promoted(n, s, m, true);
    assert WritesSource(Fragment, m, FELLOW, 1);
    assert At(t.(owners := 2), s) == Kid(m);
  }

  lemma SharedVersionChanges(a: bv64, b: bv64, c: bv64)
    ensures var shared := Owned(Run([Write(0, a, 1, true), Write(FELLOW, b, 1, true)]), 2);
            && shared.Some? && Sound(shared) && Find(shared, FELLOW) == Some(b)
            && var after := PutImpl(Fragment, shared.value, FELLOW, c, 0, false).source;
               Formed(after) && Get(Fragment, after, FELLOW, 0) == Some(c)
  {
    var writes := [Write(0, a, 1, true), Write(FELLOW, b, 1, true)];
    OwnedSound(Run(writes), 2);
    RunFindsLast(writes, FELLOW);
    SharedChild(a, b);
    FragmentSeparates();
    PutHolds(Fragment, Owned(Run(writes), 2).value, [], FELLOW, c, false);
  }
}
