/**
 Insertion into the trie of Hamt adds exactly the new entry, keeps the trie's shape,
 and what it does to the version it started from.
*/
module HamtProof {
  import opened Hash
  import opened Hamt

  // ---------------------------------------------------------------------
  // Each edit of a node changes one slot
  // ---------------------------------------------------------------------

  // Equal up to the number of owners of a child.
  ghost predicate Same(a: Cell, b: Cell) {
    if a.Kid? && b.Kid? then a.child.(owners := 0) == b.child.(owners := 0) else a == b
  }

  ghost predicate Elsewhere(t: Trie, n: Trie, s: Slot)
    requires Shaped(t) && Shaped(n)
  {
    forall u: Slot :: u != s ==> Same(At(n, u), At(t, u))
  }

  lemma RetainedEdits(t: Trie, s: Slot)
    requires Shaped(t)
    ensures var r := t.(children := Retained(t.children));
            Shaped(r) && Elsewhere(t, r, s) && Same(At(r, s), At(t, s))
  {
  }

  lemma KidsEdits(t: Trie, s: Slot, dies: bool)
    requires Shaped(t)
    ensures var r := t.(children := Kids(t, dies));
            Shaped(r) && Elsewhere(t, r, s) && Same(At(r, s), At(t, s))
  {
    RetainedEdits(t, s);
    assert t.(children := t.children) == t;
  }

  lemma AddBit(b: Bitmap, s: Slot, u: Slot)
    requires !b[s] && b[u]
    ensures Index(b[s := true], u) == Index(b, u) + (if s < u then 1 else 0)
    ensures s < u <==> Index(b, s) <= Index(b, u)
    ensures Rank(b[s := true], WIDTH) == Rank(b, WIDTH) + 1
    ensures Index(b[s := true], s) == Index(b, s)
  {
    RankSet(b, s, u);
    RankSet(b, s, WIDTH);
    RankSet(b, s, s);
    if s < u { IndexSeparates(b, s, u); } else { IndexSeparates(b, u, s); }
  }

  lemma InsertedAt<T>(xs: seq<T>, i: nat, x: T, k: nat)
    requires i <= |xs| && k < |xs|
    ensures |InsertAt(xs, i, x)| == |xs| + 1 && InsertAt(xs, i, x)[i] == x
    ensures InsertAt(xs, i, x)[if i <= k then k + 1 else k] == xs[k]
  {
  }

  lemma RemovedAt<T>(xs: seq<T>, i: nat, k: nat)
    requires i < |xs| && k < |xs| && k != i
    ensures |RemoveAt(xs, i)| == |xs| - 1
    ensures RemoveAt(xs, i)[if i < k then k - 1 else k] == xs[k]
  {
  }

  lemma WithDataEdits(t: Trie, s: Slot, e: Entry, dies: bool)
    requires Shaped(t) && At(t, s).Empty?
    ensures var n := WithData(t, s, e, dies); Shaped(n) && At(n, s) == Data(e) && Elsewhere(t, n, s)
  {
    var n := WithData(t, s, e, dies);
    RankSet(t.datamap, s, WIDTH);
    RankSet(t.datamap, s, s);
    assert Shaped(n);
    forall u: Slot | u != s ensures Same(At(n, u), At(t, u)) {
      if t.datamap[u] {
        AddBit(t.datamap, s, u);
        InsertedAt(t.entries, Index(t.datamap, s), e, Index(t.datamap, u));
      }
    }
  }

  lemma WithValueEdits(t: Trie, s: Slot, val: bv64)
    requires Shaped(t) && At(t, s).Data?
    ensures var n := WithValue(t, s, val);
            Shaped(n) && At(n, s) == Data(At(t, s).entry.(val := val)) && Elsewhere(t, n, s)
  {
    var n := WithValue(t, s, val);
    forall u: Slot | u != s ensures Same(At(n, u), At(t, u)) {
      OtherIndex(t.datamap, s, u);
    }
  }

  lemma OtherIndex(b: Bitmap, s: Slot, u: Slot)
    requires u != s && b[s]
    ensures b[u] ==> Index(b, u) != Index(b, s)
  {
    if s < u { IndexSeparates(b, s, u); } else { IndexSeparates(b, u, s); }
  }

  lemma WrittenValueEdits(t: Trie, s: Slot, val: bv64)
    requires Shaped(t) && At(t, s).Data?
    ensures var i := Index(t.datamap, s);
            var n := t.(entries := t.entries[i := At(t, s).entry.(val := val)]);
            Shaped(n) && At(n, s) == Data(At(t, s).entry.(val := val)) && Elsewhere(t, n, s)
  {
    var i := Index(t.datamap, s);
    var n := t.(entries := t.entries[i := At(t, s).entry.(val := val)]);
    forall u: Slot | u != s ensures Same(At(n, u), At(t, u)) {
      OtherIndex(t.datamap, s, u);
    }
  }

  // A node whose children are replaced or gain an owner, at slot s replaced by child.
  lemma ChildEdits(t: Trie, s: Slot, child: Trie, kids: seq<Trie>, n: Trie)
    requires Shaped(t) && At(t, s).Kid? && |kids| == |t.children|
    requires forall i :: 0 <= i < |kids| ==> kids[i].(owners := 0) == t.children[i].(owners := 0)
    requires n.datamap == t.datamap && n.nodemap == t.nodemap && n.entries == t.entries
    requires n.children == kids[Index(t.nodemap, s) := child]
    ensures Shaped(n) && At(n, s) == Kid(child) && Elsewhere(t, n, s)
  {
    forall u: Slot | u != s ensures Same(At(n, u), At(t, u)) {
      OtherIndex(t.nodemap, s, u);
    }
  }

  lemma PromotedShaped(t: Trie, s: Slot, child: Trie, dies: bool)
    requires Shaped(t) && At(t, s).Data?
    ensures Shaped(Promoted(t, s, child, dies)) && At(Promoted(t, s, child, dies), s) == Kid(child)
  {
    RankClear(t.datamap, s, WIDTH);
    RankSet(t.nodemap, s, WIDTH);
    RankSet(t.nodemap, s, s);
    assert Shaped(Promoted(t, s, child, dies));
  }

  lemma PromotedEdits(t: Trie, s: Slot, child: Trie, dies: bool)
    requires Shaped(t) && At(t, s).Data?
    ensures var n := Promoted(t, s, child, dies); Shaped(n) && At(n, s) == Kid(child) && Elsewhere(t, n, s)
  {
    var n := Promoted(t, s, child, dies);
    PromotedShaped(t, s, child, dies);
    forall u: Slot | u != s ensures Same(At(n, u), At(t, u)) {
      if t.datamap[u] {
        RankClear(t.datamap, s, u);
        OtherIndex(t.datamap, s, u);
        if s < u { IndexSeparates(t.datamap, s, u); } else { IndexSeparates(t.datamap, u, s); }
        RemovedAt(t.entries, Index(t.datamap, s), Index(t.datamap, u));
      } else if t.nodemap[u] {
        AddBit(t.nodemap, s, u);
        InsertedAt(Kids(t, dies), Index(t.nodemap, s), child, Index(t.nodemap, u));
      }
    }
  }

  lemma TwoEntriesEdits(a: Entry, s: Slot, b: Entry, u: Slot)
    requires s != u
    ensures var n := TwoEntries(a, s, b, u);
            Shaped(n) && At(n, s) == Data(a) && At(n, u) == Data(b)
            && forall v: Slot :: v != s && v != u ==> At(n, v).Empty?
  {
    RankNone(WIDTH); RankNone(s); RankNone(u);
    var one := NO_BITS[s := true];
    RankSet(NO_BITS, s, WIDTH); RankSet(NO_BITS, s, s); RankSet(NO_BITS, s, u);
    RankSet(one, u, WIDTH); RankSet(one, u, s); RankSet(one, u, u);
  }

  lemma OneChildEdits(s: Slot, child: Trie, n: Trie)
    requires n.datamap == NO_BITS && n.nodemap == NO_BITS[s := true] && n.entries == [] && n.children == [child]
    ensures Shaped(n) && At(n, s) == Kid(child) && forall v: Slot :: v != s ==> At(n, v).Empty?
  {
    RankNone(WIDTH); RankNone(s);
    RankSet(NO_BITS, s, WIDTH); RankSet(NO_BITS, s, s);
  }

  // ---------------------------------------------------------------------
  // Where keys may be
  // ---------------------------------------------------------------------

  ghost predicate OnPath(f: Fragments, key: bv64, path: seq<Slot>) {
    forall i: nat :: i < |path| ==> f(key, i) == path[i]
  }

  // Every key lies below the slots its hash names.
  ghost predicate Placed(f: Fragments, t: Trie, path: seq<Slot>)
    decreases t
  {
    && |path| < LEVELS && Shaped(t)
    && forall s: Slot ::
         match At(t, s)
         case Data(e) => OnPath(f, e.key, path + [s])
         case Kid(c) => Placed(f, c, path + [s])
         case Empty => true
  }

  lemma {:induction false} PlacedFormed(f: Fragments, t: Trie, path: seq<Slot>)
    requires Placed(f, t, path)
    ensures Formed(t)
    decreases t
  {
    forall s: Slot | At(t, s).Kid? ensures Formed(At(t, s).child) {
      PlacedFormed(f, At(t, s).child, path + [s]);
    }
  }

  // The number of owners of a node is not part of what it holds.
  lemma OwnersIrrelevant(f: Fragments, a: Trie, b: Trie, path: seq<Slot>)
    requires a.(owners := 0) == b.(owners := 0) && Placed(f, a, path)
    ensures Placed(f, b, path) && Formed(a) && Formed(b)
    ensures forall k, level :: Get(f, a, k, level) == Get(f, b, k, level)
  {
    assert Shaped(b);
    assert forall s: Slot :: At(a, s) == At(b, s);
    PlacedFormed(f, a, path);
    PlacedFormed(f, b, path);
  }

  ghost predicate CellPlaced(f: Fragments, c: Cell, path: seq<Slot>) {
    match c
    case Data(e) => OnPath(f, e.key, path)
    case Kid(t) => Placed(f, t, path)
    case Empty => true
  }

  lemma EditPlaced(f: Fragments, t: Trie, n: Trie, s: Slot, path: seq<Slot>)
    requires Placed(f, t, path) && Shaped(n) && Elsewhere(t, n, s) && CellPlaced(f, At(n, s), path + [s])
    ensures Placed(f, n, path)
  {
    forall u: Slot ensures CellPlaced(f, At(n, u), path + [u]) {
      if u != s {
        assert Same(At(n, u), At(t, u));
        if At(t, u).Kid? { OwnersIrrelevant(f, At(t, u).child, At(n, u).child, path + [u]); }
      }
    }
  }

  lemma EditGet(f: Fragments, t: Trie, n: Trie, s: Slot, path: seq<Slot>, key: bv64)
    requires Placed(f, t, path) && Placed(f, n, path) && Elsewhere(t, n, s) && f(key, |path|) != s
    ensures Formed(t) && Formed(n) && Get(f, n, key, |path|) == Get(f, t, key, |path|)
  {
    PlacedFormed(f, t, path);
    PlacedFormed(f, n, path);
    var u := f(key, |path|);
    assert Same(At(n, u), At(t, u));
    if At(t, u).Kid? { OwnersIrrelevant(f, At(t, u).child, At(n, u).child, path + [u]); }
  }

  // ---------------------------------------------------------------------
  // Splitting a slot
  // ---------------------------------------------------------------------

  // m holds exactly a and b.
  ghost predicate HoldsTwo(f: Fragments, m: Trie, a: Entry, b: Entry, path: seq<Slot>) {
    && Placed(f, m, path) && Formed(m)
    && forall k :: Get(f, m, k, |path|) == if k == a.key then Some(a.val)
                                           else if k == b.key then Some(b.val) else None
  }

  lemma TwoEntriesPlaced(f: Fragments, a: Entry, s: Slot, b: Entry, u: Slot, path: seq<Slot>)
    requires |path| < LEVELS && s != u && OnPath(f, a.key, path + [s]) && OnPath(f, b.key, path + [u])
    ensures Placed(f, TwoEntries(a, s, b, u), path)
  {
    var m := TwoEntries(a, s, b, u);
    TwoEntriesEdits(a, s, b, u);
    forall v: Slot ensures CellPlaced(f, At(m, v), path + [v]) {
      assert v != s && v != u ==> At(m, v).Empty?;
    }
  }

  lemma TwoEntriesHold(f: Fragments, a: Entry, b: Entry, path: seq<Slot>)
    requires OnPath(f, a.key, path) && OnPath(f, b.key, path)
    requires |path| < LEVELS && f(a.key, |path|) != f(b.key, |path|)
    ensures HoldsTwo(f, TwoEntries(a, f(a.key, |path|), b, f(b.key, |path|)), a, b, path)
  {
    var s, u := f(a.key, |path|), f(b.key, |path|);
    TwoEntriesPlaced(f, a, s, b, u, path);
    TwoEntriesEdits(a, s, b, u);
    PlacedFormed(f, TwoEntries(a, s, b, u), path);
  }

  lemma OneChildHolds(f: Fragments, a: Entry, b: Entry, path: seq<Slot>, s: Slot, child: Trie, m: Trie)
    requires |path| < LEVELS && f(a.key, |path|) == f(b.key, |path|) == s
    requires HoldsTwo(f, child, a, b, path + [s])
    requires m.datamap == NO_BITS && m.nodemap == NO_BITS[s := true] && m.entries == [] && m.children == [child]
    ensures HoldsTwo(f, m, a, b, path)
  {
    OneChildEdits(s, child, m);
    forall v: Slot ensures CellPlaced(f, At(m, v), path + [v]) {}
    PlacedFormed(f, m, path);
  }

  lemma {:induction false} MergeTwoHolds(f: Fragments, a: Entry, b: Entry, path: seq<Slot>)
    requires OnPath(f, a.key, path) && OnPath(f, b.key, path) && Apart(f, a.key, b.key, |path|)
    ensures HoldsTwo(f, MergeTwo(f, a, b, |path|), a, b, path)
    decreases LEVELS - |path|
  {
    var s := f(a.key, |path|);
    var l: nat :| |path| <= l < LEVELS && f(a.key, l) != f(b.key, l);
    if s == f(b.key, |path|) {
      assert Apart(f, a.key, b.key, |path + [s]|);
      MergeTwoHolds(f, a, b, path + [s]);
      OneChildHolds(f, a, b, path, s, MergeTwo(f, a, b, |path| + 1), MergeTwo(f, a, b, |path|));
    } else {
      TwoEntriesHold(f, a, b, path);
    }
  }

  lemma StayApart(f: Fragments, j: bv64, k: bv64, path: seq<Slot>)
    requires Separates(f) && j != k && OnPath(f, j, path) && OnPath(f, k, path)
    ensures Apart(f, j, k, |path|)
  {
    assert Apart(f, j, k, 0);
    var l: nat :| l < LEVELS && f(j, l) != f(k, l);
    assert |path| <= l;
  }

  // ---------------------------------------------------------------------
  // Insertion
  // ---------------------------------------------------------------------

  // Some(v) where the insertion of v under key is seen, the old reading elsewhere.
  ghost predicate Adds(f: Fragments, t: Trie, n: Trie, path: seq<Slot>, key: bv64, val: bv64)
    requires Formed(t)
  {
    && Placed(f, n, path) && Formed(n)
    && forall k :: Get(f, n, k, |path|) == if k == key then Some(val) else Get(f, t, k, |path|)
  }

  ghost predicate Keeps(f: Fragments, t: Trie, n: Trie, path: seq<Slot>)
    requires Formed(t)
  {
    && Placed(f, n, path) && Formed(n)
    && forall k :: Get(f, n, k, |path|) == Get(f, t, k, |path|)
  }

  // The insertion writes a node of the version it started from.
  ghost predicate WritesSource(f: Fragments, t: Trie, key: bv64, level: nat)
    requires Formed(t)
    decreases t
  {
    match At(t, f(key, level))
    case Data(e) => t.owners == 1 && e.key == key
    case Kid(c) => t.owners == 1 || WritesSource(f, c, key, level + 1)
    case Empty => false
  }

  ghost function CellGet(f: Fragments, c: Cell, key: bv64, level: nat): Option<bv64>
    requires c.Kid? ==> Formed(c.child)
  {
    match c
    case Data(e) => if e.key == key then Some(e.val) else None
    case Kid(t) => Get(f, t, key, level + 1)
    case Empty => None
  }

  ghost predicate CellAdds(f: Fragments, c: Cell, d: Cell, path: seq<Slot>, s: Slot, key: bv64, val: bv64)
    requires c.Kid? ==> Formed(c.child)
  {
    && CellPlaced(f, d, path + [s]) && (d.Kid? ==> Formed(d.child))
    && var level := |path|;
       forall k :: CellGet(f, d, k, level) == if k == key then Some(val) else CellGet(f, c, k, level)
  }

  ghost predicate CellKeeps(f: Fragments, c: Cell, d: Cell, path: seq<Slot>, s: Slot)
    requires c.Kid? ==> Formed(c.child)
  {
    && CellPlaced(f, d, path + [s]) && (d.Kid? ==> Formed(d.child))
    && var level := |path|;
       forall k :: CellGet(f, d, k, level) == CellGet(f, c, k, level)
  }

  lemma EditAdds(f: Fragments, t: Trie, n: Trie, s: Slot, path: seq<Slot>, key: bv64, val: bv64)
    requires Placed(f, t, path) && Formed(t) && Shaped(n) && Elsewhere(t, n, s) && s == f(key, |path|)
    requires CellAdds(f, At(t, s), At(n, s), path, s, key, val)
    ensures Adds(f, t, n, path, key, val)
  {
    EditPlaced(f, t, n, s, path);
    PlacedFormed(f, n, path);
    forall k ensures Get(f, n, k, |path|) == if k == key then Some(val) else Get(f, t, k, |path|) {
      if f(k, |path|) == s {
        assert CellGet(f, At(n, s), k, |path|) == if k == key then Some(val) else CellGet(f, At(t, s), k, |path|);
      } else {
        EditGet(f, t, n, s, path, k);
      }
    }
  }

  lemma EditKeeps(f: Fragments, t: Trie, n: Trie, s: Slot, path: seq<Slot>)
    requires Placed(f, t, path) && Formed(t) && Shaped(n) && Elsewhere(t, n, s)
    requires CellKeeps(f, At(t, s), At(n, s), path, s)
    ensures Keeps(f, t, n, path)
  {
    EditPlaced(f, t, n, s, path);
    PlacedFormed(f, n, path);
    forall k ensures Get(f, n, k, |path|) == Get(f, t, k, |path|) {
      if f(k, |path|) == s {
        assert CellGet(f, At(n, s), k, |path|) == CellGet(f, At(t, s), k, |path|);
      } else {
        EditGet(f, t, n, s, path, k);
      }
    }
  }

  lemma KidsKeep(f: Fragments, t: Trie, path: seq<Slot>, s: Slot, dies: bool)
    requires Placed(f, t, path) && Formed(t)
    ensures Keeps(f, t, t.(children := Kids(t, dies)), path)
  {
    var r := t.(children := Kids(t, dies));
    KidsEdits(t, s, dies);
    if At(t, s).Kid? { OwnersIrrelevant(f, At(t, s).child, At(r, s).child, path + [s]); }
    EditKeeps(f, t, r, s, path);
  }

  lemma MergedCell(f: Fragments, e: Entry, m: Trie, path: seq<Slot>, s: Slot, key: bv64, val: bv64)
    requires e.key != key && HoldsTwo(f, m, e, Entry(key, val), path + [s])
    ensures CellAdds(f, Data(e), Kid(m), path, s, key, val)
  {
  }

  lemma SplitAdds(f: Fragments, t: Trie, path: seq<Slot>, key: bv64, val: bv64, dies: bool)
    requires Separates(f) && Placed(f, t, path) && Formed(t) && OnPath(f, key, path)
    requires At(t, f(key, |path|)).Data? && At(t, f(key, |path|)).entry.key != key
    ensures Adds(f, t, PutImpl(f, t, key, val, |path|, dies).result, path, key, val)
  {
    var s := f(key, |path|);
    var e := At(t, s).entry;
    var below := path + [s];
    StayApart(f, e.key, key, below);
    MergeTwoHolds(f, e, Entry(key, val), below);
    var m := MergeTwo(f, e, Entry(key, val), |path| + 1);
    PromotedEdits(t, s, m, dies);
    MergedCell(f, e, m, path, s, key, val);
    EditAdds(f, t, Promoted(t, s, m, dies), s, path, key, val);
  }

  lemma ValueAdds(f: Fragments, t: Trie, path: seq<Slot>, key: bv64, val: bv64, dies: bool)
    requires Placed(f, t, path) && Formed(t) && OnPath(f, key, path)
    requires At(t, f(key, |path|)).Data? && At(t, f(key, |path|)).entry.key == key
    ensures Adds(f, t, PutImpl(f, t, key, val, |path|, dies).result, path, key, val)
  {
    var s := f(key, |path|);
    var e := At(t, s).entry.(val := val);
    assert CellAdds(f, At(t, s), Data(e), path, s, key, val);
    WithValueEdits(t, s, val);
    WrittenValueEdits(t, s, val);
    EditAdds(f, t, PutImpl(f, t, key, val, |path|, dies).result, s, path, key, val);
  }

  lemma EmptyAdds(f: Fragments, t: Trie, path: seq<Slot>, key: bv64, val: bv64, dies: bool)
    requires Placed(f, t, path) && Formed(t) && OnPath(f, key, path) && At(t, f(key, |path|)).Empty?
    ensures Adds(f, t, PutImpl(f, t, key, val, |path|, dies).result, path, key, val)
  {
    var s := f(key, |path|);
    WithDataEdits(t, s, Entry(key, val), dies);
    assert CellAdds(f, At(t, s), Data(Entry(key, val)), path, s, key, val);
    EditAdds(f, t, WithData(t, s, Entry(key, val), dies), s, path, key, val);
  }

  // n is t with the child at key's slot replaced, its siblings up to owners.
  ghost predicate ReplacesChild(t: Trie, s: Slot, child: Trie, n: Trie)
    requires Shaped(t) && At(t, s).Kid?
  {
    && n.datamap == t.datamap && n.nodemap == t.nodemap && n.entries == t.entries
    && exists kids: seq<Trie> ::
         && |kids| == |t.children| && n.children == kids[Index(t.nodemap, s) := child]
         && forall i :: 0 <= i < |kids| ==> kids[i].(owners := 0) == t.children[i].(owners := 0)
  }

  lemma ReplacedEdits(t: Trie, s: Slot, child: Trie, n: Trie)
    requires Shaped(t) && At(t, s).Kid? && ReplacesChild(t, s, child, n)
    ensures Shaped(n) && At(n, s) == Kid(child) && Elsewhere(t, n, s)
  {
    var kids: seq<Trie> :|
      && |kids| == |t.children| && n.children == kids[Index(t.nodemap, s) := child]
      && forall i :: 0 <= i < |kids| ==> kids[i].(owners := 0) == t.children[i].(owners := 0);
    ChildEdits(t, s, child, kids, n);
  }

  lemma ChildAdds(f: Fragments, t: Trie, path: seq<Slot>, key: bv64, val: bv64, child: Trie, n: Trie)
    requires Placed(f, t, path) && Formed(t) && At(t, f(key, |path|)).Kid?
    requires ReplacesChild(t, f(key, |path|), child, n)
    requires Adds(f, At(t, f(key, |path|)).child, child, path + [f(key, |path|)], key, val)
    ensures Adds(f, t, n, path, key, val)
  {
    var s := f(key, |path|);
    ReplacedEdits(t, s, child, n);
    assert |path + [s]| == |path| + 1;
    assert CellAdds(f, At(t, s), Kid(child), path, s, key, val);
    EditAdds(f, t, n, s, path, key, val);
  }

  lemma ChildKeeps(f: Fragments, t: Trie, path: seq<Slot>, s: Slot, child: Trie, n: Trie)
    requires Placed(f, t, path) && Formed(t) && At(t, s).Kid?
    requires ReplacesChild(t, s, child, n)
    requires Keeps(f, At(t, s).child, child, path + [s])
    ensures Keeps(f, t, n, path)
  {
    ReplacedEdits(t, s, child, n);
    assert |path + [s]| == |path| + 1;
    assert CellKeeps(f, At(t, s), Kid(child), path, s);
    EditKeeps(f, t, n, s, path);
  }

  // What PutHolds says of one call.
  ghost predicate PutRight(f: Fragments, t: Trie, path: seq<Slot>, key: bv64, val: bv64, dies: bool)
    requires Formed(t)
  {
    var out := PutImpl(f, t, key, val, |path|, dies);
    && Adds(f, t, out.result, path, key, val)
    && (if WritesSource(f, t, key, |path|) then Adds(f, t, out.source, path, key, val)
        else Keeps(f, t, out.source, path))
  }

  lemma ChildRight(f: Fragments, t: Trie, path: seq<Slot>, key: bv64, val: bv64, dies: bool)
    requires Placed(f, t, path) && Formed(t) && OnPath(f, key, path) && At(t, f(key, |path|)).Kid?
    requires PutRight(f, At(t, f(key, |path|)).child, path + [f(key, |path|)], key, val, t.owners == 1)
    ensures PutRight(f, t, path, key, val, dies)
  {
    var s := f(key, |path|);
    var c := At(t, s).child;
    assert |path + [s]| == |path| + 1;
    var out := PutImpl(f, t, key, val, |path|, dies);
    var below := PutImpl(f, c, key, val, |path| + 1, t.owners == 1);
    var kids := if t.owners == 1 then t.children else Retained(t.children);
    assert out.result.children == kids[Index(t.nodemap, s) := below.result];
    ChildAdds(f, t, path, key, val, below.result, out.result);
    if t.owners != 1 {
      assert out.source.children == kids[Index(t.nodemap, s) := below.source];
      if WritesSource(f, c, key, |path| + 1) {
        ChildAdds(f, t, path, key, val, below.source, out.source);
      } else {
        ChildKeeps(f, t, path, s, below.source, out.source);
      }
    }
  }

  // Insertion adds its entry and changes no other reading. The version it started
  // from reads as before, unless the insertion wrote one of its nodes: then that
  // version shows the insertion as well.
  lemma {:induction false} PutHolds(f: Fragments, t: Trie, path: seq<Slot>, key: bv64, val: bv64, dies: bool)
    requires Separates(f) && Placed(f, t, path) && Formed(t) && OnPath(f, key, path)
    ensures PutRight(f, t, path, key, val, dies)
    decreases t
  {
    var s := f(key, |path|);
    KidsKeep(f, t, path, s, dies);
    match At(t, s)
    case Data(e) =>
      if e.key == key { ValueAdds(f, t, path, key, val, dies); } else { SplitAdds(f, t, path, key, val, dies); }
    case Empty => EmptyAdds(f, t, path, key, val, dies);
    case Kid(c) =>
      PutHolds(f, c, path + [s], key, val, t.owners == 1);
      ChildRight(f, t, path, key, val, dies);
  }

  // The version an insertion started from reads as before if and only if none of its
  // nodes was written, or the entry was there already.
  lemma SourceKeptIff(f: Fragments, t: Trie, path: seq<Slot>, key: bv64, val: bv64, dies: bool)
    requires Separates(f) && Placed(f, t, path) && Formed(t) && OnPath(f, key, path)
    ensures Keeps(f, t, PutImpl(f, t, key, val, |path|, dies).source, path)
            <==> !WritesSource(f, t, key, |path|) || Get(f, t, key, |path|) == Some(val)
  {
    PutHolds(f, t, path, key, val, dies);
    var level := |path|;
    var source := PutImpl(f, t, key, val, level, dies).source;
    if Keeps(f, t, source, path) && WritesSource(f, t, key, level) {
      assert Get(f, source, key, level) == Get(f, t, key, level);
    }
  }
}
