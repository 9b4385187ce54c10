/**
 What a trie holds as a whole: its traversal, the size field that counts it, and the
 loop that collects its keys.
*/
module HamtContents {
  import opened Hash
  import opened Hamt
  import opened HamtProof

  // ---------------------------------------------------------------------
  // Traversal
  // ---------------------------------------------------------------------

  // hamt_iterate_impl: a node's entries, then its children from left to right.
  function Traverse(t: Trie): seq<Entry>
    decreases t
  {
    t.entries + TraverseAll(t.children)
  }

  function TraverseAll(ts: seq<Trie>): seq<Entry>
    decreases ts
  {
    if ts == [] then [] else Traverse(ts[0]) + TraverseAll(ts[1..])
  }

  function KeysOf(es: seq<Entry>): (ks: seq<bv64>)
    ensures |ks| == |es| && forall i :: 0 <= i < |es| ==> ks[i] == es[i].key
  {
    seq(|es|, i requires 0 <= i < |es| => es[i].key)
  }

  lemma {:induction false} TraverseConcat(a: seq<Trie>, b: seq<Trie>)
    ensures TraverseAll(a + b) == TraverseAll(a) + TraverseAll(b)
  {
    if a == [] {
      assert a + b == b;
    } else {
      assert (a + b)[1..] == a[1..] + b;
      TraverseConcat(a[1..], b);
    }
  }

  lemma TraverseOne(t: Trie)
    ensures TraverseAll([t]) == Traverse(t)
  {
    assert [t][1..] == [];
  }

  method CopyKeys(entries: seq<Entry>, keys: array<bv64>, start: nat)
    requires start + |entries| <= keys.Length
    modifies keys
    ensures keys[..start + |entries|] == old(keys[..start]) + KeysOf(entries)
  {
    for i := 0 to |entries|
      invariant keys[..start] == old(keys[..start])
      invariant forall k :: 0 <= k < i ==> keys[start + k] == entries[k].key
    {
      keys[start + i] := entries[i].key;
    }
  }

  // A node's entries and its first i children.
  ghost function Walked(t: Trie, i: nat): seq<Entry>
    requires i <= |t.children|
  {
    t.entries + TraverseAll(t.children[..i])
  }

  lemma WalkedAll(t: Trie)
    ensures Walked(t, 0) == t.entries && Walked(t, |t.children|) == Traverse(t)
  {
    assert t.children[..|t.children|] == t.children;
  }

  lemma WalkedNext(t: Trie, i: nat, before: seq<bv64>)
    requires i < |t.children|
    ensures |Walked(t, i + 1)| == |Walked(t, i)| + |Traverse(t.children[i])| <= |Traverse(t)|
    ensures before + KeysOf(Walked(t, i)) + KeysOf(Traverse(t.children[i])) == before + KeysOf(Walked(t, i + 1))
  {
    TraverseSplit(t.children, i);
    assert Walked(t, i + 1) == Walked(t, i) + Traverse(t.children[i]);
  }

  // yona_rt_hamt_keys: the walk fills a buffer of `size` words.
  method CollectKeys(t: Trie, keys: array<bv64>, start: nat) returns (next: nat)
    requires start + |Traverse(t)| <= keys.Length
    modifies keys
    ensures next == start + |Traverse(t)|
    ensures keys[..next] == old(keys[..start]) + KeysOf(Traverse(t))
    decreases t
  {
    ghost var before := keys[..start];
    CopyKeys(t.entries, keys, start);
    next := start + |t.entries|;
    WalkedAll(t);
    for i := 0 to |t.children|
      invariant next == start + |Walked(t, i)| <= keys.Length
      invariant keys[..next] == before + KeysOf(Walked(t, i))
    {
      WalkedNext(t, i, before);
      next := CollectKeys(t.children[i], keys, next);
    }
  }

  lemma TraverseSplit(ts: seq<Trie>, i: nat)
    requires i < |ts|
    ensures TraverseAll(ts[..i + 1]) == TraverseAll(ts[..i]) + Traverse(ts[i])
    ensures |TraverseAll(ts[..i])| + |Traverse(ts[i])| <= |TraverseAll(ts)|
  {
    assert ts[..i + 1] == ts[..i] + [ts[i]];
    TraverseConcat(ts[..i], [ts[i]]);
    TraverseOne(ts[i]);
    assert ts == ts[..i + 1] + ts[i + 1..];
    TraverseConcat(ts[..i + 1], ts[i + 1..]);
  }

  // Owners are not part of what is traversed.
  lemma {:induction false} TraverseRetained(a: seq<Trie>, b: seq<Trie>)
    requires |a| == |b| && forall i :: 0 <= i < |a| ==> a[i].(owners := 0) == b[i].(owners := 0)
    ensures TraverseAll(a) == TraverseAll(b)
  {
    if a != [] {
      assert a[0].(owners := 0) == b[0].(owners := 0);
      TraverseRetained(a[1..], b[1..]);
    }
  }

  // ---------------------------------------------------------------------
  // Size
  // ---------------------------------------------------------------------

  ghost predicate Sized(t: Trie)
    decreases t
  {
    t.size == |Traverse(t)| && forall c :: c in t.children ==> Sized(c)
  }

  lemma SizedRetained(ts: seq<Trie>)
    requires forall c :: c in ts ==> Sized(c)
    ensures forall c :: c in Retained(ts) ==> Sized(c)
    ensures TraverseAll(Retained(ts)) == TraverseAll(ts)
  {
    TraverseRetained(Retained(ts), ts);
    forall c | c in Retained(ts) ensures Sized(c) {
      var i :| 0 <= i < |ts| && Retained(ts)[i] == c;
      assert Sized(ts[i]);
    }
  }

  lemma TraverseUpdate(ts: seq<Trie>, i: nat, x: Trie)
    requires i < |ts|
    ensures |TraverseAll(ts[i := x])| == |TraverseAll(ts)| - |Traverse(ts[i])| + |Traverse(x)|
  {
    var us := ts[i := x];
    assert us[..i] == ts[..i] && us[i + 1..] == ts[i + 1..];
    TraverseSplit(ts, i);
    TraverseSplit(us, i);
    assert ts == ts[..i + 1] + ts[i + 1..] && us == us[..i + 1] + us[i + 1..];
    TraverseConcat(ts[..i + 1], ts[i + 1..]);
    TraverseConcat(us[..i + 1], us[i + 1..]);
  }

  lemma TraverseInsert(ts: seq<Trie>, i: nat, x: Trie)
    requires i <= |ts|
    ensures |TraverseAll(InsertAt(ts, i, x))| == |TraverseAll(ts)| + |Traverse(x)|
  {
    assert ts == ts[..i] + ts[i..];
    TraverseConcat(ts[..i], ts[i..]);
    TraverseConcat(ts[..i] + [x], ts[i..]);
    TraverseConcat(ts[..i], [x]);
    TraverseOne(x);
  }

  lemma {:induction false} MergeTwoSized(f: Fragments, a: Entry, b: Entry, level: nat)
    ensures Sized(MergeTwo(f, a, b, level)) && |Traverse(MergeTwo(f, a, b, level))| == 2
    decreases LEVELS - level
  {
    if level < LEVELS && f(a.key, level) == f(b.key, level) {
      MergeTwoSized(f, a, b, level + 1);
      TraverseOne(MergeTwo(f, a, b, level + 1));
    }
  }

  // Insertion keeps the size field equal to the number of entries, and the number
  // grows by one exactly when the key was absent.
  lemma {:induction false} PutSized(f: Fragments, t: Trie, key: bv64, val: bv64, level: nat, dies: bool)
    requires Formed(t) && Sized(t)
    ensures var n := PutImpl(f, t, key, val, level, dies).result;
            Sized(n) && |Traverse(n)| == |Traverse(t)| + if Get(f, t, key, level).None? then 1 else 0
    decreases t
  {
    var s := f(key, level);
    SizedRetained(t.children);
    match At(t, s)
    case Data(e) =>
      if e.key != key {
        var m := MergeTwo(f, e, Entry(key, val), level + 1);
        MergeTwoSized(f, e, Entry(key, val), level + 1);
        TraverseInsert(Kids(t, dies), Index(t.nodemap, s), m);
        InsertKeeps(Kids(t, dies), Index(t.nodemap, s), m);
      }
    case Empty =>
    case Kid(c) =>
      assert c in t.children;
      PutSized(f, c, key, val, level + 1, t.owners == 1);
      ChildSized(f, t, key, val, level, dies);
  }

  lemma InsertKeeps(ts: seq<Trie>, i: nat, x: Trie)
    requires i <= |ts| && Sized(x) && forall c :: c in ts ==> Sized(c)
    ensures forall c :: c in InsertAt(ts, i, x) ==> Sized(c)
  {
    forall c | c in InsertAt(ts, i, x) ensures c == x || c in ts {}
  }

  lemma UpdateKeeps(ts: seq<Trie>, i: nat, x: Trie)
    requires i < |ts| && Sized(x) && forall c :: c in ts ==> Sized(c)
    ensures forall c :: c in ts[i := x] ==> Sized(c)
  {
    forall c | c in ts[i := x] ensures c == x || c in ts {}
  }

  // One child replaced, its siblings up to owners, and the size moved by the difference.
  lemma SwapSized(t: Trie, i: nat, kids: seq<Trie>, x: Trie, n: Trie)
    requires Sized(t) && i < |t.children| == |kids| && Sized(x)
    requires kids == t.children || kids == Retained(t.children)
    requires n.entries == t.entries && n.children == kids[i := x]
    requires n.size == t.size + (x.size - t.children[i].size)
    ensures Sized(n) && |Traverse(n)| == |Traverse(t)| - |Traverse(t.children[i])| + |Traverse(x)|
  {
    SizedRetained(t.children);
    TraverseUpdate(kids, i, x);
    UpdateKeeps(kids, i, x);
    OwnersTraverse(kids[i], t.children[i]);
    assert t.children[i] in t.children;
  }

  lemma ChildSized(f: Fragments, t: Trie, key: bv64, val: bv64, level: nat, dies: bool)
    requires Formed(t) && Sized(t) && At(t, f(key, level)).Kid?
    requires var n := PutImpl(f, At(t, f(key, level)).child, key, val, level + 1, t.owners == 1).result;
             Sized(n) && |Traverse(n)| == |Traverse(At(t, f(key, level)).child)|
                                          + if Get(f, t, key, level).None? then 1 else 0
    ensures var n := PutImpl(f, t, key, val, level, dies).result;
            Sized(n) && |Traverse(n)| == |Traverse(t)| + if Get(f, t, key, level).None? then 1 else 0
  {
    var i := Index(t.nodemap, f(key, level));
    var below := PutImpl(f, t.children[i], key, val, level + 1, t.owners == 1).result;
    var kids := if t.owners == 1 then t.children else Retained(t.children);
    SwapSized(t, i, kids, below, PutImpl(f, t, key, val, level, dies).result);
  }

  lemma OwnersTraverse(a: Trie, b: Trie)
    requires a.(owners := 0) == b.(owners := 0)
    ensures Traverse(a) == Traverse(b)
  {
  }

  // ---------------------------------------------------------------------
  // The size field of the version an insertion started from
  // ---------------------------------------------------------------------

  // A shared node below which the insertion writes keeps the size it had.
  ghost predicate SizeGoesStale(f: Fragments, t: Trie, key: bv64, level: nat)
    requires Formed(t)
  {
    t.owners != 1 && WritesSource(f, t, key, level) && Get(f, t, key, level).None?
  }

  /**
   The version an insertion started from grows with the insertion exactly when one of
   its nodes is written and the key was absent; its size fields still count its
   entries exactly when, besides, its root is not shared.
  */
  lemma {:induction false} SourceSized(f: Fragments, t: Trie, key: bv64, val: bv64, level: nat, dies: bool)
    requires Formed(t) && Sized(t)
    ensures var source := PutImpl(f, t, key, val, level, dies).source;
            && |Traverse(source)| == |Traverse(t)|
               + (if WritesSource(f, t, key, level) && Get(f, t, key, level).None? then 1 else 0)
            && (source.size == |Traverse(source)| <==> !SizeGoesStale(f, t, key, level))
            && (Sized(source) <==> !SizeGoesStale(f, t, key, level))
    decreases t
  {
    var s := f(key, level);
    SizedRetained(t.children);
    PutSized(f, t, key, val, level, dies);
    match At(t, s)
    case Data(e) =>
    case Empty =>
    case Kid(c) =>
      assert c in t.children;
      SourceSized(f, c, key, val, level + 1, t.owners == 1);
      if t.owners != 1 { SharedSized(f, t, key, val, level, dies); }
  }

  lemma SharedSized(f: Fragments, t: Trie, key: bv64, val: bv64, level: nat, dies: bool)
    requires Formed(t) && Sized(t) && At(t, f(key, level)).Kid? && t.owners != 1
    requires var c := At(t, f(key, level)).child;
             var below := PutImpl(f, c, key, val, level + 1, t.owners == 1).source;
             && |Traverse(below)| == |Traverse(c)|
                + (if WritesSource(f, c, key, level + 1) && Get(f, c, key, level + 1).None? then 1 else 0)
             && (Sized(below) <==> !SizeGoesStale(f, c, key, level + 1))
    ensures var source := PutImpl(f, t, key, val, level, dies).source;
            && |Traverse(source)| == |Traverse(t)|
               + (if WritesSource(f, t, key, level) && Get(f, t, key, level).None? then 1 else 0)
            && (Sized(source) <==> !SizeGoesStale(f, t, key, level))
  {
    var i := Index(t.nodemap, f(key, level));
    var kids, below := Retained(t.children), PutImpl(f, t.children[i], key, val, level + 1, t.owners == 1).source;
    var source := PutImpl(f, t, key, val, level, dies).source;
    SizedRetained(t.children);
    TraverseUpdate(kids, i, below);
    OwnersTraverse(kids[i], t.children[i]);
    if !SizeGoesStale(f, t, key, level) { UpdateKeeps(kids, i, below); }
  }
}
