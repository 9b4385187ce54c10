/**
 The hash array mapped trie behind Dict and Set (src/runtime/hamt.c): lookup,
 insertion with its reuse of nodes that have one owner, and sizes. Key and value
 words are untyped, as in the runtime.
*/
module Hamt {
  import opened Hash

  datatype Option<T> = None | Some(value: T)

  datatype Entry = Entry(key: bv64, val: bv64)

  function Clear(n: nat): (b: seq<bool>)
    ensures |b| == n && forall i :: 0 <= i < n ==> !b[i]
  {
    if n == 0 then [] else Clear(n - 1) + [false]
  }

  type Bitmap = b: seq<bool> | |b| == WIDTH witness Clear(WIDTH)

  const NO_BITS: Bitmap := Clear(WIDTH)

  // One node. `owners` is its reference count. Entries and children are stored
  // without gaps, in slot order.
  datatype Trie = Node(owners: nat, datamap: Bitmap, nodemap: Bitmap, size: int,
                       entries: seq<Entry>, children: seq<Trie>)

  // The slot of a key at a level.
  type Fragments = (bv64, nat) -> Slot

  ghost predicate Separates(f: Fragments) {
    forall j, k :: j != k ==> Apart(f, j, k, 0)
  }

  ghost predicate Apart(f: Fragments, j: bv64, k: bv64, level: nat) {
    exists l: nat :: level <= l < LEVELS && f(j, l) != f(k, l)
  }

  // ---------------------------------------------------------------------
  // Compressed positions
  // ---------------------------------------------------------------------

  // Set bits below n; hamt_index.
  function Rank(b: Bitmap, n: nat): nat
    requires n <= WIDTH
  {
    if n == 0 then 0 else Rank(b, n - 1) + (if b[n - 1] then 1 else 0)
  }

  lemma {:induction false} RankMonotone(b: Bitmap, m: nat, n: nat)
    requires m <= n <= WIDTH
    ensures Rank(b, m) <= Rank(b, n)
    ensures m < n && b[m] ==> Rank(b, m) < Rank(b, n)
    decreases n
  {
    if m < n { RankMonotone(b, m, n - 1); }
  }

  lemma {:induction false} RankSet(b: Bitmap, s: Slot, n: nat)
    requires n <= WIDTH && !b[s]
    ensures Rank(b[s := true], n) == Rank(b, n) + (if s < n then 1 else 0)
    decreases n
  {
    if n > 0 { RankSet(b, s, n - 1); }
  }

  lemma RankClear(b: Bitmap, s: Slot, n: nat)
    requires n <= WIDTH && b[s]
    ensures Rank(b, n) == Rank(b[s := false], n) + (if s < n then 1 else 0)
  {
    RankSet(b[s := false], s, n);
    assert b[s := false][s := true] == b;
  }

  lemma {:induction false} RankNone(n: nat)
    requires n <= WIDTH
    ensures Rank(NO_BITS, n) == 0
  {
    if n > 0 { RankNone(n - 1); }
  }

  function Index(b: Bitmap, s: Slot): (i: nat)
    ensures i <= Rank(b, WIDTH)
    ensures b[s] ==> i < Rank(b, WIDTH)
  {
    RankMonotone(b, s, WIDTH);
    Rank(b, s)
  }

  // Different slots have different positions.
  lemma IndexSeparates(b: Bitmap, s: Slot, u: Slot)
    requires s < u
    ensures Index(b, s) <= Index(b, u) && (b[s] ==> Index(b, s) < Index(b, u))
  {
    RankMonotone(b, s, u);
  }

  // ---------------------------------------------------------------------
  // What a slot holds
  // ---------------------------------------------------------------------

  datatype Cell = Empty | Data(entry: Entry) | Kid(child: Trie)

  ghost predicate Shaped(t: Trie) {
    && (forall s: Slot :: !(t.datamap[s] && t.nodemap[s]))
    && |t.entries| == Rank(t.datamap, WIDTH) && |t.children| == Rank(t.nodemap, WIDTH)
  }

  function At(t: Trie, s: Slot): (c: Cell)
    requires Shaped(t)
    ensures c.Kid? ==> c.child < t
  {
    if t.datamap[s] then Data(t.entries[Index(t.datamap, s)])
    else if t.nodemap[s] then Kid(t.children[Index(t.nodemap, s)])
    else Empty
  }

  ghost predicate Formed(t: Trie)
    decreases t
  {
    Shaped(t) && forall s: Slot :: At(t, s).Kid? ==> Formed(At(t, s).child)
  }

  // ---------------------------------------------------------------------
  // Lookup
  // ---------------------------------------------------------------------

  ghost function Get(f: Fragments, t: Trie, key: bv64, level: nat): Option<bv64>
    requires Formed(t)
    decreases t
  {
    match At(t, f(key, level))
    case Data(e) => if e.key == key then Some(e.val) else None
    case Kid(c) => Get(f, c, key, level + 1)
    case Empty => None
  }

  method Lookup(f: Fragments, root: Option<Trie>, key: bv64, default: bv64) returns (val: bv64)
    requires root.Some? ==> Formed(root.value)
    ensures val == if root.None? || Get(f, root.value, key, 0).None? then default else Get(f, root.value, key, 0).value
  {
    if root.None? { return default; }
    var node, level := root.value, 0;
    while true
      invariant Formed(node) && Get(f, node, key, level) == Get(f, root.value, key, 0)
      decreases node
    {
      match At(node, f(key, level))
      case Data(e) => return if e.key == key then e.val else default;
      case Kid(c) => node, level := c, level + 1;
      case Empty => return default;
    }
  }

  const SENTINEL: bv64 := 0xDEADBEEFCAFEBABE

  // The membership test looks the key up with a default it takes for "absent".
  method Contains(f: Fragments, root: Option<Trie>, key: bv64) returns (found: bool)
    requires root.Some? ==> Formed(root.value)
    ensures found <==> root.Some? && Get(f, root.value, key, 0).Some? && Get(f, root.value, key, 0).value != SENTINEL
  {
    var val := Lookup(f, root, key, SENTINEL);
    return val != SENTINEL;
  }

  // ---------------------------------------------------------------------
  // Insertion
  // ---------------------------------------------------------------------

  function InsertAt<T>(s: seq<T>, i: nat, x: T): seq<T>
    requires i <= |s|
  {
    s[..i] + [x] + s[i..]
  }

  function RemoveAt<T>(s: seq<T>, i: nat): seq<T>
    requires i < |s|
  {
    s[..i] + s[i + 1..]
  }

  // A copy of a node is one more owner of each of its children.
  function Retained(children: seq<Trie>): (r: seq<Trie>)
    ensures |r| == |children| && forall i :: 0 <= i < |r| ==> r[i] == children[i].(owners := children[i].owners + 1)
  {
    seq(|children|, i requires 0 <= i < |children| => children[i].(owners := children[i].owners + 1))
  }

  // The children once a copy has taken a node's place: if its only owner lets go of the
  // node, it is freed and lets go of them again.
  function Kids(t: Trie, dies: bool): (r: seq<Trie>)
    ensures |r| == |t.children| && (r == t.children || r == Retained(t.children))
  {
    if dies && t.owners == 1 then t.children else Retained(t.children)
  }

  function WithData(t: Trie, s: Slot, e: Entry, dies: bool): Trie
    requires Shaped(t) && At(t, s).Empty?
  {
    Node(1, t.datamap[s := true], t.nodemap, t.size + 1,
         InsertAt(t.entries, Index(t.datamap, s), e), Kids(t, dies))
  }

  function WithValue(t: Trie, s: Slot, val: bv64): Trie
    requires Shaped(t) && At(t, s).Data?
  {
    var i := Index(t.datamap, s);
    Node(1, t.datamap, t.nodemap, t.size, t.entries[i := t.entries[i].(val := val)], Retained(t.children))
  }

  function Promoted(t: Trie, s: Slot, child: Trie, dies: bool): Trie
    requires Shaped(t) && At(t, s).Data?
  {
    Node(1, t.datamap[s := false], t.nodemap[s := true], t.size + 1,
         RemoveAt(t.entries, Index(t.datamap, s)), InsertAt(Kids(t, dies), Index(t.nodemap, s), child))
  }

  function WithChild(t: Trie, s: Slot, child: Trie, delta: int): Trie
    requires Shaped(t) && At(t, s).Kid?
  {
    Node(1, t.datamap, t.nodemap, t.size + delta, t.entries, Retained(t.children)[Index(t.nodemap, s) := child])
  }

  function TwoEntries(a: Entry, s: Slot, b: Entry, u: Slot): Trie {
    var map2 := NO_BITS[s := true][u := true];
    Node(1, map2, NO_BITS, 2, if Index(map2, s) == 0 then [a, b] else [b, a], [])
  }

  // hamt_merge_two; past the last level the two entries take neighbouring slots.
  function MergeTwo(f: Fragments, a: Entry, b: Entry, level: nat): Trie
    decreases LEVELS - level
  {
    var s, u := f(a.key, level), f(b.key, level);
    if level >= LEVELS then TwoEntries(a, f(a.key, 0), b, (f(a.key, 0) + 1) % WIDTH)
    else if s == u then Node(1, NO_BITS, NO_BITS[s := true], 2, [], [MergeTwo(f, a, b, level + 1)])
    else TwoEntries(a, s, b, u)
  }

  // The node an insertion returns, and what the node it started from is afterwards:
  // a node with one owner is written in place, and then the two are the same.
  datatype Outcome = Outcome(result: Trie, source: Trie)

  // `dies`: whoever holds t lets go of it when a copy takes its place, as a parent that is
  // written in place does.
  function PutImpl(f: Fragments, t: Trie, key: bv64, val: bv64, level: nat, dies: bool): Outcome
    requires Formed(t)
    decreases t
  {
    var s := f(key, level);
    var unique := t.owners == 1;
    var retained := t.(children := Kids(t, dies));
    match At(t, s)
    case Data(e) =>
      if e.key == key then
        if unique then
          var i := Index(t.datamap, s);
          var written := t.(entries := t.entries[i := e.(val := val)]);
          Outcome(written, written)
        else Outcome(WithValue(t, s, val), retained)
      else Outcome(Promoted(t, s, MergeTwo(f, e, Entry(key, val), level + 1), dies), retained)
    case Kid(c) =>
      var i := Index(t.nodemap, s);
      var below := PutImpl(f, c, key, val, level + 1, unique);
      var delta := below.result.size - c.size;
      if unique then
        var written := t.(children := t.children[i := below.result], size := t.size + delta);
        Outcome(written, written)
      else
        Outcome(WithChild(t, s, below.result, delta), t.(children := Retained(t.children)[i := below.source]))
    case Empty => Outcome(WithData(t, s, Entry(key, val), dies), retained)
  }

  function Put(f: Fragments, root: Option<Trie>, key: bv64, val: bv64, dies: bool): Trie
    requires root.Some? ==> Formed(root.value)
  {
    if root.None? then Node(1, NO_BITS[f(key, 0) := true], NO_BITS, 1, [Entry(key, val)], [])
    else PutImpl(f, root.value, key, val, 0, dies).result
  }
}
