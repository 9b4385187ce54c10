/**
 The streaming iterator over a trie (hamt_iter_push, hamt_iter_advance and the forEach
 loops): an explicit stack of at most fourteen frames that yields the recursive
 traversal one entry at a time.
*/
module HamtIterator {
  import opened Hamt
  import opened HamtContents
  import opened HamtTheorem
  import opened Sequences

  const MAX_DEPTH := 14

  datatype Frame = Frame(node: Trie, dataIdx: nat, childIdx: nat)

  ghost predicate InRange(f: Frame) {
    f.dataIdx <= |f.node.entries| && f.childIdx <= |f.node.children|
  }

  // The entries a frame has yet to yield, itself or through its children.
  ghost function FrameRest(f: Frame): seq<Entry>
    requires InRange(f)
  {
    f.node.entries[f.dataIdx..] + TraverseAll(f.node.children[f.childIdx..])
  }

  ghost predicate Ranged(frames: seq<Frame>) {
    forall i :: 0 <= i < |frames| ==> InRange(frames[i])
  }

  // The top of the stack is last.
  ghost function Rest(frames: seq<Frame>): seq<Entry>
    requires Ranged(frames)
  {
    if frames == [] then []
    else FrameRest(frames[|frames| - 1]) + Rest(frames[..|frames| - 1])
  }

  // The frame at position i holds a node of height at most MAX_DEPTH - i.
  ghost predicate Fits(frames: seq<Frame>) {
    |frames| <= MAX_DEPTH
    && forall i :: 0 <= i < |frames| ==> InRange(frames[i]) && Height(frames[i].node) <= MAX_DEPTH - i
  }

  function Nodes(t: Trie): nat
    decreases t
  {
    1 + NodesAll(t.children)
  }

  function NodesAll(ts: seq<Trie>): nat
    decreases ts
  {
    if ts == [] then 0 else Nodes(ts[0]) + NodesAll(ts[1..])
  }

  // Nodes not yet pushed, twice, plus the frames: what each iteration lowers.
  ghost function Work(frames: seq<Frame>): nat
    requires Ranged(frames)
  {
    if frames == [] then 0
    else var f := frames[|frames| - 1];
         2 * NodesAll(f.node.children[f.childIdx..]) + 1 + Work(frames[..|frames| - 1])
  }

  lemma Pushed(base: seq<Frame>, f: Frame)
    requires Ranged(base) && InRange(f)
    ensures Ranged(base + [f]) && Rest(base + [f]) == FrameRest(f) + Rest(base)
    ensures Work(base + [f]) == 2 * NodesAll(f.node.children[f.childIdx..]) + 1 + Work(base)
  {
    assert (base + [f])[..|base|] == base;
  }

  lemma {:induction false} ChildHeight(ts: seq<Trie>, i: nat)
    requires i < |ts|
    ensures Height(ts[i]) <= HeightAll(ts)
  {
    if i > 0 { ChildHeight(ts[1..], i - 1); }
  }

  // A frame that is done with its entries splits into its next child and the rest.
  lemma FrameSplits(f: Frame)
    requires f.dataIdx == |f.node.entries| && f.childIdx < |f.node.children|
    ensures var child := f.node.children[f.childIdx];
            var below := f.(childIdx := f.childIdx + 1);
            && FrameRest(f) == FrameRest(Frame(child, 0, 0)) + FrameRest(below)
            && NodesAll(f.node.children[f.childIdx..])
               == 1 + NodesAll(child.children[0..]) + NodesAll(f.node.children[f.childIdx + 1..])
  {
    var child := f.node.children[f.childIdx];
    var rest := f.node.children[f.childIdx + 1..];
    assert f.node.children[f.childIdx..] == [child] + rest;
    assert child.entries[0..] == child.entries && child.children[0..] == child.children;
    TraverseConcat([child], rest);
    TraverseOne(child);
    assert f.node.entries[f.dataIdx..] == [];
  }

  lemma FitsPush(base: seq<Frame>, f: Frame)
    requires Fits(base) && InRange(f) && |base| < MAX_DEPTH && Height(f.node) <= MAX_DEPTH - |base|
    ensures Fits(base + [f])
  {
  }

  lemma DescendFits(base: seq<Frame>, f: Frame)
    requires Fits(base + [f]) && f.dataIdx == |f.node.entries| && f.childIdx < |f.node.children|
    ensures var child := f.node.children[f.childIdx];
            |base| + 1 < MAX_DEPTH && Fits(base + [f.(childIdx := f.childIdx + 1)] + [Frame(child, 0, 0)])
  {
    var child := f.node.children[f.childIdx];
    var below := f.(childIdx := f.childIdx + 1);
    ChildHeight(f.node.children, f.childIdx);
    FitsTop(base, f);
    FitsPush(base, below);
    FitsPush(base + [below], Frame(child, 0, 0));
  }

  lemma DescendKeeps(base: seq<Frame>, f: Frame)
    requires Fits(base + [f]) && f.dataIdx == |f.node.entries| && f.childIdx < |f.node.children|
    ensures var child := f.node.children[f.childIdx];
            var after := base + [f.(childIdx := f.childIdx + 1)] + [Frame(child, 0, 0)];
            && |base| + 1 < MAX_DEPTH && Fits(after)
            && Rest(after) == Rest(base + [f]) && Work(after) < Work(base + [f])
  {
    var child := f.node.children[f.childIdx];
    var below := f.(childIdx := f.childIdx + 1);
    var top := Frame(child, 0, 0);
    DescendFits(base, f);
    FitsTop(base, f);
    Pushed(base, f);
    Pushed(base, below);
    Pushed(base + [below], top);
    FrameSplits(f);
    Regroup(FrameRest(top), FrameRest(below), Rest(base));
  }

  lemma FitsTop(base: seq<Frame>, f: Frame)
    requires Fits(base + [f])
    ensures Fits(base) && InRange(f) && |base| < MAX_DEPTH && Height(f.node) <= MAX_DEPTH - |base|
  {
    assert (base + [f])[|base|] == f;
    forall i | 0 <= i < |base| ensures (base + [f])[i] == base[i] {}
  }

  lemma YieldKeeps(base: seq<Frame>, f: Frame)
    requires Fits(base + [f]) && f.dataIdx < |f.node.entries|
    ensures var after := base + [f.(dataIdx := f.dataIdx + 1)];
            Fits(after) && Rest(base + [f]) == [f.node.entries[f.dataIdx]] + Rest(after)
  {
    FitsTop(base, f);
    Pushed(base, f);
    Pushed(base, f.(dataIdx := f.dataIdx + 1));
    assert f.node.entries[f.dataIdx..] == [f.node.entries[f.dataIdx]] + f.node.entries[f.dataIdx + 1..];
  }

  lemma PopKeeps(base: seq<Frame>, f: Frame)
    requires Fits(base + [f]) && f.dataIdx == |f.node.entries| && f.childIdx == |f.node.children|
    ensures Fits(base) && Rest(base + [f]) == Rest(base) && Work(base) < Work(base + [f])
  {
    FitsTop(base, f);
    Pushed(base, f);
    assert f.node.entries[f.dataIdx..] == [] && f.node.children[f.childIdx..] == [];
  }

  class Iterator {
    const stack: array<Frame>
    var depth: nat

    ghost predicate Valid()
      reads this, stack
    {
      stack.Length == MAX_DEPTH && depth <= MAX_DEPTH && Fits(stack[..depth])
    }

    // What Advance has yet to yield.
    ghost function Remaining(): seq<Entry>
      reads this, stack
      requires Valid()
    {
      Rest(stack[..depth])
    }

    constructor (root: Option<Trie>)
      requires root.Some? ==> Height(root.value) <= MAX_DEPTH
      ensures Valid() && fresh(stack)
      ensures Remaining() == if root.None? then [] else Traverse(root.value)
    {
      stack := new Frame[MAX_DEPTH];
      depth := 0;
      new;
      if root.Some? {
        Push(root.value);
        assert stack[..depth] == [] + [Frame(root.value, 0, 0)];
        Pushed([], Frame(root.value, 0, 0));
        assert root.value.entries[0..] == root.value.entries && root.value.children[0..] == root.value.children;
      }
    }

    // A full stack drops the node; see Advance for why that does not happen.
    method Push(node: Trie)
      requires stack.Length == MAX_DEPTH && depth <= MAX_DEPTH
      modifies this`depth, stack
      ensures old(depth) < MAX_DEPTH ==>
                depth == old(depth) + 1 && stack[..depth] == old(stack[..depth]) + [Frame(node, 0, 0)]
      ensures old(depth) == MAX_DEPTH ==> depth == old(depth) && stack[..] == old(stack[..])
    {
      if depth >= MAX_DEPTH { return; }
      stack[depth] := Frame(node, 0, 0);
      depth := depth + 1;
    }

    method Advance() returns (next: Option<Entry>)
      requires Valid()
      modifies this`depth, stack
      ensures Valid()
      ensures old(Remaining()) == [] ==> next == None && Remaining() == []
      ensures old(Remaining()) != [] ==> next == Some(old(Remaining())[0]) && Remaining() == old(Remaining())[1..]
    {
      ghost var all := Remaining();
      while depth > 0
        invariant Valid() && Remaining() == all
        decreases Work(stack[..depth])
      {
        var f := stack[depth - 1];
        if f.dataIdx < |f.node.entries| {
          YieldTop();
          return Some(f.node.entries[f.dataIdx]);
        }
        if f.childIdx < |f.node.children| {
          Descend();
        } else {
          ghost var base := stack[..depth - 1];
          assert stack[..depth] == base + [f];
          PopKeeps(base, f);
          depth := depth - 1;
        }
      }
      return None;
    }

    // Passes the next entry of the top frame.
    method YieldTop()
      requires Valid() && depth > 0 && stack[depth - 1].dataIdx < |stack[depth - 1].node.entries|
      modifies stack
      ensures Valid()
      ensures old(Remaining()) == [old(stack[depth - 1].node.entries[stack[depth - 1].dataIdx])] + Remaining()
    {
      ghost var base := stack[..depth - 1];
      var f := stack[depth - 1];
      assert stack[..depth] == base + [f];
      YieldKeeps(base, f);
      stack[depth - 1] := f.(dataIdx := f.dataIdx + 1);
      assert stack[..depth] == base + [f.(dataIdx := f.dataIdx + 1)];
    }

    // Goes down to the next child of the top frame.
    method Descend()
      requires Valid() && depth > 0 && stack[depth - 1].dataIdx == |stack[depth - 1].node.entries|
      requires stack[depth - 1].childIdx < |stack[depth - 1].node.children|
      modifies this`depth, stack
      ensures Valid() && Remaining() == old(Remaining()) && Work(stack[..depth]) < old(Work(stack[..depth]))
    {
      ghost var base := stack[..depth - 1];
      var f := stack[depth - 1];
      var below, child := f.(childIdx := f.childIdx + 1), f.node.children[f.childIdx];
      assert stack[..depth] == base + [f];
      DescendKeeps(base, f);
      stack[depth - 1] := below;
      assert stack[..depth] == base + [below];
      Push(child);
      assert stack[..depth] == base + [below] + [Frame(child, 0, 0)];
    }
  }

  lemma HeadMoves(calls: seq<Entry>, rest: seq<Entry>)
    requires rest != []
    ensures calls + rest == calls + [rest[0]] + rest[1..]
  {
  }

  // The forEach loops: the callback is called on each entry of the traversal in turn.
  method ForEach(root: Option<Trie>) returns (calls: seq<Entry>)
    requires root.Some? ==> Height(root.value) <= MAX_DEPTH
    ensures calls == if root.None? then [] else Traverse(root.value)
  {
    var st := new Iterator(root);
    calls := [];
    ghost var all := st.Remaining();
    while true
      invariant st.Valid() && fresh(st) && fresh(st.stack) && all == calls + st.Remaining()
      decreases |st.Remaining()|
    {
      ghost var rest := st.Remaining();
      var next := st.Advance();
      if next.None? { break; }
      HeadMoves(calls, rest);
      calls := calls + [next.value];
    }
  }
}
