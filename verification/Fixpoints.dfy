/**
 Two fixpoints of module compilation (src/Codegen.cpp, compile_module): which ADTs
 live on the heap, and which private functions travel with exported generic ones.
*/
module Fixpoints {

  // ---------------------------------------------------------------------
  // heap_adts
  // ---------------------------------------------------------------------

  datatype Name = Name(text: string)

  datatype Field = Field(isFunction: bool, typeName: string)

  datatype Adt = Adt(name: Name, constructors: seq<seq<Field>>)

  // The type name up to its first space.
  function UpToSpace(typeName: string): string {
    if typeName == "" || typeName[0] == ' ' then "" else [typeName[0]] + UpToSpace(typeName[1..])
  }

  function HeadOf(typeName: string): Name { Name(UpToSpace(typeName)) }

  ghost predicate HasFunctionField(a: Adt) {
    exists c, f :: c in a.constructors && f in c && f.isFunction
  }

  ghost predicate Mentions(a: Adt, name: Name) {
    exists c, f :: c in a.constructors && f in c && HeadOf(f.typeName) == name
  }

  // name has a function field, or mentions in n steps an ADT that has one.
  ghost predicate Reaches(adts: seq<Adt>, name: Name, n: nat)
    decreases n
  {
    exists a :: a in adts && a.name == name
                && if n == 0 then HasFunctionField(a)
                   else exists next :: Mentions(a, next) && Reaches(adts, next, n - 1)
  }

  ghost predicate OnHeap(adts: seq<Adt>, name: Name) {
    exists n: nat :: Reaches(adts, name, n)
  }

  // S holds every ADT with a function field and is closed under mention.
  ghost predicate Closed(adts: seq<Adt>, s: set<Name>) {
    forall a :: a in adts ==> (HasFunctionField(a) || MentionsAny(a, s) ==> a.name in s)
  }

  ghost predicate MentionsAny(a: Adt, s: set<Name>) {
    exists name :: name in s && Mentions(a, name)
  }

  lemma MentionReaches(adts: seq<Adt>, a: Adt, s: set<Name>)
    requires a in adts && MentionsAny(a, s) && forall x :: x in s ==> OnHeap(adts, x)
    ensures OnHeap(adts, a.name)
  {
    var next :| next in s && Mentions(a, next);
    var n: nat :| Reaches(adts, next, n);
    assert Reaches(adts, a.name, n + 1);
  }

  lemma {:induction false} ClosedHolds(adts: seq<Adt>, s: set<Name>, name: Name, n: nat)
    requires Closed(adts, s) && Reaches(adts, name, n)
    ensures name in s
    decreases n
  {
    if n > 0 {
      var a :| a in adts && a.name == name && exists next :: Mentions(a, next) && Reaches(adts, next, n - 1);
      var next :| Mentions(a, next) && Reaches(adts, next, n - 1);
      ClosedHolds(adts, s, next, n - 1);
      assert MentionsAny(a, s);
    } else {
      var a :| a in adts && a.name == name && HasFunctionField(a);
    }
  }

  // The set is the least closed one.
  lemma LeastClosed(adts: seq<Adt>, s: set<Name>, name: Name)
    requires Closed(adts, s) && OnHeap(adts, name)
    ensures name in s
  {
    var n: nat :| Reaches(adts, name, n);
    ClosedHolds(adts, s, name, n);
  }

  // It depends on which ADTs are declared, not on their order.
  lemma {:induction false} OrderIrrelevant(adts: seq<Adt>, other: seq<Adt>, name: Name, n: nat)
    requires forall a :: a in adts ==> a in other
    requires Reaches(adts, name, n)
    ensures Reaches(other, name, n)
    decreases n
  {
    if n == 0 {
      var a :| a in adts && a.name == name && HasFunctionField(a);
      assert a in other;
    } else {
      var a :| a in adts && a.name == name && exists next :: Mentions(a, next) && Reaches(adts, next, n - 1);
      var next :| Mentions(a, next) && Reaches(adts, next, n - 1);
      OrderIrrelevant(adts, other, next, n - 1);
      assert a in other;
    }
  }

  lemma SameDeclarationsSameSet(adts: seq<Adt>, other: seq<Adt>, name: Name)
    requires forall a :: a in adts <==> a in other
    ensures OnHeap(adts, name) <==> OnHeap(other, name)
  {
    if OnHeap(adts, name) {
      var n: nat :| Reaches(adts, name, n);
      OrderIrrelevant(adts, other, name, n);
    }
    if OnHeap(other, name) {
      var n: nat :| Reaches(other, name, n);
      OrderIrrelevant(other, adts, name, n);
    }
  }

  method FindFunctionField(a: Adt) returns (found: bool)
    ensures found == HasFunctionField(a)
  {
    for c := 0 to |a.constructors|
      invariant forall k, f :: 0 <= k < c && f in a.constructors[k] ==> !f.isFunction
    {
      for i := 0 to |a.constructors[c]|
        invariant forall k :: 0 <= k < i ==> !a.constructors[c][k].isFunction
      {
        if a.constructors[c][i].isFunction {
          assert a.constructors[c] in a.constructors && a.constructors[c][i] in a.constructors[c];
          return true;
        }
      }
    }
    return false;
  }

  method FindMention(a: Adt, heap: set<Name>) returns (found: bool)
    ensures found == MentionsAny(a, heap)
  {
    for c := 0 to |a.constructors|
      invariant forall k, f :: 0 <= k < c && f in a.constructors[k] ==> HeadOf(f.typeName) !in heap
    {
      for i := 0 to |a.constructors[c]|
        invariant forall k :: 0 <= k < i ==> HeadOf(a.constructors[c][k].typeName) !in heap
      {
        if HeadOf(a.constructors[c][i].typeName) in heap {
          assert a.constructors[c] in a.constructors && a.constructors[c][i] in a.constructors[c];
          assert Mentions(a, HeadOf(a.constructors[c][i].typeName));
          return true;
        }
      }
    }
    return false;
  }

  ghost function Names(adts: seq<Adt>): set<Name> { set a | a in adts :: a.name }

  // What the set contains so far is justified and includes the first ADTs found.
  ghost predicate Partial(adts: seq<Adt>, heap: set<Name>) {
    heap <= Names(adts) && forall x :: x in heap ==> OnHeap(adts, x)
  }

  lemma AddSeed(adts: seq<Adt>, heap: set<Name>, a: Adt)
    requires Partial(adts, heap) && a in adts && HasFunctionField(a)
    ensures Partial(adts, heap + {a.name})
  {
    assert Reaches(adts, a.name, 0);
  }

  lemma AddMention(adts: seq<Adt>, heap: set<Name>, a: Adt)
    requires Partial(adts, heap) && a in adts && MentionsAny(a, heap)
    ensures Partial(adts, heap + {a.name})
  {
    MentionReaches(adts, a, heap);
  }

  // One pass over the declarations; additions are seen by later declarations.
  method Pass(adts: seq<Adt>, start: set<Name>) returns (heap: set<Name>, changed: bool)
    requires Partial(adts, start)
    ensures Partial(adts, heap) && start <= heap && (changed <==> start != heap)
    ensures !changed ==> forall a :: a in adts && MentionsAny(a, heap) ==> a.name in heap
  {
    heap, changed := start, false;
    for i := 0 to |adts|
      invariant Partial(adts, heap) && start <= heap && (changed <==> start != heap)
      invariant !changed ==> forall k :: 0 <= k < i && MentionsAny(adts[k], heap) ==> adts[k].name in heap
    {
      if adts[i].name !in heap {
        var found := FindMention(adts[i], heap);
        if found {
          AddMention(adts, heap, adts[i]);
          heap := heap + {adts[i].name};
          changed := true;
        }
      }
    }
  }

  method HeapAdts(adts: seq<Adt>) returns (heap: set<Name>)
    ensures forall name :: name in heap <==> OnHeap(adts, name)
    ensures Closed(adts, heap)
  {
    heap := {};
    for i := 0 to |adts|
      invariant Partial(adts, heap)
      invariant forall k :: 0 <= k < i && HasFunctionField(adts[k]) ==> adts[k].name in heap
    {
      var found := FindFunctionField(adts[i]);
      if found {
        AddSeed(adts, heap, adts[i]);
        heap := heap + {adts[i].name};
      }
    }
    ghost var seeds := heap;
    var changed := true;
    while changed
      invariant Partial(adts, heap) && seeds <= heap
      invariant !changed ==> forall a :: a in adts && MentionsAny(a, heap) ==> a.name in heap
      decreases |Names(adts) - heap|, if changed then 1 else 0
    {
      ghost var before := heap;
      heap, changed := Pass(adts, heap);
      if changed { Shrinks(Names(adts), before, heap); }
    }
    assert Closed(adts, heap);
    forall name | OnHeap(adts, name) ensures name in heap { LeastClosed(adts, heap, name); }
  }

  lemma Shrinks(all: set<Name>, before: set<Name>, after: set<Name>)
    requires before < after <= all
    ensures |all - after| < |all - before|
  {
    var x :| x in after && x !in before;
    assert all - after <= (all - before) - {x};
    Smaller(all - after, (all - before) - {x});
  }

  lemma {:induction false} Smaller<T>(a: set<T>, b: set<T>)
    requires a <= b
    ensures |a| <= |b|
  {
    if a != {} {
      var x :| x in a;
      Smaller(a - {x}, b - {x});
    }
  }

  // ---------------------------------------------------------------------
  // Private functions that exported generic ones need
  // ---------------------------------------------------------------------

  // `free` are the free names of the first unguarded body, in some order.
  datatype Fn = Fn(name: Name, sourced: bool, free: seq<Name>)

  // module_fns: the last declaration of a name counts.
  function Declared(fns: seq<Fn>, n: nat): (m: map<Name, Fn>)
    requires n <= |fns|
    ensures forall name :: name in m <==> exists k :: 0 <= k < n && fns[k].name == name
    ensures forall name :: name in m ==> m[name].name == name
  {
    if n == 0 then map[] else Declared(fns, n - 1)[fns[n - 1].name := fns[n - 1]]
  }

  // caller's body drags in the private function name.
  predicate Drags(m: map<Name, Fn>, exports: set<Name>, caller: Name, name: Name) {
    && caller in m && name in m[caller].free
    && name in m && name !in exports && m[name].sourced
  }

  ghost predicate Emitted(m: map<Name, Fn>, exports: set<Name>, name: Name, n: nat)
    decreases n
  {
    if n == 0 then name in m && name in exports
    else exists caller :: Drags(m, exports, caller, name) && Emitted(m, exports, caller, n - 1)
  }

  ghost predicate Needed(m: map<Name, Fn>, exports: set<Name>, name: Name) {
    exists n: nat :: Emitted(m, exports, name, n)
  }

  // Reached from an exported function through at least one drag.
  ghost predicate PrivateNeeded(m: map<Name, Fn>, exports: set<Name>, name: Name) {
    exists caller :: Needed(m, exports, caller) && Drags(m, exports, caller, name)
  }

  lemma DragNeeded(m: map<Name, Fn>, exports: set<Name>, caller: Name, name: Name)
    requires Needed(m, exports, caller) && Drags(m, exports, caller, name)
    ensures Needed(m, exports, name) && PrivateNeeded(m, exports, name)
  {
    var n: nat :| Emitted(m, exports, caller, n);
    assert Emitted(m, exports, name, n + 1);
  }

  lemma {:induction false} ClosedVisits(m: map<Name, Fn>, exports: set<Name>, visited: set<Name>, name: Name, n: nat)
    requires forall x :: x in m && x in exports ==> x in visited
    requires forall x, y :: x in visited && Drags(m, exports, x, y) ==> y in visited
    requires Emitted(m, exports, name, n)
    ensures name in visited
    decreases n
  {
    if n > 0 {
      var caller :| Drags(m, exports, caller, name) && Emitted(m, exports, caller, n - 1);
      ClosedVisits(m, exports, visited, caller, n - 1);
    }
  }

  ghost predicate InWork(work: seq<Fn>, name: Name) { exists k :: 0 <= k < |work| && work[k].name == name }

  // Above or at entry i lies the last declaration of its name.
  ghost predicate Covered(m: map<Name, Fn>, work: seq<Fn>, i: nat)
    requires i < |work|
  {
    work[i].name in m && exists j :: i <= j < |work| && work[j] == m[work[i].name]
  }

  lemma CoveredPush(m: map<Name, Fn>, work: seq<Fn>, f: Fn, i: nat)
    requires i < |work| && Covered(m, work, i)
    ensures Covered(m, work + [f], i)
  {
    var j :| i <= j < |work| && work[j] == m[work[i].name];
    assert (work + [f])[j] == m[work[i].name];
  }

  // Each exported name waits, its last declaration topmost.
  ghost predicate Waiting(m: map<Name, Fn>, exports: set<Name>, work: seq<Fn>) {
    && (forall k :: 0 <= k < |work| ==> work[k].name in exports && Covered(m, work, k))
    && (forall x :: x in m && x in exports ==> InWork(work, x))
  }

  method Exported(fns: seq<Fn>, exports: set<Name>) returns (work: seq<Fn>)
    ensures Waiting(Declared(fns, |fns|), exports, work)
  {
    work := [];
    for i := 0 to |fns|
      invariant Waiting(Declared(fns, i), exports, work)
    {
      NextDeclared(Declared(fns, i), exports, work, fns[i]);
      if fns[i].name in exports { work := work + [fns[i]]; }
    }
  }

  lemma NextDeclared(m: map<Name, Fn>, exports: set<Name>, work: seq<Fn>, f: Fn)
    requires Waiting(m, exports, work)
    ensures f.name in exports ==> Waiting(m[f.name := f], exports, work + [f])
    ensures f.name !in exports ==> Waiting(m[f.name := f], exports, work)
  {
    var m' := m[f.name := f];
    if f.name !in exports {
      forall k | 0 <= k < |work| ensures Covered(m', work, k) {
        assert Covered(m, work, k);
      }
      return;
    }
    InWorkPush(work, f);
    var work' := work + [f];
    forall k | 0 <= k < |work'| ensures work'[k].name in exports && Covered(m', work', k) {
      if work'[k].name == f.name {
        assert work'[|work|] == m'[work'[k].name];
      } else {
        CoveredPush(m, work, f, k);
        CoveredUpdate(m, work', f, k);
      }
    }
  }

  lemma CoveredUpdate(m: map<Name, Fn>, work: seq<Fn>, f: Fn, i: nat)
    requires i < |work| && Covered(m, work, i) && work[i].name != f.name
    ensures Covered(m[f.name := f], work, i)
  {
  }

  // The loop over the free names of one function.
  method DragIn(m: map<Name, Fn>, exports: set<Name>, f: Fn, private: set<Name>, work: seq<Fn>)
    returns (private': set<Name>, work': seq<Fn>)
    requires f.name in m && m[f.name] == f && forall x :: x in m ==> m[x].name == x
    ensures work <= work' && forall k :: |work| <= k < |work'| ==>
              work'[k].name in m && work'[k] == m[work'[k].name] && Drags(m, exports, f.name, work'[k].name)
    ensures forall y :: Drags(m, exports, f.name, y) ==> y in private' && InWork(work', y)
    ensures forall y :: y in private' <==> y in private || Drags(m, exports, f.name, y)
  {
    private', work' := private, work;
    for i := 0 to |f.free|
      invariant work <= work' && forall k :: |work| <= k < |work'| ==>
                  work'[k].name in m && work'[k] == m[work'[k].name] && Drags(m, exports, f.name, work'[k].name)
      invariant forall l :: 0 <= l < i && Drags(m, exports, f.name, f.free[l]) ==>
                  f.free[l] in private' && InWork(work', f.free[l])
      invariant forall y :: y in private' ==> y in private || Drags(m, exports, f.name, y)
      invariant private <= private'
    {
      var fv := f.free[i];
      if fv in m && fv !in exports && m[fv].sourced {
        private' := private' + {fv};
        InWorkPush(work', m[fv]);
        work' := work' + [m[fv]];
      }
    }
  }

  lemma InWorkPush(work: seq<Fn>, f: Fn)
    ensures InWork(work + [f], f.name)
    ensures forall x :: InWork(work, x) ==> InWork(work + [f], x)
  {
    assert (work + [f])[|work|] == f;
    forall x | InWork(work, x) ensures InWork(work + [f], x) {
      var k :| 0 <= k < |work| && work[k].name == x;
      assert (work + [f])[k].name == x;
    }
  }

  // For a name not yet visited, the topmost entry is its last declaration.
  ghost predicate LastWins(m: map<Name, Fn>, work: seq<Fn>, visited: set<Name>) {
    forall i :: 0 <= i < |work| ==> work[i].name in m && (work[i].name in visited || Covered(m, work, i))
  }

  lemma LastWinsPop(m: map<Name, Fn>, work: seq<Fn>, visited: set<Name>)
    requires LastWins(m, work, visited) && work != [] && forall x :: x in m ==> m[x].name == x
    ensures var top := work[|work| - 1];
            && top.name in m && (top.name !in visited ==> top == m[top.name])
            && LastWins(m, work[..|work| - 1], visited + {top.name})
  {
    var n := |work| - 1;
    var rest := work[..n];
    assert work[n].name !in visited ==> Covered(m, work, n);
    forall i | 0 <= i < n
      ensures rest[i].name in m && (rest[i].name in visited + {work[n].name} || Covered(m, rest, i))
    {
      assert rest[i] == work[i];
      if work[i].name !in visited + {work[n].name} {
        assert Covered(m, work, i);
        var j :| i <= j < |work| && work[j] == m[work[i].name];
        assert m[work[i].name].name == work[i].name;
        assert rest[j] == m[rest[i].name];
      }
    }
  }

  lemma LastWinsPush(m: map<Name, Fn>, work: seq<Fn>, work': seq<Fn>, visited: set<Name>)
    requires LastWins(m, work, visited) && work <= work'
    requires forall k :: |work| <= k < |work'| ==> work'[k].name in m && work'[k] == m[work'[k].name]
    ensures LastWins(m, work', visited)
  {
    forall i | 0 <= i < |work'|
      ensures work'[i].name in m && (work'[i].name in visited || Covered(m, work', i))
    {
      if i < |work| && work'[i].name !in visited {
        assert Covered(m, work, i);
        var j :| i <= j < |work| && work[j] == m[work[i].name];
        assert work'[j] == m[work'[i].name];
      }
    }
  }

  // Every needed name is visited or waiting, and whatever a visited function
  // drags in is recorded.
  ghost predicate Complete(m: map<Name, Fn>, exports: set<Name>, work: seq<Fn>, visited: set<Name>,
                           private: set<Name>) {
    && (forall x :: x in m && x in exports ==> x in visited || InWork(work, x))
    && (forall x, y :: x in visited && Drags(m, exports, x, y) ==> y in private && (y in visited || InWork(work, y)))
  }

  ghost predicate Sound(m: map<Name, Fn>, exports: set<Name>, work: seq<Fn>, visited: set<Name>, private: set<Name>) {
    && (forall k :: 0 <= k < |work| ==> Needed(m, exports, work[k].name))
    && (forall x :: x in visited ==> x in m && Needed(m, exports, x))
    && (forall x :: x in private ==> PrivateNeeded(m, exports, x))
  }

  lemma PopComplete(m: map<Name, Fn>, exports: set<Name>, work: seq<Fn>, visited: set<Name>, private: set<Name>,
                    work': seq<Fn>, private': set<Name>)
    requires Complete(m, exports, work, visited, private) && work != []
    requires work[..|work| - 1] <= work' && private <= private'
    requires forall y :: Drags(m, exports, work[|work| - 1].name, y) ==> y in private' && InWork(work', y)
    ensures Complete(m, exports, work', visited + {work[|work| - 1].name}, private')
  {
    var n := |work| - 1;
    forall x | InWork(work, x) ensures x == work[n].name || InWork(work', x) {
      var k :| 0 <= k < |work| && work[k].name == x;
      assert k < n ==> work'[k].name == x;
    }
  }

  ghost predicate Ready(m: map<Name, Fn>, exports: set<Name>, work: seq<Fn>, visited: set<Name>, private: set<Name>) {
    && visited <= m.Keys
    && LastWins(m, work, visited)
    && Complete(m, exports, work, visited, private)
    && Sound(m, exports, work, visited, private)
  }

  lemma ReadyAtStart(m: map<Name, Fn>, exports: set<Name>, work: seq<Fn>)
    requires Waiting(m, exports, work)
    ensures Ready(m, exports, work, {}, {})
  {
    forall k | 0 <= k < |work| ensures Needed(m, exports, work[k].name) {
      assert Covered(m, work, k) && Emitted(m, exports, work[k].name, 0);
    }
  }

  lemma ReadyAtEnd(m: map<Name, Fn>, exports: set<Name>, visited: set<Name>, private: set<Name>, name: Name)
    requires Ready(m, exports, [], visited, private)
    ensures name in private <==> PrivateNeeded(m, exports, name)
  {
    if PrivateNeeded(m, exports, name) {
      var caller :| Needed(m, exports, caller) && Drags(m, exports, caller, name);
      var n: nat :| Emitted(m, exports, caller, n);
      ClosedVisits(m, exports, visited, caller, n);
    }
  }

  // One iteration of the worklist loop.
  method Visit(m: map<Name, Fn>, exports: set<Name>, work: seq<Fn>, visited: set<Name>, private: set<Name>)
    returns (work': seq<Fn>, visited': set<Name>, private': set<Name>)
    requires Ready(m, exports, work, visited, private) && work != [] && forall x :: x in m ==> m[x].name == x
    ensures Ready(m, exports, work', visited', private')
    ensures |m.Keys - visited'| < |m.Keys - visited| || (visited' == visited && |work'| < |work|)
  {
    var top, rest := work[|work| - 1], work[..|work| - 1];
    LastWinsPop(m, work, visited);
    if top.name in visited {
      assert visited + {top.name} == visited;
      SkipComplete(m, exports, work, visited, private);
      return rest, visited, private;
    }
    visited' := visited + {top.name};
    private', work' := DragIn(m, exports, top, private, rest);
    LastWinsPush(m, rest, work', visited');
    PopComplete(m, exports, work, visited, private, work', private');
    PopSound(m, exports, work, visited, private, work', private');
    Shrinks(m.Keys, visited, visited');
  }

  method PrivateGenfns(fns: seq<Fn>, exports: set<Name>) returns (private: set<Name>)
    ensures forall name :: name in private <==> PrivateNeeded(Declared(fns, |fns|), exports, name)
  {
    var m := Declared(fns, |fns|);
    var work := Exported(fns, exports);
    var visited: set<Name> := {};
    private := {};
    ReadyAtStart(m, exports, work);
    while work != []
      invariant Ready(m, exports, work, visited, private)
      decreases |m.Keys - visited|, |work|
    {
      work, visited, private := Visit(m, exports, work, visited, private);
    }
    forall name ensures name in private <==> PrivateNeeded(m, exports, name) {
      ReadyAtEnd(m, exports, visited, private, name);
    }
  }

  lemma SkipComplete(m: map<Name, Fn>, exports: set<Name>, work: seq<Fn>, visited: set<Name>, private: set<Name>)
    requires Complete(m, exports, work, visited, private) && work != [] && work[|work| - 1].name in visited
    ensures Complete(m, exports, work[..|work| - 1], visited, private)
  {
    var n := |work| - 1;
    forall x | InWork(work, x) ensures x in visited || InWork(work[..n], x) {
      var k :| 0 <= k < |work| && work[k].name == x;
      assert k < n ==> work[..n][k].name == x;
    }
  }

  lemma PopSound(m: map<Name, Fn>, exports: set<Name>, work: seq<Fn>, visited: set<Name>, private: set<Name>,
                 work': seq<Fn>, private': set<Name>)
    requires Sound(m, exports, work, visited, private) && work != [] && work[|work| - 1].name in m
    requires work[..|work| - 1] <= work'
    requires forall k :: |work| - 1 <= k < |work'| ==> Drags(m, exports, work[|work| - 1].name, work'[k].name)
    requires forall y :: y in private' ==> y in private || Drags(m, exports, work[|work| - 1].name, y)
    ensures Sound(m, exports, work', visited + {work[|work| - 1].name}, private')
  {
    var n := |work| - 1;
    forall k | 0 <= k < |work'| ensures Needed(m, exports, work'[k].name) {
      if k < n { assert work'[k] == work[k]; } else { DragNeeded(m, exports, work[n].name, work'[k].name); }
    }
    forall y | y in private' ensures PrivateNeeded(m, exports, y) {
      if y !in private { DragNeeded(m, exports, work[n].name, y); }
    }
  }
}
