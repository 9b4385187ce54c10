/**
 "Did you mean": the rolling-row edit distance and the search over known names
 (src/Codegen.cpp, suggest_similar).
*/
module EditDistance {

  function Min(x: int, y: int): int { if x < y then x else y }

  // The distance between the first i characters of a and the first j of b.
  function Dist(a: string, b: string, i: nat, j: nat): (d: nat)
    requires i <= |a| && j <= |b|
    decreases i + j
  {
    if i == 0 then j
    else if j == 0 then i
    else Cell(Dist(a, b, i - 1, j), Dist(a, b, i, j - 1), Dist(a, b, i - 1, j - 1), a[i - 1] != b[j - 1])
  }

  function Cell(up: nat, left: nat, diagonal: nat, differ: bool): nat {
    Min(Min(up + 1, left + 1), diagonal + if differ then 1 else 0)
  }

  lemma DistCell(a: string, b: string, i: nat, j: nat)
    requires 0 < i <= |a| && 0 < j <= |b|
    ensures Dist(a, b, i, j)
            == Cell(Dist(a, b, i - 1, j), Dist(a, b, i, j - 1), Dist(a, b, i - 1, j - 1), a[i - 1] != b[j - 1])
  {
  }

  function Lev(a: string, b: string): nat { Dist(a, b, |a|, |b|) }

  // The source's single row, overwritten in place.
  method EditDistance(a: string, b: string) returns (d: nat)
    ensures d == Lev(a, b)
  {
    var m, n := |a|, |b|;
    var dp := new nat[n + 1];
    for j := 0 to n + 1
      invariant forall k :: 0 <= k < j ==> dp[k] == k
    {
      dp[j] := j;
    }
    for i := 1 to m + 1
      invariant forall k {:trigger dp[k]} :: 0 <= k <= n ==> dp[k] == Dist(a, b, i - 1, k)
    {
      NextRow(a, b, i, dp);
    }
    return dp[n];
  }

  // Row i in place of the row before it.
  method NextRow(a: string, b: string, i: nat, dp: array<nat>)
    requires 0 < i <= |a| && dp.Length == |b| + 1
    requires forall k {:trigger dp[k]} :: 0 <= k <= |b| ==> dp[k] == Dist(a, b, i - 1, k)
    modifies dp
    ensures forall k {:trigger dp[k]} :: 0 <= k <= |b| ==> dp[k] == Dist(a, b, i, k)
  {
    var prev := dp[0];
    dp[0] := i;
    for j := 1 to |b| + 1
      invariant prev == Dist(a, b, i - 1, j - 1)
      invariant forall k {:trigger dp[k]} :: 0 <= k < j ==> dp[k] == Dist(a, b, i, k)
      invariant forall k {:trigger dp[k]} :: j <= k <= |b| ==> dp[k] == Dist(a, b, i - 1, k)
    {
      var tmp := dp[j];
      DistCell(a, b, i, j);
      dp[j] := Min(Min(dp[j] + 1, dp[j - 1] + 1), prev + if a[i - 1] != b[j - 1] then 1 else 0);
      prev := tmp;
    }
  }

  // ---------------------------------------------------------------------
  // It is a metric
  // ---------------------------------------------------------------------

  lemma {:induction false} Symmetric(a: string, b: string, i: nat, j: nat)
    requires i <= |a| && j <= |b|
    ensures Dist(a, b, i, j) == Dist(b, a, j, i)
    decreases i + j
  {
    if i > 0 && j > 0 {
      Symmetric(a, b, i - 1, j);
      Symmetric(a, b, i, j - 1);
      Symmetric(a, b, i - 1, j - 1);
    }
  }

  lemma {:induction false} ZeroIffEqual(a: string, b: string, i: nat, j: nat)
    requires i <= |a| && j <= |b|
    ensures Dist(a, b, i, j) == 0 <==> i == j && forall k :: 0 <= k < i ==> a[k] == b[k]
    decreases i + j
  {
    if i > 0 && j > 0 { ZeroIffEqual(a, b, i - 1, j - 1); }
  }

  // Each way to reach (i, j) bounds its distance, and one of them attains it.
  lemma Upper(a: string, b: string, i: nat, j: nat)
    requires i <= |a| && j <= |b|
    ensures i > 0 ==> Dist(a, b, i, j) <= Dist(a, b, i - 1, j) + 1
    ensures j > 0 ==> Dist(a, b, i, j) <= Dist(a, b, i, j - 1) + 1
    ensures i > 0 && j > 0 ==> Dist(a, b, i, j) <= Dist(a, b, i - 1, j - 1) + Differ(a, b, i, j)
  {
  }

  datatype Way = Delete | Insert | Replace

  lemma FindWay(a: string, b: string, i: nat, j: nat) returns (w: Way)
    requires i <= |a| && j <= |b| && i + j > 0
    ensures w.Delete? ==> i > 0 && Dist(a, b, i, j) == Dist(a, b, i - 1, j) + 1
    ensures w.Insert? ==> j > 0 && Dist(a, b, i, j) == Dist(a, b, i, j - 1) + 1
    ensures w.Replace? ==> i > 0 && j > 0 && Dist(a, b, i, j) == Dist(a, b, i - 1, j - 1) + Differ(a, b, i, j)
  {
    w := if i > 0 && Dist(a, b, i, j) == Dist(a, b, i - 1, j) + 1 then Delete
         else if j > 0 && Dist(a, b, i, j) == Dist(a, b, i, j - 1) + 1 then Insert
         else Replace;
  }

  function Differ(a: string, b: string, i: nat, j: nat): nat
    requires 0 < i <= |a| && 0 < j <= |b|
  {
    if a[i - 1] != b[j - 1] then 1 else 0
  }

  lemma DifferTwice(a: string, b: string, c: string, i: nat, j: nat, k: nat)
    requires 0 < i <= |a| && 0 < j <= |b| && 0 < k <= |c|
    ensures Differ(a, c, i, k) <= Differ(a, b, i, j) + Differ(b, c, j, k)
  {
  }

  lemma {:induction false} AtMostBoth(a: string, b: string, i: nat, j: nat)
    requires i <= |a| && j <= |b|
    ensures Dist(a, b, i, j) <= i + j
    decreases i
  {
    if i > 0 {
      AtMostBoth(a, b, i - 1, j);
      Upper(a, b, i, j);
    }
  }

  lemma {:induction false} Triangle(a: string, b: string, c: string, i: nat, j: nat, k: nat)
    requires i <= |a| && j <= |b| && k <= |c|
    ensures Dist(a, c, i, k) <= Dist(a, b, i, j) + Dist(b, c, j, k)
    decreases i + j + k
  {
    if j == 0 {
      AtMostBoth(a, c, i, k);
      return;
    }
    var v := FindWay(a, b, i, j);
    var w := FindWay(b, c, j, k);
    Upper(a, c, i, k);
    if v.Delete? {
      Triangle(a, b, c, i - 1, j, k);
    } else if w.Insert? {
      Triangle(a, b, c, i, j, k - 1);
    } else {
      var i', k' := if v.Insert? then i else i - 1, if w.Delete? then k else k - 1;
      Triangle(a, b, c, i', j - 1, k');
      Together(a, b, c, i, j, k, v, w);
    }
  }

  // Both distances pass the last character of b: one step on either side.
  lemma Together(a: string, b: string, c: string, i: nat, j: nat, k: nat, v: Way, w: Way)
    requires i <= |a| && 0 < j <= |b| && k <= |c| && !v.Delete? && !w.Insert?
    requires v.Insert? ==> Dist(a, b, i, j) == Dist(a, b, i, j - 1) + 1
    requires v.Replace? ==> i > 0 && Dist(a, b, i, j) == Dist(a, b, i - 1, j - 1) + Differ(a, b, i, j)
    requires w.Delete? ==> Dist(b, c, j, k) == Dist(b, c, j - 1, k) + 1
    requires w.Replace? ==> k > 0 && Dist(b, c, j, k) == Dist(b, c, j - 1, k - 1) + Differ(b, c, j, k)
    requires var i', k' := if v.Insert? then i else i - 1, if w.Delete? then k else k - 1;
             Dist(a, c, i', k') <= Dist(a, b, i', j - 1) + Dist(b, c, j - 1, k')
    ensures Dist(a, c, i, k) <= Dist(a, b, i, j) + Dist(b, c, j, k)
  {
    Upper(a, c, i, k);
    if v.Replace? && w.Replace? { DifferTwice(a, b, c, i, j, k); }
  }

  lemma Metric(a: string, b: string, c: string)
    ensures Lev(a, b) == Lev(b, a)
    ensures Lev(a, b) == 0 <==> a == b
    ensures Lev(a, c) <= Lev(a, b) + Lev(b, c)
  {
    Symmetric(a, b, |a|, |b|);
    ZeroIffEqual(a, b, |a|, |b|);
    Triangle(a, b, c, |a|, |b|, |c|);
  }

  // ---------------------------------------------------------------------
  // It is the length of a shortest edit script
  // ---------------------------------------------------------------------

  ghost predicate Deletes(s: string, t: string, k: nat) {
    k < |s| && t == s[..k] + s[k + 1..]
  }

  ghost predicate Substitutes(s: string, t: string, k: nat) {
    k < |s| == |t| && t == s[k := t[k]]
  }

  // t is s after one insertion, deletion or substitution.
  ghost predicate OneEdit(s: string, t: string) {
    exists k :: Deletes(s, t, k) || Deletes(t, s, k) || Substitutes(s, t, k)
  }

  ghost predicate Script(s: string, t: string, n: nat)
    decreases n
  {
    if n == 0 then s == t else exists u :: OneEdit(s, u) && Script(u, t, n - 1)
  }

  // Equal fronts, and from k on b lags a by one character.
  lemma {:induction false} DeletionCost(a: string, b: string, k: nat, i: nat)
    requires Deletes(a, b, k) && i <= |b|
    ensures i <= k ==> Dist(a, b, i, i) == 0
    ensures i >= k ==> Dist(a, b, i + 1, i) <= 1
    decreases i
  {
    if i > 0 {
      DeletionCost(a, b, k, i - 1);
      assert i > k ==> a[i] == b[i - 1];
    }
  }

  lemma {:induction false} SubstitutionCost(a: string, b: string, k: nat, i: nat)
    requires Substitutes(a, b, k) && i <= |a|
    ensures Dist(a, b, i, i) <= if i <= k then 0 else 1
  {
    if i > 0 {
      SubstitutionCost(a, b, k, i - 1);
      assert i - 1 != k ==> a[i - 1] == b[i - 1];
    }
  }

  lemma DeleteCost(s: string, t: string, k: nat)
    requires Deletes(s, t, k)
    ensures Lev(s, t) <= 1 && Lev(t, s) <= 1
  {
    assert |s| == |t| + 1;
    DeletionCost(s, t, k, |t|);
    Symmetric(s, t, |s|, |t|);
  }

  lemma OneEditCost(s: string, t: string)
    requires OneEdit(s, t)
    ensures Lev(s, t) <= 1
  {
    var k :| Deletes(s, t, k) || Deletes(t, s, k) || Substitutes(s, t, k);
    if Deletes(s, t, k) {
      DeleteCost(s, t, k);
    } else if Deletes(t, s, k) {
      DeleteCost(t, s, k);
    } else {
      SubstitutionCost(s, t, k, |s|);
    }
  }

  lemma {:induction false} ScriptCost(s: string, t: string, n: nat)
    requires Script(s, t, n)
    ensures Lev(s, t) <= n
    decreases n
  {
    if n == 0 {
      Metric(s, t, t);
    } else {
      var u :| OneEdit(s, u) && Script(u, t, n - 1);
      OneEditCost(s, u);
      ScriptCost(u, t, n - 1);
      Metric(s, u, t);
    }
  }

  // The first i characters of a can be turned into the first j of b, in front
  // of any rest, in n steps.
  ghost predicate Turns(a: string, b: string, i: nat, j: nat, rest: string, n: nat)
    requires i <= |a| && j <= |b|
  {
    Script(a[..i] + rest, b[..j] + rest, n)
  }

  // Dist steps are enough.
  lemma {:induction false} BuildScript(a: string, b: string, i: nat, j: nat, rest: string)
    requires i <= |a| && j <= |b|
    ensures Turns(a, b, i, j, rest, Dist(a, b, i, j))
    decreases i + j
  {
    if i == 0 && j == 0 {
      NothingToTurn(a, b, rest);
      return;
    }
    var w := FindWay(a, b, i, j);
    match w
    case Delete =>
      BuildScript(a, b, i - 1, j, rest);
      LastDelete(a, b, i, j, rest, Dist(a, b, i - 1, j));
    case Insert =>
      BuildScript(a, b, i, j - 1, [b[j - 1]] + rest);
      LastInsert(a, b, i, j, rest, Dist(a, b, i, j - 1));
    case Replace =>
      BuildScript(a, b, i - 1, j - 1, [b[j - 1]] + rest);
      LastReplace(a, b, i, j, rest, Dist(a, b, i - 1, j - 1));
  }

  lemma NothingToTurn(a: string, b: string, rest: string)
    ensures Turns(a, b, 0, 0, rest, 0)
  {
    assert a[..0] + rest == rest == b[..0] + rest;
  }

  lemma LastDelete(a: string, b: string, i: nat, j: nat, rest: string, n: nat)
    requires 0 < i <= |a| && j <= |b| && Turns(a, b, i - 1, j, rest, n)
    ensures Turns(a, b, i, j, rest, n + 1)
  {
    ByDelete(a, i, rest, b[..j] + rest, n);
  }

  lemma LastInsert(a: string, b: string, i: nat, j: nat, rest: string, n: nat)
    requires i <= |a| && 0 < j <= |b| && Turns(a, b, i, j - 1, [b[j - 1]] + rest, n)
    ensures Turns(a, b, i, j, rest, n + 1)
  {
    JoinLast(b, j, rest);
    ByInsert(a, i, b[j - 1], rest, b[..j] + rest, n);
  }

  lemma LastReplace(a: string, b: string, i: nat, j: nat, rest: string, n: nat)
    requires 0 < i <= |a| && 0 < j <= |b| && Turns(a, b, i - 1, j - 1, [b[j - 1]] + rest, n)
    ensures Turns(a, b, i, j, rest, n + Differ(a, b, i, j))
  {
    JoinLast(b, j, rest);
    ByReplace(a, i, b[j - 1], rest, b[..j] + rest, n);
  }

  lemma JoinLast(b: string, j: nat, rest: string)
    requires 0 < j <= |b|
    ensures b[..j - 1] + ([b[j - 1]] + rest) == b[..j] + rest
  {
  }

  lemma Prepend(s: string, u: string, t: string, n: nat)
    requires OneEdit(s, u) && Script(u, t, n)
    ensures Script(s, t, n + 1)
  {
  }

  lemma ByDelete(a: string, i: nat, rest: string, t: string, n: nat)
    requires 0 < i <= |a| && Script(a[..i - 1] + rest, t, n)
    ensures Script(a[..i] + rest, t, n + 1)
  {
    var s := a[..i] + rest;
    assert s[..i - 1] + s[i..] == a[..i - 1] + rest;
    assert Deletes(s, a[..i - 1] + rest, i - 1);
    Prepend(s, a[..i - 1] + rest, t, n);
  }

  lemma ByInsert(a: string, i: nat, x: char, rest: string, t: string, n: nat)
    requires i <= |a| && Script(a[..i] + ([x] + rest), t, n)
    ensures Script(a[..i] + rest, t, n + 1)
  {
    var u := a[..i] + ([x] + rest);
    assert u[..i] + u[i + 1..] == a[..i] + rest;
    assert Deletes(u, a[..i] + rest, i);
    Prepend(a[..i] + rest, u, t, n);
  }

  lemma ByReplace(a: string, i: nat, x: char, rest: string, t: string, n: nat)
    requires 0 < i <= |a| && Script(a[..i - 1] + ([x] + rest), t, n)
    ensures Script(a[..i] + rest, t, if a[i - 1] != x then n + 1 else n)
  {
    var s, u := a[..i] + rest, a[..i - 1] + ([x] + rest);
    if a[i - 1] == x {
      assert s == u;
    } else {
      assert u == s[i - 1 := u[i - 1]];
      assert Substitutes(s, u, i - 1);
      Prepend(s, u, t, n);
    }
  }

  /**
   The computed distance is the length of a script of single-character edits,
   and no script is shorter.
  */
  lemma LevIsShortestScript(a: string, b: string, n: nat)
    ensures Script(a, b, Lev(a, b))
    ensures Script(a, b, n) ==> Lev(a, b) <= n
  {
    BuildScript(a, b, |a|, |b|, "");
    assert a[..|a|] + "" == a && b[..|b|] + "" == b;
    if Script(a, b, n) { ScriptCost(a, b, n); }
  }

  // ---------------------------------------------------------------------
  // The suggestion
  // ---------------------------------------------------------------------

  const THRESHOLD := 4

  /**
   `known` lists the names of the four tables in the order they are walked: the
   answer is the first of the nearest names, unless all are four or more edits away.
  */
  method SuggestSimilar(name: string, known: seq<string>) returns (best: string)
    ensures (forall k :: 0 <= k < |known| ==> Lev(name, known[k]) >= THRESHOLD) ==> best == ""
    ensures forall k :: 0 <= k < |known| && Lev(name, known[k]) < THRESHOLD ==>
              exists i :: 0 <= i < |known| && best == known[i] && Nearest(name, known, i)
  {
    best := "";
    var bestDist := THRESHOLD;
    ghost var at := 0;
    for k := 0 to |known|
      invariant 0 <= bestDist <= THRESHOLD
      invariant bestDist == THRESHOLD ==> best == ""
      invariant bestDist < THRESHOLD ==> at < k && best == known[at] && bestDist == Lev(name, known[at])
      invariant forall l :: 0 <= l < k ==> bestDist <= Lev(name, known[l])
      invariant bestDist < THRESHOLD ==> forall l :: 0 <= l < at ==> bestDist < Lev(name, known[l])
    {
      var d := EditDistance(name, known[k]);
      if d < bestDist {
        best, bestDist := known[k], d;
        at := k;
      }
    }
    assert bestDist < THRESHOLD ==> Nearest(name, known, at);
  }

  // known[i] is at least as near as every name and nearer than those before it.
  ghost predicate Nearest(name: string, known: seq<string>, i: nat)
    requires i < |known|
  {
    && Lev(name, known[i]) < THRESHOLD
    && (forall l :: 0 <= l < |known| ==> Lev(name, known[i]) <= Lev(name, known[l]))
    && (forall l :: 0 <= l < i ==> Lev(name, known[i]) < Lev(name, known[l]))
  }
}
