/**
 The CPU kernels that do not go element by element (src/runtime/gpu_cpu.c): the
 two-lane sum and the two-pass filter, against the plain forms the pass relies on.
*/
module Kernels {
  import opened LoweringSyntax

  function Sum(xs: seq<int>): int { if xs == [] then 0 else Sum(xs[..|xs| - 1]) + xs[|xs| - 1] }

  lemma WrapOnce(x: int, y: int)
    ensures Wrap(Wrap(x) + y) == Wrap(x + y) && Wrap(x + Wrap(y)) == Wrap(x + y)
  {
    var p, q := (x + TWO63) / TWO64, (y + TWO63) / TWO64;
    assert Wrap(x) == x - p * TWO64 && Wrap(y) == y - q * TWO64;
    SameResidue(x + y + TWO63, -p);
    SameResidue(x + y + TWO63, -q);
  }

  // Wrapping at every step is wrapping once at the end.
  lemma {:induction false} SumFromWraps(acc: int, xs: seq<int>, n: nat)
    requires n <= |xs| && acc == Wrap(Sum(xs[..n]))
    ensures SumFrom(acc, xs[n..]) == Wrap(Sum(xs))
    decreases |xs| - n
  {
    if n == |xs| {
      assert xs[..n] == xs;
    } else {
      SumNext(xs, n);
      WrapOnce(Sum(xs[..n]), xs[n]);
      assert xs[n..][1..] == xs[n + 1..];
      SumFromWraps(Wrap(acc + xs[n]), xs, n + 1);
    }
  }

  lemma SumNext(xs: seq<int>, n: nat)
    requires n < |xs|
    ensures Sum(xs[..n + 1]) == Sum(xs[..n]) + xs[n]
  {
    assert xs[..n + 1][..n] == xs[..n];
  }

  /**
   The vectorised reduction: two lanes over pairs, the lanes added up, then the
   odd element.  It equals the left-to-right fold.
  */
  method ReduceSum(data: array<int>) returns (sum: int)
    ensures sum == SumFrom(0, data[..])
  {
    var len, i, lane0, lane1 := data.Length, 0, 0, 0;
    while i + 1 < len
      invariant 0 <= i <= len
      invariant Wrap(lane0) == lane0 && Wrap(lane1) == lane1
      invariant Wrap(lane0 + lane1) == Wrap(Sum(data[..][..i]))
    {
      AddPair(lane0, lane1, data[..], i);
      lane0, lane1 := Wrap(lane0 + data[i]), Wrap(lane1 + data[i + 1]);
      i := i + 2;
    }
    sum := Wrap(lane0 + lane1);
    while i < len
      invariant 0 <= i <= len && sum == Wrap(Sum(data[..][..i]))
    {
      SumNext(data[..], i);
      WrapOnce(Sum(data[..][..i]), data[i]);
      sum := Wrap(sum + data[i]);
      i := i + 1;
    }
    assert data[..][..len] == data[..] && data[..][0..] == data[..] && data[..][..0] == [];
    SumFromWraps(0, data[..], 0);
  }

  lemma AddPair(lane0: int, lane1: int, xs: seq<int>, i: nat)
    requires i + 1 < |xs| && Wrap(lane0 + lane1) == Wrap(Sum(xs[..i]))
    ensures Wrap(Wrap(lane0 + xs[i]) + Wrap(lane1 + xs[i + 1])) == Wrap(Sum(xs[..i + 2]))
    ensures Wrap(Wrap(lane0 + xs[i])) == Wrap(lane0 + xs[i]) && Wrap(Wrap(lane1 + xs[i + 1])) == Wrap(lane1 + xs[i + 1])
  {
    var x, y := xs[i], xs[i + 1];
    WrapOnce(lane0 + x, Wrap(lane1 + y));
    WrapOnce(lane0 + x, lane1 + y);
    WrapOnce(lane0 + lane1, x + y);
    WrapOnce(Sum(xs[..i]), x + y);
    SumNext(xs, i);
    SumNext(xs, i + 1);
    WrapOnce(lane0 + x, 0);
    WrapOnce(lane1 + y, 0);
  }

  lemma {:induction false} ThoseNext(k: KernelName, s: int, xs: seq<int>, n: nat)
    requires n < |xs|
    ensures Those(k, s, xs[..n + 1]) == Those(k, s, xs[..n]) + if Keeps(k, s, xs[n]) then [xs[n]] else []
    decreases n
  {
    if n == 0 {
      assert xs[..1] == [xs[0]] && xs[..0] == [];
      assert Those(k, s, [xs[0]][1..]) == [];
    } else {
      assert xs[..n + 1][1..] == xs[1..][..n] && xs[..n][1..] == xs[1..][..n - 1];
      ThoseNext(k, s, xs[1..], n - 1);
    }
  }

  lemma {:induction false} ThoseShorter(k: KernelName, s: int, xs: seq<int>, n: nat)
    requires n <= |xs|
    ensures |Those(k, s, xs[..n])| <= |Those(k, s, xs)|
    decreases |xs| - n
  {
    if n == |xs| {
      assert xs[..n] == xs;
    } else {
      ThoseNext(k, s, xs, n);
      ThoseShorter(k, s, xs, n + 1);
    }
  }

  // Count first, then fill an array of exactly that size.
  method FilterColumn(k: KernelName, threshold: int, arr: array<int>) returns (out: array<int>)
    requires k.FilterGt? || k.FilterLt?
    ensures fresh(out) && out[..] == Those(k, threshold, arr[..])
  {
    var count, i := 0, 0;
    while i < arr.Length
      invariant 0 <= i <= arr.Length && count == |Those(k, threshold, arr[..][..i])|
    {
      ThoseNext(k, threshold, arr[..], i);
      if Keeps(k, threshold, arr[i]) { count := count + 1; }
      i := i + 1;
    }
    assert arr[..][..arr.Length] == arr[..];
    out := new int[count];
    var j := 0;
    i := 0;
    while i < arr.Length
      invariant 0 <= i <= arr.Length && j == |Those(k, threshold, arr[..][..i])| <= count
      invariant out[..j] == Those(k, threshold, arr[..][..i])
    {
      ThoseNext(k, threshold, arr[..], i);
      ThoseShorter(k, threshold, arr[..], i + 1);
      if Keeps(k, threshold, arr[i]) {
        out[j] := arr[i];
        j := j + 1;
      }
      i := i + 1;
    }
  }
}
