/**
 The explicit-stack Ackermann function (bench/reference/ackermann.js) against the
 recursive one (bench/reference/ackermann.py).
*/
module Ackermann {

  function Ack(m: nat, n: nat): nat
    decreases m, n
  {
    if m == 0 then n + 1
    else if n == 0 then Ack(m - 1, 1)
    else Ack(m - 1, Ack(m, n - 1))
  }

  // What the machine still has to deliver: the stack, top last, applied to value.
  function Pending(stack: seq<nat>, value: nat): nat
    decreases |stack|
  {
    if stack == [] then value else Pending(stack[..|stack| - 1], Ack(stack[|stack| - 1], value))
  }

  // Loop iterations from m on top with value n until m and all it pushed are gone.
  function Iterations(m: nat, n: nat): (k: nat)
    ensures k > 0
    decreases m, n
  {
    1 + if m == 0 then 0
        else if n == 0 then Iterations(m - 1, 1)
        else Iterations(m, n - 1) + Iterations(m - 1, Ack(m, n - 1))
  }

  function Remaining(stack: seq<nat>, value: nat): nat
    decreases |stack|
  {
    if stack == [] then 0
    else Iterations(stack[|stack| - 1], value) + Remaining(stack[..|stack| - 1], Ack(stack[|stack| - 1], value))
  }

  lemma PushOne(stack: seq<nat>, x: nat, value: nat)
    ensures Pending(stack + [x], value) == Pending(stack, Ack(x, value))
    ensures Remaining(stack + [x], value) == Iterations(x, value) + Remaining(stack, Ack(x, value))
  {
    assert (stack + [x])[..|stack|] == stack;
  }

  /**
   Terminates after exactly Iterations(m, n) rounds of the loop with the value of
   the recursion.
  */
  method AckIter(m: nat, n: nat) returns (value: nat, ghost rounds: nat)
    ensures value == Ack(m, n) && rounds == Iterations(m, n)
  {
    var stack := [m];
    value := n;
    rounds := 0;
    assert [m] == [] + [m];
    PushOne([], m, n);
    while |stack| > 0
      invariant Pending(stack, value) == Ack(m, n)
      invariant rounds + Remaining(stack, value) == Iterations(m, n)
      decreases Remaining(stack, value)
    {
      var mm, rest := stack[|stack| - 1], stack[..|stack| - 1];
      stack := rest;
      if mm == 0 {
        value := value + 1;
      } else if value == 0 {
        stack := stack + [mm - 1];
        PushOne(rest, mm - 1, 1);
        value := 1;
      } else {
        stack := stack + [mm - 1];
        stack := stack + [mm];
        PushOne(rest + [mm - 1], mm, value - 1);
        PushOne(rest, mm - 1, Ack(mm, value - 1));
        value := value - 1;
      }
      rounds := rounds + 1;
    }
  }
}
