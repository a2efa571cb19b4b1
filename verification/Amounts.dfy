/** 64-bit amounts: the wrap guard used throughout the node, and sums of outputs. */
module Amounts {
  import opened Types

  /** Addition of two unsigned 64-bit integers, which wraps. */
  function Add64(a: U64, b: U64): U64 {
    (a + b) % TWO64
  }

  /** a + b < a exactly when the true sum does not fit, and otherwise the machine
      sum is the true sum. */
  lemma WrapGuard(a: U64, b: U64)
    ensures Add64(a, b) < a <==> a + b >= TWO64
    ensures a + b < TWO64 ==> Add64(a, b) == a + b
  {
    if a + b >= TWO64 {
      assert a + b == (a + b - TWO64) + TWO64;
    }
  }

  function SumOutputs(outs: seq<TxOutput>, n: nat): nat
    requires n <= |outs|
  {
    if n == 0 then 0 else SumOutputs(outs, n - 1) + outs[n - 1].value
  }

  lemma {:induction false} SumOutputsGrows(outs: seq<TxOutput>, m: nat, n: nat)
    requires m <= n <= |outs|
    ensures SumOutputs(outs, m) <= SumOutputs(outs, n)
  {
    if m < n {
      SumOutputsGrows(outs, m, n - 1);
    }
  }

  /** The guarded loop over coinbase outputs: the true sum, or an error when it overflows. */
  method AddUpOutputs(outs: seq<TxOutput>) returns (sum: Option<U64>)
    ensures sum == if SumOutputs(outs, |outs|) < TWO64 then Some(SumOutputs(outs, |outs|)) else None
  {
    var total: U64 := 0;
    var i := 0;
    while i < |outs|
      invariant 0 <= i <= |outs| && total == SumOutputs(outs, i)
    {
      WrapGuard(total, outs[i].value);
      if Add64(total, outs[i].value) < total {
        SumOutputsGrows(outs, i + 1, |outs|);
        return None;
      }
      total := Add64(total, outs[i].value);
      i := i + 1;
    }
    sum := Some(total);
  }
}
