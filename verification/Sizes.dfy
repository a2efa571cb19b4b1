/** Serialized sizes (internal/types/transaction.go). */
module Sizes {
  import opened Types

  function VarIntSize(n: nat): nat {
    if n < 0xFD then 1
    else if n <= 0xFFFF then 3
    else if n <= 0xFFFF_FFFF then 5
    else 9
  }

  function InputSize(i: TxInput): nat {
    36 + VarIntSize(|i.sigScript|) + |i.sigScript| + 4
  }

  function OutputSize(o: TxOutput): nat {
    8 + VarIntSize(|o.pkScript|) + |o.pkScript|
  }

  /** The size of the inputs from position k on. */
  function InputsSize(ins: seq<TxInput>, k: nat): nat
    requires k <= |ins|
    decreases |ins| - k
  {
    if k == |ins| then 0 else InputSize(ins[k]) + InputsSize(ins, k + 1)
  }

  function OutputsSize(outs: seq<TxOutput>, k: nat): nat
    requires k <= |outs|
    decreases |outs| - k
  {
    if k == |outs| then 0 else OutputSize(outs[k]) + OutputsSize(outs, k + 1)
  }

  function TxSize(tx: Transaction): nat {
    4 + VarIntSize(|tx.inputs|) + InputsSize(tx.inputs, 0)
    + VarIntSize(|tx.outputs|) + OutputsSize(tx.outputs, 0) + 4
  }

  function TxsSize(txs: seq<Transaction>, k: nat): nat
    requires k <= |txs|
    decreases |txs| - k
  {
    if k == |txs| then 0 else TxSize(txs[k]) + TxsSize(txs, k + 1)
  }

  function BlockSize(b: Block): nat {
    80 + VarIntSize(|b.txs|) + TxsSize(b.txs, 0)
  }
}
