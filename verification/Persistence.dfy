/** Chainstate write batches (internal/chain/chain.go, persistUtxoChanges and
    persistUtxoDisconnect): what a batch does to the durable UTXO set. */
module Persistence {
  import opened Types
  import opened Utxo

  datatype BatchOp = Put(op: OutPoint, entry: UtxoEntry) | Delete(op: OutPoint)

  /** A batch is applied atomically and in order. */
  function ApplyBatch(s: Utxos, batch: seq<BatchOp>, n: nat): Utxos
    requires n <= |batch|
  {
    if n == 0 then s
    else match batch[n - 1]
      case Put(op, e) => ApplyBatch(s, batch, n - 1)[op := e]
      case Delete(op) => ApplyBatch(s, batch, n - 1) - {op}
  }

  lemma {:induction false} ApplyBatchPrefix(s: Utxos, batch: seq<BatchOp>, more: seq<BatchOp>, n: nat)
    requires n <= |batch|
    ensures ApplyBatch(s, batch + more, n) == ApplyBatch(s, batch, n)
  {
    if n > 0 {
      ApplyBatchPrefix(s, batch, more, n - 1);
    }
  }

  /** The part of m whose outpoints are in ops. */
  function Restrict(m: Utxos, ops: set<OutPoint>): Utxos {
    map op | op in m && op in ops :: m[op]
  }

  function UndoOps(undo: seq<SpentOutput>, n: nat): set<OutPoint>
    requires n <= |undo|
  {
    if n == 0 then {} else UndoOps(undo, n - 1) + {undo[n - 1].outPoint}
  }

  lemma {:induction false} UndoOpsAre(undo: seq<SpentOutput>, n: nat, op: OutPoint)
    requires n <= |undo|
    ensures op in UndoOps(undo, n) <==> exists k :: 0 <= k < n && undo[k].outPoint == op
  {
    if n > 0 {
      UndoOpsAre(undo, n - 1, op);
    }
  }

  /** Batch construction for a connected block: puts for the outputs that survived
      the block, then deletes for the entries it spent. */
  method ConnectBatch(r: Rules, entries: Utxos, txs: seq<Transaction>, undo: seq<SpentOutput>, ghost s: Utxos)
    returns (batch: seq<BatchOp>)
    ensures ApplyBatch(s, batch, |batch|)
      == (s + Restrict(entries, BlockOutputs(r, txs, |txs|))) - UndoOps(undo, |undo|)
  {
    hide Created;
    hide Restrict;
    batch := [];
    RestrictNone(s, entries);
    var i := 0;
    while i < |txs|
      invariant 0 <= i <= |txs|
      invariant ApplyBatch(s, batch, |batch|) == s + Restrict(entries, BlockOutputs(r, txs, i))
    {
      batch := PutOutputs(r.txid(txs[i]), txs[i], entries, batch, s, BlockOutputs(r, txs, i));
      i := i + 1;
    }
    batch := DeleteSpent(undo, batch, s);
  }

  method PutOutputs(id: Hash, tx: Transaction, entries: Utxos, batch0: seq<BatchOp>, ghost s: Utxos,
                    ghost before: set<OutPoint>)
    returns (batch: seq<BatchOp>)
    requires ApplyBatch(s, batch0, |batch0|) == s + Restrict(entries, before)
    ensures ApplyBatch(s, batch, |batch|) == s + Restrict(entries, before + Created(id, tx, 0).Keys)
  {
    batch := batch0;
    var i := 0;
    assert before + CreatedUpTo(id, tx, 0, 0).Keys == before;
    while i < |tx.outputs|
      invariant 0 <= i <= |tx.outputs|
      invariant ApplyBatch(s, batch, |batch|) == s + Restrict(entries, before + CreatedUpTo(id, tx, i, 0).Keys)
    {
      var op := OutPoint(id, i);
      ghost var ops := before + CreatedUpTo(id, tx, i, 0).Keys;
      assert before + CreatedUpTo(id, tx, i + 1, 0).Keys == ops + {op};
      RestrictAdd(s, entries, ops, op);
      if op in entries {
        ApplyBatchPrefix(s, batch, [Put(op, entries[op])], |batch|);
        batch := batch + [Put(op, entries[op])];
      }
      i := i + 1;
    }
  }

  lemma RestrictNone(s: Utxos, entries: Utxos)
    ensures s + Restrict(entries, {}) == s
  {
  }

  lemma RestrictAdd(s: Utxos, entries: Utxos, ops: set<OutPoint>, op: OutPoint)
    ensures s + Restrict(entries, ops + {op})
      == if op in entries then (s + Restrict(entries, ops))[op := entries[op]] else s + Restrict(entries, ops)
  {
  }

  method DeleteSpent(undo: seq<SpentOutput>, batch0: seq<BatchOp>, ghost s: Utxos) returns (batch: seq<BatchOp>)
    ensures ApplyBatch(s, batch, |batch|) == ApplyBatch(s, batch0, |batch0|) - UndoOps(undo, |undo|)
  {
    batch := batch0;
    var i := 0;
    while i < |undo|
      invariant 0 <= i <= |undo|
      invariant ApplyBatch(s, batch, |batch|) == ApplyBatch(s, batch0, |batch0|) - UndoOps(undo, i)
    {
      ApplyBatchPrefix(s, batch, [Delete(undo[i].outPoint)], |batch|);
      batch := batch + [Delete(undo[i].outPoint)];
      i := i + 1;
    }
  }

  /** Batch construction for a disconnected block: deletes for the outputs it created,
      then puts for the entries it had spent. */
  method DisconnectBatch(r: Rules, txs: seq<Transaction>, undo: seq<SpentOutput>, ghost s: Utxos)
    returns (batch: seq<BatchOp>)
    ensures ApplyBatch(s, batch, |batch|) == Disconnect(r, s, txs, undo)
  {
    batch := [];
    var i := 0;
    while i < |txs|
      invariant 0 <= i <= |txs|
      invariant ApplyBatch(s, batch, |batch|) == s - BlockOutputs(r, txs, i)
    {
      batch := DeleteOutputs(r.txid(txs[i]), txs[i], batch, s);
      assert (s - BlockOutputs(r, txs, i)) - Created(r.txid(txs[i]), txs[i], 0).Keys == s - BlockOutputs(r, txs, i + 1);
      i := i + 1;
    }
    ghost var base := s - BlockOutputs(r, txs, |txs|);
    var k := 0;
    while k < |undo|
      invariant 0 <= k <= |undo|
      invariant ApplyBatch(s, batch, |batch|) == Restore(base, undo, k)
    {
      ApplyBatchPrefix(s, batch, [Put(undo[k].outPoint, undo[k].entry)], |batch|);
      batch := batch + [Put(undo[k].outPoint, undo[k].entry)];
      k := k + 1;
    }
  }

  method DeleteOutputs(id: Hash, tx: Transaction, batch0: seq<BatchOp>, ghost s: Utxos) returns (batch: seq<BatchOp>)
    ensures ApplyBatch(s, batch, |batch|) == ApplyBatch(s, batch0, |batch0|) - Created(id, tx, 0).Keys
  {
    batch := batch0;
    var i := 0;
    while i < |tx.outputs|
      invariant 0 <= i <= |tx.outputs|
      invariant ApplyBatch(s, batch, |batch|) == ApplyBatch(s, batch0, |batch0|) - CreatedUpTo(id, tx, i, 0).Keys
    {
      ApplyBatchPrefix(s, batch, [Delete(OutPoint(id, i))], |batch|);
      batch := batch + [Delete(OutPoint(id, i))];
      i := i + 1;
    }
  }

  /** The connect batch turns the old durable set into exactly the new in-memory set. */
  lemma {:induction false} ConnectBatchExact(r: Rules, s: Utxos, txs: seq<Transaction>, height: nat)
    requires FreshBlock(r, s, txs) && CollectTxs(r, s, txs, |txs|, height).Some?
    ensures var v := CollectTxs(r, s, txs, |txs|, height).value;
      (s + Restrict(Finish(s, v), BlockOutputs(r, txs, |txs|))) - UndoOps(v.undo, |v.undo|) == Finish(s, v)
  {
    CollectRepresents(r, s, txs, |txs|, height);
    var v := CollectTxs(r, s, txs, |txs|, height).value;
    UndoIsSpent(s, v);
    BatchAlgebra(s, v, UndoOps(v.undo, |v.undo|));
  }

  lemma {:induction false} UndoIsSpent(s: Utxos, v: View)
    requires UndoCovers(s, v.spent, v.undo)
    ensures UndoOps(v.undo, |v.undo|) == v.spent * s.Keys
  {
    forall op ensures op in UndoOps(v.undo, |v.undo|) <==> op in v.spent * s.Keys {
      UndoOpsAre(v.undo, |v.undo|, op);
    }
  }

  lemma BatchAlgebra(s: Utxos, v: View, dels: set<OutPoint>)
    requires v.added.Keys !! s.Keys && dels == v.spent * s.Keys
    ensures (s + Restrict(Finish(s, v), v.added.Keys)) - dels == Finish(s, v)
  {
  }
}
