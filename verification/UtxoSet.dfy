/** The in-memory UTXO set object (internal/utxo/utxo.go) and the total value of a set. */
module UtxoSets {
  import opened Types
  import opened Amounts
  import opened Utxo

  // ---------- Total value ----------

  ghost function Total(m: Utxos): nat
    decreases m.Keys
  {
    if m.Keys == {} then 0
    else
      var k :| k in m.Keys;
      assert (m - {k}).Keys == m.Keys - {k};
      m[k].value + Total(m - {k})
  }

  lemma {:induction false} TotalRemove(m: Utxos, k: OutPoint)
    requires k in m
    ensures Total(m) == m[k].value + Total(m - {k})
    decreases m.Keys
  {
    var j :| j in m.Keys && Total(m) == m[j].value + Total(m - {j});
    if j != k {
      assert (m - {j}).Keys == m.Keys - {j};
      assert (m - {k}).Keys == m.Keys - {k};
      TotalRemove(m - {j}, k);
      TotalRemove(m - {k}, j);
      assert (m - {j}) - {k} == (m - {k}) - {j};
    }
  }

  lemma {:induction false} TotalInsert(m: Utxos, k: OutPoint, e: UtxoEntry)
    requires k !in m
    ensures Total(m[k := e]) == Total(m) + e.value
  {
    TotalRemove(m[k := e], k);
    assert m[k := e] - {k} == m;
  }

  lemma {:induction false} TotalDisjoint(a: Utxos, b: Utxos)
    requires a.Keys !! b.Keys
    ensures Total(a + b) == Total(a) + Total(b)
    decreases b.Keys
  {
    if b.Keys == {} {
      assert a + b == a;
    } else {
      var k :| k in b;
      TotalRemove(b, k);
      assert (b - {k}).Keys == b.Keys - {k};
      TotalDisjoint(a, b - {k});
      assert a + b == (a + (b - {k}))[k := b[k]];
      TotalInsert(a + (b - {k}), k, b[k]);
    }
  }

  // ---------- The set object ----------

  function PutAll(adds: seq<(OutPoint, UtxoEntry)>, n: nat): Utxos
    requires n <= |adds|
  {
    if n == 0 then map[] else PutAll(adds, n - 1)[adds[n - 1].0 := adds[n - 1].1]
  }

  lemma {:induction false} PutAllPrefix(adds: seq<(OutPoint, UtxoEntry)>, more: seq<(OutPoint, UtxoEntry)>, n: nat)
    requires n <= |adds|
    ensures PutAll(adds + more, n) == PutAll(adds, n)
  {
    if n > 0 {
      PutAllPrefix(adds, more, n - 1);
    }
  }

  lemma UnionUpdate<K, V>(a: map<K, V>, c: map<K, V>, k: K, e: V)
    ensures a + c[k := e] == (a + c)[k := e]
  {
  }

  predicate IsLegacyPlaceholder(pk: seq<Byte>) {
    |pk| == 0 || (|pk| == 1 && pk[0] == 0)
  }

  /** The spendable outputs among the first n outputs of a genesis transaction. */
  function GenesisOutputs(id: Hash, tx: Transaction, n: nat): Utxos
    requires n <= |tx.outputs|
  {
    if n == 0 then map[]
    else if IsLegacyPlaceholder(tx.outputs[n - 1].pkScript) then GenesisOutputs(id, tx, n - 1)
    else GenesisOutputs(id, tx, n - 1)[OutPoint(id, n - 1) := EntryOf(tx, n - 1, 0)]
  }

  function GenesisTxs(r: Rules, s: Utxos, txs: seq<Transaction>, n: nat): Utxos
    requires n <= |txs|
  {
    if n == 0 then s
    else GenesisTxs(r, s, txs, n - 1) + GenesisOutputs(r.txid(txs[n - 1]), txs[n - 1], |txs[n - 1].outputs|)
  }

  class UtxoSet {
    var entries: Utxos

    constructor ()
      ensures entries == map[]
    {
      entries := map[];
    }

    /** A deep copy of the set, for the trial phase of a reorganisation. */
    constructor Clone(src: UtxoSet)
      ensures entries == src.entries
    {
      entries := src.entries;
    }

    method ConnectBlock(r: Rules, block: Block, height: nat) returns (undo: Option<seq<SpentOutput>>)
      modifies this
      ensures var v := CollectTxs(r, old(entries), block.txs, |block.txs|, height);
        && undo == (if v.Some? then Some(v.value.undo) else None)
        && entries == (if v.Some? then Finish(old(entries), v.value) else old(entries))
    {
      ghost var s := entries;
      var spentOutputs: seq<SpentOutput> := [];
      var toRemove: seq<OutPoint> := [];
      var toAdd: seq<(OutPoint, UtxoEntry)> := [];
      var spentInBlock: set<OutPoint> := {};
      var createdInBlock: Utxos := map[];
      ghost var v := EMPTY_VIEW;
      var txIdx := 0;
      while txIdx < |block.txs|
        invariant 0 <= txIdx <= |block.txs| && entries == s
        invariant CollectTxs(r, s, block.txs, txIdx, height) == Some(v)
        invariant v == View(spentInBlock, createdInBlock, PutAll(toAdd, |toAdd|), spentOutputs)
        invariant forall k :: k in toRemove <==> k in spentInBlock
      {
        var tx := block.txs[txIdx];
        var txHash := r.txid(tx);
        ghost var v1 := v;
        if !tx.IsCoinbase() {
          var ok;
          ok, spentInBlock, createdInBlock, spentOutputs, toRemove :=
            CollectTxInputs(tx, spentInBlock, createdInBlock, spentOutputs, toRemove, v);
          if !ok {
            CollectTxsFails(r, s, block.txs, txIdx + 1, height, |block.txs|);
            return None;
          }
          v1 := CollectInputs(s, v, tx.inputs, |tx.inputs|).value;
        }
        createdInBlock, toAdd := CollectTxOutputs(txHash, tx, height, createdInBlock, toAdd);
        v := AddOutputs(v1, Created(txHash, tx, height));
        txIdx := txIdx + 1;
      }
      ApplyChanges(toRemove, toAdd, spentInBlock);
      undo := Some(spentOutputs);
    }

    method CollectTxInputs(tx: Transaction, spent0: set<OutPoint>, created0: Utxos,
                           undo0: seq<SpentOutput>, toRemove0: seq<OutPoint>, ghost v0: View)
      returns (ok: bool, spentInBlock: set<OutPoint>, createdInBlock: Utxos,
               spentOutputs: seq<SpentOutput>, toRemove: seq<OutPoint>)
      requires v0 == View(spent0, created0, v0.added, undo0)
      requires forall k :: k in toRemove0 <==> k in spent0
      ensures ok == CollectInputs(entries, v0, tx.inputs, |tx.inputs|).Some?
      ensures ok ==> CollectInputs(entries, v0, tx.inputs, |tx.inputs|).value
                     == View(spentInBlock, createdInBlock, v0.added, spentOutputs)
      ensures ok ==> forall k :: k in toRemove <==> k in spentInBlock
    {
      spentInBlock, createdInBlock, spentOutputs, toRemove := spent0, created0, undo0, toRemove0;
      var seenInTx: set<OutPoint> := {};
      var i := 0;
      while i < |tx.inputs|
        invariant 0 <= i <= |tx.inputs|
        invariant CollectInputs(entries, v0, tx.inputs, i)
          == Some(View(spentInBlock, createdInBlock, v0.added, spentOutputs))
        invariant forall k :: k in toRemove <==> k in spentInBlock
        invariant seenInTx <= spentInBlock
      {
        var key := tx.inputs[i].prevOut;
        if key in seenInTx || key in spentInBlock {
          CollectInputsFails(entries, v0, tx.inputs, i + 1, |tx.inputs|);
          return false, {}, map[], [], [];
        }
        seenInTx := seenInTx + {key};
        if key in createdInBlock {
          // an output created earlier in this block leaves nothing to restore
        } else if key in entries {
          spentOutputs := spentOutputs + [SpentOutput(key, entries[key])];
        } else {
          CollectInputsFails(entries, v0, tx.inputs, i + 1, |tx.inputs|);
          return false, {}, map[], [], [];
        }
        spentInBlock := spentInBlock + {key};
        toRemove := toRemove + [key];
        assert key !in createdInBlock ==> createdInBlock - {key} == createdInBlock;
        createdInBlock := createdInBlock - {key};
        i := i + 1;
      }
      ok := true;
    }

    static method CollectTxOutputs(txHash: Hash, tx: Transaction, height: nat,
                                   created0: Utxos, toAdd0: seq<(OutPoint, UtxoEntry)>)
      returns (createdInBlock: Utxos, toAdd: seq<(OutPoint, UtxoEntry)>)
      ensures createdInBlock == created0 + Created(txHash, tx, height)
      ensures PutAll(toAdd, |toAdd|) == PutAll(toAdd0, |toAdd0|) + Created(txHash, tx, height)
    {
      createdInBlock, toAdd := created0, toAdd0;
      var outIdx := 0;
      while outIdx < |tx.outputs|
        invariant 0 <= outIdx <= |tx.outputs|
        invariant createdInBlock == created0 + CreatedUpTo(txHash, tx, outIdx, height)
        invariant PutAll(toAdd, |toAdd|) == PutAll(toAdd0, |toAdd0|) + CreatedUpTo(txHash, tx, outIdx, height)
      {
        var key := OutPoint(txHash, outIdx);
        var entry := UtxoEntry(tx.outputs[outIdx].value, tx.outputs[outIdx].pkScript, height, tx.IsCoinbase());
        UnionUpdate(created0, CreatedUpTo(txHash, tx, outIdx, height), key, entry);
        UnionUpdate(PutAll(toAdd0, |toAdd0|), CreatedUpTo(txHash, tx, outIdx, height), key, entry);
        createdInBlock := createdInBlock[key := entry];
        PutAllPrefix(toAdd, [(key, entry)], |toAdd|);
        toAdd := toAdd + [(key, entry)];
        outIdx := outIdx + 1;
      }
    }

    method ApplyChanges(toRemove: seq<OutPoint>, toAdd: seq<(OutPoint, UtxoEntry)>, spent: set<OutPoint>)
      requires forall k :: k in toRemove <==> k in spent
      modifies this
      ensures entries == (old(entries) - spent) + (PutAll(toAdd, |toAdd|) - spent)
    {
      var i := 0;
      while i < |toRemove|
        invariant 0 <= i <= |toRemove|
        invariant entries == old(entries) - (set k | k in toRemove[..i])
      {
        assert toRemove[..i + 1] == toRemove[..i] + [toRemove[i]];
        entries := entries - {toRemove[i]};
        i := i + 1;
      }
      assert toRemove[..i] == toRemove;
      assert (set k | k in toRemove) == spent;
      var j := 0;
      while j < |toAdd|
        invariant 0 <= j <= |toAdd|
        invariant entries == (old(entries) - spent) + (PutAll(toAdd, j) - spent)
      {
        if toAdd[j].0 !in spent {
          entries := entries[toAdd[j].0 := toAdd[j].1];
        }
        j := j + 1;
      }
    }

    static method OutputKeys(txHash: Hash, tx: Transaction) returns (keys: set<OutPoint>)
      ensures keys == Created(txHash, tx, 0).Keys
    {
      keys := {};
      var outIdx := 0;
      while outIdx < |tx.outputs|
        invariant 0 <= outIdx <= |tx.outputs|
        invariant keys == CreatedUpTo(txHash, tx, outIdx, 0).Keys
      {
        keys := keys + {OutPoint(txHash, outIdx)};
        outIdx := outIdx + 1;
      }
    }

    method DisconnectBlock(r: Rules, block: Block, undo: seq<SpentOutput>)
      modifies this
      ensures entries == Disconnect(r, old(entries), block.txs, undo)
    {
      var toRemove: set<OutPoint> := {};
      var txIdx := |block.txs|;
      while txIdx > 0
        invariant 0 <= txIdx <= |block.txs| && entries == old(entries)
        invariant BlockOutputs(r, block.txs, |block.txs|) == BlockOutputs(r, block.txs, txIdx) + toRemove
      {
        txIdx := txIdx - 1;
        var tx := block.txs[txIdx];
        var txHash := r.txid(tx);
        var outs := OutputKeys(txHash, tx);
        toRemove := toRemove + outs;
      }
      entries := entries - toRemove;
      ghost var base := entries;
      var i := 0;
      while i < |undo|
        invariant 0 <= i <= |undo| && entries == Restore(base, undo, i)
      {
        entries := entries[undo[i].outPoint := undo[i].entry];
        i := i + 1;
      }
    }

    method ConnectGenesis(r: Rules, block: Block)
      modifies this
      ensures entries == GenesisTxs(r, old(entries), block.txs, |block.txs|)
    {
      var txIdx := 0;
      while txIdx < |block.txs|
        invariant 0 <= txIdx <= |block.txs|
        invariant entries == GenesisTxs(r, old(entries), block.txs, txIdx)
      {
        var tx := block.txs[txIdx];
        AddGenesisOutputs(r.txid(tx), tx);
        txIdx := txIdx + 1;
      }
    }

    method AddGenesisOutputs(txHash: Hash, tx: Transaction)
      modifies this
      ensures entries == old(entries) + GenesisOutputs(txHash, tx, |tx.outputs|)
    {
      var outIdx := 0;
      while outIdx < |tx.outputs|
        invariant 0 <= outIdx <= |tx.outputs|
        invariant entries == old(entries) + GenesisOutputs(txHash, tx, outIdx)
      {
        var out := tx.outputs[outIdx];
        if !IsLegacyPlaceholder(out.pkScript) {
          entries := entries[OutPoint(txHash, outIdx) := UtxoEntry(out.value, out.pkScript, 0, tx.IsCoinbase())];
        }
        outIdx := outIdx + 1;
      }
    }

    /** The sum of all values, in whatever order the map is iterated; the
        overflow sentinel exactly when the true sum does not fit. */
    method TotalValue() returns (total: U64)
      ensures total == if Total(entries) < TWO64 then Total(entries) else TWO64 - 1
    {
      total := 0;
      var rest := entries;
      while rest.Keys != {}
        invariant total + Total(rest) == Total(entries)
        decreases rest.Keys
      {
        var k :| k in rest.Keys;
        TotalRemove(rest, k);
        WrapGuard(total, rest[k].value);
        if Add64(total, rest[k].value) < total {
          return TWO64 - 1;
        }
        total := Add64(total, rest[k].value);
        assert (rest - {k}).Keys == rest.Keys - {k};
        rest := rest - {k};
      }
    }
  }

  lemma {:induction false} CollectInputsFails(s: Utxos, v: View, ins: seq<TxInput>, i: nat, n: nat)
    requires i <= n <= |ins| && CollectInputs(s, v, ins, i).None?
    ensures CollectInputs(s, v, ins, n).None?
  {
    if i < n {
      CollectInputsFails(s, v, ins, i, n - 1);
    }
  }

  lemma {:induction false} CollectTxsFails(r: Rules, s: Utxos, txs: seq<Transaction>, i: nat, height: nat, n: nat)
    requires i <= n <= |txs| && CollectTxs(r, s, txs, i, height).None?
    ensures CollectTxs(r, s, txs, n, height).None?
  {

    if i < n {
      CollectTxsFails(r, s, txs, i, height, n - 1);
    }
  }
}
