/** The UTXO set (internal/utxo/utxo.go).

    `ApplyTxs` is the plain meaning of a block: each transaction in turn removes
    the outpoints it spends and inserts the outputs it creates. The node instead
    collects every change of a block in block-local maps (a `View`) and applies
    them in one step; `ConnectIsSequential` says the two agree, and
    `DisconnectUndoesConnect` that the undo data restores the exact prior set. */
module Utxo {
  import opened Types

  datatype UtxoEntry = UtxoEntry(value: U64, pkScript: seq<Byte>, height: nat, isCoinbase: bool)

  type Utxos = map<OutPoint, UtxoEntry>

  datatype SpentOutput = SpentOutput(outPoint: OutPoint, entry: UtxoEntry)

  // ---------- The sequential meaning of a block ----------

  function EntryOf(tx: Transaction, i: nat, height: nat): UtxoEntry
    requires i < |tx.outputs|
  {
    UtxoEntry(tx.outputs[i].value, tx.outputs[i].pkScript, height, tx.IsCoinbase())
  }

  /** The first n outputs of transaction tx, whose id is `id`, as UTXO entries. */
  function CreatedUpTo(id: Hash, tx: Transaction, n: nat, height: nat): Utxos
    requires n <= |tx.outputs|
  {
    if n == 0 then map[]
    else CreatedUpTo(id, tx, n - 1, height)[OutPoint(id, n - 1) := EntryOf(tx, n - 1, height)]
  }

  lemma {:induction false} CreatedUpToIs(id: Hash, tx: Transaction, n: nat, height: nat)
    requires n <= |tx.outputs|
    ensures var m := CreatedUpTo(id, tx, n, height);
      && (forall op :: op in m <==> op.hash == id && op.index < n)
      && (forall op :: op in m ==> m[op] == EntryOf(tx, op.index, height))
  {
    if n > 0 {
      CreatedUpToIs(id, tx, n - 1, height);
    }
  }

  function Created(id: Hash, tx: Transaction, height: nat): Utxos
  {
    CreatedUpTo(id, tx, |tx.outputs|, height)
  }

  /** Removes the outpoints of the first n inputs, each of which must be present. */
  function Spend(s: Utxos, ins: seq<TxInput>, n: nat): Option<Utxos>
    requires n <= |ins|
  {
    if n == 0 then Some(s)
    else
      var p := Spend(s, ins, n - 1);
      if p.Some? && ins[n - 1].prevOut in p.value
      then Some(p.value - {ins[n - 1].prevOut})
      else None
  }

  function ApplyTx(r: Rules, s: Utxos, tx: Transaction, height: nat): Option<Utxos> {
    var created := Created(r.txid(tx), tx, height);
    if tx.IsCoinbase() then Some(s + created)
    else
      var p := Spend(s, tx.inputs, |tx.inputs|);
      if p.Some? then Some(p.value + created) else None
  }

  function ApplyTxs(r: Rules, s: Utxos, txs: seq<Transaction>, n: nat, height: nat): Option<Utxos>
    requires n <= |txs|
  {
    if n == 0 then Some(s)
    else
      var p := ApplyTxs(r, s, txs, n - 1, height);
      if p.Some? then ApplyTx(r, p.value, txs[n - 1], height) else None
  }

  // ---------- The block-local view layered over the set ----------

  /** What ConnectBlock and ValidateTransactionInputs track while they scan a
      block: the outpoints spent so far, the outputs created and not yet spent,
      all outputs created, and the entries of the base set that were spent. */
  datatype View = View(spent: set<OutPoint>, created: Utxos, added: Utxos, undo: seq<SpentOutput>)

  const EMPTY_VIEW := View({}, map[], map[], [])

  /** The entry an input resolves to: in-block outputs first, then the set. */
  function Resolve(s: Utxos, v: View, op: OutPoint): Option<UtxoEntry> {
    if op in v.spent then None
    else if op in v.created then Some(v.created[op])
    else if op in s then Some(s[op])
    else None
  }

  function CollectInput(s: Utxos, v: View, op: OutPoint): Option<View> {
    if op in v.spent then None
    else if op in v.created then
      Some(v.(spent := v.spent + {op}, created := v.created - {op}))
    else if op in s then
      Some(v.(spent := v.spent + {op}, undo := v.undo + [SpentOutput(op, s[op])]))
    else None
  }

  function CollectInputs(s: Utxos, v: View, ins: seq<TxInput>, n: nat): Option<View>
    requires n <= |ins|
  {
    if n == 0 then Some(v)
    else
      var p := CollectInputs(s, v, ins, n - 1);
      if p.Some? then CollectInput(s, p.value, ins[n - 1].prevOut) else None
  }

  function AddOutputs(v: View, created: Utxos): View {
    v.(created := v.created + created, added := v.added + created)
  }

  function CollectTx(r: Rules, s: Utxos, v: View, tx: Transaction, height: nat): Option<View> {
    var p := if tx.IsCoinbase() then Some(v) else CollectInputs(s, v, tx.inputs, |tx.inputs|);
    if p.Some? then Some(AddOutputs(p.value, Created(r.txid(tx), tx, height))) else None
  }

  function CollectTxs(r: Rules, s: Utxos, txs: seq<Transaction>, n: nat, height: nat): Option<View>
    requires n <= |txs|
  {
    if n == 0 then Some(EMPTY_VIEW)
    else
      var p := CollectTxs(r, s, txs, n - 1, height);
      if p.Some? then CollectTx(r, s, p.value, txs[n - 1], height) else None
  }

  /** The set after the collected mutations are applied. */
  function Finish(s: Utxos, v: View): Utxos {
    (s - v.spent) + (v.added - v.spent)
  }

  // ---------- Collect-then-apply is the sequential meaning ----------

  /** undo lists exactly the entries of s among the spent outpoints. */
  ghost predicate UndoCovers(s: Utxos, spent: set<OutPoint>, undo: seq<SpentOutput>) {
    && (forall k :: 0 <= k < |undo| ==>
          undo[k].outPoint in s && undo[k].outPoint in spent && undo[k].entry == s[undo[k].outPoint])
    && (forall op :: op in spent && op in s ==> exists k :: 0 <= k < |undo| && undo[k].outPoint == op)
  }

  /** The view v over s stands for the sequential state cur. */
  ghost predicate Represents(s: Utxos, v: View, cur: Utxos) {
    && cur == (s - v.spent) + v.created
    && v.created == v.added - v.spent
    && v.added.Keys !! s.Keys
    && v.spent <= s.Keys + v.added.Keys
    && UndoCovers(s, v.spent, v.undo)
  }

  /** Recording the spending of a base entry. */
  lemma {:induction false} UndoMore(s: Utxos, spent: set<OutPoint>, undo: seq<SpentOutput>, op: OutPoint)
    requires UndoCovers(s, spent, undo) && op in s
    ensures UndoCovers(s, spent + {op}, undo + [SpentOutput(op, s[op])])
  {
    var undo' := undo + [SpentOutput(op, s[op])];
    assert undo'[|undo|].outPoint == op;
    forall o | o in spent + {op} && o in s ensures exists k :: 0 <= k < |undo'| && undo'[k].outPoint == o {
      if o != op {
        var k :| 0 <= k < |undo| && undo[k].outPoint == o;
        assert undo'[k].outPoint == o;
      }
    }
  }

  lemma UndoSame(s: Utxos, spent: set<OutPoint>, undo: seq<SpentOutput>, op: OutPoint)
    requires UndoCovers(s, spent, undo) && op !in s
    ensures UndoCovers(s, spent + {op}, undo)
  {
  }

  lemma {:induction false} CollectInputSpends(s: Utxos, v: View, cur: Utxos, op: OutPoint)
    requires Represents(s, v, cur)
    ensures CollectInput(s, v, op).Some? <==> op in cur
    ensures op in cur ==> Resolve(s, v, op) == Some(cur[op])
    ensures op in cur ==> Represents(s, CollectInput(s, v, op).value, cur - {op})
    ensures op in cur ==> CollectInput(s, v, op).value.added == v.added
  {
    hide UndoCovers;
    if op in cur {
      if op in v.created {
        UndoSame(s, v.spent, v.undo, op);
      } else {
        UndoMore(s, v.spent, v.undo, op);
      }
    }
  }

  lemma {:induction false} CollectInputsSpend(s: Utxos, v: View, cur: Utxos, ins: seq<TxInput>, n: nat)
    requires n <= |ins|
    requires Represents(s, v, cur)
    ensures CollectInputs(s, v, ins, n).Some? <==> Spend(cur, ins, n).Some?
    ensures Spend(cur, ins, n).Some? ==>
      && Represents(s, CollectInputs(s, v, ins, n).value, Spend(cur, ins, n).value)
      && CollectInputs(s, v, ins, n).value.added == v.added
  {
    if n > 0 {
      CollectInputsSpend(s, v, cur, ins, n - 1);
      if Spend(cur, ins, n - 1).Some? {
        CollectInputSpends(s, CollectInputs(s, v, ins, n - 1).value, Spend(cur, ins, n - 1).value, ins[n - 1].prevOut);
      }
    }
  }

  /** No outpoint of transaction id is in the set or was created in the block. */
  ghost predicate FreshId(s: Utxos, v: View, id: Hash) {
    && (forall op :: op in s ==> op.hash != id)
    && (forall op :: op in v.added ==> op.hash != id)
  }

  /** Layering fresh entries c over a set with pending removals. */
  lemma LayerOver<K, V>(s: map<K, V>, spent: set<K>, created: map<K, V>, added: map<K, V>, c: map<K, V>)
    requires created == added - spent && spent !! c.Keys
    ensures ((s - spent) + created) + c == (s - spent) + (created + c)
    ensures created + c == (added + c) - spent
  {
  }

  lemma {:induction false} AddOutputsRepresents(s: Utxos, v: View, cur: Utxos, id: Hash, tx: Transaction, height: nat)
    requires Represents(s, v, cur) && FreshId(s, v, id)
    ensures Represents(s, AddOutputs(v, Created(id, tx, height)), cur + Created(id, tx, height))
  {
    var c := Created(id, tx, height);
    CreatedUpToIs(id, tx, |tx.outputs|, height);
    assert c.Keys !! v.spent;
    LayerOver(s, v.spent, v.created, v.added, c);
    assert (v.added + c).Keys == v.added.Keys + c.Keys;
  }

  lemma {:induction false} CollectTxApplies(r: Rules, s: Utxos, v: View, cur: Utxos, tx: Transaction, height: nat)
    requires Represents(s, v, cur) && FreshId(s, v, r.txid(tx))
    ensures CollectTx(r, s, v, tx, height).Some? <==> ApplyTx(r, cur, tx, height).Some?
    ensures ApplyTx(r, cur, tx, height).Some? ==>
      && Represents(s, CollectTx(r, s, v, tx, height).value, ApplyTx(r, cur, tx, height).value)
      && CollectTx(r, s, v, tx, height).value.added == v.added + Created(r.txid(tx), tx, height)
  {
    if tx.IsCoinbase() {
      AddOutputsRepresents(s, v, cur, r.txid(tx), tx, height);
    } else {
      CollectInputsSpend(s, v, cur, tx.inputs, |tx.inputs|);
      var p := CollectInputs(s, v, tx.inputs, |tx.inputs|);
      if p.Some? {
        AddOutputsRepresents(s, p.value, Spend(cur, tx.inputs, |tx.inputs|).value, r.txid(tx), tx, height);
      }
    }
  }

  /** The outputs of the block's transactions are new: ids are pairwise distinct
      and none of them names an outpoint of the set. */
  ghost predicate FreshBlock(r: Rules, s: Utxos, txs: seq<Transaction>) {
    && (forall i, j :: 0 <= i < j < |txs| ==> r.txid(txs[i]) != r.txid(txs[j]))
    && (forall op, i :: op in s && 0 <= i < |txs| ==> op.hash != r.txid(txs[i]))
  }

  /** Every outpoint created by the first n transactions. */
  function BlockOutputs(r: Rules, txs: seq<Transaction>, n: nat): set<OutPoint>
    requires n <= |txs|
  {
    if n == 0 then {}
    else BlockOutputs(r, txs, n - 1) + Created(r.txid(txs[n - 1]), txs[n - 1], 0).Keys
  }

  lemma {:induction false} BlockOutputsOwner(r: Rules, txs: seq<Transaction>, n: nat, op: OutPoint) returns (i: nat)
    requires n <= |txs| && op in BlockOutputs(r, txs, n)
    ensures i < n && op.hash == r.txid(txs[i])
  {
    if op in BlockOutputs(r, txs, n - 1) {
      i := BlockOutputsOwner(r, txs, n - 1, op);
    } else {
      CreatedUpToIs(r.txid(txs[n - 1]), txs[n - 1], |txs[n - 1].outputs|, 0);
      i := n - 1;
    }
  }

  lemma FreshNext(r: Rules, s: Utxos, txs: seq<Transaction>, n: nat, v: View)
    requires 0 < n <= |txs| && FreshBlock(r, s, txs)
    requires v.added.Keys == BlockOutputs(r, txs, n - 1)
    ensures FreshId(s, v, r.txid(txs[n - 1]))
  {
    forall op | op in v.added ensures op.hash != r.txid(txs[n - 1]) {
      var i := BlockOutputsOwner(r, txs, n - 1, op);
    }
  }

  /** The state reached after n transactions, in both forms. */
  ghost predicate InStep(r: Rules, s: Utxos, txs: seq<Transaction>, n: nat, view: Option<View>, cur: Option<Utxos>)
    requires n <= |txs|
  {
    && (view.Some? <==> cur.Some?)
    && (view.Some? ==> Represents(s, view.value, cur.value) && view.value.added.Keys == BlockOutputs(r, txs, n))
  }

  lemma {:induction false} StepInStep(r: Rules, s: Utxos, txs: seq<Transaction>, n: nat, height: nat, v: View,
                                      cur: Utxos)
    requires 0 < n <= |txs| && FreshBlock(r, s, txs)
    requires InStep(r, s, txs, n - 1, Some(v), Some(cur))
    ensures InStep(r, s, txs, n, CollectTx(r, s, v, txs[n - 1], height), ApplyTx(r, cur, txs[n - 1], height))
  {
    var tx := txs[n - 1];
    FreshNext(r, s, txs, n, v);
    CollectTxApplies(r, s, v, cur, tx, height);
    assert (v.added + Created(r.txid(tx), tx, height)).Keys == BlockOutputs(r, txs, n) by {
      CreatedUpToIs(r.txid(tx), tx, |tx.outputs|, height);
      CreatedUpToIs(r.txid(tx), tx, |tx.outputs|, 0);
      assert Created(r.txid(tx), tx, height).Keys == Created(r.txid(tx), tx, 0).Keys;
    }
  }

  lemma {:induction false} CollectRepresents(r: Rules, s: Utxos, txs: seq<Transaction>, n: nat, height: nat)
    requires n <= |txs| && FreshBlock(r, s, txs)
    ensures InStep(r, s, txs, n, CollectTxs(r, s, txs, n, height), ApplyTxs(r, s, txs, n, height))
  {
    if n == 0 {
      assert s == (s - {}) + map[];
    } else {
      CollectRepresents(r, s, txs, n - 1, height);
      var p := CollectTxs(r, s, txs, n - 1, height);
      if p.Some? {
        StepInStep(r, s, txs, n, height, p.value, ApplyTxs(r, s, txs, n - 1, height).value);
      }
    }
  }

  /** ConnectBlock's collect-then-apply succeeds exactly when the transactions can
      be applied one at a time, and then reaches the same set. */
  lemma {:induction false} ConnectIsSequential(r: Rules, s: Utxos, txs: seq<Transaction>, height: nat)
    requires FreshBlock(r, s, txs)
    ensures CollectTxs(r, s, txs, |txs|, height).Some? <==> ApplyTxs(r, s, txs, |txs|, height).Some?
    ensures ApplyTxs(r, s, txs, |txs|, height).Some? ==>
      Finish(s, CollectTxs(r, s, txs, |txs|, height).value) == ApplyTxs(r, s, txs, |txs|, height).value
  {
    CollectRepresents(r, s, txs, |txs|, height);
  }

  // ---------- Disconnect undoes connect ----------

  /** Puts back the first n undo entries. */
  function Restore(s: Utxos, undo: seq<SpentOutput>, n: nat): Utxos
    requires n <= |undo|
  {
    if n == 0 then s else Restore(s, undo, n - 1)[undo[n - 1].outPoint := undo[n - 1].entry]
  }

  function Disconnect(r: Rules, s: Utxos, txs: seq<Transaction>, undo: seq<SpentOutput>): Utxos {
    Restore(s - BlockOutputs(r, txs, |txs|), undo, |undo|)
  }

  lemma {:induction false} RestoreAgrees(s: Utxos, base: Utxos, spent: set<OutPoint>, undo: seq<SpentOutput>, n: nat)
    requires n <= |undo| && UndoCovers(s, spent, undo)
    requires base == s - spent
    ensures var m := Restore(base, undo, n);
      && m.Keys <= s.Keys
      && (forall op :: op in m ==> m[op] == s[op])
      && (forall op :: op in base ==> op in m)
      && (forall k :: 0 <= k < n ==> undo[k].outPoint in m)
  {
    if n > 0 {
      RestoreAgrees(s, base, spent, undo, n - 1);
    }
  }

  /** The undo data of a connected block restores exactly the set it was connected to. */
  lemma {:induction false} DisconnectUndoesConnect(r: Rules, s: Utxos, txs: seq<Transaction>, height: nat)
    requires FreshBlock(r, s, txs)
    requires CollectTxs(r, s, txs, |txs|, height).Some?
    ensures var v := CollectTxs(r, s, txs, |txs|, height).value;
      Disconnect(r, Finish(s, v), txs, v.undo) == s
  {
    CollectRepresents(r, s, txs, |txs|, height);
    var v := CollectTxs(r, s, txs, |txs|, height).value;
    var outs := BlockOutputs(r, txs, |txs|);
    PeelBlock(s, v.spent, v.added, outs);
    RestoreComplete(s, v.spent, v.undo);
  }

  lemma PeelBlock<K, V>(s: map<K, V>, spent: set<K>, added: map<K, V>, outs: set<K>)
    requires outs == added.Keys && outs !! s.Keys
    ensures ((s - spent) + (added - spent)) - outs == s - spent
  {
  }

  lemma RestoreComplete(s: Utxos, spent: set<OutPoint>, undo: seq<SpentOutput>)
    requires UndoCovers(s, spent, undo)
    ensures Restore(s - spent, undo, |undo|) == s
  {
    RestoreAgrees(s, s - spent, spent, undo, |undo|);
    var m := Restore(s - spent, undo, |undo|);
    forall op | op in s ensures op in m {
      if op in spent {
        var k :| 0 <= k < |undo| && undo[k].outPoint == op;
      } else {
        assert op in s - spent;
      }
    }
  }
}
