/** The mempool (internal/mempool/mempool.go). */
module Mempools {
  import opened Types
  import opened Maps
  import opened Amounts
  import opened Bytes
  import opened Sizes
  import opened Utxo
  import opened UtxoSets
  import opened TxValidation
  import opened FeeHeaps
  import Coins

  const MAX_MEMPOOL_BYTES: nat := 300 * 1024 * 1024

  datatype PoolParams = PoolParams(maxMempoolSize: U32, minRelayTxFee: U64, minRelayTxFeeRate: U64, mempoolExpiry: int)

  type Pool = map<Hash, TxEntry>

  // ---------- What the indexes must say ----------

  function PoolSize(tx: Transaction): nat {
    if TxSize(tx) == 0 then 1 else TxSize(tx)
  }

  ghost predicate EntryOk(r: Rules, h: Hash, e: TxEntry) {
    && e.hash == h == r.txid(e.tx)
    && e.size == PoolSize(e.tx) && e.feeRate == e.fee / e.size
  }

  predicate Spends(tx: Transaction, op: OutPoint) {
    exists i :: 0 <= i < |tx.inputs| && tx.inputs[i].prevOut == op
  }

  /** spentOutpoints maps exactly each outpoint spent in the pool to its one spender. */
  ghost predicate SpentOk(txs: Pool, spent: map<OutPoint, Hash>) {
    && (forall op :: op in spent ==> spent[op] in txs && Spends(txs[spent[op]].tx, op))
    && (forall h, op :: h in txs && Spends(txs[h].tx, op) ==> op in spent && spent[op] == h)
  }

  /** The summed sizes of the pooled transactions. */
  ghost function PoolBytes(txs: Pool): nat {
    if txs == map[] then 0
    else
      var h :| h in txs;
      txs[h].size + PoolBytes(txs - {h})
  }

  lemma {:induction false} BytesRemove(txs: Pool, h: Hash)
    requires h in txs
    ensures PoolBytes(txs) == txs[h].size + PoolBytes(txs - {h})
    decreases |txs|
  {
    var j :| j in txs && PoolBytes(txs) == txs[j].size + PoolBytes(txs - {j});
    if j != h {
      BytesRemove(txs - {j}, h);
      BytesRemove(txs - {h}, j);
      assert txs - {j} - {h} == txs - {h} - {j};
    }
  }

  lemma {:induction false} BytesInsert(txs: Pool, h: Hash, e: TxEntry)
    requires h !in txs
    ensures PoolBytes(txs[h := e]) == PoolBytes(txs) + e.size
  {
    BytesRemove(txs[h := e], h);
    assert txs[h := e] - {h} == txs;
  }

  /** The heap holds exactly the pooled entries. */
  ghost predicate HeapHolds(items: seq<TxEntry>, txs: Pool) {
    forall e :: e in items <==> e.hash in txs && txs[e.hash] == e
  }

  ghost predicate PoolOk(r: Rules, txs: Pool, spent: map<OutPoint, Hash>, totalBytes: nat) {
    && (forall h :: h in txs ==> EntryOk(r, h, txs[h]))
    && SpentOk(txs, spent)
    && totalBytes == PoolBytes(txs)
  }

  function InputSet(tx: Transaction, n: nat): set<OutPoint>
    requires n <= |tx.inputs|
  {
    if n == 0 then {} else InputSet(tx, n - 1) + {tx.inputs[n - 1].prevOut}
  }

  lemma {:induction false} InputSetUpTo(tx: Transaction, n: nat)
    requires n <= |tx.inputs|
    ensures forall op :: op in InputSet(tx, n) <==> exists i :: 0 <= i < n && tx.inputs[i].prevOut == op
  {
    if n > 0 {
      InputSetUpTo(tx, n - 1);
    }
  }

  lemma InputSetIs(tx: Transaction)
    ensures forall op :: op in InputSet(tx, |tx.inputs|) <==> Spends(tx, op)
  {
    InputSetUpTo(tx, |tx.inputs|);
  }

  function PutInputs(spent: map<OutPoint, Hash>, tx: Transaction, h: Hash, n: nat): map<OutPoint, Hash>
    requires n <= |tx.inputs|
  {
    if n == 0 then spent else PutInputs(spent, tx, h, n - 1)[tx.inputs[n - 1].prevOut := h]
  }

  lemma {:induction false} PutInputsIs(spent: map<OutPoint, Hash>, tx: Transaction, h: Hash, n: nat)
    requires n <= |tx.inputs|
    ensures var m := PutInputs(spent, tx, h, n);
      && (forall op :: op in m <==> op in spent || op in InputSet(tx, n))
      && (forall op :: op in m ==> m[op] == if op in InputSet(tx, n) then h else spent[op])
  {
    if n > 0 {
      PutInputsIs(spent, tx, h, n - 1);
    }
  }

  lemma {:induction false} SpentRemove(txs: Pool, spent: map<OutPoint, Hash>, h: Hash)
    requires SpentOk(txs, spent) && h in txs
    ensures SpentOk(txs - {h}, spent - InputSet(txs[h].tx, |txs[h].tx.inputs|))
  {
    hide Spends;
    hide InputSet;
    InputSetIs(txs[h].tx);
    var spent' := spent - InputSet(txs[h].tx, |txs[h].tx.inputs|);
    forall op | op in spent' ensures spent'[op] in txs - {h} && Spends((txs - {h})[spent'[op]].tx, op) {
      assert spent[op] in txs && Spends(txs[spent[op]].tx, op);
    }
    forall k, op | k in txs - {h} && Spends((txs - {h})[k].tx, op) ensures op in spent' && spent'[op] == k {
      assert op in spent && spent[op] == k;
    }
  }

  lemma {:induction false} SpentAdd(txs: Pool, spent: map<OutPoint, Hash>, e: TxEntry)
    requires SpentOk(txs, spent) && e.hash !in txs && forall op :: Spends(e.tx, op) ==> op !in spent
    ensures SpentOk(txs[e.hash := e], PutInputs(spent, e.tx, e.hash, |e.tx.inputs|))
  {
    hide Spends;
    hide InputSet;
    hide PutInputs;
    InputSetIs(e.tx);
    PutInputsIs(spent, e.tx, e.hash, |e.tx.inputs|);
  }

  /** No two pooled transactions spend the same outpoint. */
  lemma NoConflicts(r: Rules, txs: Pool, spent: map<OutPoint, Hash>, totalBytes: nat, h: Hash, i: nat, k: Hash, j: nat)
    requires PoolOk(r, txs, spent, totalBytes) && h in txs && k in txs
    requires i < |txs[h].tx.inputs| && j < |txs[k].tx.inputs|
    requires txs[h].tx.inputs[i].prevOut == txs[k].tx.inputs[j].prevOut
    ensures h == k
  {
    hide PoolBytes;
    hide EntryOk;
    var op := txs[h].tx.inputs[i].prevOut;
    assert Spends(txs[h].tx, op) && Spends(txs[k].tx, op);
    assert op in spent && spent[op] == h;
  }

  lemma {:induction false} PoolRemove(r: Rules, txs: Pool, spent: map<OutPoint, Hash>, totalBytes: nat, h: Hash)
    requires PoolOk(r, txs, spent, totalBytes) && h in txs
    ensures totalBytes >= txs[h].size
    ensures PoolOk(r, txs - {h}, spent - InputSet(txs[h].tx, |txs[h].tx.inputs|), totalBytes - txs[h].size)
  {
    hide SpentOk;
    hide EntryOk;
    hide InputSet;
    hide PoolBytes;
    SpentRemove(txs, spent, h);
    BytesRemove(txs, h);
  }

  lemma {:induction false} PoolAdd(r: Rules, txs: Pool, spent: map<OutPoint, Hash>, totalBytes: nat, e: TxEntry)
    requires PoolOk(r, txs, spent, totalBytes) && e.hash !in txs && EntryOk(r, e.hash, e)
    requires forall op :: Spends(e.tx, op) ==> op !in spent
    ensures PoolOk(r, txs[e.hash := e], PutInputs(spent, e.tx, e.hash, |e.tx.inputs|), totalBytes + e.size)
  {
    hide SpentOk;
    hide EntryOk;
    hide Spends;
    hide PutInputs;
    hide PoolBytes;
    SpentAdd(txs, spent, e);
    BytesInsert(txs, e.hash, e);
  }

  /** Outputs of pooled parents that the inputs of tx spend and the set does not have. */
  function Unconfirmed(txs: Pool, s: Utxos, spent: map<OutPoint, Hash>, tx: Transaction, n: nat): Utxos
    requires n <= |tx.inputs|
  {
    if n == 0 then map[]
    else
      var found, op := Unconfirmed(txs, s, spent, tx, n - 1), tx.inputs[n - 1].prevOut;
      if op !in s && op.hash in txs && op.index < |txs[op.hash].tx.outputs| && op !in spent
      then
        var out := txs[op.hash].tx.outputs[op.index];
        found[op := UtxoEntry(out.value, out.pkScript, 0, false)]
      else found
  }

  lemma {:induction false} UnconfirmedIs(txs: Pool, s: Utxos, spent: map<OutPoint, Hash>, tx: Transaction, n: nat,
                                         op: OutPoint)
    requires n <= |tx.inputs|
    ensures op in Unconfirmed(txs, s, spent, tx, n) <==>
      && (exists i :: 0 <= i < n && tx.inputs[i].prevOut == op)
      && op !in s && op !in spent && op.hash in txs && op.index < |txs[op.hash].tx.outputs|
    ensures op in Unconfirmed(txs, s, spent, tx, n) ==>
      var out := txs[op.hash].tx.outputs[op.index];
      Unconfirmed(txs, s, spent, tx, n)[op] == UtxoEntry(out.value, out.pkScript, 0, false)
  {
    if n > 0 {
      UnconfirmedIs(txs, s, spent, tx, n - 1, op);
    }
  }

  class Mempool {
    const r: Rules
    const p: PoolParams
    const utxoSet: UtxoSet
    const feeOrder: FeeHeap

    var txs: Pool
    var spentOutpoints: map<OutPoint, Hash>
    var totalBytes: nat

    /** Conflict index, byte counter and heap agree with the pooled transactions, and
        the caps hold. */
    ghost predicate Valid()
      reads this, feeOrder
    {
      && PoolOk(r, txs, spentOutpoints, totalBytes)
      && feeOrder.Valid() && HeapHolds(feeOrder.items, txs)
      && totalBytes <= MAX_MEMPOOL_BYTES
      && |txs| <= (if p.maxMempoolSize == 0 then 1 else p.maxMempoolSize)
    }

    constructor (r: Rules, p: PoolParams, utxoSet: UtxoSet)
      ensures Valid() && txs == map[] && fresh(feeOrder)
    {
      this.r, this.p, this.utxoSet := r, p, utxoSet;
      feeOrder := new FeeHeap();
      txs, spentOutpoints, totalBytes := map[], map[], 0;
    }

    /** Which transactions the pool takes. */
    ghost predicate Admissible(tx: Transaction, tipHeight: nat, now: U32)
      reads this, utxoSet
    {
      && !tx.IsCoinbase() && r.txid(tx) !in txs
      && (forall op :: Spends(tx, op) ==> op !in spentOutpoints)
      && var extra := Unconfirmed(txs, utxoSet.entries, spentOutpoints, tx, |tx.inputs|);
      && SingleOk(r, utxoSet.entries, extra, tx, tipHeight + 1, now)
      && var fee := Fee(extra + utxoSet.entries, EMPTY_VIEW, tx);
      && fee >= p.minRelayTxFee
      && (p.minRelayTxFeeRate > 0 ==> fee / PoolSize(tx) >= p.minRelayTxFeeRate)
    }

    method AddTx(tx: Transaction, tipHeight: nat, now: U32, addedAt: int) returns (hash: Option<Hash>)
      requires Valid()
      modifies this, feeOrder
      ensures Valid()
      ensures hash.Some? <==> old(Admissible(tx, tipHeight, now))
      ensures hash.None? ==> txs == old(txs) && spentOutpoints == old(spentOutpoints) && totalBytes == old(totalBytes)
      ensures hash.Some? ==> hash.value == r.txid(tx) && hash.value in txs && txs[hash.value].tx == tx
      ensures hash.Some? ==> txs[hash.value].fee == old(TxFee(tx)) && txs[hash.value].addedAt == addedAt
      ensures hash.Some? ==> EvictedLeast(old(txs), txs - {hash.value})
      ensures hash.Some? ==>
        forall h, k :: h in txs && h != hash.value && k in old(txs) && k !in txs ==>
          && h in old(txs) && old(txs)[k].feeRate <= old(txs)[h].feeRate
          && (old(txs)[k].feeRate == old(txs)[h].feeRate ==> LittleEndian(k) <= LittleEndian(h))
      ensures hash.Some? ==> EvictedForNeed(p.maxMempoolSize, old(txs), txs - {hash.value}, PoolSize(tx))
    {
      hide Admissible;
      hide TxFee;
      hide EvictedLeast;
      hide EvictedForNeed;
      hide LittleEndian;
      hide PoolOk;
      hide HeapHolds;
      hide Spends;
      hide PoolSize;
      hide Before;
      hide Ordered;
      hide IndexOk;
      ghost var admissible := Admissible(tx, tipHeight, now);
      var fee, txSize := Judge(tx, tipHeight, now);
      if fee.None? {
        return None;
      }
      var txHash := r.txid(tx);
      MakeRoom(txSize);
      var entry := TxEntry(tx, txHash, fee.value, fee.value / txSize, txSize, addedAt);
      StillNew(old(txs), txs, txHash);
      ghost var kept := txs;
      InsertEntry(entry);
      AddThenRemove(kept, txHash, entry);
      EvictedFields(old(txs), kept);
      hash := Some(txHash);
    }

    /** What the inputs of tx are worth more than its outputs. */
    ghost function TxFee(tx: Transaction): int
      reads this, utxoSet
    {
      var found := Unconfirmed(txs, utxoSet.entries, spentOutpoints, tx, |tx.inputs|) + utxoSet.entries;
      if tx.IsCoinbase() || CollectInputs(found, EMPTY_VIEW, tx.inputs, |tx.inputs|).None? then 0
      else Fee(found, EMPTY_VIEW, tx)
    }

    /** The checks of AddTx, before anything changes. */
    method Judge(tx: Transaction, tipHeight: nat, now: U32) returns (fee: Option<U64>, txSize: nat)
      ensures fee.Some? <==> Admissible(tx, tipHeight, now)
      ensures fee.Some? ==> fee.value == TxFee(tx)
      ensures fee.Some? ==> txSize == PoolSize(tx) && 0 < txSize <= MAX_MEMPOOL_BYTES && r.txid(tx) !in txs
      ensures fee.Some? ==> forall op :: Spends(tx, op) ==> op !in spentOutpoints
    {
      hide SingleOk;
      hide Spends;
      hide Unconfirmed;
      txSize := PoolSize(tx);
      if tx.IsCoinbase() || |tx.inputs| == 0 || |tx.outputs| == 0 {
        NotAdmitted(tx, tipHeight, now);
        return None, txSize;
      }
      var txHash := r.txid(tx);
      if txHash in txs {
        return None, txSize;
      }
      var conflict := Conflicts(tx);
      if conflict {
        return None, txSize;
      }
      var supplemental := Supplemental(tx);
      fee := ValidateSingleTransaction(r, tx, utxoSet, tipHeight, supplemental, now);
      if fee.None? {
        return;
      }
      if p.minRelayTxFee > 0 && fee.value < p.minRelayTxFee {
        return None, txSize;
      }
      if p.minRelayTxFeeRate > 0 && fee.value / txSize < p.minRelayTxFeeRate {
        return None, txSize;
      }
      SizeBound(r, utxoSet.entries, supplemental, tx, tipHeight + 1, now);
      SingleCollects(r, utxoSet.entries, supplemental, tx, tipHeight + 1, now);
    }

    method Conflicts(tx: Transaction) returns (conflict: bool)
      ensures conflict <==> exists op :: Spends(tx, op) && op in spentOutpoints
    {
      var i := 0;
      while i < |tx.inputs|
        invariant 0 <= i <= |tx.inputs| && forall j :: 0 <= j < i ==> tx.inputs[j].prevOut !in spentOutpoints
      {
        if tx.inputs[i].prevOut in spentOutpoints {
          assert Spends(tx, tx.inputs[i].prevOut);
          return true;
        }
        i := i + 1;
      }
      conflict := false;
    }

    method Supplemental(tx: Transaction) returns (found: Utxos)
      ensures found == Unconfirmed(txs, utxoSet.entries, spentOutpoints, tx, |tx.inputs|)
    {
      found := map[];
      var i := 0;
      while i < |tx.inputs|
        invariant 0 <= i <= |tx.inputs| && found == Unconfirmed(txs, utxoSet.entries, spentOutpoints, tx, i)
      {
        var op := tx.inputs[i].prevOut;
        if op in utxoSet.entries {
        } else if op.hash !in txs {
        } else if op.index >= |txs[op.hash].tx.outputs| {
        } else if op in spentOutpoints {
        } else {
          var out := txs[op.hash].tx.outputs[op.index];
          found := found[op := UtxoEntry(out.value, out.pkScript, 0, false)];
        }
        i := i + 1;
      }
    }

    /** Evicts until one more transaction of the given size fits. */
    method MakeRoom(txSize: nat)
      requires Valid() && txSize <= MAX_MEMPOOL_BYTES
      modifies this, feeOrder
      ensures Valid() && EvictedLeast(old(txs), txs) && EvictedForNeed(p.maxMempoolSize, old(txs), txs, txSize)
      ensures forall op :: op in spentOutpoints ==> op in old(spentOutpoints)
      ensures totalBytes + txSize <= MAX_MEMPOOL_BYTES
      ensures |txs| + 1 <= (if p.maxMempoolSize == 0 then 1 else p.maxMempoolSize)
    {
      hide PoolOk;
      hide HeapHolds;
      hide EvictedLeast;
      hide LastEvicted;
      hide LittleEndian;
      NoneEvicted(txs);
      while |txs| >= p.maxMempoolSize && |txs| > 0
        invariant Valid() && EvictedLeast(old(txs), txs)
        invariant EvictedForNeed(p.maxMempoolSize, old(txs), txs, txSize)
        invariant forall op :: op in spentOutpoints ==> op in old(spentOutpoints)
        decreases |txs|
      {
        ghost var mid := txs;
        CountedBytes(r, txs, spentOutpoints, totalBytes);
        var gone := EvictLowestFeeRate();
        NeededMore(p.maxMempoolSize, old(txs), mid, txSize, gone);
        EvictedMore(old(txs), mid, gone);
      }
      while totalBytes + txSize > MAX_MEMPOOL_BYTES && |txs| > 0
        invariant Valid() && EvictedLeast(old(txs), txs)
        invariant EvictedForNeed(p.maxMempoolSize, old(txs), txs, txSize)
        invariant |txs| + 1 <= (if p.maxMempoolSize == 0 then 1 else p.maxMempoolSize)
        invariant forall op :: op in spentOutpoints ==> op in old(spentOutpoints)
        decreases |txs|
      {
        ghost var mid := txs;
        CountedBytes(r, txs, spentOutpoints, totalBytes);
        var gone := EvictLowestFeeRate();
        NeededMore(p.maxMempoolSize, old(txs), mid, txSize, gone);
        EvictedMore(old(txs), mid, gone);
      }
      EmptyPool(r, txs, spentOutpoints, totalBytes);
    }

    /** Removes the pooled transaction that comes first by fee rate, then hash. */
    method EvictLowestFeeRate() returns (gone: Hash)
      requires Valid() && |txs| > 0
      modifies this, feeOrder
      ensures Valid() && gone in old(txs) && txs == old(txs) - {gone}
      ensures forall h :: h in old(txs) ==>
        && old(txs)[gone].feeRate <= old(txs)[h].feeRate
        && (old(txs)[gone].feeRate == old(txs)[h].feeRate ==> LittleEndian(gone) <= LittleEndian(h))
      ensures forall op :: op in spentOutpoints ==> op in old(spentOutpoints)
    {
      hide PoolOk;
      hide LittleEndian;
      HeapNotEmpty(r, txs, spentOutpoints, totalBytes, feeOrder.items);
      ghost var txs0 := txs;
      var entry := feeOrder.Pop();
      gone := entry.hash;
      LeastInPool(r, txs0, spentOutpoints, totalBytes, old(feeOrder.items), entry);
      HeapWithout(old(feeOrder.items), feeOrder.items, txs, entry);
      RemoveTxUnsafe(gone);
    }

    /** Removes a transaction from all indexes; its heap entry may be gone already. */
    method RemoveTxUnsafe(hash: Hash)
      requires PoolOk(r, txs, spentOutpoints, totalBytes) && feeOrder.Valid()
      requires HeapHolds(feeOrder.items, txs) ||
        (HeapHolds(feeOrder.items, txs - {hash}) && hash in feeOrder.heapIdx && feeOrder.heapIdx[hash] == -1)
      modifies this, feeOrder
      ensures PoolOk(r, txs, spentOutpoints, totalBytes) && feeOrder.Valid() && HeapHolds(feeOrder.items, txs)
      ensures txs == old(txs) - {hash} && totalBytes <= old(totalBytes)
      ensures forall op :: op in spentOutpoints ==> op in old(spentOutpoints)
    {
      hide PoolOk;
      hide Before;
      if hash !in txs {
        assert txs - {hash} == txs;
        return;
      }
      PoolRemove(r, txs, spentOutpoints, totalBytes, hash);
      var entry := txs[hash];
      PooledHash(r, txs, spentOutpoints, totalBytes, hash);
      totalBytes := totalBytes - entry.size;
      var at := if hash in feeOrder.heapIdx then feeOrder.heapIdx[hash] else -1;
      InHeap(feeOrder.items, feeOrder.heapIdx, txs, entry, at);
      if 0 <= at < |feeOrder.items| && feeOrder.items[at] == entry {
        ghost var items0 := feeOrder.items;
        var gone := feeOrder.RemoveAt(at);
        HeapWithout(items0, feeOrder.items, txs, entry);
      }
      ForgetInputs(entry.tx);
      txs := txs - {hash};
    }

    method ForgetInputs(tx: Transaction)
      modifies this`spentOutpoints
      ensures spentOutpoints == old(spentOutpoints) - InputSet(tx, |tx.inputs|)
    {
      var i := 0;
      while i < |tx.inputs|
        invariant 0 <= i <= |tx.inputs| && spentOutpoints == old(spentOutpoints) - InputSet(tx, i)
      {
        spentOutpoints := spentOutpoints - {tx.inputs[i].prevOut};
        i := i + 1;
      }
    }

    method InsertEntry(entry: TxEntry)
      requires Valid() && EntryOk(r, entry.hash, entry) && entry.hash !in txs
      requires forall op :: Spends(entry.tx, op) ==> op !in spentOutpoints
      requires totalBytes + entry.size <= MAX_MEMPOOL_BYTES
      requires |txs| + 1 <= (if p.maxMempoolSize == 0 then 1 else p.maxMempoolSize)
      modifies this, feeOrder
      ensures Valid() && txs == old(txs)[entry.hash := entry]
    {
      hide Before;
      hide PoolOk;
      hide HeapHolds;
      hide Spends;
      hide EntryOk;
      PoolAdd(r, txs, spentOutpoints, totalBytes, entry);
      NewToHeap(feeOrder.items, txs, entry.hash);
      txs := txs[entry.hash := entry];
      totalBytes := totalBytes + entry.size;
      feeOrder.Push(entry);
      HeapWith(old(feeOrder.items), feeOrder.items, old(txs), entry);
      RecordInputs(entry.tx, entry.hash);
    }

    method RecordInputs(tx: Transaction, hash: Hash)
      modifies this`spentOutpoints
      ensures spentOutpoints == PutInputs(old(spentOutpoints), tx, hash, |tx.inputs|)
    {
      var i := 0;
      while i < |tx.inputs|
        invariant 0 <= i <= |tx.inputs| && spentOutpoints == PutInputs(old(spentOutpoints), tx, hash, i)
      {
        spentOutpoints := spentOutpoints[tx.inputs[i].prevOut := hash];
        i := i + 1;
      }
    }

    /** RemoveTxs: the transactions of a block that was connected. */
    method RemoveTxs(hashes: seq<Hash>)
      requires Valid()
      modifies this, feeOrder
      ensures Valid() && txs == old(txs) - (set i | 0 <= i < |hashes| :: hashes[i])
    {
      hide PoolOk;
      hide HeapHolds;
      var i := 0;
      while i < |hashes|
        invariant 0 <= i <= |hashes| && Valid() && txs == old(txs) - (set j | 0 <= j < i :: hashes[j])
      {
        RemoveSize(txs, hashes[i]);
        RemoveTxUnsafe(hashes[i]);
        i := i + 1;
      }
    }

    /** Drops what was added before now - mempoolExpiry. */
    method ExpireOldTxs(now: int) returns (count: nat)
      requires Valid()
      modifies this, feeOrder
      ensures Valid()
      ensures p.mempoolExpiry <= 0 ==> txs == old(txs) && count == 0
      ensures p.mempoolExpiry > 0 ==>
        && txs == (map h | h in old(txs) && old(txs)[h].addedAt >= now - p.mempoolExpiry :: old(txs)[h])
        && count == |old(txs)| - |txs|
    {
      hide PoolOk;
      hide HeapHolds;
      if p.mempoolExpiry <= 0 {
        return 0;
      }
      var cutoff := now - p.mempoolExpiry;
      var expired := Expired(cutoff);
      RemoveTxs(expired);
      count := |expired|;
      ExpiredCount(old(txs), txs, expired);
    }

    method Expired(cutoff: int) returns (expired: seq<Hash>)
      ensures forall h :: h in expired <==> h in txs && txs[h].addedAt < cutoff
      ensures forall i, j :: 0 <= i < j < |expired| ==> expired[i] != expired[j]
    {
      expired := [];
      var todo := txs.Keys;
      while todo != {}
        invariant todo <= txs.Keys
        invariant forall h :: h in expired <==> h in txs && h !in todo && txs[h].addedAt < cutoff
        invariant forall i, j :: 0 <= i < j < |expired| ==> expired[i] != expired[j]
        decreases todo
      {
        var h :| h in todo;
        todo := todo - {h};
        if txs[h].addedAt < cutoff {
          expired := expired + [h];
        }
      }
    }

    /** All entries by descending fee rate, then ascending hash. */
    method SortedEntries() returns (es: seq<TxEntry>)
      requires Valid()
      ensures TemplateOrder(es) && forall e :: e in es <==> e.hash in txs && txs[e.hash] == e
    {
      hide PoolOk;
      hide HeapHolds;
      hide Ahead;
      es := [];
      var todo := txs.Keys;
      while todo != {}
        invariant todo <= txs.Keys && TemplateOrder(es)
        invariant forall e :: e in es <==> e.hash in txs && txs[e.hash] == e && e.hash !in todo
        decreases todo
      {
        var h :| h in todo;
        todo := todo - {h};
        PooledHash(r, txs, spentOutpoints, totalBytes, h);
        NotYetListed(es, txs, h);
        es := InsertSorted(es, txs[h]);
      }
    }

    /** The pooled transactions for a block and their fees. The sum never wraps: if the
        next fee would make it, the list is cut there. */
    method BlockTemplate() returns (es: seq<TxEntry>, totalFees: U64)
      requires Valid()
      ensures forall e :: e in es ==> e.hash in txs && txs[e.hash] == e
      ensures forall i, j :: 0 <= i < j < |es| ==>
        && es[i].feeRate >= es[j].feeRate
        && (es[i].feeRate == es[j].feeRate ==> LittleEndian(es[i].hash) < LittleEndian(es[j].hash))
      ensures totalFees == FeeSum(es, |es|)
      ensures || (forall h :: h in txs ==> txs[h] in es)
              || (exists h :: h in txs && NextInLine(txs, es, txs[h]) && FeeSum(es, |es|) + txs[h].fee >= TWO64)
    {
      hide PoolOk;
      hide HeapHolds;
      hide Ahead;
      hide LittleEndian;
      es := SortedEntries();
      ghost var all := es;
      totalFees := 0;
      AllListed(r, txs, spentOutpoints, totalBytes, es);
      var i := 0;
      while i < |es|
        invariant 0 <= i <= |es| && totalFees == FeeSum(es, i) && es == all
      {
        var prev := totalFees;
        WrapGuard(totalFees, es[i].fee);
        totalFees := Add64(totalFees, es[i].fee);
        if totalFees < prev {
          totalFees := prev;
          CutTemplate(txs, es, i);
          es := es[..i];
          TemplateFields(es);
          return;
        }
        i := i + 1;
      }
      TemplateFields(es);
    }

    /** Each input of an admissible transaction opens, with its script, a mature output of
        the set, or else an output of a pooled transaction that no other one spends. */
    lemma {:induction false} AdmissibleSpends(tx: Transaction, tipHeight: nat, now: U32, j: nat)
      requires Admissible(tx, tipHeight, now) && j < |tx.inputs|
      ensures var s, i, op := utxoSet.entries, tx.inputs[j], tx.inputs[j].prevOut;
        if op in s then
          && r.verifyScript(i.sigScript, s[op].pkScript, tx, j)
          && (s[op].isCoinbase ==> s[op].height + r.params.coinbaseMaturity <= tipHeight + 1)
        else
          && op !in spentOutpoints && op.hash in txs && op.index < |txs[op.hash].tx.outputs|
          && r.verifyScript(i.sigScript, txs[op.hash].tx.outputs[op.index].pkScript, tx, j)
    {
      hide Unconfirmed;
      var s := utxoSet.entries;
      var extra := Unconfirmed(txs, s, spentOutpoints, tx, |tx.inputs|);
      Coins.SingleDecided(r, s, extra, tx, tipHeight + 1, now);
      assert Coins.HonestInput(r, s, extra + s, tx, j, tipHeight + 1);
      if tx.inputs[j].prevOut !in s {
        UnconfirmedIs(txs, s, spentOutpoints, tx, |tx.inputs|, tx.inputs[j].prevOut);
      }
    }

    /** What an admissible transaction pays: the value of what it spends less that of its
        outputs, and no less than the relay limits ask. */
    lemma {:induction false} AdmissibleFee(tx: Transaction, tipHeight: nat, now: U32)
      requires Admissible(tx, tipHeight, now)
      ensures var found := Unconfirmed(txs, utxoSet.entries, spentOutpoints, tx, |tx.inputs|) + utxoSet.entries;
        TxFee(tx) == Coins.ValueOf(found, tx.inputs, |tx.inputs|) - SumOutputs(tx.outputs, |tx.outputs|)
      ensures TxFee(tx) >= p.minRelayTxFee && TxFee(tx) >= p.minRelayTxFeeRate * TxSize(tx)
    {
      hide Unconfirmed;
      hide Coins.Honest;
      var extra := Unconfirmed(txs, utxoSet.entries, spentOutpoints, tx, |tx.inputs|);
      Coins.SingleDecided(r, utxoSet.entries, extra, tx, tipHeight + 1, now);
      RateTimesSize(TxFee(tx), PoolSize(tx), p.minRelayTxFeeRate);
    }

    lemma NotAdmitted(tx: Transaction, tipHeight: nat, now: U32)
      requires tx.IsCoinbase() || |tx.inputs| == 0 || |tx.outputs| == 0
      ensures !Admissible(tx, tipHeight, now)
    {
    }
  }

  lemma RateTimesSize(fee: int, size: nat, rate: nat)
    requires 0 <= fee && 0 < size
    ensures fee / size >= rate ==> fee >= rate * size
  {
    if fee / size >= rate {
      assert fee == fee / size * size + fee % size;
      Monotone(rate, fee / size, size);
    }
  }

  lemma Monotone(a: nat, b: nat, k: nat)
    requires a <= b
    ensures a * k <= b * k
  {
  }

  // ---------- Block templates ----------

  predicate Ahead(a: TxEntry, b: TxEntry) {
    a.feeRate > b.feeRate || (a.feeRate == b.feeRate && LittleEndian(a.hash) < LittleEndian(b.hash))
  }

  ghost predicate TemplateOrder(es: seq<TxEntry>) {
    forall i, j :: 0 <= i < j < |es| ==> Ahead(es[i], es[j])
  }

  lemma TemplateFields(es: seq<TxEntry>)
    requires TemplateOrder(es)
    ensures forall i, j :: 0 <= i < j < |es| ==>
      && es[i].feeRate >= es[j].feeRate
      && (es[i].feeRate == es[j].feeRate ==> LittleEndian(es[i].hash) < LittleEndian(es[j].hash))
  {
    hide LittleEndian;
    forall i, j | 0 <= i < j < |es|
      ensures es[i].feeRate >= es[j].feeRate
      ensures es[i].feeRate == es[j].feeRate ==> LittleEndian(es[i].hash) < LittleEndian(es[j].hash)
    {
      assert Ahead(es[i], es[j]);
    }
  }

  function FeeSum(es: seq<TxEntry>, n: nat): nat
    requires n <= |es|
  {
    if n == 0 then 0 else FeeSum(es, n - 1) + es[n - 1].fee
  }

  /** e is pooled but not listed, behind all listed entries and ahead of the others. */
  ghost predicate NextInLine(txs: Pool, es: seq<TxEntry>, e: TxEntry) {
    && e !in es
    && (forall x :: x in es ==> Ahead(x, e))
    && (forall h :: h in txs && txs[h] !in es && txs[h] != e ==> Ahead(e, txs[h]))
  }

  lemma {:induction false} FeePrefix(es: seq<TxEntry>, k: nat, n: nat)
    requires n <= k <= |es|
    ensures FeeSum(es[..k], n) == FeeSum(es, n)
  {
    if n > 0 {
      FeePrefix(es, k, n - 1);
    }
  }

  lemma AllListed(r: Rules, txs: Pool, spent: map<OutPoint, Hash>, totalBytes: nat, es: seq<TxEntry>)
    requires PoolOk(r, txs, spent, totalBytes) && forall e :: e in es <==> e.hash in txs && txs[e.hash] == e
    ensures forall h :: h in txs ==> txs[h] in es && txs[h].hash == h
  {
    forall h | h in txs ensures txs[h] in es && txs[h].hash == h {
      assert EntryOk(r, h, txs[h]);
    }
  }

  /** Where the list is cut, the first entry left out is next in line. */
  lemma {:induction false} CutTemplate(txs: Pool, es: seq<TxEntry>, i: nat)
    requires TemplateOrder(es) && i < |es| && (forall e :: e in es <==> e.hash in txs && txs[e.hash] == e)
    requires forall h :: h in txs ==> txs[h] in es && txs[h].hash == h
    ensures TemplateOrder(es[..i]) && FeeSum(es[..i], i) == FeeSum(es, i)
    ensures forall e :: e in es[..i] ==> e in es
    ensures es[i].hash in txs && txs[es[i].hash] == es[i] && NextInLine(txs, es[..i], es[i])
  {
    hide Ahead;
    FeePrefix(es, i, i);
    assert es[i] in es;
    forall x | x in es[..i] ensures x in es && Ahead(x, es[i]) && x != es[i] {
      var k :| 0 <= k < i && es[k] == x;
      AheadIrreflexive(es[i]);
    }
    forall k | 0 <= k < i ensures es[k] in es[..i] {
      assert es[..i][k] == es[k];
    }
    forall h | h in txs && txs[h] !in es[..i] && txs[h] != es[i] ensures Ahead(es[i], txs[h]) {
      var k :| 0 <= k < |es| && es[k] == txs[h];
    }
  }

  lemma AheadIrreflexive(a: TxEntry)
    ensures !Ahead(a, a)
  {
  }

  lemma NotYetListed(es: seq<TxEntry>, txs: Pool, h: Hash)
    requires h in txs && txs[h].hash == h && forall e :: e in es ==> e.hash in txs && txs[e.hash] == e && e.hash != h
    ensures forall i :: 0 <= i < |es| ==> es[i].hash != h
  {
    forall i | 0 <= i < |es| ensures es[i].hash != h {
      assert es[i] in es;
    }
  }

  lemma AheadTotal(a: TxEntry, b: TxEntry)
    requires a.hash != b.hash
    ensures Ahead(a, b) || Ahead(b, a)
  {
    hide LittleEndian;
    if LittleEndian(a.hash) == LittleEndian(b.hash) {
      ValueDetermines(a.hash, b.hash);
    }
  }

  lemma AheadTransitive(a: TxEntry, b: TxEntry, c: TxEntry)
    requires Ahead(a, b) && Ahead(b, c)
    ensures Ahead(a, c)
  {
    hide LittleEndian;
  }

  /** Inserts e behind the entries that are ahead of it. */
  method InsertSorted(es: seq<TxEntry>, e: TxEntry) returns (out: seq<TxEntry>)
    requires TemplateOrder(es) && forall i :: 0 <= i < |es| ==> es[i].hash != e.hash
    ensures TemplateOrder(out) && forall x :: x in out <==> x in es || x == e
  {
    hide Ahead;
    var k := 0;
    while k < |es| && Ahead(es[k], e)
      invariant 0 <= k <= |es| && forall i :: 0 <= i < k ==> Ahead(es[i], e)
    {
      k := k + 1;
    }
    forall i | k <= i < |es| ensures Ahead(e, es[i]) {
      AheadTotal(e, es[k]);
      if i > k {
        AheadTransitive(e, es[k], es[i]);
      }
    }
    out := es[..k] + [e] + es[k..];
    forall x | x in es ensures x in out {
      var i :| 0 <= i < |es| && es[i] == x;
      assert out[if i < k then i else i + 1] == x;
    }
  }

  /** txs is what eviction left of txs0: nothing kept comes before anything evicted. */
  ghost predicate EvictedLeast(txs0: Pool, txs: Pool) {
    && (forall h :: h in txs ==> h in txs0 && txs[h] == txs0[h])
    && (forall h, k :: h in txs && k in txs0 && k !in txs ==> Lower(k, txs0[k], h, txs0[h]))
  }

  /** The entry a under k pays no higher rate than b under h, and at the same rate k is lower. */
  predicate Lower(k: Hash, a: TxEntry, h: Hash, b: TxEntry) {
    a.feeRate <= b.feeRate && (a.feeRate == b.feeRate ==> LittleEndian(k) <= LittleEndian(h))
  }

  lemma EvictedFields(txs0: Pool, txs: Pool)
    requires EvictedLeast(txs0, txs)
    ensures forall h, k :: h in txs && k in txs0 && k !in txs ==>
      && h in txs0 && txs0[k].feeRate <= txs0[h].feeRate
      && (txs0[k].feeRate == txs0[h].feeRate ==> LittleEndian(k) <= LittleEndian(h))
  {
    hide LittleEndian;
    forall h, k | h in txs && k in txs0 && k !in txs ensures h in txs0 && Lower(k, txs0[k], h, txs0[h]) {
    }
  }

  /** The caps leave room for one more transaction of this size. */
  predicate Fits(maxCount: nat, count: nat, bytes: nat, txSize: nat) {
    (count < maxCount || count == 0) && (bytes + txSize <= MAX_MEMPOOL_BYTES || count == 0)
  }

  /** Nothing was evicted without need: the one evicted last was the highest of them, and
      with it there was no room. */
  ghost predicate EvictedForNeed(maxCount: nat, txs0: Pool, txs: Pool, txSize: nat) {
    txs == txs0 || exists k :: LastEvicted(maxCount, txs0, txs, txSize, k)
  }

  ghost predicate LastEvicted(maxCount: nat, txs0: Pool, txs: Pool, txSize: nat, last: Hash) {
    && last in txs0 && last !in txs
    && !Fits(maxCount, |txs| + 1, PoolBytes(txs) + txs0[last].size, txSize)
    && (forall k :: k in txs0 && k !in txs ==> Lower(k, txs0[k], last, txs0[last]))
  }

  lemma {:induction false} NeededMore(maxCount: nat, txs0: Pool, txs: Pool, txSize: nat, gone: Hash)
    requires EvictedLeast(txs0, txs) && gone in txs && !Fits(maxCount, |txs|, PoolBytes(txs), txSize)
    ensures LastEvicted(maxCount, txs0, txs - {gone}, txSize, gone)
  {
    hide Lower;
    LowerSelf(gone, txs[gone]);
    BytesRemove(txs, gone);
    assert (txs - {gone}).Keys == txs.Keys - {gone};
    assert |(txs - {gone}).Keys| + 1 == |txs.Keys|;
  }

  lemma LowerSelf(k: Hash, e: TxEntry)
    ensures Lower(k, e, k, e)
  {
  }

  lemma CountedBytes(r: Rules, txs: Pool, spent: map<OutPoint, Hash>, totalBytes: nat)
    requires PoolOk(r, txs, spent, totalBytes)
    ensures totalBytes == PoolBytes(txs)
  {
  }

  lemma NoneEvicted(txs: Pool)
    ensures EvictedLeast(txs, txs)
  {
  }

  lemma EvictedMore(txs0: Pool, txs: Pool, gone: Hash)
    requires EvictedLeast(txs0, txs) && gone in txs
    requires forall h :: h in txs ==> Lower(gone, txs[gone], h, txs[h])
    ensures EvictedLeast(txs0, txs - {gone})
  {
    hide Lower;
  }

  lemma EmptyPool(r: Rules, txs: Pool, spent: map<OutPoint, Hash>, totalBytes: nat)
    requires PoolOk(r, txs, spent, totalBytes)
    ensures |txs| == 0 ==> totalBytes == 0
  {
  }

  lemma HeapNotEmpty(r: Rules, txs: Pool, spent: map<OutPoint, Hash>, totalBytes: nat, items: seq<TxEntry>)
    requires PoolOk(r, txs, spent, totalBytes) && HeapHolds(items, txs) && |txs| > 0
    ensures |items| > 0
  {
    var h :| h in txs;
    assert EntryOk(r, h, txs[h]);
    assert txs[h] in items;
  }

  lemma StillNew(txs0: Pool, txs: Pool, h: Hash)
    requires EvictedLeast(txs0, txs) && h !in txs0
    ensures h !in txs
  {
  }

  lemma HeapWith(items: seq<TxEntry>, items': seq<TxEntry>, txs: Pool, e: TxEntry)
    requires HeapHolds(items, txs) && e.hash !in txs && forall x :: x in items' <==> x in items || x == e
    ensures HeapHolds(items', txs[e.hash := e])
  {
  }

  lemma NewToHeap(items: seq<TxEntry>, txs: Pool, h: Hash)
    requires HeapHolds(items, txs) && h !in txs
    ensures forall i :: 0 <= i < |items| ==> items[i].hash != h
  {
    forall i | 0 <= i < |items| ensures items[i].hash != h {
      assert items[i] in items;
    }
  }

  lemma LeastInPool(r: Rules, txs: Pool, spent: map<OutPoint, Hash>, totalBytes: nat, items: seq<TxEntry>, e: TxEntry)
    requires PoolOk(r, txs, spent, totalBytes) && HeapHolds(items, txs) && e in items
    requires forall x :: x in items ==> PaysLeast(e, x)
    ensures e.hash in txs && txs[e.hash] == e && forall h :: h in txs ==> PaysLeast(e, txs[h]) && txs[h].hash == h
  {
    hide PaysLeast;
    forall h | h in txs ensures PaysLeast(e, txs[h]) && txs[h].hash == h {
      assert EntryOk(r, h, txs[h]);
      assert txs[h] in items;
    }
  }

  lemma HeapWithout(items: seq<TxEntry>, items': seq<TxEntry>, txs: Pool, e: TxEntry)
    requires HeapHolds(items, txs) && e in items && forall x :: x in items' <==> x in items && x != e
    ensures HeapHolds(items', txs - {e.hash})
  {
  }

  lemma PooledHash(r: Rules, txs: Pool, spent: map<OutPoint, Hash>, totalBytes: nat, h: Hash)
    requires PoolOk(r, txs, spent, totalBytes) && h in txs
    ensures txs[h].hash == h
  {
    assert EntryOk(r, h, txs[h]);
  }

  /** The index leads to the heap position of a pooled entry. */
  lemma InHeap(items: seq<TxEntry>, heapIdx: map<Hash, int>, txs: Pool, e: TxEntry, at: int)
    requires IndexOk(items, heapIdx) && e.hash in txs && txs[e.hash] == e
    requires at == if e.hash in heapIdx then heapIdx[e.hash] else -1
    ensures HeapHolds(items, txs) ==> 0 <= at < |items| && items[at] == e
  {
    if HeapHolds(items, txs) {
      assert e in items;
    }
  }

  lemma SingleCollects(r: Rules, s: Utxos, extra: Utxos, tx: Transaction, height: nat, now: nat)
    requires SingleOk(r, s, extra, tx, height, now)
    ensures !tx.IsCoinbase() && CollectInputs(extra + s, EMPTY_VIEW, tx.inputs, |tx.inputs|).Some?
  {
  }

  lemma SizeBound(r: Rules, s: Utxos, extra: Utxos, tx: Transaction, height: nat, now: nat)
    requires SingleOk(r, s, extra, tx, height, now)
    ensures PoolSize(tx) <= MAX_MEMPOOL_BYTES
  {
  }

  lemma ExpiredCount(txs0: Pool, txs: Pool, expired: seq<Hash>)
    requires txs == txs0 - (set i | 0 <= i < |expired| :: expired[i])
    requires forall h :: h in expired ==> h in txs0
    requires forall i, j :: 0 <= i < j < |expired| ==> expired[i] != expired[j]
    ensures |expired| == |txs0| - |txs|
  {
    var gone := set i | 0 <= i < |expired| :: expired[i];
    ListedSize(expired, gone);
    assert txs.Keys == txs0.Keys - gone;
    assert gone <= txs0.Keys;
  }
}
