/** Chains of blocks: what it means for a chain to be valid, the UTXO set it
    produces, and the facts that hold of every valid chain. */
module Ledger {
  import opened Types
  import opened Utxo
  import opened UtxoSets
  import opened TxValidation
  import opened BlockValidation
  import opened MedianTime

  // ---------- Valid chains and their replay ----------

  function HeadersOf(chain: seq<Block>): seq<BlockHeader> {
    seq(|chain|, i requires 0 <= i < |chain| => chain[i].header)
  }

  function GenesisUtxos(r: Rules): Utxos {
    GenesisTxs(r, map[], r.params.genesis.txs, |r.params.genesis.txs|)
  }

  /** The UTXO set of a chain: the genesis outputs, then every block's transactions
      one at a time. A block that cannot be applied changes nothing. */
  function Replay(r: Rules, chain: seq<Block>): Utxos {
    if |chain| <= 1 then GenesisUtxos(r)
    else
      var n := |chain| - 1;
      var before := Replay(r, chain[..n]);
      var after := ApplyTxs(r, before, chain[n].txs, |chain[n].txs|, n);
      if after.Some? then after.value else before
  }

  /** Block b is valid on top of the chain `prefix`. */
  ghost predicate BlockOk(r: Rules, prefix: seq<Block>, b: Block)
    requires |prefix| > 0
  {
    && b.header.prevBlock == r.blockHash(prefix[|prefix| - 1].header)
    && StructureOk(r, b, |prefix|)
    && TxInputsOk(r, Replay(r, prefix), b.txs, |prefix|, ChainMedian(HeadersOf(prefix)))
  }

  ghost predicate ValidChain(r: Rules, chain: seq<Block>) {
    && |chain| > 0
    && (if |chain| == 1 then chain[0] == r.params.genesis
        else ValidChain(r, chain[..|chain| - 1]) && BlockOk(r, chain[..|chain| - 1], chain[|chain| - 1]))
  }

  /** The summed work of a chain. */
  ghost function ChainWork(r: Rules, chain: seq<Block>): nat {
    if |chain| == 0 then 0 else ChainWork(r, chain[..|chain| - 1]) + r.weight(chain[|chain| - 1].header)
  }

  lemma {:induction false} ValidPrefix(r: Rules, chain: seq<Block>, n: nat)
    requires ValidChain(r, chain) && 0 < n <= |chain|
    ensures ValidChain(r, chain[..n])
    decreases |chain|
  {
    hide BlockOk;
    if n == |chain| {
      assert chain[..n] == chain;
    } else {
      var m := |chain| - 1;
      ValidPrefix(r, chain[..m], n);
      assert chain[..m][..n] == chain[..n];
    }
  }

  lemma ValidLast(r: Rules, prefix: seq<Block>, b: Block)
    requires |prefix| > 0 && ValidChain(r, prefix + [b])
    ensures ValidChain(r, prefix) && BlockOk(r, prefix, b)
  {
    assert (prefix + [b])[..|prefix|] == prefix;
  }

  lemma ExtendValid(r: Rules, prefix: seq<Block>, b: Block)
    requires ValidChain(r, prefix) && BlockOk(r, prefix, b)
    ensures ValidChain(r, prefix + [b])
  {
    assert (prefix + [b])[..|prefix|] == prefix;
  }

  // ---------- Hypotheses ----------

  /** A script that is no push of a height, as every genesis coinbase script is. */
  predicate NoHeightPush(script: seq<Byte>) {
    |script| == 0 || script[0] == 0 || script[0] > 4
  }

  /** The genesis block holds one coinbase transaction with a text script. */
  predicate GenesisOk(r: Rules) {
    && |r.params.genesis.txs| == 1
    && r.params.genesis.txs[0].IsCoinbase()
    && NoHeightPush(r.params.genesis.txs[0].inputs[0].sigScript)
  }

  /** No two different transactions of the list share an id. */
  ghost predicate NoCollision(r: Rules, txs: seq<Transaction>) {
    forall a, b :: a in txs && b in txs && r.txid(a) == r.txid(b) ==> a == b
  }

  /** All transactions of a chain, in order. */
  function AllTxs(chain: seq<Block>): seq<Transaction> {
    if |chain| == 0 then [] else AllTxs(chain[..|chain| - 1]) + chain[|chain| - 1].txs
  }

  // ---------- Transaction ids never repeat ----------

  ghost predicate HasId(r: Rules, hist: seq<Transaction>, id: Hash) {
    exists k :: 0 <= k < |hist| && r.txid(hist[k]) == id
  }

  ghost predicate DistinctIds(r: Rules, hist: seq<Transaction>) {
    forall i, j :: 0 <= i < j < |hist| ==> r.txid(hist[i]) != r.txid(hist[j])
  }

  ghost predicate OutputsOwned(r: Rules, hist: seq<Transaction>, s: Utxos) {
    forall op :: op in s ==> HasId(r, hist, op.hash)
  }

  /** What spending did: a spent outpoint is gone for good and was created by the history. */
  ghost predicate InputsGone(r: Rules, hist: seq<Transaction>, s: Utxos) {
    forall k, j :: 0 <= k < |hist| && !hist[k].IsCoinbase() && 0 <= j < |hist[k].inputs| ==>
      hist[k].inputs[j].prevOut !in s && HasId(r, hist, hist[k].inputs[j].prevOut.hash)
  }

  ghost predicate SpendsSomething(hist: seq<Transaction>) {
    forall k :: 0 <= k < |hist| && !hist[k].IsCoinbase() ==> |hist[k].inputs| > 0
  }

  /** The height pushed by a coinbase script is below `height`, if one is pushed. */
  predicate PushBelow(script: seq<Byte>, height: nat) {
    |script| > 0 && 1 <= script[0] <= 4 && script[0] < |script| ==> PushedHeight(script, script[0]) < height
  }

  ghost predicate CoinbasesBelow(hist: seq<Transaction>, height: nat) {
    forall k :: 0 <= k < |hist| && hist[k].IsCoinbase() ==> PushBelow(hist[k].inputs[0].sigScript, height)
  }

  /** The history invariant: hist lists all transactions so far and s is the set
      they leave; coinbases so far belong to heights below `height`. */
  ghost predicate HistoryOk(r: Rules, hist: seq<Transaction>, s: Utxos, height: nat) {
    && DistinctIds(r, hist)
    && OutputsOwned(r, hist, s)
    && InputsGone(r, hist, s)
    && SpendsSomething(hist)
    && CoinbasesBelow(hist, height)
  }

  lemma HasIdGrows(r: Rules, hist: seq<Transaction>, tx: Transaction, id: Hash)
    requires HasId(r, hist, id)
    ensures HasId(r, hist + [tx], id)
  {
    var k :| 0 <= k < |hist| && r.txid(hist[k]) == id;
    assert (hist + [tx])[k] == hist[k];
  }

  /** A transaction whose first input is unspent cannot have occurred before. */
  lemma {:induction false} SpendIsNew(r: Rules, hist: seq<Transaction>, s: Utxos, height: nat, tx: Transaction)
    requires HistoryOk(r, hist, s, height) && NoCollision(r, hist + [tx])
    requires !tx.IsCoinbase() && |tx.inputs| > 0 && tx.inputs[0].prevOut in s
    ensures !HasId(r, hist, r.txid(tx))
  {
    assert (hist + [tx])[|hist|] == tx;
    forall k | 0 <= k < |hist| ensures r.txid(hist[k]) != r.txid(tx) {
      assert (hist + [tx])[k] == hist[k];
      assert hist[k].IsCoinbase() || hist[k].inputs[0].prevOut !in s;
    }
  }

  /** A coinbase that pushes a height not used before cannot have occurred before. */
  lemma {:induction false} CoinbaseIsNew(r: Rules, hist: seq<Transaction>, s: Utxos, height: nat, tx: Transaction)
    requires HistoryOk(r, hist, s, height) && NoCollision(r, hist + [tx])
    requires tx.IsCoinbase() && CoinbaseScriptOk(tx.inputs[0].sigScript, height)
    ensures !HasId(r, hist, r.txid(tx))
  {
    assert (hist + [tx])[|hist|] == tx;
    forall k | 0 <= k < |hist| ensures r.txid(hist[k]) != r.txid(tx) {
      assert (hist + [tx])[k] == hist[k];
      assert hist[k].IsCoinbase() ==> PushBelow(hist[k].inputs[0].sigScript, height);
    }
  }

  lemma {:induction false} HistoryAppend(r: Rules, hist: seq<Transaction>, s: Utxos, height: nat, tx: Transaction,
                                         s': Utxos, height': nat)
    requires HistoryOk(r, hist, s, height) && height <= height'
    requires !HasId(r, hist, r.txid(tx))
    requires forall op :: op in s' ==> op in s || op.hash == r.txid(tx)
    requires tx.IsCoinbase() ==> PushBelow(tx.inputs[0].sigScript, height')
    requires !tx.IsCoinbase() ==> |tx.inputs| > 0
    requires !tx.IsCoinbase() ==>
      forall j :: 0 <= j < |tx.inputs| ==> tx.inputs[j].prevOut in s && tx.inputs[j].prevOut !in s'
    ensures HistoryOk(r, hist + [tx], s', height')
  {
    var hist' := hist + [tx];
    assert hist'[|hist|] == tx;
    forall i, j | 0 <= i < j < |hist'| ensures r.txid(hist'[i]) != r.txid(hist'[j]) {
      if j == |hist| {
        assert r.txid(hist[i]) != r.txid(tx);
      }
    }
    forall op | op in s' ensures HasId(r, hist', op.hash) {
      if op in s {
        HasIdGrows(r, hist, tx, op.hash);
      } else {
        assert r.txid(hist'[|hist|]) == op.hash;
      }
    }
    forall k, j | 0 <= k < |hist'| && !hist'[k].IsCoinbase() && 0 <= j < |hist'[k].inputs|
      ensures hist'[k].inputs[j].prevOut !in s' && HasId(r, hist', hist'[k].inputs[j].prevOut.hash)
    {
      var op := hist'[k].inputs[j].prevOut;
      assert HasId(r, hist, op.hash);
      HasIdGrows(r, hist, tx, op.hash);
    }
  }

  // ---------- One transaction ----------

  lemma {:induction false} SpendEffect(s: Utxos, ins: seq<TxInput>, n: nat)
    requires n <= |ins| && Spend(s, ins, n).Some?
    ensures forall op :: op in Spend(s, ins, n).value ==> op in s
    ensures forall j :: 0 <= j < n ==> ins[j].prevOut in s && ins[j].prevOut !in Spend(s, ins, n).value
  {
    if n > 0 {
      SpendEffect(s, ins, n - 1);
    }
  }

  /** The state of a scan of a block: the view represents the sequential state and
      every outpoint it can name comes from the history. */
  ghost predicate ScanOk(r: Rules, hist: seq<Transaction>, s: Utxos, v: View, cur: Utxos, height: nat) {
    && Represents(s, v, cur)
    && HistoryOk(r, hist, cur, height)
    && OutputsOwned(r, hist, s)
    && OutputsOwned(r, hist, v.added)
  }

  lemma NewIdIsFresh(r: Rules, hist: seq<Transaction>, s: Utxos, v: View, id: Hash)
    requires OutputsOwned(r, hist, s) && OutputsOwned(r, hist, v.added) && !HasId(r, hist, id)
    ensures FreshId(s, v, id)
  {
  }

  lemma {:induction false} OwnedGrows(r: Rules, hist: seq<Transaction>, tx: Transaction, m: Utxos, height: nat)
    requires OutputsOwned(r, hist, m)
    ensures OutputsOwned(r, hist + [tx], m)
    ensures OutputsOwned(r, hist + [tx], m + Created(r.txid(tx), tx, height))
  {
    CreatedUpToIs(r.txid(tx), tx, |tx.outputs|, height);
    var all := m + Created(r.txid(tx), tx, height);
    forall op | op in all ensures HasId(r, hist + [tx], op.hash) {
      if op in m {
        HasIdGrows(r, hist, tx, op.hash);
      } else {
        assert r.txid((hist + [tx])[|hist|]) == op.hash;
      }
    }
    forall op | op in m ensures HasId(r, hist + [tx], op.hash) {
      assert op in all;
    }
  }

  /** A valid transaction is new, can be applied, and keeps the scan invariant. */
  lemma {:induction false} ScanTx(r: Rules, hist: seq<Transaction>, s: Utxos, v: View, cur: Utxos,
                                  tx: Transaction, height: nat, medianTime: nat, bound: nat)
    requires ScanOk(r, hist, s, v, cur, bound) && NoCollision(r, hist + [tx])
    requires TxOk(r, s, v, tx, height, medianTime) && bound <= height + 1
    requires tx.IsCoinbase() ==> bound == height && CoinbaseScriptOk(tx.inputs[0].sigScript, height)
    ensures !HasId(r, hist, r.txid(tx))
    ensures CollectTx(r, s, v, tx, height).Some? && ApplyTx(r, cur, tx, height).Some?
    ensures ScanOk(r, hist + [tx], s, CollectTx(r, s, v, tx, height).value, ApplyTx(r, cur, tx, height).value,
                   height + 1)
  {
    hide ScriptsOk;
    hide LocksOk;
    hide InputsOk;
    hide OutputsOk;
    hide Created;
    if tx.IsCoinbase() {
      CoinbaseIsNew(r, hist, cur, bound, tx);
    } else {
      CollectInputsSpend(s, v, cur, tx.inputs, |tx.inputs|);
      SpendEffect(cur, tx.inputs, |tx.inputs|);
      SpendIsNew(r, hist, cur, bound, tx);
    }
    NewIdIsFresh(r, hist, s, v, r.txid(tx));
    CollectTxApplies(r, s, v, cur, tx, height);
    OwnedGrows(r, hist, tx, s, height);
    OwnedGrows(r, hist, tx, v.added, height);
    ScanTxHistory(r, hist, cur, tx, height, bound);
  }

  lemma {:induction false} ScanTxHistory(r: Rules, hist: seq<Transaction>, cur: Utxos, tx: Transaction, height: nat,
                                         bound: nat)
    requires HistoryOk(r, hist, cur, bound) && bound <= height + 1
    requires !HasId(r, hist, r.txid(tx)) && ApplyTx(r, cur, tx, height).Some?
    requires tx.IsCoinbase() ==> CoinbaseScriptOk(tx.inputs[0].sigScript, height)
    requires !tx.IsCoinbase() ==> |tx.inputs| > 0
    ensures HistoryOk(r, hist + [tx], ApplyTx(r, cur, tx, height).value, height + 1)
  {
    var cur' := ApplyTx(r, cur, tx, height).value;
    CreatedUpToIs(r.txid(tx), tx, |tx.outputs|, height);
    if !tx.IsCoinbase() {
      SpendEffect(cur, tx.inputs, |tx.inputs|);
      forall j | 0 <= j < |tx.inputs| ensures tx.inputs[j].prevOut !in cur' {
        assert HasId(r, hist, tx.inputs[j].prevOut.hash);
      }
    }
    HistoryAppend(r, hist, cur, bound, tx, cur', height + 1);
  }

  // ---------- One block ----------

  lemma {:induction false} ScanBlock(r: Rules, hist: seq<Transaction>, s: Utxos, txs: seq<Transaction>,
                                     n: nat, height: nat, medianTime: nat)
    requires n <= |txs| && HistoryOk(r, hist, s, height) && NoCollision(r, hist + txs)
    requires TxsOk(r, s, txs, n, height, medianTime)
    requires n > 0 ==> txs[0].IsCoinbase() && CoinbaseScriptOk(txs[0].inputs[0].sigScript, height)
    requires forall i :: 1 <= i < |txs| ==> !txs[i].IsCoinbase()
    ensures CollectTxs(r, s, txs, n, height).Some? && ApplyTxs(r, s, txs, n, height).Some?
    ensures ScanOk(r, hist + txs[..n], s, CollectTxs(r, s, txs, n, height).value, ApplyTxs(r, s, txs, n, height).value,
                   if n == 0 then height else height + 1)
  {
    hide TxOk;
    hide HistoryOk;
    hide OutputsOwned;
    hide CollectTx;
    hide ApplyTx;
    if n == 0 {
      EmptyScan(r, hist, s, height);
      assert hist + txs[..0] == hist;
    } else {
      ScanBlock(r, hist, s, txs, n - 1, height, medianTime);
      var tx := txs[n - 1];
      assert (hist + txs[..n - 1]) + [tx] == hist + txs[..n];
      assert forall t :: t in hist + txs[..n] ==> t in hist + txs;
      ScanTx(r, hist + txs[..n - 1], s, CollectTxs(r, s, txs, n - 1, height).value,
             ApplyTxs(r, s, txs, n - 1, height).value, tx, height, medianTime, if n == 1 then height else height + 1);
    }
  }

  lemma EmptyScan(r: Rules, hist: seq<Transaction>, s: Utxos, height: nat)
    requires HistoryOk(r, hist, s, height)
    ensures ScanOk(r, hist, s, EMPTY_VIEW, s, height)
  {
    assert s == (s - {}) + map[];
  }

  // ---------- The whole chain ----------

  lemma {:induction false} GenesisHistory(r: Rules)
    requires GenesisOk(r)
    ensures HistoryOk(r, r.params.genesis.txs, GenesisUtxos(r), 1)
  {
    var g := r.params.genesis.txs[0];
    GenesisOutputsOwned(r.txid(g), g, |g.outputs|);
    assert GenesisUtxos(r) == GenesisTxs(r, map[], r.params.genesis.txs, 0) + GenesisOutputs(r.txid(g), g, |g.outputs|);
    forall op | op in GenesisUtxos(r) ensures HasId(r, r.params.genesis.txs, op.hash) {
      assert r.txid(r.params.genesis.txs[0]) == op.hash;
    }
  }

  lemma {:induction false} GenesisOutputsOwned(id: Hash, tx: Transaction, n: nat)
    requires n <= |tx.outputs|
    ensures forall op :: op in GenesisOutputs(id, tx, n) ==> op.hash == id
  {
    if n > 0 {
      GenesisOutputsOwned(id, tx, n - 1);
    }
  }

  /** The history invariant holds of every valid chain. */
  lemma {:induction false} ChainHistory(r: Rules, chain: seq<Block>)
    requires GenesisOk(r) && ValidChain(r, chain) && NoCollision(r, AllTxs(chain))
    ensures HistoryOk(r, AllTxs(chain), Replay(r, chain), |chain|)
    decreases |chain|
  {
    hide HistoryOk;
    hide TxsOk;
    hide StructureOk;
    var n := |chain| - 1;
    if n == 0 {
      GenesisHistory(r);
      assert AllTxs(chain[..0]) == [];
      assert AllTxs(chain) == r.params.genesis.txs;
    } else {
      assert forall t :: t in AllTxs(chain[..n]) ==> t in AllTxs(chain);
      ChainHistory(r, chain[..n]);
      BlockApplies(r, chain[..n], chain[n]);
    }
  }

  /** A block that is valid on a chain can be applied, and extends the history. */
  lemma {:induction false} BlockApplies(r: Rules, prefix: seq<Block>, b: Block)
    requires |prefix| > 0 && BlockOk(r, prefix, b)
    requires HistoryOk(r, AllTxs(prefix), Replay(r, prefix), |prefix|) && NoCollision(r, AllTxs(prefix) + b.txs)
    ensures ApplyTxs(r, Replay(r, prefix), b.txs, |b.txs|, |prefix|).Some?
    ensures HistoryOk(r, AllTxs(prefix) + b.txs, ApplyTxs(r, Replay(r, prefix), b.txs, |b.txs|, |prefix|).value,
                      |prefix| + 1)
  {
    hide HistoryOk;
    hide ScanOk;
    hide TxsOk;
    hide Fees;
    hide Replay;
    hide CollectTxs;
    hide ApplyTxs;
    BlockScanned(r, AllTxs(prefix), Replay(r, prefix), b, |prefix|, ChainMedian(HeadersOf(prefix)));
  }

  lemma {:induction false} BlockScanned(r: Rules, hist: seq<Transaction>, s: Utxos, b: Block, height: nat,
                                        medianTime: nat)
    requires height > 0 && StructureOk(r, b, height) && TxInputsOk(r, s, b.txs, height, medianTime)
    requires HistoryOk(r, hist, s, height) && NoCollision(r, hist + b.txs)
    ensures CollectTxs(r, s, b.txs, |b.txs|, height).Some?
    ensures ApplyTxs(r, s, b.txs, |b.txs|, height).Some?
    ensures HistoryOk(r, hist + b.txs, ApplyTxs(r, s, b.txs, |b.txs|, height).value, height + 1)
  {
    hide HistoryOk;
    hide TxsOk;
    hide Fees;
    hide CollectTxs;
    hide ApplyTxs;
    ScanBlock(r, hist, s, b.txs, |b.txs|, height, medianTime);
    assert b.txs[..|b.txs|] == b.txs;
  }

  /** No transaction id occurs twice in a valid chain. */
  lemma {:induction false} TxidsNeverRepeat(r: Rules, chain: seq<Block>, i: nat, j: nat)
    requires GenesisOk(r) && ValidChain(r, chain) && NoCollision(r, AllTxs(chain))
    requires i < j < |AllTxs(chain)|
    ensures r.txid(AllTxs(chain)[i]) != r.txid(AllTxs(chain)[j])
  {
    ChainHistory(r, chain);
  }

  lemma AllTxsExtend(chain: seq<Block>, b: Block)
    ensures AllTxs(chain + [b]) == AllTxs(chain) + b.txs
  {
    assert (chain + [b])[..|chain|] == chain;
  }

  /** The outputs of a block that is valid on a chain are new to the chain's UTXO
      set, so ConnectBlock reaches the replay of the longer chain and its undo data
      leads back. */
  lemma {:induction false} ValidBlockIsFresh(r: Rules, prefix: seq<Block>, b: Block)
    requires GenesisOk(r) && ValidChain(r, prefix) && BlockOk(r, prefix, b)
    requires NoCollision(r, AllTxs(prefix + [b]))
    ensures FreshBlock(r, Replay(r, prefix), b.txs)
    ensures ApplyTxs(r, Replay(r, prefix), b.txs, |b.txs|, |prefix|) == Some(Replay(r, prefix + [b]))
  {
    hide HistoryOk;
    hide BlockOk;
    AllTxsExtend(prefix, b);
    assert forall t :: t in AllTxs(prefix) ==> t in AllTxs(prefix) + b.txs;
    ChainHistory(r, prefix);
    BlockApplies(r, prefix, b);
    assert (prefix + [b])[..|prefix|] == prefix;
    NewTxsAreFresh(r, AllTxs(prefix), b.txs, Replay(r, prefix), |prefix|,
                   ApplyTxs(r, Replay(r, prefix), b.txs, |b.txs|, |prefix|).value);
  }

  lemma {:induction false} NewTxsAreFresh(r: Rules, hist: seq<Transaction>, txs: seq<Transaction>, s: Utxos,
                                          height: nat, s': Utxos)
    requires HistoryOk(r, hist, s, height) && HistoryOk(r, hist + txs, s', height + 1)
    ensures FreshBlock(r, s, txs)
  {
    forall i, j | 0 <= i < j < |txs| ensures r.txid(txs[i]) != r.txid(txs[j]) {
      assert (hist + txs)[|hist| + i] == txs[i] && (hist + txs)[|hist| + j] == txs[j];
    }
    forall op, i | op in s && 0 <= i < |txs| ensures op.hash != r.txid(txs[i]) {
      var k :| 0 <= k < |hist| && r.txid(hist[k]) == op.hash;
      assert (hist + txs)[k] == hist[k] && (hist + txs)[|hist| + i] == txs[i];
    }
  }

  /** Each outpoint of a chain is created at most once: equal outpoints come from the
      same transaction of the chain. */
  lemma {:induction false} OutpointsCreatedOnce(r: Rules, chain: seq<Block>, i: nat, j: nat, op: OutPoint)
    requires GenesisOk(r) && ValidChain(r, chain) && NoCollision(r, AllTxs(chain))
    requires i < |AllTxs(chain)| && j < |AllTxs(chain)|
    requires op in Created(r.txid(AllTxs(chain)[i]), AllTxs(chain)[i], 0)
    requires op in Created(r.txid(AllTxs(chain)[j]), AllTxs(chain)[j], 0)
    ensures i == j
  {
    var txs := AllTxs(chain);
    CreatedUpToIs(r.txid(txs[i]), txs[i], |txs[i].outputs|, 0);
    CreatedUpToIs(r.txid(txs[j]), txs[j], |txs[j].outputs|, 0);
    ChainHistory(r, chain);
  }
}
