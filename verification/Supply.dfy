/** Conservation of value: what a valid block does to the total of the UTXO set,
    and the money supply of whole chains. */
module Supply {
  import opened Types
  import opened Amounts
  import opened Utxo
  import opened UtxoSets
  import opened TxValidation
  import opened Subsidy
  import opened Ledger
  import opened MedianTime

  lemma {:induction false} CreatedTotal(id: Hash, tx: Transaction, n: nat, height: nat)
    requires n <= |tx.outputs|
    ensures Total(CreatedUpTo(id, tx, n, height)) == SumOutputs(tx.outputs, n)
  {
    if n > 0 {
      CreatedTotal(id, tx, n - 1, height);
      CreatedUpToIs(id, tx, n - 1, height);
      TotalInsert(CreatedUpTo(id, tx, n - 1, height), OutPoint(id, n - 1), EntryOf(tx, n - 1, height));
    }
  }

  /** Spending takes exactly the value of the resolved entries out of the set. */
  lemma {:induction false} SpendTotal(s: Utxos, v: View, cur: Utxos, ins: seq<TxInput>, n: nat)
    requires n <= |ins| && Represents(s, v, cur) && CollectInputs(s, v, ins, n).Some?
    ensures Spend(cur, ins, n).Some?
    ensures Total(Spend(cur, ins, n).value) + SumEntries(Resolved(s, v, ins, n), n) == Total(cur)
  {
    hide Represents;
    hide CollectInput;
    hide Resolve;
    hide Total;
    CollectInputsSpend(s, v, cur, ins, n);
    if n > 0 {
      SpendTotal(s, v, cur, ins, n - 1);
      CollectInputsSpend(s, v, cur, ins, n - 1);
      var mid := Spend(cur, ins, n - 1).value;
      var op := ins[n - 1].prevOut;
      CollectInputSpends(s, CollectInputs(s, v, ins, n - 1).value, mid, op);
      TotalRemove(mid, op);
      SumPrefix(Resolved(s, v, ins, n - 1), [mid[op]], n - 1);
      assert Resolved(s, v, ins, n) == Resolved(s, v, ins, n - 1) + [mid[op]];
    }
  }

  lemma {:induction false} AddCreatedTotal(s: Utxos, v: View, cur: Utxos, rest: Utxos, id: Hash, tx: Transaction,
                                           height: nat)
    requires Represents(s, v, cur) && FreshId(s, v, id) && forall op :: op in rest ==> op in cur
    ensures Total(rest + Created(id, tx, height)) == Total(rest) + SumOutputs(tx.outputs, |tx.outputs|)
  {
    CreatedUpToIs(id, tx, |tx.outputs|, height);
    CreatedTotal(id, tx, |tx.outputs|, height);
    TotalDisjoint(rest, Created(id, tx, height));
  }

  /** A valid transaction removes its fee from the total; a coinbase adds its outputs. */
  lemma {:induction false} TxTotal(r: Rules, s: Utxos, v: View, cur: Utxos, tx: Transaction, height: nat,
                                   medianTime: nat)
    requires Represents(s, v, cur) && FreshId(s, v, r.txid(tx)) && TxOk(r, s, v, tx, height, medianTime)
    ensures ApplyTx(r, cur, tx, height).Some?
    ensures Total(ApplyTx(r, cur, tx, height).value) == Total(cur) - Fee(s, v, tx)
      + (if tx.IsCoinbase() then SumOutputs(tx.outputs, |tx.outputs|) else 0)
  {
    hide Represents;
    hide FreshId;
    if tx.IsCoinbase() {
      AddCreatedTotal(s, v, cur, cur, r.txid(tx), tx, height);
    } else {
      SpendTotal(s, v, cur, tx.inputs, |tx.inputs|);
      SpendEffect(cur, tx.inputs, |tx.inputs|);
      AddCreatedTotal(s, v, cur, Spend(cur, tx.inputs, |tx.inputs|).value, r.txid(tx), tx, height);
    }
  }

  /** Conservation over the first n transactions of a block. */
  lemma {:induction false} TxsTotal(r: Rules, s: Utxos, txs: seq<Transaction>, n: nat, height: nat, medianTime: nat)
    requires 0 < n <= |txs| && FreshBlock(r, s, txs) && TxsOk(r, s, txs, n, height, medianTime)
    requires txs[0].IsCoinbase() && forall i :: 1 <= i < |txs| ==> !txs[i].IsCoinbase()
    ensures ApplyTxs(r, s, txs, n, height).Some?
    ensures Total(ApplyTxs(r, s, txs, n, height).value) + Fees(r, s, txs, n, height, medianTime)
      == Total(s) + SumOutputs(txs[0].outputs, |txs[0].outputs|)
  {
    hide TxOk;
    hide FreshBlock;
    hide ApplyTx;
    hide CollectTx;
    CollectRepresents(r, s, txs, n - 1, height);
    var v := CollectTxs(r, s, txs, n - 1, height).value;
    FreshNext(r, s, txs, n, v);
    TxTotal(r, s, v, ApplyTxs(r, s, txs, n - 1, height).value, txs[n - 1], height, medianTime);
    if n > 1 {
      TxsTotal(r, s, txs, n - 1, height, medianTime);
    }
  }

  /** No inflation: a valid block changes the total by its coinbase less its fees,
      and so raises it by at most the subsidy of its height. */
  lemma {:induction false} BlockTotal(r: Rules, prefix: seq<Block>, b: Block)
    requires GenesisOk(r) && ValidChain(r, prefix) && BlockOk(r, prefix, b)
    requires NoCollision(r, AllTxs(prefix + [b]))
    ensures Total(Replay(r, prefix + [b])) + Fees(r, Replay(r, prefix), b.txs, |b.txs|, |prefix|,
                                                  ChainMedian(HeadersOf(prefix)))
      == Total(Replay(r, prefix)) + SumOutputs(b.txs[0].outputs, |b.txs[0].outputs|)
    ensures Total(Replay(r, prefix + [b])) <= Total(Replay(r, prefix)) + CalcSubsidy(r.params, |prefix|)
  {
    hide TxsOk;
    ValidBlockIsFresh(r, prefix, b);
    TxsTotal(r, Replay(r, prefix), b.txs, |b.txs|, |prefix|, ChainMedian(HeadersOf(prefix)));
  }

  /** Over a whole chain the total exceeds the genesis total by at most the subsidies. */
  lemma {:induction false} ChainTotal(r: Rules, chain: seq<Block>)
    requires GenesisOk(r) && ValidChain(r, chain) && NoCollision(r, AllTxs(chain))
    ensures Total(Replay(r, chain)) <= Total(GenesisUtxos(r)) + SubsidySum(r.params, 1, |chain|)
    decreases |chain|
  {
    hide BlockOk;
    var n := |chain| - 1;
    if n > 0 {
      assert chain == chain[..n] + [chain[n]];
      assert forall t :: t in AllTxs(chain[..n]) ==> t in AllTxs(chain);
      ChainTotal(r, chain[..n]);
      BlockTotal(r, chain[..n], chain[n]);
    }
  }

  /** The mainnet genesis: its one coinbase pays only to a placeholder script. */
  ghost predicate MainnetGenesis(r: Rules) {
    && GenesisOk(r)
    && forall i :: 0 <= i < |r.params.genesis.txs[0].outputs| ==>
         IsLegacyPlaceholder(r.params.genesis.txs[0].outputs[i].pkScript)
  }

  /** The coinbase script of the mainnet genesis block, "fairchain genesis". */
  const GENESIS_SCRIPT: seq<Byte> :=
    [0x66, 0x61, 0x69, 0x72, 0x63, 0x68, 0x61, 0x69, 0x6e, 0x20, 0x67, 0x65, 0x6e, 0x65, 0x73, 0x69, 0x73]

  function MainnetCoinbase(): Transaction {
    Transaction(1, [TxInput(COINBASE_OUT_POINT, GENESIS_SCRIPT, 0xFFFF_FFFF)], [TxOutput(MAINNET_SUBSIDY, [0])], 0)
  }

  /** The genesis block of mainnet is as the bound on its coins assumes. */
  lemma MainnetGenesisHolds(r: Rules)
    requires r.params.genesis.txs == [MainnetCoinbase()]
    ensures MainnetGenesis(r)
  {
    assert MainnetCoinbase().IsCoinbase();
  }

  lemma {:induction false} PlaceholdersAddNothing(id: Hash, tx: Transaction, n: nat)
    requires n <= |tx.outputs|
    requires forall i :: 0 <= i < |tx.outputs| ==> IsLegacyPlaceholder(tx.outputs[i].pkScript)
    ensures GenesisOutputs(id, tx, n) == map[]
  {
    if n > 0 {
      PlaceholdersAddNothing(id, tx, n - 1);
    }
  }

  /** On mainnet the coins in existence never exceed MaxMoneyValue, so the overflow
      sentinel of TotalValue is never returned. */
  lemma {:induction false} MainnetCoinsBounded(r: Rules, chain: seq<Block>)
    requires MainnetEconomics(r.params) && MainnetGenesis(r)
    requires ValidChain(r, chain) && NoCollision(r, AllTxs(chain))
    ensures Total(Replay(r, chain)) <= MAX_MONEY - MAINNET_SUBSIDY < TWO64 - 1
  {
    var g := r.params.genesis.txs[0];
    PlaceholdersAddNothing(r.txid(g), g, |g.outputs|);
    assert GenesisTxs(r, map[], r.params.genesis.txs, 0) == map[];
    assert GenesisUtxos(r) == map[];
    ChainTotal(r, chain);
    MainnetSupply(r.params, |chain|);
    SumFromZero(r.params, |chain|);
  }
}
