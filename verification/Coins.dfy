/** Whose coins a valid chain moves, stated on the blocks alone.

    `Honest` says what an accepted transaction may do to the set it is applied to;
    `Books.BooksOk` says it of a whole chain without any set: every input spends, once, an output
    made before it, with that output's script; and the UTXO set is exactly the outputs
    made and not spent, each with the fields of the output that made it. */
module Coins {
  import opened Types
  import opened Amounts
  import opened Utxo
  import opened TxValidation
  import opened Sizes
  import opened Subsidy

  // ---------- One transaction ----------

  predicate HasLocks(r: Rules, height: nat) {
    r.params.locktimeHeight.Some? && height >= r.params.locktimeHeight.value
  }

  /** Input j spends an entry of the set with its script; a coinbase output is old enough,
      and so is any output the input locks itself to, which then is in the base set. */
  ghost predicate HonestInput(r: Rules, base: Utxos, cur: Utxos, tx: Transaction, j: nat, height: nat)
    requires j < |tx.inputs|
  {
    var i, op := tx.inputs[j], tx.inputs[j].prevOut;
    && op in cur && cur[op].value <= MAX_MONEY
    && r.verifyScript(i.sigScript, cur[op].pkScript, tx, j)
    && (cur[op].isCoinbase ==> cur[op].height + r.params.coinbaseMaturity <= height)
    && (HasLocks(r, height) && i.sequence < 0x8000_0000 && op != COINBASE_OUT_POINT ==>
          op in base && i.sequence / 0x40_0000 % 2 == 0 && cur[op].height + i.sequence % 0x1_0000 <= height)
  }

  ghost function ValueOf(cur: Utxos, ins: seq<TxInput>, n: nat): nat
    requires n <= |ins|
  {
    if n == 0 then 0
    else ValueOf(cur, ins, n - 1) + if ins[n - 1].prevOut in cur then cur[ins[n - 1].prevOut].value else 0
  }

  /** The lock time has passed, unless it is zero or every input opts out. */
  ghost predicate Unlocked(tx: Transaction, height: nat, medianTime: nat) {
    tx.lockTime != 0 && (exists i :: 0 <= i < |tx.inputs| && tx.inputs[i].sequence != 0xFFFF_FFFF) ==>
      tx.lockTime < (if tx.lockTime < 500_000_000 then height else medianTime)
  }

  /** What a transaction, not a coinbase, may do to the set. */
  ghost predicate Honest(r: Rules, base: Utxos, cur: Utxos, tx: Transaction, height: nat, medianTime: nat) {
    && |tx.inputs| > 0 && |tx.outputs| > 0 && TxSize(tx) <= 100_000
    && (forall i, j :: 0 <= i < j < |tx.inputs| ==> tx.inputs[i].prevOut != tx.inputs[j].prevOut)
    && (forall j :: 0 <= j < |tx.inputs| ==> HonestInput(r, base, cur, tx, j, height))
    && (forall i :: 0 <= i < |tx.outputs| ==> 0 < tx.outputs[i].value <= MAX_MONEY)
    && SumOutputs(tx.outputs, |tx.outputs|) <= ValueOf(cur, tx.inputs, |tx.inputs|) <= MAX_MONEY
    && (HasLocks(r, height) ==> Unlocked(tx, height, medianTime))
  }

  /** The resolved entries are those of the sequential state. */
  lemma {:induction false} ResolvedAre(s: Utxos, v: View, cur: Utxos, ins: seq<TxInput>, n: nat)
    requires n <= |ins| && Represents(s, v, cur) && CollectInputs(s, v, ins, n).Some?
    ensures forall j :: 0 <= j < n ==> ins[j].prevOut in cur && Resolved(s, v, ins, n)[j] == cur[ins[j].prevOut]
    ensures SumEntries(Resolved(s, v, ins, n), n) == ValueOf(cur, ins, n)
  {
    hide Represents;
    hide CollectInput;
    hide Resolve;
    hide Spend;
    if n > 0 {
      ResolvedAre(s, v, cur, ins, n - 1);
      CollectInputsSpend(s, v, cur, ins, n - 1);
      var mid, op := Spend(cur, ins, n - 1).value, ins[n - 1].prevOut;
      CollectInputSpends(s, CollectInputs(s, v, ins, n - 1).value, mid, op);
      SpendIsOf(cur, ins, n - 1, op);
      SumPrefix(Resolved(s, v, ins, n - 1), [cur[op]], n - 1);
      assert Resolved(s, v, ins, n) == Resolved(s, v, ins, n - 1) + [cur[op]];
    }
  }

  /** Spending removes exactly the outpoints named, which differ. */
  lemma {:induction false} SpendIs(s: Utxos, ins: seq<TxInput>, n: nat)
    requires n <= |ins| && Spend(s, ins, n).Some?
    ensures var m := Spend(s, ins, n).value;
      && (forall op :: op in m <==> op in s && forall j :: 0 <= j < n ==> ins[j].prevOut != op)
      && (forall op :: op in m ==> m[op] == s[op])
    ensures forall i, j :: 0 <= i < j < n ==> ins[i].prevOut != ins[j].prevOut
    ensures forall j :: 0 <= j < n ==> ins[j].prevOut in s
  {
    if n > 0 {
      SpendIs(s, ins, n - 1);
    }
  }

  lemma {:induction false} SpendIsOf(s: Utxos, ins: seq<TxInput>, n: nat, op: OutPoint)
    requires n <= |ins| && Spend(s, ins, n).Some? && op in Spend(s, ins, n).value
    ensures op in s && Spend(s, ins, n).value[op] == s[op]
  {
    SpendIs(s, ins, n);
  }

  /** Different entries of a set can all be spent. */
  lemma {:induction false} SpendWorks(s: Utxos, ins: seq<TxInput>, n: nat)
    requires n <= |ins| && forall j :: 0 <= j < n ==> ins[j].prevOut in s
    requires forall i, j :: 0 <= i < j < n ==> ins[i].prevOut != ins[j].prevOut
    ensures Spend(s, ins, n).Some?
  {
    if n > 0 {
      SpendWorks(s, ins, n - 1);
      SpendIs(s, ins, n - 1);
    }
  }

  /** The rules for a transaction on view v of set s, with relative locks against base. */
  predicate RulesHold(r: Rules, base: Utxos, s: Utxos, v: View, tx: Transaction, height: nat, medianTime: nat) {
    && ShapeOk(tx)
    && CollectInputs(s, v, tx.inputs, |tx.inputs|).Some?
    && var es := Resolved(s, v, tx.inputs, |tx.inputs|);
    && InputsOk(r, es, height)
    && OutputsOk(tx.outputs)
    && SumEntries(es, |es|) >= SumOutputs(tx.outputs, |tx.outputs|)
    && ScriptsOk(r, tx, es)
    && LocksOk(r, base, tx, height, medianTime)
  }

  /** The rules for the entry e that input j resolves to. */
  predicate EntryRule(r: Rules, base: Utxos, tx: Transaction, j: nat, e: UtxoEntry, height: nat)
    requires j < |tx.inputs|
  {
    && InputEntryOk(r, e, height) && r.verifyScript(tx.inputs[j].sigScript, e.pkScript, tx, j)
    && (LocksActive(r, height) ==> SequenceOk(base, tx.inputs[j], height))
  }

  lemma {:induction false} InputDecided(r: Rules, base: Utxos, cur: Utxos, tx: Transaction, j: nat, height: nat)
    requires j < |tx.inputs| && tx.inputs[j].prevOut in cur
    requires forall op :: op in base && op in cur ==> cur[op] == base[op]
    ensures HonestInput(r, base, cur, tx, j, height) <==>
      EntryRule(r, base, tx, j, cur[tx.inputs[j].prevOut], height)
  {
  }

  /** The rules for all entries, one input at a time. */
  lemma RulesByInput(r: Rules, base: Utxos, tx: Transaction, es: seq<UtxoEntry>, height: nat, medianTime: nat)
    requires |es| == |tx.inputs|
    ensures InputsOk(r, es, height) && ScriptsOk(r, tx, es) && LocksOk(r, base, tx, height, medianTime) <==>
      && (forall j :: 0 <= j < |es| ==> EntryRule(r, base, tx, j, es[j], height))
      && SumEntries(es, |es|) <= MAX_MONEY && (LocksActive(r, height) ==> Final(tx, height, medianTime))
  {
    hide InputEntryOk;
    hide SequenceOk;
    hide Final;
    hide SumEntries;
    if forall j :: 0 <= j < |es| ==> EntryRule(r, base, tx, j, es[j], height) {
      forall j | 0 <= j < |es|
        ensures InputEntryOk(r, es[j], height) && r.verifyScript(tx.inputs[j].sigScript, es[j].pkScript, tx, j)
        ensures LocksActive(r, height) ==> SequenceOk(base, tx.inputs[j], height)
      {
        assert EntryRule(r, base, tx, j, es[j], height);
      }
    }
  }

  lemma FinalIs(tx: Transaction, height: nat, medianTime: nat)
    ensures Final(tx, height, medianTime) <==> Unlocked(tx, height, medianTime)
  {
  }

  lemma {:induction false} RulesDecide(r: Rules, base: Utxos, s: Utxos, v: View, cur: Utxos, tx: Transaction,
                                       height: nat, medianTime: nat)
    requires Represents(s, v, cur) && forall op :: op in base && op in cur ==> cur[op] == base[op]
    ensures RulesHold(r, base, s, v, tx, height, medianTime) <==> Honest(r, base, cur, tx, height, medianTime)
  {
    hide Represents;
    hide CollectInputs;
    hide Resolved;
    hide Spend;
    hide Honest;
    hide RulesHold;
    CollectInputsSpend(s, v, cur, tx.inputs, |tx.inputs|);
    if Honest(r, base, cur, tx, height, medianTime) {
      InputsPresent(r, base, cur, tx, height, medianTime);
      SpendWorks(cur, tx.inputs, |tx.inputs|);
    }
    if CollectInputs(s, v, tx.inputs, |tx.inputs|).Some? {
      SpendIs(cur, tx.inputs, |tx.inputs|);
      ResolvedAre(s, v, cur, tx.inputs, |tx.inputs|);
      RulesOnEntries(r, base, s, v, cur, tx, height, medianTime);
    } else {
      NothingCollected(r, base, s, v, tx, height, medianTime);
    }
  }

  lemma NothingCollected(r: Rules, base: Utxos, s: Utxos, v: View, tx: Transaction, height: nat, medianTime: nat)
    requires CollectInputs(s, v, tx.inputs, |tx.inputs|).None?
    ensures !RulesHold(r, base, s, v, tx, height, medianTime)
  {
  }

  /** The rules hold on the resolved entries exactly if the transaction is honest. */
  lemma {:induction false} RulesOnEntries(r: Rules, base: Utxos, s: Utxos, v: View, cur: Utxos, tx: Transaction,
                                          height: nat, medianTime: nat)
    requires CollectInputs(s, v, tx.inputs, |tx.inputs|).Some?
    requires forall op :: op in base && op in cur ==> cur[op] == base[op]
    requires var es := Resolved(s, v, tx.inputs, |tx.inputs|);
      && (forall j :: 0 <= j < |tx.inputs| ==> tx.inputs[j].prevOut in cur && es[j] == cur[tx.inputs[j].prevOut])
      && SumEntries(es, |es|) == ValueOf(cur, tx.inputs, |tx.inputs|)
    requires forall i, j :: 0 <= i < j < |tx.inputs| ==> tx.inputs[i].prevOut != tx.inputs[j].prevOut
    ensures RulesHold(r, base, s, v, tx, height, medianTime) <==> Honest(r, base, cur, tx, height, medianTime)
  {
    hide CollectInputs;
    hide Resolved;
    hide HonestInput;
    hide EntryRule;
    hide InputsOk;
    hide ScriptsOk;
    hide LocksOk;
    hide Final;
    hide Unlocked;
    hide SumEntries;
    hide ValueOf;
    var es := Resolved(s, v, tx.inputs, |tx.inputs|);
    FinalIs(tx, height, medianTime);
    RulesByInput(r, base, tx, es, height, medianTime);
    forall j | 0 <= j < |tx.inputs|
      ensures HonestInput(r, base, cur, tx, j, height) <==> EntryRule(r, base, tx, j, es[j], height)
    {
      InputDecided(r, base, cur, tx, j, height);
    }
  }

  lemma InputsPresent(r: Rules, base: Utxos, cur: Utxos, tx: Transaction, height: nat, medianTime: nat)
    requires Honest(r, base, cur, tx, height, medianTime)
    ensures forall j :: 0 <= j < |tx.inputs| ==> tx.inputs[j].prevOut in cur
    ensures forall i, j :: 0 <= i < j < |tx.inputs| ==> tx.inputs[i].prevOut != tx.inputs[j].prevOut
  {
    forall j | 0 <= j < |tx.inputs| ensures tx.inputs[j].prevOut in cur {
      assert HonestInput(r, base, cur, tx, j, height);
    }
  }

  /** In a block: accepted on a view exactly if honest on the set the view stands for. */
  lemma {:induction false} SpendDecided(r: Rules, s: Utxos, v: View, cur: Utxos, tx: Transaction, height: nat,
                                        medianTime: nat)
    requires Represents(s, v, cur)
    ensures SpendOk(r, s, v, tx, height, medianTime) <==> Honest(r, s, cur, tx, height, medianTime)
    ensures SpendOk(r, s, v, tx, height, medianTime) && !tx.IsCoinbase() ==>
      Fee(s, v, tx) == ValueOf(cur, tx.inputs, |tx.inputs|) - SumOutputs(tx.outputs, |tx.outputs|)
  {
    hide Honest;
    hide CollectInputs;
    hide Resolved;
    hide UndoCovers;
    RulesDecide(r, s, s, v, cur, tx, height, medianTime);
    if CollectInputs(s, v, tx.inputs, |tx.inputs|).Some? {
      ResolvedAre(s, v, cur, tx.inputs, |tx.inputs|);
    }
  }

  /** In the mempool: admitted exactly if honest on the set and the outputs of unconfirmed
      parents; the fee is what the transaction leaves of their value. */
  lemma {:induction false} SingleDecided(r: Rules, s: Utxos, extra: Utxos, tx: Transaction, height: nat, now: nat)
    ensures SingleOk(r, s, extra, tx, height, now) <==> !tx.IsCoinbase() && Honest(r, s, extra + s, tx, height, now)
    ensures SingleOk(r, s, extra, tx, height, now) ==>
      && CollectInputs(extra + s, EMPTY_VIEW, tx.inputs, |tx.inputs|).Some?
      && Fee(extra + s, EMPTY_VIEW, tx)
         == ValueOf(extra + s, tx.inputs, |tx.inputs|) - SumOutputs(tx.outputs, |tx.outputs|)
  {
    hide Honest;
    hide CollectInputs;
    hide Resolved;
    var cur := extra + s;
    assert cur == (cur - {}) + map[];
    RulesDecide(r, s, cur, EMPTY_VIEW, cur, tx, height, now);
    if CollectInputs(cur, EMPTY_VIEW, tx.inputs, |tx.inputs|).Some? {
      ResolvedAre(cur, EMPTY_VIEW, cur, tx.inputs, |tx.inputs|);
    }
  }

  // ---------- One block ----------

  /** Each of the first n transactions is honest on the set those before it leave. */
  ghost predicate AllHonest(r: Rules, s: Utxos, txs: seq<Transaction>, n: nat, height: nat, medianTime: nat)
    requires n <= |txs|
  {
    forall t :: 0 <= t < n ==> HonestAt(r, s, txs, t, height, medianTime)
  }

  ghost predicate HonestAt(r: Rules, s: Utxos, txs: seq<Transaction>, t: nat, height: nat, medianTime: nat)
    requires t < |txs|
  {
    var cur := ApplyTxs(r, s, txs, t, height);
    && cur.Some?
    && (if txs[t].IsCoinbase() then forall i :: 0 <= i < |txs[t].outputs| ==> txs[t].outputs[i].value > 0
        else Honest(r, s, cur.value, txs[t], height, medianTime))
  }

  /** What the first n transactions leave of the value they spend. */
  ghost function LeftOver(r: Rules, s: Utxos, txs: seq<Transaction>, n: nat, height: nat): int
    requires n <= |txs|
  {
    if n == 0 then 0
    else
      var tx, cur := txs[n - 1], ApplyTxs(r, s, txs, n - 1, height);
      LeftOver(r, s, txs, n - 1, height)
      + if tx.IsCoinbase() || cur.None? then 0
        else ValueOf(cur.value, tx.inputs, |tx.inputs|) - SumOutputs(tx.outputs, |tx.outputs|)
  }

  lemma {:induction false} ScanDecided(r: Rules, s: Utxos, txs: seq<Transaction>, n: nat, height: nat, medianTime: nat)
    requires n <= |txs| && FreshBlock(r, s, txs)
    ensures TxsOk(r, s, txs, n, height, medianTime) <==> AllHonest(r, s, txs, n, height, medianTime)
    ensures TxsOk(r, s, txs, n, height, medianTime) ==>
      Fees(r, s, txs, n, height, medianTime) == LeftOver(r, s, txs, n, height)
  {
    hide Honest;
    hide SpendOk;
    hide Represents;
    hide CollectTx;
    hide ApplyTx;
    hide Fee;
    hide FreshBlock;
    if n > 0 {
      ScanDecided(r, s, txs, n - 1, height, medianTime);
      CollectRepresents(r, s, txs, n - 1, height);
      AllButLast(r, s, txs, n, height, medianTime);
      if TxsOk(r, s, txs, n - 1, height, medianTime) {
        var v, cur := CollectTxs(r, s, txs, n - 1, height).value, ApplyTxs(r, s, txs, n - 1, height).value;
        SpendDecided(r, s, v, cur, txs[n - 1], height, medianTime);
        CoinbaseFee(s, v, txs[n - 1]);
      }
    }
  }

  lemma AllButLast(r: Rules, s: Utxos, txs: seq<Transaction>, n: nat, height: nat, medianTime: nat)
    requires 0 < n <= |txs|
    ensures AllHonest(r, s, txs, n, height, medianTime) <==>
      AllHonest(r, s, txs, n - 1, height, medianTime) && HonestAt(r, s, txs, n - 1, height, medianTime)
  {
    hide HonestAt;
  }

  lemma CoinbaseFee(s: Utxos, v: View, tx: Transaction)
    ensures tx.IsCoinbase() ==> Fee(s, v, tx) == 0
  {
  }

  /** The transactions of a block are accepted exactly if each is honest on the set those
      before it leave, and the coinbase pays no more than the subsidy and what is left over. */
  lemma {:induction false} BlockDecided(r: Rules, s: Utxos, txs: seq<Transaction>, height: nat, medianTime: nat)
    requires |txs| > 0 && FreshBlock(r, s, txs)
    ensures TxInputsOk(r, s, txs, height, medianTime) <==>
      && AllHonest(r, s, txs, |txs|, height, medianTime)
      && var reward := CalcSubsidy(r.params, height) + LeftOver(r, s, txs, |txs|, height);
      && SumOutputs(txs[0].outputs, |txs[0].outputs|) <= reward < TWO64
  {
    hide AllHonest;
    hide LeftOver;
    hide TxsOk;
    hide Fees;
    ScanDecided(r, s, txs, |txs|, height, medianTime);
  }

  /** Every transaction of an accepted block is honest on the set it is applied to. */
  lemma {:induction false} AcceptedBlock(r: Rules, s: Utxos, txs: seq<Transaction>, t: nat, height: nat,
                                         medianTime: nat)
    requires t < |txs| && FreshBlock(r, s, txs) && TxInputsOk(r, s, txs, height, medianTime)
    ensures ApplyTxs(r, s, txs, t, height).Some?
    ensures !txs[t].IsCoinbase() ==> Honest(r, s, ApplyTxs(r, s, txs, t, height).value, txs[t], height, medianTime)
  {
    hide Honest;
    hide TxInputsOk;
    hide LeftOver;
    BlockDecided(r, s, txs, height, medianTime);
    assert HonestAt(r, s, txs, t, height, medianTime);
  }
}
