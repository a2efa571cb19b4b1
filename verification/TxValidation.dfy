/** Validation of a block's transactions against the UTXO set
    (internal/consensus/txvalidation.go).

    `TxInputsOk` states the rules over true integers; the methods are the node's
    scanning loops with their 64-bit wrap guards, and are proved to accept exactly
    the blocks the rules accept and to return the true sum of the fees. */
module TxValidation {
  import opened Types
  import opened Amounts
  import opened Utxo
  import opened UtxoSets
  import opened Subsidy
  import opened Sizes

  const MAX_TX_SIZE: int := 100_000
  const LOCKTIME_THRESHOLD: int := 500_000_000
  const SEQUENCE_FINAL: int := 0xFFFF_FFFF

  // ---------- The rules ----------

  predicate Mature(r: Rules, e: UtxoEntry, height: nat) {
    e.isCoinbase ==> height >= e.height && height - e.height >= r.params.coinbaseMaturity
  }

  /** The entries the first n inputs resolve to. */
  function Resolved(s: Utxos, v: View, ins: seq<TxInput>, n: nat): (es: seq<UtxoEntry>)
    requires n <= |ins| && CollectInputs(s, v, ins, n).Some?
    ensures |es| == n
  {
    if n == 0 then []
    else Resolved(s, v, ins, n - 1) + [Resolve(s, CollectInputs(s, v, ins, n - 1).value, ins[n - 1].prevOut).value]
  }

  function SumEntries(es: seq<UtxoEntry>, n: nat): nat
    requires n <= |es|
  {
    if n == 0 then 0 else SumEntries(es, n - 1) + es[n - 1].value
  }

  predicate InputEntryOk(r: Rules, e: UtxoEntry, height: nat) {
    Mature(r, e, height) && e.value <= MAX_MONEY
  }

  predicate InputsOk(r: Rules, es: seq<UtxoEntry>, height: nat) {
    && (forall i :: 0 <= i < |es| ==> InputEntryOk(r, es[i], height))
    && SumEntries(es, |es|) <= MAX_MONEY
  }

  predicate OutputsOk(outs: seq<TxOutput>) {
    && (forall i :: 0 <= i < |outs| ==> 0 < outs[i].value <= MAX_MONEY)
    && SumOutputs(outs, |outs|) <= MAX_MONEY
  }

  predicate ScriptsOk(r: Rules, tx: Transaction, es: seq<UtxoEntry>)
    requires |es| == |tx.inputs|
  {
    forall i :: 0 <= i < |es| ==> r.verifyScript(tx.inputs[i].sigScript, es[i].pkScript, tx, i)
  }

  /** A transaction is final: its lock time is zero or passed, or every input opts out. */
  predicate Final(tx: Transaction, height: nat, medianTime: nat) {
    || tx.lockTime == 0
    || (forall i :: 0 <= i < |tx.inputs| ==> tx.inputs[i].sequence == SEQUENCE_FINAL)
    || (if tx.lockTime < LOCKTIME_THRESHOLD then tx.lockTime < height else tx.lockTime < medianTime)
  }

  /** The relative lock of one input against the confirmed set. */
  predicate SequenceOk(s: Utxos, i: TxInput, height: nat) {
    || i.sequence / 0x8000_0000 == 1
    || i.prevOut == COINBASE_OUT_POINT
    || (&& i.prevOut in s
        && (i.sequence / 0x40_0000) % 2 == 0
        && height >= s[i.prevOut].height
        && height - s[i.prevOut].height >= i.sequence % 0x1_0000)
  }

  predicate SequencesOk(s: Utxos, tx: Transaction, height: nat) {
    forall i :: 0 <= i < |tx.inputs| ==> SequenceOk(s, tx.inputs[i], height)
  }

  predicate LocksActive(r: Rules, height: nat) {
    r.params.locktimeHeight.Some? && height >= r.params.locktimeHeight.value
  }

  predicate LocksOk(r: Rules, s: Utxos, tx: Transaction, height: nat, medianTime: nat) {
    LocksActive(r, height) ==> Final(tx, height, medianTime) && SequencesOk(s, tx, height)
  }

  predicate ShapeOk(tx: Transaction) {
    |tx.inputs| > 0 && |tx.outputs| > 0 && TxSize(tx) <= MAX_TX_SIZE
  }

  /** A non-coinbase transaction is valid on top of view v of set s. */
  predicate SpendOk(r: Rules, s: Utxos, v: View, tx: Transaction, height: nat, medianTime: nat) {
    && ShapeOk(tx)
    && CollectInputs(s, v, tx.inputs, |tx.inputs|).Some?
    && var es := Resolved(s, v, tx.inputs, |tx.inputs|);
    && InputsOk(r, es, height)
    && OutputsOk(tx.outputs)
    && SumEntries(es, |es|) >= SumOutputs(tx.outputs, |tx.outputs|)
    && ScriptsOk(r, tx, es)
    && LocksOk(r, s, tx, height, medianTime)
  }

  predicate TxOk(r: Rules, s: Utxos, v: View, tx: Transaction, height: nat, medianTime: nat) {
    if tx.IsCoinbase() then forall i :: 0 <= i < |tx.outputs| ==> tx.outputs[i].value > 0
    else SpendOk(r, s, v, tx, height, medianTime)
  }

  /** The first n transactions are valid, each on top of the ones before it. */
  predicate TxsOk(r: Rules, s: Utxos, txs: seq<Transaction>, n: nat, height: nat, medianTime: nat)
    requires n <= |txs|
    ensures TxsOk(r, s, txs, n, height, medianTime) ==> CollectTxs(r, s, txs, n, height).Some?
  {
    n == 0 ||
    (&& TxsOk(r, s, txs, n - 1, height, medianTime)
     && TxOk(r, s, CollectTxs(r, s, txs, n - 1, height).value, txs[n - 1], height, medianTime))
  }

  function Fee(s: Utxos, v: View, tx: Transaction): int
    requires !tx.IsCoinbase() ==> CollectInputs(s, v, tx.inputs, |tx.inputs|).Some?
  {
    if tx.IsCoinbase() then 0
    else SumEntries(Resolved(s, v, tx.inputs, |tx.inputs|), |tx.inputs|) - SumOutputs(tx.outputs, |tx.outputs|)
  }

  function Fees(r: Rules, s: Utxos, txs: seq<Transaction>, n: nat, height: nat, medianTime: nat): nat
    requires n <= |txs| && TxsOk(r, s, txs, n, height, medianTime)
  {
    if n == 0 then 0
    else Fees(r, s, txs, n - 1, height, medianTime) + Fee(s, CollectTxs(r, s, txs, n - 1, height).value, txs[n - 1])
  }

  /** The acceptance rule for the transactions of a block. */
  predicate TxInputsOk(r: Rules, s: Utxos, txs: seq<Transaction>, height: nat, medianTime: nat)
    requires |txs| > 0
  {
    && TxsOk(r, s, txs, |txs|, height, medianTime)
    && var reward := CalcSubsidy(r.params, height) + Fees(r, s, txs, |txs|, height, medianTime);
    && reward < TWO64
    && SumOutputs(txs[0].outputs, |txs[0].outputs|) <= reward
  }

  // ---------- The scanning loops ----------

  method CheckTransactionFinality(tx: Transaction, height: nat, medianTime: nat) returns (ok: bool)
    ensures ok == Final(tx, height, medianTime)
  {
    if tx.lockTime == 0 {
      return true;
    }
    var allFinal := true;
    var i := 0;
    while i < |tx.inputs|
      invariant 0 <= i <= |tx.inputs|
      invariant allFinal && forall j :: 0 <= j < i ==> tx.inputs[j].sequence == SEQUENCE_FINAL
    {
      if tx.inputs[i].sequence != SEQUENCE_FINAL {
        allFinal := false;
        break;
      }
      i := i + 1;
    }
    if allFinal {
      return true;
    }
    if tx.lockTime < LOCKTIME_THRESHOLD {
      ok := tx.lockTime < height;
    } else {
      ok := tx.lockTime < medianTime;
    }
  }

  method CheckSequenceLocks(tx: Transaction, height: nat, s: Utxos) returns (ok: bool)
    ensures ok == SequencesOk(s, tx, height)
  {
    var i := 0;
    while i < |tx.inputs|
      invariant 0 <= i <= |tx.inputs|
      invariant forall j :: 0 <= j < i ==> SequenceOk(s, tx.inputs[j], height)
    {
      var inp := tx.inputs[i];
      i := i + 1;
      if inp.sequence / 0x8000_0000 == 1 {
        continue;
      }
      if inp.prevOut == COINBASE_OUT_POINT {
        continue;
      }
      if inp.prevOut !in s {
        return false;
      }
      if (inp.sequence / 0x40_0000) % 2 != 0 {
        return false;
      }
      if height < s[inp.prevOut].height {
        return false;
      }
      if height - s[inp.prevOut].height < inp.sequence % 0x1_0000 {
        return false;
      }
    }
    ok := true;
  }

  method AddInput(r: Rules, entry: UtxoEntry, height: nat, total0: U64) returns (ok: bool, total: U64)
    ensures ok == (InputEntryOk(r, entry, height) && total0 + entry.value <= MAX_MONEY)
    ensures ok ==> total == total0 + entry.value
  {
    total := total0;
    if entry.isCoinbase {
      if height < entry.height {
        return false, 0;
      }
      if height - entry.height < r.params.coinbaseMaturity {
        return false, 0;
      }
    }
    WrapGuard(total, entry.value);
    if Add64(total, entry.value) < total || entry.value > MAX_MONEY {
      return false, 0;
    }
    total := Add64(total, entry.value);
    ok := total <= MAX_MONEY;
  }

  method CheckInputs(r: Rules, s: Utxos, spent0: set<OutPoint>, created0: Utxos, tx: Transaction, height: nat,
                     ghost v: View)
    returns (ok: bool, spentInBlock: set<OutPoint>, createdInBlock: Utxos, totalIn: U64, resolved: seq<UtxoEntry>)
    requires v.spent == spent0 && v.created == created0
    ensures ok == (CollectInputs(s, v, tx.inputs, |tx.inputs|).Some?
                   && InputsOk(r, Resolved(s, v, tx.inputs, |tx.inputs|), height))
    ensures ok ==>
      && resolved == Resolved(s, v, tx.inputs, |tx.inputs|)
      && totalIn == SumEntries(resolved, |resolved|)
      && var v' := CollectInputs(s, v, tx.inputs, |tx.inputs|).value;
      && spentInBlock == v'.spent && createdInBlock == v'.created
  {
    hide InputEntryOk;
    hide InputsOk;
    hide SumEntries;
    NoEntries(r, height);
    spentInBlock, createdInBlock, totalIn, resolved := spent0, created0, 0, [];
    var seenInputs: set<OutPoint> := {};
    var i := 0;
    while i < |tx.inputs|
      invariant 0 <= i <= |tx.inputs|
      invariant CollectInputs(s, v, tx.inputs, i).Some?
      invariant resolved == Resolved(s, v, tx.inputs, i)
      invariant InputsOk(r, resolved, height) && totalIn == SumEntries(resolved, i)
      invariant spentInBlock == CollectInputs(s, v, tx.inputs, i).value.spent
      invariant createdInBlock == CollectInputs(s, v, tx.inputs, i).value.created
      invariant seenInputs <= spentInBlock
    {
      var key := tx.inputs[i].prevOut;
      if key in seenInputs || key in spentInBlock || (key !in createdInBlock && key !in s) {
        CollectInputsFails(s, v, tx.inputs, i + 1, |tx.inputs|);
        return false, {}, map[], 0, [];
      }
      seenInputs := seenInputs + {key};
      var entry := if key in createdInBlock then createdInBlock[key] else s[key];
      OneMoreEntry(r, resolved, entry, height);
      ok, totalIn := AddInput(r, entry, height, totalIn);
      if !ok {
        EntryRejected(r, s, v, tx.inputs, height, i + 1);
        return false, {}, map[], 0, [];
      }
      resolved := resolved + [entry];
      spentInBlock := spentInBlock + {key};
      assert key !in createdInBlock ==> createdInBlock - {key} == createdInBlock;
      createdInBlock := createdInBlock - {key};
      i := i + 1;
    }
    ok := true;
  }

  method CheckOutputs(outs: seq<TxOutput>) returns (ok: bool, totalOut: U64)
    ensures ok == OutputsOk(outs)
    ensures ok ==> totalOut == SumOutputs(outs, |outs|)
  {
    totalOut := 0;
    var i := 0;
    while i < |outs|
      invariant 0 <= i <= |outs|
      invariant forall j :: 0 <= j < i ==> 0 < outs[j].value <= MAX_MONEY
      invariant totalOut == SumOutputs(outs, i)
    {
      WrapGuard(totalOut, outs[i].value);
      if outs[i].value == 0 || outs[i].value > MAX_MONEY {
        return false, 0;
      }
      if Add64(totalOut, outs[i].value) < totalOut {
        SumOutputsGrows(outs, i + 1, |outs|);
        return false, 0;
      }
      totalOut := Add64(totalOut, outs[i].value);
      i := i + 1;
    }
    ok := totalOut <= MAX_MONEY;
  }

  method CheckScripts(r: Rules, tx: Transaction, resolved: seq<UtxoEntry>) returns (ok: bool)
    requires |resolved| == |tx.inputs|
    ensures ok == ScriptsOk(r, tx, resolved)
  {
    var i := 0;
    while i < |tx.inputs|
      invariant 0 <= i <= |tx.inputs|
      invariant forall j :: 0 <= j < i ==> r.verifyScript(tx.inputs[j].sigScript, resolved[j].pkScript, tx, j)
    {
      if !r.verifyScript(tx.inputs[i].sigScript, resolved[i].pkScript, tx, i) {
        return false;
      }
      i := i + 1;
    }
    ok := true;
  }

  method CheckLocks(r: Rules, s: Utxos, tx: Transaction, height: nat, medianTime: nat) returns (ok: bool)
    ensures ok == LocksOk(r, s, tx, height, medianTime)
  {
    ok := true;
    if r.params.locktimeHeight.Some? && height >= r.params.locktimeHeight.value {
      ok := CheckTransactionFinality(tx, height, medianTime);
      if ok {
        ok := CheckSequenceLocks(tx, height, s);
      }
    }
  }

  method CheckSpend(r: Rules, s: Utxos, spent0: set<OutPoint>, created0: Utxos, tx: Transaction,
                    height: nat, medianTime: nat, ghost v: View)
    returns (ok: bool, spentInBlock: set<OutPoint>, createdInBlock: Utxos, fee: U64)
    requires v.spent == spent0 && v.created == created0 && !tx.IsCoinbase()
    ensures ok == SpendOk(r, s, v, tx, height, medianTime)
    ensures ok ==>
      && fee == Fee(s, v, tx)
      && var v' := CollectInputs(s, v, tx.inputs, |tx.inputs|).value;
      && spentInBlock == v'.spent && createdInBlock == v'.created
  {
    spentInBlock, createdInBlock, fee := spent0, created0, 0;
    if |tx.inputs| == 0 || |tx.outputs| == 0 || TxSize(tx) > MAX_TX_SIZE {
      return false, {}, map[], 0;
    }
    var totalIn, totalOut, resolved;
    ok, spentInBlock, createdInBlock, totalIn, resolved := CheckInputs(r, s, spent0, created0, tx, height, v);
    if !ok {
      return;
    }
    ok, totalOut := CheckOutputs(tx.outputs);
    if !ok {
      return;
    }
    if totalIn < totalOut {
      ok := false;
      return;
    }
    ok := CheckScripts(r, tx, resolved);
    if !ok {
      return;
    }
    ok := CheckLocks(r, s, tx, height, medianTime);
    fee := totalIn - totalOut;
  }

  method RegisterOutputs(txHash: Hash, tx: Transaction, height: nat, created0: Utxos) returns (createdInBlock: Utxos)
    ensures createdInBlock == created0 + Created(txHash, tx, height)
  {
    createdInBlock := created0;
    var i := 0;
    while i < |tx.outputs|
      invariant 0 <= i <= |tx.outputs|
      invariant createdInBlock == created0 + CreatedUpTo(txHash, tx, i, height)
    {
      var e := UtxoEntry(tx.outputs[i].value, tx.outputs[i].pkScript, height, tx.IsCoinbase());
      UnionUpdate(created0, CreatedUpTo(txHash, tx, i, height), OutPoint(txHash, i), e);
      createdInBlock := createdInBlock[OutPoint(txHash, i) := e];
      i := i + 1;
    }
  }

  method CheckCoinbaseOutputs(outs: seq<TxOutput>) returns (ok: bool)
    ensures ok == forall i :: 0 <= i < |outs| ==> outs[i].value > 0
  {
    var i := 0;
    while i < |outs|
      invariant 0 <= i <= |outs| && forall j :: 0 <= j < i ==> outs[j].value > 0
    {
      if outs[i].value == 0 {
        return false;
      }
      i := i + 1;
    }
    ok := true;
  }

  method ScanTransactions(r: Rules, s: Utxos, txs: seq<Transaction>, height: nat, medianTime: nat)
    returns (fees: Option<U64>)
    ensures fees == if TxsOk(r, s, txs, |txs|, height, medianTime) && Fees(r, s, txs, |txs|, height, medianTime) < TWO64
                    then Some(Fees(r, s, txs, |txs|, height, medianTime)) else None
  {
    hide SpendOk;
    hide CollectInputs;
    hide Resolved;
    var totalFees: U64 := 0;
    var spentInBlock: set<OutPoint> := {};
    var createdInBlock: Utxos := map[];
    var i := 0;
    while i < |txs|
      invariant 0 <= i <= |txs|
      invariant TxsOk(r, s, txs, i, height, medianTime)
      invariant totalFees == Fees(r, s, txs, i, height, medianTime)
      invariant spentInBlock == CollectTxs(r, s, txs, i, height).value.spent
      invariant createdInBlock == CollectTxs(r, s, txs, i, height).value.created
    {
      var tx := txs[i];
      ghost var v := CollectTxs(r, s, txs, i, height).value;
      var ok, fee := true, 0;
      if tx.IsCoinbase() {
        ok := CheckCoinbaseOutputs(tx.outputs);
      } else {
        ok, spentInBlock, createdInBlock, fee :=
          CheckSpend(r, s, spentInBlock, createdInBlock, tx, height, medianTime, v);
      }
      if !ok {
        TxRejected(r, s, txs, height, medianTime, i + 1);
        return None;
      }
      assert TxsOk(r, s, txs, i + 1, height, medianTime);
      createdInBlock := RegisterOutputs(r.txid(tx), tx, height, createdInBlock);
      WrapGuard(totalFees, fee);
      if Add64(totalFees, fee) < totalFees {
        FeesGrow(r, s, txs, height, medianTime, i + 1);
        return None;
      }
      totalFees := Add64(totalFees, fee);
      i := i + 1;
    }
    fees := Some(totalFees);
  }

  /** Accepts exactly the blocks satisfying the rules, and returns their fees. */
  method ValidateTransactionInputs(r: Rules, utxoSet: UtxoSet, txs: seq<Transaction>, height: nat, medianTime: nat)
    returns (fees: Option<U64>)
    requires |txs| > 0
    ensures fees == if TxInputsOk(r, utxoSet.entries, txs, height, medianTime)
                    then Some(Fees(r, utxoSet.entries, txs, |txs|, height, medianTime)) else None
  {
    fees := ScanTransactions(r, utxoSet.entries, txs, height, medianTime);
    if fees.None? {
      return;
    }
    SubsidyBound(r.params, height);
    var subsidy: U64 := CalcSubsidy(r.params, height);
    var maxCoinbase := Add64(subsidy, fees.value);
    WrapGuard(subsidy, fees.value);
    if maxCoinbase < subsidy {
      return None;
    }
    var coinbaseValue := AddUpOutputs(txs[0].outputs);
    if coinbaseValue.None? || coinbaseValue.value > maxCoinbase {
      return None;
    }
  }

  // ---------- Why an early rejection is final ----------

  lemma {:induction false} SumPrefix(es: seq<UtxoEntry>, more: seq<UtxoEntry>, n: nat)
    requires n <= |es|
    ensures SumEntries(es + more, n) == SumEntries(es, n)
  {
    if n > 0 {
      SumPrefix(es, more, n - 1);
    }
  }

  lemma NoEntries(r: Rules, height: nat)
    ensures InputsOk(r, [], height) && SumEntries([], 0) == 0
  {
  }

  lemma {:induction false} OneMoreEntry(r: Rules, es: seq<UtxoEntry>, e: UtxoEntry, height: nat)
    ensures SumEntries(es + [e], |es| + 1) == SumEntries(es, |es|) + e.value
    ensures InputsOk(r, es, height) ==>
      (InputsOk(r, es + [e], height) <==> InputEntryOk(r, e, height) && SumEntries(es, |es|) + e.value <= MAX_MONEY)
  {
    SumPrefix(es, [e], |es|);
    var es' := es + [e];
    assert forall i :: 0 <= i < |es| ==> es'[i] == es[i];
    assert es'[|es|] == e;
  }

  lemma BadPrefix(r: Rules, es: seq<UtxoEntry>, e: UtxoEntry, height: nat)
    requires !InputsOk(r, es, height)
    ensures !InputsOk(r, es + [e], height)
  {
    SumPrefix(es, [e], |es|);
    assert forall k :: 0 <= k < |es| ==> (es + [e])[k] == es[k];
  }

  /** A bad prefix of resolved inputs makes the whole input list bad. */
  lemma {:induction false} EntryRejected(r: Rules, s: Utxos, v: View, ins: seq<TxInput>, height: nat, i: nat)
    requires i <= |ins| && CollectInputs(s, v, ins, i).Some?
    requires !InputsOk(r, Resolved(s, v, ins, i), height)
    ensures CollectInputs(s, v, ins, |ins|).Some? ==> !InputsOk(r, Resolved(s, v, ins, |ins|), height)
    decreases |ins| - i
  {
    hide InputsOk;
    if i < |ins| {
      if CollectInputs(s, v, ins, i + 1).None? {
        CollectInputsFails(s, v, ins, i + 1, |ins|);
      } else {
        var es := Resolved(s, v, ins, i);
        BadPrefix(r, es, Resolve(s, CollectInputs(s, v, ins, i).value, ins[i].prevOut).value, height);
        EntryRejected(r, s, v, ins, height, i + 1);
      }
    }
  }

  lemma {:induction false} TxRejected(r: Rules, s: Utxos, txs: seq<Transaction>, height: nat, medianTime: nat, i: nat)
    requires i <= |txs| && !TxsOk(r, s, txs, i, height, medianTime)
    ensures !TxsOk(r, s, txs, |txs|, height, medianTime)
    decreases |txs| - i
  {
    hide TxOk;
    if i < |txs| {
      TxRejected(r, s, txs, height, medianTime, i + 1);
    }
  }

  lemma FeeNonNegative(r: Rules, s: Utxos, v: View, tx: Transaction, height: nat, medianTime: nat)
    requires TxOk(r, s, v, tx, height, medianTime)
    ensures Fee(s, v, tx) >= 0
  {
  }

  lemma {:induction false} FeesGrow(r: Rules, s: Utxos, txs: seq<Transaction>, height: nat, medianTime: nat, i: nat)
    requires i <= |txs| && TxsOk(r, s, txs, i, height, medianTime)
    ensures TxsOk(r, s, txs, |txs|, height, medianTime) ==>
      Fees(r, s, txs, i, height, medianTime) <= Fees(r, s, txs, |txs|, height, medianTime)
    decreases |txs| - i
  {
    hide TxOk;
    hide Fee;
    if i < |txs| {
      if TxsOk(r, s, txs, i + 1, height, medianTime) {
        FeeNonNegative(r, s, CollectTxs(r, s, txs, i, height).value, txs[i], height, medianTime);
        FeesGrow(r, s, txs, height, medianTime, i + 1);
      } else {
        TxRejected(r, s, txs, height, medianTime, i + 1);
      }
    }
  }

  // ---------- Single transactions ----------

  /** The mempool's rule: as SpendOk for the next block, but inputs may also be found
      among the `extra` outputs of unconfirmed parents, and `now` stands in for the
      median time. Relative locks look at the confirmed set only. */
  predicate SingleOk(r: Rules, s: Utxos, extra: Utxos, tx: Transaction, spendHeight: nat, now: nat) {
    && !tx.IsCoinbase() && ShapeOk(tx)
    && CollectInputs(extra + s, EMPTY_VIEW, tx.inputs, |tx.inputs|).Some?
    && var es := Resolved(extra + s, EMPTY_VIEW, tx.inputs, |tx.inputs|);
    && InputsOk(r, es, spendHeight)
    && OutputsOk(tx.outputs)
    && SumEntries(es, |es|) >= SumOutputs(tx.outputs, |tx.outputs|)
    && ScriptsOk(r, tx, es)
    && LocksOk(r, s, tx, spendHeight, now)
  }

  method ValidateSingleTransaction(r: Rules, tx: Transaction, utxoSet: UtxoSet, tipHeight: nat, supplemental: Utxos,
                                   now: U32)
    returns (fee: Option<U64>)
    ensures fee.Some? <==> SingleOk(r, utxoSet.entries, supplemental, tx, tipHeight + 1, now)
    ensures fee.Some? ==> fee.value == Fee(supplemental + utxoSet.entries, EMPTY_VIEW, tx)
  {
    hide InputsOk;
    hide OutputsOk;
    hide ScriptsOk;
    hide LocksOk;
    if tx.IsCoinbase() || |tx.inputs| == 0 || |tx.outputs| == 0 || TxSize(tx) > MAX_TX_SIZE {
      return None;
    }
    var found := supplemental + utxoSet.entries;
    var ok, spent, created, totalIn, resolved := CheckInputs(r, found, {}, map[], tx, tipHeight + 1, EMPTY_VIEW);
    if !ok {
      return None;
    }
    var totalOut;
    ok, totalOut := CheckOutputs(tx.outputs);
    if !ok || totalIn < totalOut {
      return None;
    }
    ok := CheckScripts(r, tx, resolved);
    if !ok {
      return None;
    }
    ok := CheckLocks(r, utxoSet.entries, tx, tipHeight + 1, now);
    if !ok {
      return None;
    }
    fee := Some(totalIn - totalOut);
  }

  lemma {:induction false} ExtraUnused(s: Utxos, extra: Utxos, v: View, ins: seq<TxInput>, n: nat)
    requires n <= |ins| && forall i :: 0 <= i < n ==> ins[i].prevOut in s
    ensures CollectInputs(extra + s, v, ins, n) == CollectInputs(s, v, ins, n)
    ensures CollectInputs(s, v, ins, n).Some? ==> Resolved(extra + s, v, ins, n) == Resolved(s, v, ins, n)
  {
    if n > 0 {
      ExtraUnused(s, extra, v, ins, n - 1);
    }
  }

  /** A transaction the mempool admits on confirmed outputs alone is valid in the next
      block exactly if its locks are also satisfied at that block's median time. */
  lemma {:induction false} AdmittedFitsNextBlock(r: Rules, s: Utxos, extra: Utxos, tx: Transaction, height: nat,
                                                 now: nat, medianTime: nat)
    requires SingleOk(r, s, extra, tx, height, now)
    requires forall i :: 0 <= i < |tx.inputs| ==> tx.inputs[i].prevOut in s
    ensures TxOk(r, s, EMPTY_VIEW, tx, height, medianTime) <==>
      (LocksActive(r, height) ==> Final(tx, height, medianTime))
    ensures CollectInputs(s, EMPTY_VIEW, tx.inputs, |tx.inputs|).Some?
    ensures Fee(extra + s, EMPTY_VIEW, tx) == Fee(s, EMPTY_VIEW, tx)
  {
    ExtraUnused(s, extra, EMPTY_VIEW, tx.inputs, |tx.inputs|);
  }
}
