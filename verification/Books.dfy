/** The books of a chain: what its blocks say about who owns what, without a UTXO set. */
module Books {
  import opened Types
  import opened Amounts
  import opened Utxo
  import opened UtxoSets
  import opened TxValidation
  import opened MedianTime
  import opened Ledger
  import opened Coins
  import Codec

  // ---------- Outputs made and spent ----------

  /** The place of a transaction in a chain: the height of its block, and its position there. */
  datatype Place = Place(height: nat, pos: nat)

  predicate At(chain: seq<Block>, p: Place) {
    p.height < |chain| && p.pos < |chain[p.height].txs|
  }

  function TxAt(chain: seq<Block>, p: Place): Transaction
    requires At(chain, p)
  {
    chain[p.height].txs[p.pos]
  }

  predicate Earlier(p: Place, q: Place) {
    p.height < q.height || (p.height == q.height && p.pos < q.pos)
  }

  /** The transaction at p makes the output op; the placeholders of genesis are none. */
  predicate Makes(r: Rules, chain: seq<Block>, p: Place, op: OutPoint) {
    && At(chain, p)
    && r.txid(TxAt(chain, p)) == op.hash && op.index < |TxAt(chain, p).outputs|
    && (p.height == 0 ==> var pk := TxAt(chain, p).outputs[op.index].pkScript; pk != [] && pk != [0])
  }

  /** Input j of the transaction at p spends op. */
  predicate Spends(chain: seq<Block>, p: Place, j: nat, op: OutPoint) {
    && At(chain, p) && !TxAt(chain, p).IsCoinbase()
    && j < |TxAt(chain, p).inputs| && TxAt(chain, p).inputs[j].prevOut == op
  }

  ghost predicate Made(r: Rules, chain: seq<Block>, op: OutPoint) {
    exists p :: Makes(r, chain, p, op)
  }

  ghost predicate Spent(chain: seq<Block>, op: OutPoint) {
    exists p, j :: Spends(chain, p, j, op)
  }

  /** The entry of output i of the transaction at p. */
  function OutputAt(chain: seq<Block>, p: Place, i: nat): UtxoEntry
    requires At(chain, p) && i < |TxAt(chain, p).outputs|
  {
    var tx := TxAt(chain, p);
    UtxoEntry(tx.outputs[i].value, tx.outputs[i].pkScript, p.height, tx.IsCoinbase())
  }

  // ---------- The books ----------

  /** No two transactions of the chain share an id, so every output is made at one place. */
  ghost predicate OneEach(r: Rules, chain: seq<Block>) {
    forall p, q :: At(chain, p) && At(chain, q) && r.txid(TxAt(chain, p)) == r.txid(TxAt(chain, q)) ==> p == q
  }

  /** The set holds exactly the outputs made and not spent, as they were made. */
  ghost predicate Unspent(r: Rules, chain: seq<Block>, s: Utxos) {
    && (forall op :: op in s <==> Made(r, chain, op) && !Spent(chain, op))
    && (forall op, p :: op in s && Makes(r, chain, p, op) ==> s[op] == OutputAt(chain, p, op.index))
  }

  /** No output is spent twice. */
  ghost predicate SpentOnce(chain: seq<Block>) {
    forall p, j, q, k, op :: Spends(chain, p, j, op) && Spends(chain, q, k, op) ==> p == q && j == k
  }

  /** The output made at q, which input j of the transaction at p spends, comes earlier, is
      opened by its own script, and is old enough. */
  ghost predicate Opens(r: Rules, chain: seq<Block>, q: Place, p: Place, j: nat)
    requires At(chain, p) && j < |TxAt(chain, p).inputs|
  {
    var tx := TxAt(chain, p);
    var i, op := tx.inputs[j], tx.inputs[j].prevOut;
    && Makes(r, chain, q, op) && Earlier(q, p)
    && r.verifyScript(i.sigScript, TxAt(chain, q).outputs[op.index].pkScript, tx, j)
    && (TxAt(chain, q).IsCoinbase() ==> q.height + r.params.coinbaseMaturity <= p.height)
    && (HasLocks(r, p.height) && i.sequence < 0x8000_0000 && op != COINBASE_OUT_POINT ==>
          && q.height < p.height && i.sequence / 0x40_0000 % 2 == 0
          && q.height + i.sequence % 0x1_0000 <= p.height)
  }

  ghost predicate Opened(r: Rules, chain: seq<Block>, p: Place, j: nat)
    requires At(chain, p) && j < |TxAt(chain, p).inputs|
  {
    exists q :: Opens(r, chain, q, p, j)
  }

  /** The value of the output op where it was made. */
  ghost function Worth(r: Rules, chain: seq<Block>, op: OutPoint): nat {
    if Made(r, chain, op) then
      var p :| Makes(r, chain, p, op);
      TxAt(chain, p).outputs[op.index].value
    else 0
  }

  ghost function WorthOf(r: Rules, chain: seq<Block>, ins: seq<TxInput>, n: nat): nat
    requires n <= |ins|
  {
    if n == 0 then 0 else WorthOf(r, chain, ins, n - 1) + Worth(r, chain, ins[n - 1].prevOut)
  }

  /** A transaction that is no coinbase spends what it may, and at least what it pays out. */
  ghost predicate Lawful(r: Rules, chain: seq<Block>, p: Place)
    requires At(chain, p)
  {
    var tx := TxAt(chain, p);
    !tx.IsCoinbase() ==>
      && |tx.inputs| > 0 && |tx.outputs| > 0 && |Codec.PrintTx(tx)| <= 100_000
      && (forall i :: 0 <= i < |tx.outputs| ==> tx.outputs[i].value > 0)
      && (forall j :: 0 <= j < |tx.inputs| ==> Opened(r, chain, p, j))
      && SumOutputs(tx.outputs, |tx.outputs|) <= WorthOf(r, chain, tx.inputs, |tx.inputs|)
      && (HasLocks(r, p.height) ==> Unlocked(tx, p.height, ChainMedian(HeadersOf(chain[..p.height]))))
  }

  ghost predicate BooksOk(r: Rules, chain: seq<Block>, s: Utxos) {
    && OneEach(r, chain)
    && Unspent(r, chain, s)
    && SpentOnce(chain)
    && (forall p :: At(chain, p) ==> Lawful(r, chain, p))
  }

  // ---------- One more transaction ----------

  /** c' has one more transaction in its last block than c. */
  predicate Adds(c: seq<Block>, c': seq<Block>, tx: Transaction) {
    && |c| == |c'| > 1 && c[..|c| - 1] == c'[..|c| - 1]
    && c'[|c| - 1].txs == c[|c| - 1].txs + [tx]
  }

  function Next(c: seq<Block>): Place
    requires |c| > 0
  {
    Place(|c| - 1, |c[|c| - 1].txs|)
  }

  lemma AddsAt(c: seq<Block>, c': seq<Block>, tx: Transaction, p: Place)
    requires Adds(c, c', tx)
    ensures At(c', p) <==> At(c, p) || p == Next(c)
    ensures At(c, p) ==> TxAt(c', p) == TxAt(c, p) && Earlier(p, Next(c)) && p != Next(c)
    ensures At(c', Next(c)) && TxAt(c', Next(c)) == tx
  {
    var n := |c| - 1;
    if p.height < n {
      assert c[p.height] == c[..n][p.height] == c'[..n][p.height] == c'[p.height];
    }
  }

  lemma AddsMakes(r: Rules, c: seq<Block>, c': seq<Block>, tx: Transaction, p: Place, op: OutPoint)
    requires Adds(c, c', tx)
    ensures Makes(r, c', p, op) <==>
      Makes(r, c, p, op) || (p == Next(c) && op.hash == r.txid(tx) && op.index < |tx.outputs|)
    ensures Makes(r, c, p, op) ==> OutputAt(c', p, op.index) == OutputAt(c, p, op.index)
    ensures Makes(r, c, p, op) ==> p != Next(c)
  {
    AddsAt(c, c', tx, p);
  }

  lemma AddsSpends(c: seq<Block>, c': seq<Block>, tx: Transaction, p: Place, j: nat, op: OutPoint)
    requires Adds(c, c', tx)
    ensures Spends(c', p, j, op) <==>
      Spends(c, p, j, op)
      || (p == Next(c) && !tx.IsCoinbase() && j < |tx.inputs| && tx.inputs[j].prevOut == op)
    ensures Spends(c, p, j, op) ==> p != Next(c)
  {
    AddsAt(c, c', tx, p);
  }

  /** No transaction of the chain has this id. */
  ghost predicate NewId(r: Rules, c: seq<Block>, id: Hash) {
    forall p :: At(c, p) ==> r.txid(TxAt(c, p)) != id
  }

  lemma {:induction false} OneEachAdds(r: Rules, c: seq<Block>, c': seq<Block>, tx: Transaction)
    requires Adds(c, c', tx) && OneEach(r, c) && NewId(r, c, r.txid(tx))
    ensures OneEach(r, c')
  {
    forall p, q | At(c', p) && At(c', q) && r.txid(TxAt(c', p)) == r.txid(TxAt(c', q)) ensures p == q {
      AddsAt(c, c', tx, p);
      AddsAt(c, c', tx, q);
    }
  }

  lemma AddsMade(r: Rules, c: seq<Block>, c': seq<Block>, tx: Transaction, op: OutPoint)
    requires Adds(c, c', tx)
    ensures Made(r, c', op) <==> Made(r, c, op) || (op.hash == r.txid(tx) && op.index < |tx.outputs|)
  {
    if p :| Makes(r, c, p, op) {
      AddsMakes(r, c, c', tx, p, op);
    }
    if p :| Makes(r, c', p, op) {
      AddsMakes(r, c, c', tx, p, op);
    }
    AddsMakes(r, c, c', tx, Next(c), op);
  }

  ghost predicate InputOf(tx: Transaction, op: OutPoint) {
    !tx.IsCoinbase() && exists j :: 0 <= j < |tx.inputs| && tx.inputs[j].prevOut == op
  }

  lemma AddsSpent(c: seq<Block>, c': seq<Block>, tx: Transaction, op: OutPoint)
    requires Adds(c, c', tx)
    ensures Spent(c', op) <==> Spent(c, op) || InputOf(tx, op)
  {
    if p, j :| Spends(c, p, j, op) {
      AddsSpends(c, c', tx, p, j, op);
    }
    if p, j :| Spends(c', p, j, op) {
      AddsSpends(c, c', tx, p, j, op);
    }
    if InputOf(tx, op) {
      var j :| 0 <= j < |tx.inputs| && tx.inputs[j].prevOut == op;
      AddsSpends(c, c', tx, Next(c), j, op);
    }
  }

  /** What was spent was made. */
  lemma {:induction false} SpentMade(r: Rules, c: seq<Block>, s: Utxos, op: OutPoint)
    requires BooksOk(r, c, s) && Spent(c, op)
    ensures Made(r, c, op)
  {
    var p, j :| Spends(c, p, j, op);
    assert Lawful(r, c, p) && Opened(r, c, p, j);
    var q :| Opens(r, c, q, p, j);
  }

  lemma MadeId(r: Rules, c: seq<Block>, op: OutPoint)
    requires Made(r, c, op)
    ensures !NewId(r, c, op.hash)
  {
    var p :| Makes(r, c, p, op);
    assert At(c, p);
  }

  /** What applying a transaction leaves of the set. */
  lemma {:induction false} Applied(r: Rules, s: Utxos, tx: Transaction, height: nat, op: OutPoint)
    requires ApplyTx(r, s, tx, height).Some?
    ensures var s' := ApplyTx(r, s, tx, height).value; var mine := op.hash == r.txid(tx) && op.index < |tx.outputs|;
      && (op in s' <==> mine || (op in s && !InputOf(tx, op)))
      && (op in s' && mine ==>
            var out := tx.outputs[op.index]; s'[op] == UtxoEntry(out.value, out.pkScript, height, tx.IsCoinbase()))
      && (op in s' && op in s && !mine ==> s'[op] == s[op])
    ensures InputOf(tx, op) ==> op in s
  {
    CreatedUpToIs(r.txid(tx), tx, |tx.outputs|, height);
    if !tx.IsCoinbase() {
      SpendIs(s, tx.inputs, |tx.inputs|);
    }
  }

  lemma {:induction false} UnspentAdds(r: Rules, c: seq<Block>, c': seq<Block>, tx: Transaction, s: Utxos, op: OutPoint)
    requires Adds(c, c', tx) && BooksOk(r, c, s) && NewId(r, c, r.txid(tx)) && ApplyTx(r, s, tx, |c| - 1).Some?
    ensures op in ApplyTx(r, s, tx, |c| - 1).value <==> Made(r, c', op) && !Spent(c', op)
  {
    hide ApplyTx;
    hide Made;
    hide Spent;
    hide InputOf;
    hide Lawful;
    hide NewId;
    Applied(r, s, tx, |c| - 1, op);
    AddsMade(r, c, c', tx, op);
    AddsSpent(c, c', tx, op);
    if Made(r, c, op) {
      MadeId(r, c, op);
    }
    if Spent(c, op) {
      SpentMade(r, c, s, op);
    }
  }

  lemma {:induction false} EntryAdds(r: Rules, c: seq<Block>, c': seq<Block>, tx: Transaction, s: Utxos, p: Place,
                                     op: OutPoint)
    requires Adds(c, c', tx) && BooksOk(r, c, s) && NewId(r, c, r.txid(tx)) && ApplyTx(r, s, tx, |c| - 1).Some?
    requires op in ApplyTx(r, s, tx, |c| - 1).value && Makes(r, c', p, op)
    ensures ApplyTx(r, s, tx, |c| - 1).value[op] == OutputAt(c', p, op.index)
  {
    hide ApplyTx;
    hide Spent;
    hide InputOf;
    hide Lawful;
    Applied(r, s, tx, |c| - 1, op);
    AddsMakes(r, c, c', tx, p, op);
    AddsAt(c, c', tx, p);
  }

  lemma {:induction false} SpentOnceAdds(r: Rules, c: seq<Block>, c': seq<Block>, tx: Transaction, s: Utxos, p: Place,
                                         j: nat, q: Place, k: nat, op: OutPoint)
    requires Adds(c, c', tx) && BooksOk(r, c, s) && ApplyTx(r, s, tx, |c| - 1).Some?
    requires Spends(c', p, j, op) && Spends(c', q, k, op)
    ensures p == q && j == k
  {
    hide Lawful;
    AddsSpends(c, c', tx, p, j, op);
    AddsSpends(c, c', tx, q, k, op);
    if p == Next(c) || q == Next(c) {
      SpendIs(s, tx.inputs, |tx.inputs|);
      assert op in s && !Spent(c, op);
    }
  }

  // ---------- Lawful transactions ----------

  lemma {:induction false} WorthIs(r: Rules, c: seq<Block>, p: Place, op: OutPoint)
    requires OneEach(r, c) && Makes(r, c, p, op)
    ensures Worth(r, c, op) == TxAt(c, p).outputs[op.index].value
  {
    assert Made(r, c, op);
  }

  /** c' keeps every transaction of c in its place, on the same blocks. */
  ghost predicate Keeps(c: seq<Block>, c': seq<Block>) {
    forall p :: At(c, p) ==> At(c', p) && TxAt(c', p) == TxAt(c, p) && c'[..p.height] == c[..p.height]
  }

  lemma KeepsMakes(r: Rules, c: seq<Block>, c': seq<Block>, p: Place, op: OutPoint)
    requires Keeps(c, c') && Makes(r, c, p, op)
    ensures Makes(r, c', p, op) && TxAt(c', p) == TxAt(c, p)
  {
  }

  lemma AddsKeeps(c: seq<Block>, c': seq<Block>, tx: Transaction)
    requires Adds(c, c', tx)
    ensures Keeps(c, c')
  {
    forall p | At(c, p) ensures At(c', p) && TxAt(c', p) == TxAt(c, p) && c'[..p.height] == c[..p.height] {
      AddsAt(c, c', tx, p);
      assert c'[..p.height] == c[..|c| - 1][..p.height] == c[..p.height];
    }
  }

  lemma {:induction false} WorthStays(r: Rules, c: seq<Block>, c': seq<Block>, ins: seq<TxInput>, n: nat)
    requires Keeps(c, c') && OneEach(r, c) && OneEach(r, c') && n <= |ins|
    requires forall j :: 0 <= j < n ==> Made(r, c, ins[j].prevOut)
    ensures WorthOf(r, c', ins, n) == WorthOf(r, c, ins, n)
  {
    hide OneEach;
    hide Keeps;
    hide Worth;
    if n > 0 {
      WorthStays(r, c, c', ins, n - 1);
      var op := ins[n - 1].prevOut;
      var p :| Makes(r, c, p, op);
      KeepsMakes(r, c, c', p, op);
      WorthIs(r, c, p, op);
      WorthIs(r, c', p, op);
    }
  }

  lemma {:induction false} OpensStays(r: Rules, c: seq<Block>, c': seq<Block>, q: Place, p: Place, j: nat)
    requires Keeps(c, c') && At(c, p) && j < |TxAt(c, p).inputs| && Opens(r, c, q, p, j)
    ensures At(c', p) && TxAt(c', p) == TxAt(c, p) && Opens(r, c', q, p, j)
  {
    KeepsMakes(r, c, c', q, TxAt(c, p).inputs[j].prevOut);
  }

  /** A transaction that was lawful stays so. */
  lemma {:induction false} LawfulStays(r: Rules, c: seq<Block>, c': seq<Block>, p: Place)
    requires Keeps(c, c') && OneEach(r, c) && OneEach(r, c') && At(c, p) && Lawful(r, c, p)
    ensures At(c', p) && Lawful(r, c', p)
  {
    hide OneEach;
    hide Opens;
    hide WorthOf;
    hide Unlocked;
    var t := TxAt(c, p);
    if !t.IsCoinbase() {
      forall j | 0 <= j < |t.inputs|
        ensures Opened(r, c', p, j) && Made(r, c, t.inputs[j].prevOut)
      {
        assert Opened(r, c, p, j);
        var q :| Opens(r, c, q, p, j);
        OpensStays(r, c, c', q, p, j);
        OpensMade(r, c, q, p, j);
      }
      WorthStays(r, c, c', t.inputs, |t.inputs|);
    }
  }

  lemma OpensMade(r: Rules, c: seq<Block>, q: Place, p: Place, j: nat)
    requires At(c, p) && j < |TxAt(c, p).inputs| && Opens(r, c, q, p, j)
    ensures Made(r, c, TxAt(c, p).inputs[j].prevOut)
  {
  }

  /** The entries of the base set come from below the height, and are in the set as they were. */
  ghost predicate FromBelow(base: Utxos, s: Utxos, height: nat) {
    forall op :: op in base ==> base[op].height < height && (op in s ==> s[op] == base[op])
  }

  lemma {:induction false} NextOpens(r: Rules, base: Utxos, c: seq<Block>, c': seq<Block>, tx: Transaction, s: Utxos,
                                     j: nat)
    returns (q: Place)
    requires Adds(c, c', tx) && Unspent(r, c, s) && j < |tx.inputs| && HonestInput(r, base, s, tx, j, |c| - 1)
    requires FromBelow(base, s, |c| - 1)
    ensures At(c', Next(c)) && TxAt(c', Next(c)) == tx && Opens(r, c', q, Next(c), j)
    ensures Makes(r, c', q, tx.inputs[j].prevOut) && Made(r, c, tx.inputs[j].prevOut)
    ensures var op := tx.inputs[j].prevOut; op in s && TxAt(c', q).outputs[op.index].value == s[op].value
  {
    hide Spent;
    var op := tx.inputs[j].prevOut;
    assert Made(r, c, op);
    q :| Makes(r, c, q, op);
    AddsMakes(r, c, c', tx, q, op);
    AddsAt(c, c', tx, q);
  }

  lemma {:induction false} NextWorth(r: Rules, base: Utxos, c: seq<Block>, c': seq<Block>, tx: Transaction, s: Utxos,
                                     height: nat, n: nat)
    requires Adds(c, c', tx) && Unspent(r, c, s) && OneEach(r, c') && FromBelow(base, s, height) && n <= |tx.inputs|
    requires height == |c| - 1 && forall j :: 0 <= j < |tx.inputs| ==> HonestInput(r, base, s, tx, j, height)
    ensures WorthOf(r, c', tx.inputs, n) == ValueOf(s, tx.inputs, n)
  {
    hide Unspent;
    hide OneEach;
    hide Adds;
    hide Worth;
    hide HonestInput;
    hide FromBelow;
    hide Opens;
    if n > 0 {
      NextWorth(r, base, c, c', tx, s, height, n - 1);
      var q := NextOpens(r, base, c, c', tx, s, n - 1);
      WorthIs(r, c', q, tx.inputs[n - 1].prevOut);
    }
  }

  /** An honest transaction is lawful where it is added. */
  lemma {:induction false} NextLawful(r: Rules, base: Utxos, c: seq<Block>, c': seq<Block>, tx: Transaction, s: Utxos)
    requires Adds(c, c', tx) && Unspent(r, c, s) && OneEach(r, c') && FromBelow(base, s, |c| - 1)
    requires !tx.IsCoinbase() ==> Honest(r, base, s, tx, |c| - 1, ChainMedian(HeadersOf(c[..|c| - 1])))
    ensures At(c', Next(c)) && Lawful(r, c', Next(c))
  {
    hide Unspent;
    hide OneEach;
    hide HonestInput;
    hide FromBelow;
    hide Opens;
    hide WorthOf;
    hide ValueOf;
    hide Unlocked;
    AddsAt(c, c', tx, Next(c));
    if !tx.IsCoinbase() {
      Codec.TxLength(tx);
      forall j | 0 <= j < |tx.inputs| ensures Opened(r, c', Next(c), j) {
        var q := NextOpens(r, base, c, c', tx, s, j);
      }
      NextWorth(r, base, c, c', tx, s, |c| - 1, |tx.inputs|);
    }
  }

  /** The books after one more transaction. */
  lemma {:induction false} BooksAdds(r: Rules, base: Utxos, c: seq<Block>, c': seq<Block>, tx: Transaction, s: Utxos)
    requires Adds(c, c', tx) && BooksOk(r, c, s) && NewId(r, c, r.txid(tx)) && FromBelow(base, s, |c| - 1)
    requires ApplyTx(r, s, tx, |c| - 1).Some?
    requires !tx.IsCoinbase() ==> Honest(r, base, s, tx, |c| - 1, ChainMedian(HeadersOf(c[..|c| - 1])))
    ensures BooksOk(r, c', ApplyTx(r, s, tx, |c| - 1).value)
  {
    hide NewId;
    hide OneEach;
    hide FromBelow;
    hide Keeps;
    hide Honest;
    hide ApplyTx;
    hide Lawful;
    hide Makes;
    hide Spends;
    hide Made;
    hide Spent;
    hide OutputAt;
    hide Unspent;
    hide SpentOnce;
    OneEachAdds(r, c, c', tx);
    SetAdds(r, c, c', tx, s);
    OnceAdds(r, c, c', tx, s);
    NextLawful(r, base, c, c', tx, s);
    AddsKeeps(c, c', tx);
    forall p | At(c', p) ensures Lawful(r, c', p) {
      AddsAt(c, c', tx, p);
      if p != Next(c) {
        LawfulStays(r, c, c', p);
      }
    }
  }

  lemma {:induction false} SetAdds(r: Rules, c: seq<Block>, c': seq<Block>, tx: Transaction, s: Utxos)
    requires Adds(c, c', tx) && BooksOk(r, c, s) && NewId(r, c, r.txid(tx)) && ApplyTx(r, s, tx, |c| - 1).Some?
    ensures Unspent(r, c', ApplyTx(r, s, tx, |c| - 1).value)
  {
    hide NewId;
    hide BooksOk;
    hide ApplyTx;
    hide Makes;
    hide Made;
    hide Spent;
    var s' := ApplyTx(r, s, tx, |c| - 1).value;
    forall op ensures op in s' <==> Made(r, c', op) && !Spent(c', op) {
      UnspentAdds(r, c, c', tx, s, op);
    }
    forall op, p | op in s' && Makes(r, c', p, op)
      ensures At(c', p) && op.index < |TxAt(c', p).outputs| && s'[op] == OutputAt(c', p, op.index)
    {
      MakesOutput(r, c', p, op);
      EntryAdds(r, c, c', tx, s, p, op);
    }
  }

  lemma MakesOutput(r: Rules, c: seq<Block>, p: Place, op: OutPoint)
    requires Makes(r, c, p, op)
    ensures At(c, p) && op.index < |TxAt(c, p).outputs|
  {
  }

  lemma {:induction false} OnceAdds(r: Rules, c: seq<Block>, c': seq<Block>, tx: Transaction, s: Utxos)
    requires Adds(c, c', tx) && BooksOk(r, c, s) && ApplyTx(r, s, tx, |c| - 1).Some?
    ensures SpentOnce(c')
  {
    hide Adds;
    hide BooksOk;
    hide ApplyTx;
    hide Spends;
    forall p, j: nat, q, k: nat, op | Spends(c', p, j, op) && Spends(c', q, k, op) ensures p == q && j == k {
      SpentOnceAdds(r, c, c', tx, s, p, j, q, k, op);
    }
  }

  // ---------- One block ----------

  /** The chain with the first n transactions of block b on top. */
  function UpTo(prefix: seq<Block>, b: Block, n: nat): seq<Block>
    requires n <= |b.txs|
  {
    prefix + [b.(txs := b.txs[..n])]
  }

  lemma UpToAdds(prefix: seq<Block>, b: Block, n: nat)
    requires |prefix| > 0 && n < |b.txs|
    ensures Adds(UpTo(prefix, b, n), UpTo(prefix, b, n + 1), b.txs[n]) && |UpTo(prefix, b, n)| == |prefix| + 1
    ensures UpTo(prefix, b, n)[..|prefix|] == prefix
  {
    assert b.txs[..n + 1] == b.txs[..n] + [b.txs[n]];
  }

  lemma UpToAll(prefix: seq<Block>, b: Block)
    ensures UpTo(prefix, b, |b.txs|) == prefix + [b]
  {
    assert b.(txs := b.txs[..|b.txs|]) == b;
  }

  lemma UpToAt(prefix: seq<Block>, b: Block, n: nat, p: Place)
    requires n <= |b.txs|
    ensures At(UpTo(prefix, b, n), p) <==> At(prefix, p) || (p.height == |prefix| && p.pos < n)
    ensures At(prefix, p) ==> TxAt(UpTo(prefix, b, n), p) == TxAt(prefix, p)
    ensures p.height == |prefix| && p.pos < n ==> TxAt(UpTo(prefix, b, n), p) == b.txs[p.pos]
  {
  }

  lemma {:induction false} InAllTxs(chain: seq<Block>, p: Place)
    requires At(chain, p)
    ensures TxAt(chain, p) in AllTxs(chain)
    decreases |chain|
  {
    if p.height < |chain| - 1 {
      InAllTxs(chain[..|chain| - 1], p);
    }
  }

  /** The ids of a block are new to the chain below it and to the block so far. */
  lemma {:induction false} BlockIdIsNew(r: Rules, prefix: seq<Block>, b: Block, n: nat)
    requires n < |b.txs| && DistinctIds(r, AllTxs(prefix) + b.txs)
    ensures NewId(r, UpTo(prefix, b, n), r.txid(b.txs[n]))
  {
    var all := AllTxs(prefix) + b.txs;
    assert all[|AllTxs(prefix)| + n] == b.txs[n];
    forall p | At(UpTo(prefix, b, n), p) ensures r.txid(TxAt(UpTo(prefix, b, n), p)) != r.txid(b.txs[n]) {
      UpToAt(prefix, b, n, p);
      if At(prefix, p) {
        InAllTxs(prefix, p);
        var i :| 0 <= i < |AllTxs(prefix)| && AllTxs(prefix)[i] == TxAt(prefix, p);
        assert all[i] == TxAt(prefix, p);
      } else {
        assert all[|AllTxs(prefix)| + p.pos] == b.txs[p.pos];
      }
    }
  }

  lemma {:induction false} UpToFromBelow(r: Rules, prefix: seq<Block>, b: Block, n: nat, base: Utxos, s: Utxos)
    requires n <= |b.txs| && Unspent(r, prefix, base) && Unspent(r, UpTo(prefix, b, n), s)
    ensures FromBelow(base, s, |prefix|)
  {
    hide Spent;
    forall op | op in base ensures base[op].height < |prefix| && (op in s ==> s[op] == base[op]) {
      assert Made(r, prefix, op);
      var p :| Makes(r, prefix, p, op);
      UpToAt(prefix, b, n, p);
      assert Makes(r, UpTo(prefix, b, n), p, op);
    }
  }

  /** The books do not change with an empty block. */
  lemma {:induction false} EmptyBlockBooks(r: Rules, prefix: seq<Block>, b: Block, s: Utxos)
    requires BooksOk(r, prefix, s)
    ensures BooksOk(r, UpTo(prefix, b, 0), s)
  {
    hide Lawful;
    hide UpTo;
    var c := UpTo(prefix, b, 0);
    forall p ensures At(c, p) <==> At(prefix, p)
      ensures At(prefix, p) ==> TxAt(c, p) == TxAt(prefix, p) && c[..p.height] == prefix[..p.height]
    {
      UpToAt(prefix, b, 0, p);
      UpToPrefix(prefix, b, 0, p.height);
    }
    SameSet(r, prefix, c, s);
    forall p, j: nat, q, k: nat, op | Spends(c, p, j, op) && Spends(c, q, k, op) ensures p == q && j == k {
      assert Spends(prefix, p, j, op) && Spends(prefix, q, k, op);
    }
    forall p | At(c, p) ensures Lawful(r, c, p) {
      LawfulStays(r, prefix, c, p);
    }
  }

  lemma UpToPrefix(prefix: seq<Block>, b: Block, n: nat, h: nat)
    requires n <= |b.txs|
    ensures h <= |prefix| ==> h <= |UpTo(prefix, b, n)| && UpTo(prefix, b, n)[..h] == prefix[..h]
  {
  }

  /** Chains with the same transactions in the same places have the same outputs. */
  lemma {:induction false} SameSet(r: Rules, c: seq<Block>, c': seq<Block>, s: Utxos)
    requires Unspent(r, c, s) && Keeps(c, c') && Keeps(c', c)
    ensures Unspent(r, c', s)
  {
    forall op ensures Made(r, c', op) <==> Made(r, c, op) {
      if p :| Makes(r, c, p, op) {
        assert Makes(r, c', p, op);
      }
      if p :| Makes(r, c', p, op) {
        assert Makes(r, c, p, op);
      }
    }
    forall op ensures Spent(c', op) <==> Spent(c, op) {
      if p, j :| Spends(c, p, j, op) {
        assert Spends(c', p, j, op);
      }
      if p, j :| Spends(c', p, j, op) {
        assert Spends(c, p, j, op);
      }
    }
    forall op, p | op in s && Makes(r, c', p, op) ensures s[op] == OutputAt(c', p, op.index) {
      assert Makes(r, c, p, op);
    }
  }

  /** The books after the first n transactions of a valid block. */
  lemma {:induction false} BlockBooks(r: Rules, prefix: seq<Block>, b: Block, s: Utxos, n: nat)
    requires |prefix| > 0 && n <= |b.txs| && |b.txs| > 0 && BooksOk(r, prefix, s)
    requires FreshBlock(r, s, b.txs) && DistinctIds(r, AllTxs(prefix) + b.txs)
    requires TxInputsOk(r, s, b.txs, |prefix|, ChainMedian(HeadersOf(prefix)))
    requires ApplyTxs(r, s, b.txs, n, |prefix|).Some?
    ensures BooksOk(r, UpTo(prefix, b, n), ApplyTxs(r, s, b.txs, n, |prefix|).value)
  {
    hide BooksOk;
    hide FreshBlock;
    hide DistinctIds;
    hide TxInputsOk;
    hide ApplyTx;
    hide UpTo;
    hide Honest;
    hide NewId;
    hide FromBelow;
    if n == 0 {
      EmptyBlockBooks(r, prefix, b, s);
    } else {
      var c, cur := UpTo(prefix, b, n - 1), ApplyTxs(r, s, b.txs, n - 1, |prefix|).value;
      BlockBooks(r, prefix, b, s, n - 1);
      UpToAdds(prefix, b, n - 1);
      AcceptedBlock(r, s, b.txs, n - 1, |prefix|, ChainMedian(HeadersOf(prefix)));
      BlockIdIsNew(r, prefix, b, n - 1);
      BooksSets(r, prefix, s);
      BooksSets(r, c, cur);
      UpToFromBelow(r, prefix, b, n - 1, s, cur);
      BooksAdds(r, s, c, UpTo(prefix, b, n), b.txs[n - 1], cur);
    }
  }

  lemma BooksSets(r: Rules, c: seq<Block>, s: Utxos)
    requires BooksOk(r, c, s)
    ensures Unspent(r, c, s)
  {
  }

  // ---------- The whole chain ----------

  lemma {:induction false} GenesisIs(r: Rules, g: Transaction, n: nat, op: OutPoint)
    requires n <= |g.outputs|
    ensures op in GenesisOutputs(r.txid(g), g, n) <==>
      op.hash == r.txid(g) && op.index < n && g.outputs[op.index].pkScript != [] && g.outputs[op.index].pkScript != [0]
    ensures op in GenesisOutputs(r.txid(g), g, n) && op.index < n ==>
      var out := g.outputs[op.index];
      GenesisOutputs(r.txid(g), g, n)[op] == UtxoEntry(out.value, out.pkScript, 0, g.IsCoinbase())
  {
    if n > 0 {
      GenesisIs(r, g, n - 1, op);
      PlaceholderIs(g.outputs[n - 1].pkScript);
    }
  }

  lemma PlaceholderIs(pk: seq<Byte>)
    ensures IsLegacyPlaceholder(pk) <==> pk == [] || pk == [0]
  {
  }

  lemma {:induction false} GenesisBooks(r: Rules)
    requires GenesisOk(r)
    ensures BooksOk(r, [r.params.genesis], GenesisUtxos(r))
  {
    var c, g, s := [r.params.genesis], r.params.genesis.txs[0], GenesisUtxos(r);
    assert s == GenesisTxs(r, map[], r.params.genesis.txs, 0) + GenesisOutputs(r.txid(g), g, |g.outputs|);
    assert s == GenesisOutputs(r.txid(g), g, |g.outputs|);
    assert forall p :: At(c, p) <==> p == Place(0, 0);
    forall op ensures op in s <==> Made(r, c, op) && !Spent(c, op) {
      GenesisIs(r, g, |g.outputs|, op);
      assert op in s ==> Makes(r, c, Place(0, 0), op);
    }
    forall op, p | op in s && Makes(r, c, p, op) ensures s[op] == OutputAt(c, p, op.index) {
      GenesisIs(r, g, |g.outputs|, op);
    }
  }

  /** A valid block keeps the books. */
  lemma {:induction false} BooksExtend(r: Rules, prefix: seq<Block>, b: Block)
    requires GenesisOk(r) && ValidChain(r, prefix) && BlockOk(r, prefix, b) && NoCollision(r, AllTxs(prefix + [b]))
    requires BooksOk(r, prefix, Replay(r, prefix))
    ensures BooksOk(r, prefix + [b], Replay(r, prefix + [b]))
  {
    assert |prefix| > 0;
    hide BooksOk;
    hide HistoryOk;
    hide FreshBlock;
    hide NoCollision;
    hide DistinctIds;
    hide BlockOk;
    hide TxInputsOk;
    hide ApplyTxs;
    hide Replay;
    hide ValidChain;
    hide AllTxs;
    hide UpTo;
    hide HeadersOf;
    hide ChainMedian;
    ValidBlockIsFresh(r, prefix, b);
    AllTxsExtend(prefix, b);
    BlockDistinct(r, prefix, b);
    TxsAccepted(r, prefix, b);
    BlockBooks(r, prefix, b, Replay(r, prefix), |b.txs|);
    UpToAll(prefix, b);
  }

  lemma {:induction false} BlockDistinct(r: Rules, prefix: seq<Block>, b: Block)
    requires GenesisOk(r) && ValidChain(r, prefix) && BlockOk(r, prefix, b) && NoCollision(r, AllTxs(prefix + [b]))
    ensures DistinctIds(r, AllTxs(prefix) + b.txs) && |b.txs| > 0
  {
    assert |prefix| > 0;
    hide HistoryOk;
    hide NoCollision;
    hide Replay;
    hide ValidChain;
    hide TxInputsOk;
    hide BlockOk;
    ExtendValid(r, prefix, b);
    AllTxsExtend(prefix, b);
    ChainHistory(r, prefix + [b]);
    HistoryDistinct(r, AllTxs(prefix + [b]), Replay(r, prefix + [b]), |prefix| + 1);
    TxsAccepted(r, prefix, b);
  }

  lemma TxsAccepted(r: Rules, prefix: seq<Block>, b: Block)
    requires |prefix| > 0 && BlockOk(r, prefix, b)
    ensures |b.txs| > 0 && TxInputsOk(r, Replay(r, prefix), b.txs, |prefix|, ChainMedian(HeadersOf(prefix)))
  {
    hide TxInputsOk;
    hide Replay;
  }

  /** Every valid chain keeps the books, and its replay is the set of its unspent outputs. */
  lemma {:induction false} ChainBooks(r: Rules, chain: seq<Block>)
    requires GenesisOk(r) && ValidChain(r, chain) && NoCollision(r, AllTxs(chain))
    ensures BooksOk(r, chain, Replay(r, chain))
    decreases |chain|
  {
    hide BooksOk;
    hide NoCollision;
    hide BlockOk;
    if |chain| == 1 {
      assert chain == [r.params.genesis];
      GenesisBooks(r);
    } else {
      var n := |chain| - 1;
      assert chain[..n] + [chain[n]] == chain;
      AllTxsExtend(chain[..n], chain[n]);
      FewerCollisions(r, AllTxs(chain[..n]), chain[n].txs);
      ChainBooks(r, chain[..n]);
      BooksExtend(r, chain[..n], chain[n]);
    }
  }

  /** Every entry of the set has one origin, whose output it is, and was not spent. */
  lemma {:induction false} OneOrigin(r: Rules, chain: seq<Block>, op: OutPoint) returns (p: Place)
    requires GenesisOk(r) && ValidChain(r, chain) && NoCollision(r, AllTxs(chain)) && op in Replay(r, chain)
    ensures At(chain, p) && r.txid(TxAt(chain, p)) == op.hash && op.index < |TxAt(chain, p).outputs|
    ensures var tx := TxAt(chain, p);
      Replay(r, chain)[op]
      == UtxoEntry(tx.outputs[op.index].value, tx.outputs[op.index].pkScript, p.height, tx.IsCoinbase())
    ensures forall q :: At(chain, q) && r.txid(TxAt(chain, q)) == op.hash ==> q == p
    ensures !Spent(chain, op)
  {
    hide ValidChain;
    hide NoCollision;
    hide Replay;
    hide Lawful;
    hide Spent;
    ChainBooks(r, chain);
    assert Made(r, chain, op);
    p :| Makes(r, chain, p, op);
  }

  /** Each input of a valid chain spends an output made before it, with that output's
      script and no earlier than its maturity allows. */
  lemma {:induction false} InputOpens(r: Rules, chain: seq<Block>, p: Place, j: nat) returns (q: Place)
    requires GenesisOk(r) && ValidChain(r, chain) && NoCollision(r, AllTxs(chain))
    requires At(chain, p) && !TxAt(chain, p).IsCoinbase() && j < |TxAt(chain, p).inputs|
    ensures At(chain, q) && (q.height < p.height || (q.height == p.height && q.pos < p.pos))
    ensures var tx, made := TxAt(chain, p), TxAt(chain, q);
      var i, op := tx.inputs[j], tx.inputs[j].prevOut;
      && r.txid(made) == op.hash && op.index < |made.outputs|
      && r.verifyScript(i.sigScript, made.outputs[op.index].pkScript, tx, j)
      && (made.IsCoinbase() ==> q.height + r.params.coinbaseMaturity <= p.height)
  {
    hide ValidChain;
    hide NoCollision;
    hide Replay;
    hide OneEach;
    hide Unspent;
    hide SpentOnce;
    hide WorthOf;
    ChainBooks(r, chain);
    assert Lawful(r, chain, p) && Opened(r, chain, p, j);
    q :| Opens(r, chain, q, p, j);
  }

  /** No output is spent by two inputs of a valid chain. */
  lemma {:induction false} NoDoubleSpend(r: Rules, chain: seq<Block>, p: Place, j: nat, q: Place, k: nat)
    requires GenesisOk(r) && ValidChain(r, chain) && NoCollision(r, AllTxs(chain))
    requires At(chain, p) && !TxAt(chain, p).IsCoinbase() && j < |TxAt(chain, p).inputs|
    requires At(chain, q) && !TxAt(chain, q).IsCoinbase() && k < |TxAt(chain, q).inputs|
    requires TxAt(chain, p).inputs[j].prevOut == TxAt(chain, q).inputs[k].prevOut
    ensures p == q && j == k
  {
    hide ValidChain;
    hide NoCollision;
    hide Replay;
    hide OneEach;
    hide Unspent;
    hide Lawful;
    ChainBooks(r, chain);
    var op := TxAt(chain, p).inputs[j].prevOut;
    assert Spends(chain, p, j, op) && Spends(chain, q, k, op);
  }

  lemma FewerCollisions(r: Rules, xs: seq<Transaction>, ys: seq<Transaction>)
    requires NoCollision(r, xs + ys)
    ensures NoCollision(r, xs)
  {
    assert forall t :: t in xs ==> t in xs + ys;
  }

  lemma HistoryDistinct(r: Rules, hist: seq<Transaction>, s: Utxos, height: nat)
    requires HistoryOk(r, hist, s, height)
    ensures DistinctIds(r, hist)
  {
  }
}
