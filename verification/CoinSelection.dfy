/** Coin selection and the fee and change logic of the wallet
    (internal/wallet/txbuilder.go). */
module CoinSelection {
  import opened Types
  import opened Amounts

  const INPUT_SIZE: nat := 148
  const OUTPUT_SIZE: nat := 34
  const TX_OVERHEAD: nat := 10
  const DUST_THRESHOLD: nat := 546

  datatype Coin = Coin(outPoint: OutPoint, value: U64, pkScript: seq<Byte>, height: U32, isCoinbase: bool)

  /** The estimate for a transaction with the given numbers of inputs and outputs. */
  function Fee(inputs: nat, outputs: nat, feePerByte: nat): nat {
    var fee := (TX_OVERHEAD + inputs * INPUT_SIZE + outputs * OUTPUT_SIZE) * feePerByte;
    if fee < 1 then 1 else fee
  }

  /** The estimate as the node computes it, in 64 bits. */
  function Fee64(inputs: nat, outputs: nat, feePerByte: U64): U64 {
    var fee := (TX_OVERHEAD + inputs * INPUT_SIZE + outputs * OUTPUT_SIZE) * feePerByte % TWO64;
    if fee < 1 then 1 else fee
  }

  lemma FeeGrows(i: nat, o: nat, j: nat, p: nat, feePerByte: nat)
    requires i <= j && o <= p
    ensures Fee(i, o, feePerByte) <= Fee(j, p, feePerByte)
  {
    ScaleMono(TX_OVERHEAD + i * INPUT_SIZE + o * OUTPUT_SIZE, TX_OVERHEAD + j * INPUT_SIZE + p * OUTPUT_SIZE,
              feePerByte);
  }

  /** One output more costs at most its estimated size. */
  lemma OutputCosts(i: nat, feePerByte: nat)
    ensures Fee(i, 2, feePerByte) <= Fee(i, 1, feePerByte) + OUTPUT_SIZE * feePerByte
  {
    var a := TX_OVERHEAD + i * INPUT_SIZE + OUTPUT_SIZE;
    assert (a + OUTPUT_SIZE) * feePerByte == a * feePerByte + OUTPUT_SIZE * feePerByte;
  }

  // ---------- Sums of coins ----------

  function Sum(coins: seq<Coin>, n: nat): nat
    requires n <= |coins|
  {
    if n == 0 then 0 else Sum(coins, n - 1) + coins[n - 1].value
  }

  /** What the coins are worth together. */
  function Worth(coins: seq<Coin>): nat {
    Sum(coins, |coins|)
  }

  lemma {:induction false} SumGrows(coins: seq<Coin>, m: nat, n: nat)
    requires m <= n <= |coins|
    ensures Sum(coins, m) <= Sum(coins, n)
  {
    if m < n {
      SumGrows(coins, m, n - 1);
    }
  }

  /** The sum of the coins at the positions in s, among the first n. */
  function SubsetSum(coins: seq<Coin>, s: set<nat>, n: nat): nat
    requires n <= |coins|
  {
    if n == 0 then 0 else SubsetSum(coins, s, n - 1) + (if n - 1 in s then coins[n - 1].value else 0)
  }

  function Count(s: set<nat>, n: nat): (c: nat)
    ensures c <= n
  {
    if n == 0 then 0 else Count(s, n - 1) + (if n - 1 in s then 1 else 0)
  }

  /** How many of the coins a choice of positions takes. */
  function Size(coins: seq<Coin>, s: set<nat>): nat {
    Count(s, |coins|)
  }

  ghost predicate Descending(coins: seq<Coin>) {
    forall i, j :: 0 <= i <= j < |coins| ==> coins[i].value >= coins[j].value
  }

  /** No choice of k coins is worth more than the first k. */
  lemma {:induction false} LargestFirst(coins: seq<Coin>, s: set<nat>, n: nat)
    requires Descending(coins) && n <= |coins|
    ensures SubsetSum(coins, s, n) <= Sum(coins, Count(s, n))
  {
    if n > 0 {
      LargestFirst(coins, s, n - 1);
      var c := Count(s, n - 1);
      if n - 1 in s {
        assert coins[c].value >= coins[n - 1].value;
      }
    }
  }

  /** The coins at the positions in s pay the amount and the fee for that many inputs. */
  predicate Pays(coins: seq<Coin>, s: set<nat>, amount: nat, feePerByte: nat) {
    Count(s, |coins|) > 0 && SubsetSum(coins, s, |coins|) >= amount + Fee(Count(s, |coins|), 2, feePerByte)
  }

  predicate PrefixPays(coins: seq<Coin>, k: nat, amount: nat, feePerByte: nat) {
    0 < k <= |coins| && Sum(coins, k) >= amount + Fee(k, 2, feePerByte)
  }

  /** The first k coins pass the test of the selection loop, which is in 64 bits. */
  predicate PrefixPays64(coins: seq<Coin>, k: nat, amount: U64, feePerByte: U64) {
    0 < k <= |coins| && Sum(coins, k) % TWO64 >= (amount + Fee64(k, 2, feePerByte)) % TWO64
  }

  /** The shortest prefix that passes. */
  ghost predicate Chosen(coins: seq<Coin>, k: nat, amount: U64, feePerByte: U64) {
    PrefixPays64(coins, k, amount, feePerByte) && forall j :: 0 <= j < k ==> !PrefixPays64(coins, j, amount, feePerByte)
  }

  /** All sums that can come up fit in 64 bits. */
  predicate Fits(coins: seq<Coin>, amount: nat, feePerByte: nat) {
    && Sum(coins, |coins|) < TWO64
    && amount + (TX_OVERHEAD + |coins| * INPUT_SIZE + 2 * OUTPUT_SIZE) * feePerByte + 1 < TWO64
  }

  lemma ScaleMono(a: nat, b: nat, c: nat)
    requires a <= b
    ensures a * c <= b * c
  {
    assert (b - a) * c >= 0;
  }

  lemma SmallFee(i: nat, o: nat, feePerByte: U64)
    requires (TX_OVERHEAD + i * INPUT_SIZE + o * OUTPUT_SIZE) * feePerByte < TWO64
    ensures Fee64(i, o, feePerByte) == Fee(i, o, feePerByte)
  {
  }

  lemma FitsFee(coins: seq<Coin>, amount: nat, feePerByte: U64, i: nat, o: nat)
    requires Fits(coins, amount, feePerByte) && i <= |coins| && o <= 2
    ensures Fee64(i, o, feePerByte) == Fee(i, o, feePerByte) && amount + Fee(i, o, feePerByte) < TWO64
  {
    hide Sum;
    hide Fee64;
    ScaleMono(TX_OVERHEAD + i * INPUT_SIZE + o * OUTPUT_SIZE, TX_OVERHEAD + |coins| * INPUT_SIZE + 2 * OUTPUT_SIZE,
              feePerByte);
    SmallFee(i, o, feePerByte);
  }

  // ---------- The code ----------

  /** Largest-first selection takes the shortest prefix that passes the test. */
  method SelectCoins(coins: seq<Coin>, amount: U64, feePerByte: U64) returns (selected: Option<(seq<Coin>, U64)>)
    ensures selected.Some? ==>
      && 0 < |selected.value.0| <= |coins| && Chosen(coins, |selected.value.0|, amount, feePerByte)
      && selected.value.0 == coins[..|selected.value.0|] && selected.value.1 == Sum(coins, |selected.value.0|) % TWO64
    ensures selected.None? ==> forall k :: 0 <= k <= |coins| ==> !PrefixPays64(coins, k, amount, feePerByte)
  {
    hide Fee64;
    hide Add64;
    var chosen: seq<Coin> := [];
    var totalIn: U64 := 0;
    var i := 0;
    while i < |coins|
      invariant 0 <= i <= |coins| && chosen == coins[..i] && totalIn == Sum(coins, i) % TWO64
      invariant forall k :: 0 <= k <= i ==> !PrefixPays64(coins, k, amount, feePerByte)
    {
      chosen := chosen + [coins[i]];
      WrapsOnce(Sum(coins, i), coins[i].value);
      totalIn := Add64(totalIn, coins[i].value);
      i := i + 1;
      var fee := Fee64(|chosen|, 2, feePerByte);
      WrapsOnce(amount, fee);
      if totalIn >= Add64(amount, fee) {
        return Some((chosen, totalIn));
      }
    }
    selected := None;
  }

  lemma WrapsOnce(sum: nat, v: U64)
    ensures Add64(sum % TWO64, v) == (sum + v) % TWO64
  {
  }

  /** Where all sums fit in 64 bits, the test is the one over true integers. */
  lemma FitsPays(coins: seq<Coin>, amount: U64, feePerByte: U64, k: nat)
    requires Fits(coins, amount, feePerByte)
    ensures PrefixPays64(coins, k, amount, feePerByte) <==> PrefixPays(coins, k, amount, feePerByte)
  {
    hide Fits;
    hide Fee;
    hide Fee64;
    if k <= |coins| {
      FitsSum(coins, amount, feePerByte, k);
      FitsFee(coins, amount, feePerByte, k, 2);
    }
  }

  lemma FitsSum(coins: seq<Coin>, amount: nat, feePerByte: nat, i: nat)
    requires Fits(coins, amount, feePerByte) && i <= |coins|
    ensures Sum(coins, i) < TWO64
  {
    SumGrows(coins, i, |coins|);
  }

  /** On coins sorted by value, a prefix pays exactly when some choice of coins does, and
      the shortest such prefix uses the fewest inputs. */
  lemma {:induction false} SelectionIsOptimal(coins: seq<Coin>, amount: nat, feePerByte: nat, s: set<nat>)
    requires Descending(coins) && Pays(coins, s, amount, feePerByte)
    ensures PrefixPays(coins, Count(s, |coins|), amount, feePerByte)
  {
    LargestFirst(coins, s, |coins|);
  }

  lemma {:induction false} PrefixIsAChoice(coins: seq<Coin>, amount: nat, feePerByte: nat, k: nat) returns (s: set<nat>)
    requires PrefixPays(coins, k, amount, feePerByte)
    ensures Pays(coins, s, amount, feePerByte) && Count(s, |coins|) == k
  {
    s := First(k);
    PrefixCount(coins, k, |coins|);
  }

  function First(k: nat): set<nat> {
    if k == 0 then {} else First(k - 1) + {k - 1}
  }

  lemma {:induction false} FirstHas(k: nat, i: nat)
    ensures i in First(k) <==> i < k
  {
    if k > 0 {
      FirstHas(k - 1, i);
    }
  }

  lemma {:induction false} PrefixCount(coins: seq<Coin>, k: nat, n: nat)
    requires k <= |coins| && n <= |coins|
    ensures var m := if n < k then n else k; Count(First(k), n) == m && SubsetSum(coins, First(k), n) == Sum(coins, m)
  {
    if n > 0 {
      PrefixCount(coins, k, n - 1);
      FirstHas(k, n - 1);
    }
  }

  predicate Spendable(u: Coin, maturity: nat, tip: U32) {
    var confs := if tip >= u.height then (tip - u.height + 1) % TWO32 else 0;
    confs >= 1 && (u.isCoinbase ==> confs >= maturity)
  }

  /** The next block can spend the coin. */
  predicate Matured(u: Coin, maturity: nat, tip: U32) {
    u.height <= tip && (u.isCoinbase ==> u.height + maturity <= tip + 1)
  }

  method FilterSpendable(utxos: seq<Coin>, maturity: nat, tip: U32) returns (result: seq<Coin>)
    ensures multiset(result) <= multiset(utxos)
    ensures forall u :: multiset(result)[u] == if Spendable(u, maturity, tip) then multiset(utxos)[u] else 0
    ensures forall i :: 0 <= i < |result| ==> Matured(result[i], maturity, tip)
  {
    result := [];
    var i := 0;
    while i < |utxos|
      invariant 0 <= i <= |utxos|
      invariant forall u :: multiset(result)[u] == if Spendable(u, maturity, tip) then multiset(utxos[..i])[u] else 0
      invariant forall k :: 0 <= k < |result| ==> Matured(result[k], maturity, tip)
    {
      assert utxos[..i + 1] == utxos[..i] + [utxos[i]];
      if Spendable(utxos[i], maturity, tip) {
        result := result + [utxos[i]];
      }
      i := i + 1;
    }
    assert utxos[..i] == utxos;
  }

  /** Orders coins by descending value. */
  method SortByValue(coins: seq<Coin>) returns (sorted: seq<Coin>)
    ensures Descending(sorted) && multiset(sorted) == multiset(coins)
  {
    hide Descending;
    sorted := [];
    NoCoinsDescend();
    var i := 0;
    while i < |coins|
      invariant 0 <= i <= |coins| && Descending(sorted) && multiset(sorted) == multiset(coins[..i])
    {
      assert coins[..i + 1] == coins[..i] + [coins[i]];
      sorted := InsertCoin(sorted, coins[i]);
      i := i + 1;
    }
    assert coins[..i] == coins;
  }

  lemma NoCoinsDescend()
    ensures Descending([])
  {
  }

  method InsertCoin(sorted: seq<Coin>, c: Coin) returns (out: seq<Coin>)
    requires Descending(sorted)
    ensures Descending(out) && multiset(out) == multiset(sorted) + multiset{c}
  {
    var k := 0;
    while k < |sorted| && sorted[k].value > c.value
      invariant 0 <= k <= |sorted| && forall j :: 0 <= j < k ==> sorted[j].value > c.value
    {
      k := k + 1;
    }
    assert sorted == sorted[..k] + sorted[k..];
    out := sorted[..k] + [c] + sorted[k..];
  }

  /** An unsigned payment: the coins it spends, what it pays out, and the fee left over. */
  datatype Payment = Payment(inputs: seq<Coin>, outputs: seq<TxOutput>)

  function OutSum(outs: seq<TxOutput>): nat {
    SumOutputs(outs, |outs|)
  }

  /** The amount goes to the payee, and the change, if any, back under the change script:
      what the inputs are worth less the amount and the fee for two outputs. The fee covers
      the estimate for the actual shape and exceeds it by at most the dust threshold and the
      cost of a dropped change output. */
  predicate WellPaid(p: Payment, amount: U64, destScript: seq<Byte>, changeScript: seq<Byte>, feePerByte: nat) {
    && 1 <= |p.outputs| <= 2
    && (|p.outputs| == 1 ==> p.outputs == [TxOutput(amount, destScript)])
    && (|p.outputs| == 2 ==>
          var change := Sum(p.inputs, |p.inputs|) - amount - Fee(|p.inputs|, 2, feePerByte);
          && DUST_THRESHOLD < change < TWO64
          && p.outputs == [TxOutput(amount, destScript), TxOutput(change, changeScript)])
    && var estimate := Fee(|p.inputs|, |p.outputs|, feePerByte);
    && Sum(p.inputs, |p.inputs|) >= OutSum(p.outputs) + estimate
    && Sum(p.inputs, |p.inputs|) <= OutSum(p.outputs) + estimate + DUST_THRESHOLD + OUTPUT_SIZE * feePerByte
  }

  function Sub64(a: U64, b: U64): U64 {
    (a - b) % TWO64
  }

  /** What the wallet takes to be left over after the amount, from coins worth `worth`. */
  function Left(worth: nat, amount: U64): U64 {
    Sub64(worth % TWO64, amount)
  }

  /** The payment from n coins worth `worth` gets a change output. */
  predicate WithChange(worth: nat, n: nat, amount: U64, feePerByte: U64) {
    && Left(worth, amount) > Fee64(n, 1, feePerByte) + DUST_THRESHOLD
    && Sub64(Left(worth, amount), Fee64(n, 2, feePerByte)) > DUST_THRESHOLD
  }

  /** What a payment from n coins worth `worth` pays out, and exactly when the coins are
      worth that: with change, if they are worth the amount and the fee with change;
      without, if they are worth the amount. */
  ghost predicate PaysOut(outs: seq<TxOutput>, worth: nat, n: nat, amount: U64, destScript: seq<Byte>,
                          changeScript: seq<Byte>, feePerByte: U64) {
    && (!WithChange(worth, n, amount, feePerByte) ==> outs == [TxOutput(amount, destScript)])
    && (WithChange(worth, n, amount, feePerByte) ==>
          var change := Sub64(Left(worth, amount), Fee64(n, 2, feePerByte));
          outs == [TxOutput(amount, destScript), TxOutput(change, changeScript)])
    && (OutSum(outs) <= worth <==> amount + (if |outs| == 2 then Fee64(n, 2, feePerByte) else 0) <= worth)
    && (OutSum(outs) + Fee64(n, |outs|, feePerByte) <= worth <==> amount + Fee64(n, |outs|, feePerByte) <= worth)
  }

  /** What a payment from sorted coins is, if there is one. */
  ghost predicate Settled(coins: seq<Coin>, amount: U64, destScript: seq<Byte>, changeScript: seq<Byte>,
                          feePerByte: U64, k: nat, p: Option<Payment>) {
    Chosen(coins, k, amount, feePerByte) ==>
      && (p.Some? <==> Left(Sum(coins, k), amount) >= Fee64(k, 1, feePerByte))
      && (p.Some? ==>
            && p.value.inputs == coins[..k]
            && PaysOut(p.value.outputs, Sum(coins, k), k, amount, destScript, changeScript, feePerByte))
  }

  method BuildPayment(utxos: seq<Coin>, amount: U64, destScript: seq<Byte>, changeScript: seq<Byte>, feePerByte: U64,
                      maturity: nat, tip: U32)
    returns (p: Option<Payment>, ghost spendable: seq<Coin>)
    ensures Descending(spendable)
    ensures forall u :: multiset(spendable)[u] == if Spendable(u, maturity, tip) then multiset(utxos)[u] else 0
    ensures forall i :: 0 <= i < |spendable| ==>
      spendable[i].height <= tip && (spendable[i].isCoinbase ==> spendable[i].height + maturity <= tip + 1)
    ensures amount == 0 ==> p.None?
    ensures p.Some? && |p.value.outputs| != 2 ==> p.value.outputs == [TxOutput(amount, destScript)]
    ensures p.Some? && |p.value.outputs| == 2 ==>
      p.value.outputs == [TxOutput(amount, destScript), TxOutput(p.value.outputs[1].value, changeScript)]
    ensures Fits(spendable, amount, feePerByte) && p.Some? && |p.value.outputs| == 2 ==>
      p.value.outputs[1].value == Worth(p.value.inputs) - amount - Fee(|p.value.inputs|, 2, feePerByte)
    ensures (forall k: nat :: !PrefixPays64(spendable, k, amount, feePerByte)) ==> p.None?
    ensures amount > 0 ==> forall k: nat :: Settled(spendable, amount, destScript, changeScript, feePerByte, k, p)
    ensures Fits(spendable, amount, feePerByte) && amount > 0 ==>
      (p.Some? <==> exists s :: Pays(spendable, s, amount, feePerByte))
    ensures Fits(spendable, amount, feePerByte) && p.Some? ==>
      && WellPaid(p.value, amount, destScript, changeScript, feePerByte)
      && |p.value.inputs| <= |spendable| && p.value.inputs == spendable[..|p.value.inputs|]
      && forall s :: Pays(spendable, s, amount, feePerByte) ==> |p.value.inputs| <= Size(spendable, s)
  {
    hide Fits;
    hide WellPaid;
    hide Pays;
    hide PrefixPays64;
    hide Settled;
    hide Descending;
    var filtered := FilterSpendable(utxos, maturity, tip);
    var coins := SortByValue(filtered);
    spendable := coins;
    SameCoins(filtered, coins, maturity, tip);
    if amount == 0 {
      return None, spendable;
    }
    if |coins| == 0 {
      NoCoinsPay(coins, amount, destScript, changeScript, feePerByte);
      return None, spendable;
    }
    p := PayFrom(coins, amount, destScript, changeScript, feePerByte);
  }

  method PayFrom(coins: seq<Coin>, amount: U64, destScript: seq<Byte>, changeScript: seq<Byte>, feePerByte: U64)
    returns (p: Option<Payment>)
    requires Descending(coins)
    ensures (forall k: nat :: !PrefixPays64(coins, k, amount, feePerByte)) ==> p.None?
    ensures p.Some? && |p.value.outputs| != 2 ==> p.value.outputs == [TxOutput(amount, destScript)]
    ensures p.Some? && |p.value.outputs| == 2 ==>
      p.value.outputs == [TxOutput(amount, destScript), TxOutput(p.value.outputs[1].value, changeScript)]
    ensures Fits(coins, amount, feePerByte) && p.Some? && |p.value.outputs| == 2 ==>
      p.value.outputs[1].value == Worth(p.value.inputs) - amount - Fee(|p.value.inputs|, 2, feePerByte)
    ensures forall k: nat :: Settled(coins, amount, destScript, changeScript, feePerByte, k, p)
    ensures Fits(coins, amount, feePerByte) ==> (p.Some? <==> exists s :: Pays(coins, s, amount, feePerByte))
    ensures Fits(coins, amount, feePerByte) && p.Some? ==>
      && WellPaid(p.value, amount, destScript, changeScript, feePerByte)
      && |p.value.inputs| <= |coins| && p.value.inputs == coins[..|p.value.inputs|]
      && forall s :: Pays(coins, s, amount, feePerByte) ==> |p.value.inputs| <= Size(coins, s)
  {
    hide Fits;
    hide Fee64;
    hide Left;
    hide Fee;
    hide WellPaid;
    hide Pays;
    hide PrefixPays;
    hide PrefixPays64;
    hide PaysOut;
    hide Descending;
    hide Settled;
    hide Chosen;
    OnlyPrefixes(coins, amount, feePerByte);
    var selected := SelectCoins(coins, amount, feePerByte);
    if Fits(coins, amount, feePerByte) {
      FewestInputs(coins, amount, feePerByte, if selected.Some? then |selected.value.0| else 0);
    }
    if selected.None? {
      NothingSettled(coins, amount, destScript, changeScript, feePerByte);
      return None;
    }
    var inputs, totalIn := selected.value.0, selected.value.1;
    PrefixSum(coins, |inputs|, |inputs|);
    if Fits(coins, amount, feePerByte) {
      FitsSum(coins, amount, feePerByte, |inputs|);
    }
    p := FinishPayment(inputs, totalIn, amount, destScript, changeScript, feePerByte, coins);
    if Fits(coins, amount, feePerByte) && p.Some? {
      ChangeIs(p.value, amount, destScript, changeScript, feePerByte);
    }
    SettledOnce(coins, amount, destScript, changeScript, feePerByte, |inputs|, p);
  }

  lemma ChangeIs(p: Payment, amount: U64, destScript: seq<Byte>, changeScript: seq<Byte>, feePerByte: U64)
    requires WellPaid(p, amount, destScript, changeScript, feePerByte)
    ensures |p.outputs| == 2 ==>
      p.outputs[1].value == Sum(p.inputs, |p.inputs|) - amount - Fee(|p.inputs|, 2, feePerByte)
  {
    hide Fee;
    hide OutSum;
  }

  lemma SameCoins(xs: seq<Coin>, ys: seq<Coin>, maturity: nat, tip: U32)
    requires multiset(ys) == multiset(xs) && forall i :: 0 <= i < |xs| ==> Matured(xs[i], maturity, tip)
    ensures forall i :: 0 <= i < |ys| ==>
      ys[i].height <= tip && (ys[i].isCoinbase ==> ys[i].height + maturity <= tip + 1)
  {
    forall i | 0 <= i < |ys| ensures Matured(ys[i], maturity, tip) {
      assert ys[i] in multiset(ys);
      assert ys[i] in xs;
    }
  }

  lemma NothingSettled(coins: seq<Coin>, amount: U64, destScript: seq<Byte>, changeScript: seq<Byte>, feePerByte: U64)
    requires forall k :: 0 <= k <= |coins| ==> !PrefixPays64(coins, k, amount, feePerByte)
    ensures forall k: nat :: Settled(coins, amount, destScript, changeScript, feePerByte, k, None)
  {
    hide Fee64;
    hide Left;
  }

  lemma SettledOnce(coins: seq<Coin>, amount: U64, destScript: seq<Byte>, changeScript: seq<Byte>, feePerByte: U64,
                    n: nat, p: Option<Payment>)
    requires Chosen(coins, n, amount, feePerByte) && n <= |coins|
    requires p.Some? <==> Left(Sum(coins, n), amount) >= Fee64(n, 1, feePerByte)
    requires p.Some? ==>
      && p.value.inputs == coins[..n]
      && PaysOut(p.value.outputs, Sum(coins, n), n, amount, destScript, changeScript, feePerByte)
    ensures forall k: nat :: Settled(coins, amount, destScript, changeScript, feePerByte, k, p)
    ensures PrefixPays64(coins, n, amount, feePerByte)
  {
    hide Fee64;
    hide Left;
    hide PrefixPays64;
    forall k: nat | Chosen(coins, k, amount, feePerByte) ensures k == n {
      assert k < n ==> !PrefixPays64(coins, k, amount, feePerByte);
      assert n < k ==> !PrefixPays64(coins, n, amount, feePerByte);
    }
  }

  /** Where all sums fit, the chosen prefix pays, and uses no more coins than any choice
      that pays. */
  lemma FewestInputs(coins: seq<Coin>, amount: U64, feePerByte: U64, n: nat)
    requires Fits(coins, amount, feePerByte) && Descending(coins)
    requires if n > 0 then Chosen(coins, n, amount, feePerByte)
             else forall k :: 0 <= k <= |coins| ==> !PrefixPays64(coins, k, amount, feePerByte)
    ensures n > 0 <==> exists s :: Pays(coins, s, amount, feePerByte)
    ensures n > 0 ==> n <= |coins| && Sum(coins, n) >= amount + Fee(n, 2, feePerByte)
    ensures n > 0 ==> forall s :: Pays(coins, s, amount, feePerByte) ==> n <= Count(s, |coins|)
  {
    hide Fits;
    hide Fee64;
    hide Fee;
    hide Pays;
    hide PrefixPays;
    hide PrefixPays64;
    hide Descending;
    OnlyPrefixes(coins, amount, feePerByte);
    PrefixesFit(coins, amount, feePerByte);
    SelectionDecides(coins, amount, feePerByte);
    if n > 0 {
      EnoughIn(coins, n, amount, feePerByte);
    }
  }

  lemma OnlyPrefixes(coins: seq<Coin>, amount: U64, feePerByte: U64)
    ensures forall k: nat :: PrefixPays64(coins, k, amount, feePerByte) ==> 0 < k <= |coins|
    ensures forall k: nat :: PrefixPays(coins, k, amount, feePerByte) ==> 0 < k <= |coins|
  {
    hide Fee64;
    hide Fee;
  }

  lemma PrefixesFit(coins: seq<Coin>, amount: U64, feePerByte: U64)
    requires Fits(coins, amount, feePerByte)
    ensures forall k: nat :: PrefixPays64(coins, k, amount, feePerByte) <==> PrefixPays(coins, k, amount, feePerByte)
  {
    hide Fits;
    hide PrefixPays;
    hide PrefixPays64;
    forall k: nat ensures PrefixPays64(coins, k, amount, feePerByte) <==> PrefixPays(coins, k, amount, feePerByte) {
      FitsPays(coins, amount, feePerByte, k);
    }
  }

  /** The fee and change logic for the selected inputs, whose worth totalIn is in 64 bits. */
  method FinishPayment(inputs: seq<Coin>, totalIn: U64, amount: U64, destScript: seq<Byte>, changeScript: seq<Byte>,
                       feePerByte: U64, ghost coins: seq<Coin>)
    returns (p: Option<Payment>)
    requires totalIn == Worth(inputs) % TWO64
    ensures p.Some? && |p.value.outputs| != 2 ==> p.value.outputs == [TxOutput(amount, destScript)]
    ensures p.Some? && |p.value.outputs| == 2 ==>
      p.value.outputs == [TxOutput(amount, destScript), TxOutput(p.value.outputs[1].value, changeScript)]
    ensures var n, worth := |inputs|, Worth(inputs);
      && (p.Some? <==> Left(worth, amount) >= Fee64(n, 1, feePerByte))
      && (p.Some? ==>
            && p.value.inputs == inputs
            && PaysOut(p.value.outputs, worth, n, amount, destScript, changeScript, feePerByte))
      && (Fits(coins, amount, feePerByte) && n <= |coins| && amount + Fee(n, 2, feePerByte) <= worth < TWO64 ==>
            p.Some? && WellPaid(p.value, amount, destScript, changeScript, feePerByte))
  {
    hide Fits;
    hide Fee;
    hide Fee64;
    hide Sub64;
    hide WellPaid;
    hide PaysOut;
    var n := |inputs|;
    ghost var worth := Sum(inputs, n);
    var outputs := [TxOutput(amount, destScript)];
    var fee := Fee64(n, 1, feePerByte);
    var remaining := Sub64(totalIn, amount);
    ghost var fits :=
      Fits(coins, amount, feePerByte) && n <= |coins| && amount + Fee(n, 2, feePerByte) <= worth < TWO64;
    if fits {
      FitsLeft(coins, n, worth, amount, feePerByte);
    }
    if remaining < fee {
      return None;
    }
    var change := remaining - fee;
    if change > DUST_THRESHOLD {
      outputs := outputs + [TxOutput(change, changeScript)];
      fee := Fee64(n, |outputs|, feePerByte);
      var newChange := Sub64(Sub64(totalIn, amount), fee);
      if newChange > DUST_THRESHOLD {
        outputs := [outputs[0], TxOutput(newChange, changeScript)];
      } else {
        outputs := outputs[..1];
      }
    }
    OutputsPay(outputs, worth, n, amount, destScript, changeScript, feePerByte);
    p := Some(Payment(inputs, outputs));
    if fits {
      FitsWellPaid(p.value, coins, amount, destScript, changeScript, feePerByte);
    }
  }

  /** Where all sums fit, nothing wraps. */
  lemma FitsLeft(coins: seq<Coin>, n: nat, worth: nat, amount: U64, feePerByte: U64)
    requires Fits(coins, amount, feePerByte) && n <= |coins| && amount + Fee(n, 2, feePerByte) <= worth < TWO64
    ensures Left(worth, amount) == worth - amount && Fee64(n, 1, feePerByte) == Fee(n, 1, feePerByte)
    ensures Fee64(n, 2, feePerByte) == Fee(n, 2, feePerByte) <= Fee(n, 1, feePerByte) + OUTPUT_SIZE * feePerByte
    ensures Fee(n, 1, feePerByte) <= Fee(n, 2, feePerByte)
    ensures Left(worth, amount) >= Fee64(n, 1, feePerByte)
  {
    hide Fits;
    hide Fee;
    hide Fee64;
    FitsFee(coins, amount, feePerByte, n, 1);
    FitsFee(coins, amount, feePerByte, n, 2);
    FeeGrows(n, 1, n, 2, feePerByte);
    OutputCosts(n, feePerByte);
  }

  lemma OutputsPay(outs: seq<TxOutput>, worth: nat, n: nat, amount: U64, destScript: seq<Byte>,
                   changeScript: seq<Byte>, feePerByte: U64)
    requires |outs| == if WithChange(worth, n, amount, feePerByte) then 2 else 1
    requires outs[0] == TxOutput(amount, destScript)
    requires |outs| == 2 ==> outs[1] == TxOutput(Sub64(Left(worth, amount), Fee64(n, 2, feePerByte)), changeScript)
    ensures PaysOut(outs, worth, n, amount, destScript, changeScript, feePerByte)
  {
    hide Fee64;
    hide Left;
    hide Sub64;
    OutSums(outs);
    ChangeCovered(worth, amount, Fee64(n, 2, feePerByte));
  }

  lemma FitsWellPaid(p: Payment, coins: seq<Coin>, amount: U64, destScript: seq<Byte>, changeScript: seq<Byte>,
                     feePerByte: U64)
    requires var n, worth := |p.inputs|, Sum(p.inputs, |p.inputs|);
      && Fits(coins, amount, feePerByte) && n <= |coins| && amount + Fee(n, 2, feePerByte) <= worth < TWO64
      && PaysOut(p.outputs, worth, n, amount, destScript, changeScript, feePerByte)
    ensures WellPaid(p, amount, destScript, changeScript, feePerByte)
  {
    hide Fits;
    hide Fee;
    hide Fee64;
    hide Left;
    var n, worth := |p.inputs|, Sum(p.inputs, |p.inputs|);
    FitsLeft(coins, n, worth, amount, feePerByte);
    OutSums(p.outputs);
  }

  /** Change computed in 64 bits is within what the coins are worth exactly if they are
      worth the amount and the fee. */
  lemma ChangeCovered(worth: nat, amount: U64, fee: U64)
    ensures var change := Sub64(Left(worth, amount), fee);
      && (amount + change <= worth <==> amount + fee <= worth)
      && (amount + change + fee <= worth <==> amount + fee <= worth)
  {
    var left := worth - amount - fee;
    SubTwice(worth, amount, fee);
    if left >= 0 {
      assert left % TWO64 <= left;
    } else {
      assert left % TWO64 >= left + TWO64;
    }
  }

  lemma SubTwice(worth: nat, amount: U64, fee: U64)
    ensures Sub64(Left(worth, amount), fee) == (worth - amount - fee) % TWO64
  {
    SubWrap(worth, amount);
    SubWrap(worth - amount, fee);
  }

  lemma SubWrap(a: int, b: int)
    ensures (a % TWO64 - b) % TWO64 == (a - b) % TWO64
  {
    var q := a / TWO64;
    assert a == q * TWO64 + a % TWO64;
    WrapMultiple(a % TWO64 - b, q);
  }

  lemma WrapMultiple(x: int, q: int)
    ensures (x + q * TWO64) % TWO64 == x % TWO64
  {
    var y := x + q * TWO64;
    assert y == (x / TWO64 + q) * TWO64 + x % TWO64;
    assert (y / TWO64 - x / TWO64 - q) * TWO64 == x % TWO64 - y % TWO64;
  }

  lemma OneCoin(coin: Coin, spendable: seq<Coin>)
    requires forall u :: multiset(spendable)[u] == multiset([coin])[u]
    ensures spendable == [coin]
  {
    assert multiset(spendable) == multiset([coin]);
    assert |multiset(spendable)| == |multiset([coin])| == 1;
    assert multiset(spendable)[spendable[0]] > 0;
  }

  lemma FirstOutput(outs: seq<TxOutput>)
    requires |outs| > 0
    ensures OutSum(outs) >= outs[0].value
  {
    SumOutputsGrows(outs, 1, |outs|);
    assert SumOutputs(outs, 1) == SumOutputs(outs, 0) + outs[0].value;
  }

  /** The wallet refuses payments it could make: a coin worth the amount and the fee for a
      transaction without change is not enough for it. */
  method RefusedThoughPaid() returns (p: Option<Payment>, coin: Coin)
    ensures p.None? && coin.value == 1_000 + Fee(1, 1, 1)
  {
    coin := Coin(OutPoint(ZERO_HASH, 0), 1192, [], 1, false);
    ghost var spendable;
    p, spendable := BuildPayment([coin], 1_000, [], [], 1, 100, 1);
    OneCoin(coin, spendable);
    assert Sum(spendable, 1) == Sum(spendable, 0) + 1192;
    assert forall k: nat :: !PrefixPays64(spendable, k, 1_000, 1);
  }

  /** An amount close to the limit of 64 bits wraps together with the fee, and a small coin
      is found to pay for it. */
  method WrappedPayment() returns (p: Option<Payment>)
    ensures p.Some? && OutSum(p.value.outputs) > Sum(p.value.inputs, |p.value.inputs|)
  {
    var amount := TWO64 - 1;
    var coin := Coin(OutPoint(ZERO_HASH, 0), 1_000, [], 1, false);
    ghost var spendable;
    p, spendable := BuildPayment([coin], amount, [], [], 1, 100, 1);
    OneCoin(coin, spendable);
    assert Sum(spendable, 1) == Sum(spendable, 0) + 1_000;
    assert Chosen(spendable, 1, amount, 1) && Settled(spendable, amount, [], [], 1, 1, p);
    FirstOutput(p.value.outputs);
  }

  lemma OutSums(outs: seq<TxOutput>)
    requires 1 <= |outs| <= 2
    ensures OutSum(outs) == outs[0].value + (if |outs| == 2 then outs[1].value else 0)
  {
    assert SumOutputs(outs, 1) == SumOutputs(outs, 0) + outs[0].value;
  }

  lemma {:induction false} PrefixSum(coins: seq<Coin>, k: nat, n: nat)
    requires n <= k <= |coins|
    ensures Sum(coins[..k], n) == Sum(coins, n)
  {
    if n > 0 {
      PrefixSum(coins, k, n - 1);
    }
  }

  lemma EnoughIn(coins: seq<Coin>, n: nat, amount: nat, feePerByte: nat)
    requires PrefixPays(coins, n, amount, feePerByte)
    ensures n <= |coins| && Sum(coins, n) >= amount + Fee(n, 2, feePerByte)
  {
  }

  lemma NoCoinsPay(coins: seq<Coin>, amount: U64, destScript: seq<Byte>, changeScript: seq<Byte>, feePerByte: U64)
    requires |coins| == 0
    ensures forall s :: !Pays(coins, s, amount, feePerByte)
    ensures forall k: nat :: Settled(coins, amount, destScript, changeScript, feePerByte, k, None)
  {
  }

  /** Choices of coins and prefixes pay alike. */
  lemma {:induction false} SelectionDecides(coins: seq<Coin>, amount: nat, feePerByte: nat)
    requires Descending(coins)
    ensures forall s :: Pays(coins, s, amount, feePerByte) ==> PrefixPays(coins, Count(s, |coins|), amount, feePerByte)
    ensures forall k: nat :: PrefixPays(coins, k, amount, feePerByte) ==> exists s :: Pays(coins, s, amount, feePerByte)
  {
    hide Pays;
    hide PrefixPays;
    forall s | Pays(coins, s, amount, feePerByte) ensures PrefixPays(coins, Count(s, |coins|), amount, feePerByte) {
      SelectionIsOptimal(coins, amount, feePerByte, s);
    }
    forall k | PrefixPays(coins, k, amount, feePerByte) ensures exists s :: Pays(coins, s, amount, feePerByte) {
      var s := PrefixIsAChoice(coins, amount, feePerByte, k);
    }
  }
}
