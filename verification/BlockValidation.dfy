/** Structural block rules (internal/consensus/validation.go), in particular the
    height-in-coinbase rule of the Specification section of BIP 34. */
module BlockValidation {
  import opened Types
  import opened Bytes
  import opened Amounts
  import opened Sizes
  import Merkle

  // ---------- The coinbase script ----------

  function MinimalPushLen(height: nat): nat {
    if height <= 0xFF then 1
    else if height <= 0xFFFF then 2
    else if height <= 0xFF_FFFF then 3
    else 4
  }

  /** The little-endian integer in the n bytes after the push byte. */
  function PushedHeight(script: seq<Byte>, n: nat): nat
    requires n < |script|
  {
    if n == 0 then 0 else PushedHeight(script, n - 1) + script[n] * Pow(n - 1)
  }

  predicate CoinbaseScriptOk(script: seq<Byte>, height: nat) {
    && 2 <= |script| <= 100
    && 1 <= script[0] <= 4
    && script[0] < |script|
    && PushedHeight(script, script[0]) == height
    && script[0] == MinimalPushLen(height)
  }

  method ValidateCoinbaseScriptSig(script: seq<Byte>, height: nat) returns (ok: bool)
    ensures ok == CoinbaseScriptOk(script, height)
  {
    if |script| < 2 || |script| > 100 {
      return false;
    }
    var pushLen := script[0];
    if pushLen < 1 || pushLen > 4 {
      return false;
    }
    if |script| < 1 + pushLen {
      return false;
    }
    var encodedHeight: nat, shift: nat := 0, 1;
    var i := 0;
    while i < pushLen
      invariant 0 <= i <= pushLen && shift == Pow(i)
      invariant encodedHeight == PushedHeight(script, i)
    {
      encodedHeight := encodedHeight + script[1 + i] * shift;
      shift := 256 * shift;
      i := i + 1;
    }
    if encodedHeight != height {
      return false;
    }
    ok := pushLen == MinimalPushLen(height);
  }

  /** The one accepted encoding of a height. */
  function EncodeHeight(height: nat): seq<Byte> {
    [MinimalPushLen(height)] + ToLE(height, MinimalPushLen(height))
  }

  lemma {:induction false} PushedHeightShift(script: seq<Byte>, n: nat)
    requires 0 < n < |script|
    ensures PushedHeight(script, n) == script[1] + 256 * PushedHeight(script[1..], n - 1)
  {
    if n > 1 {
      PushedHeightShift(script, n - 1);
    }
  }

  lemma {:induction false} PushedIsLE(script: seq<Byte>, n: nat, height: nat)
    requires n < |script|
    ensures PushedHeight(script, n) == height && height < Pow(n)
      <==> script[1..n + 1] == ToLE(height, n) && height < Pow(n)
    ensures PushedHeight(script, n) < Pow(n)
    decreases n
  {
    if n > 0 {
      PushedHeightShift(script, n);
      PushedIsLE(script[1..], n - 1, height / 256);
      assert script[1..][1..n] == script[2..n + 1];
      assert script[1..n + 1] == [script[1]] + script[2..n + 1];
    } else {
      assert script[1..1] == [];
    }
  }

  /** BIP 34 as implemented: a coinbase script is accepted at a height exactly when
      it has 2 to 100 bytes and starts with the minimal push of that height. */
  lemma {:induction false} AcceptedScripts(script: seq<Byte>, height: U32)
    ensures CoinbaseScriptOk(script, height) <==>
      2 <= |script| <= 100 && EncodeHeight(height) <= script
  {
    var n := MinimalPushLen(height);
    assert Pow(1) == 256 && Pow(2) == 0x1_0000 && Pow(3) == 0x100_0000 && Pow(4) == 0x1_0000_0000;
    if n < |script| {
      PushedIsLE(script, n, height);
      assert EncodeHeight(height) <= script <==> script[0] == n && script[1..n + 1] == ToLE(height, n) by {
        assert EncodeHeight(height)[1..] == ToLE(height, n);
        if EncodeHeight(height) <= script {
          assert script[..n + 1][1..] == script[1..n + 1];
        }
        if script[0] == n && script[1..n + 1] == ToLE(height, n) {
          assert script[..n + 1] == [script[0]] + script[1..n + 1];
        }
      }
    }
  }

  // ---------- Block structure ----------

  function TxIds(r: Rules, txs: seq<Transaction>, n: nat): (ids: seq<Hash>)
    requires n <= |txs|
    ensures |ids| == n
    ensures forall i :: 0 <= i < n ==> ids[i] == r.txid(txs[i])
  {
    if n == 0 then [] else TxIds(r, txs, n - 1) + [r.txid(txs[n - 1])]
  }

  ghost predicate StructureOk(r: Rules, b: Block, height: nat) {
    && b.header.version >= 1
    && |b.txs| > 0
    && b.txs[0].IsCoinbase()
    && (height > 0 ==> CoinbaseScriptOk(b.txs[0].inputs[0].sigScript, height))
    && (forall i :: 1 <= i < |b.txs| ==> !b.txs[i].IsCoinbase())
    && |b.txs| % TWO32 <= r.params.maxBlockTxCount
    && Merkle.Distinct(TxIds(r, b.txs, |b.txs|))
    && Merkle.Root(r.pairHash, TxIds(r, b.txs, |b.txs|)) == b.header.merkleRoot
    && BlockSize(b) % TWO32 <= r.params.maxBlockSize
    && SumOutputs(b.txs[0].outputs, |b.txs[0].outputs|) < TWO64
  }

  method NoLateCoinbase(txs: seq<Transaction>) returns (ok: bool)
    ensures ok == forall i :: 1 <= i < |txs| ==> !txs[i].IsCoinbase()
  {
    var i := 1;
    while i < |txs|
      invariant 1 <= i && forall j :: 1 <= j < i && j < |txs| ==> !txs[j].IsCoinbase()
    {
      if txs[i].IsCoinbase() {
        return false;
      }
      i := i + 1;
    }
    ok := true;
  }

  method HashTransactions(r: Rules, txs: seq<Transaction>) returns (ids: seq<Hash>)
    ensures ids == TxIds(r, txs, |txs|)
  {
    ids := [];
    var i := 0;
    while i < |txs|
      invariant 0 <= i <= |txs| && ids == TxIds(r, txs, i)
    {
      ids := ids + [r.txid(txs[i])];
      i := i + 1;
    }
  }

  method NoDuplicates(ids: seq<Hash>) returns (ok: bool)
    ensures ok == Merkle.Distinct(ids)
  {
    var txIDSet: set<Hash> := {};
    var i := 0;
    while i < |ids|
      invariant 0 <= i <= |ids|
      invariant forall h :: h in txIDSet <==> exists k :: 0 <= k < i && ids[k] == h
      invariant forall j, k :: 0 <= j < k < i ==> ids[j] != ids[k]
    {
      if ids[i] in txIDSet {
        return false;
      }
      txIDSet := txIDSet + {ids[i]};
      i := i + 1;
    }
    ok := true;
  }

  method ValidateBlockStructure(r: Rules, b: Block, height: nat) returns (ok: bool)
    ensures ok == StructureOk(r, b, height)
  {
    if b.header.version < 1 || |b.txs| == 0 {
      return false;
    }
    if !b.txs[0].IsCoinbase() {
      return false;
    }
    if height > 0 {
      ok := ValidateCoinbaseScriptSig(b.txs[0].inputs[0].sigScript, height);
      if !ok {
        return;
      }
    }
    ok := NoLateCoinbase(b.txs);
    if !ok {
      return;
    }
    if |b.txs| % TWO32 > r.params.maxBlockTxCount {
      return false;
    }
    var ids := HashTransactions(r, b.txs);
    ok := NoDuplicates(ids);
    if !ok {
      return;
    }
    var merkle := Merkle.MerkleRoot(r.pairHash, ids);
    if merkle != b.header.merkleRoot {
      return false;
    }
    if BlockSize(b) % TWO32 > r.params.maxBlockSize {
      return false;
    }
    var coinbaseValue := AddUpOutputs(b.txs[0].outputs);
    ok := coinbaseValue.Some?;
  }

  /** Blocks that pass with the same merkle root hold the same transactions, if their trees
      have one depth and neither the pair hash nor the ids collide on them. */
  lemma {:induction false} RootDeterminesBlock(r: Rules, a: Block, b: Block, ha: nat, hb: nat)
    requires StructureOk(r, a, ha) && StructureOk(r, b, hb) && a.header.merkleRoot == b.header.merkleRoot
    requires Merkle.Depth(|a.txs|) == Merkle.Depth(|b.txs|)
    requires var xs, ys := TxIds(r, a.txs, |a.txs|), TxIds(r, b.txs, |b.txs|);
      Merkle.CollisionFree(r.pairHash, Merkle.HashedPairs(r.pairHash, xs) + Merkle.HashedPairs(r.pairHash, ys))
    requires forall x, y :: x in a.txs && y in b.txs && r.txid(x) == r.txid(y) ==> x == y
    ensures a.txs == b.txs
  {
    hide CoinbaseScriptOk;
    hide Merkle.HashedPairs;
    hide Merkle.Root;
    hide TxIds;
    Merkle.RootDeterminesList(r.pairHash, TxIds(r, a.txs, |a.txs|), TxIds(r, b.txs, |b.txs|));
    forall i | 0 <= i < |a.txs| ensures a.txs[i] == b.txs[i] {
      assert TxIds(r, a.txs, |a.txs|)[i] == r.txid(a.txs[i]);
      assert TxIds(r, b.txs, |b.txs|)[i] == r.txid(b.txs[i]);
    }
  }
}
