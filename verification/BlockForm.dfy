/** The form of a block in plain terms: its bytes, its merkle root, and the height its
    coinbase pushes. */
module BlockForm {
  import opened Types
  import opened Bytes
  import opened Amounts
  import opened BlockValidation
  import opened Ledger
  import Codec
  import Merkle

  /** The script starts with a push of one to four bytes that hold the height, lowest first,
      and the last of several is not zero. */
  predicate PushesHeight(script: seq<Byte>, height: nat) {
    && |script| > 1 && 1 <= script[0] <= 4 && script[0] < |script|
    && LittleEndian(script[1..script[0] + 1]) == height
    && (script[0] == 1 || script[script[0]] != 0)
  }

  /** What a block must be at a height. */
  ghost predicate Formed(r: Rules, b: Block, height: nat) {
    && b.header.version >= 1 && |b.txs| > 0
    && (forall i :: 0 <= i < |b.txs| ==> (b.txs[i].IsCoinbase() <==> i == 0))
    && (height > 0 ==>
          var script := b.txs[0].inputs[0].sigScript; 2 <= |script| <= 100 && PushesHeight(script, height))
    && |b.txs| % TWO32 <= r.params.maxBlockTxCount
    && (forall i, j :: 0 <= i < j < |b.txs| ==> r.txid(b.txs[i]) != r.txid(b.txs[j]))
    && b.header.merkleRoot == Merkle.Root(r.pairHash, Ids(r, b.txs))
    && |Codec.PrintBlock(b)| % TWO32 <= r.params.maxBlockSize
    && SumOutputs(b.txs[0].outputs, |b.txs[0].outputs|) < TWO64
  }

  function Ids(r: Rules, txs: seq<Transaction>): seq<Hash> {
    seq<Hash>(|txs|, i requires 0 <= i < |txs| => r.txid(txs[i]))
  }

  lemma {:induction false} PushedIs(script: seq<Byte>, n: nat)
    requires n < |script|
    ensures PushedHeight(script, n) == LittleEndian(script[1..n + 1])
    decreases n
  {
    if n > 0 {
      PushedHeightShift(script, n);
      PushedIs(script[1..], n - 1);
      assert script[1..n + 1][1..] == script[1..][1..n];
    }
  }

  /** A number of several bytes needs all of them exactly if the last is not zero. */
  lemma TopByte(bs: seq<Byte>)
    requires 1 <= |bs| <= 4
    ensures MinimalPushLen(LittleEndian(bs)) == |bs| <==> |bs| == 1 || bs[|bs| - 1] != 0
  {
    var n := |bs| - 1;
    LittleEndianSplit(bs, n);
    LittleEndianBound(bs[..n]);
    assert Pow(0) == 1 && Pow(1) == 256 && Pow(2) == 0x1_0000 && Pow(3) == 0x100_0000;
    assert LittleEndian(bs[n..]) == bs[n] + 256 * LittleEndian(bs[n..][1..]);
    assert LittleEndian(bs) == LittleEndian(bs[..n]) + Pow(n) * bs[n];
  }

  lemma {:induction false} ScriptDecided(script: seq<Byte>, height: nat)
    ensures CoinbaseScriptOk(script, height) <==> 2 <= |script| <= 100 && PushesHeight(script, height)
  {
    if 2 <= |script| && 1 <= script[0] <= 4 && script[0] < |script| {
      PushedIs(script, script[0]);
      TopByte(script[1..script[0] + 1]);
    }
  }

  /** The structural check passes exactly the blocks of this form. */
  lemma {:induction false} StructureDecided(r: Rules, b: Block, height: nat)
    ensures StructureOk(r, b, height) <==> Formed(r, b, height)
  {
    hide CoinbaseScriptOk;
    hide PushesHeight;
    hide Merkle.Root;
    hide Codec.PrintBlock;
    Codec.BlockLength(b);
    assert TxIds(r, b.txs, |b.txs|) == Ids(r, b.txs);
    IdsDiffer(r, b.txs);
    if |b.txs| > 0 && b.txs[0].IsCoinbase() {
      ScriptDecided(b.txs[0].inputs[0].sigScript, height);
    }
  }

  lemma IdsDiffer(r: Rules, txs: seq<Transaction>)
    ensures Merkle.Distinct(Ids(r, txs)) <==> forall i, j :: 0 <= i < j < |txs| ==> r.txid(txs[i]) != r.txid(txs[j])
  {
    var ids := Ids(r, txs);
    assert forall i :: 0 <= i < |txs| ==> ids[i] == r.txid(txs[i]);
    if Merkle.Distinct(ids) {
      forall i, j | 0 <= i < j < |txs| ensures r.txid(txs[i]) != r.txid(txs[j]) {
        assert ids[i] != ids[j];
      }
    }
  }

  /** Every block of a valid chain above genesis has this form and names its parent. */
  lemma {:induction false} BlocksFormed(r: Rules, chain: seq<Block>, h: nat)
    requires ValidChain(r, chain) && 0 < h < |chain|
    ensures Formed(r, chain[h], h) && chain[h].header.prevBlock == r.blockHash(chain[h - 1].header)
  {
    hide ValidChain;
    hide StructureOk;
    hide Formed;
    ValidPrefix(r, chain, h + 1);
    assert chain[..h + 1] == chain[..h] + [chain[h]];
    ValidLast(r, chain[..h], chain[h]);
    StructureDecided(r, chain[h], h);
  }
}
