/** Where each field stands in its serialization, byte by byte (internal/types). */
module Layout {
  import opened Types
  import opened Bytes
  import opened Sizes
  import opened Codec
  import opened Utxo
  import opened UndoCodec

  /** The part stands at offset i. */
  predicate HasAt(bs: seq<Byte>, i: nat, part: seq<Byte>) {
    i + |part| <= |bs| && bs[i..i + |part|] == part
  }

  /** Two, four or eight bytes at offset i hold v, lowest byte first. */
  predicate Holds16(bs: seq<Byte>, i: nat, v: nat) {
    i + 2 <= |bs| && v == bs[i] as int + 0x100 * (bs[i + 1] as int)
  }

  predicate Holds32(bs: seq<Byte>, i: nat, v: nat) {
    && i + 4 <= |bs|
    && v == bs[i] as int + 0x100 * (bs[i + 1] as int) + 0x1_0000 * (bs[i + 2] as int)
            + 0x100_0000 * (bs[i + 3] as int)
  }

  predicate Holds64(bs: seq<Byte>, i: nat, v: nat) {
    Holds32(bs, i, v % TWO32) && Holds32(bs, i + 4, v / TWO32)
  }

  lemma Bytes2(n: nat)
    requires n < 0x1_0000
    ensures Holds16(ToLE(n, 2), 0, n)
  {
    assert ToLE(n, 2) == [n % 256] + ToLE(n / 256, 1);
    assert ToLE(n / 256, 1) == [n / 256 % 256] + ToLE(n / 256 / 256, 0);
  }

  lemma Bytes4(n: nat)
    requires n < TWO32
    ensures Holds32(ToLE(n, 4), 0, n)
  {
    assert ToLE(n, 4) == [n % 256] + ToLE(n / 256, 3);
    assert ToLE(n / 256, 3) == [n / 256 % 256] + ToLE(n / 256 / 256, 2);
    Bytes2(n / 256 / 256);
  }

  lemma Bytes8(n: nat)
    requires n < TWO64
    ensures Holds64(ToLE(n, 8), 0, n)
  {
    var low, high := n % TWO32, n / TWO32;
    var a, b, c, d := n / 256, n / 256 / 256, n / 256 / 256 / 256, n / 256 / 256 / 256 / 256;
    assert ToLE(n, 8) == [n % 256] + ToLE(a, 7) && ToLE(a, 7) == [a % 256] + ToLE(b, 6);
    assert ToLE(b, 6) == [b % 256] + ToLE(c, 5) && ToLE(c, 5) == [c % 256] + ToLE(d, 4);
    assert ToLE(n, 8)[4..] == ToLE(d, 4);
    assert d == high && low == n % 256 + 256 * (a % 256) + 0x1_0000 * (b % 256) + 0x100_0000 * (c % 256);
    Bytes4(high);
  }

  lemma At32(bs: seq<Byte>, i: nat, n: nat)
    requires n < TWO32 && HasAt(bs, i, ToLE(n, 4))
    ensures Holds32(bs, i, n)
  {
    hide ToLE;
    Bytes4(n);
    var part := ToLE(n, 4);
    assert part == bs[i..i + 4];
    assert part[0] == bs[i] && part[1] == bs[i + 1] && part[2] == bs[i + 2] && part[3] == bs[i + 3];
  }

  lemma At64(bs: seq<Byte>, i: nat, n: nat)
    requires n < TWO64 && HasAt(bs, i, ToLE(n, 8))
    ensures Holds64(bs, i, n)
  {
    hide ToLE;
    Bytes8(n);
    var part := ToLE(n, 8);
    assert part == bs[i..i + 8];
    assert part[0] == bs[i] && part[1] == bs[i + 1] && part[2] == bs[i + 2] && part[3] == bs[i + 3];
    assert part[4] == bs[i + 4] && part[5] == bs[i + 4 + 1] && part[6] == bs[i + 4 + 2] && part[7] == bs[i + 4 + 3];
  }

  /** The middle of three parts stands behind the first. */
  lemma Middle(a: seq<Byte>, part: seq<Byte>, c: seq<Byte>)
    ensures HasAt(a + part + c, |a|, part)
  {
  }

  // ---------- Varints ----------

  /** One byte, or a marker and the value in two, four or eight. */
  lemma VarIntLayout(n: nat)
    requires n < TWO64
    ensures var bs := PrintVarInt(n);
      && |bs| == VarIntSize(n)
      && (n < 0xFD ==> bs == [n])
      && (0xFD <= n < 0x1_0000 ==> bs[0] == 0xFD && Holds16(bs, 1, n))
      && (0x1_0000 <= n < 0x1_0000_0000 ==> bs[0] == 0xFE && Holds32(bs, 1, n))
      && (0x1_0000_0000 <= n ==> bs[0] == 0xFF && Holds64(bs, 1, n))
  {
    if 0xFD <= n < 0x1_0000 {
      Bytes2(n);
    } else if n < 0x1_0000_0000 {
      Bytes4(n % TWO32);
    } else {
      Bytes8(n);
    }
  }

  // ---------- Headers ----------

  /** The 80 bytes of a header. */
  lemma HeaderLayout(h: BlockHeader)
    ensures var bs := PrintHeader(h);
      && |bs| == 80
      && Holds32(bs, 0, h.version)
      && bs[4..36] == h.prevBlock
      && bs[36..68] == h.merkleRoot
      && Holds32(bs, 68, h.timestamp)
      && Holds32(bs, 72, h.bits)
      && Holds32(bs, 76, h.nonce)
  {
    hide ToLE;
    var bs := PrintHeader(h);
    assert HasAt(bs, 0, ToLE(h.version, 4)) && HasAt(bs, 68, ToLE(h.timestamp, 4));
    assert HasAt(bs, 72, ToLE(h.bits, 4)) && HasAt(bs, 76, ToLE(h.nonce, 4));
    At32(bs, 0, h.version);
    At32(bs, 68, h.timestamp);
    At32(bs, 72, h.bits);
    At32(bs, 76, h.nonce);
  }

  // ---------- Transactions ----------

  /** An input: the outpoint it spends, the length of its script, the script, its sequence. */
  lemma InputLayout(i: TxInput)
    requires i.prevOut.index < TWO32
    ensures var bs, w, n := PrintInput(i), VarIntSize(|i.sigScript|), |i.sigScript|;
      && |bs| == 36 + w + n + 4
      && bs[..32] == i.prevOut.hash
      && Holds32(bs, 32, i.prevOut.index)
      && HasAt(bs, 36, PrintVarInt(n))
      && bs[36 + w..36 + w + n] == i.sigScript
      && Holds32(bs, 36 + w + n, i.sequence)
  {
    hide ToLE;
    hide PrintVarInt;
    hide VarIntSize;
    VarIntLength(|i.sigScript|);
    var bs, at := PrintInput(i), 36 + VarIntSize(|i.sigScript|) + |i.sigScript|;
    assert HasAt(bs, 32, ToLE(i.prevOut.index, 4)) && HasAt(bs, at, ToLE(i.sequence, 4));
    At32(bs, 32, i.prevOut.index);
    At32(bs, at, i.sequence);
  }

  /** An output: its value, the length of its script, the script. */
  lemma OutputLayout(o: TxOutput)
    ensures var bs, w, n := PrintOutput(o), VarIntSize(|o.pkScript|), |o.pkScript|;
      && |bs| == 8 + w + n
      && Holds64(bs, 0, o.value)
      && HasAt(bs, 8, PrintVarInt(n))
      && bs[8 + w..] == o.pkScript
  {
    hide ToLE;
    hide PrintVarInt;
    hide VarIntSize;
    VarIntLength(|o.pkScript|);
    assert HasAt(PrintOutput(o), 0, ToLE(o.value, 8));
    At64(PrintOutput(o), 0, o.value);
  }

  /** A list in print: element k stands between those before it and those after it. */
  lemma {:induction false} ManySplit<T>(enc: T -> seq<Byte>, xs: seq<T>, k: nat)
    requires k < |xs|
    ensures PrintMany(enc, xs) == PrintMany(enc, xs[..k]) + enc(xs[k]) + PrintMany(enc, xs[k + 1..])
  {
    if k > 0 {
      ManySplit(enc, xs[1..], k - 1);
      assert xs[1..][..k - 1] == xs[..k][1..] && xs[1..][k..] == xs[k + 1..];
    }
  }

  lemma {:induction false} ManyFrom<T>(enc: T -> seq<Byte>, xs: seq<T>, k: nat)
    requires k <= |xs|
    ensures PrintMany(enc, xs) == PrintMany(enc, xs[..k]) + PrintMany(enc, xs[k..])
  {
    if k == |xs| {
      assert xs[..k] == xs;
    } else {
      ManySplit(enc, xs, k);
      assert xs[k..][1..] == xs[k + 1..];
    }
  }

  lemma ListIs<T>(enc: T -> seq<Byte>, xs: seq<T>)
    ensures PrintList(enc, xs) == PrintVarInt(|xs|) + PrintMany(enc, xs)
  {
  }

  /** A transaction: version, count of inputs, inputs, count of outputs, outputs, lock time. */
  lemma TxLayout(tx: Transaction)
    ensures var bs, w := PrintTx(tx), VarIntSize(|tx.inputs|);
      && |bs| == TxSize(tx)
      && Holds32(bs, 0, tx.version)
      && HasAt(bs, 4, PrintVarInt(|tx.inputs|))
      && HasAt(bs, 4 + w + InputsSize(tx.inputs, 0), PrintVarInt(|tx.outputs|))
      && Holds32(bs, TxSize(tx) - 4, tx.lockTime)
  {
    hide ToLE;
    hide PrintMany;
    hide PrintVarInt;
    hide VarIntSize;
    hide InputsSize;
    hide OutputsSize;
    TxLength(tx);
    TxParts(tx);
    var bs := PrintTx(tx);
    assert HasAt(bs, 0, ToLE(tx.version, 4)) && HasAt(bs, |bs| - 4, ToLE(tx.lockTime, 4));
    At32(bs, 0, tx.version);
    At32(bs, |bs| - 4, tx.lockTime);
  }

  lemma TxParts(tx: Transaction)
    ensures |PrintVarInt(|tx.inputs|)| == VarIntSize(|tx.inputs|)
    ensures |PrintVarInt(|tx.outputs|)| == VarIntSize(|tx.outputs|)
    ensures |PrintMany(PrintInput, tx.inputs)| == InputsSize(tx.inputs, 0)
    ensures |PrintMany(PrintOutput, tx.outputs)| == OutputsSize(tx.outputs, 0)
  {
    hide PrintMany;
    hide PrintVarInt;
    hide VarIntSize;
    VarIntLength(|tx.inputs|);
    VarIntLength(|tx.outputs|);
    assert tx.inputs[0..] == tx.inputs && tx.outputs[0..] == tx.outputs;
    InputsLength(tx.inputs, 0);
    OutputsLength(tx.outputs, 0);
  }

  /** An element of a counted list that stands between two other parts. */
  lemma Inside(a: seq<Byte>, count: seq<Byte>, before: seq<Byte>, x: seq<Byte>, after: seq<Byte>, c: seq<Byte>)
    ensures HasAt(a + (count + (before + x + after)) + c, |a| + |count| + |before|, x)
  {
    assert a + (count + (before + x + after)) + c == (a + count + before) + x + (after + c);
    Middle(a + count + before, x, after + c);
  }

  /** Input k of a transaction stands behind those before it. */
  lemma InputAt(tx: Transaction, k: nat)
    requires k < |tx.inputs|
    ensures InputsSize(tx.inputs, 0) >= InputsSize(tx.inputs, k)
    ensures HasAt(PrintTx(tx), 4 + VarIntSize(|tx.inputs|) + InputsSize(tx.inputs, 0) - InputsSize(tx.inputs, k),
                  PrintInput(tx.inputs[k]))
  {
    hide *;
    var before, after := PrintMany(PrintInput, tx.inputs[..k]), PrintMany(PrintInput, tx.inputs[k + 1..]);
    TxParts(tx);
    InputsLength(tx.inputs, k);
    ManySplit(PrintInput, tx.inputs, k);
    ManyFrom(PrintInput, tx.inputs, k);
    ListIs(PrintInput, tx.inputs);
    TxIs(tx);
    Inside(ToLE(tx.version, 4), PrintVarInt(|tx.inputs|), before, PrintInput(tx.inputs[k]), after,
           PrintList(PrintOutput, tx.outputs) + ToLE(tx.lockTime, 4));
  }

  lemma TxIs(tx: Transaction)
    ensures var ins, outs := PrintList(PrintInput, tx.inputs), PrintList(PrintOutput, tx.outputs);
      && PrintTx(tx) == ToLE(tx.version, 4) + ins + (outs + ToLE(tx.lockTime, 4))
      && PrintTx(tx) == (ToLE(tx.version, 4) + ins) + outs + ToLE(tx.lockTime, 4)
  {
    hide ToLE;
    hide PrintList;
  }

  /** Output k of a transaction stands behind the inputs and the outputs before it. */
  lemma OutputAt(tx: Transaction, k: nat)
    requires k < |tx.outputs|
    ensures TxSize(tx) >= 4 + OutputsSize(tx.outputs, k)
    ensures HasAt(PrintTx(tx), TxSize(tx) - 4 - OutputsSize(tx.outputs, k), PrintOutput(tx.outputs[k]))
  {
    hide *;
    var before, after := PrintMany(PrintOutput, tx.outputs[..k]), PrintMany(PrintOutput, tx.outputs[k + 1..]);
    TxLength(tx);
    TxParts(tx);
    OutputsLength(tx.outputs, k);
    ManySplit(PrintOutput, tx.outputs, k);
    ManyFrom(PrintOutput, tx.outputs, k);
    ListIs(PrintOutput, tx.outputs);
    TxIs(tx);
    var a := ToLE(tx.version, 4) + PrintList(PrintInput, tx.inputs);
    Inside(a, PrintVarInt(|tx.outputs|), before, PrintOutput(tx.outputs[k]), after, ToLE(tx.lockTime, 4));
  }

  // ---------- Blocks ----------

  /** A block: its header, the count of transactions, the transactions. */
  lemma BlockLayout(b: Block, k: nat)
    ensures HasAt(PrintBlock(b), 0, PrintHeader(b.header))
    ensures HasAt(PrintBlock(b), 80, PrintVarInt(|b.txs|))
    ensures k < |b.txs| ==>
      TxsSize(b.txs, k) <= BlockSize(b) && HasAt(PrintBlock(b), BlockSize(b) - TxsSize(b.txs, k), PrintTx(b.txs[k]))
  {
    hide PrintMany;
    hide PrintTx;
    hide PrintHeader;
    hide PrintVarInt;
    hide VarIntSize;
    hide TxsSize;
    HeaderLayout(b.header);
    BlockLength(b);
    if k < |b.txs| {
      TxsLength(b.txs, k);
      ManySplit(PrintTx, b.txs, k);
      ManyFrom(PrintTx, b.txs, k);
      var before := PrintHeader(b.header) + PrintVarInt(|b.txs|) + PrintMany(PrintTx, b.txs[..k]);
      var after := PrintMany(PrintTx, b.txs[k + 1..]);
      assert PrintBlock(b) == before + PrintTx(b.txs[k]) + after;
      Middle(before, PrintTx(b.txs[k]), after);
    }
  }

  // ---------- Locator messages ----------

  lemma {:induction false} HashesLength(hs: seq<Hash>)
    ensures |PrintMany(PrintHash, hs)| == 32 * |hs|
  {
    if |hs| > 0 {
      HashesLength(hs[1..]);
    }
  }

  /** A locator message: version, count of hashes, the hashes, the hash to stop at. */
  lemma GetHeadersLayout(m: GetHeadersMsg, k: nat)
    ensures var bs, w, n := PrintGetHeaders(m), VarIntSize(|m.locator|), |m.locator|;
      && |bs| == 4 + w + 32 * n + 32
      && Holds32(bs, 0, m.version)
      && HasAt(bs, 4, PrintVarInt(n))
      && (k < n ==> bs[4 + w + 32 * k..4 + w + 32 * k + 32] == m.locator[k])
      && bs[4 + w + 32 * n..] == m.hashStop
  {
    hide ToLE;
    hide PrintMany;
    hide PrintVarInt;
    hide VarIntSize;
    var bs, n := PrintGetHeaders(m), |m.locator|;
    VarIntLength(n);
    HashesLength(m.locator);
    assert HasAt(bs, 0, ToLE(m.version, 4));
    At32(bs, 0, m.version);
    if k < n {
      ManySplit(PrintHash, m.locator, k);
      HashesLength(m.locator[..k]);
      var before := ToLE(m.version, 4) + PrintVarInt(n) + PrintMany(PrintHash, m.locator[..k]);
      var after := PrintMany(PrintHash, m.locator[k + 1..]) + m.hashStop;
      assert bs == before + m.locator[k] + after;
      Middle(before, m.locator[k], after);
    }
  }

  // ---------- The chainstate ----------

  /** The key of an unspent output: the transaction's id, then the index. */
  lemma KeyLayout(op: OutPoint)
    requires op.index < TWO32
    ensures var bs := OutpointKey(op); |bs| == 36 && bs[..32] == op.hash && Holds32(bs, 32, op.index)
  {
    hide ToLE;
    assert HasAt(OutpointKey(op), 32, ToLE(op.index, 4));
    At32(OutpointKey(op), 32, op.index);
  }

  /** Its entry: value, height, whether a coinbase made it, the length of the script, the script. */
  lemma EntryLayout(e: UtxoEntry)
    requires e.height < TWO32
    ensures var bs, w, n := PrintEntry(e), VarIntSize(|e.pkScript|), |e.pkScript|;
      && |bs| == 13 + w + n
      && Holds64(bs, 0, e.value)
      && Holds32(bs, 8, e.height)
      && bs[12] == (if e.isCoinbase then 1 else 0)
      && HasAt(bs, 13, PrintVarInt(n))
      && bs[13 + w..] == e.pkScript
  {
    hide ToLE;
    hide PrintVarInt;
    hide VarIntSize;
    VarIntLength(|e.pkScript|);
    var bs := PrintEntry(e);
    assert HasAt(bs, 0, ToLE(e.value, 8)) && HasAt(bs, 8, ToLE(e.height, 4));
    At64(bs, 0, e.value);
    At32(bs, 8, e.height);
  }

  /** A spent output in the undo data: its key, the length of its entry, the entry. */
  lemma SpentLayout(so: SpentOutput)
    requires so.outPoint.index < TWO32
    ensures var bs, n := PrintSpent(so), |PrintEntry(so.entry)|;
      && |bs| == 36 + VarIntSize(n) + n
      && bs[..32] == so.outPoint.hash
      && Holds32(bs, 32, so.outPoint.index)
      && HasAt(bs, 36, PrintVarInt(n))
      && bs[36 + VarIntSize(n)..] == PrintEntry(so.entry)
  {
    hide ToLE;
    hide PrintVarInt;
    hide VarIntSize;
    hide PrintEntry;
    VarIntLength(|PrintEntry(so.entry)|);
    assert HasAt(PrintSpent(so), 32, ToLE(so.outPoint.index, 4));
    At32(PrintSpent(so), 32, so.outPoint.index);
  }
}
