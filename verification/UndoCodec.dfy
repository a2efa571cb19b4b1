/** The on-disk formats of UTXO entries and undo data (internal/utxo/utxo.go), and
    what they mean for disconnecting a block. */
module UndoCodec {
  import opened Types
  import opened Bytes
  import opened Sizes
  import opened Utxo
  import opened Codec
  import opened Wire
  import Ledger

  /** An entry whose fields fit their serialized widths. */
  predicate EntryOk(e: UtxoEntry) {
    e.height < TWO32 && |e.pkScript| < TWO64 / 2
  }

  function PrintEntry(e: UtxoEntry): seq<Byte> {
    ToLE(e.value, 8) + ToLE(e.height, 4) + [if e.isCoinbase then 1 else 0] + PrintScript(e.pkScript)
  }

  /** ReadVarIntFromBytes. */
  function VarIntFromBytes(data: seq<Byte>): Option<nat> {
    var p :- ParseVarInt(data);
    Some(p.0)
  }

  /** The length-prefixed bytes at the start of data, located by the size of the
      length's own encoding. */
  function SizedBytes(data: seq<Byte>): Option<(seq<Byte>, seq<Byte>)> {
    var n :- VarIntFromBytes(data);
    var at := VarIntSize(n);
    if |data| < at + n then None else Some((data[at..at + n], data[at + n..]))
  }

  function ParseEntry(data: seq<Byte>): Option<UtxoEntry> {
    if |data| < 13 then None
    else
      var script :- SizedBytes(data[13..]);
      Powers();
      LittleEndianBound(data[0..8]);
      Some(UtxoEntry(LittleEndian(data[0..8]), script.0, U32At(data, 8), data[12] % 2 != 0))
  }

  lemma SizedParses(s: seq<Byte>, rest: seq<Byte>)
    requires |s| < TWO64
    ensures SizedBytes(PrintScript(s) + rest) == Some((s, rest))
  {
    hide PrintVarInt;
    hide ParseVarInt;
    hide VarIntSize;
    var data := PrintScript(s) + rest;
    assert data == PrintVarInt(|s|) + (s + rest);
    VarIntParses(|s|, s + rest);
    VarIntLength(|s|);
  }

  lemma EntrySlices(e: UtxoEntry)
    ensures var data := PrintEntry(e);
      && |data| >= 13 && data[0..8] == ToLE(e.value, 8) && data[8..12] == ToLE(e.height, 4)
      && data[12] == (if e.isCoinbase then 1 else 0) && data[13..] == PrintScript(e.pkScript)
  {
    hide ToLE;
    hide PrintScript;
  }

  lemma EntryParses(e: UtxoEntry)
    requires EntryOk(e)
    ensures ParseEntry(PrintEntry(e)) == Some(e)
  {
    hide PrintEntry;
    hide PrintScript;
    hide SizedBytes;
    hide ToLE;
    hide LittleEndian;
    hide Pow;
    var data := PrintEntry(e);
    EntrySlices(e);
    assert PrintScript(e.pkScript) + [] == PrintScript(e.pkScript);
    SizedParses(e.pkScript, []);
    Powers();
    ToLEValue(e.value, 8);
    U32AtIs(data, 8, e.height);
  }

  lemma EntryLength(e: UtxoEntry)
    ensures |PrintEntry(e)| == 8 + 4 + 1 + VarIntSize(|e.pkScript|) + |e.pkScript|
  {
    hide ToLE;
    hide PrintScript;
    ScriptLength(e.pkScript);
  }

  // ---------- Undo data ----------

  predicate SpentOk(so: SpentOutput) {
    so.outPoint.index < TWO32 && EntryOk(so.entry)
  }

  function PrintSpent(so: SpentOutput): seq<Byte> {
    so.outPoint.hash + ToLE(so.outPoint.index, 4) + PrintScript(PrintEntry(so.entry))
  }

  function ParseSpent(bs: seq<Byte>): Parsed<SpentOutput> {
    if |bs| < 36 then None
    else
      var bytes :- SizedBytes(bs[36..]);
      var entry :- ParseEntry(bytes.0);
      Some((SpentOutput(OutPoint(bs[..32], U32At(bs, 32)), entry), bytes.1))
  }

  lemma SpentParses(so: SpentOutput, rest: seq<Byte>)
    requires SpentOk(so)
    ensures ParseSpent(PrintSpent(so) + rest) == Some((so, rest))
  {
    hide PrintEntry;
    hide PrintScript;
    hide SizedBytes;
    hide ParseEntry;
    hide ToLE;
    hide U32At;
    var bs := PrintSpent(so) + rest;
    assert bs[..32] == so.outPoint.hash && bs[32..36] == ToLE(so.outPoint.index, 4);
    assert bs[36..] == PrintScript(PrintEntry(so.entry)) + rest;
    U32AtIs(bs, 32, so.outPoint.index);
    EntryLength(so.entry);
    SizedParses(PrintEntry(so.entry), rest);
    EntryParses(so.entry);
  }

  function SerializeUndo(undo: seq<SpentOutput>): seq<Byte> {
    PrintList(PrintSpent, undo)
  }

  /** What DeserializeUndoData answers: no data at all stands for no spent outputs, and
      bytes after the last entry are ignored. */
  function DeserializeUndo(data: seq<Byte>): Option<seq<SpentOutput>> {
    if |data| == 0 then Some([])
    else
      var n :- ParseVarInt(data);
      var p :- ParseMany(ParseSpent, n.0, n.1);
      Some(p.0)
  }

  ghost predicate UndoOk(undo: seq<SpentOutput>) {
    |undo| < TWO64 && forall i :: 0 <= i < |undo| ==> SpentOk(undo[i])
  }

  /** Undo data survives the disk. */
  lemma UndoRoundTrip(undo: seq<SpentOutput>)
    requires UndoOk(undo)
    ensures DeserializeUndo(SerializeUndo(undo)) == Some(undo)
  {
    hide PrintSpent;
    hide ParseSpent;
    hide PrintVarInt;
    hide ParseVarInt;
    hide PrintMany;
    hide ParseMany;
    hide SpentOk;
    forall x, rest | SpentOk(x) ensures ParseSpent(PrintSpent(x) + rest) == Some((x, rest)) {
      SpentParses(x, rest);
    }
    var body := PrintMany(PrintSpent, undo);
    VarIntParses(|undo|, body);
    VarIntLength(|undo|);
    assert body + [] == body;
    ManyParses(PrintSpent, ParseSpent, SpentOk, undo, []);
  }

  method SerializeUndoData(undo: seq<SpentOutput>) returns (buf: seq<Byte>)
    ensures buf == SerializeUndo(undo)
  {
    hide PrintEntry;
    hide PrintVarInt;
    hide ToLE;
    buf := PrintVarInt(|undo|);
    var i := 0;
    while i < |undo|
      invariant 0 <= i <= |undo| && buf == PrintVarInt(|undo|) + PrintMany(PrintSpent, undo[..i])
    {
      PrintManyAppend(PrintSpent, undo, i);
      var so := undo[i];
      buf := buf + so.outPoint.hash;
      buf := buf + ToLE(so.outPoint.index, 4);
      var entryBytes := PrintEntry(so.entry);
      buf := buf + PrintVarInt(|entryBytes|);
      buf := buf + entryBytes;
      i := i + 1;
    }
    assert undo[..i] == undo;
  }

  /** The loop that walks the data by offsets. */
  method DeserializeUndoData(data: seq<Byte>) returns (r: Option<seq<SpentOutput>>)
    ensures r == DeserializeUndo(data)
  {
    hide ParseVarInt;
    hide ParseEntry;
    hide ParseMany;
    hide VarIntSize;
    if |data| == 0 {
      return Some([]);
    }
    var count :- VarIntFromBytes(data);
    var offset := VarIntSize(count);
    VarIntAt(data, 0);
    ghost var whole := ParseMany(ParseSpent, count, data[offset..]);
    var undo: seq<SpentOutput> := [];
    ManyStart(whole);
    var i := 0;
    while i < count
      invariant 0 <= i <= count && offset <= |data|
      invariant whole == Prepend(undo, ParseMany(ParseSpent, count - i, data[offset..]))
    {
      ghost var bs := data[offset..];
      ManyStep(ParseSpent, count - i, undo, bs);
      if offset + 36 > |data| {
        return None;
      }
      assert data[offset..offset + 32] == bs[..32] && data[offset + 32..offset + 36] == bs[32..36];
      var outPoint := OutPoint(data[offset..offset + 32], U32At(data[offset..], 32));
      offset := offset + 36;
      assert data[offset..] == bs[36..];
      var entryLen :- VarIntFromBytes(data[offset..]);
      VarIntAt(data, offset);
      var viSize := VarIntSize(entryLen);
      offset := offset + viSize;
      if offset + entryLen > |data| {
        return None;
      }
      assert bs[36..][viSize..viSize + entryLen] == data[offset..offset + entryLen];
      var entry :- ParseEntry(data[offset..offset + entryLen]);
      offset := offset + entryLen;
      assert bs[36..][viSize + entryLen..] == data[offset..];
      undo := undo + [SpentOutput(outPoint, entry)];
      i := i + 1;
    }
    ManyEnd(ParseSpent, undo, data[offset..]);
    r := Some(undo);
  }

  /** A decoded length is followed by the bytes VarIntSize says. */
  lemma VarIntAt(data: seq<Byte>, at: nat)
    requires at <= |data| && ParseVarInt(data[at..]).Some?
    ensures var n := ParseVarInt(data[at..]).value;
      at + VarIntSize(n.0) <= |data| && n.1 == data[at + VarIntSize(n.0)..] && n.1 == data[at..][VarIntSize(n.0)..]
  {
    hide ParseVarInt;
    hide PrintVarInt;
    hide VarIntSize;
    VarIntPrints(data[at..]);
    var n := ParseVarInt(data[at..]).value;
    VarIntLength(n.0);
    assert data[at..] == PrintVarInt(n.0) + n.1;
    assert data[at..][VarIntSize(n.0)..] == n.1;
  }

  /** Disconnecting with undo data read back from disk restores the exact prior set. */
  lemma {:induction false} DisconnectFromDisk(r: Rules, s: Utxos, txs: seq<Transaction>, height: nat)
    requires FreshBlock(r, s, txs) && CollectTxs(r, s, txs, |txs|, height).Some?
    requires forall op :: op in s ==> op.index < TWO32 && EntryOk(s[op])
    requires |CollectTxs(r, s, txs, |txs|, height).value.undo| < TWO64
    ensures var v := CollectTxs(r, s, txs, |txs|, height).value;
      && DeserializeUndo(SerializeUndo(v.undo)).Some?
      && Disconnect(r, Finish(s, v), txs, DeserializeUndo(SerializeUndo(v.undo)).value) == s
  {
    hide CollectTxs;
    hide ApplyTxs;
    hide FreshBlock;
    hide Disconnect;
    hide Finish;
    hide SerializeUndo;
    hide DeserializeUndo;
    CollectRepresents(r, s, txs, |txs|, height);
    UndoRoundTrip(CollectTxs(r, s, txs, |txs|, height).value.undo);
    DisconnectUndoesConnect(r, s, txs, height);
  }

  // ---------- Keys of the set ----------

  function OutpointKey(op: OutPoint): seq<Byte> {
    op.hash + ToLE(op.index, 4)
  }

  /** Outpoints can stand for their 36-byte keys. */
  lemma KeysDiffer(a: OutPoint, b: OutPoint)
    requires a.index < TWO32 && b.index < TWO32
    ensures OutpointKey(a) == OutpointKey(b) <==> a == b
  {
    hide ToLE;
    var x, y := OutpointKey(a), OutpointKey(b);
    assert x[..32] == a.hash && y[..32] == b.hash && x[32..] == ToLE(a.index, 4) && y[32..] == ToLE(b.index, 4);
    Powers();
    ToLEValue(a.index, 4);
    ToLEValue(b.index, 4);
  }

  // ---------- Where the collision hypotheses come from ----------

  /** Transaction ids are digests of serializations. If the digest has no collision on
      the serializations at hand then no two transactions share an id. */
  lemma {:induction false} DigestIds(r: Rules, digest: seq<Byte> -> Hash, txs: seq<Transaction>)
    requires forall t :: t in txs ==> TxWithinLimits(t) && r.txid(t) == digest(PrintTx(t))
    requires forall a, b :: a in txs && b in txs && digest(PrintTx(a)) == digest(PrintTx(b)) ==>
      PrintTx(a) == PrintTx(b)
    ensures Ledger.NoCollision(r, txs)
  {
    hide PrintTx;
    hide TxWithinLimits;
    forall a, b | a in txs && b in txs && r.txid(a) == r.txid(b) ensures a == b {
      assert PrintTx(a) + [] == PrintTx(b) + [];
      TxInjective(a, b, [], []);
    }
  }
}
