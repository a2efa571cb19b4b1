/** The canonical byte formats of transactions, headers, blocks and header messages
    (internal/types/transaction.go, internal/types/block.go,
    internal/protocol/messages.go) as pairs of a printer and a parser, and the laws
    that make each pair inverse in both directions:

      - parsing a printed value followed by any bytes gives the value and the bytes;
      - any bytes that parse are the printing of the value, followed by the rest. */
module Codec {
  import opened Types
  import opened Bytes
  import opened Sizes

  const MAX_TX_INPUTS: nat := 10000
  const MAX_TX_OUTPUTS: nat := 10000
  const MAX_SCRIPT_SIZE: nat := 10000
  const MAX_BLOCK_TX_COUNT: nat := 50000
  const MAX_LOCATOR_HASHES: nat := 500
  const MAX_HEADERS_PER_MSG: nat := 2000

  /** A parsed value and the bytes after it. */
  type Parsed<T> = Option<(T, seq<Byte>)>

  // ---------- Integers and hashes ----------

  function ParseU32(bs: seq<Byte>): Parsed<U32> {
    if |bs| < 4 then None
    else
      LittleEndianBound(bs[..4]);
      Powers();
      Some((LittleEndian(bs[..4]), bs[4..]))
  }

  function ParseU64(bs: seq<Byte>): Parsed<U64> {
    if |bs| < 8 then None
    else
      LittleEndianBound(bs[..8]);
      Powers();
      Some((LittleEndian(bs[..8]), bs[8..]))
  }

  lemma IntParses(n: nat, k: nat, rest: seq<Byte>)
    requires n < Pow(k)
    ensures (ToLE(n, k) + rest)[..k] == ToLE(n, k) && (ToLE(n, k) + rest)[k..] == rest
    ensures LittleEndian(ToLE(n, k)) == n
  {
    ToLEValue(n, k);
  }

  lemma U32Parses(n: U32, rest: seq<Byte>)
    ensures ParseU32(ToLE(n, 4) + rest) == Some((n, rest))
  {
    hide LittleEndian;
    hide Pow;
    hide ToLE;
    Powers();
    IntParses(n, 4, rest);
  }

  lemma U32Prints(bs: seq<Byte>)
    requires ParseU32(bs).Some?
    ensures bs == ToLE(ParseU32(bs).value.0, 4) + ParseU32(bs).value.1
  {
    hide LittleEndian;
    hide Pow;
    hide ToLE;
    ValueToLE(bs[..4]);
  }

  lemma U64Parses(n: U64, rest: seq<Byte>)
    ensures ParseU64(ToLE(n, 8) + rest) == Some((n, rest))
  {
    hide LittleEndian;
    hide Pow;
    hide ToLE;
    Powers();
    IntParses(n, 8, rest);
  }

  lemma U64Prints(bs: seq<Byte>)
    requires ParseU64(bs).Some?
    ensures bs == ToLE(ParseU64(bs).value.0, 8) + ParseU64(bs).value.1
  {
    hide LittleEndian;
    hide Pow;
    hide ToLE;
    ValueToLE(bs[..8]);
  }

  function PrintHash(h: Hash): seq<Byte> {
    h
  }

  function ParseHash(bs: seq<Byte>): Parsed<Hash> {
    if |bs| < 32 then None else Some((bs[..32], bs[32..]))
  }

  lemma HashParses(h: Hash, rest: seq<Byte>)
    ensures ParseHash(h + rest) == Some((h, rest))
  {
  }

  lemma HashPrints(bs: seq<Byte>)
    requires ParseHash(bs).Some?
    ensures bs == ParseHash(bs).value.0 + ParseHash(bs).value.1
  {
  }

  // ---------- Variable-length integers ----------

  function PrintVarInt(n: nat): seq<Byte> {
    if n < 0xFD then [n]
    else if n <= 0xFFFF then [0xFD] + ToLE(n, 2)
    else if n <= 0xFFFF_FFFF then [0xFE] + ToLE(n, 4)
    else [0xFF] + ToLE(n, 8)
  }

  function ParseVarInt(bs: seq<Byte>): Parsed<nat> {
    if |bs| == 0 then None
    else if bs[0] == 0xFD then LongVarInt(bs, 2, 0xFD)
    else if bs[0] == 0xFE then LongVarInt(bs, 4, 0x1_0000)
    else if bs[0] == 0xFF then LongVarInt(bs, 8, 0x1_0000_0000)
    else Some((bs[0], bs[1..]))
  }

  /** A k-byte value after the discriminant; values below `least` have a shorter form
      and are refused. */
  function LongVarInt(bs: seq<Byte>, k: nat, least: nat): Parsed<nat>
    requires |bs| > 0
  {
    if |bs| < 1 + k || LittleEndian(bs[1..1 + k]) < least then None
    else Some((LittleEndian(bs[1..1 + k]), bs[1 + k..]))
  }

  lemma LongParses(d: Byte, n: nat, k: nat, least: nat, rest: seq<Byte>)
    requires least <= n < Pow(k)
    ensures LongVarInt([d] + ToLE(n, k) + rest, k, least) == Some((n, rest))
  {
    hide LittleEndian;
    hide ToLE;
    var bs := [d] + ToLE(n, k) + rest;
    assert bs[1..1 + k] == ToLE(n, k) && bs[1 + k..] == rest;
    ToLEValue(n, k);
  }

  lemma LongPrints(bs: seq<Byte>, k: nat, least: nat)
    requires |bs| > 0 && LongVarInt(bs, k, least).Some?
    ensures var p := LongVarInt(bs, k, least).value;
      least <= p.0 < Pow(k) && bs == [bs[0]] + ToLE(p.0, k) + p.1
  {
    hide LittleEndian;
    hide ToLE;
    LittleEndianBound(bs[1..1 + k]);
    ValueToLE(bs[1..1 + k]);
  }

  lemma VarIntParses(n: nat, rest: seq<Byte>)
    requires n < TWO64
    ensures ParseVarInt(PrintVarInt(n) + rest) == Some((n, rest))
  {
    hide LongVarInt;
    hide ToLE;
    Powers();
    if n < 0xFD {
      assert ([n] + rest)[1..] == rest;
    } else if n <= 0xFFFF {
      LongParses(0xFD, n, 2, 0xFD, rest);
    } else if n <= 0xFFFF_FFFF {
      LongParses(0xFE, n, 4, 0x1_0000, rest);
    } else {
      LongParses(0xFF, n, 8, 0x1_0000_0000, rest);
    }
  }

  /** Non-minimal encodings are refused: bytes that parse are the one printing of the value. */
  lemma VarIntPrints(bs: seq<Byte>)
    requires ParseVarInt(bs).Some?
    ensures var p := ParseVarInt(bs).value; p.0 < TWO64 && bs == PrintVarInt(p.0) + p.1
  {
    hide LongVarInt;
    hide ToLE;
    hide Pow;
    Powers();
    if bs[0] == 0xFD {
      LongPrints(bs, 2, 0xFD);
    } else if bs[0] == 0xFE {
      LongPrints(bs, 4, 0x1_0000);
    } else if bs[0] == 0xFF {
      LongPrints(bs, 8, 0x1_0000_0000);
    }
  }

  lemma VarIntLength(n: nat)
    ensures |PrintVarInt(n)| == VarIntSize(n)
  {
  }

  // ---------- Scripts ----------

  function PrintScript(s: seq<Byte>): seq<Byte> {
    PrintVarInt(|s|) + s
  }

  function ParseScript(bs: seq<Byte>): Parsed<seq<Byte>> {
    var n :- ParseVarInt(bs);
    if n.0 > MAX_SCRIPT_SIZE || |n.1| < n.0 then None else Some((n.1[..n.0], n.1[n.0..]))
  }

  lemma ScriptParses(s: seq<Byte>, rest: seq<Byte>)
    requires |s| <= MAX_SCRIPT_SIZE
    ensures ParseScript(PrintScript(s) + rest) == Some((s, rest))
  {
    hide PrintVarInt;
    hide ParseVarInt;
    assert PrintVarInt(|s|) + s + rest == PrintVarInt(|s|) + (s + rest);
    VarIntParses(|s|, s + rest);
  }

  lemma ScriptPrints(bs: seq<Byte>)
    requires ParseScript(bs).Some?
    ensures var p := ParseScript(bs).value; |p.0| <= MAX_SCRIPT_SIZE && bs == PrintScript(p.0) + p.1
  {
    hide PrintVarInt;
    hide ParseVarInt;
    VarIntPrints(bs);
  }

  // ---------- Lists ----------

  ghost predicate Parses<T(!new)>(enc: T -> seq<Byte>, dec: seq<Byte> -> Parsed<T>, ok: T -> bool) {
    forall x, rest :: ok(x) ==> dec(enc(x) + rest) == Some((x, rest))
  }

  ghost predicate Prints<T(!new)>(enc: T -> seq<Byte>, dec: seq<Byte> -> Parsed<T>, ok: T -> bool) {
    forall bs :: dec(bs).Some? ==>
      ok(dec(bs).value.0) && bs == enc(dec(bs).value.0) + dec(bs).value.1
  }

  function PrintMany<T>(enc: T -> seq<Byte>, xs: seq<T>): seq<Byte> {
    if |xs| == 0 then [] else enc(xs[0]) + PrintMany(enc, xs[1..])
  }

  function ParseMany<T>(dec: seq<Byte> -> Parsed<T>, n: nat, bs: seq<Byte>): Parsed<seq<T>> {
    if n == 0 then Some(([], bs))
    else
      var x :- dec(bs);
      var xs :- ParseMany(dec, n - 1, x.1);
      Some(([x.0] + xs.0, xs.1))
  }

  lemma {:induction false} ManyParses<T(!new)>(enc: T -> seq<Byte>, dec: seq<Byte> -> Parsed<T>, ok: T -> bool,
                                               xs: seq<T>, rest: seq<Byte>)
    requires Parses(enc, dec, ok) && forall i :: 0 <= i < |xs| ==> ok(xs[i])
    ensures ParseMany(dec, |xs|, PrintMany(enc, xs) + rest) == Some((xs, rest))
  {
    if |xs| == 0 {
      assert PrintMany(enc, xs) + rest == rest;
    } else {
      var more := PrintMany(enc, xs[1..]) + rest;
      assert PrintMany(enc, xs) + rest == enc(xs[0]) + more;
      ManyParses(enc, dec, ok, xs[1..], rest);
      assert [xs[0]] + xs[1..] == xs;
    }
  }

  lemma {:induction false} ManyPrints<T(!new)>(enc: T -> seq<Byte>, dec: seq<Byte> -> Parsed<T>, ok: T -> bool,
                                               n: nat, bs: seq<Byte>)
    requires Prints(enc, dec, ok) && ParseMany(dec, n, bs).Some?
    ensures var p := ParseMany(dec, n, bs).value;
      |p.0| == n && (forall i :: 0 <= i < n ==> ok(p.0[i])) && bs == PrintMany(enc, p.0) + p.1
  {
    if n > 0 {
      var x := dec(bs).value;
      ManyPrints(enc, dec, ok, n - 1, x.1);
      var xs := ParseMany(dec, n - 1, x.1).value;
      assert ([x.0] + xs.0)[1..] == xs.0;
    }
  }

  /** A list is preceded by its length, which the parser limits. */
  function PrintList<T>(enc: T -> seq<Byte>, xs: seq<T>): seq<Byte> {
    PrintVarInt(|xs|) + PrintMany(enc, xs)
  }

  function ParseList<T>(dec: seq<Byte> -> Parsed<T>, limit: nat, bs: seq<Byte>): Parsed<seq<T>> {
    var n :- ParseVarInt(bs);
    if n.0 > limit then None else ParseMany(dec, n.0, n.1)
  }

  lemma {:induction false} ListParses<T(!new)>(enc: T -> seq<Byte>, dec: seq<Byte> -> Parsed<T>, ok: T -> bool,
                                               limit: nat, xs: seq<T>, rest: seq<Byte>)
    requires Parses(enc, dec, ok) && (forall i :: 0 <= i < |xs| ==> ok(xs[i])) && |xs| <= limit < TWO64
    ensures ParseList(dec, limit, PrintList(enc, xs) + rest) == Some((xs, rest))
  {
    hide ParseVarInt;
    hide PrintVarInt;
    hide PrintMany;
    hide ParseMany;
    assert PrintList(enc, xs) + rest == PrintVarInt(|xs|) + (PrintMany(enc, xs) + rest);
    VarIntParses(|xs|, PrintMany(enc, xs) + rest);
    ManyParses(enc, dec, ok, xs, rest);
  }

  lemma {:induction false} ListPrints<T(!new)>(enc: T -> seq<Byte>, dec: seq<Byte> -> Parsed<T>, ok: T -> bool,
                                               limit: nat, bs: seq<Byte>)
    requires Prints(enc, dec, ok) && ParseList(dec, limit, bs).Some?
    ensures var p := ParseList(dec, limit, bs).value;
      |p.0| <= limit && (forall i :: 0 <= i < |p.0| ==> ok(p.0[i])) && bs == PrintList(enc, p.0) + p.1
  {
    hide ParseVarInt;
    hide PrintVarInt;
    hide PrintMany;
    hide ParseMany;
    VarIntPrints(bs);
    var n := ParseVarInt(bs).value;
    ManyPrints(enc, dec, ok, n.0, n.1);
  }

  // ---------- Inputs and outputs ----------

  predicate InputOk(i: TxInput) {
    i.prevOut.index < TWO32 && |i.sigScript| <= MAX_SCRIPT_SIZE
  }

  function PrintInput(i: TxInput): seq<Byte> {
    PrintHash(i.prevOut.hash) + ToLE(i.prevOut.index, 4) + PrintScript(i.sigScript) + ToLE(i.sequence, 4)
  }

  function ParseInput(bs: seq<Byte>): Parsed<TxInput> {
    var h :- ParseHash(bs);
    var i :- ParseU32(h.1);
    var s :- ParseScript(i.1);
    var q :- ParseU32(s.1);
    Some((TxInput(OutPoint(h.0, i.0), s.0, q.0), q.1))
  }

  lemma Nest4(a: seq<Byte>, b: seq<Byte>, c: seq<Byte>, d: seq<Byte>, rest: seq<Byte>)
    ensures a + b + c + d + rest == a + (b + (c + (d + rest)))
  {
  }

  lemma InputParses(i: TxInput, rest: seq<Byte>)
    requires InputOk(i)
    ensures ParseInput(PrintInput(i) + rest) == Some((i, rest))
  {
    hide ParseHash;
    hide ParseU32;
    hide ParseScript;
    hide PrintScript;
    hide ToLE;
    var d := ToLE(i.sequence, 4) + rest;
    var c := PrintScript(i.sigScript) + d;
    var b := ToLE(i.prevOut.index, 4) + c;
    Nest4(i.prevOut.hash, ToLE(i.prevOut.index, 4), PrintScript(i.sigScript), ToLE(i.sequence, 4), rest);
    HashParses(i.prevOut.hash, b);
    U32Parses(i.prevOut.index, c);
    ScriptParses(i.sigScript, d);
    U32Parses(i.sequence, rest);
  }

  lemma InputPrints(bs: seq<Byte>)
    requires ParseInput(bs).Some?
    ensures var p := ParseInput(bs).value; InputOk(p.0) && bs == PrintInput(p.0) + p.1
  {
    hide ParseHash;
    hide ParseU32;
    hide ParseScript;
    hide PrintScript;
    hide ToLE;
    HashPrints(bs);
    var h := ParseHash(bs).value;
    U32Prints(h.1);
    var i := ParseU32(h.1).value;
    ScriptPrints(i.1);
    var s := ParseScript(i.1).value;
    U32Prints(s.1);
    var q := ParseU32(s.1).value;
    Nest4(h.0, ToLE(i.0, 4), PrintScript(s.0), ToLE(q.0, 4), q.1);
  }

  predicate OutputOk(o: TxOutput) {
    |o.pkScript| <= MAX_SCRIPT_SIZE
  }

  function PrintOutput(o: TxOutput): seq<Byte> {
    ToLE(o.value, 8) + PrintScript(o.pkScript)
  }

  function ParseOutput(bs: seq<Byte>): Parsed<TxOutput> {
    var v :- ParseU64(bs);
    var s :- ParseScript(v.1);
    Some((TxOutput(v.0, s.0), s.1))
  }

  lemma OutputParses(o: TxOutput, rest: seq<Byte>)
    requires OutputOk(o)
    ensures ParseOutput(PrintOutput(o) + rest) == Some((o, rest))
  {
    hide ParseU64;
    hide ParseScript;
    hide PrintScript;
    hide ToLE;
    var s := PrintScript(o.pkScript) + rest;
    assert PrintOutput(o) + rest == ToLE(o.value, 8) + s;
    U64Parses(o.value, s);
    ScriptParses(o.pkScript, rest);
  }

  lemma OutputPrints(bs: seq<Byte>)
    requires ParseOutput(bs).Some?
    ensures var p := ParseOutput(bs).value; OutputOk(p.0) && bs == PrintOutput(p.0) + p.1
  {
    hide ParseU64;
    hide ParseScript;
    hide PrintScript;
    hide ToLE;
    U64Prints(bs);
    var v := ParseU64(bs).value;
    ScriptPrints(v.1);
    var s := ParseScript(v.1).value;
    assert ToLE(v.0, 8) + PrintScript(s.0) + s.1 == ToLE(v.0, 8) + (PrintScript(s.0) + s.1);
  }

  // ---------- Transactions ----------

  /** The limits of the wire format. */
  predicate TxWithinLimits(tx: Transaction) {
    && |tx.inputs| <= MAX_TX_INPUTS && (forall i :: 0 <= i < |tx.inputs| ==> InputOk(tx.inputs[i]))
    && |tx.outputs| <= MAX_TX_OUTPUTS && (forall i :: 0 <= i < |tx.outputs| ==> OutputOk(tx.outputs[i]))
  }

  function PrintTx(tx: Transaction): seq<Byte> {
    ToLE(tx.version, 4) + PrintList(PrintInput, tx.inputs) + PrintList(PrintOutput, tx.outputs) + ToLE(tx.lockTime, 4)
  }

  function ParseTx(bs: seq<Byte>): Parsed<Transaction> {
    var v :- ParseU32(bs);
    var ins :- ParseList(ParseInput, MAX_TX_INPUTS, v.1);
    var outs :- ParseList(ParseOutput, MAX_TX_OUTPUTS, ins.1);
    var l :- ParseU32(outs.1);
    Some((Transaction(v.0, ins.0, outs.0, l.0), l.1))
  }

  lemma PartsInvert()
    ensures Parses(PrintInput, ParseInput, InputOk) && Prints(PrintInput, ParseInput, InputOk)
    ensures Parses(PrintOutput, ParseOutput, OutputOk) && Prints(PrintOutput, ParseOutput, OutputOk)
  {
    hide ParseInput;
    hide PrintInput;
    hide ParseOutput;
    hide PrintOutput;
    forall x, rest | InputOk(x) ensures ParseInput(PrintInput(x) + rest) == Some((x, rest)) {
      InputParses(x, rest);
    }
    forall bs | ParseInput(bs).Some?
      ensures InputOk(ParseInput(bs).value.0) && bs == PrintInput(ParseInput(bs).value.0) + ParseInput(bs).value.1
    {
      InputPrints(bs);
    }
    forall x, rest | OutputOk(x) ensures ParseOutput(PrintOutput(x) + rest) == Some((x, rest)) {
      OutputParses(x, rest);
    }
    forall bs | ParseOutput(bs).Some?
      ensures OutputOk(ParseOutput(bs).value.0) && bs == PrintOutput(ParseOutput(bs).value.0) + ParseOutput(bs).value.1
    {
      OutputPrints(bs);
    }
  }

  /** Parsing a serialized transaction, whatever follows it, gives it back. */
  lemma TxParses(tx: Transaction, rest: seq<Byte>)
    requires TxWithinLimits(tx)
    ensures ParseTx(PrintTx(tx) + rest) == Some((tx, rest))
  {
    hide ParseU32;
    hide ParseList;
    hide PrintList;
    hide ToLE;
    hide Parses;
    hide Prints;
    PartsInvert();
    var d := ToLE(tx.lockTime, 4) + rest;
    var c := PrintList(PrintOutput, tx.outputs) + d;
    var b := PrintList(PrintInput, tx.inputs) + c;
    Nest4(ToLE(tx.version, 4), PrintList(PrintInput, tx.inputs), PrintList(PrintOutput, tx.outputs),
          ToLE(tx.lockTime, 4), rest);
    U32Parses(tx.version, b);
    ListParses(PrintInput, ParseInput, InputOk, MAX_TX_INPUTS, tx.inputs, c);
    ListParses(PrintOutput, ParseOutput, OutputOk, MAX_TX_OUTPUTS, tx.outputs, d);
    U32Parses(tx.lockTime, rest);
  }

  /** Bytes that parse as a transaction are its serialization. */
  lemma TxPrints(bs: seq<Byte>)
    requires ParseTx(bs).Some?
    ensures var p := ParseTx(bs).value; TxWithinLimits(p.0) && bs == PrintTx(p.0) + p.1
  {
    hide ParseU32;
    hide ParseList;
    hide PrintList;
    hide ToLE;
    hide Parses;
    hide Prints;
    PartsInvert();
    U32Prints(bs);
    var v := ParseU32(bs).value;
    ListPrints(PrintInput, ParseInput, InputOk, MAX_TX_INPUTS, v.1);
    var ins := ParseList(ParseInput, MAX_TX_INPUTS, v.1).value;
    ListPrints(PrintOutput, ParseOutput, OutputOk, MAX_TX_OUTPUTS, ins.1);
    var outs := ParseList(ParseOutput, MAX_TX_OUTPUTS, ins.1).value;
    U32Prints(outs.1);
    var l := ParseU32(outs.1).value;
    Nest4(ToLE(v.0, 4), PrintList(PrintInput, ins.0), PrintList(PrintOutput, outs.0), ToLE(l.0, 4), l.1);
  }

  /** Serialization is injective, and no serialization is a proper prefix of another. */
  lemma TxInjective(a: Transaction, b: Transaction, r: seq<Byte>, s: seq<Byte>)
    requires TxWithinLimits(a) && TxWithinLimits(b) && PrintTx(a) + r == PrintTx(b) + s
    ensures a == b && r == s
  {
    hide PrintTx;
    hide ParseTx;
    TxParses(a, r);
    TxParses(b, s);
  }

  // ---------- Headers and blocks ----------

  function PrintHeader(h: BlockHeader): seq<Byte> {
    ToLE(h.version, 4) + h.prevBlock + h.merkleRoot + ToLE(h.timestamp, 4) + ToLE(h.bits, 4) + ToLE(h.nonce, 4)
  }

  function U32At(bs: seq<Byte>, i: nat): U32
    requires i + 4 <= |bs|
  {
    LittleEndianBound(bs[i..i + 4]);
    Powers();
    LittleEndian(bs[i..i + 4])
  }

  /** A header read at fixed offsets from its 80 bytes. */
  function ParseHeader(bs: seq<Byte>): Parsed<BlockHeader> {
    if |bs| < 80 then None
    else Some((BlockHeader(U32At(bs, 0), bs[4..36], bs[36..68], U32At(bs, 68), U32At(bs, 72), U32At(bs, 76)), bs[80..]))
  }

  lemma U32AtIs(bs: seq<Byte>, i: nat, n: U32)
    requires i + 4 <= |bs|
    ensures bs[i..i + 4] == ToLE(n, 4) <==> U32At(bs, i) == n
  {
    hide LittleEndian;
    hide ToLE;
    hide Pow;
    Powers();
    ToLEValue(n, 4);
    ValueToLE(bs[i..i + 4]);
  }

  lemma HeaderSlices(h: BlockHeader, rest: seq<Byte>)
    ensures var bs := PrintHeader(h) + rest;
      && |PrintHeader(h)| == 80 && |bs| >= 80
      && bs[0..4] == ToLE(h.version, 4) && bs[4..36] == h.prevBlock && bs[36..68] == h.merkleRoot
      && bs[68..72] == ToLE(h.timestamp, 4) && bs[72..76] == ToLE(h.bits, 4) && bs[76..80] == ToLE(h.nonce, 4)
      && bs[80..] == rest
  {
    hide ToLE;
  }

  lemma HeaderParses(h: BlockHeader, rest: seq<Byte>)
    ensures ParseHeader(PrintHeader(h) + rest) == Some((h, rest))
  {
    hide U32At;
    hide PrintHeader;
    hide ToLE;
    HeaderSlices(h, rest);
    var bs := PrintHeader(h) + rest;
    U32AtIs(bs, 0, h.version);
    U32AtIs(bs, 68, h.timestamp);
    U32AtIs(bs, 72, h.bits);
    U32AtIs(bs, 76, h.nonce);
  }

  lemma HeaderPrints(bs: seq<Byte>)
    requires ParseHeader(bs).Some?
    ensures var p := ParseHeader(bs).value; bs == PrintHeader(p.0) + p.1
  {
    hide U32At;
    hide ToLE;
    U32AtIs(bs, 0, U32At(bs, 0));
    U32AtIs(bs, 68, U32At(bs, 68));
    U32AtIs(bs, 72, U32At(bs, 72));
    U32AtIs(bs, 76, U32At(bs, 76));
    assert bs == bs[0..4] + bs[4..36] + bs[36..68] + bs[68..72] + bs[72..76] + bs[76..80] + bs[80..];
  }

  predicate BlockWithinLimits(b: Block) {
    |b.txs| <= MAX_BLOCK_TX_COUNT && forall i :: 0 <= i < |b.txs| ==> TxWithinLimits(b.txs[i])
  }

  function PrintBlock(b: Block): seq<Byte> {
    PrintHeader(b.header) + PrintList(PrintTx, b.txs)
  }

  function ParseBlock(bs: seq<Byte>): Parsed<Block> {
    var h :- ParseHeader(bs);
    var txs :- ParseList(ParseTx, MAX_BLOCK_TX_COUNT, h.1);
    Some((Block(h.0, txs.0), txs.1))
  }

  lemma TxsInvert()
    ensures Parses(PrintTx, ParseTx, TxWithinLimits) && Prints(PrintTx, ParseTx, TxWithinLimits)
  {
    hide PrintTx;
    hide ParseTx;
    hide TxWithinLimits;
    forall x, rest | TxWithinLimits(x) ensures ParseTx(PrintTx(x) + rest) == Some((x, rest)) {
      TxParses(x, rest);
    }
    forall bs | ParseTx(bs).Some?
      ensures TxWithinLimits(ParseTx(bs).value.0) && bs == PrintTx(ParseTx(bs).value.0) + ParseTx(bs).value.1
    {
      TxPrints(bs);
    }
  }

  lemma BlockParses(b: Block, rest: seq<Byte>)
    requires BlockWithinLimits(b)
    ensures ParseBlock(PrintBlock(b) + rest) == Some((b, rest))
  {
    hide PrintHeader;
    hide ParseHeader;
    hide PrintList;
    hide ParseList;
    hide TxWithinLimits;
    hide Parses;
    hide Prints;
    TxsInvert();
    var c := PrintList(PrintTx, b.txs) + rest;
    assert PrintBlock(b) + rest == PrintHeader(b.header) + c;
    HeaderParses(b.header, c);
    ListParses(PrintTx, ParseTx, TxWithinLimits, MAX_BLOCK_TX_COUNT, b.txs, rest);
  }

  lemma BlockPrints(bs: seq<Byte>)
    requires ParseBlock(bs).Some?
    ensures var p := ParseBlock(bs).value; BlockWithinLimits(p.0) && bs == PrintBlock(p.0) + p.1
  {
    hide PrintHeader;
    hide ParseHeader;
    hide PrintList;
    hide ParseList;
    hide TxWithinLimits;
    hide Parses;
    hide Prints;
    TxsInvert();
    HeaderPrints(bs);
    var h := ParseHeader(bs).value;
    ListPrints(PrintTx, ParseTx, TxWithinLimits, MAX_BLOCK_TX_COUNT, h.1);
    var txs := ParseList(ParseTx, MAX_BLOCK_TX_COUNT, h.1).value;
    assert PrintHeader(h.0) + PrintList(PrintTx,
                                        txs.0) + txs.1 == PrintHeader(h.0) + (PrintList(PrintTx, txs.0) + txs.1);
  }

  lemma BlockInjective(a: Block, b: Block, r: seq<Byte>, s: seq<Byte>)
    requires BlockWithinLimits(a) && BlockWithinLimits(b) && PrintBlock(a) + r == PrintBlock(b) + s
    ensures a == b && r == s
  {
    hide PrintBlock;
    hide ParseBlock;
    BlockParses(a, r);
    BlockParses(b, s);
  }

  // ---------- Sizes ----------

  lemma ScriptLength(s: seq<Byte>)
    ensures |PrintScript(s)| == VarIntSize(|s|) + |s|
  {
    VarIntLength(|s|);
  }

  lemma InputLength(i: TxInput)
    ensures |PrintInput(i)| == InputSize(i)
  {
    hide PrintScript;
    ScriptLength(i.sigScript);
  }

  lemma OutputLength(o: TxOutput)
    ensures |PrintOutput(o)| == OutputSize(o)
  {
    hide PrintScript;
    ScriptLength(o.pkScript);
  }

  lemma {:induction false} InputsLength(ins: seq<TxInput>, k: nat)
    requires k <= |ins|
    ensures |PrintMany(PrintInput, ins[k..])| == InputsSize(ins, k)
    decreases |ins| - k
  {
    hide PrintInput;
    hide InputSize;
    if k < |ins| {
      InputLength(ins[k]);
      InputsLength(ins, k + 1);
      assert ins[k..][1..] == ins[k + 1..];
    }
  }

  lemma {:induction false} OutputsLength(outs: seq<TxOutput>, k: nat)
    requires k <= |outs|
    ensures |PrintMany(PrintOutput, outs[k..])| == OutputsSize(outs, k)
    decreases |outs| - k
  {
    hide PrintOutput;
    hide OutputSize;
    if k < |outs| {
      OutputLength(outs[k]);
      OutputsLength(outs, k + 1);
      assert outs[k..][1..] == outs[k + 1..];
    }
  }

  /** SerializeSize is the exact length of the serialization. */
  lemma TxLength(tx: Transaction)
    ensures |PrintTx(tx)| == TxSize(tx)
  {
    hide PrintMany;
    hide PrintVarInt;
    hide VarIntSize;
    hide InputsSize;
    hide OutputsSize;
    assert tx.inputs[0..] == tx.inputs && tx.outputs[0..] == tx.outputs;
    InputsLength(tx.inputs, 0);
    OutputsLength(tx.outputs, 0);
    VarIntLength(|tx.inputs|);
    VarIntLength(|tx.outputs|);
  }

  lemma {:induction false} TxsLength(txs: seq<Transaction>, k: nat)
    requires k <= |txs|
    ensures |PrintMany(PrintTx, txs[k..])| == TxsSize(txs, k)
    decreases |txs| - k
  {
    hide PrintTx;
    hide TxSize;
    if k < |txs| {
      TxLength(txs[k]);
      TxsLength(txs, k + 1);
      assert txs[k..][1..] == txs[k + 1..];
    }
  }

  /** The size ValidateBlockStructure limits is the exact length of the serialized block. */
  lemma BlockLength(b: Block)
    ensures |PrintBlock(b)| == BlockSize(b)
  {
    hide PrintMany;
    hide PrintVarInt;
    hide VarIntSize;
    hide TxsSize;
    hide PrintTx;
    assert b.txs[0..] == b.txs;
    TxsLength(b.txs, 0);
    VarIntLength(|b.txs|);
  }

  // ---------- Header messages ----------

  datatype GetHeadersMsg = GetHeadersMsg(version: U32, locator: seq<Hash>, hashStop: Hash)

  function PrintGetHeaders(m: GetHeadersMsg): seq<Byte> {
    ToLE(m.version, 4) + PrintList(PrintHash, m.locator) + m.hashStop
  }

  function ParseGetHeaders(bs: seq<Byte>): Parsed<GetHeadersMsg> {
    var v :- ParseU32(bs);
    var hs :- ParseList(ParseHash, MAX_LOCATOR_HASHES, v.1);
    var stop :- ParseHash(hs.1);
    Some((GetHeadersMsg(v.0, hs.0, stop.0), stop.1))
  }

  lemma HashesInvert()
    ensures Parses(PrintHash, ParseHash, h => true) && Prints(PrintHash, ParseHash, h => true)
  {
  }

  lemma GetHeadersParses(m: GetHeadersMsg, rest: seq<Byte>)
    requires |m.locator| <= MAX_LOCATOR_HASHES
    ensures ParseGetHeaders(PrintGetHeaders(m) + rest) == Some((m, rest))
  {
    hide ParseU32;
    hide ParseList;
    hide PrintList;
    hide ToLE;
    hide Parses;
    hide Prints;
    HashesInvert();
    var c := m.hashStop + rest;
    var b := PrintList(PrintHash, m.locator) + c;
    assert PrintGetHeaders(m) + rest == ToLE(m.version, 4) + b;
    U32Parses(m.version, b);
    ListParses(PrintHash, ParseHash, h => true, MAX_LOCATOR_HASHES, m.locator, c);
    HashParses(m.hashStop, rest);
  }

  lemma GetHeadersPrints(bs: seq<Byte>)
    requires ParseGetHeaders(bs).Some?
    ensures var p := ParseGetHeaders(bs).value;
      |p.0.locator| <= MAX_LOCATOR_HASHES && bs == PrintGetHeaders(p.0) + p.1
  {
    hide ParseU32;
    hide ParseList;
    hide PrintList;
    hide ToLE;
    hide Parses;
    hide Prints;
    HashesInvert();
    U32Prints(bs);
    var v := ParseU32(bs).value;
    ListPrints(PrintHash, ParseHash, h => true, MAX_LOCATOR_HASHES, v.1);
    var hs := ParseList(ParseHash, MAX_LOCATOR_HASHES, v.1).value;
    HashPrints(hs.1);
    var stop := ParseHash(hs.1).value;
    assert PrintGetHeaders(GetHeadersMsg(v.0, hs.0, stop.0)) + stop.1
        == ToLE(v.0, 4) + (PrintList(PrintHash, hs.0) + (stop.0 + stop.1));
  }

  /** In a headers message each header is followed by a zero transaction count. */
  function PrintBareHeader(h: BlockHeader): seq<Byte> {
    PrintHeader(h) + PrintVarInt(0)
  }

  function ParseBareHeader(bs: seq<Byte>): Parsed<BlockHeader> {
    var h :- ParseHeader(bs);
    var n :- ParseVarInt(h.1);
    if n.0 != 0 then None else Some((h.0, n.1))
  }

  lemma BareHeadersInvert()
    ensures Parses(PrintBareHeader, ParseBareHeader, h => true) && Prints(PrintBareHeader, ParseBareHeader, h => true)
  {
    hide PrintHeader;
    hide ParseHeader;
    hide ParseVarInt;
    hide PrintVarInt;
    forall h, rest ensures ParseBareHeader(PrintBareHeader(h) + rest) == Some((h, rest)) {
      assert PrintBareHeader(h) + rest == PrintHeader(h) + (PrintVarInt(0) + rest);
      HeaderParses(h, PrintVarInt(0) + rest);
      VarIntParses(0, rest);
    }
    forall bs | ParseBareHeader(bs).Some?
      ensures bs == PrintBareHeader(ParseBareHeader(bs).value.0) + ParseBareHeader(bs).value.1
    {
      HeaderPrints(bs);
      VarIntPrints(ParseHeader(bs).value.1);
    }
  }

  function PrintHeaders(hs: seq<BlockHeader>): seq<Byte> {
    PrintList(PrintBareHeader, hs)
  }

  function ParseHeaders(bs: seq<Byte>): Parsed<seq<BlockHeader>> {
    ParseList(ParseBareHeader, MAX_HEADERS_PER_MSG, bs)
  }

  lemma HeadersParse(hs: seq<BlockHeader>, rest: seq<Byte>)
    requires |hs| <= MAX_HEADERS_PER_MSG
    ensures ParseHeaders(PrintHeaders(hs) + rest) == Some((hs, rest))
  {
    hide ParseList;
    hide PrintList;
    hide Parses;
    BareHeadersInvert();
    ListParses(PrintBareHeader, ParseBareHeader, h => true, MAX_HEADERS_PER_MSG, hs, rest);
  }

  lemma HeadersPrint(bs: seq<Byte>)
    requires ParseHeaders(bs).Some?
    ensures var p := ParseHeaders(bs).value; |p.0| <= MAX_HEADERS_PER_MSG && bs == PrintHeaders(p.0) + p.1
  {
    hide ParseList;
    hide PrintList;
    hide Parses;
    BareHeadersInvert();
    ListPrints(PrintBareHeader, ParseBareHeader, h => true, MAX_HEADERS_PER_MSG, bs);
  }
}
