/** The reading and writing loops of the wire format: each is proved against its
    printer or parser in Codec. */
module Wire {
  import opened Types
  import opened Bytes
  import opened Codec

  /** r and rest are what parsing gave: the value and the bytes after it, or failure. */
  ghost predicate Agrees<T(!new)>(p: Parsed<T>, r: Option<T>, rest: seq<Byte>) {
    if p.None? then r.None? else r == Some(p.value.0) && rest == p.value.1
  }

  // ---------- Reading ----------

  /** Items read so far in front of what is still to be read. */
  ghost function Prepend<T>(xs: seq<T>, p: Parsed<seq<T>>): Parsed<seq<T>> {
    if p.None? then None else Some((xs + p.value.0, p.value.1))
  }

  lemma ManyStart<T(!new)>(p: Parsed<seq<T>>)
    ensures p == Prepend([], p)
  {
    if p.Some? {
      assert [] + p.value.0 == p.value.0;
    }
  }

  lemma ManyStep<T(!new)>(dec: seq<Byte> -> Parsed<T>, n: nat, xs: seq<T>, bs: seq<Byte>)
    requires n > 0
    ensures dec(bs).None? ==> Prepend(xs, ParseMany(dec, n, bs)).None?
    ensures dec(bs).Some? ==>
      Prepend(xs, ParseMany(dec, n, bs)) == Prepend(xs + [dec(bs).value.0], ParseMany(dec, n - 1, dec(bs).value.1))
  {
    if dec(bs).Some? {
      var x := dec(bs).value;
      var p := ParseMany(dec, n - 1, x.1);
      if p.Some? {
        assert xs + ([x.0] + p.value.0) == xs + [x.0] + p.value.0;
      }
    }
  }

  class Reader {
    var rest: seq<Byte>

    method ReadFull(n: nat) returns (data: Option<seq<Byte>>)
      modifies this
      ensures |old(rest)| < n ==> data.None?
      ensures n <= |old(rest)| ==> data == Some(old(rest)[..n]) && rest == old(rest)[n..]
    {
      if |rest| < n {
        rest := [];
        return None;
      }
      data := Some(rest[..n]);
      rest := rest[n..];
    }

    method ReadHash() returns (r: Option<Hash>)
      modifies this
      ensures Agrees(ParseHash(old(rest)), r, rest)
    {
      var data :- ReadFull(32);
      r := Some(data);
    }

    method ReadU32() returns (r: Option<U32>)
      modifies this
      ensures Agrees(ParseU32(old(rest)), r, rest)
    {
      hide LittleEndian;
      hide Pow;
      var data :- ReadFull(4);
      LittleEndianBound(data);
      Powers();
      r := Some(LittleEndian(data));
    }

    method ReadU64() returns (r: Option<U64>)
      modifies this
      ensures Agrees(ParseU64(old(rest)), r, rest)
    {
      hide LittleEndian;
      hide Pow;
      var data :- ReadFull(8);
      LittleEndianBound(data);
      Powers();
      r := Some(LittleEndian(data));
    }

    method ReadVarInt() returns (r: Option<nat>)
      modifies this
      ensures Agrees(ParseVarInt(old(rest)), r, rest)
    {
      hide LittleEndian;
      hide Pow;
      ghost var bs := rest;
      var d :- ReadFull(1);
      if d[0] == 0xFD {
        r := ReadLong(2, 0xFD, bs);
      } else if d[0] == 0xFE {
        r := ReadLong(4, 0x1_0000, bs);
      } else if d[0] == 0xFF {
        r := ReadLong(8, 0x1_0000_0000, bs);
      } else {
        r := Some(d[0]);
      }
    }

    method ReadLong(k: nat, least: nat, ghost bs: seq<Byte>) returns (r: Option<nat>)
      requires |bs| > 0 && rest == bs[1..]
      modifies this
      ensures Agrees(LongVarInt(bs, k, least), r, rest)
    {
      hide LittleEndian;
      var data :- ReadFull(k);
      assert data == bs[1..1 + k] && rest == bs[1 + k..];
      var val := LittleEndian(data);
      r := if val < least then None else Some(val);
    }

    method ReadScript() returns (r: Option<seq<Byte>>)
      modifies this
      ensures Agrees(ParseScript(old(rest)), r, rest)
    {
      hide ParseVarInt;
      var n :- ReadVarInt();
      if n > MAX_SCRIPT_SIZE {
        return None;
      }
      r := ReadFull(n);
    }

    method ReadInput() returns (r: Option<TxInput>)
      modifies this
      ensures Agrees(ParseInput(old(rest)), r, rest)
    {
      hide ParseHash;
      hide ParseU32;
      hide ParseScript;
      var hash :- ReadHash();
      var index :- ReadU32();
      var script :- ReadScript();
      var sequence :- ReadU32();
      r := Some(TxInput(OutPoint(hash, index), script, sequence));
    }

    method ReadOutput() returns (r: Option<TxOutput>)
      modifies this
      ensures Agrees(ParseOutput(old(rest)), r, rest)
    {
      hide ParseU64;
      hide ParseScript;
      var value :- ReadU64();
      var script :- ReadScript();
      r := Some(TxOutput(value, script));
    }

    method ReadInputs() returns (r: Option<seq<TxInput>>)
      modifies this
      ensures Agrees(ParseList(ParseInput, MAX_TX_INPUTS, old(rest)), r, rest)
    {
      hide ParseVarInt;
      hide ParseInput;
      hide ParseMany;
      var n :- ReadVarInt();
      if n > MAX_TX_INPUTS {
        return None;
      }
      ghost var whole := ParseMany(ParseInput, n, rest);
      var ins: seq<TxInput> := [];
      ManyStart(whole);
      var i := 0;
      while i < n
        invariant 0 <= i <= n && whole == Prepend(ins, ParseMany(ParseInput, n - i, rest))
      {
        ManyStep(ParseInput, n - i, ins, rest);
        var x :- ReadInput();
        ins := ins + [x];
        i := i + 1;
      }
      ManyEnd(ParseInput, ins, rest);
      r := Some(ins);
    }

    method ReadOutputs() returns (r: Option<seq<TxOutput>>)
      modifies this
      ensures Agrees(ParseList(ParseOutput, MAX_TX_OUTPUTS, old(rest)), r, rest)
    {
      hide ParseVarInt;
      hide ParseOutput;
      hide ParseMany;
      var n :- ReadVarInt();
      if n > MAX_TX_OUTPUTS {
        return None;
      }
      ghost var whole := ParseMany(ParseOutput, n, rest);
      var outs: seq<TxOutput> := [];
      ManyStart(whole);
      var i := 0;
      while i < n
        invariant 0 <= i <= n && whole == Prepend(outs, ParseMany(ParseOutput, n - i, rest))
      {
        ManyStep(ParseOutput, n - i, outs, rest);
        var x :- ReadOutput();
        outs := outs + [x];
        i := i + 1;
      }
      ManyEnd(ParseOutput, outs, rest);
      r := Some(outs);
    }

    /** Deserialize of a transaction. */
    method ReadTx() returns (r: Option<Transaction>)
      modifies this
      ensures Agrees(ParseTx(old(rest)), r, rest)
    {
      hide ParseU32;
      hide ParseList;
      var version :- ReadU32();
      var ins :- ReadInputs();
      var outs :- ReadOutputs();
      var lockTime :- ReadU32();
      r := Some(Transaction(version, ins, outs, lockTime));
    }

    method ReadHeader() returns (r: Option<BlockHeader>)
      modifies this
      ensures Agrees(ParseHeader(old(rest)), r, rest)
    {
      hide LittleEndian;
      hide Pow;
      var buf :- ReadFull(80);
      ghost var bs := old(rest);
      assert buf[4..36] == bs[4..36] && buf[36..68] == bs[36..68];
      assert buf[0..4] == bs[0..4] && buf[68..72] == bs[68..72];
      assert buf[72..76] == bs[72..76] && buf[76..80] == bs[76..80];
      r := Some(BlockHeader(U32At(buf, 0), buf[4..36], buf[36..68], U32At(buf, 68), U32At(buf, 72), U32At(buf, 76)));
    }

    /** Deserialize of a block. */
    method ReadBlock() returns (r: Option<Block>)
      modifies this
      ensures Agrees(ParseBlock(old(rest)), r, rest)
    {
      hide ParseVarInt;
      hide ParseHeader;
      hide ParseTx;
      hide ParseMany;
      var header :- ReadHeader();
      var n :- ReadVarInt();
      if n > MAX_BLOCK_TX_COUNT {
        return None;
      }
      ghost var whole := ParseMany(ParseTx, n, rest);
      var txs: seq<Transaction> := [];
      ManyStart(whole);
      var i := 0;
      while i < n
        invariant 0 <= i <= n && whole == Prepend(txs, ParseMany(ParseTx, n - i, rest))
      {
        ManyStep(ParseTx, n - i, txs, rest);
        var tx :- ReadTx();
        txs := txs + [tx];
        i := i + 1;
      }
      ManyEnd(ParseTx, txs, rest);
      r := Some(Block(header, txs));
    }

    method ReadGetHeaders() returns (r: Option<GetHeadersMsg>)
      modifies this
      ensures Agrees(ParseGetHeaders(old(rest)), r, rest)
    {
      hide ParseVarInt;
      hide ParseU32;
      hide ParseHash;
      hide ParseMany;
      var version :- ReadU32();
      var n :- ReadVarInt();
      if n > MAX_LOCATOR_HASHES {
        return None;
      }
      ghost var whole := ParseMany(ParseHash, n, rest);
      var hashes: seq<Hash> := [];
      ManyStart(whole);
      var i := 0;
      while i < n
        invariant 0 <= i <= n && whole == Prepend(hashes, ParseMany(ParseHash, n - i, rest))
      {
        ManyStep(ParseHash, n - i, hashes, rest);
        var h :- ReadHash();
        hashes := hashes + [h];
        i := i + 1;
      }
      ManyEnd(ParseHash, hashes, rest);
      var stop :- ReadHash();
      r := Some(GetHeadersMsg(version, hashes, stop));
    }

    method ReadHeaders() returns (r: Option<seq<BlockHeader>>)
      modifies this
      ensures Agrees(ParseHeaders(old(rest)), r, rest)
    {
      hide ParseVarInt;
      hide ParseHeader;
      hide ParseMany;
      var n :- ReadVarInt();
      if n > MAX_HEADERS_PER_MSG {
        return None;
      }
      ghost var whole := ParseMany(ParseBareHeader, n, rest);
      var headers: seq<BlockHeader> := [];
      ManyStart(whole);
      var i := 0;
      while i < n
        invariant 0 <= i <= n && whole == Prepend(headers, ParseMany(ParseBareHeader, n - i, rest))
      {
        ManyStep(ParseBareHeader, n - i, headers, rest);
        var h :- ReadHeader();
        var txCount :- ReadVarInt();
        if txCount != 0 {
          return None;
        }
        headers := headers + [h];
        i := i + 1;
      }
      ManyEnd(ParseBareHeader, headers, rest);
      r := Some(headers);
    }
  }

  lemma ManyEnd<T(!new)>(dec: seq<Byte> -> Parsed<T>, xs: seq<T>, bs: seq<Byte>)
    ensures Prepend(xs, ParseMany(dec, 0, bs)) == Some((xs, bs))
  {
    assert xs + [] == xs;
  }

  // ---------- Writing ----------

  lemma {:induction false} PrintManyAppend<T(!new)>(enc: T -> seq<Byte>, xs: seq<T>, i: nat)
    requires i < |xs|
    ensures PrintMany(enc, xs[..i + 1]) == PrintMany(enc, xs[..i]) + enc(xs[i])
  {
    if i == 0 {
      assert xs[..1] == [xs[0]] && xs[..1][1..] == [];
      assert PrintMany(enc, xs[..0]) == [];
    } else {
      PrintManyAppend(enc, xs[1..], i - 1);
      assert xs[..i + 1][1..] == xs[1..][..i] && xs[..i][1..] == xs[1..][..i - 1];
    }
  }

  class SliceWriter {
    var buf: seq<Byte>

    method Write(p: seq<Byte>)
      modifies this
      ensures buf == old(buf) + p
    {
      buf := buf + p;
    }

    method WriteVarInt(n: nat)
      modifies this
      ensures buf == old(buf) + PrintVarInt(n)
    {
      if n < 0xFD {
        Write([n]);
      } else if n <= 0xFFFF {
        Write([0xFD] + ToLE(n, 2));
      } else if n <= 0xFFFF_FFFF {
        Write([0xFE] + ToLE(n, 4));
      } else {
        Write([0xFF] + ToLE(n, 8));
      }
    }

    method WriteInput(i: TxInput)
      modifies this
      ensures buf == old(buf) + PrintInput(i)
    {
      hide ToLE;
      hide PrintVarInt;
      Write(i.prevOut.hash);
      Write(ToLE(i.prevOut.index, 4));
      WriteVarInt(|i.sigScript|);
      Write(i.sigScript);
      Write(ToLE(i.sequence, 4));
    }

    method WriteOutput(o: TxOutput)
      modifies this
      ensures buf == old(buf) + PrintOutput(o)
    {
      hide ToLE;
      hide PrintVarInt;
      Write(ToLE(o.value, 8));
      WriteVarInt(|o.pkScript|);
      Write(o.pkScript);
    }

    method WriteInputs(ins: seq<TxInput>)
      modifies this
      ensures buf == old(buf) + PrintList(PrintInput, ins)
    {
      hide PrintInput;
      hide PrintVarInt;
      WriteVarInt(|ins|);
      var i := 0;
      while i < |ins|
        invariant 0 <= i <= |ins| && buf == old(buf) + PrintVarInt(|ins|) + PrintMany(PrintInput, ins[..i])
      {
        PrintManyAppend(PrintInput, ins, i);
        WriteInput(ins[i]);
        i := i + 1;
      }
      assert ins[..i] == ins;
    }

    method WriteOutputs(outs: seq<TxOutput>)
      modifies this
      ensures buf == old(buf) + PrintList(PrintOutput, outs)
    {
      hide PrintOutput;
      hide PrintVarInt;
      WriteVarInt(|outs|);
      var i := 0;
      while i < |outs|
        invariant 0 <= i <= |outs| && buf == old(buf) + PrintVarInt(|outs|) + PrintMany(PrintOutput, outs[..i])
      {
        PrintManyAppend(PrintOutput, outs, i);
        WriteOutput(outs[i]);
        i := i + 1;
      }
      assert outs[..i] == outs;
    }

    /** Serialize of a transaction. */
    method WriteTx(tx: Transaction)
      modifies this
      ensures buf == old(buf) + PrintTx(tx)
    {
      hide ToLE;
      hide PrintList;
      Write(ToLE(tx.version, 4));
      WriteInputs(tx.inputs);
      WriteOutputs(tx.outputs);
      Write(ToLE(tx.lockTime, 4));
    }

    method WriteHeader(h: BlockHeader)
      modifies this
      ensures buf == old(buf) + PrintHeader(h)
    {
      hide PrintHeader;
      var bytes := new Byte[80](_ => 0);
      SerializeInto(h, bytes);
      Write(bytes[..]);
    }

    /** Serialize of a block. */
    method WriteBlock(b: Block)
      modifies this
      ensures buf == old(buf) + PrintBlock(b)
    {
      hide PrintHeader;
      hide PrintTx;
      hide PrintVarInt;
      WriteHeader(b.header);
      WriteVarInt(|b.txs|);
      var i := 0;
      while i < |b.txs|
        invariant 0 <= i <= |b.txs|
        invariant buf == old(buf) + PrintHeader(b.header) + PrintVarInt(|b.txs|) + PrintMany(PrintTx, b.txs[..i])
      {
        PrintManyAppend(PrintTx, b.txs, i);
        WriteTx(b.txs[i]);
        i := i + 1;
      }
      assert b.txs[..i] == b.txs;
    }
  }

  /** Copies src into buf behind a finished prefix. */
  method Copy(buf: array<Byte>, ghost done: seq<Byte>, at: nat, src: seq<Byte>)
    requires at == |done| && at + |src| <= buf.Length && buf[..at] == done
    modifies buf
    ensures buf[..at + |src|] == done + src
    ensures forall k :: at + |src| <= k < buf.Length ==> buf[k] == old(buf[k])
  {
    var i := 0;
    while i < |src|
      invariant 0 <= i <= |src|
      invariant forall k :: 0 <= k < i ==> buf[at + k] == src[k]
      invariant forall k :: 0 <= k < at || at + i <= k < buf.Length ==> buf[k] == old(buf[k])
    {
      buf[at + i] := src[i];
      i := i + 1;
    }
  }

  /** Writes the header at fixed offsets into the first 80 bytes of buf. */
  method SerializeInto(h: BlockHeader, buf: array<Byte>)
    requires buf.Length >= 80
    modifies buf
    ensures buf[..80] == PrintHeader(h) && buf[80..] == old(buf[80..])
  {
    hide ToLE;
    Copy(buf, [], 0, ToLE(h.version, 4));
    Copy(buf, buf[..4], 4, h.prevBlock);
    Copy(buf, buf[..36], 36, h.merkleRoot);
    Copy(buf, buf[..68], 68, ToLE(h.timestamp, 4));
    Copy(buf, buf[..72], 72, ToLE(h.bits, 4));
    Copy(buf, buf[..76], 76, ToLE(h.nonce, 4));
    assert [] + ToLE(h.version, 4) == ToLE(h.version, 4);
  }
}
