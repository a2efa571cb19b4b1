/** The consensus data types shared by every component of the node: hashes,
    transactions, headers and blocks, plus the hash functions and network
    parameters the rules are stated against. */
module Types {

  datatype Option<+T> = None | Some(value: T)
  {
    predicate IsFailure() {
      None?
    }

    function PropagateFailure<U>(): Option<U>
      requires None?
    {
      None
    }

    function Extract(): T
      requires Some?
    {
      value
    }
  }

  const TWO32: int := 0x1_0000_0000
  const TWO64: int := 0x1_0000_0000_0000_0000

  type Byte = b: int | 0 <= b < 256
  type U32 = n: int | 0 <= n < TWO32
  type U64 = n: int | 0 <= n < TWO64

  function Zeros(n: nat): (z: seq<Byte>)
    ensures |z| == n
    ensures forall i :: 0 <= i < n ==> z[i] == 0
  {
    if n == 0 then [] else Zeros(n - 1) + [0]
  }

  /** A 32-byte digest in internal (little-endian) byte order. */
  type Hash = h: seq<Byte> | |h| == 32 witness Zeros(32)

  const ZERO_HASH: Hash := Zeros(32)

  datatype OutPoint = OutPoint(hash: Hash, index: nat)

  const COINBASE_OUT_POINT: OutPoint := OutPoint(ZERO_HASH, 0xFFFF_FFFF)

  datatype TxInput = TxInput(prevOut: OutPoint, sigScript: seq<Byte>, sequence: U32)

  datatype TxOutput = TxOutput(value: U64, pkScript: seq<Byte>)

  datatype Transaction = Transaction(version: U32, inputs: seq<TxInput>, outputs: seq<TxOutput>, lockTime: U32)
  {
    predicate IsCoinbase() {
      |inputs| == 1 && inputs[0].prevOut == COINBASE_OUT_POINT
    }
  }

  datatype BlockHeader = BlockHeader(
    version: U32, prevBlock: Hash, merkleRoot: Hash, timestamp: U32, bits: U32, nonce: U32)

  datatype Block = Block(header: BlockHeader, txs: seq<Transaction>)

  /** The network's minimum-timestamp rule, "prev+1" or "median-11". */
  datatype TimestampRule = PrevPlusOne | Median11

  datatype ChainParams = ChainParams(
    maxBlockSize: U32,
    maxBlockTxCount: U32,
    initialSubsidy: U64,
    subsidyHalvingInterval: U32,
    coinbaseMaturity: U32,
    maxReorgDepth: U32,
    locktimeHeight: Option<U32>,
    timestampRule: TimestampRule,
    maxTimeFutureDrift: nat,
    genesis: Block)

  /** A view of a header chain by height. */
  type Ancestors = nat -> Option<BlockHeader>

  /** What the rules are relative to: the network parameters, and the functions
      computed by code outside this model: the digests, the script engine, and the
      consensus engine (header checks, weight of a block, minimum work of an orphan). */
  datatype Rules = Rules(
    params: ChainParams,
    txid: Transaction -> Hash,
    blockHash: BlockHeader -> Hash,
    pairHash: (Hash, Hash) -> Hash,
    verifyScript: (seq<Byte>, seq<Byte>, Transaction, nat) -> bool,
    validateHeader: (BlockHeader, BlockHeader, nat, Ancestors) -> bool,
    weight: BlockHeader -> nat,
    orphanPowOk: BlockHeader -> bool)
}
