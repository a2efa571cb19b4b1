/** A small network in full: rules, headers and blocks named by numbers, on which the
    general theorems can be seen at work. It shows that the hypotheses of the safety
    theorems are met by nodes that hold blocks, and it holds the run in which a node
    ignores a headers reply because its index lost the header the reply builds on. */
module Scenario {
  import opened Types
  import opened Bytes
  import opened Amounts
  import opened Sizes
  import opened Utxo
  import opened TxValidation
  import opened BlockValidation
  import opened MedianTime
  import opened Ledger
  import opened ChainState
  import opened Closure
  import opened HeaderRules
  import opened Recovery
  import opened ChainRules
  import opened Chains
  import opened HeaderIndexes
  import opened Sync
  import opened Safety
  import opened Supply
  import opened Maps
  import Merkle
  import Target

  const IDS: nat := 10_000

  // ---------- Names for headers and blocks ----------

  type Id = n: nat | n < IDS

  /** Numbers that hashes are made from: those of the blocks, and one more. */
  type Name = n: nat | n <= IDS

  function HashOf(id: nat): Hash {
    ToLE(id + 1, 32)
  }

  lemma HashesDiffer(a: Name, b: Name)
    ensures HashOf(a) == HashOf(b) <==> a == b
    ensures HashOf(a) != ZERO_HASH
  {
    hide ToLE;
    hide LittleEndian;
    hide Pow;
    NumbersFit();
    ToLEValue(a + 1, 32);
    ToLEValue(b + 1, 32);
    Target.ZerosValue(ZERO_HASH);
  }

  lemma NumbersFit()
    ensures IDS + 1 < Pow(32)
  {
    hide Pow;
    Powers();
    Target.PowGrows(4, 32);
  }

  lemma AllHashesDiffer()
    ensures forall a: Id, b: Id :: HashOf(a) == HashOf(b) ==> a == b
    ensures forall a: Id :: HashOf(a) != ZERO_HASH
  {
    hide HashOf;
    forall a: Id, b: Id | HashOf(a) == HashOf(b) ensures a == b {
      HashesDiffer(a, b);
    }
    forall a: Id ensures HashOf(a) != ZERO_HASH {
      HashesDiffer(a, a);
    }
  }

  /** Headers 1, 2, ... form the short line; headers 1001, 1002, ... the long one; both
      leave genesis, number 0. The others stand alone, see Prev. */
  const LONG: Id := 1000
  const HEAVY: Id := 5000
  const OTHER: Id := 6085
  const DEEP: Id := 7001
  const DEEP_CHILD: Id := 7002
  const SIDE: Id := 7003
  const LOWER: Id := 7004
  const SPENDER: Id := 8001
  const RIVAL: Id := 8002

  function Prev(id: Id): Id {
    if id == 0 || id == LONG + 1 || id == DEEP then 0
    else if id == HEAVY then 85
    else if id == OTHER then 84
    else if id == SIDE then LONG + 1001
    else if id == LOWER then LONG + 999
    else if id == SPENDER || id == RIVAL then LONG + 1
    else id - 1
  }

  function Height(id: Id): nat {
    if id <= LONG then id
    else if id < HEAVY then id - LONG
    else if id == HEAVY then 86
    else if id == DEEP then 1
    else if id == DEEP_CHILD || id == SPENDER || id == RIVAL then 2
    else if id == SIDE then 1002
    else if id == LOWER then 1000
    else 85
  }

  function Weight(id: Id): nat {
    if id == HEAVY then 10_000
    else if id == DEEP then 100_000
    else if id == SIDE || id == RIVAL then 10
    else if id == LOWER then 100
    else 1
  }

  function Work(id: Id): nat {
    if id == HEAVY then 86 + 10_000
    else if id == DEEP then 1 + 100_000
    else if id == DEEP_CHILD then 2 + 100_000
    else if id == SIDE then 1002 + 10
    else if id == LOWER then 1000 + 100
    else if id == RIVAL then 2 + 10
    else Height(id) + 1
  }

  /** The numbers in use. */
  predicate Used(id: Id) {
    id <= 85 || LONG < id <= LONG + 2100 || id == HEAVY || id == OTHER || DEEP <= id <= LOWER
    || id == SPENDER || id == RIVAL
  }

  lemma Steps(id: Id)
    requires Used(id) && id > 0
    ensures Used(Prev(id)) && Height(id) == Height(Prev(id)) + 1 && Work(id) == Work(Prev(id)) + Weight(id)
  {
  }

  function HeaderOf(id: Id): BlockHeader {
    BlockHeader(1, if id == 0 then ZERO_HASH else HashOf(Prev(id)), HashOf(id), Height(id), Weight(id), id)
  }

  function CoinbaseOf(id: Id): Transaction {
    Transaction(1, [TxInput(COINBASE_OUT_POINT, if id == 0 then GENESIS_SCRIPT else EncodeHeight(Height(id)), 0)], 
                [TxOutput(if id == DEEP then 51 else 1, [1])], id)
  }

  /** Spends the reward of the first block of the long line. */
  function SpendTx(): Transaction {
    Transaction(1, [TxInput(OutPoint(HashOf(LONG + 1), 0), [], SEQUENCE_FINAL)], [TxOutput(1, [2])], IDS)
  }

  function TxsOf(id: Id): seq<Transaction> {
    if id == SPENDER then [CoinbaseOf(id), SpendTx()] else [CoinbaseOf(id)]
  }

  function BlockOf(id: Id): Block {
    Block(HeaderOf(id), TxsOf(id))
  }

  function ScenarioRules(): Rules {
    Rules(ChainParams(1_000_000, 10_000, 50, 0, 1, 1000, None, PrevPlusOne, TWO32, BlockOf(0)),
          (t: Transaction) => ToLE(t.lockTime + 1, 32),
          (h: BlockHeader) => ToLE(h.nonce + 1, 32),
          (a: Hash, b: Hash) => a,
          (sig: seq<Byte>, pk: seq<Byte>, t: Transaction, i: nat) => true,
          (h: BlockHeader, p: BlockHeader, n: nat, a: Ancestors) => true,
          (h: BlockHeader) => h.bits,
          (h: BlockHeader) => true)
  }

  function AllBlocks(): set<Block> {
    set id: Id | 0 <= id < IDS :: BlockOf(id)
  }

  /** Headers and coinbases hash to the hash of their number. */
  lemma Names(id: Id)
    ensures var r := ScenarioRules();
      && r.blockHash(HeaderOf(id)) == HashOf(id) && r.txid(CoinbaseOf(id)) == HashOf(id)
      && r.weight(HeaderOf(id)) == Weight(id)
      && r.params.genesis == BlockOf(0)
    ensures CoinbaseOf(id).IsCoinbase() && BlockOf(id).header == HeaderOf(id) && BlockOf(id).txs == TxsOf(id)
    ensures ScenarioRules().txid(SpendTx()) == HashOf(IDS) && !SpendTx().IsCoinbase()
  {
    hide ToLE;
    hide EncodeHeight;
  }

  lemma BlockNumber(b: Block) returns (id: Id)
    requires b in AllBlocks()
    ensures b == BlockOf(id)
  {
    hide BlockOf;
    id :| 0 <= id < IDS && b == BlockOf(id);
  }

  lemma SameHashSameNumber(a: Block, b: Block)
    requires a in AllBlocks() && b in AllBlocks()
    ensures ScenarioRules().blockHash(a.header) == ScenarioRules().blockHash(b.header) ==> a == b
    ensures forall x, y :: x in a.txs && y in b.txs && ScenarioRules().txid(x) == ScenarioRules().txid(y) ==> x == y
    ensures ScenarioRules().blockHash(a.header) != ZERO_HASH
  {
    hide ScenarioRules;
    hide HashOf;
    hide AllBlocks;
    hide HeaderOf;
    hide CoinbaseOf;
    var i := BlockNumber(a);
    var j := BlockNumber(b);
    Names(i);
    Names(j);
    HashesDiffer(i, j);
    HashesDiffer(i, IDS);
    HashesDiffer(j, IDS);
  }

  /** A world with ten thousand blocks and no collision. */
  lemma ScenarioWorld()
    ensures World(ScenarioRules(), AllBlocks())
  {
    hide ScenarioRules;
    hide AllBlocks;
    var r, seen := ScenarioRules(), AllBlocks();
    forall a, b | a in seen && b in seen && r.blockHash(a.header) == r.blockHash(b.header)
      ensures a.header == b.header
    {
      SameHashSameNumber(a, b);
    }
    forall a, b, x, y | a in seen && b in seen && x in a.txs && y in b.txs && r.txid(x) == r.txid(y) ensures x == y {
      SameHashSameNumber(a, b);
    }
    forall b | b in seen ensures r.blockHash(b.header) != ZERO_HASH {
      SameHashSameNumber(b, b);
    }
    Names(0);
    InWorld(0);
  }

  lemma InWorld(id: Id)
    ensures BlockOf(id) in AllBlocks()
  {
    hide BlockOf;
  }

  // ---------- A peer ----------

  lemma SmallBlock(id: Id)
    requires id > 0
    ensures StructureOk(ScenarioRules(), BlockOf(id), Height(id))
  {
    hide ScenarioRules;
    hide HashOf;
    if id == SPENDER {
      SpenderBlock();
      return;
    }
    Names(id);
    var r, b := ScenarioRules(), BlockOf(id);
    SmallRules();
    AcceptedScripts(EncodeHeight(Height(id)), Height(id));
    BlockIsSmall(id);
    assert TxIds(r, b.txs, 1) == [HashOf(id)];
    assert SumOutputs(b.txs[0].outputs, 1) == SumOutputs(b.txs[0].outputs, 0) + b.txs[0].outputs[0].value;
  }

  lemma SpenderBlock()
    ensures StructureOk(ScenarioRules(), BlockOf(SPENDER), 2)
  {
    hide ScenarioRules;
    hide HashOf;
    hide BlockSize;
    hide TxIds;
    hide Merkle.Root;
    hide Merkle.Distinct;
    Names(SPENDER);
    var b := BlockOf(SPENDER);
    SmallRules();
    AcceptedScripts(EncodeHeight(2), 2);
    SpenderIsSmall();
    SpenderIds();
    assert SumOutputs(b.txs[0].outputs, 1) == SumOutputs(b.txs[0].outputs, 0) + b.txs[0].outputs[0].value;
  }

  lemma SpenderIds()
    ensures var r, b := ScenarioRules(), BlockOf(SPENDER);
      && Merkle.Distinct(TxIds(r, b.txs, |b.txs|))
      && Merkle.Root(r.pairHash, TxIds(r, b.txs, |b.txs|)) == b.header.merkleRoot
  {
    hide ScenarioRules;
    hide HashOf;
    hide EncodeHeight;
    hide Merkle.Root;
    Names(SPENDER);
    HashesDiffer(SPENDER, IDS);
    var r, b := ScenarioRules(), BlockOf(SPENDER);
    assert TxIds(r, b.txs, 2) == [HashOf(SPENDER), HashOf(IDS)];
    PairRoot(HashOf(SPENDER), HashOf(IDS));
  }

  lemma PairRoot(a: Hash, b: Hash)
    ensures Merkle.Root(ScenarioRules().pairHash, [a, b]) == a
  {
    hide ToLE;
    var pair := ScenarioRules().pairHash;
    assert Merkle.NextLevel(pair, [a, b]) == [a];
  }

  lemma SpenderIsSmall()
    ensures BlockSize(BlockOf(SPENDER)) < 1_000
  {
    hide EncodeHeight;
    hide HashOf;
    EncodedLength(2);
    var a, b, txs := CoinbaseOf(SPENDER), SpendTx(), TxsOf(SPENDER);
    assert InputsSize(a.inputs, 1) == 0 && OutputsSize(a.outputs, 1) == 0;
    assert InputsSize(b.inputs, 1) == 0 && OutputsSize(b.outputs, 1) == 0;
    assert TxsSize(txs, 2) == 0 && TxsSize(txs, 1) == TxSize(b) && TxsSize(txs, 0) == TxSize(a) + TxsSize(txs, 1);
  }

  lemma SmallRules()
    ensures var p := ScenarioRules().params;
      && p.maxBlockSize == 1_000_000 && p.maxBlockTxCount == 10_000
      && p.initialSubsidy == 50 && p.subsidyHalvingInterval == 0
      && p.maxReorgDepth == 1000 && p.timestampRule == PrevPlusOne && p.maxTimeFutureDrift == TWO32
      && p.coinbaseMaturity == 1 && p.locktimeHeight == None
  {
    hide ToLE;
  }

  lemma BlockIsSmall(id: Id)
    requires id != SPENDER
    ensures BlockSize(BlockOf(id)) < 1_000
  {
    hide EncodeHeight;
    var tx := CoinbaseOf(id);
    assert id > 0 ==> |EncodeHeight(Height(id))| <= 5 by {
      EncodedLength(Height(id));
    }
    assert InputsSize(tx.inputs, 1) == 0 && OutputsSize(tx.outputs, 1) == 0 && TxsSize(BlockOf(id).txs, 1) == 0;
  }

  lemma EncodedLength(height: nat)
    ensures 2 <= |EncodeHeight(height)| <= 5
  {
  }

  /** A block of the scenario is valid on a chain that ends with its parent. */
  lemma {:induction false} ValidNext(chain: seq<Block>, id: Id)
    requires id > 0 && id != DEEP && id != SPENDER
    requires |chain| == Height(id) > 0 && chain[|chain| - 1] == BlockOf(Prev(id))
    ensures BlockOk(ScenarioRules(), chain, BlockOf(id))
  {
    hide ScenarioRules;
    hide HashOf;
    hide StructureOk;
    hide Replay;
    hide ChainMedian;
    var r, b := ScenarioRules(), BlockOf(id);
    Names(id);
    Names(Prev(id));
    SmallRules();
    SmallBlock(id);
    CoinbaseOnly(r, Replay(r, chain), id, ChainMedian(HeadersOf(chain)));
  }

  lemma CoinbaseOnly(r: Rules, s: Utxos, id: Id, medianTime: nat)
    requires r.params.subsidyHalvingInterval == 0 && r.params.initialSubsidy == 50 && CoinbaseOf(id).IsCoinbase()
    requires id != DEEP && id != SPENDER
    ensures TxInputsOk(r, s, BlockOf(id).txs, Height(id), medianTime)
  {
    hide EncodeHeight;
    var txs := BlockOf(id).txs;
    assert TxsOk(r, s, txs, 0, Height(id), medianTime) && TxsOk(r, s, txs, 1, Height(id), medianTime);
    assert Fees(r, s, txs, 0, Height(id), medianTime) == 0 && Fees(r, s, txs, 1, Height(id), medianTime) == 0;
    assert SumOutputs(txs[0].outputs, 1) == SumOutputs(txs[0].outputs, 0) + 1;
  }

  /** The blocks 0, 1, ..., n. */
  function ShortChain(n: nat): seq<Block>
    requires n <= 85
  {
    if n == 0 then [BlockOf(0)] else ShortChain(n - 1) + [BlockOf(n)]
  }

  lemma {:induction false} ShortChainAt(n: nat, i: nat)
    requires i <= n <= 85
    ensures |ShortChain(n)| == n + 1 && ShortChain(n)[i] == BlockOf(i)
  {
    hide BlockOf;
    if n > 0 {
      ShortChainAt(n - 1, if i < n then i else 0);
    }
  }

  /** The short line up to 84 with block 6085 on it. */
  function PeerChain(): seq<Block> {
    ShortChain(84) + [BlockOf(OTHER)]
  }

  /** A node that holds the short line up to 84 and block 6085 on it. */
  method Peer() returns (node: Chain)
    ensures fresh(node) && fresh(node.utxoSet) && node.r == ScenarioRules()
    ensures node.Ready() && node.chain == PeerChain()
  {
    hide StateOk;
    hide World;
    hide OrphansOk;
    hide RecordsOk;
    hide Timed;
    hide BlockOf;
    hide ShortChain;
    hide HashOf;
    hide ScenarioRules;
    hide AllBlocks;
    hide OnlyShort;
    ScenarioWorld();
    Names(0);
    FirstShort();
    var r := ScenarioRules();
    node := FirstStart(r, AllBlocks());
    var k := 0;
    while k < 84
      invariant 0 <= k <= 84 && fresh(node) && fresh(node.utxoSet) && node.r == r && node.seen == AllBlocks()
      invariant node.Ready() && node.orphans == map[] && node.chain == ShortChain(k)
      invariant node.tipHash == HashOf(k) && node.tipHeight == k
      invariant OnlyShort(node.heightByHash, k)
    {
      ShortChainAt(k, k);
      NextShort(k + 1);
      NotYet(node.heightByHash, k, k + 1);
      MoreShort(node.heightByHash, k);
      Grow(node, k + 1);
      k := k + 1;
    }
    ShortChainAt(84, 84);
    NotYet(node.heightByHash, 84, OTHER);
    Grow(node, OTHER);
  }

  /** Only genesis and the short line up to k have height entries. */
  ghost predicate OnlyShort(heights: map<Hash, nat>, k: nat) {
    forall id: Id :: HashOf(id) in heights ==> id <= k
  }

  lemma NotYet(heights: map<Hash, nat>, k: nat, id: Id)
    requires OnlyShort(heights, k) && id > k
    ensures HashOf(id) !in heights
  {
  }

  lemma MoreShort(heights: map<Hash, nat>, k: nat)
    requires OnlyShort(heights, k) && k < 85
    ensures OnlyShort(heights[HashOf(k + 1) := k + 1], k + 1)
  {
    hide HashOf;
    AllHashesDiffer();
  }

  lemma FirstShort()
    ensures ShortChain(0) == [BlockOf(0)]
    ensures forall heights: map<Hash, nat> :: heights.Keys == {HashOf(0)} ==> OnlyShort(heights, 0)
  {
    hide HashOf;
    AllHashesDiffer();
  }

  lemma NextShort(n: nat)
    requires 0 < n <= 85
    ensures ShortChain(n) == ShortChain(n - 1) + [BlockOf(n)]
  {
  }

  /** Adds the next block to a node of the scenario. */
  method Grow(node: Chain, id: Id)
    requires node.r == ScenarioRules() && node.seen == AllBlocks() && node.Ready() && node.orphans == map[]
    requires id > 0 && id != DEEP && id != SPENDER && HashOf(id) !in node.heightByHash
    requires node.tipHash == HashOf(Prev(id))
    requires node.tipHeight + 1 == Height(id)
    requires |node.chain| > 0 && node.chain[|node.chain| - 1] == BlockOf(Prev(id))
    modifies node, node.utxoSet
    ensures node.Ready() && node.orphans == map[] && node.chain == old(node.chain) + [BlockOf(id)]
    ensures node.tipHash == HashOf(id) && node.tipHeight == Height(id)
    ensures node.heightByHash == old(node.heightByHash)[HashOf(id) := Height(id)]
  {
    hide StateOk;
    hide OrphansOk;
    hide RecordsOk;
    hide StructureOk;
    hide BlockOk;
    hide HashOf;
    hide ScenarioRules;
    hide AllBlocks;
    hide SurvivesCrash;
    hide ParentsBelow;
    hide ThreeWrites;
    hide ConnectedRec;
    Names(id);
    InWorld(id);
    node.TipFacts();
    SmallBlock(id);
    ValidNext(node.chain, id);
    var b := BlockOf(id);
    var ok, trace := node.ExtendReady(b, node.r.blockHash(b.header), node.tipHeight + 1,
                                      node.tipWork + node.r.weight(b.header), NO_FAULTS);
  }

  // ---------- An index that loses headers ----------

  ghost predicate NodeIs(n: HeaderNode, id: Id) {
    n.hash == HashOf(id) && n.header == HeaderOf(id) && n.height == Height(id) && n.work == Work(id)
  }

  /** The index holds genesis, the long line up to i and the short line up to j. */
  ghost predicate Holds(byHash: map<Hash, HeaderNode>, i: nat, j: nat) {
    forall id: Id ::
      && (HashOf(id) in byHash <==> In(id, i, j))
      && (HashOf(id) in byHash ==> NodeIs(byHash[HashOf(id)], id))
  }

  predicate In(id: Id, i: nat, j: nat) {
    id == 0 || LONG < id <= LONG + i || (id <= LONG && id <= j)
  }

  /** Adds a header of the scenario to an index that holds its parent. */
  method Add(idx: HeaderIndex, id: Id) returns (node: HeaderNode)
    requires idx.Valid() && idx.r == ScenarioRules() && idx.rejected == {} && |idx.byHash| < MAX_HEADER_INDEX_SIZE
    requires Used(id) && id > 0 && HashOf(id) !in idx.byHash && HashOf(Prev(id)) in idx.byHash
    requires NodeIs(idx.byHash[HashOf(Prev(id))], Prev(id))
    modifies idx
    ensures idx.Valid() && idx.rejected == {} && NodeIs(node, id) && |idx.byHash| <= |old(idx.byHash)| + 1
    ensures node.parent == old(idx.byHash)[HashOf(Prev(id))]
    ensures idx.Inserted(node, HeaderOf(id), old(idx.byHash), old(idx.bestHeader))
  {
    hide Linked;
    hide Line;
    hide HashOf;
    hide ScenarioRules;
    hide RejectedOk;
    hide Closed;
    hide Hashes;
    Names(id);
    Steps(id);
    SmallRules();
    var result, anc := idx.AddHeader(HeaderOf(id), 0);
    PassesHere(id, old(idx.byHash)[HashOf(Prev(id))].header, Height(Prev(id)), anc);
    node := result.node;
    GrownSize(old(idx.byHash), node, idx.byHash);
  }

  lemma PassesHere(id: Id, parent: BlockHeader, parentHeight: nat, anc: Ancestors)
    requires id > 0 && parent.timestamp < Height(id)
    ensures HeaderPasses(ScenarioRules(), HeaderOf(id), parent, parentHeight, 0, anc)
  {
    hide ToLE;
    hide MedianTimePast;
  }

  lemma GrownSize(byHash0: map<Hash, HeaderNode>, node: HeaderNode, byHash: map<Hash, HeaderNode>)
    requires byHash.Keys <= byHash0.Keys + {node.hash}
    ensures |byHash| <= |byHash0| + 1
  {
    InsertSize(byHash0, node.hash, node);
    SubsetSize(byHash.Keys, byHash0[node.hash := node].Keys);
  }

  /** The line of a header of the short line. */
  lemma {:induction false} ShortLine(r: Rules, byHash: map<Hash, HeaderNode>, i: nat, j: nat, n: nat, k: nat)
    requires r == ScenarioRules() && Closed(byHash) && Keyed(r, byHash) && Holds(byHash, i, j) && k <= n <= j <= 85
    requires i <= 2100
    ensures Line(r, byHash[HashOf(n)])[k].hash == HashOf(k) && Line(r, byHash[HashOf(n)])[k].header == HeaderOf(k)
  {
    hide HashOf;
    hide ScenarioRules;
    hide Holds;
    hide HeaderOf;
    HoldsAt(byHash, i, j, n);
    if k < n {
      assert ParentIn(byHash, HashOf(n));
      ShortParent(n);
      ShortLine(r, byHash, i, j, n - 1, k);
    }
  }

  lemma ShortParent(n: nat)
    requires 0 < n <= 85
    ensures HeaderOf(n).prevBlock == HashOf(n - 1)
  {
    hide HashOf;
  }

  function LongId(k: nat): Id
    requires k <= 2100
  {
    if k == 0 then 0 else LONG + k
  }

  lemma {:induction false} LongLine(r: Rules, byHash: map<Hash, HeaderNode>, i: nat, j: nat, n: nat, k: nat)
    requires r == ScenarioRules() && Closed(byHash) && Keyed(r, byHash) && Holds(byHash, i, j) && k <= n <= i <= 2100
    requires j <= 85
    ensures Line(r, byHash[HashOf(LongId(n))])[k].hash == HashOf(LongId(k))
  {
    hide HashOf;
    hide ScenarioRules;
    hide Holds;
    HoldsAt(byHash, i, j, LongId(n));
    if k < n {
      assert ParentIn(byHash, HashOf(LongId(n)));
      LongParent(n);
      LongLine(r, byHash, i, j, n - 1, k);
    }
  }

  lemma LongParent(n: nat)
    requires 0 < n <= 2100
    ensures HeaderOf(LongId(n)).prevBlock == HashOf(LongId(n - 1))
  {
    hide HashOf;
  }

  lemma {:induction false} HoldsLong(byHash: map<Hash, HeaderNode>, i: nat, node: HeaderNode)
    requires Holds(byHash, i, 0) && i < 2100 && NodeIs(node, LONG + i + 1)
    ensures Holds(byHash[node.hash := node], i + 1, 0)
  {
    hide HashOf;
    AllHashesDiffer();
  }

  lemma {:induction false} HoldsShort(byHash: map<Hash, HeaderNode>, i: nat, j: nat, node: HeaderNode)
    requires Holds(byHash, i, j) && i <= 2100 && j < 85 && NodeIs(node, j + 1)
    ensures Holds(byHash[node.hash := node], i, j + 1)
  {
    hide HashOf;
    AllHashesDiffer();
  }

  ghost predicate Building(idx: HeaderIndex, i: nat, j: nat)
    requires i <= 2100
    reads idx
  {
    && idx.Valid() && idx.r == ScenarioRules() && idx.rejected == {} && |idx.byHash| <= 1 + i + j
    && Closed(idx.byHash) && Holds(idx.byHash, i, j) && HashOf(LongId(i)) in idx.byHash
    && idx.bestHeader == idx.byHash[HashOf(LongId(i))]
  }

  /** An index that holds the long line up to 2099 and the short line up to 85. */
  method TwoLines() returns (idx: HeaderIndex)
    ensures fresh(idx) && Building(idx, 2099, 85)
  {
    hide Linked;
    hide Line;
    hide HashOf;
    hide ScenarioRules;
    hide RejectedOk;
    hide Closed;
    hide Holds;
    idx := FirstIndex();
    var i := 0;
    while i < 2099
      invariant 0 <= i <= 2099 && fresh(idx) && Building(idx, i, 0)
    {
      AddLong(idx, i);
      i := i + 1;
    }
    var j := 0;
    while j < 85
      invariant 0 <= j <= 85 && fresh(idx) && Building(idx, 2099, j)
    {
      AddShort(idx, j);
      j := j + 1;
    }
  }

  method FirstIndex() returns (idx: HeaderIndex)
    ensures fresh(idx) && Building(idx, 0, 0)
  {
    hide Building;
    idx := new HeaderIndex(ScenarioRules());
    OnlyGenesis(idx);
  }

  lemma OnlyGenesis(idx: HeaderIndex)
    requires idx.Valid() && idx.r == ScenarioRules() && idx.rejected == {} && Closed(idx.byHash)
    requires idx.byHash.Keys == {idx.r.blockHash(idx.r.params.genesis.header)}
    requires idx.bestHeader.header == idx.r.params.genesis.header
    requires idx.bestHeader.height == 0 && idx.bestHeader.work == idx.r.weight(idx.r.params.genesis.header)
    ensures Building(idx, 0, 0)
  {
    hide HashOf;
    hide ScenarioRules;
    hide RejectedOk;
    hide Closed;
    Names(0);
    AllHashesDiffer();
    assert |idx.byHash.Keys| == 1;
    assert NodeIs(idx.bestHeader, 0);
  }

  method AddLong(idx: HeaderIndex, i: nat)
    requires i < 2099 && Building(idx, i, 0)
    modifies idx
    ensures Building(idx, i + 1, 0)
  {
    hide Linked;
    hide Line;
    hide HashOf;
    hide ScenarioRules;
    hide RejectedOk;
    hide Closed;
    hide NoForkAt;
    hide Pruned;
    hide Hashes;
    hide Holds;
    HoldsAt(idx.byHash, i, 0, LONG + i + 1);
    HoldsAt(idx.byHash, i, 0, LongId(i));
    ghost var byHash0 := idx.byHash;
    var node := Add(idx, LONG + i + 1);
    HoldsLong(byHash0, i, node);
    InsertClosed(byHash0, node);
  }

  method AddShort(idx: HeaderIndex, j: nat)
    requires j < 85 && Building(idx, 2099, j)
    modifies idx
    ensures Building(idx, 2099, j + 1)
  {
    hide Linked;
    hide Line;
    hide HashOf;
    hide ScenarioRules;
    hide RejectedOk;
    hide Closed;
    hide NoForkAt;
    hide Pruned;
    hide Hashes;
    hide Holds;
    HoldsAt(idx.byHash, 2099, j, j + 1);
    HoldsAt(idx.byHash, 2099, j, j);
    HoldsAt(idx.byHash, 2099, j, LongId(2099));
    ghost var byHash0 := idx.byHash;
    var node := Add(idx, j + 1);
    HoldsShort(byHash0, 2099, j, node);
    InsertClosed(byHash0, node);
    assert HashOf(LongId(2099)) in byHash0;
    HashesDiffer(LongId(2099), j + 1);
  }

  lemma HoldsAt(byHash: map<Hash, HeaderNode>, i: nat, j: nat, id: Id)
    requires Holds(byHash, i, j)
    ensures (HashOf(id) in byHash <==> In(id, i, j)) && (HashOf(id) in byHash ==> NodeIs(byHash[HashOf(id)], id))
  {
  }

  /** The best chain is the short line with the heavy header on it, and its headers from
      1 to 84 are not indexed. */
  ghost predicate Lost(idx: HeaderIndex)
    reads idx
  {
    && idx.Valid() && idx.r == ScenarioRules() && idx.bestHeader.height == 86
    && (forall k :: 0 <= k <= 85 ==> IsShort(Line(idx.r, idx.bestHeader)[k], k))
    && Line(idx.r, idx.bestHeader)[86].header == HeaderOf(HEAVY)
    && (forall id: Id :: 1 <= id <= 84 ==> HashOf(id) !in idx.byHash)
  }

  ghost predicate IsShort(n: HeaderNode, k: nat)
    requires k <= 85
  {
    n.hash == HashOf(k) && n.header == HeaderOf(k)
  }

  /** An index reached by adding headers one at a time that has lost headers of what is now
      its best chain: when the long line reached 2100 the short line was pruned up to 84,
      and then the heavy header made it the best chain. */
  method LosingIndex() returns (idx: HeaderIndex)
    ensures fresh(idx) && Lost(idx)
  {
    hide Linked;
    hide HashOf;
    hide ScenarioRules;
    hide RejectedOk;
    hide Closed;
    hide NoForkAt;
    hide Hashes;
    hide Holds;
    hide Line;
    idx := TwoLines();
    ghost var byHash0 := idx.byHash;
    HoldsAt(byHash0, 2099, 85, LONG + 2100);
    HoldsAt(byHash0, 2099, 85, LongId(2099));
    HoldsAt(byHash0, 2099, 85, 85);
    HoldsAt(byHash0, 2099, 85, HEAVY);
    ghost var last := byHash0[HashOf(85)];
    ShortNodes(idx.r, byHash0, last);
    var top := Add(idx, LONG + 2100);
    PrunedShort(idx.r, byHash0, top, idx.byHash);
    HashesDiffer(HEAVY, LONG + 2100);
    ghost var byHash1 := idx.byHash;
    var heavy := Add(idx, HEAVY);
    HeavyLine(idx.r, heavy, last);
    forall id: Id | 1 <= id <= 84 ensures HashOf(id) !in idx.byHash {
      HashesDiffer(id, HEAVY);
    }
  }

  lemma ShortNodes(r: Rules, byHash: map<Hash, HeaderNode>, last: HeaderNode)
    requires r == ScenarioRules() && Closed(byHash) && Keyed(r, byHash) && Holds(byHash, 2099, 85)
    requires HashOf(85) in byHash && last == byHash[HashOf(85)]
    ensures Linked(r, last) && last.height == 85 && forall k :: 0 <= k <= 85 ==> IsShort(Line(r, last)[k], k)
  {
    hide HashOf;
    hide ScenarioRules;
    hide Closed;
    hide Holds;
    HoldsAt(byHash, 2099, 85, 85);
    forall k | 0 <= k <= 85 ensures IsShort(Line(r, last)[k], k) {
      ShortLine(r, byHash, 2099, 85, 85, k);
    }
  }

  /** Pruning at height 2100 drops the short line up to 84 and keeps number 85. */
  lemma {:induction false} PrunedShort(r: Rules, byHash: map<Hash, HeaderNode>, top: HeaderNode,
                                       byHash': map<Hash, HeaderNode>)
    requires r == ScenarioRules() && Closed(byHash) && Keyed(r, byHash) && Holds(byHash, 2099, 85)
    requires Linked(r, top) && NodeIs(top, LONG + 2100) && HashOf(LongId(2099)) in byHash
    requires top.parent == byHash[HashOf(LongId(2099))]
    requires byHash' == Pruned(byHash[top.hash := top], Hashes(Line(r, top), 0), 84)
    ensures forall id: Id :: 1 <= id <= 84 ==> HashOf(id) !in byHash'
    ensures HashOf(85) in byHash' && byHash'[HashOf(85)] == byHash[HashOf(85)]
    ensures HashOf(HEAVY) !in byHash'
  {
    hide HashOf;
    hide ScenarioRules;
    hide Closed;
    hide Holds;
    forall id: Id | 1 <= id <= 84 ensures HashOf(id) !in byHash' {
      HoldsAt(byHash, 2099, 85, id);
      HashesDiffer(id, LONG + 2100);
      NotOnLong(r, byHash, top, id);
    }
    HoldsAt(byHash, 2099, 85, 85);
    HoldsAt(byHash, 2099, 85, HEAVY);
    HashesDiffer(85, LONG + 2100);
    HashesDiffer(HEAVY, LONG + 2100);
  }

  lemma {:induction false} NotOnLong(r: Rules, byHash: map<Hash, HeaderNode>, top: HeaderNode, id: Id)
    requires r == ScenarioRules() && Closed(byHash) && Keyed(r, byHash) && Holds(byHash, 2099, 85) && 1 <= id <= 84
    requires Linked(r, top) && NodeIs(top, LONG + 2100) && HashOf(LongId(2099)) in byHash
    requires top.parent == byHash[HashOf(LongId(2099))]
    ensures HashOf(id) !in Hashes(Line(r, top), 0)
  {
    hide HashOf;
    hide ScenarioRules;
    hide Closed;
    hide Holds;
    var line := Line(r, top);
    forall k | 0 <= k < |line| ensures line[k].hash != HashOf(id) {
      HashesDiffer(LongId(k), id);
      if k < 2100 {
        LongLine(r, byHash, 2099, 85, 2099, k);
      }
    }
  }

  lemma HeavyLine(r: Rules, heavy: HeaderNode, last: HeaderNode)
    requires r == ScenarioRules() && Linked(r, heavy) && NodeIs(heavy, HEAVY) && heavy.parent == last && Linked(r, last)
    requires last.height == 85
    requires forall k :: 0 <= k <= 85 ==> IsShort(Line(r, last)[k], k)
    ensures forall k :: 0 <= k <= 85 ==> IsShort(Line(r, heavy)[k], k)
    ensures Line(r, heavy)[86].header == HeaderOf(HEAVY)
  {
    hide HashOf;
    hide ScenarioRules;
  }

  /** A reply is ignored: the peer follows the short line up to 84 and then its own block,
      so its reply builds on a header of the node's best chain that is no longer indexed. */
  method IgnoredReply() returns (idx: HeaderIndex, peer: Chain, headers: seq<BlockHeader>, taken: bool)
    ensures idx.Valid() && peer.Valid() && |headers| > 0 && !taken
  {
    hide StateOk;
    hide Linked;
    hide HashOf;
    hide ScenarioRules;
    hide Closed;
    hide Line;
    hide OrphansOk;
    hide RecordsOk;
    hide HeaderLine;
    hide NoClash;
    hide ForkAt;
    hide BlockOf;
    idx := LosingIndex();
    peer := Peer();
    ghost var a, b := HeadersOfLine(Line(idx.r, idx.bestHeader)), HeadersOf(peer.chain);
    ChainHeaders(84, peer.chain);
    TheLines(idx.r, idx.bestHeader, peer.chain);
    var start;
    ghost var fork;
    headers, taken, start, fork := SyncRound(idx, peer, 2);
    ForkIs84(a, b, fork);
    assert IsShort(Line(idx.r, idx.bestHeader)[start], start);
  }

  lemma ChainHeaders(n: nat, chain: seq<Block>)
    requires n <= 85 && chain == ShortChain(n) + [BlockOf(OTHER)]
    ensures var b := HeadersOf(chain);
      |b| == n + 2 && b[n + 1] == HeaderOf(OTHER) && forall k :: 0 <= k <= n ==> b[k] == HeaderOf(k)
  {
    hide ShortChain;
    hide HeaderOf;
    ShortChainAt(n, 0);
    forall k | 0 <= k <= n ensures HeadersOf(chain)[k] == HeaderOf(k) {
      ShortChainAt(n, k);
    }
  }

  lemma IndexHeaders(r: Rules, best: HeaderNode)
    requires Linked(r, best) && best.height == 86 && Line(r, best)[86].header == HeaderOf(HEAVY)
    requires forall k :: 0 <= k <= 85 ==> IsShort(Line(r, best)[k], k)
    ensures var a := HeadersOfLine(Line(r, best));
      |a| == 87 && a[86] == HeaderOf(HEAVY) && forall k :: 0 <= k <= 85 ==> a[k] == HeaderOf(k)
  {
    hide Linked;
    hide HeaderOf;
    hide HashOf;
    forall k | 0 <= k <= 85 ensures HeadersOfLine(Line(r, best))[k] == HeaderOf(k) {
      assert IsShort(Line(r, best)[k], k);
    }
  }

  /** The two lines as headers. */
  lemma {:induction false} TheLines(r: Rules, best: HeaderNode, chain: seq<Block>)
    requires r == ScenarioRules() && |chain| == 86 && chain[85].header == HeaderOf(OTHER)
    requires forall k :: 0 <= k <= 84 ==> HeadersOf(chain)[k] == HeaderOf(k)
    requires Linked(r, best) && best.height == 86 && Line(r, best)[86].header == HeaderOf(HEAVY)
    requires forall k :: 0 <= k <= 85 ==> IsShort(Line(r, best)[k], k)
    ensures var a, b := HeadersOfLine(Line(r, best)), HeadersOf(chain);
      && |a| == 87 && |b| == 86 && NoClash(r, a, b)
      && (forall k :: 0 <= k <= 84 ==> a[k] == HeaderOf(k) && b[k] == HeaderOf(k))
      && a[85] == HeaderOf(85) && a[86] == HeaderOf(HEAVY) && b[85] == HeaderOf(OTHER)
  {
    hide Linked;
    hide HashOf;
    hide HeaderOf;
    hide BlockOf;
    hide ScenarioRules;
    hide ShortChain;
    hide Line;
    hide NoClash;
    var a, b := HeadersOfLine(Line(r, best)), HeadersOf(chain);
    IndexHeaders(r, best);
    forall x | x in a + b ensures exists id: Id :: x == HeaderOf(id) {
      var k :| 0 <= k < |a + b| && (a + b)[k] == x;
      NumberOf(a, b, k);
    }
    HeadersApart(a, b);
  }

  lemma NumberOf(a: seq<BlockHeader>, b: seq<BlockHeader>, k: nat)
    requires |a| == 87 && |b| == 86 && k < |a + b| && a[86] == HeaderOf(HEAVY) && b[85] == HeaderOf(OTHER)
    requires (forall i :: 0 <= i <= 85 ==> a[i] == HeaderOf(i)) && forall i :: 0 <= i <= 84 ==> b[i] == HeaderOf(i)
    ensures exists id: Id :: (a + b)[k] == HeaderOf(id)
  {
    hide HeaderOf;
    if k <= 85 {
      assert (a + b)[k] == HeaderOf(k);
    } else if k == 86 {
      assert (a + b)[k] == HeaderOf(HEAVY);
    } else if k < 172 {
      assert (a + b)[k] == b[k - 87] == HeaderOf(k - 87);
    } else {
      assert (a + b)[k] == HeaderOf(OTHER);
    }
  }

  lemma HeadersApart(a: seq<BlockHeader>, b: seq<BlockHeader>)
    requires forall x :: x in a + b ==> exists id: Id :: x == HeaderOf(id)
    ensures NoClash(ScenarioRules(), a, b)
  {
    hide ScenarioRules;
    hide HashOf;
    hide HeaderOf;
    var r := ScenarioRules();
    forall x, y | x in a + b && y in a + b && r.blockHash(x) == r.blockHash(y) ensures x == y {
      var i: Id :| x == HeaderOf(i);
      var j: Id :| y == HeaderOf(j);
      Names(i);
      Names(j);
      HashesDiffer(i, j);
    }
    forall x | x in a + b ensures r.blockHash(x) != r.params.genesis.header.prevBlock {
      var i: Id :| x == HeaderOf(i);
      Names(i);
      HashesDiffer(i, i);
      GenesisParent();
    }
  }

  lemma GenesisParent()
    ensures ScenarioRules().params.genesis.header.prevBlock == ZERO_HASH
  {
    hide ToLE;
  }

  lemma ForkIs84(a: seq<BlockHeader>, b: seq<BlockHeader>, fork: nat)
    requires ForkAt(ScenarioRules(), a, b, fork) && |a| == 87 && |b| == 86
    requires forall k :: 0 <= k <= 84 ==> a[k] == HeaderOf(k) && b[k] == HeaderOf(k)
    requires a[85] == HeaderOf(85) && b[85] == HeaderOf(OTHER)
    ensures fork == 84
  {
    hide ScenarioRules;
    hide HashOf;
    assert a[85] != b[85];
    assert ScenarioRules().blockHash(a[84]) == ScenarioRules().blockHash(b[84]);
  }

  // ---------- A transaction admitted too early ----------

  function LockRules(): Rules {
    ScenarioRules().(params := ScenarioRules().params.(locktimeHeight := Some(1)))
  }

  function LockedTx(): Transaction {
    Transaction(1, [TxInput(OutPoint(ZERO_HASH, 0), [], SEQUENCE_FINAL - 1)], [TxOutput(1, [])], LOCKTIME_THRESHOLD + 1)
  }

  function OneOutput(): Utxos {
    map[OutPoint(ZERO_HASH, 0) := UtxoEntry(2, [], 0, false)]
  }

  /** A transaction the mempool admits by the clock is not final, and not valid in the next
      block, at a median time one second behind. */
  lemma AdmittedTooEarly(height: nat)
    requires height > 0
    ensures var r, s, tx, now := LockRules(), OneOutput(), LockedTx(), LOCKTIME_THRESHOLD + 2;
      && SingleOk(r, s, map[], tx, height, now)
      && !Final(tx, height, now - 1) && !TxOk(r, s, EMPTY_VIEW, tx, height, now - 1)
  {
    hide ToLE;
    var s, tx := OneOutput(), LockedTx();
    assert map[] + s == s;
    assert InputsSize(tx.inputs, 1) == 0 && OutputsSize(tx.outputs, 1) == 0;
    assert CollectInputs(s, EMPTY_VIEW, tx.inputs, 0).Some?;
    assert CollectInputs(s, EMPTY_VIEW, tx.inputs, 1).Some?;
    var es := Resolved(s, EMPTY_VIEW, tx.inputs, 1);
    assert es == Resolved(s, EMPTY_VIEW, tx.inputs, 0) + [s[OutPoint(ZERO_HASH, 0)]];
    assert SumEntries(es, 1) == SumEntries(es, 0) + 2;
    assert SumOutputs(tx.outputs, 1) == SumOutputs(tx.outputs, 0) + 1;
  }
}
