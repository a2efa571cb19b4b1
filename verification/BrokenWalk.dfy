/** A run that breaks the ancestor lookup: with a depth limit for reorganisations, a node
    can come to hold a height entry whose headers are not stored down to the main chain. */
module BrokenWalk {
  import opened Types
  import opened Bytes
  import opened Amounts
  import opened Utxo
  import opened TxValidation
  import opened BlockValidation
  import opened MedianTime
  import opened Ledger
  import opened ChainState
  import opened AncestorLookup
  import opened Closure
  import opened HeaderRules
  import opened Recovery
  import opened Commits
  import opened ChainRules
  import opened Chains
  import opened Safety
  import opened Scenario

  const NOW: U32 := 5000

  /** A node of the scenario without waiting blocks. */
  ghost predicate Plain(node: Chain)
    reads node, node.utxoSet
  {
    node.r == ScenarioRules() && node.seen == AllBlocks() && node.Ready() && node.orphans == map[]
  }

  // ---------- What the node knows about numbered blocks ----------

  lemma {:induction false} KnownIs(known: Tree, id: Id)
    requires TreeOk(ScenarioRules(), AllBlocks(), known) && Used(id) && HashOf(id) in known
    ensures known[HashOf(id)] == Node(HeaderOf(id), Height(id), Work(id))
    decreases known[HashOf(id)].height
  {
    hide ScenarioRules;
    hide AllBlocks;
    hide HashOf;
    hide HeaderOf;
    var r, h := ScenarioRules(), HashOf(id);
    assert NodeOk(r, AllBlocks(), known, h);
    HeaderNamed(known[h].header, id);
    Names(id);
    Names(0);
    HashesDiffer(id, 0);
    if id > 0 {
      Steps(id);
      HeaderPrev(id);
      KnownIs(known, Prev(id));
    }
  }

  lemma HeaderPrev(id: Id)
    requires id > 0
    ensures HeaderOf(id).prevBlock == HashOf(Prev(id)) && HeaderOf(id).timestamp == Height(id)
  {
    hide HashOf;
  }

  lemma HeaderNamed(header: BlockHeader, id: Id)
    requires (exists b :: b in AllBlocks() && b.header == header) && ScenarioRules().blockHash(header) == HashOf(id)
    ensures header == HeaderOf(id)
  {
    hide ScenarioRules;
    hide AllBlocks;
    hide HashOf;
    hide HeaderOf;
    var b :| b in AllBlocks() && b.header == header;
    var j := BlockNumber(b);
    Names(j);
    HashesDiffer(id, j);
  }

  lemma RecordIs(known: Tree, index: map<Hash, IndexRec>, id: Id)
    requires TreeOk(ScenarioRules(), AllBlocks(), known) && IndexOk(ScenarioRules(), AllBlocks(), known, index)
    requires HashOf(id) in index
    ensures index[HashOf(id)].block == BlockOf(id) && HashOf(id) in known
  {
    hide ScenarioRules;
    hide AllBlocks;
    hide HashOf;
    hide HeaderOf;
    var r, h := ScenarioRules(), HashOf(id);
    assert RecOk(r, AllBlocks(), known, h, index[h]) && NodeOk(r, AllBlocks(), known, h);
    var j := BlockNumber(index[h].block);
    Names(j);
    HashesDiffer(id, j);
  }

  /** The block at height i of the main chain, by its number. */
  lemma MainIs(node: Chain, i: nat, id: Id)
    requires Plain(node) && i < |node.chain| && node.chain[i] == BlockOf(id)
    ensures i in node.hashByHeight && node.hashByHeight[i] == HashOf(id)
    ensures HashOf(id) in node.heightByHash && node.heightByHash[HashOf(id)] == i && OnMain(node.Mem(), HashOf(id))
  {
    hide ScenarioRules;
    hide AllBlocks;
    hide HashOf;
    hide HeaderOf;
    hide Replay;
    hide ValidChain;
    hide UndoFor;
    hide RecordsOk;
    assert MainEntry(node.r, node.known, node.store.index, node.heightByHash, node.hashByHeight[i], i, node.chain);
    var h := node.hashByHeight[i];
    assert RecOk(node.r, node.seen, node.known, h, node.store.index[h]) && NodeOk(node.r, node.seen, node.known, h);
    Names(id);
  }

  // ---------- One block handed to the node ----------

  /** What the node does with block `id`, which passes the checks common to all blocks. */
  ghost predicate Settles(s0: Snapshot, id: Id, why: Why, outcome: Outcome, settled: Snapshot, s: Snapshot) {
    var r, b, node := ScenarioRules(), BlockOf(id), Node(HeaderOf(id), Height(id), Work(id));
    && Verdict(r, AllBlocks(), s0, b, node, NOW, NO_FAULTS, why, outcome) && !outcome.Parked?
    && Exact(r, s0, b, node, NOW, NO_FAULTS, why, outcome, settled)
    && s == if outcome.Accepted? then settled.(m := AfterPrune(settled.m)) else settled
  }

  method Submit(node: Chain, id: Id)
    returns (outcome: Outcome, commits: CommitTrace, ghost why: Why, ghost settled: Snapshot)
    requires Plain(node) && Used(id) && id > 0 && HashOf(id) !in node.heightByHash
    requires HashOf(Prev(id)) in node.heightByHash
    modifies node, node.utxoSet
    ensures Plain(node)
    ensures Settles(old(node.Snap()), id, why, outcome, settled, node.Snap()) && commits == why.commits
  {
    hide Prev;
    hide Height;
    hide Work;
    hide Weight;
    hide Used;
    hide StateOk;
    hide OrphansOk;
    hide RecordsOk;
    hide StructureOk;
    hide HashOf;
    hide HeaderOf;
    hide ScenarioRules;
    hide AllBlocks;
    hide Verdict;
    hide Exact;
    hide AfterPrune;
    hide Survivor;
    hide Timed;
    hide Children;
    hide StoredWalk;
    hide WalksLike;
    hide HeaderPasses;
    hide StoreAfterRefusal;
    hide ParentsBelow;
    Names(id);
    InWorld(id);
    Ahead(node, id);
    var trace;
    ghost var after;
    outcome, trace, commits, why, after := node.ProcessBlock(BlockOf(id), false, NOW, NO_FAULTS, h => NO_FAULTS);
    settled := after.settled;
    PassesNow(id, why.anc);
    NoneWaiting(id);
    assert |node.orphans| == 0;
  }

  lemma NoneWaiting(id: Id)
    ensures Children(map[], HashOf(id)) == {}
  {
  }

  /** What the node knows about the parent of a numbered block. */
  lemma Ahead(node: Chain, id: Id)
    requires Plain(node) && Used(id) && id > 0 && HashOf(Prev(id)) in node.heightByHash
    ensures var prev := HashOf(Prev(id));
      && BlockOf(id).header == HeaderOf(id) && HeaderOf(id).prevBlock == prev
      && prev in node.known && prev in node.store.index && node.store.index[prev].block.header == HeaderOf(Prev(id))
      && node.heightByHash[prev] + 1 == Height(id)
      && ChildNode(node.r, node.known, HeaderOf(id)) == Node(HeaderOf(id), Height(id), Work(id))
    ensures StructureOk(node.r, BlockOf(id), Height(id))
  {
    hide BlockOf;
    hide StructureOk;
    hide World;
    hide Prev;
    hide Height;
    hide Work;
    hide Weight;
    hide Used;
    hide HashOf;
    hide HeaderOf;
    hide ScenarioRules;
    hide AllBlocks;
    hide Replay;
    hide ValidChain;
    hide MainOk;
    hide TreeOk;
    hide IndexOk;
    hide ParentsBelow;
    hide OrphansOk;
    Names(id);
    Steps(id);
    HeaderPrev(id);
    SmallBlock(id);
    KnownIs(node.known, Prev(id));
    RecordIs(node.known, node.store.index, Prev(id));
    Names(Prev(id));
  }

  lemma PassesNow(id: Id, anc: Ancestors)
    requires Used(id) && id > 0
    ensures HeaderPasses(ScenarioRules(), HeaderOf(id), HeaderOf(Prev(id)), Height(id) - 1, NOW, anc)
  {
    hide ToLE;
    hide MedianTimePast;
    hide HashOf;
  }

  // ---------- The three ways a block ends ----------

  /** A valid child of the tip. */
  lemma TipChild(s0: Snapshot, id: Id, why: Why, outcome: Outcome, settled: Snapshot, s: Snapshot)
    requires Settles(s0, id, why, outcome, settled, s)
    requires |s0.chain| > 0 && BlockOf(id).header.prevBlock == s0.m.tipHash
    requires BlockOk(ScenarioRules(), s0.chain, BlockOf(id))
    ensures outcome.Accepted? && s.chain == s0.chain + [BlockOf(id)] && s.history == s0.history
    ensures s.m.tipHash == HashOf(id) && s.m.tipHeight == s0.m.tipHeight + 1
    ensures forall x :: x in s.m.heightByHash ==> x in s0.m.heightByHash || x == HashOf(id)
  {
    hide ScenarioRules;
    hide AllBlocks;
    hide HashOf;
    hide BlockOf;
    hide BlockOk;
    hide UndoFor;
    hide OnMain;
    Names(id);
  }

  /** The branch of a block whose parent is on the main chain. */
  lemma OneBlockBranch(known: Tree, index: map<Hash, IndexRec>, m: Memory, fork: nat, branch: seq<Hash>, h: Hash)
    requires BranchOk(known, index, m, fork, branch) && |branch| > 0 && branch[|branch| - 1] == h
    requires OnMain(m, known[h].header.prevBlock)
    requires fork in m.hashByHeight && m.hashByHeight[fork] in m.heightByHash ==>
      m.heightByHash[m.hashByHeight[fork]] == fork
    ensures branch == [h] && fork == m.heightByHash[known[h].header.prevBlock]
  {
    assert BranchStep(known, m, fork, branch, |branch| - 1);
  }

  /** The entries of the main chain are mutually inverse. */
  ghost predicate Inverse(m: Memory) {
    forall i :: i in m.hashByHeight ==> m.hashByHeight[i] in m.heightByHash && m.heightByHash[m.hashByHeight[i]] == i
  }

  lemma NodeInverse(node: Chain)
    requires Plain(node)
    ensures Inverse(node.Mem()) && |node.chain| == node.tipHeight + 1
  {
    hide ScenarioRules;
    hide AllBlocks;
    hide Replay;
    hide ValidChain;
    hide UndoFor;
    hide RecordsOk;
    var m := node.Mem();
    forall i | i in m.hashByHeight
      ensures m.hashByHeight[i] in m.heightByHash && m.heightByHash[m.hashByHeight[i]] == i
    {
      assert MainEntry(node.r, node.known, node.store.index, m.heightByHash, m.hashByHeight[i], i, node.chain);
    }
  }

  /** A block with more work than the tip on a branch the depth limit forbids. */
  lemma DeepBlock(s0: Snapshot, id: Id, why: Why, outcome: Outcome, settled: Snapshot, s: Snapshot)
    requires Settles(s0, id, why, outcome, settled, s)
    requires BlockOf(id).header.prevBlock != s0.m.tipHash && Work(id) > s0.m.tipWork
    requires s0.m.tipHeight >= Height(id) + 1000
    requires TreeOk(ScenarioRules(), AllBlocks(), s0.known) && BlockOf(id).header.prevBlock in s0.known
    requires StoredWalk(ScenarioRules(), AllBlocks(), s0.known, s0.store.index, s0.m, BlockOf(id).header.prevBlock)
    ensures outcome.SideChain? && s.chain == s0.chain && s.history == s0.history
    ensures s.m == s0.m.(heightByHash := s0.m.heightByHash[HashOf(id) := Height(id)])
    ensures var rec := IndexRec(BlockOf(id), Height(id), Work(id), None);
      s.store == s0.store.(index := s0.store.index[HashOf(id) := rec])
  {
    hide ScenarioRules;
    hide AllBlocks;
    hide HashOf;
    hide BlockOf;
    hide TreeOk;
    hide StoredWalk;
    hide ValidChain;
    hide UndoFor;
    hide OnMain;
    hide SameRecords;
    hide HeightsMoved;
    hide RecentDepth;
    hide Recent;
    hide BranchStep;
    Names(id);
    SmallRules();
  }

  /** The chain a block on a main-chain block leads to. */
  ghost function ChainVia(m: Memory, chain: seq<Block>, id: Id): seq<Block>
    requires OnMain(m, BlockOf(id).header.prevBlock) && m.heightByHash[BlockOf(id).header.prevBlock] < |chain|
  {
    chain[..m.heightByHash[BlockOf(id).header.prevBlock] + 1] + [BlockOf(id)]
  }

  ghost function DepthVia(m: Memory, id: Id): int
    requires OnMain(m, BlockOf(id).header.prevBlock)
  {
    m.tipHeight - m.heightByHash[BlockOf(id).header.prevBlock]
  }

  /** A block with more work than the tip on a main-chain block within the depth limits. */
  ghost predicate Switchable(s: Snapshot, id: Id) {
    && OnMain(s.m, BlockOf(id).header.prevBlock) && s.m.heightByHash[BlockOf(id).header.prevBlock] < |s.chain|
    && BlockOf(id).header.prevBlock != s.m.tipHash && Work(id) > s.m.tipWork && Inverse(s.m)
    && 0 <= DepthVia(s.m, id) && DepthOk(ScenarioRules().params, s.history, DepthVia(s.m, id), NOW)
    && TreeOk(ScenarioRules(), AllBlocks(), s.known) && BlockOf(id).header.prevBlock in s.known
  }

  lemma SwitchJudged(s0: Snapshot, id: Id, why: Why, outcome: Outcome, settled: Snapshot, s: Snapshot)
    requires Settles(s0, id, why, outcome, settled, s)
    requires Switchable(s0, id)
    ensures why.branch == [HashOf(id)] && why.fork == s0.m.heightByHash[BlockOf(id).header.prevBlock]
    ensures !outcome.SideChain?
    ensures outcome.Accepted? <==> ValidChain(ScenarioRules(), ChainVia(s0.m, s0.chain, id))
    ensures outcome.Accepted? ==> s.chain == ChainVia(s0.m, s0.chain, id)
  {
    hide Prev;
    hide Height;
    hide Work;
    hide Weight;
    hide Used;
    hide ScenarioRules;
    hide AllBlocks;
    hide HashOf;
    hide BlockOf;
    hide TreeOk;
    hide ValidChain;
    hide SameRecords;
    hide HeightsMoved;
    hide KeptHistory;
    hide UndoFor;
    hide AfterPrune;
    hide DepthOk;
    hide BranchStep;
    Names(id);
    var b := BlockOf(id);
    var index := s0.store.index[HashOf(id) := IndexRec(b, Height(id), Work(id), None)];
    OneBlockBranch(why.tree, index, s0.m, why.fork, why.branch, HashOf(id));
    assert BranchBlocks(index, [HashOf(id)]) == [b];
  }

  /** What a switch to a block and the pruning after it do to the height entries. */
  ghost predicate EntriesMoved(m0: Memory, id: Id, m: Memory) {
    && (forall x :: x in m.heightByHash ==> x in m0.heightByHash || x == HashOf(id))
    && (forall x :: x in m.heightByHash ==> m.heightByHash[x] + PRUNE_DEPTH >= Height(id) || OnMain(m, x))
    && (forall x :: x in m0.heightByHash && !OnMain(m0, x) && m0.heightByHash[x] + PRUNE_DEPTH >= Height(id) ==>
          x in m.heightByHash || x == HashOf(id))
  }

  lemma SwitchedBlock(s0: Snapshot, id: Id, why: Why, outcome: Outcome, settled: Snapshot, s: Snapshot)
    requires Settles(s0, id, why, outcome, settled, s)
    requires Switchable(s0, id) && ValidChain(ScenarioRules(), ChainVia(s0.m, s0.chain, id))
    ensures s.chain == ChainVia(s0.m, s0.chain, id) && s.m.tipHash == HashOf(id) && s.m.tipHeight == Height(id)
    ensures s.history == KeptHistory(ScenarioRules().params, s0.history, DepthVia(s0.m, id), NOW)
                       + [ReorgRecord(Height(id), DepthVia(s0.m, id), NOW)]
    ensures EntriesMoved(s0.m, id, s.m)
  {
    hide Prev;
    hide Height;
    hide Work;
    hide Weight;
    hide Used;
    hide ScenarioRules;
    hide AllBlocks;
    hide HashOf;
    hide BlockOf;
    hide TreeOk;
    hide ValidChain;
    hide UndoFor;
    hide SameRecords;
    hide KeptHistory;
    hide Verdict;
    Names(id);
    SwitchJudged(s0, id, why, outcome, settled, s);
    PrunedMemory(settled.m, s.m);
  }

  /** Pruning keeps the blocks of the main chain. */
  lemma PrunedMemory(m: Memory, m': Memory)
    requires m' == AfterPrune(m)
    ensures m'.tipHash == m.tipHash && m'.tipHeight == m.tipHeight && m'.hashByHeight == m.hashByHeight
    ensures forall x :: x in m'.heightByHash ==>
      && x in m.heightByHash && m'.heightByHash[x] == m.heightByHash[x]
      && (m.heightByHash[x] + PRUNE_DEPTH >= m.tipHeight || OnMain(m', x))
    ensures forall x :: x in m.heightByHash && m.heightByHash[x] + PRUNE_DEPTH >= m.tipHeight ==> x in m'.heightByHash
  {
  }

  lemma RefusedBlock(s0: Snapshot, id: Id, why: Why, outcome: Outcome, settled: Snapshot, s: Snapshot)
    requires Settles(s0, id, why, outcome, settled, s)
    requires Switchable(s0, id) && !ValidChain(ScenarioRules(), ChainVia(s0.m, s0.chain, id))
    ensures outcome.Refused? && s.m == s0.m && s.chain == s0.chain
    ensures s.store == s0.store.(index := s0.store.index - {HashOf(id)})
  {
    hide Prev;
    hide Height;
    hide Work;
    hide Weight;
    hide Used;
    hide ScenarioRules;
    hide AllBlocks;
    hide HashOf;
    hide BlockOf;
    hide TreeOk;
    hide ValidChain;
    hide UndoFor;
    hide SameRecords;
    hide KeptHistory;
    hide AfterPrune;
    Names(id);
    SwitchJudged(s0, id, why, outcome, settled, s);
  }

  // ---------- The run ----------

  /** The blocks of the long line up to height n. */
  function LongChain(n: nat): seq<Block>
    requires n <= 1002
  {
    if n == 0 then [BlockOf(0)] else LongChain(n - 1) + [BlockOf(LongId(n))]
  }

  lemma {:induction false} LongChainAt(n: nat, i: nat)
    requires i <= n <= 1002
    ensures |LongChain(n)| == n + 1 && LongChain(n)[i] == BlockOf(LongId(i)) && LongChain(n)[..i + 1] == LongChain(i)
  {
    hide BlockOf;
    if i == n {
      if n > 0 {
        LongChainAt(n - 1, n - 1);
      }
      assert LongChain(n)[..n + 1] == LongChain(n);
    } else {
      LongChainAt(n - 1, i);
      assert LongChain(n)[..i + 1] == LongChain(n - 1)[..i + 1];
    }
  }

  /** A node with this main chain, which ends with block `tip`. */
  ghost predicate Stage(node: Chain, chain: seq<Block>, tip: Id)
    reads node, node.utxoSet
  {
    && Plain(node) && node.chain == chain && Used(tip)
    && node.tipHash == HashOf(tip) && node.tipHeight == Height(tip) && node.tipWork == Work(tip)
  }

  lemma StageOf(node: Chain, chain: seq<Block>, tip: Id)
    requires Plain(node) && node.chain == chain && Used(tip) && node.tipHash == HashOf(tip)
    ensures Stage(node, chain, tip)
  {
    hide HashOf;
    hide ScenarioRules;
    hide AllBlocks;
    hide Replay;
    hide RecordsOk;
    hide OnMain;
    hide OrphansOk;
    node.TipFacts();
    node.TreeFacts();
    KnownIs(node.known, tip);
  }

  /** Only genesis and the long line up to height k have height entries. */
  ghost predicate OnlyLong(heights: map<Hash, nat>, k: nat) {
    forall id: Id :: HashOf(id) in heights ==> id == 0 || LONG < id <= LONG + k
  }

  method Lengthen(node: Chain, k: nat)
    requires k < 1002 && Stage(node, LongChain(k), LongId(k)) && node.reorgHistory == []
    requires OnlyLong(node.heightByHash, k)
    modifies node, node.utxoSet
    ensures Stage(node, LongChain(k + 1), LongId(k + 1)) && node.reorgHistory == []
    ensures OnlyLong(node.heightByHash, k + 1)
  {
    hide HashOf;
    hide BlockOf;
    hide ScenarioRules;
    hide AllBlocks;
    hide Settles;
    hide BlockOk;
    hide LongChain;
    hide StateOk;
    hide OrphansOk;
    hide RecordsOk;
    var id: Id := LONG + k + 1;
    LongChainAt(k, k);
    MainIs(node, k, LongId(k));
    NextLong(k);
    ValidNext(node.chain, id);
    ghost var s0 := node.Snap();
    var outcome, commits;
    ghost var why, settled;
    outcome, commits, why, settled := Submit(node, id);
    TipChild(s0, id, why, outcome, settled, node.Snap());
    StageOf(node, LongChain(k + 1), id);
    forall x: Id | HashOf(x) in node.heightByHash ensures x == 0 || LONG < x <= LONG + k + 1 {
      HashesDiffer(x, id);
    }
  }

  lemma NextLong(k: nat)
    requires k < 1002
    ensures LongChain(k + 1) == LongChain(k) + [BlockOf(LongId(k + 1))]
    ensures BlockOf(LongId(k + 1)).header.prevBlock == HashOf(LongId(k))
  {
    hide HashOf;
  }

  /** A numbered block that is not the one the main chain has at its height. */
  lemma NotOnMain(node: Chain, id: Id, other: Id)
    requires Plain(node) && Used(id) && HashOf(id) in node.heightByHash
    requires Height(id) < |node.chain| && node.chain[Height(id)] == BlockOf(other) && id != other
    ensures node.heightByHash[HashOf(id)] == Height(id) && !OnMain(node.Mem(), HashOf(id))
  {
    hide HashOf;
    hide BlockOf;
    hide ScenarioRules;
    hide AllBlocks;
    hide Replay;
    hide ValidChain;
    hide MainOk;
    hide TreeOk;
    hide IndexOk;
    hide RecordsOk;
    hide OrphansOk;
    KnownIs(node.known, id);
    MainIs(node, Height(id), other);
    HashesDiffer(id, other);
  }

  /** The deep block, or its child, is kept beside the long chain. */
  method KeepAside(node: Chain, id: Id)
    requires Stage(node, LongChain(1002), LongId(1002)) && node.reorgHistory == [] && (id == DEEP || id == DEEP_CHILD)
    requires HashOf(id) !in node.heightByHash && HashOf(Prev(id)) in node.heightByHash
    requires HashOf(Prev(id)) in node.known && node.WalkStored(HashOf(Prev(id)))
    modifies node, node.utxoSet
    ensures Stage(node, LongChain(1002), LongId(1002)) && node.reorgHistory == []
    ensures node.heightByHash == old(node.heightByHash)[HashOf(id) := Height(id)]
    ensures HashOf(id) in node.store.index
  {
    hide HashOf;
    hide BlockOf;
    hide ScenarioRules;
    hide AllBlocks;
    hide Settles;
    hide LongChain;
    hide StateOk;
    hide OrphansOk;
    hide RecordsOk;
    hide StoredWalk;
    hide TreeOk;
    Names(id);
    HeaderPrev(id);
    HashesDiffer(Prev(id), LongId(1002));
    node.TreeFacts();
    ghost var s0 := node.Snap();
    var outcome, commits;
    ghost var why, settled;
    outcome, commits, why, settled := Submit(node, id);
    DeepBlock(s0, id, why, outcome, settled, node.Snap());
    StageOf(node, LongChain(1002), LongId(1002));
  }

  /** The deep block walks down to genesis. */
  lemma DeepWalk(node: Chain)
    requires Plain(node) && HashOf(DEEP) in node.heightByHash && HashOf(DEEP) in node.store.index && |node.chain| > 1
    requires node.chain[0] == BlockOf(0) && node.chain[1] == BlockOf(LongId(1))
    ensures HashOf(DEEP) in node.known && node.WalkStored(HashOf(DEEP))
  {
    hide HashOf;
    hide BlockOf;
    hide ScenarioRules;
    hide AllBlocks;
    hide Replay;
    hide ValidChain;
    hide MainOk;
    hide IndexOk;
    hide RecordsOk;
    hide OrphansOk;
    NotOnMain(node, DEEP, LongId(1));
    KnownIs(node.known, DEEP);
    HeaderPrev(DEEP);
    MainIs(node, 0, 0);
    WalkStep(node.r, node.seen, node.known, node.store.index, node.Mem(), HashOf(DEEP));
  }

  /** Block `id` leaves the main chain above its height and has more work than the tip. */
  ghost predicate Leaves(node: Chain, id: Id)
    reads node
  {
    && Used(id) && 0 < Height(id) < |node.chain| && node.chain[Height(id) - 1] == BlockOf(Prev(id)) && id > 0
    && Work(id) > node.tipWork && HashOf(id) !in node.heightByHash && Height(id) <= node.tipHeight + 1
    && DepthOk(ScenarioRules().params, node.reorgHistory, node.tipHeight - Height(id) + 1, NOW)
  }

  lemma LeavesSwitchable(node: Chain, chain: seq<Block>, tip: Id, id: Id)
    requires Stage(node, chain, tip) && |chain| == node.tipHeight + 1 && Leaves(node, id)
    ensures Switchable(node.Snap(), id) && HashOf(Prev(id)) in node.heightByHash
    ensures Plain(node) && Used(id) && id > 0 && HashOf(id) !in node.heightByHash && Height(id) <= |chain|
    ensures node.chain == chain
    ensures ChainVia(node.Mem(), chain, id) == chain[..Height(id)] + [BlockOf(id)]
    ensures DepthVia(node.Mem(), id) == node.tipHeight - Height(id) + 1
  {
    hide Prev;
    hide Height;
    hide Work;
    hide Weight;
    hide Used;
    hide HashOf;
    hide BlockOf;
    hide ScenarioRules;
    hide AllBlocks;
    hide StateOk;
    hide OrphansOk;
    hide RecordsOk;
    hide TreeOk;
    hide DepthOk;
    hide Inverse;
    hide StructureOk;
    hide IndexOk;
    Names(id);
    HeaderPrev(id);
    Steps(id);
    NodeInverse(node);
    node.TreeFacts();
    node.TipFacts();
    MainIs(node, Height(id) - 1, Prev(id));
    Ahead(node, id);
  }

  method SwitchOver(node: Chain, id: Id, ghost chain: seq<Block>, ghost tip: Id)
    requires Stage(node, chain, tip) && |chain| == node.tipHeight + 1 && Leaves(node, id) && id != DEEP && id != SPENDER
    modifies node, node.utxoSet
    ensures Stage(node, chain[..Height(id)] + [BlockOf(id)], id)
    ensures node.reorgHistory
            == KeptHistory(ScenarioRules().params, old(node.reorgHistory), old(node.tipHeight) - Height(id) + 1, NOW)
               + [ReorgRecord(Height(id), old(node.tipHeight) - Height(id) + 1, NOW)]
    ensures EntriesMoved(old(node.Mem()), id, node.Mem())
  {
    hide Prev;
    hide Height;
    hide Work;
    hide Weight;
    hide Used;
    hide HashOf;
    hide BlockOf;
    hide ScenarioRules;
    hide AllBlocks;
    hide Settles;
    hide StateOk;
    hide OrphansOk;
    hide RecordsOk;
    hide DepthOk;
    hide KeptHistory;
    hide Switchable;
    hide ChainVia;
    hide DepthVia;
    hide EntriesMoved;
    hide OnMain;
    hide Inverse;
    hide Leaves;
    hide Stage;
    LeavesSwitchable(node, chain, tip, id);
    ValidVia(node, id);
    ghost var s0 := node.Snap();
    var outcome, commits;
    ghost var why, settled;
    outcome, commits, why, settled := Submit(node, id);
    SwitchedBlock(s0, id, why, outcome, settled, node.Snap());
    StageOf(node, chain[..Height(id)] + [BlockOf(id)], id);
  }

  lemma ValidVia(node: Chain, id: Id)
    requires Plain(node) && Leaves(node, id) && id != DEEP && id != SPENDER
    ensures ValidChain(ScenarioRules(), node.chain[..Height(id)] + [BlockOf(id)])
  {
    hide HashOf;
    hide BlockOf;
    hide ScenarioRules;
    hide AllBlocks;
    hide BlockOk;
    hide Replay;
    hide MainOk;
    hide TreeOk;
    hide IndexOk;
    hide OrphansOk;
    hide RecordsOk;
    var c := node.chain[..Height(id)];
    ValidPrefix(node.r, node.chain, Height(id));
    ValidNext(c, id);
    assert (c + [BlockOf(id)])[..|c|] == c;
  }

  /** The deep block takes more than its reward. */
  lemma DeepIsInvalid(c: seq<Block>)
    requires |c| == 2 && c[1] == BlockOf(DEEP)
    ensures !ValidChain(ScenarioRules(), c)
  {
    hide HashOf;
    hide ScenarioRules;
    hide StructureOk;
    hide Replay;
    hide ChainMedian;
    hide EncodeHeight;
    var r, b := ScenarioRules(), BlockOf(DEEP);
    Names(DEEP);
    SmallRules();
    GreedyCoinbase(r, Replay(r, c[..1]), ChainMedian(HeadersOf(c[..1])));
  }

  lemma GreedyCoinbase(r: Rules, s: Utxos, medianTime: nat)
    requires r.params.subsidyHalvingInterval == 0 && r.params.initialSubsidy == 50 && CoinbaseOf(DEEP).IsCoinbase()
    ensures !TxInputsOk(r, s, BlockOf(DEEP).txs, 1, medianTime)
  {
    hide EncodeHeight;
    var txs := BlockOf(DEEP).txs;
    assert TxsOk(r, s, txs, 0, 1, medianTime) && TxsOk(r, s, txs, 1, 1, medianTime);
    assert Fees(r, s, txs, 0, 1, medianTime) == 0 && Fees(r, s, txs, 1, 1, medianTime) == 0;
    assert SumOutputs(txs[0].outputs, 1) == SumOutputs(txs[0].outputs, 0) + 51;
  }

  /** The deep block is refused and its record deleted. */
  method Refuse(node: Chain, ghost chain: seq<Block>, ghost tip: Id)
    requires Stage(node, chain, tip) && |chain| == node.tipHeight + 1 && Leaves(node, DEEP)
    modifies node, node.utxoSet
    ensures Plain(node) && node.Mem() == old(node.Mem()) && HashOf(DEEP) !in node.store.index && node.chain == chain
  {
    hide HashOf;
    hide BlockOf;
    hide ScenarioRules;
    hide AllBlocks;
    hide StateOk;
    hide OrphansOk;
    hide RecordsOk;
    hide DepthOk;
    hide Switchable;
    hide DepthVia;
    hide OnMain;
    hide Inverse;
    hide Verdict;
    hide Exact;
    LeavesSwitchable(node, chain, tip, DEEP);
    DeepIsInvalid(chain[..Height(DEEP)] + [BlockOf(DEEP)]);
    ghost var s0 := node.Snap();
    var outcome, commits;
    ghost var why, settled;
    outcome, commits, why, settled := Submit(node, DEEP);
    RefusedBlock(s0, DEEP, why, outcome, settled, node.Snap());
  }

  // ---------- Putting it together ----------

  /** A node with the long chain up to height 1002. */
  method LongNode() returns (node: Chain)
    ensures fresh(node) && fresh(node.utxoSet)
    ensures Stage(node, LongChain(1002), LongId(1002)) && node.reorgHistory == [] && OnlyLong(node.heightByHash, 1002)
  {
    hide HashOf;
    hide BlockOf;
    hide ScenarioRules;
    hide AllBlocks;
    hide LongChain;
    hide StateOk;
    hide OrphansOk;
    hide RecordsOk;
    hide World;
    hide Timed;
    hide OnlyLong;
    ScenarioWorld();
    node := FirstStart(ScenarioRules(), AllBlocks());
    FirstLong(node);
    var k := 0;
    while k < 1002
      invariant 0 <= k <= 1002 && fresh(node) && fresh(node.utxoSet)
      invariant Stage(node, LongChain(k), LongId(k)) && node.reorgHistory == [] && OnlyLong(node.heightByHash, k)
    {
      Lengthen(node, k);
      k := k + 1;
    }
  }

  lemma FirstLong(node: Chain)
    requires Plain(node) && node.chain == [node.r.params.genesis] && node.tipHash == GenesisHash(node.r)
    requires node.heightByHash.Keys == {GenesisHash(node.r)}
    ensures Stage(node, LongChain(0), LongId(0)) && OnlyLong(node.heightByHash, 0)
  {
    hide HashOf;
    hide BlockOf;
    hide ScenarioRules;
    hide AllBlocks;
    hide StateOk;
    hide OrphansOk;
    hide RecordsOk;
    Names(0);
    StageOf(node, LongChain(0), 0);
    AllHashesDiffer();
  }

  /** The limits allow the three switches one after the other. */
  lemma DepthsAllowed()
    ensures var p := ScenarioRules().params;
      && DepthOk(p, [], 1, NOW) && KeptHistory(p, [], 1, NOW) == []
      && var one := [ReorgRecord(1002, 1, NOW)];
      && DepthOk(p, one, 3, NOW) && KeptHistory(p, one, 3, NOW) == one
      && DepthOk(p, one + [ReorgRecord(1000, 3, NOW)], 1000, NOW)
  {
    hide ScenarioRules;
    SmallRules();
    var one := [ReorgRecord(1002, 1, NOW)];
    var two := one + [ReorgRecord(1000, 3, NOW)];
    var cutoff := NOW - DAY;
    assert RecentDepth(one, 0, cutoff) == 0 && RecentDepth(one, 1, cutoff) == 1;
    assert Recent(one, 0, cutoff) == [] && Recent(one, 1, cutoff) == one;
    assert RecentDepth(two, 0, cutoff) == 0 && RecentDepth(two, 1, cutoff) == 1 && RecentDepth(two, 2, cutoff) == 4;
  }

  /** The long chain with the deep block and its child beside it. */
  method DeepNode() returns (node: Chain)
    ensures fresh(node) && fresh(node.utxoSet)
    ensures Stage(node, LongChain(1002), LongId(1002)) && node.reorgHistory == []
    ensures HashOf(DEEP_CHILD) in node.heightByHash
    ensures HashOf(SIDE) !in node.heightByHash && HashOf(LOWER) !in node.heightByHash
  {
    hide HashOf;
    hide BlockOf;
    hide ScenarioRules;
    hide AllBlocks;
    hide LongChain;
    hide StateOk;
    hide OrphansOk;
    hide RecordsOk;
    hide StoredWalk;
    hide OnMain;
    node := LongNode();
    LongChainAt(1002, 0);
    LongChainAt(1002, 1);
    MainIs(node, 0, 0);
    MainWalk(node, 0);
    AllHashesDiffer();
    KeepAside(node, DEEP);
    DeepWalk(node);
    KeepAside(node, DEEP_CHILD);
  }

  lemma MainWalk(node: Chain, id: Id)
    requires Plain(node) && OnMain(node.Mem(), HashOf(id))
    ensures HashOf(id) in node.known && node.WalkStored(HashOf(id))
  {
    hide HashOf;
    hide ScenarioRules;
    hide AllBlocks;
    hide Replay;
    hide ValidChain;
    hide MainOk;
    hide RecordsOk;
    hide OrphansOk;
  }

  /** A switch one block below the tip prunes the height entry of the deep block and keeps
      that of its child. */
  method SideNode() returns (node: Chain)
    ensures fresh(node) && fresh(node.utxoSet)
    ensures Stage(node, LongChain(1001) + [BlockOf(SIDE)], SIDE) && node.reorgHistory == [ReorgRecord(1002, 1, NOW)]
    ensures HashOf(DEEP_CHILD) in node.heightByHash && HashOf(DEEP) !in node.heightByHash
    ensures HashOf(LOWER) !in node.heightByHash
  {
    hide HashOf;
    hide BlockOf;
    hide ScenarioRules;
    hide AllBlocks;
    hide LongChain;
    hide StateOk;
    hide OrphansOk;
    hide RecordsOk;
    hide OnMain;
    hide DepthOk;
    hide KeptHistory;
    hide EntriesMoved;
    DepthsAllowed();
    node := DeepNode();
    LongChainAt(1002, 1001);
    LongChainAt(1002, 2);
    NotOnMain(node, DEEP_CHILD, LongId(2));
    ghost var m0 := node.Mem();
    SwitchOver(node, SIDE, LongChain(1002), LongId(1002));
    LongChainAt(1001, 1);
    ChildStays(node, m0, SIDE);
    NoNewEntry(m0, SIDE, node.Mem(), LOWER);
    DeepIsPruned(node, m0);
  }

  /** A second switch, to a lower tip, brings the deep block within the depth limit. */
  method LowerNode() returns (node: Chain)
    ensures fresh(node) && fresh(node.utxoSet)
    ensures Stage(node, LongChain(999) + [BlockOf(LOWER)], LOWER)
    ensures node.reorgHistory == [ReorgRecord(1002, 1, NOW)] + [ReorgRecord(1000, 3, NOW)]
    ensures HashOf(DEEP_CHILD) in node.heightByHash && HashOf(DEEP) !in node.heightByHash
  {
    hide HashOf;
    hide BlockOf;
    hide ScenarioRules;
    hide AllBlocks;
    hide LongChain;
    hide StateOk;
    hide OrphansOk;
    hide RecordsOk;
    hide OnMain;
    hide DepthOk;
    hide KeptHistory;
    hide EntriesMoved;
    DepthsAllowed();
    node := SideNode();
    LongChainAt(1001, 999);
    LongChainAt(1001, 2);
    NotOnMain(node, DEEP_CHILD, LongId(2));
    ghost var m0 := node.Mem();
    ghost var chain := LongChain(1001) + [BlockOf(SIDE)];
    assert chain[..1000] == LongChain(1001)[..1000];
    SwitchOver(node, LOWER, chain, SIDE);
    ChildStays(node, m0, LOWER);
    NoNewEntry(m0, LOWER, node.Mem(), DEEP);
  }

  lemma ChildStays(node: Chain, m0: Memory, id: Id)
    requires EntriesMoved(m0, id, node.Mem()) && Height(id) <= 1002 && id != DEEP_CHILD
    requires HashOf(DEEP_CHILD) in m0.heightByHash && m0.heightByHash[HashOf(DEEP_CHILD)] == 2
    requires !OnMain(m0, HashOf(DEEP_CHILD))
    ensures HashOf(DEEP_CHILD) in node.heightByHash
  {
    hide HashOf;
    HashesDiffer(id, DEEP_CHILD);
  }

  lemma NoNewEntry(m0: Memory, id: Id, m: Memory, other: Id)
    requires EntriesMoved(m0, id, m) && HashOf(other) !in m0.heightByHash && other != id
    ensures HashOf(other) !in m.heightByHash
  {
    hide HashOf;
    HashesDiffer(id, other);
  }

  lemma DeepIsPruned(node: Chain, m0: Memory)
    requires Plain(node) && EntriesMoved(m0, SIDE, node.Mem()) && |node.chain| > 1
    requires node.chain[1] == BlockOf(LongId(1))
    ensures HashOf(DEEP) !in node.heightByHash
  {
    hide HashOf;
    hide BlockOf;
    hide ScenarioRules;
    hide AllBlocks;
    hide StateOk;
    hide OrphansOk;
    hide RecordsOk;
    hide OnMain;
    if HashOf(DEEP) in node.heightByHash {
      NotOnMain(node, DEEP, LongId(1));
    }
  }

  /** From an empty store, through blocks handed to the node one at a time, to a state in
      which a block has a height entry but its parent's header is not stored. */
  method BreakWalk() returns (node: Chain, h: Hash)
    ensures node.Ready() && node.r.params.maxReorgDepth == 1000
    ensures h in node.heightByHash && h in node.known && !node.WalkStored(h)
  {
    hide HashOf;
    hide BlockOf;
    hide ScenarioRules;
    hide AllBlocks;
    hide LongChain;
    hide StateOk;
    hide OrphansOk;
    hide RecordsOk;
    hide OnMain;
    hide DepthOk;
    hide StoredWalk;
    SmallRules();
    DepthsAllowed();
    AllHashesDiffer();
    node := LowerNode();
    LongChainAt(999, 0);
    LongChainAt(999, 1);
    LongChainAt(999, 2);
    Refuse(node, LongChain(999) + [BlockOf(LOWER)], LOWER);
    h := HashOf(DEEP_CHILD);
    NoWalk(node);
  }

  lemma NoWalk(node: Chain)
    requires Plain(node) && HashOf(DEEP_CHILD) in node.heightByHash && HashOf(DEEP) !in node.heightByHash
    requires HashOf(DEEP) !in node.store.index && |node.chain| > 2 && node.chain[2] == BlockOf(LongId(2))
    ensures HashOf(DEEP_CHILD) in node.known && !node.WalkStored(HashOf(DEEP_CHILD))
  {
    hide HashOf;
    hide BlockOf;
    hide ScenarioRules;
    hide AllBlocks;
    hide Replay;
    hide ValidChain;
    hide MainOk;
    hide RecordsOk;
    hide OrphansOk;
    hide StoredWalk;
    hide TreeOk;
    NotOnMain(node, DEEP_CHILD, LongId(2));
    KnownIs(node.known, DEEP_CHILD);
    HeaderPrev(DEEP_CHILD);
    WalkStep(node.r, node.seen, node.known, node.store.index, node.Mem(), HashOf(DEEP_CHILD));
    KnownIs(node.known, DEEP);
    WalkStep(node.r, node.seen, node.known, node.store.index, node.Mem(), HashOf(DEEP));
  }
}
