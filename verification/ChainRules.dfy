/** The values the chain manager works with, and facts about its steps that do not depend
    on the object that holds its state (internal/chain/chain.go). */
module ChainRules {
  import opened Types
  import opened Utxo
  import opened TxValidation
  import opened BlockValidation
  import opened MedianTime
  import opened Ledger
  import opened ChainState
  import opened AncestorLookup
  import opened Reorg
  import opened Closure
  import opened HeaderRules
  import opened Commits
  import Target

  /** Which of the disk writes of the extension path fail. */
  datatype Faults = Faults(block: bool, undo: bool, index: bool, utxo: bool)

  datatype Orphan = Orphan(block: Block, addedAt: int)

  const MAX_ORPHAN_BLOCKS: nat := 100
  const ORPHAN_EXPIRY: int := 20 * 60
  const PRUNE_DEPTH: nat := 1000

  /** How processBlock ends: the block is on the main chain, stored off it, parked
      until its parent arrives, or refused. */
  datatype Outcome = Accepted | SideChain | Parked | Refused

  datatype ReorgRecord = ReorgRecord(height: nat, depth: nat, timestamp: int)

  datatype ReorgResult = Switch | TooDeep | Invalid

  const DAY: int := 24 * 60 * 60

  /** The depths of the reorganisations after the cutoff, summed in 32 bits. */
  function RecentDepth(history: seq<ReorgRecord>, n: nat, cutoff: int): nat
    requires n <= |history|
  {
    if n == 0 then 0
    else
      var d := RecentDepth(history, n - 1, cutoff);
      if history[n - 1].timestamp > cutoff then (d + history[n - 1].depth) % TWO32 else d
  }

  /** The reorganisations after the cutoff. */
  function Recent(history: seq<ReorgRecord>, n: nat, cutoff: int): seq<ReorgRecord>
    requires n <= |history|
  {
    if n == 0 then []
    else Recent(history, n - 1, cutoff) + (if history[n - 1].timestamp > cutoff then [history[n - 1]] else [])
  }

  /** What the depth check leaves of the history. */
  function KeptHistory(p: ChainParams, history: seq<ReorgRecord>, depth: nat, now: int): seq<ReorgRecord> {
    if 0 < p.maxReorgDepth && depth <= p.maxReorgDepth then Recent(history, |history|, now - DAY) else history
  }

  /** The depth limits: per reorganisation, and cumulative over a day. */
  predicate DepthOk(p: ChainParams, history: seq<ReorgRecord>, depth: nat, now: int) {
    p.maxReorgDepth == 0 ||
    (&& depth <= p.maxReorgDepth
     && (RecentDepth(history, |history|, now - DAY) + depth) % TWO32 <= (p.maxReorgDepth * 3) % TWO32)
  }

  const NO_FAULTS: Faults := Faults(false, false, false, false)

  /** The index record of a block that was connected to the end of `chain`. */
  ghost function ConnectedRec(r: Rules, chain: seq<Block>, block: Block, height: nat, work: nat): IndexRec {
    IndexRec(block, height, work, Some(UndoFor(r, chain + [block], |chain|)))
  }

  /** The index with the record of the genesis block. */
  function WithGenesis(r: Rules, index: map<Hash, IndexRec>): map<Hash, IndexRec> {
    index[GenesisHash(r) := IndexRec(r.params.genesis, 0, r.weight(r.params.genesis.header), None)]
  }

  /** The stores after the index record, the chainstate batch and the tip record of a
      connected block are written, one after the other. */
  ghost predicate ThreeWrites(store0: Store, trace: seq<Store>, utxos: Utxos, blockHash: Hash, rec: IndexRec) {
    && |trace| == 3
    && trace[0] == store0.(index := store0.index[blockHash := rec])
    && trace[1] == trace[0].(chainstate := utxos, bestBlock := Some(blockHash))
    && trace[2] == trace[1].(tip := Some((blockHash, rec.height)))
  }

  /** The state of the node between two blocks, without the waiting ones. */
  datatype Snapshot = Snapshot(known: Tree, store: Store, m: Memory, chain: seq<Block>, history: seq<ReorgRecord>)

  /** What an outcome was decided by: the ancestors the header was judged on, the tree
      with the block in it, the branch a reorganisation looked at, and the stores its
      writes left behind. */
  datatype Why = Why(anc: Ancestors, tree: Tree, fork: nat, branch: seq<Hash>, commits: CommitTrace)

  /** How a reorganisation to h ends, `index` being the records with h stored: it is too
      deep exactly when the depth limits forbid it, and takes place exactly when they
      allow it and the chain it leads to is valid. */
  ghost predicate Judged(r: Rules, index: map<Hash, IndexRec>, m: Memory, chain: seq<Block>, history: seq<ReorgRecord>,
                         now: int, h: Hash, why: Why, outcome: Outcome) {
    && BranchOk(why.tree, index, m, why.fork, why.branch) && why.fork < |chain|
    && |why.branch| > 0 && why.branch[|why.branch| - 1] == h
    && var c := Switched(chain, why.fork, BranchBlocks(index, why.branch));
    && var deep := !DepthOk(r.params, history, m.tipHeight - why.fork, now);
    && Dropped(chain, c) == m.tipHeight - why.fork
    && (outcome.SideChain? <==> deep)
    && (outcome.Accepted? <==> !deep && ValidChain(r, c))
  }

  /** How a block ends that passed the checks common to all blocks: a child of the tip is
      accepted exactly when it is valid on the chain and no write fails; off the tip it is
      refused if it cannot be written, and a side block without more work than the tip;
      otherwise the reorganisation decides, and where the branch is not stored down to the
      main chain the block is refused. */
  ghost predicate Verdict(r: Rules, seen: set<Block>, s: Snapshot, block: Block, node: Node, now: int, faults: Faults,
                          why: Why, outcome: Outcome) {
    var h, prev, index := r.blockHash(block.header), block.header.prevBlock, s.store.index;
    && !outcome.Parked?
    && (if prev == s.m.tipHash then
          && |s.chain| > 0 && !outcome.SideChain?
          && (outcome.Accepted? <==> BlockOk(r, s.chain, block) && faults == NO_FAULTS)
        else if faults.block || faults.index then outcome.Refused?
        else if node.work <= s.m.tipWork then outcome.SideChain?
        else
          && TreeOk(r, seen, s.known) && prev in s.known && why.tree == s.known[h := node]
          && (if StoredWalk(r, seen, s.known, index, s.m, prev)
              then Judged(r, index[h := IndexRec(block, node.height, node.work, None)], s.m, s.chain, s.history, now, h,
                          why, outcome)
              else outcome.Refused? && why.branch == []))
  }

  /** How many blocks of chain c are not on chain c': those from the first difference on. */
  ghost function Dropped(c: seq<Block>, c': seq<Block>): nat {
    if |c| == 0 || |c'| == 0 || c[0] != c'[0] then |c| else Dropped(c[1..], c'[1..])
  }

  lemma {:induction false} DroppedAfter(common: seq<Block>, xs: seq<Block>, ys: seq<Block>)
    requires |xs| > 0 && |ys| > 0 ==> xs[0] != ys[0]
    ensures Dropped(common + xs, common + ys) == |xs|
    decreases |common|
  {
    if |common| == 0 {
      assert common + xs == xs && common + ys == ys;
    } else {
      assert (common + xs)[1..] == common[1..] + xs && (common + ys)[1..] == common[1..] + ys;
      DroppedAfter(common[1..], xs, ys);
    }
  }

  /** The branch parts from the main chain right above the fork. */
  lemma {:induction false} BranchParts(r: Rules, seen: set<Block>, known: Tree, index: map<Hash, IndexRec>, m: Memory,
                                       chain: seq<Block>, fork: nat, branch: seq<Hash>)
    requires IndexOk(r, seen, known, index) && MainOk(r, known, index, m, chain) && TreeOk(r, seen, known)
    requires BranchOk(known, index, m, fork, branch)
    ensures fork < |chain| == m.tipHeight + 1
    ensures fork < m.tipHeight && |branch| > 0 ==> chain[fork + 1] != index[branch[0]].block
  {
    hide UndoFor;
    hide BranchStep;
    if fork < m.tipHeight && |branch| > 0 {
      var h := m.hashByHeight[fork + 1];
      assert MainEntry(r, known, index, m.heightByHash, h, fork + 1, chain);
      assert RecOk(r, seen, known, branch[0], index[branch[0]]) && RecOk(r, seen, known, h, index[h]);
      assert NodeOk(r, seen, known, branch[0]) && NodeOk(r, seen, known, h);
    }
  }

  /** A switch drops exactly the blocks above the fork. */
  lemma {:induction false} SwitchDrops(r: Rules, seen: set<Block>, known: Tree, index: map<Hash, IndexRec>, m: Memory,
                                       chain: seq<Block>, utxos: Utxos, fork: nat, branch: seq<Hash>)
    requires StateOk(r, seen, known, index, m, chain, utxos) && BranchOk(known, index, m, fork, branch)
    ensures fork < |chain|
    ensures Dropped(chain, Switched(chain, fork, BranchBlocks(index, branch))) == m.tipHeight - fork
  {
    hide Replay;
    hide ValidChain;
    hide IndexOk;
    hide TreeOk;
    hide MainOk;
    hide World;
    hide HeightsOk;
    hide BranchStep;
    hide OnMain;
    hide Dropped;
    BranchParts(r, seen, known, index, m, chain, fork, branch);
    assert chain == chain[..fork + 1] + chain[fork + 1..];
    DroppedAfter(chain[..fork + 1], chain[fork + 1..], BranchBlocks(index, branch));
  }

  lemma InvalidBlockInvalidChain(r: Rules, c: seq<Block>, n: nat)
    requires 0 < n < |c| && !BlockOk(r, c[..n], c[n])
    ensures !ValidChain(r, c)
  {
    hide BlockOk;
    if ValidChain(r, c) {
      ValidPrefix(r, c, n + 1);
      assert c[..n + 1] == c[..n] + [c[n]];
      ValidLast(r, c[..n], c[n]);
    }
  }

  /** Disconnecting the main-chain block at height h steps the replay back. */
  lemma {:induction false} MainStep(r: Rules, seen: set<Block>, known: Tree, index: map<Hash, IndexRec>, m: Memory,
                                    chain: seq<Block>, utxos: Utxos, h: nat)
    requires StateOk(r, seen, known, index, m, chain, utxos) && 0 < h <= m.tipHeight
    ensures |chain| == m.tipHeight + 1 && h in m.hashByHeight && m.hashByHeight[h] in index
    ensures var rec := index[m.hashByHeight[h]];
      && rec.block == chain[h] && rec.undo == Some(UndoFor(r, chain, h))
      && Disconnect(r, Replay(r, chain[..h + 1]), chain[h].txs, UndoFor(r, chain, h)) == Replay(r, chain[..h])
    ensures h - 1 in m.hashByHeight && chain[h].header.prevBlock == m.hashByHeight[h - 1]
  {
    hide Replay;
    hide ValidChain;
    hide UndoFor;
    hide World;
    assert MainEntry(r, known, index, m.heightByHash, m.hashByHeight[h], h, chain);
    assert LinkedAt(chain, m.hashByHeight, h);
    MainPath(r, seen, known, index, m, chain);
    ConnectStep(r, seen, chain, h);
  }

  /** Each orphan is stored under its hash; one that has a height entry is on the main chain. */
  ghost predicate OrphansOk(r: Rules, seen: set<Block>, m: Memory, orphans: map<Hash, Orphan>) {
    forall h :: h in orphans ==>
      && orphans[h].block in seen && r.blockHash(orphans[h].block.header) == h && h != GenesisHash(r)
      && (h in m.heightByHash ==> OnMain(m, h))
  }

  /** The orphans whose parent is `parent`. */
  ghost function Children(orphans: map<Hash, Orphan>, parent: Hash): set<Hash> {
    set h | h in orphans && orphans[h].block.header.prevBlock == parent
  }

  /** No orphan waiting for a block of the queue has a height entry. */
  ghost predicate Apart(queue: seq<Hash>, orphans: map<Hash, Orphan>, heights: map<Hash, nat>) {
    forall a :: a in orphans && orphans[a].block.header.prevBlock in queue ==> a !in heights
  }

  /** The children were taken out of the pool and are new to the node. */
  ghost predicate Removed(r: Rules, seen: set<Block>, pending: map<Hash, Orphan>, children: set<Hash>,
                          orphans: map<Hash, Orphan>, heights: map<Hash, nat>) {
    forall h :: h in children ==>
      && h in pending && pending[h].block in seen && r.blockHash(pending[h].block.header) == h
      && h !in orphans && h !in heights
  }

  lemma {:induction false} TakeChildren(r: Rules, seen: set<Block>, m: Memory, orphans: map<Hash, Orphan>,
                                        queue: seq<Hash>, children: set<Hash>)
    requires OrphansOk(r, seen, m, orphans) && |queue| > 0 && Apart(queue, orphans, m.heightByHash)
    requires children == Children(orphans, queue[0])
    ensures OrphansOk(r, seen, m, orphans - children) && Apart(queue[1..], orphans - children, m.heightByHash)
    ensures Removed(r, seen, orphans, children, orphans - children, m.heightByHash)
    ensures |orphans - children| == |orphans| - |children|
  {
    var left := orphans - children;
    assert left.Keys == orphans.Keys - children;
    assert children <= orphans.Keys;
    forall h | h in children ensures h !in m.heightByHash {
      assert orphans[h].block.header.prevBlock in queue;
    }
    forall a | a in left && left[a].block.header.prevBlock in queue[1..] ensures a !in m.heightByHash {
      assert orphans[a].block.header.prevBlock in queue;
    }
  }

  /** The parent of an orphan with a height entry is on the main chain, below the tip. */
  lemma {:induction false} OrphanParent(r: Rules, seen: set<Block>, known: Tree, index: map<Hash, IndexRec>, m: Memory,
                                        chain: seq<Block>, utxos: Utxos, orphans: map<Hash, Orphan>, a: Hash)
    requires StateOk(r, seen, known, index, m, chain, utxos) && OrphansOk(r, seen, m, orphans) && a in orphans
    ensures a in m.heightByHash ==>
      OnMain(m, orphans[a].block.header.prevBlock) && orphans[a].block.header.prevBlock != m.tipHash
  {
    hide Replay;
    hide ValidChain;
    hide UndoFor;
    if a in m.heightByHash {
      var i := m.heightByHash[a];
      assert MainEntry(r, known, index, m.heightByHash, m.hashByHeight[i], i, chain);
      assert RecOk(r, seen, known, a, index[a]);
      assert NodeOk(r, seen, known, a);
      assert chain[i].header == orphans[a].block.header;
      assert LinkedAt(chain, m.hashByHeight, i);
      assert MainEntry(r, known, index, m.heightByHash, m.hashByHeight[i - 1], i - 1, chain);
    }
  }

  /** Taking out the children of one block leaves none of it, and adds none elsewhere. */
  lemma ChildrenTaken(orphans: map<Hash, Orphan>, parent: Hash, other: Hash)
    ensures Children(orphans - Children(orphans, parent), parent) == {}
    ensures Children(orphans, other) == {} ==> Children(orphans - Children(orphans, parent), other) == {}
  {
  }

  lemma ApartAppend(queue: seq<Hash>, h: Hash, orphans: map<Hash, Orphan>, heights: map<Hash, nat>)
    requires Apart(queue, orphans, heights) && Apart([h], orphans, heights)
    ensures Apart(queue + [h], orphans, heights)
  {
    assert forall x :: x in queue + [h] ==> x in queue || x in [h];
  }

  lemma TakeOne(r: Rules, seen: set<Block>, pending: map<Hash, Orphan>, children: set<Hash>,
                orphans: map<Hash, Orphan>, heights: map<Hash, nat>, h: Hash)
    requires Removed(r, seen, pending, children, orphans, heights) && h in children
    ensures h in pending && pending[h].block in seen && r.blockHash(pending[h].block.header) == h
    ensures h !in orphans && h !in heights
  {
  }

  lemma StaysRemoved(r: Rules, seen: set<Block>, pending: map<Hash, Orphan>, children: set<Hash>,
                     orphans: map<Hash, Orphan>, heights: map<Hash, nat>, heights': map<Hash, nat>, h: Hash)
    requires Removed(r, seen, pending, children, orphans, heights)
    requires forall x :: x in heights' ==> x in heights || x == h
    ensures Removed(r, seen, pending, children - {h}, orphans, heights')
  {
  }

  lemma StaysApart(queue: seq<Hash>, orphans: map<Hash, Orphan>, heights: map<Hash, nat>, heights': map<Hash, nat>,
                   h: Hash)
    requires Apart(queue, orphans, heights) && h !in orphans
    requires forall x :: x in heights' ==> x in heights || x == h
    ensures Apart(queue, orphans, heights')
  {
  }

  lemma GenesisHasHeight(r: Rules, seen: set<Block>, known: Tree, index: map<Hash, IndexRec>, m: Memory,
                         chain: seq<Block>, utxos: Utxos)
    requires StateOk(r, seen, known, index, m, chain, utxos)
    ensures GenesisHash(r) in m.heightByHash
  {
    hide Replay;
    hide ValidChain;
    TipEntry(r, known, index, m, chain);
  }

  lemma {:induction false} HeightOffMain(r: Rules, seen: set<Block>, known: Tree, index: map<Hash, IndexRec>, m: Memory,
                                         chain: seq<Block>, utxos: Utxos, h: Hash, height: nat)
    requires StateOk(r, seen, known, index, m, chain, utxos) && h !in m.heightByHash && h in known
    requires known[h].height == height
    ensures StateOk(r, seen, known, index, m.(heightByHash := m.heightByHash[h := height]), chain, utxos)
  {
    hide Replay;
    hide ValidChain;
    hide MainOk;
    hide TreeOk;
    hide World;
    hide IndexOk;
    OffMainUpdate(r, seen, known, index, m, chain, utxos, known, index,
                  m.(heightByHash := m.heightByHash[h := height]));
  }

  lemma {:induction false} PruneKeeps(r: Rules, seen: set<Block>, known: Tree, index: map<Hash, IndexRec>, m: Memory,
                                      chain: seq<Block>, utxos: Utxos, m': Memory)
    requires StateOk(r, seen, known, index, m, chain, utxos) && m' == m.(heightByHash := m'.heightByHash)
    requires forall h :: h in m'.heightByHash ==> h in m.heightByHash && m'.heightByHash[h] == m.heightByHash[h]
    requires forall h :: OnMain(m, h) ==> h in m'.heightByHash
    ensures StateOk(r, seen, known, index, m', chain, utxos)
  {
    hide Replay;
    hide ValidChain;
    hide MainOk;
    hide TreeOk;
    hide World;
    hide IndexOk;
    OffMainUpdate(r, seen, known, index, m, chain, utxos, known, index, m');
  }

  /** The orphans within the expiry time. */
  ghost function Unexpired(orphans: map<Hash, Orphan>, now: int): map<Hash, Orphan> {
    map h | h in orphans && now - orphans[h].addedAt <= ORPHAN_EXPIRY :: orphans[h]
  }

  /** The expired orphans are gone, and one of the oldest if the pool was still full. */
  ghost predicate RoomMade(orphans: map<Hash, Orphan>, now: int, kept: map<Hash, Orphan>) {
    var young := Unexpired(orphans, now);
    if |young| < MAX_ORPHAN_BLOCKS then kept == young
    else exists h :: Oldest(young, h) && kept == young - {h}
  }

  ghost predicate Oldest(orphans: map<Hash, Orphan>, h: Hash) {
    h in orphans && forall o :: o in orphans ==> orphans[h].addedAt <= orphans[o].addedAt
  }

  lemma OrphanParked(r: Rules, seen: set<Block>, m: Memory, orphans: map<Hash, Orphan>, h: Hash, o: Orphan)
    requires OrphansOk(r, seen, m, orphans) && o.block in seen && r.blockHash(o.block.header) == h
    requires h !in m.heightByHash && GenesisHash(r) in m.heightByHash
    ensures OrphansOk(r, seen, m, orphans[h := o])
  {
  }

  lemma SideOrphans(r: Rules, seen: set<Block>, m: Memory, h: Hash, height: nat, orphans: map<Hash, Orphan>)
    requires OrphansOk(r, seen, m, orphans) && h !in orphans && h !in m.heightByHash
    ensures OrphansOk(r, seen, m.(heightByHash := m.heightByHash[h := height]), orphans)
  {
  }

  lemma ExtendedOrphans(r: Rules, seen: set<Block>, m: Memory, h: Hash, work: nat, orphans: map<Hash, Orphan>)
    requires OrphansOk(r, seen, m, orphans) && h !in orphans && m.tipHeight + 1 !in m.hashByHeight
    ensures OrphansOk(r, seen, Extended(m, h, work), orphans)
  {
  }

  lemma SwitchedOrphans(r: Rules, seen: set<Block>, m: Memory, m': Memory, orphans: map<Hash, Orphan>)
    requires OrphansOk(r, seen, m, orphans) && OrphansStayOrphans(m, m')
    ensures OrphansOk(r, seen, m', orphans)
  {
    hide OnMain;
  }

  lemma {:induction false} StillOffMain(r: Rules, seen: set<Block>, known: Tree, index: map<Hash, IndexRec>, m0: Memory,
                                        m: Memory, chain: seq<Block>, utxos: Utxos, h: Hash)
    requires StateOk(r, seen, known, index, m, chain, utxos)
    requires h !in m0.heightByHash && m == m0.(heightByHash := m.heightByHash)
    requires forall i :: i in m0.hashByHeight ==> m0.hashByHeight[i] in m0.heightByHash
    ensures !OnMain(m, h)
  {
  }

  /** Every height entry that is new, or was on the old main chain, is on the new one. */
  ghost predicate OrphansStayOrphans(m: Memory, m': Memory) {
    forall x :: x in m'.heightByHash && (x in m.heightByHash ==> OnMain(m, x)) ==> OnMain(m', x)
  }

  lemma BranchShape(known: Tree, index: map<Hash, IndexRec>, m: Memory, fork: nat, branch: seq<Hash>)
    requires BranchOk(known, index, m, fork, branch)
    ensures fork <= m.tipHeight && forall k :: 0 <= k < |branch| ==>
      branch[k] in index && branch[k] in known && known[branch[k]].height == fork + 1 + k
  {
  }

  lemma {:induction false} BranchCommits(r: Rules, seen: set<Block>, known: Tree, index: map<Hash, IndexRec>, m: Memory,
                                         chain: seq<Block>, utxos: Utxos, fork: nat, branch: seq<Hash>, k: nat)
    requires StateOk(r, seen, known, index, m, chain, utxos) && BranchOk(known, index, m, fork, branch)
    requires fork < |chain| && k < |branch|
    requires ValidChain(r, Switched(chain, fork, BranchBlocks(index, branch)))
    ensures var c := Switched(chain, fork, BranchBlocks(index, branch));
      c[fork + 1 + k] == index[branch[k]].block && ConnectsAt(r, c, fork + 1 + k)
  {
    hide Replay;
    hide MainOk;
    hide ValidChain;
    hide TreeOk;
    hide World;
    hide IndexOk;
    hide HeightsOk;
    hide ConnectsAt;
    hide OnMain;
    hide BranchStep;
    var c := Switched(chain, fork, BranchBlocks(index, branch));
    SwitchedPath(r, seen, known, index, m, chain, fork, branch, k);
    ValidPrefix(r, c, fork + 2 + k);
    ConnectsInside(r, seen, c, fork + 1 + k);
  }

  /** hashByHeight after the removal is defined exactly up to the new tip. */
  lemma {:induction false} FinalHashes(r: Rules, seen: set<Block>, known: Tree, index0: map<Hash, IndexRec>, m0: Memory,
                                       chain: seq<Block>, utxos: Utxos, fork: nat, branch: seq<Hash>,
                                       index: map<Hash, IndexRec>, heights: map<Hash, nat>, hashes: map<nat, Hash>,
                                       final: map<nat, Hash>)
    requires StateOk(r, seen, known, index0, m0, chain, utxos) && BranchOk(known, index0, m0, fork, branch)
    requires fork < |chain|
    requires Written(r, index0, m0, fork, branch, Switched(chain, fork, BranchBlocks(index0, branch)), |branch|, index,
                     heights, hashes)
    requires forall i :: fork < i <= m0.tipHeight ==> i in m0.hashByHeight
    requires forall i :: i in final <==> i in hashes && !(fork < i <= m0.tipHeight && hashes[i] == m0.hashByHeight[i])
    ensures forall i :: i in final <==> 0 <= i <= fork + |branch|
  {
    hide Replay;
    hide ValidChain;
    hide UndoWritten;
    hide HeightsWritten;
    hide BranchStep;
    hide MainEntry;
    hide World;
    forall i ensures i in final <==> 0 <= i <= fork + |branch| {
      if fork < i <= m0.tipHeight {
        OldNotInBranch(r, known, index0, m0, chain, fork, branch, i);
      }
    }
  }

  lemma {:induction false} OnlyMainGained(m0: Memory, fork: nat, branch: seq<Hash>, heights: map<Hash, nat>,
                                          hashes: map<nat, Hash>, m': Memory)
    requires HeightsWritten(m0.heightByHash, fork, branch, |branch|, heights)
    requires HashesWritten(m0.hashByHeight, fork, branch, |branch|, hashes)
    requires forall i :: i in m0.hashByHeight ==> i <= m0.tipHeight
    requires forall j :: fork < j < m0.tipHeight + 1 ==> j in m0.hashByHeight
    requires m'.heightByHash == heights - OldHashes(m0, fork, m0.tipHeight + 1)
    requires forall i :: i in m'.hashByHeight <==> 0 <= i <= fork + |branch|
    requires forall i :: i in m'.hashByHeight ==> i in hashes && m'.hashByHeight[i] == hashes[i]
    ensures OrphansStayOrphans(m0, m')
  {
    hide OldHashes;
    assert branch[..|branch|] == branch;
    forall x | x in m'.heightByHash && (x in m0.heightByHash ==> OnMain(m0, x)) ensures OnMain(m', x) {
      if x in branch {
        GainedByBranch(m0, fork, branch, heights, hashes, m', x);
      } else {
        OldHashesAre(m0, fork, m0.tipHeight + 1, x);
        assert m0.heightByHash[x] <= fork;
        assert m'.hashByHeight[m0.heightByHash[x]] == x;
      }
    }
  }

  lemma GainedByBranch(m0: Memory, fork: nat, branch: seq<Hash>, heights: map<Hash, nat>, hashes: map<nat, Hash>,
                       m': Memory, x: Hash)
    requires HeightsWritten(m0.heightByHash, fork, branch, |branch|, heights)
    requires HashesWritten(m0.hashByHeight, fork, branch, |branch|, hashes)
    requires forall i :: i in m'.hashByHeight <==> 0 <= i <= fork + |branch|
    requires forall i :: i in m'.hashByHeight ==> i in hashes && m'.hashByHeight[i] == hashes[i]
    requires x in branch && x in m'.heightByHash && x in heights && m'.heightByHash[x] == heights[x]
    ensures OnMain(m', x)
  {
    var j :| 0 <= j < |branch| && branch[j] == x;
    assert m'.hashByHeight[fork + 1 + j] == x;
  }

  /** What phase 2 leaves behind is a consistent state with the switched main chain. */
  lemma {:induction false} CommitState(r: Rules, seen: set<Block>, known: Tree, index0: map<Hash, IndexRec>, m0: Memory,
                                       chain: seq<Block>, utxos: Utxos, fork: nat, branch: seq<Hash>,
                                       index: map<Hash, IndexRec>, heights: map<Hash, nat>, hashes: map<nat, Hash>,
                                       m': Memory)
    requires StateOk(r, seen, known, index0, m0, chain, utxos) && BranchOk(known, index0, m0, fork, branch)
    requires fork < |chain| && |branch| > 0
    requires ValidChain(r, Switched(chain, fork, BranchBlocks(index0, branch)))
    requires Written(r, index0, m0, fork, branch, Switched(chain, fork, BranchBlocks(index0, branch)), |branch|, index,
                     heights, hashes)
    requires forall i :: i in m0.hashByHeight <==> 0 <= i <= m0.tipHeight
    requires m'.heightByHash == heights - OldHashes(m0, fork, m0.tipHeight + 1)
    requires forall i :: i in m'.hashByHeight <==>
      i in hashes && !(fork < i <= m0.tipHeight && hashes[i] == m0.hashByHeight[i])
    requires forall i :: i in m'.hashByHeight ==> m'.hashByHeight[i] == hashes[i]
    requires m'.tipHash == branch[|branch| - 1] && m'.tipHeight == fork + |branch|
    requires m'.tipWork == known[m'.tipHash].work
    ensures var c := Switched(chain, fork, BranchBlocks(index0, branch));
      StateOk(r, seen, known, index, m', c, Replay(r, c))
    ensures OrphansStayOrphans(m0, m') && HeightsMoved(m0, branch, m'.heightByHash)
  {
    hide StateOk;
    hide ValidChain;
    hide Replay;
    hide Written;
    hide HeightsMoved;
    hide HeightsWritten;
    hide HashesWritten;
    hide OrphansStayOrphans;
    hide OldHashes;
    FinalHashes(r, seen, known, index0, m0, chain, utxos, fork, branch, index, heights, hashes, m'.hashByHeight);
    SwitchState(r, seen, known, index0, m0, chain, utxos, fork, branch, index, heights, hashes, m');
    WrittenMaps(r, index0, m0, fork, branch, Switched(chain, fork, BranchBlocks(index0, branch)), index, heights,
                hashes);
    OnlyMainGained(m0, fork, branch, heights, hashes, m');
    SideHeightsStay(r, seen, known, index0, m0, chain, utxos, fork, branch, heights, m'.heightByHash);
  }

  /** What a switch does to the height entries: blocks of the branch gain one, and side
      blocks keep theirs. */
  ghost predicate HeightsMoved(m: Memory, branch: seq<Hash>, heights: map<Hash, nat>) {
    && (forall x :: x in heights ==> x in m.heightByHash || x in branch)
    && (forall x :: x in m.heightByHash && !OnMain(m, x) && x !in branch ==>
          x in heights && heights[x] == m.heightByHash[x])
  }

  lemma {:induction false} SideHeightsStay(r: Rules, seen: set<Block>, known: Tree, index: map<Hash, IndexRec>,
                                           m: Memory, chain: seq<Block>, utxos: Utxos, fork: nat, branch: seq<Hash>,
                                           written: map<Hash, nat>, heights: map<Hash, nat>)
    requires StateOk(r, seen, known, index, m, chain, utxos)
    requires HeightsWritten(m.heightByHash, fork, branch, |branch|, written)
    requires forall j :: fork < j < m.tipHeight + 1 ==> j in m.hashByHeight
    requires heights == written - OldHashes(m, fork, m.tipHeight + 1)
    ensures HeightsMoved(m, branch, heights)
  {
    hide OldHashes;
    hide ValidChain;
    hide Replay;
    hide TreeOk;
    hide IndexOk;
    hide UndoFor;
    assert branch[..|branch|] == branch;
    forall x | x in m.heightByHash && !OnMain(m, x) && x !in branch
      ensures x in heights && heights[x] == m.heightByHash[x]
    {
      OldHashesAre(m, fork, m.tipHeight + 1, x);
      forall j | fork < j < m.tipHeight + 1 ensures m.hashByHeight[j] != x {
        assert MainEntry(r, known, index, m.heightByHash, m.hashByHeight[j], j, chain);
      }
    }
  }

  /** The commit phase changes undo data only, and gives heights to stored blocks only. */
  lemma {:induction false} WrittenRecords(r: Rules, index0: map<Hash, IndexRec>, m0: Memory, fork: nat,
                                          branch: seq<Hash>, c: seq<Block>, index: map<Hash, IndexRec>,
                                          heights: map<Hash, nat>, hashes: map<nat, Hash>)
    requires |c| == fork + 1 + |branch| && forall j :: 0 <= j < |branch| ==> branch[j] in index0
    requires Written(r, index0, m0, fork, branch, c, |branch|, index, heights, hashes)
    ensures SameRecords(index0, index)
    ensures forall x :: x in heights ==> x in m0.heightByHash || x in index
  {
    hide UndoFor;
    assert branch[..|branch|] == branch;
    forall h | h in index0 ensures index[h] == index0[h].(undo := index[h].undo) {
      if h in branch {
        var j :| 0 <= j < |branch| && branch[j] == h;
      }
    }
  }

  lemma WrittenMaps(r: Rules, index0: map<Hash, IndexRec>, m0: Memory, fork: nat, branch: seq<Hash>, c: seq<Block>,
                    index: map<Hash, IndexRec>, heights: map<Hash, nat>, hashes: map<nat, Hash>)
    requires |c| == fork + 1 + |branch| && forall j :: 0 <= j < |branch| ==> branch[j] in index0
    requires Written(r, index0, m0, fork, branch, c, |branch|, index, heights, hashes)
    ensures HeightsWritten(m0.heightByHash, fork, branch, |branch|, heights)
    ensures HashesWritten(m0.hashByHeight, fork, branch, |branch|, hashes)
  {
  }

  lemma {:induction false} ConnectedFacts(r: Rules, seen: set<Block>, known: Tree, index: map<Hash, IndexRec>,
                                          m: Memory, chain: seq<Block>, utxos: Utxos)
    requires StateOk(r, seen, known, index, m, chain, utxos)
    ensures m.tipHash in known && known[m.tipHash].height == m.tipHeight && known[m.tipHash].work == m.tipWork
    ensures |chain| == m.tipHeight + 1 && OnMain(m, m.tipHash)
    ensures (forall i :: i in m.hashByHeight <==> 0 <= i <= m.tipHeight) && m.hashByHeight[m.tipHeight] == m.tipHash
    ensures r.blockHash(chain[m.tipHeight].header) == m.tipHash && utxos == Replay(r, chain)
    ensures forall x :: OnMain(m, x) ==> x in m.heightByHash
    ensures forall i :: i in m.hashByHeight ==> m.hashByHeight[i] in m.heightByHash
  {
    hide Replay;
    hide ValidChain;
    hide UndoFor;
    TipEntry(r, known, index, m, chain);
    assert MainEntry(r, known, index, m.heightByHash, m.hashByHeight[m.tipHeight], m.tipHeight, chain);
    assert NodeOk(r, seen, known, m.tipHash);
    assert RecOk(r, seen, known, m.tipHash, index[m.tipHash]);
  }

  /** A known hash determines its node, so adding a block again changes nothing. */
  lemma {:induction false} GrownNode(r: Rules, seen: set<Block>, known: Tree, index: map<Hash, IndexRec>, m: Memory,
                                     chain: seq<Block>, utxos: Utxos, b: Block)
    requires StateOk(r, seen, known, index, m, chain, utxos) && b in seen && b.header.prevBlock in known
    requires r.blockHash(b.header) !in m.heightByHash
    ensures r.blockHash(b.header) in known ==> known[r.blockHash(b.header)] == ChildNode(r, known, b.header)
    ensures r.blockHash(b.header) in index ==> index[r.blockHash(b.header)].work == ChildNode(r, known, b.header).work
    ensures r.blockHash(b.header) != b.header.prevBlock
  {
    hide Replay;
    hide ValidChain;
    hide MainOk;
    GenesisHasHeight(r, seen, known, index, m, chain, utxos);
    InsertNode(r, seen, known, b);
    if r.blockHash(b.header) in index {
      assert RecOk(r, seen, known, r.blockHash(b.header), index[r.blockHash(b.header)]);
    }
  }

  /** A new block walks down to the main chain exactly if its parent does. */
  lemma {:induction false} WalkOfChild(r: Rules, seen: set<Block>, known: Tree, index: map<Hash, IndexRec>,
                                       known': Tree, rec: IndexRec, m: Memory, header: BlockHeader)
    requires TreeOk(r, seen, known) && TreeOk(r, seen, known') && header.prevBlock in known
    requires Grew(r, known, known', header)
    requires r.blockHash(header) in known' && known'[r.blockHash(header)] == ChildNode(r, known, header)
    requires !OnMain(m, r.blockHash(header))
    ensures StoredWalk(r, seen, known', index[r.blockHash(header) := rec], m, r.blockHash(header))
            <==> StoredWalk(r, seen, known, index, m, header.prevBlock)
  {
    WalkBelow(r, seen, known, index, m, known', r.blockHash(header), rec, header.prevBlock);
  }

  lemma DeepNeedsLimit(p: ChainParams, history: seq<ReorgRecord>, depth: nat, now: int)
    ensures !DepthOk(p, history, depth, now) ==> p.maxReorgDepth != 0
  {
  }

  lemma InsertThenRemove<K, V>(m: map<K, V>, k: K, v: V)
    ensures m[k := v] - {k} == m - {k}
  {
  }

  /** The records after a side block, or a child of the tip, was stored on a parent with
      at most the tip's work. */
  lemma SideRecords(r: Rules, index: map<Hash, IndexRec>, h: Hash, rec: IndexRec, heights: map<Hash, nat>, work: nat,
                    more: nat)
    requires RecordsOk(r, index, heights, work) && (h in index ==> index[h].work == rec.work) && work <= more
    requires rec.block.header.prevBlock in index && rec.block.header.prevBlock != h
    requires index[rec.block.header.prevBlock].work <= work
    ensures RecordsOk(r, index[h := rec], heights, work)
    ensures RecordsOk(r, index[h := rec], heights[h := rec.height], more)
  {
    hide ParentsBelow;
    if r.params.maxReorgDepth == 0 {
      BelowInsert(index, work, h, rec);
      BelowMore(index[h := rec], work, more);
    }
  }

  /** The records after a switch to a block with more work. */
  lemma SwitchedRecords(r: Rules, index: map<Hash, IndexRec>, h: Hash, rec: IndexRec, work: nat,
                        heights: map<Hash, nat>, index': map<Hash, IndexRec>, heights': map<Hash, nat>, newWork: nat)
    requires RecordsOk(r, index, heights, work) && (h in index ==> index[h].work == rec.work)
    requires rec.block.header.prevBlock in index && rec.block.header.prevBlock != h
    requires index[rec.block.header.prevBlock].work <= newWork
    requires work <= newWork && SameRecords(index[h := rec], index')
    requires forall x :: x in heights' ==> x in heights || x == h || x in index'
    ensures RecordsOk(r, index', heights', newWork)
  {
    hide ParentsBelow;
    if r.params.maxReorgDepth == 0 {
      BelowMore(index, work, newWork);
      BelowInsert(index, newWork, h, rec);
      BelowSame(index[h := rec], index', newWork);
    }
  }

  /** The records after a block with more work than the tip was dropped. */
  lemma ForgottenRecords(r: Rules, index: map<Hash, IndexRec>, h: Hash, heights: map<Hash, nat>, work: nat)
    requires RecordsOk(r, index, heights, work) && h !in heights && (h in index ==> index[h].work > work)
    ensures RecordsOk(r, index - {h}, heights, work)
  {
    hide ParentsBelow;
    if r.params.maxReorgDepth == 0 {
      BelowRemove(index, work, h);
    }
  }

  /** With a depth limit only the height entries matter. */
  lemma LimitedRecords(r: Rules, index: map<Hash, IndexRec>, h: Hash, rec: IndexRec, heights: map<Hash, nat>, work: nat)
    requires RecordsOk(r, index, heights, work) && r.params.maxReorgDepth != 0
    ensures RecordsOk(r, index[h := rec], heights[h := rec.height], work)
  {
  }

  /** One try to attach a waiting block: the state before and after, how it ended and by
      what; and whether it was followed up, and whether by a reorganisation. */
  datatype Attempt = Attempt(block: Block, before: Snapshot, why: Why, outcome: Outcome, attached: bool, reorged: bool,
                             after: Snapshot)

  /** The checks common to all blocks, for a block whose header is not trusted. */
  ghost predicate Checks(r: Rules, s: Snapshot, block: Block, now: U32, anc: Ancestors) {
    var prev := block.header.prevBlock;
    && prev in s.m.heightByHash && prev in s.store.index
    && HeaderPasses(r, block.header, s.store.index[prev].block.header, s.m.heightByHash[prev], now, anc)
    && StructureOk(r, block, s.m.heightByHash[prev] + 1)
  }

  /** Off the tip, errors of the index write of a waiting block are ignored; here they are
      taken not to occur. */
  function WaitingFaults(onTip: bool, faults: Faults): Faults {
    if onTip then faults else faults.(index := false)
  }

  /** The chain is valid and the tip's work is its summed work. */
  ghost predicate Weighed(r: Rules, s: Snapshot) {
    ValidChain(r, s.chain) && s.m.tipWork == ChainWork(r, s.chain)
  }

  /** The try went as the rules say: like any other block, except that one too deep to
      switch to is kept without being followed up. */
  ghost predicate Attempted(r: Rules, seen: set<Block>, a: Attempt, now: U32, faults: Faults) {
    var s, prev := a.before, a.block.header.prevBlock;
    && Weighed(r, a.before) && Weighed(r, a.after)
    && (prev !in s.m.heightByHash ==> a.outcome.Refused? && a.after == s)
    && (prev in s.m.heightByHash ==>
          && TreeOk(r, seen, s.known) && prev in s.known
          && (StoredWalk(r, seen, s.known, s.store.index, s.m, prev) <==> WalksLike(r, seen, s.known, prev, a.why.anc))
          && var node, fs := ChildNode(r, s.known, a.block.header), WaitingFaults(prev == s.m.tipHash, faults);
          && (if Checks(r, s, a.block, now, a.why.anc)
              then && Verdict(r, seen, s, a.block, node, now, fs, a.why, a.outcome)
                   && Exact(r, s, a.block, node, now, fs, a.why, a.outcome, a.after)
              else a.outcome.Refused? && a.after == s)
          && (a.attached <==> a.outcome.Accepted? || (a.outcome.SideChain? && node.work <= s.m.tipWork)))
    && (a.attached ==> prev in s.m.heightByHash)
    && (a.reorged <==> a.outcome.Accepted? && prev != s.m.tipHash)
  }

  /** A row of tries that leads from one state to another. */
  ghost predicate Tries(r: Rules, seen: set<Block>, tried: seq<Attempt>, now: U32, faults: Hash -> Faults,
                        first: Snapshot, last: Snapshot) {
    if |tried| == 0 then first == last
    else
      var a := tried[|tried| - 1];
      && a.after == last && Attempted(r, seen, a, now, faults(r.blockHash(a.block.header)))
      && Tries(r, seen, tried[..|tried| - 1], now, faults, first, a.before)
  }

  /** What happened after a block was settled: the tries to attach waiting blocks, and the
      state they led to. */
  datatype Aftermath = Aftermath(settled: Snapshot, tried: seq<Attempt>, done: Snapshot)

  /** Waiting blocks follow an accepted or stored block, and then, if it was accepted, side
      blocks far below the tip lose their height entries. */
  ghost predicate Followed(r: Rules, seen: set<Block>, outcome: Outcome, now: U32, faults: Hash -> Faults,
                           after: Aftermath, s: Snapshot) {
    && Tries(r, seen, after.tried, now, faults, after.settled, after.done)
    && s == if outcome.Accepted? then after.done.(m := AfterPrune(after.done.m)) else after.done
  }

  lemma NothingFollows(r: Rules, seen: set<Block>, now: U32, faults: Hash -> Faults, s: Snapshot)
    ensures Followed(r, seen, Refused, now, faults, Aftermath(s, [], s), s)
  {
  }

  lemma TryMore(r: Rules, seen: set<Block>, tried: seq<Attempt>, now: U32, faults: Hash -> Faults, first: Snapshot,
                a: Attempt)
    requires Tries(r, seen, tried, now, faults, first, a.before)
    requires Attempted(r, seen, a, now, faults(r.blockHash(a.block.header)))
    ensures Tries(r, seen, tried + [a], now, faults, first, a.after)
  {
    hide Attempted;
    assert (tried + [a])[..|tried|] == tried;
  }

  lemma NothingTried(r: Rules, seen: set<Block>, now: U32, faults: Hash -> Faults, s: Snapshot)
    ensures Tries(r, seen, [], now, faults, s, s)
  {
  }

  lemma {:induction false} TryOn(r: Rules, seen: set<Block>, xs: seq<Attempt>, ys: seq<Attempt>, now: U32,
                                 faults: Hash -> Faults, first: Snapshot, mid: Snapshot, last: Snapshot)
    requires Tries(r, seen, xs, now, faults, first, mid) && Tries(r, seen, ys, now, faults, mid, last)
    ensures Tries(r, seen, xs + ys, now, faults, first, last)
    decreases |ys|
  {
    hide Attempted;
    if |ys| == 0 {
      assert xs + ys == xs;
    } else {
      var n := |ys| - 1;
      TryOn(r, seen, xs, ys[..n], now, faults, first, mid, ys[n].before);
      assert (xs + ys)[..|xs| + n] == xs + ys[..n];
    }
  }

  /** The tries are those of the listed waiting blocks, in that order; they end with the
      list, or before it with a reorganisation. */
  ghost predicate TriedInOrder(tried: seq<Attempt>, children: seq<Hash>, pending: map<Hash, Orphan>) {
    && |tried| <= |children|
    && (forall i :: 0 <= i < |tried| ==> children[i] in pending && tried[i].block == pending[children[i]].block)
    && (forall i :: 0 <= i < |tried| - 1 ==> !tried[i].reorged)
    && (|tried| < |children| ==> |tried| > 0 && tried[|tried| - 1].reorged)
  }

  lemma TriedNone(children: seq<Hash>, pending: map<Hash, Orphan>)
    ensures TriedInOrder([], children[..0], pending) && AttachedOf([], children) == []
  {
  }

  lemma InOrderMore(tried: seq<Attempt>, a: Attempt, children: seq<Hash>, pending: map<Hash, Orphan>)
    requires |tried| < |children| && TriedInOrder(tried, children[..|tried|], pending)
    requires |tried| > 0 ==> !tried[|tried| - 1].reorged
    requires children[|tried|] in pending && a.block == pending[children[|tried|]].block
    ensures TriedInOrder(tried + [a], children[..|tried| + 1], pending)
  {
    var n := |tried|;
    assert forall i :: 0 <= i < n ==> children[..n + 1][i] == children[..n][i];
  }

  lemma InOrderEnds(tried: seq<Attempt>, children: seq<Hash>, pending: map<Hash, Orphan>)
    requires |tried| <= |children| && TriedInOrder(tried, children[..|tried|], pending)
    requires |tried| < |children| ==> |tried| > 0 && tried[|tried| - 1].reorged
    ensures TriedInOrder(tried, children, pending)
  {
    assert forall i :: 0 <= i < |tried| ==> children[..|tried|][i] == children[i];
  }

  /** The hashes of the blocks that were attached, in order. */
  ghost function AttachedOf(tried: seq<Attempt>, children: seq<Hash>): seq<Hash>
    requires |tried| <= |children|
  {
    if |tried| == 0 then []
    else
      var n := |tried| - 1;
      AttachedOf(tried[..n], children) + if tried[n].attached then [children[n]] else []
  }

  lemma AttachedMore(tried: seq<Attempt>, a: Attempt, children: seq<Hash>)
    requires |tried| < |children|
    ensures AttachedOf(tried + [a], children)
            == AttachedOf(tried, children) + if a.attached then [children[|tried|]] else []
  {
    assert (tried + [a])[..|tried|] == tried;
  }

  /** The walk of a new block with its height entry. */
  lemma {:induction false} NewWalk(r: Rules, seen: set<Block>, known: Tree, index: map<Hash, IndexRec>, known': Tree,
                                   rec: IndexRec, m: Memory, m': Memory, header: BlockHeader)
    requires TreeOk(r, seen, known) && TreeOk(r, seen, known') && header.prevBlock in known
    requires Grew(r, known, known', header)
    requires r.blockHash(header) in known' && known'[r.blockHash(header)] == ChildNode(r, known, header)
    requires r.blockHash(header) !in m.heightByHash && !OnMain(m', r.blockHash(header))
    requires m' == m.(heightByHash := m'.heightByHash)
    requires m'.heightByHash == m.heightByHash[r.blockHash(header) := known'[r.blockHash(header)].height]
    ensures StoredWalk(r, seen, known', index[r.blockHash(header) := rec], m', r.blockHash(header)) <==>
      StoredWalk(r, seen, known, index, m, header.prevBlock)
  {
    hide TreeOk;
    hide StoredWalk;
    hide Grew;
    var h := r.blockHash(header);
    forall x ensures OnMain(m, x) <==> OnMain(m', x) {
    }
    WalkOfChild(r, seen, known, index, known', rec, m, header);
    WalkSameMain(r, seen, known', index[h := rec], m, m', h);
  }

  /** A walk depends on which blocks are on the main chain only. */
  lemma {:induction false} WalkSameMain(r: Rules, seen: set<Block>, known: Tree, index: map<Hash, IndexRec>, m: Memory,
                                        m': Memory, h: Hash)
    requires TreeOk(r, seen, known) && h in known && forall x :: OnMain(m, x) <==> OnMain(m', x)
    ensures StoredWalk(r, seen, known, index, m, h) <==> StoredWalk(r, seen, known, index, m', h)
    decreases known[h].height
  {
    hide OnMain;
    assert NodeOk(r, seen, known, h);
    if known[h].height > 0 {
      WalkSameMain(r, seen, known, index, m, m', known[h].header.prevBlock);
    }
  }

  /** What settling a block leaves behind: the memory, the store, the chain and the history
      of reorganisations, and which writes a reorganisation made on the way. */
  ghost predicate Exact(r: Rules, s0: Snapshot, block: Block, node: Node, now: int, faults: Faults, why: Why,
                        outcome: Outcome, s: Snapshot) {
    var h, onTip := r.blockHash(block.header), block.header.prevBlock == s0.m.tipHash;
    var index := s0.store.index[h := IndexRec(block, node.height, node.work, None)];
    var connected := s0.store.index[h := ConnectedRec(r, s0.chain, block, node.height, node.work)];
    && (outcome.Accepted? && onTip ==>
          && s.m == Extended(s0.m, h, node.work) && s.history == s0.history && s.chain == s0.chain + [block]
          && s.store.index == connected)
    && (outcome.Accepted? && !onTip ==>
          && BranchOk(why.tree, index, s0.m, why.fork, why.branch) && why.fork < |s0.chain|
          && s.chain == Switched(s0.chain, why.fork, BranchBlocks(index, why.branch))
          && s.m.tipHash == h && s.m.tipHeight == node.height && s.m.tipWork == node.work > s0.m.tipWork
          && SameRecords(index, s.store.index) && HeightsMoved(s0.m, why.branch, s.m.heightByHash)
          && s.history == KeptHistory(r.params, s0.history, s0.m.tipHeight - why.fork, now)
                          + [ReorgRecord(node.height, s0.m.tipHeight - why.fork, now)]
          && CommitWrites(r, s0.store.(index := index), s0.m, s0.chain, why.fork, why.branch, s.chain, why.commits))
    && (outcome.SideChain? ==>
          && s.store == s0.store.(index := index) && s.chain == s0.chain
          && s.m == s0.m.(heightByHash := s0.m.heightByHash[h := node.height])
          && (node.work <= s0.m.tipWork ==> s.history == s0.history)
          && (node.work > s0.m.tipWork ==>
                && why.fork <= s0.m.tipHeight
                && s.history == KeptHistory(r.params, s0.history, s0.m.tipHeight - why.fork, now)))
    && (outcome.Refused? && onTip ==>
          && s.m == s0.m && s.chain == s0.chain && s.history == s0.history && |s0.chain| > 0
          && s.store == if BlockOk(r, s0.chain, block) && !faults.block && !faults.undo && !faults.index
                        then s0.store.(index := connected) else s0.store)
    && (outcome.Refused? && !onTip ==>
          && s.m == s0.m && s.chain == s0.chain && why.fork <= s0.m.tipHeight
          && s.store == (if faults.block || faults.index then s0.store
                         else s0.store.(index := s0.store.index - {h}))
          && s.history == if faults.block || faults.index || why.branch == [] then s0.history
                          else KeptHistory(r.params, s0.history, s0.m.tipHeight - why.fork, now))
    && (!(outcome.Accepted? && !onTip) ==> why.commits == NO_COMMIT)
  }

  lemma ExactSwitch(r: Rules, s0: Snapshot, block: Block, node: Node, now: int, faults: Faults, why: Why,
                    s: Snapshot)
    requires block.header.prevBlock != s0.m.tipHash
    requires s.m.tipHash == r.blockHash(block.header) && s.m.tipHeight == node.height
    requires s.m.tipWork == node.work > s0.m.tipWork
    requires var index := s0.store.index[r.blockHash(block.header) := IndexRec(block, node.height, node.work, None)];
      && BranchOk(why.tree, index, s0.m, why.fork, why.branch) && why.fork < |s0.chain|
      && s.chain == Switched(s0.chain, why.fork, BranchBlocks(index, why.branch))
      && SameRecords(index, s.store.index)
      && CommitWrites(r, s0.store.(index := index), s0.m, s0.chain, why.fork, why.branch, s.chain, why.commits)
    requires HeightsMoved(s0.m, why.branch, s.m.heightByHash)
    requires s.history == KeptHistory(r.params, s0.history, s0.m.tipHeight - why.fork, now)
                          + [ReorgRecord(node.height, s0.m.tipHeight - why.fork, now)]
    ensures Exact(r, s0, block, node, now, faults, why, Accepted, s)
  {
    hide KeptHistory;
    hide HeightsMoved;
    hide BranchOk;
    hide CommitWrites;
    hide BlockOk;
    hide UndoFor;
  }

  lemma ExactSide(r: Rules, s0: Snapshot, block: Block, node: Node, now: int, faults: Faults, why: Why,
                  s: Snapshot)
    requires s.m == s0.m.(heightByHash := s0.m.heightByHash[r.blockHash(block.header) := node.height])
    requires var rec := IndexRec(block, node.height, node.work, None);
      s.store == s0.store.(index := s0.store.index[r.blockHash(block.header) := rec])
    requires s.chain == s0.chain && why.commits == NO_COMMIT
    requires node.work <= s0.m.tipWork ==> s.history == s0.history
    requires node.work > s0.m.tipWork ==>
      && why.fork <= s0.m.tipHeight
      && s.history == KeptHistory(r.params, s0.history, s0.m.tipHeight - why.fork, now)
    ensures Exact(r, s0, block, node, now, faults, why, SideChain, s)
  {
    hide KeptHistory;
    hide SameRecords;
    hide CommitWrites;
    hide BlockOk;
    hide UndoFor;
  }

  lemma ExactRefusal(r: Rules, s0: Snapshot, block: Block, node: Node, now: int, faults: Faults, why: Why,
                     s: Snapshot)
    requires block.header.prevBlock != s0.m.tipHash
    requires s.m == s0.m && s.chain == s0.chain && why.commits == NO_COMMIT && why.fork <= s0.m.tipHeight
    requires s.store == if faults.block || faults.index then s0.store
                        else s0.store.(index := s0.store.index - {r.blockHash(block.header)})
    requires s.history == if faults.block || faults.index || why.branch == [] then s0.history
                          else KeptHistory(r.params, s0.history, s0.m.tipHeight - why.fork, now)
    ensures Exact(r, s0, block, node, now, faults, why, Refused, s)
  {
    hide KeptHistory;
    hide SameRecords;
    hide CommitWrites;
    hide BlockOk;
    hide UndoFor;
  }

  lemma ExactTip(r: Rules, s0: Snapshot, block: Block, node: Node, now: int, faults: Faults, why: Why, ok: bool,
                 s: Snapshot)
    requires block.header.prevBlock == s0.m.tipHash && why.commits == NO_COMMIT && |s0.chain| > 0
    requires s.history == s0.history
    requires var h, rec := r.blockHash(block.header), ConnectedRec(r, s0.chain, block, node.height, node.work);
      && (ok ==> s.m == Extended(s0.m, h, node.work) && s.chain == s0.chain + [block]
                 && s.store.index == s0.store.index[h := rec])
      && (!ok ==> s.m == s0.m && s.chain == s0.chain
                  && s.store == if BlockOk(r, s0.chain, block) && !faults.block && !faults.undo && !faults.index
                                then s0.store.(index := s0.store.index[h := rec]) else s0.store)
    ensures Exact(r, s0, block, node, now, faults, why, if ok then Accepted else Refused, s)
  {
    hide KeptHistory;
    hide SameRecords;
    hide CommitWrites;
    hide BlockOk;
    hide UndoFor;
  }

  lemma ExactAnc(r: Rules, s0: Snapshot, block: Block, node: Node, now: int, faults: Faults, why: Why,
                 outcome: Outcome, s: Snapshot, anc: Ancestors)
    requires Exact(r, s0, block, node, now, faults, why, outcome, s)
    ensures Exact(r, s0, block, node, now, faults, why.(anc := anc), outcome, s)
  {
    hide SameRecords;
    hide UndoFor;
    hide BranchOk;
    hide HeightsMoved;
    hide KeptHistory;
    hide CommitWrites;
    hide BlockOk;
  }

  /** A height entry for a new block off the main chain makes no difference to a branch that
      ends with it. */
  lemma SameBranch(r: Rules, known: Tree, index: map<Hash, IndexRec>, m: Memory, m': Memory, h: Hash, fork: nat,
                   branch: seq<Hash>)
    requires h !in m.heightByHash && h in m'.heightByHash && !OnMain(m', h)
    requires m' == m.(heightByHash := m.heightByHash[h := m'.heightByHash[h]])
    ensures BranchOk(known, index, m', fork, branch) ==> BranchOk(known, index, m, fork, branch)
    ensures forall heights :: h in branch && HeightsMoved(m', branch, heights) ==> HeightsMoved(m, branch, heights)
  {
    hide BranchStep;
    assert forall x :: OnMain(m, x) <==> OnMain(m', x);
    if BranchOk(known, index, m', fork, branch) {
      forall k | 0 <= k < |branch| ensures BranchStep(known, m, fork, branch, k) {
        SameStep(known, m, m', fork, branch, k);
      }
    }
  }

  lemma SameStep(known: Tree, m: Memory, m': Memory, fork: nat, branch: seq<Hash>, k: nat)
    requires BranchStep(known, m', fork, branch, k) && m.hashByHeight == m'.hashByHeight
    ensures BranchStep(known, m, fork, branch, k)
  {
  }

  lemma SameWrites(r: Rules, st: Store, m: Memory, m': Memory, chain: seq<Block>, fork: nat, branch: seq<Hash>,
                   c: seq<Block>, t: CommitTrace)
    requires CommitWrites(r, st, m', chain, fork, branch, c, t)
    requires m.hashByHeight == m'.hashByHeight && m.tipHeight == m'.tipHeight
    ensures CommitWrites(r, st, m, chain, fork, branch, c, t)
  {
    hide ConnectedTo;
    hide Replay;
  }

  /** The memory without the height entries of side blocks far below the tip. */
  ghost function AfterPrune(m: Memory): Memory {
    var heights := m.heightByHash;
    m.(heightByHash := map h | h in heights && (heights[h] + PRUNE_DEPTH >= m.tipHeight || OnMain(m, h)) :: heights[h])
  }

  lemma JudgedBy(r: Rules, index: map<Hash, IndexRec>, m: Memory, chain: seq<Block>, history: seq<ReorgRecord>,
                 now: int, h: Hash, why: Why, res: ReorgResult)
    requires BranchOk(why.tree, index, m, why.fork, why.branch) && why.fork < |chain|
    requires |why.branch| > 0 && why.branch[|why.branch| - 1] == h
    requires Dropped(chain, Switched(chain, why.fork, BranchBlocks(index, why.branch))) == m.tipHeight - why.fork
    requires res.TooDeep? <==> !DepthOk(r.params, history, m.tipHeight - why.fork, now)
    requires !res.TooDeep? ==>
      (res.Switch? <==> ValidChain(r, Switched(chain, why.fork, BranchBlocks(index, why.branch))))
    ensures Judged(r, index, m, chain, history, now, h, why, OutcomeOf(res))
  {
    hide BranchOk;
    hide DepthOk;
    hide Dropped;
    hide ValidChain;
  }

  lemma OffTipVerdict(r: Rules, seen: set<Block>, s: Snapshot, block: Block, node: Node, now: int, faults: Faults,
                      why: Why, outcome: Outcome)
    requires block.header.prevBlock != s.m.tipHash && !faults.block && !faults.index && node.work > s.m.tipWork
    requires !outcome.Parked?
    requires TreeOk(r, seen, s.known) && block.header.prevBlock in s.known
    requires var h, index := r.blockHash(block.header), s.store.index;
      && why.tree == s.known[h := node]
      && (if StoredWalk(r, seen, s.known, index, s.m, block.header.prevBlock)
          then Judged(r, index[h := IndexRec(block, node.height, node.work, None)], s.m, s.chain, s.history, now, h,
                      why, outcome)
          else outcome.Refused? && why.branch == [])
    ensures Verdict(r, seen, s, block, node, now, faults, why, outcome)
  {
    hide TreeOk;
    hide StoredWalk;
    hide Judged;
    hide BlockOk;
  }

  function OutcomeOf(res: ReorgResult): Outcome {
    match res
    case Switch => Accepted
    case TooDeep => SideChain
    case Invalid => Refused
  }

  lemma VerdictAnc(r: Rules, seen: set<Block>, s: Snapshot, block: Block, node: Node, now: int, faults: Faults,
                   why: Why, outcome: Outcome, anc: Ancestors)
    requires Verdict(r, seen, s, block, node, now, faults, why, outcome)
    ensures Verdict(r, seen, s, block, node, now, faults, why.(anc := anc), outcome)
  {
    hide BlockOk;
    hide ValidChain;
    hide StoredWalk;
    hide TreeOk;
    hide DepthOk;
    hide Dropped;
  }

  /** The store after a refused block: untouched, or with the record of a child of the
      tip whose chainstate write failed, or without any record of a block off the tip. */
  ghost predicate StoreAfterRefusal(r: Rules, store0: Store, m0: Memory, chain0: seq<Block>, block: Block,
                                    store: Store) {
    var h := r.blockHash(block.header);
    || store == store0
    || (block.header.prevBlock == m0.tipHash && store == store0.(index := store0.index[h :=
          ConnectedRec(r, chain0, block, m0.tipHeight + 1, m0.tipWork + r.weight(block.header))]))
    || (block.header.prevBlock != m0.tipHash && store == store0.(index := store0.index - {h}))
  }

  lemma StoreKept(r: Rules, store: Store, m: Memory, chain: seq<Block>, block: Block)
    ensures StoreAfterRefusal(r, store, m, chain, block, store)
  {
  }

  lemma OffTipHeights(r: Rules, s0: Snapshot, block: Block, node: Node, now: int, faults: Faults, why: Why,
                      outcome: Outcome, s: Snapshot)
    requires Exact(r, s0, block, node, now, faults, why, outcome, s) && block.header.prevBlock != s0.m.tipHash
    requires !outcome.Parked?
    ensures !outcome.Accepted? ==>
      forall x :: x in s.m.heightByHash ==> x in s0.m.heightByHash || x == r.blockHash(block.header)
    ensures outcome.SideChain? ==> r.blockHash(block.header) in s.m.heightByHash
    ensures outcome.Accepted? ==> s.m.tipHash == r.blockHash(block.header)
  {
    hide KeptHistory;
    hide SameRecords;
    hide CommitWrites;
    hide BlockOk;
    hide UndoFor;
  }

  lemma RefusalStore(r: Rules, s0: Snapshot, block: Block, node: Node, now: int, faults: Faults, why: Why, s: Snapshot)
    requires Exact(r, s0, block, node, now, faults, why, Refused, s)
    requires block.header.prevBlock == s0.m.tipHash ==>
      node.height == s0.m.tipHeight + 1 && node.work == s0.m.tipWork + r.weight(block.header)
    ensures StoreAfterRefusal(r, s0.store, s0.m, s0.chain, block, s.store)
    ensures s.m == s0.m && s.chain == s0.chain
  {
    hide KeptHistory;
    hide SameRecords;
    hide CommitWrites;
    hide BlockOk;
    hide UndoFor;
  }

  // ---------- The order of waiting siblings ----------

  /** Hashes in ascending order of their bytes, without repetition. */
  ghost predicate Ascending(hs: seq<Hash>) {
    forall i, j :: 0 <= i < j < |hs| ==> Target.BigEndianValue(hs[i]) < Target.BigEndianValue(hs[j])
  }

  lemma AscendingDistinct(hs: seq<Hash>)
    requires Ascending(hs)
    ensures forall i, j :: 0 <= i < j < |hs| ==> hs[i] != hs[j]
  {
  }

  /** Inserts a hash in order; one that is there already is not added again. */
  method InsertHash(hs: seq<Hash>, h: Hash) returns (out: seq<Hash>)
    requires Ascending(hs)
    ensures Ascending(out) && forall x :: x in out <==> x in hs || x == h
  {
    hide Target.BigEndianValue;
    var k := 0;
    while k < |hs| && Target.BigEndianValue(hs[k]) < Target.BigEndianValue(h)
      invariant 0 <= k <= |hs| && forall i :: 0 <= i < k ==> Target.BigEndianValue(hs[i]) < Target.BigEndianValue(h)
    {
      k := k + 1;
    }
    if k < |hs| && Target.BigEndianValue(hs[k]) == Target.BigEndianValue(h) {
      Target.BigEndianDetermines(hs[k], h);
      return hs;
    }
    out := hs[..k] + [h] + hs[k..];
    forall x | x in hs ensures x in out {
      var i :| 0 <= i < |hs| && hs[i] == x;
      assert out[if i < k then i else i + 1] == x;
    }
  }

  lemma IndexedHeader(r: Rules, seen: set<Block>, known: Tree, index: map<Hash, IndexRec>, h: Hash)
    requires IndexOk(r, seen, known, index) && h in index
    ensures h in known && index[h].block.header == known[h].header
  {
    assert RecOk(r, seen, known, h, index[h]);
  }

  lemma ClimbStart(known: Tree, index: map<Hash, IndexRec>, m: Memory, h: Hash)
    requires h in known && !OnMain(m, h)
    ensures Climbs(known, index, m, [h])
  {
  }

  lemma MainHeight(m: Memory, h: Hash)
    requires OnMain(m, h)
    ensures h in m.heightByHash
  {
  }

  lemma {:induction false} OffMainHeight(r: Rules, seen: set<Block>, known: Tree, index: map<Hash, IndexRec>, m: Memory,
                                         chain: seq<Block>, h: Hash)
    requires TreeOk(r, seen, known) && MainOk(r, known, index, m, chain) && h in known && !OnMain(m, h)
    ensures known[h].height > 0
  {
    assert NodeOk(r, seen, known, h);
    TipEntry(r, known, index, m, chain);
  }

  lemma {:induction false} WalkFromBranch(r: Rules, seen: set<Block>, known: Tree, index: map<Hash, IndexRec>,
                                          m: Memory, chain: seq<Block>, fork: nat, branch: seq<Hash>, k: nat)
    requires TreeOk(r, seen, known) && MainOk(r, known, index, m, chain) && BranchOk(known, index, m, fork, branch)
    requires k < |branch|
    ensures known[branch[k]].header.prevBlock in known
    ensures StoredWalk(r, seen, known, index, m, known[branch[k]].header.prevBlock)
  {
    assert BranchStep(known, m, fork, branch, k);
    if k > 0 {
      BranchWalk(r, seen, known, index, m, chain, fork, branch, k - 1);
    } else {
      assert MainEntry(r, known, index, m.heightByHash, m.hashByHeight[fork], fork, chain);
    }
  }

  /** The parent of branch block k ends the path of the switched chain up to k, and the
      store can walk down from it. */
  lemma {:induction false} BranchParent(r: Rules, seen: set<Block>, known: Tree, index: map<Hash, IndexRec>, m: Memory,
                                        chain: seq<Block>, fork: nat, branch: seq<Hash>, k: nat)
    requires TreeOk(r, seen, known) && IndexOk(r, seen, known, index) && MainOk(r, known, index, m, chain)
    requires BranchOk(known, index, m, fork, branch) && k < |branch| && fork < |chain|
    ensures forall i :: 0 <= i <= fork ==> i in m.hashByHeight
    ensures var hs, prev := SwitchedHashes(m, fork, branch, k), index[branch[k]].block.header.prevBlock;
      && |hs| == fork + 1 + k && hs[|hs| - 1] == prev && prev in known && known[prev].height == fork + k
      && StoredWalk(r, seen, known, index, m, prev)
      && PathOk(known, hs, Switched(chain, fork, BranchBlocks(index, branch))[..fork + 1 + k])
  {
    hide MainOk;
    hide OnMain;
    hide TreeOk;
    MainShape(r, known, index, m, chain);
    assert BranchStep(known, m, fork, branch, k);
    assert RecOk(r, seen, known, branch[k], index[branch[k]]);
    SwitchedPath(r, seen, known, index, m, chain, fork, branch, k);
    WalkFromBranch(r, seen, known, index, m, chain, fork, branch, k);
  }

  lemma BlockOkStructure(r: Rules, chain: seq<Block>, b: Block)
    requires |chain| > 0 && BlockOk(r, chain, b)
    ensures StructureOk(r, b, |chain|)
  {
  }

  lemma HasTransactions(r: Rules, b: Block, height: nat)
    requires StructureOk(r, b, height)
    ensures |b.txs| > 0
  {
  }

  lemma JudgeBlock(r: Rules, chain: seq<Block>, block: Block, height: nat, mtp: nat)
    requires |chain| > 0 && height == |chain| && mtp == ChainMedian(HeadersOf(chain)) && StructureOk(r, block, height)
    requires block.header.prevBlock == r.blockHash(chain[|chain| - 1].header)
    ensures BlockOk(r, chain, block) <==> |block.txs| > 0 && TxInputsOk(r, Replay(r, chain), block.txs, height, mtp)
  {
  }
}
