/** Crashes in the commit phase of a reorganisation: what a restart makes of the store each
    write leaves behind. */
module SwitchCrash {
  import opened Types
  import opened Utxo
  import opened BlockValidation
  import opened Ledger
  import opened ChainState
  import opened AncestorLookup
  import opened Reorg
  import opened Closure
  import opened HeaderRules
  import opened Recovery
  import opened Commits
  import opened ChainRules
  import opened Chains
  import opened Safety

  /** After which write the power is cut. */
  datatype CommitPoint = AfterDisconnect(i: nat) | AfterBatch(k: nat) | AfterRecord(k: nat)

  function StoreAt(t: CommitTrace, p: CommitPoint): Option<Store> {
    match p
    case AfterDisconnect(i) => if i < |t.disconnects| then Some(t.disconnects[i]) else None
    case AfterBatch(k) => if k < |t.batches| then Some(t.batches[k]) else None
    case AfterRecord(k) => if k < |t.records| then Some(t.records[k]) else None
  }

  /** The height of the block the chainstate belongs to. */
  function Reached(p: CommitPoint, fork: nat, tipHeight: nat): int {
    match p
    case AfterDisconnect(i) => tipHeight - 1 - i
    case AfterBatch(k) => fork + 1 + k
    case AfterRecord(k) => fork + 1 + k
  }

  /** What a restart recovers. As long as the chainstate is not above the old tip it is the
      old chain, rebuilt; above it, it is the new chain as far as it was connected. */
  ghost predicate Recovers(r: Rules, s0: Snapshot, s: Snapshot, why: Why, p: CommitPoint, st: Store, hs: seq<Hash>,
                           c: seq<Block>) {
    var reached := Reached(p, why.fork, s0.m.tipHeight);
    && |hs| == |c|
    && (if reached <= s0.m.tipHeight then c == s0.chain && !Kept(st, hs) && HoldsUndo(r, st.index, hs, c)
        else && reached < |s.chain| && c == s.chain[..reached + 1]
             && Kept(st, hs) && st.chainstate == Replay(r, c)
             && (p.AfterRecord? ==> HoldsUndo(r, st.index, hs, c)))
  }

  /** The state in which the commit phase starts. */
  lemma {:induction false} CommitStarts(r: Rules, seen: set<Block>, s0: Snapshot, utxos: Utxos, block: Block,
                                        node: Node, now: int, faults: Faults, why: Why, s: Snapshot)
    requires StateOk(r, seen, s0.known, s0.store.index, s0.m, s0.chain, utxos) && Durable(s0.store, s0.m, utxos)
    requires block in seen && r.blockHash(block.header) !in s0.m.heightByHash && block.header.prevBlock in s0.known
    requires node == ChildNode(r, s0.known, block.header) && StructureOk(r, block, node.height)
    requires block.header.prevBlock != s0.m.tipHash
    requires Verdict(r, seen, s0, block, node, now, faults, why, Accepted)
    requires Exact(r, s0, block, node, now, faults, why, Accepted, s)
    ensures var h := r.blockHash(block.header);
      var st0 := s0.store.(index := s0.store.index[h := IndexRec(block, node.height, node.work, None)]);
      && Committing(r, seen, why.tree, st0, s0.m, s0.chain, utxos, why.fork, why.branch, s.chain)
      && CommitWrites(r, st0, s0.m, s0.chain, why.fork, why.branch, s.chain, why.commits)
  {
    hide StateOk;
    hide StructureOk;
    hide BranchOk;
    hide StoredWalk;
    hide TreeOk;
    hide ValidChain;
    hide DepthOk;
    hide CommitWrites;
    hide SameRecords;
    hide HeightsMoved;
    hide KeptHistory;
    hide BlockOk;
    hide UndoFor;
    StoreOffMain(r, seen, s0.known, s0.store.index, s0.m, s0.chain, utxos, block,
                 IndexRec(block, node.height, node.work, None), s0.m);
  }

  lemma {:induction false} InterruptedStarts(r: Rules, seen: set<Block>, known: Tree, st0: Store, s0: Snapshot,
                                             utxos: Utxos, why: Why, s: Snapshot, p: CommitPoint, st: Store)
    returns (hs: seq<Hash>, c: seq<Block>)
    requires Committing(r, seen, known, st0, s0.m, s0.chain, utxos, why.fork, why.branch, s.chain)
    requires CommitWrites(r, st0, s0.m, s0.chain, why.fork, why.branch, s.chain, why.commits)
    requires StoreAt(why.commits, p) == Some(st)
    ensures Startable(r, seen, known, st, hs, c) && Recovers(r, s0, s, why, p, st, hs, c)
  {
    hide StateOk;
    hide BranchOk;
    hide ValidChain;
    hide Replay;
    hide UndoFor;
    hide UndoWritten;
    hide Startable;
    hide HoldsUndo;
    hide Kept;
    hide Switched;
    match p {
      case AfterDisconnect(i) =>
        var h := s0.m.tipHeight - 1 - i;
        assert UndoneTo(r, st0, s0.m, s0.chain, h, st);
        CrashInDisconnect(r, seen, known, st0, s0.m, s0.chain, utxos, h, st);
        hs, c := MainHashes(s0.m.hashByHeight, s0.m.tipHeight + 1), s0.chain;
      case AfterBatch(k) =>
        assert ConnectedTo(r, st0, why.fork, why.branch, s.chain, k, k, st);
        hs, c := CrashInConnect(r, seen, known, st0, s0.m, s0.chain, utxos, why.fork, why.branch, s.chain, k, k, st);
      case AfterRecord(k) =>
        assert ConnectedTo(r, st0, why.fork, why.branch, s.chain, k, k + 1, st);
        hs, c :=
          CrashInConnect(r, seen, known, st0, s0.m, s0.chain, utxos, why.fork, why.branch, s.chain, k, k + 1, st);
    }
  }

  /** When the store is intact: on the old chain if nothing stale is there; on the new one if
      the undo data of its last block is, in particular after the record of that block. */
  lemma IntactAfter(r: Rules, s0: Snapshot, s: Snapshot, why: Why, p: CommitPoint, st: Store, hs: seq<Hash>,
                    c: seq<Block>)
    requires Recovers(r, s0, s, why, p, st, hs, c)
    ensures Intact(r, st, hs, c) <==>
      if Reached(p, why.fork, s0.m.tipHeight) <= s0.m.tipHeight then st.chainstate.Keys <= Replay(r, c).Keys
      else HoldsUndo(r, st.index, hs, c)
    ensures p.AfterRecord? ==>
      (Intact(r, st, hs, c) <==>
       || Reached(p, why.fork, s0.m.tipHeight) > s0.m.tipHeight
       || st.chainstate.Keys <= Replay(r, c).Keys)
  {
    hide Replay;
    hide HoldsUndo;
    hide Kept;
  }

  /** A crash in the commit phase. The node that comes up has the old chain, or the new one
      as far as it was connected above the height of the old tip, and the replay of that
      chain as its live set. It is consistent exactly if the store was intact. */
  method CrashInSwitch(node: Chain, block: Block, trusted: bool, now: U32, faults: Faults,
                       orphanFaults: Hash -> Faults, p: CommitPoint)
    returns (crashed: bool, next: Chain, ghost why: Why, ghost settled: Snapshot, ghost st: Store, ghost hs: seq<Hash>)
    requires node.Ready() && |node.orphans| <= MAX_ORPHAN_BLOCKS && block in node.seen
    modifies node, node.utxoSet
    ensures crashed ==>
      && StoreAt(why.commits, p) == Some(st) && next.r == node.r && next.seen == node.seen
      && Recovers(node.r, old(node.Snap()), settled, why, p, st, hs, next.chain)
      && Sound(next.r, next.Mem(), next.chain, next.utxoSet.entries)
      && (next.Valid() <==> Intact(node.r, st, hs, next.chain))
    ensures !crashed ==> next == node && next.Ready() && StoreAt(why.commits, p) == None
  {
    hide StateOk;
    hide OrphansOk;
    hide RecordsOk;
    hide Survivor;
    hide Verdict;
    hide Exact;
    hide Followed;
    hide Timed;
    hide StoreAfterRefusal;
    hide Startable;
    hide BareState;
    hide Intact;
    hide Sound;
    hide StructureOk;
    hide Replay;
    hide HoldsUndo;
    hide Committing;
    hide CommitWrites;
    ghost var s0, utxos := node.Snap(), node.utxoSet.entries;
    var outcome, trace, commits;
    ghost var after;
    outcome, trace, commits, why, after := node.ProcessBlock(block, trusted, now, faults, orphanFaults);
    settled, hs := after.settled, [];
    var found := StoreAt(commits, p);
    if found.None? {
      crashed, next, st := false, node, EMPTY_STORE;
      return;
    }
    crashed, st := true, found.value;
    ParentHeight(node.r, node.seen, s0, utxos, block.header.prevBlock);
    ghost var child := ChildNode(node.r, s0.known, block.header);
    OnlySwitches(node.r, s0, block, child, now, faults, why, outcome, after.settled);
    ghost var c;
    CommitStarts(node.r, node.seen, s0, utxos, block, child, now, faults, why, settled);
    ghost var st0 := s0.store.(index := s0.store.index[node.r.blockHash(block.header) :=
                               IndexRec(block, child.height, child.work, None)]);
    hs, c := InterruptedStarts(node.r, node.seen, why.tree, st0, s0, utxos, why, settled, p, st);
    next := Start(node.r, found.value, node.seen, why.tree, hs, c);
  }

  lemma ParentHeight(r: Rules, seen: set<Block>, s: Snapshot, utxos: Utxos, h: Hash)
    requires StateOk(r, seen, s.known, s.store.index, s.m, s.chain, utxos) && h in s.m.heightByHash
    ensures h in s.known && s.m.heightByHash[h] == s.known[h].height
  {
    hide World;
    hide TreeOk;
    hide IndexOk;
    hide MainOk;
    hide ValidChain;
    hide Replay;
  }

  lemma OnlySwitches(r: Rules, s0: Snapshot, block: Block, node: Node, now: int, faults: Faults, why: Why,
                     outcome: Outcome, s: Snapshot)
    requires Exact(r, s0, block, node, now, faults, why, outcome, s) && why.commits != NO_COMMIT
    ensures outcome.Accepted? && block.header.prevBlock != s0.m.tipHash
  {
    hide KeptHistory;
    hide SameRecords;
    hide CommitWrites;
    hide BlockOk;
    hide UndoFor;
    hide BranchOk;
  }

  /** Two starts one after the other, where the first rebuilds: it leaves what was stale in
      the chainstate, and the second takes that as its live set. */
  method TwoStarts(r: Rules, store: Store, ghost seen: set<Block>, ghost tree: Tree, ghost hs: seq<Hash>,
                   ghost c: seq<Block>)
    returns (first: Chain, second: Chain)
    requires Startable(r, seen, tree, store, hs, c) && store.tip.Some? && !Kept(store, hs)
    requires |hs| == |c| && HoldsUndo(r, store.index, hs, c)
    ensures first.r == second.r == r && first.chain == second.chain == c
    ensures Sound(r, first.Mem(), c, first.utxoSet.entries)
    ensures second.utxoSet.entries == store.chainstate + Replay(r, c)
    ensures first.Valid() <==> store.chainstate.Keys <= Replay(r, c).Keys
    ensures second.Valid() <==> store.chainstate.Keys <= Replay(r, c).Keys
    ensures Sound(r, second.Mem(), c, second.utxoSet.entries) <==> store.chainstate.Keys <= Replay(r, c).Keys
  {
    hide Startable;
    hide BareState;
    hide Sound;
    hide Replay;
    hide HoldsUndo;
    first := Start(r, store, seen, tree, hs, c);
    OverwriteExact(store.chainstate, Replay(r, c));
    StartsAgain(r, seen, tree, store, hs, c, first.store);
    second := Start(r, first.store, seen, tree, hs, c);
  }

  lemma StartsAgain(r: Rules, seen: set<Block>, tree: Tree, st: Store, hs: seq<Hash>, c: seq<Block>, st': Store)
    requires Startable(r, seen, tree, st, hs, c) && st.tip.Some? && |hs| > 0
    requires st'.index == st.index
    requires st'.bestBlock == Some(hs[|hs| - 1]) && st'.tip == Some((hs[|hs| - 1], |hs| - 1))
    ensures Startable(r, seen, tree, st', hs, c) && Kept(st', hs)
  {
    hide World;
    hide TreeOk;
    hide IndexOk;
    hide ValidChain;
    hide HoldsBlocks;
  }
}
