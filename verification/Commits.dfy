/** What the commit phase of a reorganisation leaves on disk after each of its writes, and
    what a restart makes of it (reorg and Init in internal/chain/chain.go). */
module Commits {
  import opened Types
  import opened Utxo
  import opened Ledger
  import opened ChainState
  import opened Reorg
  import opened Closure
  import opened Recovery

  /** The stores after the batch of each disconnected block, from the tip down; and for each
      connected block, from the fork up, after its batch and after its record. */
  datatype CommitTrace = CommitTrace(disconnects: seq<Store>, batches: seq<Store>, records: seq<Store>)

  const NO_COMMIT: CommitTrace := CommitTrace([], [], [])

  /** The old chain is disconnected down to height h. */
  ghost predicate UndoneTo(r: Rules, st0: Store, m: Memory, chain: seq<Block>, h: nat, st: Store) {
    && h < |chain| && h in m.hashByHeight
    && st == st0.(chainstate := Replay(r, chain[..h + 1]), bestBlock := Some(m.hashByHeight[h]))
  }

  /** The new chain c is connected up to branch block k; the first n records of the branch
      are written. */
  ghost predicate ConnectedTo(r: Rules, st0: Store, fork: nat, branch: seq<Hash>, c: seq<Block>, k: nat, n: nat,
                              st: Store) {
    && k < |branch| && n <= |branch| && |c| == fork + 1 + |branch|
    && (forall j :: 0 <= j < |branch| ==> branch[j] in st0.index)
    && UndoWritten(r, st0.index, fork, branch, c, n, st.index)
    && st.chainstate == Replay(r, c[..fork + 2 + k]) && st.bestBlock == Some(branch[k]) && st.tip == st0.tip
  }

  /** The writes of a commit phase, all of them and in order. */
  ghost predicate CommitWrites(r: Rules, st0: Store, m: Memory, chain: seq<Block>, fork: nat, branch: seq<Hash>,
                               c: seq<Block>, t: CommitTrace) {
    && fork <= m.tipHeight
    && |t.disconnects| == m.tipHeight - fork && |t.batches| == |t.records| == |branch|
    && (forall i :: 0 <= i < |t.disconnects| ==> UndoneTo(r, st0, m, chain, m.tipHeight - 1 - i, t.disconnects[i]))
    && (forall k :: 0 <= k < |branch| ==> ConnectedTo(r, st0, fork, branch, c, k, k, t.batches[k]))
    && (forall k :: 0 <= k < |branch| ==> ConnectedTo(r, st0, fork, branch, c, k, k + 1, t.records[k]))
  }

  lemma MakeConnected(r: Rules, st0: Store, m: Memory, fork: nat, branch: seq<Hash>, c: seq<Block>, k: nat, n: nat,
                      st: Store, heights: map<Hash, nat>, hashes: map<nat, Hash>)
    requires k < |branch| && n <= |branch| && |c| == fork + 1 + |branch|
    requires forall j :: 0 <= j < |branch| ==> branch[j] in st0.index
    requires Written(r, st0.index, m, fork, branch, c, n, st.index, heights, hashes)
    requires st.chainstate == Replay(r, c[..fork + 2 + k]) && st.bestBlock == Some(branch[k]) && st.tip == st0.tip
    ensures ConnectedTo(r, st0, fork, branch, c, k, n, st)
  {
    hide UndoWritten;
    hide HeightsWritten;
    hide HashesWritten;
    hide Replay;
  }

  lemma MakeWrites(r: Rules, st0: Store, m: Memory, chain: seq<Block>, fork: nat, branch: seq<Hash>, c: seq<Block>,
                   t: CommitTrace)
    requires fork <= m.tipHeight
    requires |t.disconnects| == m.tipHeight - fork && |t.batches| == |t.records| == |branch|
    requires forall i :: 0 <= i < |t.disconnects| ==> UndoneTo(r, st0, m, chain, m.tipHeight - 1 - i, t.disconnects[i])
    requires forall k :: 0 <= k < |branch| ==>
      && ConnectedTo(r, st0, fork, branch, c, k, k, t.batches[k])
      && ConnectedTo(r, st0, fork, branch, c, k, k + 1, t.records[k])
    ensures CommitWrites(r, st0, m, chain, fork, branch, c, t)
  {
    hide ConnectedTo;
    hide UndoneTo;
  }

  /** The state before the commit phase. */
  ghost predicate Committing(r: Rules, seen: set<Block>, known: Tree, st0: Store, m: Memory, chain: seq<Block>,
                             utxos: Utxos, fork: nat, branch: seq<Hash>, c: seq<Block>) {
    && StateOk(r, seen, known, st0.index, m, chain, utxos) && Durable(st0, m, utxos)
    && BranchOk(known, st0.index, m, fork, branch) && fork < |chain|
    && c == Switched(chain, fork, BranchBlocks(st0.index, branch)) && ValidChain(r, c)
  }

  /** A restart on a store whose chainstate belongs to a block not above the recorded tip
      rebuilds the old chain. */
  lemma {:induction false} OldChainStarts(r: Rules, seen: set<Block>, known: Tree, st0: Store, m: Memory,
                                          chain: seq<Block>, utxos: Utxos, st: Store)
    requires StateOk(r, seen, known, st0.index, m, chain, utxos) && Durable(st0, m, utxos)
    requires SameRecords(st0.index, st.index) && st.tip == st0.tip
    requires forall h :: OnMain(m, h) ==> h in st0.index && st.index[h] == st0.index[h]
    requires st.bestBlock.Some? && st.bestBlock.value != m.tipHash && st.bestBlock.value in st0.index
    requires st0.index[st.bestBlock.value].height <= m.tipHeight
    ensures forall i :: 0 <= i <= m.tipHeight ==> i in m.hashByHeight
    ensures var hs := MainHashes(m.hashByHeight, m.tipHeight + 1);
      Startable(r, seen, known, st, hs, chain) && !Kept(st, hs) && |hs| == |chain| && HoldsUndo(r, st.index, hs, chain)
  {
    hide World;
    hide TreeOk;
    hide IndexOk;
    hide ValidChain;
    hide Replay;
    hide UndoFor;
    hide PathStep;
    hide MainOk;
    hide HoldsBlocks;
    hide HoldsUndo;
    hide OnMain;
    OldBlocks(r, seen, known, st0, m, chain, utxos, st);
    MainShape(r, known, st0.index, m, chain);
    TipEntry(r, known, st0.index, m, chain);
    SameIndexOk(r, seen, known, st0.index, st.index);
    KeptUndo(r, known, st0.index, m, chain, st.index);
  }

  lemma KeptUndo(r: Rules, known: Tree, index0: map<Hash, IndexRec>, m: Memory, chain: seq<Block>,
                 index: map<Hash, IndexRec>)
    requires MainOk(r, known, index0, m, chain)
    requires index.Keys == index0.Keys && forall h :: OnMain(m, h) ==> h in index0 && index[h] == index0[h]
    ensures HoldsUndo(r, index, MainHashes(m.hashByHeight, m.tipHeight + 1), chain)
  {
    hide UndoFor;
    var hs := MainHashes(m.hashByHeight, m.tipHeight + 1);
    forall i | 0 < i < |hs| ensures hs[i] in index && index[hs[i]].undo == Some(UndoFor(r, chain, i)) {
      assert MainEntry(r, known, index0, m.heightByHash, m.hashByHeight[i], i, chain);
      assert OnMain(m, hs[i]);
    }
  }

  lemma {:induction false} CrashInDisconnect(r: Rules, seen: set<Block>, known: Tree, st0: Store, m: Memory,
                                             chain: seq<Block>, utxos: Utxos, h: nat, st: Store)
    requires StateOk(r, seen, known, st0.index, m, chain, utxos) && Durable(st0, m, utxos)
    requires UndoneTo(r, st0, m, chain, h, st) && h < m.tipHeight
    ensures forall i :: 0 <= i <= m.tipHeight ==> i in m.hashByHeight
    ensures var hs := MainHashes(m.hashByHeight, m.tipHeight + 1);
      Startable(r, seen, known, st, hs, chain) && !Kept(st, hs) && |hs| == |chain| && HoldsUndo(r, st.index, hs, chain)
  {
    hide World;
    hide TreeOk;
    hide IndexOk;
    hide ValidChain;
    hide Replay;
    hide UndoFor;
    hide Startable;
    hide HoldsUndo;
    assert MainEntry(r, known, st0.index, m.heightByHash, m.hashByHeight[h], h, chain);
    assert MainEntry(r, known, st0.index, m.heightByHash, m.hashByHeight[m.tipHeight], m.tipHeight, chain);
    BelowTip(r, seen, known, st0.index, m.hashByHeight[h], h, m.tipHeight);
    MainRecords(r, known, st0.index, m, chain);
    OldChainStarts(r, seen, known, st0, m, chain, utxos, st);
  }

  lemma BelowTip(r: Rules, seen: set<Block>, known: Tree, index: map<Hash, IndexRec>, h: Hash, height: nat, top: nat)
    requires IndexOk(r, seen, known, index) && h in index && h in known && known[h].height == height <= top
    ensures index[h].height <= top
  {
    assert RecOk(r, seen, known, h, index[h]);
  }

  lemma MainRecords(r: Rules, known: Tree, index: map<Hash, IndexRec>, m: Memory, chain: seq<Block>)
    requires MainOk(r, known, index, m, chain)
    ensures forall h :: OnMain(m, h) ==> h in index
  {
    hide UndoFor;
    forall h | OnMain(m, h) ensures h in index {
      assert MainEntry(r, known, index, m.heightByHash, m.hashByHeight[m.heightByHash[h]], m.heightByHash[h], chain);
    }
  }

  /** Records written for the branch leave those of the main chain alone. */
  lemma BranchRecords(r: Rules, known: Tree, index0: map<Hash, IndexRec>, m: Memory, chain: seq<Block>, fork: nat,
                      branch: seq<Hash>, c: seq<Block>, n: nat, index: map<Hash, IndexRec>)
    requires MainOk(r, known, index0, m, chain) && BranchOk(known, index0, m, fork, branch)
    requires n <= |branch| && |c| == fork + 1 + |branch|
    requires UndoWritten(r, index0, fork, branch, c, n, index)
    ensures SameRecords(index0, index)
    ensures forall h :: OnMain(m, h) ==> h in index0 && index[h] == index0[h]
  {
    hide UndoFor;
    hide BranchStep;
    hide MainOk;
    hide OnMain;
    MainRecords(r, known, index0, m, chain);
    forall h | h in index0 ensures index[h] == index0[h].(undo := index[h].undo) {
      if h in branch[..n] {
        var j :| 0 <= j < n && branch[..n][j] == h;
        assert branch[j] == h;
      }
    }
  }

  /** A crash while the branch is connected: up to the height of the recorded tip the old
      chain is rebuilt; above it the node follows the branch as far as it was connected. */
  lemma {:induction false} CrashInConnect(r: Rules, seen: set<Block>, known: Tree, st0: Store, m: Memory,
                                          chain: seq<Block>, utxos: Utxos, fork: nat, branch: seq<Hash>, c: seq<Block>,
                                          k: nat, n: nat, st: Store)
    returns (hs: seq<Hash>, c': seq<Block>)
    requires Committing(r, seen, known, st0, m, chain, utxos, fork, branch, c)
    requires ConnectedTo(r, st0, fork, branch, c, k, n, st) && k <= n
    ensures Startable(r, seen, known, st, hs, c') && |hs| == |c'|
    ensures fork + 1 + k <= m.tipHeight ==> c' == chain && !Kept(st, hs) && HoldsUndo(r, st.index, hs, c')
    ensures fork + 1 + k > m.tipHeight ==>
      && c' == c[..fork + 2 + k] && Kept(st, hs) && st.chainstate == Replay(r, c')
      && (n > k ==> HoldsUndo(r, st.index, hs, c'))
      && (HoldsUndo(r, st.index, hs, c') <==> st.index[branch[k]].undo == Some(UndoFor(r, c, fork + 1 + k)))
  {
    hide World;
    hide TreeOk;
    hide IndexOk;
    hide ValidChain;
    hide Replay;
    hide UndoFor;
    hide Startable;
    hide HoldsUndo;
    hide MainOk;
    hide UndoWritten;
    hide BranchStep;
    BranchRecords(r, known, st0.index, m, chain, fork, branch, c, n, st.index);
    if fork + 1 + k <= m.tipHeight {
      TipEntry(r, known, st0.index, m, chain);
      BelowTip(r, seen, known, st0.index, branch[k], fork + 1 + k, m.tipHeight);
      OldChainStarts(r, seen, known, st0, m, chain, utxos, st);
      hs, c' := MainHashes(m.hashByHeight, m.tipHeight + 1), chain;
    } else {
      NewChainStarts(r, seen, known, st0, m, chain, utxos, fork, branch, c, k, n, st);
      hs, c' := SwitchedHashes(m, fork, branch, k + 1), c[..fork + 2 + k];
    }
  }

  lemma {:induction false} NewChainStarts(r: Rules, seen: set<Block>, known: Tree, st0: Store, m: Memory,
                                          chain: seq<Block>, utxos: Utxos, fork: nat, branch: seq<Hash>, c: seq<Block>,
                                          k: nat, n: nat, st: Store)
    requires Committing(r, seen, known, st0, m, chain, utxos, fork, branch, c)
    requires ConnectedTo(r, st0, fork, branch, c, k, n, st) && k <= n && fork + 1 + k > m.tipHeight
    requires SameRecords(st0.index, st.index)
    requires forall h :: OnMain(m, h) ==> h in st0.index && st.index[h] == st0.index[h]
    ensures forall i :: 0 <= i <= fork ==> i in m.hashByHeight
    ensures var hs, c' := SwitchedHashes(m, fork, branch, k + 1), c[..fork + 2 + k];
      && Startable(r, seen, known, st, hs, c') && |hs| == |c'|
      && Kept(st, hs) && st.chainstate == Replay(r, c')
      && (n > k ==> HoldsUndo(r, st.index, hs, c'))
      && (HoldsUndo(r, st.index, hs, c') <==> st.index[branch[k]].undo == Some(UndoFor(r, c, fork + 1 + k)))
  {
    hide World;
    hide TreeOk;
    hide IndexOk;
    hide ValidChain;
    hide Replay;
    hide UndoFor;
    hide BranchStep;
    hide MainOk;
    hide PathOk;
    hide HoldsUndo;
    MainShape(r, known, st0.index, m, chain);
    var hs, c' := SwitchedHashes(m, fork, branch, k + 1), c[..fork + 2 + k];
    SameIndexOk(r, seen, known, st0.index, st.index);
    SwitchedPath(r, seen, known, st0.index, m, chain, fork, branch, k + 1);
    ValidPrefix(r, c, fork + 2 + k);
    NewBlocks(r, seen, known, st0, m, chain, utxos, fork, branch, c, k, st);
    NewUndo(r, seen, known, st0, m, chain, utxos, fork, branch, c, k, n, st);
    OldBlocks(r, seen, known, st0, m, chain, utxos, st);
    assert Behind(r, known, st, |hs|);
  }

  lemma {:induction false} OldBlocks(r: Rules, seen: set<Block>, known: Tree, st0: Store, m: Memory,
                                     chain: seq<Block>, utxos: Utxos, st: Store)
    requires StateOk(r, seen, known, st0.index, m, chain, utxos) && Durable(st0, m, utxos)
    requires SameRecords(st0.index, st.index) && st.tip == st0.tip
    ensures forall i :: 0 <= i <= m.tipHeight ==> i in m.hashByHeight
    ensures var hs := MainHashes(m.hashByHeight, m.tipHeight + 1);
      HoldsBlocks(r, known, st.index, hs, chain) && st.tip == Some((hs[|hs| - 1], |hs| - 1))
  {
    hide World;
    hide TreeOk;
    hide IndexOk;
    hide ValidChain;
    hide Replay;
    hide UndoFor;
    hide PathStep;
    StateRecoverable(r, seen, known, st0, m, chain, utxos);
  }

  lemma {:induction false} NewBlocks(r: Rules, seen: set<Block>, known: Tree, st0: Store, m: Memory,
                                     chain: seq<Block>, utxos: Utxos, fork: nat, branch: seq<Hash>, c: seq<Block>,
                                     k: nat, st: Store)
    requires Committing(r, seen, known, st0, m, chain, utxos, fork, branch, c) && k < |branch|
    requires SameRecords(st0.index, st.index) && forall i :: 0 <= i <= fork ==> i in m.hashByHeight
    requires PathOk(known, SwitchedHashes(m, fork, branch, k + 1), c[..fork + 2 + k])
    ensures HoldsBlocks(r, known, st.index, SwitchedHashes(m, fork, branch, k + 1), c[..fork + 2 + k])
  {
    hide World;
    hide TreeOk;
    hide IndexOk;
    hide ValidChain;
    hide Replay;
    hide UndoFor;
    hide BranchStep;
    hide PathOk;
    var hs, c' := SwitchedHashes(m, fork, branch, k + 1), c[..fork + 2 + k];
    forall i | 0 <= i < |hs| ensures hs[i] in st.index && st.index[hs[i]].block == c'[i] {
      if i <= fork {
        assert MainEntry(r, known, st0.index, m.heightByHash, m.hashByHeight[i], i, chain);
      } else {
        assert hs[i] == branch[i - fork - 1];
      }
    }
  }

  lemma {:induction false} NewUndo(r: Rules, seen: set<Block>, known: Tree, st0: Store, m: Memory, chain: seq<Block>,
                                   utxos: Utxos, fork: nat, branch: seq<Hash>, c: seq<Block>, k: nat, n: nat, st: Store)
    requires Committing(r, seen, known, st0, m, chain, utxos, fork, branch, c)
    requires ConnectedTo(r, st0, fork, branch, c, k, n, st) && k <= n
    requires SameRecords(st0.index, st.index) && forall i :: 0 <= i <= fork ==> i in m.hashByHeight
    requires forall h :: OnMain(m, h) ==> h in st0.index && st.index[h] == st0.index[h]
    ensures var hs, c' := SwitchedHashes(m, fork, branch, k + 1), c[..fork + 2 + k];
      && |hs| == |c'|
      && (n > k ==> HoldsUndo(r, st.index, hs, c'))
      && (HoldsUndo(r, st.index, hs, c') <==> st.index[branch[k]].undo == Some(UndoFor(r, c, fork + 1 + k)))
  {
    hide World;
    hide TreeOk;
    hide IndexOk;
    hide ValidChain;
    hide Replay;
    hide UndoFor;
    hide BranchStep;
    hide MainOk;
    hide BranchOk;
    hide SwitchedHashes;
    hide Switched;
    hide UndoWritten;
    var hs, c' := SwitchedHashes(m, fork, branch, k + 1), c[..fork + 2 + k];
    SwitchedAt(m, chain, fork, branch, BranchBlocks(st0.index, branch), k + 1, k);
    forall i | 0 < i < |hs|
      ensures hs[i] in st.index && UndoFor(r, c', i) == UndoFor(r, c, i)
      ensures i < fork + 1 + k ==> st.index[hs[i]].undo == Some(UndoFor(r, c, i))
    {
      assert c'[..i] == c[..i];
      UndoPrefix(r, c', c, i);
      NewUndoAt(r, seen, known, st0, m, chain, utxos, fork, branch, c, k, n, st, i);
    }
    if k < n {
      LastUndo(r, st0, fork, branch, c, k, n, st);
    }
  }

  lemma LastUndo(r: Rules, st0: Store, fork: nat, branch: seq<Hash>, c: seq<Block>, k: nat, n: nat, st: Store)
    requires ConnectedTo(r, st0, fork, branch, c, k, n, st) && k < n
    ensures st.index[branch[k]].undo == Some(UndoFor(r, c, fork + 1 + k))
  {
    hide UndoFor;
  }

  lemma {:induction false} NewUndoAt(r: Rules, seen: set<Block>, known: Tree, st0: Store, m: Memory, chain: seq<Block>,
                                     utxos: Utxos, fork: nat, branch: seq<Hash>, c: seq<Block>, k: nat, n: nat,
                                     st: Store, i: nat)
    requires Committing(r, seen, known, st0, m, chain, utxos, fork, branch, c)
    requires ConnectedTo(r, st0, fork, branch, c, k, n, st) && k <= n && 0 < i <= fork + 1 + k
    requires SameRecords(st0.index, st.index) && forall i :: 0 <= i <= fork ==> i in m.hashByHeight
    requires forall h :: OnMain(m, h) ==> h in st0.index && st.index[h] == st0.index[h]
    ensures var h := SwitchedHashes(m, fork, branch, k + 1)[i];
      h in st.index && (i < fork + 1 + k ==> st.index[h].undo == Some(UndoFor(r, c, i)))
  {
    hide World;
    hide TreeOk;
    hide IndexOk;
    hide ValidChain;
    hide Replay;
    hide UndoFor;
    hide BranchStep;
    hide MainOk;
    hide BranchOk;
    hide SwitchedHashes;
    hide UndoWritten;
    if i <= fork {
      OldUndo(r, known, st0.index, m, chain, c, fork, branch, k + 1, i);
    } else {
      SwitchedAt(m, chain, fork, branch, BranchBlocks(st0.index, branch), k + 1, i - fork - 1);
      BranchUndo(r, st0, fork, branch, c, k, n, st, i - fork - 1);
    }
  }

  lemma OldUndo(r: Rules, known: Tree, index: map<Hash, IndexRec>, m: Memory, chain: seq<Block>, c: seq<Block>,
                fork: nat, branch: seq<Hash>, k: nat, i: nat)
    requires MainOk(r, known, index, m, chain) && 0 < i <= fork < |chain|
    requires fork < |c| && c[..fork + 1] == chain[..fork + 1]
    requires k <= |branch| && forall i :: 0 <= i <= fork ==> i in m.hashByHeight
    ensures var h := SwitchedHashes(m, fork, branch, k)[i];
      OnMain(m, h) && h in index && index[h].undo == Some(UndoFor(r, c, i))
  {
    hide UndoFor;
    assert MainEntry(r, known, index, m.heightByHash, m.hashByHeight[i], i, chain);
    assert c[..i] == c[..fork + 1][..i] && chain[..i] == chain[..fork + 1][..i];
    assert c[i] == c[..fork + 1][i] && chain[i] == chain[..fork + 1][i];
    UndoPrefix(r, c, chain, i);
  }

  lemma BranchUndo(r: Rules, st0: Store, fork: nat, branch: seq<Hash>, c: seq<Block>, k: nat, n: nat, st: Store, j: nat)
    requires ConnectedTo(r, st0, fork, branch, c, k, n, st) && k <= n && j <= k
    ensures branch[j] in st.index && (j < k ==> st.index[branch[j]].undo == Some(UndoFor(r, c, fork + 1 + j)))
  {
    hide UndoFor;
  }
}
