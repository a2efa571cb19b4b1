/** Reorganisations as values: finding the branch, and the effect of the commit
    phase on the indexes (internal/chain/chain.go, reorg). */
module Reorg {
  import opened Types
  import opened Utxo
  import opened Ledger
  import opened ChainState
  import opened AncestorLookup

  // ---------- Phase 0: the branch ----------

  /** branch climbs, off the main chain, from branch[0]; all of it but branch[0] was
      looked up in the store. */
  ghost predicate Climbs(known: Tree, index: map<Hash, IndexRec>, m: Memory, branch: seq<Hash>) {
    && |branch| > 0
    && (forall k :: 0 <= k < |branch| ==> branch[k] in known && !OnMain(m, branch[k]))
    && (forall k :: 0 <= k < |branch| ==> known[branch[k]].height == known[branch[0]].height + k)
    && (forall k :: 1 <= k < |branch| ==> ClimbStep(known, index, branch, k))
  }

  ghost predicate ClimbStep(known: Tree, index: map<Hash, IndexRec>, branch: seq<Hash>, k: nat) {
    1 <= k < |branch| && branch[k] in known && branch[k] in index && known[branch[k]].header.prevBlock == branch[k - 1]
  }

  lemma {:induction false} ClimbDown(r: Rules, seen: set<Block>, known: Tree, index: map<Hash, IndexRec>, m: Memory,
                                     branch: seq<Hash>, prev: Hash)
    requires TreeOk(r, seen, known) && Climbs(known, index, m, branch)
    requires branch[0] in index && prev == known[branch[0]].header.prevBlock && !OnMain(m, prev)
    requires known[branch[0]].height > 0
    ensures Climbs(known, index, m, [prev] + branch)
    ensures prev in known && known[prev].height + 1 == known[branch[0]].height
  {
    assert NodeOk(r, seen, known, branch[0]);
    var longer := [prev] + branch;
    forall k | 0 <= k < |longer|
      ensures longer[k] in known && !OnMain(m, longer[k]) && known[longer[k]].height == known[prev].height + k
    {
      if k > 0 {
        assert longer[k] == branch[k - 1];
      }
    }
    forall k | 1 <= k < |longer| ensures ClimbStep(known, index, longer, k) {
      if k > 1 {
        assert ClimbStep(known, index, branch, k - 1);
      }
    }
  }

  lemma {:induction false} BranchFound(r: Rules, seen: set<Block>, known: Tree, index: map<Hash, IndexRec>, m: Memory,
                                       chain: seq<Block>, branch: seq<Hash>, prev: Hash)
    requires TreeOk(r, seen, known) && HeightsOk(known, m.heightByHash) && MainOk(r, known, index, m, chain)
    requires Climbs(known, index, m, branch) && branch[0] in index
    requires prev == known[branch[0]].header.prevBlock && OnMain(m, prev) && known[branch[0]].height > 0
    ensures BranchOk(known, index, m, m.heightByHash[prev], branch)
  {
    hide MainEntry;
    hide LinkedAt;
    assert NodeOk(r, seen, known, branch[0]);
    var fork := m.heightByHash[prev];
    forall k | 0 <= k < |branch| ensures BranchStep(known, m, fork, branch, k) && branch[k] in index {
      if k > 0 {
        assert ClimbStep(known, index, branch, k);
      }
    }
  }

  /** The stored branch lets the ancestor lookup walk down to the main chain. */
  lemma {:induction false} BranchWalk(r: Rules, seen: set<Block>, known: Tree, index: map<Hash, IndexRec>, m: Memory,
                                      chain: seq<Block>, fork: nat, branch: seq<Hash>, k: nat)
    requires TreeOk(r, seen, known) && MainOk(r, known, index, m, chain) && BranchOk(known, index, m, fork, branch)
    requires k < |branch|
    ensures StoredWalk(r, seen, known, index, m, branch[k])
    decreases k
  {
    assert BranchStep(known, m, fork, branch, k);
    if k > 0 {
      BranchWalk(r, seen, known, index, m, chain, fork, branch, k - 1);
    } else {
      assert MainEntry(r, known, index, m.heightByHash, m.hashByHeight[fork], fork, chain);
    }
  }

  /** The hashes of the chain that switches to the branch, up to k branch blocks. */
  ghost function SwitchedHashes(m: Memory, fork: nat, branch: seq<Hash>, k: nat): seq<Hash>
    requires k <= |branch| && forall i :: 0 <= i <= fork ==> i in m.hashByHeight
  {
    MainHashes(m.hashByHeight, fork + 1) + branch[..k]
  }

  lemma {:induction false} SwitchedEntry(r: Rules, seen: set<Block>, known: Tree, index: map<Hash, IndexRec>, m: Memory,
                                         chain: seq<Block>, fork: nat, branch: seq<Hash>, k: nat, i: nat)
    requires IndexOk(r, seen, known, index) && BranchOk(known, index, m, fork, branch) && k <= |branch|
    requires i < fork + 1 + k
    requires |chain| == m.tipHeight + 1 && forall j :: 0 <= j <= m.tipHeight ==> j in m.hashByHeight
    requires PathOk(known, MainHashes(m.hashByHeight, m.tipHeight + 1), chain)
    ensures var hs := SwitchedHashes(m, fork, branch, k);
      var cs := Switched(chain, fork, BranchBlocks(index, branch))[..fork + 1 + k];
      && hs[i] in known && known[hs[i]].height == i && known[hs[i]].header == cs[i].header
      && (i > 0 ==> PathStep(hs, cs, i))
  {
    hide OnMain;
    var mh := MainHashes(m.hashByHeight, m.tipHeight + 1);
    if i <= fork {
      assert mh[i] in known;
      assert i > 0 ==> PathStep(mh, chain, i);
    } else {
      BranchEntry(r, seen, known, index, m, chain, fork, branch, k, i - fork - 1);
    }
  }

  lemma {:induction false} BranchEntry(r: Rules, seen: set<Block>, known: Tree, index: map<Hash, IndexRec>, m: Memory,
                                       chain: seq<Block>, fork: nat, branch: seq<Hash>, k: nat, j: nat)
    requires IndexOk(r, seen, known, index) && BranchOk(known, index, m, fork, branch) && j < k <= |branch|
    requires |chain| == m.tipHeight + 1 && forall j :: 0 <= j <= m.tipHeight ==> j in m.hashByHeight
    ensures var hs := SwitchedHashes(m, fork, branch, k);
      var cs := Switched(chain, fork, BranchBlocks(index, branch))[..fork + 1 + k];
      var i := fork + 1 + j;
      && hs[i] in known && known[hs[i]].height == i && known[hs[i]].header == cs[i].header
      && PathStep(hs, cs, i)
  {
    hide OnMain;
    hide BranchBlocks;
    hide SwitchedHashes;
    hide Switched;
    assert RecOk(r, seen, known, branch[j], index[branch[j]]);
    assert BranchStep(known, m, fork, branch, j);
    SwitchedAt(m, chain, fork, branch, BranchBlocks(index, branch), k, j);
  }

  lemma SwitchedAt(m: Memory, chain: seq<Block>, fork: nat, branch: seq<Hash>, blocks: seq<Block>, k: nat, j: nat)
    requires j < k <= |branch| == |blocks| && fork < |chain| && forall i :: 0 <= i <= fork ==> i in m.hashByHeight
    ensures var hs, cs := SwitchedHashes(m, fork, branch, k), Switched(chain, fork, blocks)[..fork + 1 + k];
      && |hs| == |cs| == fork + 1 + k && hs[fork + 1 + j] == branch[j] && cs[fork + 1 + j] == blocks[j]
      && hs[fork + j] == if j == 0 then m.hashByHeight[fork] else branch[j - 1]
  {
  }

  lemma {:induction false} SwitchedSeen(r: Rules, seen: set<Block>, known: Tree, index: map<Hash, IndexRec>, m: Memory,
                                        chain: seq<Block>, fork: nat, branch: seq<Hash>)
    requires IndexOk(r, seen, known, index) && BranchOk(known, index, m, fork, branch) && AllSeen(seen, chain)
    requires fork < |chain|
    ensures AllSeen(seen, Switched(chain, fork, BranchBlocks(index, branch)))
  {
    hide OnMain;
    hide BranchStep;
    var blocks := BranchBlocks(index, branch);
    forall j | 0 <= j < |blocks| ensures blocks[j] in seen {
      assert RecOk(r, seen, known, branch[j], index[branch[j]]);
    }
  }

  lemma {:induction false} SwitchedPath(r: Rules, seen: set<Block>, known: Tree, index: map<Hash, IndexRec>, m: Memory,
                                        chain: seq<Block>, fork: nat, branch: seq<Hash>, k: nat)
    requires IndexOk(r, seen, known, index) && MainOk(r, known, index, m, chain)
    requires BranchOk(known, index, m, fork, branch) && k <= |branch|
    ensures var c := Switched(chain, fork, BranchBlocks(index, branch));
      PathOk(known, SwitchedHashes(m, fork, branch, k), c[..fork + 1 + k])
    ensures AllSeen(seen, Switched(chain, fork, BranchBlocks(index, branch)))
  {
    hide OnMain;
    hide MainOk;
    hide IndexOk;
    hide BranchStep;
    hide PathStep;
    hide AllSeen;
    MainPath(r, seen, known, index, m, chain);
    MainShape(r, known, index, m, chain);
    SwitchedSeen(r, seen, known, index, m, chain, fork, branch);
    var hs := SwitchedHashes(m, fork, branch, k);
    var cs := Switched(chain, fork, BranchBlocks(index, branch))[..fork + 1 + k];
    forall i | 0 <= i < |hs|
      ensures hs[i] in known && known[hs[i]].height == i && known[hs[i]].header == cs[i].header
      ensures i > 0 ==> PathStep(hs, cs, i)
    {
      SwitchedEntry(r, seen, known, index, m, chain, fork, branch, k, i);
    }
  }

  lemma MainShape(r: Rules, known: Tree, index: map<Hash, IndexRec>, m: Memory, chain: seq<Block>)
    requires MainOk(r, known, index, m, chain)
    ensures |chain| == m.tipHeight + 1
    ensures forall i :: i in m.hashByHeight <==> 0 <= i <= m.tipHeight
  {
  }

  // ---------- Phase 2: the indexes after the commit ----------

  /** After k branch blocks were connected: their undo data and height entries are
      written, everything else is as before. */
  ghost predicate Written(r: Rules, index0: map<Hash, IndexRec>, m0: Memory, fork: nat, branch: seq<Hash>,
                          c: seq<Block>, k: nat, index: map<Hash, IndexRec>, heights: map<Hash, nat>,
                          hashes: map<nat, Hash>)
    requires k <= |branch| && |c| == fork + 1 + |branch| && forall j :: 0 <= j < |branch| ==> branch[j] in index0
  {
    && UndoWritten(r, index0, fork, branch, c, k, index)
    && HeightsWritten(m0.heightByHash, fork, branch, k, heights)
    && HashesWritten(m0.hashByHeight, fork, branch, k, hashes)
  }

  ghost predicate UndoWritten(r: Rules, index0: map<Hash, IndexRec>, fork: nat, branch: seq<Hash>, c: seq<Block>,
                              k: nat, index: map<Hash, IndexRec>)
    requires k <= |branch| && |c| == fork + 1 + |branch| && forall j :: 0 <= j < |branch| ==> branch[j] in index0
  {
    && index.Keys == index0.Keys
    && (forall x :: x in index0 && x !in branch[..k] ==> index[x] == index0[x])
    && (forall j :: 0 <= j < k ==> index[branch[j]] == index0[branch[j]].(undo := Some(UndoFor(r, c, fork + 1 + j))))
  }

  ghost predicate HeightsWritten(heights0: map<Hash, nat>, fork: nat, branch: seq<Hash>, k: nat,
                                 heights: map<Hash, nat>)
    requires k <= |branch|
  {
    && (forall x :: x in heights <==> x in heights0 || x in branch[..k])
    && (forall x :: x in heights && x !in branch[..k] ==> heights[x] == heights0[x])
    && (forall j :: 0 <= j < k ==> heights[branch[j]] == fork + 1 + j)
  }

  ghost predicate HashesWritten(hashes0: map<nat, Hash>, fork: nat, branch: seq<Hash>, k: nat, hashes: map<nat, Hash>)
    requires k <= |branch|
  {
    && (forall i :: i in hashes <==> i in hashes0 || fork < i <= fork + k)
    && (forall i :: i in hashes ==> hashes[i] == if fork < i <= fork + k then branch[i - fork - 1] else hashes0[i])
  }

  lemma {:induction false} WrittenNothing(r: Rules, index0: map<Hash, IndexRec>, m0: Memory, fork: nat,
                                          branch: seq<Hash>, c: seq<Block>)
    requires |c| == fork + 1 + |branch| && forall j :: 0 <= j < |branch| ==> branch[j] in index0
    ensures Written(r, index0, m0, fork, branch, c, 0, index0, m0.heightByHash, m0.hashByHeight)
  {
    hide UndoFor;
  }

  lemma {:induction false} BranchDistinct(known: Tree, index: map<Hash, IndexRec>, m: Memory, fork: nat,
                                          branch: seq<Hash>, k: nat)
    requires BranchOk(known, index, m, fork, branch) && k < |branch|
    ensures branch[k] !in branch[..k] && branch[..k + 1] == branch[..k] + [branch[k]]
  {
    hide BranchStep;
    hide OnMain;
    forall j | 0 <= j < k ensures branch[j] != branch[k] {
      assert known[branch[j]].height == fork + 1 + j;
    }
  }

  lemma {:induction false} WriteUndo(r: Rules, index0: map<Hash, IndexRec>, fork: nat, branch: seq<Hash>, c: seq<Block>,
                                     k: nat, index: map<Hash, IndexRec>)
    requires k < |branch| && |c| == fork + 1 + |branch| && forall j :: 0 <= j < |branch| ==> branch[j] in index0
    requires branch[k] !in branch[..k] && branch[..k + 1] == branch[..k] + [branch[k]]
    requires UndoWritten(r, index0, fork, branch, c, k, index)
    ensures branch[k] in index && index[branch[k]] == index0[branch[k]]
    ensures UndoWritten(r, index0, fork, branch, c, k + 1,
                        index[branch[k] := index[branch[k]].(undo := Some(UndoFor(r, c, fork + 1 + k)))])
  {
    hide UndoFor;
    forall j | 0 <= j < k ensures branch[j] != branch[k] {
      assert branch[..k][j] == branch[j];
    }
  }

  lemma {:induction false} WriteHeight(heights0: map<Hash, nat>, fork: nat, branch: seq<Hash>, k: nat,
                                       heights: map<Hash, nat>)
    requires k < |branch| && branch[k] !in branch[..k] && branch[..k + 1] == branch[..k] + [branch[k]]
    requires HeightsWritten(heights0, fork, branch, k, heights)
    ensures HeightsWritten(heights0, fork, branch, k + 1, heights[branch[k] := fork + 1 + k])
  {
    forall j | 0 <= j < k ensures branch[j] != branch[k] {
      assert branch[..k][j] == branch[j];
    }
  }

  lemma {:induction false} WriteOne(r: Rules, known: Tree, index0: map<Hash, IndexRec>, m0: Memory, fork: nat,
                                    branch: seq<Hash>, c: seq<Block>, k: nat, index: map<Hash, IndexRec>,
                                    heights: map<Hash, nat>, hashes: map<nat, Hash>)
    requires BranchOk(known, index0, m0, fork, branch) && k < |branch| && |c| == fork + 1 + |branch|
    requires Written(r, index0, m0, fork, branch, c, k, index, heights, hashes)
    ensures branch[k] in index && index[branch[k]] == index0[branch[k]]
    ensures Written(r, index0, m0, fork, branch, c, k + 1,
                    index[branch[k] := index[branch[k]].(undo := Some(UndoFor(r, c, fork + 1 + k)))],
                    heights[branch[k] := fork + 1 + k], hashes[fork + 1 + k := branch[k]])
  {
    hide UndoFor;
    hide UndoWritten;
    hide HeightsWritten;
    BranchDistinct(known, index0, m0, fork, branch, k);
    WriteUndo(r, index0, fork, branch, c, k, index);
    WriteHeight(m0.heightByHash, fork, branch, k, heights);
  }

  /** The hashes of the main chain at heights fork + 1, ..., i - 1. */
  ghost function OldHashes(m: Memory, fork: nat, i: nat): set<Hash>
    requires forall j :: fork < j < i ==> j in m.hashByHeight
    decreases i
  {
    if i <= fork + 1 then {} else OldHashes(m, fork, i - 1) + {m.hashByHeight[i - 1]}
  }

  lemma {:induction false} OldHashesAre(m: Memory, fork: nat, i: nat, x: Hash)
    requires forall j :: fork < j < i ==> j in m.hashByHeight
    ensures x in OldHashes(m, fork, i) <==> exists j :: fork < j < i && m.hashByHeight[j] == x
    decreases i
  {
    if i > fork + 1 {
      OldHashesAre(m, fork, i - 1, x);
    }
  }

  /** The state after the old branch's entries are removed is consistent again, with
      the switched chain as main chain. */
  lemma {:induction false} SwitchState(r: Rules, seen: set<Block>, known: Tree, index0: map<Hash, IndexRec>, m0: Memory,
                                       chain: seq<Block>, utxos0: Utxos, fork: nat, branch: seq<Hash>,
                                       index: map<Hash, IndexRec>, heights: map<Hash, nat>, hashes: map<nat, Hash>,
                                       m': Memory)
    requires StateOk(r, seen, known, index0, m0, chain, utxos0) && BranchOk(known, index0, m0, fork, branch)
    requires |branch| > 0
    requires fork < |chain| && ValidChain(r, Switched(chain, fork, BranchBlocks(index0, branch)))
    requires Written(r, index0, m0, fork, branch, Switched(chain, fork, BranchBlocks(index0, branch)), |branch|, index,
                     heights, hashes)
    requires forall j :: fork < j < m0.tipHeight + 1 ==> j in m0.hashByHeight
    requires m'.heightByHash == heights - OldHashes(m0, fork, m0.tipHeight + 1)
    requires forall i :: i in m'.hashByHeight <==> 0 <= i <= fork + |branch|
    requires forall i :: i in m'.hashByHeight ==> i in hashes && m'.hashByHeight[i] == hashes[i]
    requires m'.tipHeight == fork + |branch| && m'.tipHash == branch[|branch| - 1]
    requires m'.tipWork == known[m'.tipHash].work
    ensures var c := Switched(chain, fork, BranchBlocks(index0, branch));
      StateOk(r, seen, known, index, m', c, Replay(r, c))
  {
    hide World;
    hide TreeOk;
    hide ValidChain;
    hide Replay;
    hide MainOk;
    hide IndexOk;
    hide Written;
    hide OldHashes;
    hide OnMain;
    hide BranchStep;
    var blocks := BranchBlocks(index0, branch);
    WrittenIndexOk(r, seen, known, index0, m0, fork, branch, Switched(chain, fork, blocks), index, heights, hashes);
    WrittenHeightsOk(r, known, index0, m0, fork, branch, Switched(chain, fork, blocks), index, heights, hashes);
    SwitchedMain(r, seen, known, index0, m0, chain, fork, branch, index, heights, hashes, m');
  }

  lemma {:induction false} WrittenIndexOk(r: Rules, seen: set<Block>, known: Tree, index0: map<Hash, IndexRec>,
                                          m0: Memory, fork: nat, branch: seq<Hash>, c: seq<Block>,
                                          index: map<Hash, IndexRec>, heights: map<Hash, nat>, hashes: map<nat, Hash>)
    requires IndexOk(r, seen, known, index0) && |c| == fork + 1 + |branch|
    requires forall j :: 0 <= j < |branch| ==> branch[j] in index0
    requires Written(r, index0, m0, fork, branch, c, |branch|, index, heights, hashes)
    ensures IndexOk(r, seen, known, index)
  {
    hide UndoFor;
    forall x | x in index ensures RecOk(r, seen, known, x, index[x]) {
      assert RecOk(r, seen, known, x, index0[x]);
      if x in branch[..|branch|] {
        var j :| 0 <= j < |branch| && branch[j] == x;
      }
    }
  }

  lemma {:induction false} WrittenHeightsOk(r: Rules, known: Tree, index0: map<Hash, IndexRec>, m0: Memory, fork: nat,
                                            branch: seq<Hash>, c: seq<Block>, index: map<Hash, IndexRec>,
                                            heights: map<Hash, nat>, hashes: map<nat, Hash>)
    requires BranchOk(known, index0, m0, fork, branch) && HeightsOk(known, m0.heightByHash)
    requires |c| == fork + 1 + |branch|
    requires Written(r, index0, m0, fork, branch, c, |branch|, index, heights, hashes)
    ensures HeightsOk(known, heights)
  {
    hide UndoFor;
    hide BranchStep;
    forall x | x in heights ensures x in known && heights[x] == known[x].height {
      if x in branch[..|branch|] {
        var j :| 0 <= j < |branch| && branch[j] == x;
      }
    }
  }

  lemma {:induction false} SwitchedMain(r: Rules, seen: set<Block>, known: Tree, index0: map<Hash, IndexRec>,
                                        m0: Memory, chain: seq<Block>, fork: nat, branch: seq<Hash>,
                                        index: map<Hash, IndexRec>, heights: map<Hash, nat>, hashes: map<nat, Hash>,
                                        m': Memory)
    requires MainOk(r, known, index0, m0, chain) && IndexOk(r, seen, known, index0) && HeightsOk(known, m'.heightByHash)
    requires BranchOk(known, index0, m0, fork, branch) && |branch| > 0 && fork < |chain|
    requires Written(r, index0, m0, fork, branch, Switched(chain, fork, BranchBlocks(index0, branch)), |branch|, index,
                     heights, hashes)
    requires forall j :: fork < j < m0.tipHeight + 1 ==> j in m0.hashByHeight
    requires m'.heightByHash == heights - OldHashes(m0, fork, m0.tipHeight + 1)
    requires forall i :: i in m'.hashByHeight <==> 0 <= i <= fork + |branch|
    requires forall i :: i in m'.hashByHeight ==> i in hashes && m'.hashByHeight[i] == hashes[i]
    requires m'.tipHeight == fork + |branch| && m'.tipHash == branch[|branch| - 1]
    requires m'.tipWork == known[m'.tipHash].work
    ensures MainOk(r, known, index, m', Switched(chain, fork, BranchBlocks(index0, branch)))
  {
    hide UndoFor;
    hide LinkedAt;
    hide BranchStep;
    hide MainEntry;
    hide OnMain;
    hide OldHashes;
    hide UndoWritten;
    hide HeightsWritten;
    hide HashesWritten;
    hide MainOk;
    hide HeightsOk;
    hide IndexOk;
    var blocks := BranchBlocks(index0, branch);
    OldRecsKept(r, known, index0, m0, chain, fork, branch, index);
    NewRecsWritten(r, seen, known, index0, m0, chain, fork, branch, index);
    NewHeightsKept(r, known, index0, m0, chain, fork, branch, heights, hashes, m');
    NewHashes(m0, fork, branch, hashes, m');
    SwitchMain(r, known, index0, m0, chain, fork, branch, blocks, index, m');
  }

  lemma NewHashes(m0: Memory, fork: nat, branch: seq<Hash>, hashes: map<nat, Hash>, m': Memory)
    requires HashesWritten(m0.hashByHeight, fork, branch, |branch|, hashes)
    requires forall i :: i in m'.hashByHeight <==> 0 <= i <= fork + |branch|
    requires forall i :: i in m'.hashByHeight ==> i in hashes && m'.hashByHeight[i] == hashes[i]
    ensures forall i :: 0 <= i <= fork ==> i in m0.hashByHeight
    ensures forall i :: i in m'.hashByHeight ==>
      m'.hashByHeight[i] == (if i <= fork then m0.hashByHeight[i] else branch[i - fork - 1])
  {
    forall i | 0 <= i <= fork ensures i in m0.hashByHeight {
      assert i in m'.hashByHeight;
    }
  }

  lemma {:induction false} OldRecsKept(r: Rules, known: Tree, index0: map<Hash, IndexRec>, m0: Memory,
                                       chain: seq<Block>, fork: nat, branch: seq<Hash>, index: map<Hash, IndexRec>)
    requires MainOk(r, known, index0, m0, chain) && BranchOk(known, index0, m0, fork, branch) && fork < |chain|
    requires UndoWritten(r, index0, fork, branch, Switched(chain, fork, BranchBlocks(index0, branch)), |branch|, index)
    ensures forall i :: 0 <= i <= fork ==>
      i in m0.hashByHeight && m0.hashByHeight[i] in index && index[m0.hashByHeight[i]] == index0[m0.hashByHeight[i]]
  {
    hide UndoFor;
    hide BranchOk;
    hide MainEntry;
    hide LinkedAt;
    forall i | 0 <= i <= fork
      ensures i in m0.hashByHeight && m0.hashByHeight[i] in index
      ensures index[m0.hashByHeight[i]] == index0[m0.hashByHeight[i]]
    {
      OldNotInBranch(r, known, index0, m0, chain, fork, branch, i);
    }
  }

  lemma {:induction false} NewRecsWritten(r: Rules, seen: set<Block>, known: Tree, index0: map<Hash, IndexRec>,
                                          m0: Memory, chain: seq<Block>, fork: nat, branch: seq<Hash>,
                                          index: map<Hash, IndexRec>)
    requires IndexOk(r, seen, known, index0) && BranchOk(known, index0, m0, fork, branch) && fork < |chain|
    requires UndoWritten(r, index0, fork, branch, Switched(chain, fork, BranchBlocks(index0, branch)), |branch|, index)
    ensures forall k :: 0 <= k < |branch| ==>
      && branch[k] in index && index[branch[k]].block == index0[branch[k]].block
      && index[branch[k]].undo == Some(UndoFor(r, Switched(chain, fork, BranchBlocks(index0, branch)), fork + 1 + k))
    ensures forall k :: 0 <= k < |branch| ==> index0[branch[k]].block.header == known[branch[k]].header
  {
    hide UndoFor;
    hide BranchStep;
    hide OnMain;
    forall k | 0 <= k < |branch| ensures index0[branch[k]].block.header == known[branch[k]].header {
      assert RecOk(r, seen, known, branch[k], index0[branch[k]]);
    }
  }

  lemma {:induction false} NewHeightsKept(r: Rules, known: Tree, index0: map<Hash, IndexRec>, m0: Memory,
                                          chain: seq<Block>, fork: nat, branch: seq<Hash>, heights: map<Hash, nat>,
                                          hashes: map<nat, Hash>, m': Memory)
    requires MainOk(r, known, index0, m0, chain) && BranchOk(known, index0, m0, fork, branch)
    requires HeightsWritten(m0.heightByHash, fork, branch, |branch|, heights)
    requires HashesWritten(m0.hashByHeight, fork, branch, |branch|, hashes)
    requires forall j :: fork < j < m0.tipHeight + 1 ==> j in m0.hashByHeight
    requires m'.heightByHash == heights - OldHashes(m0, fork, m0.tipHeight + 1)
    requires forall i :: i in m'.hashByHeight <==> 0 <= i <= fork + |branch|
    requires forall i :: i in m'.hashByHeight ==> i in hashes && m'.hashByHeight[i] == hashes[i]
    ensures forall i :: i in m'.hashByHeight ==> m'.hashByHeight[i] in m'.heightByHash
  {
    hide MainOk;
    hide BranchOk;
    hide OldHashes;
    forall i | i in m'.hashByHeight ensures m'.hashByHeight[i] in m'.heightByHash {
      KeptEntry(r, known, index0, m0, chain, fork, branch, i, m'.hashByHeight[i]);
    }
  }

  lemma {:induction false} OldNotInBranch(r: Rules, known: Tree, index0: map<Hash, IndexRec>, m0: Memory,
                                          chain: seq<Block>, fork: nat, branch: seq<Hash>, i: nat)
    requires MainOk(r, known, index0, m0, chain) && BranchOk(known, index0, m0, fork, branch) && i <= m0.tipHeight
    ensures m0.hashByHeight[i] in index0 && m0.hashByHeight[i] in m0.heightByHash && m0.hashByHeight[i] !in branch
    ensures m0.hashByHeight[i] !in branch[..|branch|]
  {
    hide UndoFor;
    hide BranchStep;
    assert MainEntry(r, known, index0, m0.heightByHash, m0.hashByHeight[i], i, chain);
    assert OnMain(m0, m0.hashByHeight[i]);
  }

  /** The hash at height i of the new main chain is not among the removed ones. */
  lemma {:induction false} KeptEntry(r: Rules, known: Tree, index0: map<Hash, IndexRec>, m0: Memory, chain: seq<Block>,
                                     fork: nat, branch: seq<Hash>, i: nat, x: Hash)
    requires MainOk(r, known, index0, m0, chain) && BranchOk(known, index0, m0, fork, branch) && i <= fork + |branch|
    requires forall j :: fork < j < m0.tipHeight + 1 ==> j in m0.hashByHeight
    requires if i <= fork then i in m0.hashByHeight && x == m0.hashByHeight[i] else x == branch[i - fork - 1]
    ensures x !in OldHashes(m0, fork, m0.tipHeight + 1)
    ensures x in m0.heightByHash || x in branch[..|branch|]
  {
    hide UndoFor;
    hide BranchStep;
    OldHashesAre(m0, fork, m0.tipHeight + 1, x);
    forall j | fork < j < m0.tipHeight + 1 ensures m0.hashByHeight[j] != x {
      OldNotInBranch(r, known, index0, m0, chain, fork, branch, j);
      assert MainEntry(r, known, index0, m0.heightByHash, m0.hashByHeight[j], j, chain);
      if i <= fork {
        assert MainEntry(r, known, index0, m0.heightByHash, x, i, chain);
      }
    }
    if i <= fork {
      assert MainEntry(r, known, index0, m0.heightByHash, x, i, chain);
    } else {
      assert branch[..|branch|][i - fork - 1] == x;
    }
  }
}
