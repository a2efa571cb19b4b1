/** The side-chain-aware ancestor lookup of the chain manager
    (internal/chain/chain.go, buildAncestorLookup). */
module AncestorLookup {
  import opened Types
  import opened ChainState

  /** Every header from h down to the main chain is still in the store. */
  ghost predicate StoredWalk(r: Rules, seen: set<Block>, known: Tree, index: map<Hash, IndexRec>, m: Memory, h: Hash)
    requires TreeOk(r, seen, known) && h in known
    decreases known[h].height
  {
    assert NodeOk(r, seen, known, h);
    OnMain(m, h) ||
    (h in index && known[h].height > 0 && StoredWalk(r, seen, known, index, m, known[h].header.prevBlock))
  }

  /** One step of the walk from a block off the main chain. */
  lemma WalkStep(r: Rules, seen: set<Block>, known: Tree, index: map<Hash, IndexRec>, m: Memory, h: Hash)
    requires TreeOk(r, seen, known) && h in known && !OnMain(m, h) && known[h].height > 0
    ensures known[h].header.prevBlock in known
    ensures h !in index ==> !StoredWalk(r, seen, known, index, m, h)
    ensures h in index ==>
      (StoredWalk(r, seen, known, index, m, h) <==> StoredWalk(r, seen, known, index, m, known[h].header.prevBlock))
    ensures OnMain(m, known[h].header.prevBlock) ==> StoredWalk(r, seen, known, index, m, known[h].header.prevBlock)
  {
    assert NodeOk(r, seen, known, h);
  }

  /** The closure the walk returns: collected side-chain headers first, then the main chain. */
  function LookupIn(ancestors: map<nat, BlockHeader>, hashByHeight: map<nat, Hash>, index: map<Hash, IndexRec>,
                    height: nat): Option<BlockHeader> {
    if height in ancestors then Some(ancestors[height])
    else if height in hashByHeight && hashByHeight[height] in index then Some(index[hashByHeight[height]].block.header)
    else None
  }

  /** What the walk has collected when it stands at `current`, height h. */
  ghost predicate Collected(r: Rules, seen: set<Block>, known: Tree, parent: Hash, current: Hash, h: nat,
                            ancestors: map<nat, BlockHeader>)
    requires TreeOk(r, seen, known) && parent in known
  {
    && current in known && known[current].height == h <= known[parent].height
    && AncestorAt(r, seen, known, parent, h) == current
    && (forall i :: i in ancestors <==> h < i <= known[parent].height)
    && (forall i :: i in ancestors ==>
          AncestorAt(r, seen, known, parent,
                     i) in known && ancestors[i] == known[AncestorAt(r, seen, known, parent, i)].header)
  }

  /** The lookup for children of a block: it is the plain walk along parents exactly when
      the headers from that block down to the main chain are all stored. Where one is
      missing, the lookup answers with main-chain headers below it. */
  method BuildAncestorLookup(r: Rules, index: map<Hash, IndexRec>, m: Memory, parentHash: Hash, parentHeight: nat,
                             ghost seen: set<Block>, ghost known: Tree, ghost chain: seq<Block>)
    returns (anc: Ancestors)
    requires World(r, seen) && TreeOk(r, seen, known) && IndexOk(r, seen, known, index)
    requires HeightsOk(known, m.heightByHash)
    requires MainOk(r, known, index, m, chain)
    requires parentHash in known && known[parentHash].height == parentHeight
    ensures StoredWalk(r, seen, known, index, m, parentHash) <==> WalksLike(r, seen, known, parentHash, anc)
  {
    hide World;
    hide MainOk;
    hide IndexOk;
    hide HeightsOk;
    hide OnMain;
    Collecting(r, seen, known, parentHash);
    var ancestors: map<nat, BlockHeader> := map[];
    var current := parentHash;
    var h := parentHeight;
    ghost var complete := false;
    while true
      invariant Collected(r, seen, known, parentHash, current, h, ancestors)
      invariant StoredWalk(r, seen, known, index, m, parentHash) <==> StoredWalk(r, seen, known, index, m, current)
      decreases h
    {
      if h in m.hashByHeight && m.hashByHeight[h] == current {
        complete := true;
        break;
      }
      OffMainHere(r, seen, known, index, m, chain, current, h);
      if current !in index {
        break;
      }
      var header := index[current].block.header;
      CollectOne(r, seen, known, parentHash, current, h, ancestors);
      ancestors := ancestors[h := header];
      if header.prevBlock == ZERO_HASH {
        break;
      }
      current := header.prevBlock;
      if h == 0 {
        break;
      }
      h := h - 1;
    }
    anc := (height: nat) => LookupIn(ancestors, m.hashByHeight, index, height);
    if complete {
      MainIsStored(r, seen, known, index, m, chain, current, h);
      LookupComplete(r, seen, known, index, m, chain, parentHash, current, h, ancestors, anc);
    } else {
      LookupBroken(r, seen, known, index, m, parentHash, current, h, ancestors, anc);
    }
  }

  lemma MainIsStored(r: Rules, seen: set<Block>, known: Tree, index: map<Hash, IndexRec>, m: Memory, chain: seq<Block>,
                     h: Hash, height: nat)
    requires TreeOk(r, seen, known) && MainOk(r, known, index, m, chain) && h in known
    requires height in m.hashByHeight && m.hashByHeight[height] == h
    ensures StoredWalk(r, seen, known, index, m, h)
  {
    hide UndoFor;
    assert MainEntry(r, known, index, m.heightByHash, h, height, chain);
  }

  /** A walk that stops at a missing header gives a wrong answer at its height. */
  lemma {:induction false} LookupBroken(r: Rules, seen: set<Block>, known: Tree, index: map<Hash, IndexRec>, m: Memory,
                                        parent: Hash, current: Hash, h: nat, ancestors: map<nat, BlockHeader>,
                                        anc: Ancestors)
    requires TreeOk(r, seen, known) && IndexOk(r, seen, known, index)
    requires parent in known && Collected(r, seen, known, parent, current, h, ancestors)
    requires current !in index && !OnMain(m, current) && !(h in m.hashByHeight && m.hashByHeight[h] == current)
    requires anc(h) == LookupIn(ancestors, m.hashByHeight, index, h)
    ensures !StoredWalk(r, seen, known, index, m, current) && !WalksLike(r, seen, known, parent, anc)
  {
    assert NodeOk(r, seen, known, current);
    if h in m.hashByHeight && m.hashByHeight[h] in index {
      var other := m.hashByHeight[h];
      assert RecOk(r, seen, known, other, index[other]);
      assert NodeOk(r, seen, known, other);
      assert r.blockHash(known[other].header) != r.blockHash(known[current].header);
    }
    assert anc(h) != Some(known[current].header);
  }

  lemma Collecting(r: Rules, seen: set<Block>, known: Tree, parent: Hash)
    requires TreeOk(r, seen, known) && parent in known
    ensures Collected(r, seen, known, parent, parent, known[parent].height, map[])
  {
  }

  /** The walk tests the main chain by height; off it, the stored walk must go on. */
  lemma {:induction false} OffMainHere(r: Rules, seen: set<Block>, known: Tree, index: map<Hash, IndexRec>, m: Memory,
                                       chain: seq<Block>, current: Hash, h: nat)
    requires World(r, seen) && TreeOk(r, seen, known) && IndexOk(r, seen, known, index)
    requires HeightsOk(known, m.heightByHash) && MainOk(r, known, index, m, chain)
    requires current in known && known[current].height == h
    requires !(h in m.hashByHeight && m.hashByHeight[h] == current)
    ensures !OnMain(m, current) && h > 0
    ensures known[current].header.prevBlock in known && known[current].header.prevBlock != ZERO_HASH
    ensures current in index ==> index[current].block.header == known[current].header
  {
    hide MainEntry;
    assert NodeOk(r, seen, known, current);
    if current in index {
      assert RecOk(r, seen, known, current, index[current]);
    }
    if h > 0 {
      assert NodeOk(r, seen, known, known[current].header.prevBlock);
    }
  }

  lemma {:induction false} CollectOne(r: Rules, seen: set<Block>, known: Tree, parent: Hash, current: Hash, h: nat,
                                      ancestors: map<nat, BlockHeader>)
    requires TreeOk(r, seen, known) && parent in known && h > 0
    requires Collected(r, seen, known, parent, current, h, ancestors)
    ensures known[current].header.prevBlock in known
    ensures Collected(r, seen, known, parent, known[current].header.prevBlock, h - 1,
                      ancestors[h := known[current].header])
  {
    assert NodeOk(r, seen, known, current);
    AncestorCompose(r, seen, known, parent, h, h - 1);
  }

  lemma {:induction false} LookupComplete(r: Rules, seen: set<Block>, known: Tree, index: map<Hash, IndexRec>,
                                          m: Memory, chain: seq<Block>, parent: Hash, current: Hash, h: nat,
                                          ancestors: map<nat, BlockHeader>, anc: Ancestors)
    requires TreeOk(r, seen, known) && IndexOk(r, seen, known, index) && MainOk(r, known, index, m, chain)
    requires parent in known && Collected(r, seen, known, parent, current, h, ancestors)
    requires h in m.hashByHeight && m.hashByHeight[h] == current
    requires forall i: nat :: anc(i) == LookupIn(ancestors, m.hashByHeight, index, i)
    ensures WalksLike(r, seen, known, parent, anc)
  {
    MainPath(r, seen, known, index, m, chain);
    var hs := MainHashes(m.hashByHeight, m.tipHeight + 1);
    forall i | 0 <= i <= known[parent].height
      ensures AncestorAt(r, seen, known, parent, i) in known
      ensures anc(i) == Some(known[AncestorAt(r, seen, known, parent, i)].header)
    {
      if i <= h {
        AncestorCompose(r, seen, known, parent, h, i);
        AncestorOnPath(r, seen, known, hs, chain, h, i);
        assert MainEntry(r, known, index, m.heightByHash, m.hashByHeight[i], i, chain);
      }
    }
  }
}
