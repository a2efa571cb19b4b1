/** The chain manager (internal/chain/chain.go). */
module Chains {
  import opened Types
  import opened Maps
  import opened Utxo
  import opened UtxoSets
  import opened TxValidation
  import opened BlockValidation
  import opened MedianTime
  import opened Ledger
  import opened ChainState
  import opened Persistence
  import opened AncestorLookup
  import opened Reorg
  import opened Recovery
  import opened Closure
  import opened HeaderRules
  import opened Commits
  import opened ChainRules

  class Chain {
    const r: Rules
    const utxoSet: UtxoSet

    var tipHash: Hash
    var tipHeight: nat
    var tipWork: nat
    var heightByHash: map<Hash, nat>
    var hashByHeight: map<nat, Hash>
    var store: Store
    var reorgHistory: seq<ReorgRecord>
    var orphans: map<Hash, Orphan>

    ghost const seen: set<Block>
    ghost var known: Tree
    ghost var chain: seq<Block>

    function Mem(): Memory
      reads this`tipHash, this`tipHeight, this`tipWork, this`heightByHash, this`hashByHeight
    {
      Memory(tipHash, tipHeight, tipWork, heightByHash, hashByHeight)
    }

    ghost function Snap(): Snapshot
      reads this`tipHash, this`tipHeight, this`tipWork, this`heightByHash, this`hashByHeight
      reads this`store, this`known, this`chain, this`reorgHistory
    {
      Snapshot(known, store, Mem(), chain, reorgHistory)
    }

    ghost predicate Valid()
      reads this`tipHash, this`tipHeight, this`tipWork, this`heightByHash, this`hashByHeight
      reads this`store, this`known, this`chain, utxoSet
    {
      && StateOk(r, seen, known, store.index, Mem(), chain, utxoSet.entries)
      && Durable(store, Mem(), utxoSet.entries)
    }

    /** The invariant between calls: a valid state, orphans that are not waiting for a
        block already on a side chain, and every height entry backed by a record. Without
        a depth limit no stored block builds on one with more work than the tip. */
    ghost predicate Ready()
      reads this, utxoSet
    {
      && Valid()
      && OrphansOk(r, seen, Mem(), orphans)
      && RecordsOk(r, store.index, heightByHash, tipWork)
    }

    constructor (r: Rules, store: Store, ghost seen: set<Block>)
      ensures this.r == r && this.store == store && this.seen == seen && fresh(utxoSet) && utxoSet.entries == map[]
      ensures heightByHash == map[] && hashByHeight == map[] && orphans == map[] && reorgHistory == []
    {
      this.r := r;
      this.store := store;
      this.seen := seen;
      tipHash, tipHeight, tipWork := ZERO_HASH, 0, 0;
      heightByHash, hashByHeight := map[], map[];
      known, chain := map[], [];
      reorgHistory := [];
      orphans := map[];
      utxoSet := new UtxoSet();
    }

    /** The extension path of processBlock: validates the inputs of a child of the tip
        and, if they are valid, connects it and moves the tip. `trace` lists the store
        after each write. */
    method ExtendTip(block: Block, blockHash: Hash, newHeight: nat, newWork: nat, faults: Faults)
      returns (ok: bool, trace: seq<Store>)
      requires Valid()
      requires block in seen && blockHash == r.blockHash(block.header) && blockHash !in heightByHash
      requires block.header.prevBlock == tipHash && newHeight == tipHeight + 1
      requires newWork == tipWork + r.weight(block.header)
      requires StructureOk(r, block, newHeight)
      modifies this`store, this`heightByHash, this`hashByHeight, this`tipHash, this`tipHeight, this`tipWork,
        this`chain, this`known, utxoSet
      ensures Valid()
      ensures ok == (BlockOk(r, old(chain), block) && faults == NO_FAULTS)
      ensures ok ==> Moved(old(Mem()), old(chain), block, blockHash, newWork)
      ensures !ok ==> chain == old(chain) && Mem() == old(Mem()) && utxoSet.entries == old(utxoSet.entries)
      ensures forall st :: st in trace ==>
        SurvivesCrash(r, seen, known, st, old(chain), block) && st.index == store.index
      ensures var rec := ConnectedRec(r, old(chain), block, newHeight, newWork);
        && (ok ==> ThreeWrites(old(store), trace, utxoSet.entries, blockHash, rec) && trace[2] == store)
        && (!ok ==> store == if BlockOk(r, old(chain), block) && !faults.block && !faults.undo && !faults.index
                             then old(store).(index := old(store).index[blockHash := rec]) else old(store))
      ensures Grew(r, old(known), known, block.header)
    {
      hide StateOk;
      hide BlockOk;
      hide Replay;
      hide StructureOk;
      TipFacts();
      var mtp := ParentMedianTime();
      HasTransactions(r, block, newHeight);
      JudgeBlock(r, chain, block, newHeight, mtp);
      var fees := ValidateTransactionInputs(r, utxoSet, block.txs, newHeight, mtp);
      if fees.None? || faults.block {
        return false, [];
      }
      ok, trace := ConnectTip(block, blockHash, newHeight, newWork, faults);
    }

    /** The tip moved from the end of chain0 to block. */
    ghost predicate Moved(m0: Memory, chain0: seq<Block>, block: Block, blockHash: Hash, newWork: nat)
      reads this
    {
      chain == chain0 + [block] && Mem() == Extended(m0, blockHash, newWork)
    }

    method ConnectTip(block: Block, blockHash: Hash, newHeight: nat, newWork: nat, faults: Faults)
      returns (ok: bool, trace: seq<Store>)
      requires Valid()
      requires block in seen && blockHash == r.blockHash(block.header) && blockHash !in heightByHash
      requires block.header.prevBlock == tipHash && newHeight == tipHeight + 1
      requires newWork == tipWork + r.weight(block.header)
      requires |chain| > 0 && BlockOk(r, chain, block)
      modifies this`store, this`heightByHash, this`hashByHeight, this`tipHash, this`tipHeight, this`tipWork,
        this`chain, this`known, utxoSet
      ensures Valid()
      ensures ok == !(faults.undo || faults.index || faults.utxo)
      ensures ok ==> Moved(old(Mem()), old(chain), block, blockHash, newWork)
      ensures !ok ==> chain == old(chain) && Mem() == old(Mem()) && utxoSet.entries == old(utxoSet.entries)
      ensures forall st :: st in trace ==>
        SurvivesCrash(r, seen, known, st, old(chain), block) && st.index == store.index
      ensures var rec := ConnectedRec(r, old(chain), block, newHeight, newWork);
        && (ok ==> ThreeWrites(old(store), trace, utxoSet.entries, blockHash, rec) && trace[2] == store)
        && (!ok ==> store == if !faults.undo && !faults.index
                             then old(store).(index := old(store).index[blockHash := rec]) else old(store))
      ensures Grew(r, old(known), known, block.header)
    {
      hide StateOk;
      hide BlockOk;
      hide CollectTxs;
      hide Finish;
      hide Disconnect;
      hide FreshBlock;
      hide Replay;
      hide Grew;
      hide OnMain;
      hide UndoFor;
      hide Recoverable;
      ghost var utxos0 := utxoSet.entries;
      NothingGrew(r, known, block.header);
      TipFacts();
      ExtendUtxos(r, seen, known, store.index, Mem(), chain, utxos0, block);
      var undo := utxoSet.ConnectBlock(r, block, newHeight);
      if faults.undo || faults.index {
        utxoSet.DisconnectBlock(r, block, undo.value);
        return false, [];
      }
      trace := IndexConnected(block, blockHash, newHeight, newWork, undo.value, utxos0);
      if faults.utxo {
        utxoSet.DisconnectBlock(r, block, undo.value);
        return false, trace;
      }
      PersistUtxoChanges(block, undo.value, blockHash, newHeight, utxos0);
      trace := trace + [store];
      AdvanceTip(block, blockHash, newHeight, newWork, MainHashes(hashByHeight, tipHeight + 1));
      trace := trace + [store];
      ok := true;
    }

    /** Writes the index record of a block that was just connected. The state is now
        consistent both for the old tip and for the new one. */
    method IndexConnected(block: Block, blockHash: Hash, newHeight: nat, newWork: nat, undo: seq<SpentOutput>,
                          ghost utxos0: Utxos)
      returns (trace: seq<Store>)
      requires StateOk(r, seen, known, store.index, Mem(), chain, utxos0) && Durable(store, Mem(), utxos0)
      requires block in seen && blockHash == r.blockHash(block.header) && blockHash !in heightByHash
      requires block.header.prevBlock == tipHash && newHeight == tipHeight + 1
      requires newWork == tipWork + r.weight(block.header)
      requires |chain| == newHeight && BlockOk(r, chain, block) && undo == UndoFor(r, chain + [block], |chain|)
      modifies this`store, this`known
      ensures var rec := ConnectedRec(r, chain, block, newHeight, newWork);
        store == old(store).(index := old(store).index[blockHash := rec])
      ensures Grew(r, old(known), known, block.header)
      ensures StateOk(r, seen, known, store.index, Mem(), chain, utxos0)
      ensures StateOk(r, seen, known, store.index, Extended(Mem(), blockHash, newWork), chain + [block],
                      Replay(r, chain + [block]))
      ensures forall i :: 0 <= i <= tipHeight ==> i in hashByHeight
      ensures trace == [store] && Recoverable(r, seen, known, store, MainHashes(hashByHeight, tipHeight + 1), chain)
    {
      hide StateOk;
      hide BlockOk;
      hide Replay;
      hide UndoFor;
      hide OnMain;
      hide StructureOk;
      hide Recoverable;
      var rec := IndexRec(block, newHeight, newWork, Some(undo));
      ConnectedFacts(r, seen, known, store.index, Mem(), chain, utxos0);
      BlockOkStructure(r, chain, block);
      StoreOffMain(r, seen, known, store.index, Mem(), chain, utxos0, block, rec, Mem());
      ExtendState(r, seen, known, store.index, Mem(), chain, utxos0, block, rec);
      GrownNode(r, seen, known, store.index, Mem(), chain, utxos0, block);
      store := store.(index := store.index[blockHash := rec]);
      known := known[blockHash := ChildNode(r, known, block.header)];
      StateRecoverable(r, seen, known, store, Mem(), chain, utxos0);
      trace := [store];
    }

    /** The chainstate batch of a connected block turns the old durable set into exactly
        the new in-memory set. */
    method PersistUtxoChanges(block: Block, undo: seq<SpentOutput>, blockHash: Hash, height: nat, ghost utxos0: Utxos)
      requires store.chainstate == utxos0 && FreshBlock(r, utxos0, block.txs)
      requires var v := CollectTxs(r, utxos0, block.txs, |block.txs|, height);
        v.Some? && undo == v.value.undo && utxoSet.entries == Finish(utxos0, v.value)
      modifies this`store
      ensures store == old(store).(chainstate := utxoSet.entries, bestBlock := Some(blockHash))
    {
      hide FreshBlock;
      hide CollectTxs;
      hide Finish;
      var batch := ConnectBatch(r, utxoSet.entries, block.txs, undo, store.chainstate);
      ConnectBatchExact(r, utxos0, block.txs, height);
      store := store.(chainstate := ApplyBatch(store.chainstate, batch, |batch|), bestBlock := Some(blockHash));
    }

    /** extendChain: records the new tip on disk and in memory. */
    method AdvanceTip(block: Block, blockHash: Hash, newHeight: nat, newWork: nat, ghost hs: seq<Hash>)
      requires StateOk(r, seen, known, store.index, Extended(Mem(), blockHash, newWork), chain + [block],
                       utxoSet.entries)
      requires store.chainstate == utxoSet.entries && store.bestBlock == Some(blockHash)
      requires store.tip == Some((tipHash, tipHeight)) && newHeight == tipHeight + 1
      requires |hs| == newHeight && hs[tipHeight] == tipHash
      requires forall i :: 0 <= i <= tipHeight ==> i in hashByHeight && hs[i] == hashByHeight[i]
      modifies this`store, this`heightByHash, this`hashByHeight, this`tipHash, this`tipHeight, this`tipWork, this`chain
      ensures Valid() && store == old(store).(tip := Some((blockHash, newHeight)))
      ensures Moved(old(Mem()), old(chain), block, blockHash, newWork)
      ensures Recoverable(r, seen, known, store, hs + [blockHash], chain)
      ensures Recoverable(r, seen, known, old(store), hs + [blockHash], chain)
    {
      hide StateOk;
      hide Recoverable;
      TipWriteRecoverable(r, seen, known, store, Mem(), chain + [block], utxoSet.entries, blockHash, newWork, hs);
      store := store.(tip := Some((blockHash, newHeight)));
      heightByHash := heightByHash[blockHash := newHeight];
      hashByHeight := hashByHeight[newHeight := blockHash];
      tipHash := blockHash;
      tipHeight := newHeight;
      tipWork := newWork;
      chain := chain + [block];
    }

    /** The median-time-past of the chain, as processBlock computes it for a child of the tip. */
    method ParentMedianTime() returns (mtp: U32)
      requires Valid()
      ensures mtp == ChainMedian(HeadersOf(chain))
    {
      hide Replay;
      hide ValidChain;
      TipEntry(r, known, store.index, Mem(), chain);
      var anc := BuildAncestorLookup(r, store.index, Mem(), tipHash, tipHeight, seen, known, chain);
      mtp := CalcMedianTimePast(tipHeight, anc);
      MainPath(r, seen, known, store.index, Mem(), chain);
      MedianOfPath(r, seen, known, MainHashes(hashByHeight, tipHeight + 1), chain, anc);
    }

    // ---------- Restart ----------

    /** Loads the chain from the store, or creates it. The node comes up on the store's
        chain, with the chainstate as its live set or, where that belongs to another block,
        with the replay of the chain, which is then written over the chainstate. It is
        consistent exactly if the store was intact: rebuilding never deletes stale entries. */
    method Init(ghost tree: Tree, ghost hs: seq<Hash>, ghost c: seq<Block>)
      requires Startable(r, seen, tree, store, hs, c)
      requires heightByHash == map[] && hashByHeight == map[] && orphans == map[] && utxoSet.entries == map[]
      modifies this`store, this`heightByHash, this`hashByHeight, this`tipHash, this`tipHeight, this`tipWork,
        this`chain, this`known, utxoSet
      ensures chain == c && known == tree && BareState(r, seen, known, store.index, Mem(), chain)
      ensures utxoSet.entries == LiveSet(r, old(store), hs, c)
      ensures store.chainstate == if Kept(old(store), hs) then old(store).chainstate
                                  else old(store).chainstate + Replay(r, c)
      ensures store.bestBlock == Some(tipHash) && store.tip == Some((tipHash, tipHeight))
      ensures tipHash == hs[|hs| - 1] && tipHeight == |hs| - 1
      ensures Valid() <==> Intact(r, old(store), hs, c)
      ensures forall h :: h in heightByHash ==> h in store.index
      ensures store.index == if old(store.tip).Some? then old(store.index) else WithGenesis(r, old(store.index))
      ensures old(store.tip).None? ==> heightByHash == map[GenesisHash(r) := 0]
    {
      hide Startable;
      hide StateOk;
      hide Replay;
      hide ValidChain;
      hide World;
      hide TreeOk;
      hide IndexOk;
      hide HoldsBlocks;
      hide HoldsUndo;
      hide BareState;
      known, chain := tree, c;
      ghost var hs0, c0 := StartFacts(r, seen, known, store, hs, c);
      OverwriteExact(store.chainstate, Replay(r, c));
      if store.tip.None? {
        ghost var _ := InitGenesis(hs);
        BareItself(r, seen, known, store.index, Mem(), chain);
        NoUndoNeeded(r, old(store).index, hs, c);
        return;
      }
      LoadIndex(hs0, c0);
      LoadUtxoSet(hs0, c0, hs, c);
      HeldBlocks(r, seen, known, store.index, hs, c);
      BareRecovered(r, seen, known, store.index, Mem(), hs, c);
      RightSet(r, seen, known, store.index, Mem(), c, utxoSet.entries);
    }

    /** Loads the live set from the chainstate, following it if it is ahead of the recorded
        tip, or rebuilds it if it belongs to another block. */
    method LoadUtxoSet(ghost hs0: seq<Hash>, ghost c0: seq<Block>, ghost hs: seq<Hash>, ghost c: seq<Block>)
      requires World(r, seen) && TreeOk(r, seen, known) && IndexOk(r, seen, known, store.index)
      requires ValidChain(r, c) && HoldsBlocks(r, known, store.index, hs, c)
      requires HoldsBlocks(r, known, store.index, hs0, c0) && store.tip == Some((tipHash, tipHeight))
      requires |hs0| > 0 && |hs| > 0 && tipHash == hs0[|hs0| - 1] && tipHeight == |hs0| - 1
      requires Loaded(known, store.index, Mem(), hs0) && utxoSet.entries == map[]
      requires (|hs0| < |hs| && Kept(store, hs)) || (hs0 == hs && NotAhead(store, hs[|hs| - 1], |hs| - 1))
      modifies this`store, this`hashByHeight, this`tipHash, this`tipHeight, this`tipWork, utxoSet
      ensures tipHash == hs[|hs| - 1] && tipHeight == |hs| - 1 && Loaded(known, store.index, Mem(), hs)
      ensures utxoSet.entries == LiveSet(r, old(store), hs, c)
      ensures store == old(store).(
        chainstate := if Kept(old(store), hs) then old(store).chainstate else old(store).chainstate + Replay(r, c),
        bestBlock := Some(tipHash), tip := Some((tipHash, tipHeight)))
    {
      hide Replay;
      hide ValidChain;
      hide World;
      hide TreeOk;
      hide IndexOk;
      hide HoldsBlocks;
      HeldHeight(r, seen, known, store.index, hs0, c0, |hs0| - 1);
      HeldHeight(r, seen, known, store.index, hs, c, |hs| - 1);
      if store.bestBlock.None? {
        RebuildUtxoSet(hs, c);
      } else if store.bestBlock.value == tipHash {
        utxoSet.entries := store.chainstate;
      } else if store.bestBlock.value in heightByHash && heightByHash[store.bestBlock.value] > tipHeight {
        AdvanceToChainstate(hs, c);
        utxoSet.entries := store.chainstate;
      } else {
        RebuildUtxoSet(hs, c);
      }
    }

    /** Reads the recorded tip and rebuilds the in-memory index of the chain below it. */
    method LoadIndex(ghost hs: seq<Hash>, ghost c: seq<Block>)
      requires TreeOk(r, seen, known) && HoldsBlocks(r, known, store.index, hs, c) && heightByHash == map[]
      requires |hs| > 0 && store.tip == Some((hs[|hs| - 1], |hs| - 1))
      modifies this`heightByHash, this`hashByHeight, this`tipHash, this`tipHeight, this`tipWork
      ensures tipHash == hs[|hs| - 1] && tipHeight == |hs| - 1
      ensures Loaded(known, store.index, Mem(), hs)
    {
      hide TreeOk;
      hide HoldsBlocks;
      tipHash, tipHeight := store.tip.value.0, store.tip.value.1;
      LoadHeights();
      hashByHeight, tipWork := WalkBack(tipHash, tipHeight, hs, c);
    }

    /** The chainstate is ahead of the recorded tip: follow it. */
    method AdvanceToChainstate(ghost hs: seq<Hash>, ghost c: seq<Block>)
      requires TreeOk(r, seen, known) && HoldsBlocks(r, known, store.index, hs, c)
      requires IndexOk(r, seen, known, store.index)
      requires |hs| > 0 && store.bestBlock == Some(hs[|hs| - 1]) && store.bestBlock.value in heightByHash
      requires heightByHash.Keys == store.index.Keys
      requires forall h :: h in heightByHash ==> heightByHash[h] == store.index[h].height
      modifies this`store, this`hashByHeight, this`tipHash, this`tipHeight, this`tipWork
      ensures store == old(store).(tip := Some((tipHash, tipHeight)))
      ensures tipHash == hs[|hs| - 1] && tipHeight == |hs| - 1 && Loaded(known, store.index, Mem(), hs)
    {
      hide TreeOk;
      hide HoldsBlocks;
      hide IndexOk;
      HeldHeight(r, seen, known, store.index, hs, c, |hs| - 1);
      tipHash, tipHeight := store.bestBlock.value, heightByHash[store.bestBlock.value];
      hashByHeight, tipWork := WalkBack(tipHash, tipHeight, hs, c);
      store := store.(tip := Some((tipHash, tipHeight)));
    }

    method LoadHeights()
      requires heightByHash == map[]
      modifies this`heightByHash
      ensures heightByHash.Keys == store.index.Keys
      ensures forall h :: h in heightByHash ==> heightByHash[h] == store.index[h].height
    {
      var todo := store.index.Keys;
      while todo != {}
        invariant todo <= store.index.Keys && heightByHash.Keys == store.index.Keys - todo
        invariant forall h :: h in heightByHash ==> heightByHash[h] == store.index[h].height
        decreases todo
      {
        var h :| h in todo;
        todo := todo - {h};
        heightByHash := heightByHash[h := store.index[h].height];
      }
    }

    /** Walks the block index back from a block of the stored chain to genesis. */
    method WalkBack(from: Hash, height: nat, ghost hs: seq<Hash>, ghost c: seq<Block>)
      returns (hashes: map<nat, Hash>, work: nat)
      requires TreeOk(r, seen, known) && HoldsBlocks(r, known, store.index, hs, c)
      requires height < |hs| && hs[height] == from
      ensures forall i :: i in hashes <==> 0 <= i <= height
      ensures forall i :: i in hashes ==> hashes[i] == hs[i]
      ensures from in known && work == known[from].work
    {
      hide TreeOk;
      hide UndoFor;
      hashes, work := map[], 0;
      var current := from;
      var h := height;
      while true
        invariant 0 <= h <= height && current == hs[h]
        invariant forall i :: i in hashes <==> h < i <= height
        invariant forall i :: i in hashes ==> hashes[i] == hs[i]
        invariant work + known[current].work == known[from].work
        decreases h
      {
        hashes := hashes[h := current];
        var header := store.index[current].block.header;
        PathWork(r, seen, known, hs, c, h);
        work := work + r.weight(header);
        if h == 0 {
          break;
        }
        current := header.prevBlock;
        h := h - 1;
      }
    }

    /** Replays all blocks of the main chain and writes the resulting set over the
        chainstate. */
    method RebuildUtxoSet(ghost hs: seq<Hash>, ghost c: seq<Block>)
      requires World(r, seen) && IndexOk(r, seen, known, store.index)
      requires ValidChain(r, c) && HoldsBlocks(r, known, store.index, hs, c)
      requires tipHeight + 1 == |hs| && Loaded(known, store.index, Mem(), hs)
      requires utxoSet.entries == map[]
      modifies this`store, utxoSet
      ensures utxoSet.entries == Replay(r, c)
      ensures store == old(store).(chainstate := old(store).chainstate + utxoSet.entries, bestBlock := Some(tipHash))
    {
      hide Replay;
      hide ValidChain;
      hide UndoFor;
      hide World;
      hide IndexOk;
      hide HoldsBlocks;
      HeldBlocks(r, seen, known, store.index, hs, c);
      var h := 0;
      while h <= tipHeight
        invariant 0 <= h <= tipHeight + 1 && store == old(store)
        invariant utxoSet.entries == if h == 0 then map[] else Replay(r, c[..h])
      {
        var block := store.index[hashByHeight[h]].block;
        if h == 0 {
          FirstBlock(r, c);
          utxoSet.ConnectGenesis(r, block);
        } else {
          HeldConnects(r, seen, known, store.index, hs, c, h);
          var undo := utxoSet.ConnectBlock(r, block, h);
        }
        h := h + 1;
      }
      assert c[..h] == c;
      store := store.(chainstate := store.chainstate + utxoSet.entries, bestBlock := Some(tipHash));
    }

    /** The first start: stores the genesis block and its outputs. A crash after any of
        the writes leaves a store to start from. */
    method InitGenesis(ghost hs: seq<Hash>) returns (ghost trace: seq<Store>)
      requires World(r, seen) && TreeOk(r, seen, known) && IndexOk(r, seen, known, store.index)
      requires chain == [r.params.genesis] && hs == [GenesisHash(r)]
      requires heightByHash == map[] && hashByHeight == map[] && utxoSet.entries == map[]
      requires store.tip.None?
      modifies this`store, this`heightByHash, this`hashByHeight, this`tipHash, this`tipHeight, this`tipWork, utxoSet
      ensures StateOk(r, seen, known, store.index, Mem(), chain, utxoSet.entries)
      ensures store.bestBlock == Some(tipHash) && store.tip == Some((tipHash, tipHeight))
      ensures store.chainstate == old(store).chainstate + utxoSet.entries
      ensures utxoSet.entries == Replay(r, chain)
      ensures store.index == WithGenesis(r, old(store).index) && heightByHash == map[GenesisHash(r) := 0]
      ensures tipHash == GenesisHash(r) && tipHeight == 0
      ensures old(store).bestBlock.None? && old(store).chainstate == map[] ==>
        forall st :: st in trace ==> Startable(r, seen, known, st, hs, chain)
    {
      hide World;
      hide TreeOk;
      hide IndexOk;
      hide StateOk;
      hide Startable;
      hide GenesisTxs;
      hide Replay;
      var genesisHash := r.blockHash(r.params.genesis.header);
      var genesisWork := r.weight(r.params.genesis.header);
      ghost var index0 := store.index;
      store := store.(index := store.index[genesisHash := IndexRec(r.params.genesis, 0, genesisWork, None)]);
      if store.bestBlock.None? {
        GenesisStartable(r, seen, known, index0, store);
      }
      trace := [store];
      store := store.(tip := Some((genesisHash, 0)));
      trace := trace + [store];
      AdoptGenesis();
      GenesisState(r, seen, known, index0, store.index, Mem());
      if old(store).chainstate == map[] {
        assert store.chainstate == utxoSet.entries;
        GenesisDone(r, seen, known, store, Mem(), utxoSet.entries);
      }
      trace := trace + [store];
    }

    /** Makes the stored genesis block the tip and connects its outputs. */
    method AdoptGenesis()
      requires heightByHash == map[] && hashByHeight == map[] && utxoSet.entries == map[]
      modifies this`store, this`heightByHash, this`hashByHeight, this`tipHash, this`tipHeight, this`tipWork, utxoSet
      ensures utxoSet.entries == GenesisUtxos(r)
      ensures store == old(store).(chainstate := old(store).chainstate + utxoSet.entries,
                                   bestBlock := Some(GenesisHash(r)))
      ensures Mem() == Memory(GenesisHash(r), 0, r.weight(r.params.genesis.header), map[GenesisHash(r) := 0],
                              map[0 := GenesisHash(r)])
    {
      hide GenesisTxs;
      var genesisHash := r.blockHash(r.params.genesis.header);
      tipHash, tipHeight, tipWork := genesisHash, 0, r.weight(r.params.genesis.header);
      heightByHash := heightByHash[genesisHash := 0];
      hashByHeight := hashByHeight[0 := genesisHash];
      utxoSet.ConnectGenesis(r, r.params.genesis);
      store := store.(chainstate := store.chainstate + utxoSet.entries, bestBlock := Some(tipHash));
    }

    // ---------- Reorganisation ----------

    /** Phase 0: walks from the new tip down to the main chain. */
    method FindBranch(newTipHash: Hash) returns (ok: bool, fork: nat, branch: seq<Hash>)
      requires Valid()
      requires newTipHash in known && !OnMain(Mem(), newTipHash)
      ensures ok <==> StoredWalk(r, seen, known, store.index, Mem(), newTipHash)
      ensures ok ==> BranchOk(known, store.index, Mem(), fork, branch)
      ensures ok ==> |branch| > 0 && branch[|branch| - 1] == newTipHash
    {
      hide MainOk;
      hide Replay;
      hide ValidChain;
      hide World;
      hide OnMain;
      hide StoredWalk;
      hide IndexOk;
      hide HeightsOk;
      hide Climbs;
      hide BranchOk;
      hide TreeOk;
      branch := [newTipHash];
      ClimbStart(known, store.index, Mem(), newTipHash);
      var current := newTipHash;
      while true
        invariant Climbs(known, store.index, Mem(), branch)
        invariant current in known && !OnMain(Mem(), current)
        invariant |branch| > 0 && branch[0] == current && branch[|branch| - 1] == newTipHash
        invariant StoredWalk(r, seen, known, store.index, Mem(), newTipHash) <==>
          StoredWalk(r, seen, known, store.index, Mem(), current)
        decreases known[current].height
      {
        OffMainHeight(r, seen, known, store.index, Mem(), chain, current);
        WalkStep(r, seen, known, store.index, Mem(), current);
        if current !in store.index {
          return false, 0, [];
        }
        var prevHash := store.index[current].block.header.prevBlock;
        IndexedHeader(r, seen, known, store.index, current);
        if OnMain(Mem(), prevHash) {
          MainHeight(Mem(), prevHash);
          BranchFound(r, seen, known, store.index, Mem(), chain, branch, prevHash);
          fork := heightByHash[prevHash];
          return true, fork, branch;
        }
        ClimbDown(r, seen, known, store.index, Mem(), branch, prevHash);
        branch := [prevHash] + branch;
        current := prevHash;
      }
    }

    /** Checks the depth limits and forgets records older than a day. */
    method WithinDepth(depth: nat, now: int) returns (ok: bool)
      modifies this`reorgHistory
      ensures ok == DepthOk(r.params, old(reorgHistory), depth, now)
      ensures reorgHistory == KeptHistory(r.params, old(reorgHistory), depth, now)
    {
      if r.params.maxReorgDepth > 0 && depth > r.params.maxReorgDepth {
        return false;
      }
      if r.params.maxReorgDepth > 0 {
        ghost var history := reorgHistory;
        var pruned: seq<ReorgRecord> := [];
        var cumulative := 0;
        var i := 0;
        while i < |reorgHistory|
          invariant 0 <= i <= |reorgHistory| && reorgHistory == history
          invariant cumulative == RecentDepth(history, i, now - DAY) && pruned == Recent(history, i, now - DAY)
        {
          if reorgHistory[i].timestamp > now - DAY {
            pruned := pruned + [reorgHistory[i]];
            cumulative := (cumulative + reorgHistory[i].depth) % TWO32;
          }
          i := i + 1;
        }
        reorgHistory := pruned;
        cumulative := (cumulative + depth) % TWO32;
        if cumulative > (r.params.maxReorgDepth * 3) % TWO32 {
          return false;
        }
      }
      ok := true;
    }

    /** Phase 1: the dry run on a clone. It passes exactly when the switched chain is valid. */
    method Trial(fork: nat, branch: seq<Hash>) returns (ok: bool)
      requires Valid()
      requires BranchOk(known, store.index, Mem(), fork, branch)
      ensures fork < |chain|
      ensures ok == ValidChain(r, Switched(chain, fork, BranchBlocks(store.index, branch)))
    {
      hide StateOk;
      hide ValidChain;
      hide Replay;
      TipFacts();
      var trialSet := new UtxoSet.Clone(utxoSet);
      TrialDisconnect(trialSet, fork);
      ok := TrialConnect(trialSet, fork, branch);
    }

    method TrialDisconnect(trialSet: UtxoSet, fork: nat)
      requires Valid() && trialSet != utxoSet && fork <= tipHeight
      requires trialSet.entries == utxoSet.entries
      modifies trialSet
      ensures |chain| == tipHeight + 1 && trialSet.entries == Replay(r, chain[..fork + 1])
    {
      hide StateOk;
      hide Replay;
      hide UndoFor;
      TipFacts();
      assert chain[..tipHeight + 1] == chain;
      var h := tipHeight;
      while h > fork
        invariant fork <= h <= tipHeight && Valid()
        invariant trialSet.entries == Replay(r, chain[..h + 1])
      {
        MainStep(r, seen, known, store.index, Mem(), chain, utxoSet.entries, h);
        var rec := store.index[hashByHeight[h]];
        trialSet.DisconnectBlock(r, rec.block, rec.undo.value);
        h := h - 1;
      }
    }

    method TrialConnect(trialSet: UtxoSet, fork: nat, branch: seq<Hash>) returns (ok: bool)
      requires Valid() && trialSet != utxoSet && fork < |chain|
      requires BranchOk(known, store.index, Mem(), fork, branch)
      requires trialSet.entries == Replay(r, chain[..fork + 1])
      modifies trialSet
      ensures ok == ValidChain(r, Switched(chain, fork, BranchBlocks(store.index, branch)))
    {
      hide StateOk;
      hide ValidChain;
      hide CollectTxs;
      hide Finish;
      hide FreshBlock;
      hide UndoFor;
      hide Replay;
      hide BlockOk;
      hide BranchStep;
      hide OnMain;
      ghost var c := Switched(chain, fork, BranchBlocks(store.index, branch));
      StartOfBranch(fork, branch);
      var k := 0;
      while k < |branch|
        invariant 0 <= k <= |branch| && Valid()
        invariant ValidChain(r, c[..fork + 1 + k]) && trialSet.entries == Replay(r, c[..fork + 1 + k])
      {
        var block := store.index[branch[k]].block;
        var mtp := BranchMedianTime(fork, branch, k);
        BranchBlockFacts(fork, branch, k);
        JudgeBlock(r, c[..fork + 1 + k], block, fork + 1 + k, mtp);
        var fees := ValidateTransactionInputs(r, trialSet, block.txs, fork + 1 + k, mtp);
        if fees.None? {
          InvalidBlockInvalidChain(r, c, fork + 1 + k);
          return false;
        }
        BranchConnects(fork, branch, k);
        var undo := trialSet.ConnectBlock(r, block, fork + 1 + k);
        k := k + 1;
      }
      assert c[..|c|] == c;
      ok := true;
    }

    /** Phase 2, first half: takes the old branch off the live set and off the disk. */
    method CommitDisconnect(fork: nat) returns (trace: seq<Store>)
      requires Valid() && fork <= tipHeight
      modifies this`store, utxoSet
      ensures |trace| == tipHeight - fork
      ensures forall i :: 0 <= i < |trace| ==> UndoneTo(r, old(store), Mem(), chain, tipHeight - 1 - i, trace[i])
      ensures |chain| == tipHeight + 1 && utxoSet.entries == Replay(r, chain[..fork + 1])
      ensures store == old(store).(chainstate := utxoSet.entries, bestBlock := store.bestBlock)
    {
      hide StateOk;
      hide Replay;
      hide UndoFor;
      TipFacts();
      ghost var utxos0, index0 := utxoSet.entries, store.index;
      assert chain[..tipHeight + 1] == chain;
      trace := [];
      var h := tipHeight;
      while h > fork
        invariant fork <= h <= tipHeight && |trace| == tipHeight - h
        invariant forall i :: 0 <= i < |trace| ==> UndoneTo(r, old(store), Mem(), chain, tipHeight - 1 - i, trace[i])
        invariant store == old(store).(chainstate := utxoSet.entries, bestBlock := store.bestBlock)
        invariant utxoSet.entries == Replay(r, chain[..h + 1])
      {
        DisconnectOne(h, utxos0);
        trace := trace + [store];
        h := h - 1;
      }
    }

    method DisconnectOne(h: nat, ghost utxos0: Utxos)
      requires StateOk(r, seen, known, store.index, Mem(), chain, utxos0) && 0 < h <= tipHeight < |chain|
      requires utxoSet.entries == Replay(r, chain[..h + 1]) && store.chainstate == utxoSet.entries
      modifies this`store, utxoSet
      ensures UndoneTo(r, old(store), Mem(), chain, h - 1, store) && utxoSet.entries == store.chainstate
    {
      hide StateOk;
      hide Replay;
      hide UndoFor;
      MainStep(r, seen, known, store.index, Mem(), chain, utxos0, h);
      var rec := store.index[hashByHeight[h]];
      var batch := DisconnectBatch(r, rec.block.txs, rec.undo.value, store.chainstate);
      utxoSet.DisconnectBlock(r, rec.block, rec.undo.value);
      store := store.(chainstate := ApplyBatch(store.chainstate, batch, |batch|),
                      bestBlock := Some(rec.block.header.prevBlock));
    }

    /** Phase 2, second half: connects the new branch to the live set and to the disk,
        writing undo data and height entries as it goes. */
    method CommitConnect(fork: nat, branch: seq<Hash>, ghost utxos0: Utxos, ghost st0: Store, ghost c: seq<Block>)
      returns (batches: seq<Store>, records: seq<Store>)
      requires StateOk(r, seen, known, store.index, Mem(), chain, utxos0)
      requires BranchOk(known, store.index, Mem(), fork, branch) && fork < |chain|
      requires c == Switched(chain, fork, BranchBlocks(store.index, branch)) && ValidChain(r, c)
      requires |c| == fork + 1 + |branch| && forall j :: 0 <= j < |branch| ==> branch[j] in store.index
      requires utxoSet.entries == Replay(r, chain[..fork + 1]) && store.chainstate == utxoSet.entries
      requires st0.index == store.index && st0.tip == store.tip
      modifies this`store, this`heightByHash, this`hashByHeight, utxoSet
      ensures |batches| == |records| == |branch|
      ensures forall k :: 0 <= k < |branch| ==>
        && ConnectedTo(r, st0, fork, branch, c, k, k, batches[k])
        && ConnectedTo(r, st0, fork, branch, c, k, k + 1, records[k])
      ensures Written(r, old(store.index), old(Mem()), fork, branch, c, |branch|, store.index, heightByHash,
                      hashByHeight)
      ensures utxoSet.entries == Replay(r, c) && store.chainstate == utxoSet.entries
      ensures |branch| > 0 ==> store.bestBlock == Some(branch[|branch| - 1])
      ensures store.tip == old(store.tip)
    {
      hide ConnectedTo;
      hide StateOk;
      hide ValidChain;
      hide Replay;
      hide Written;
      hide BranchOk;
      hide ConnectsAt;
      hide UndoFor;
      hide OnMain;
      ghost var index0, m0 := store.index, Mem();
      BranchShape(known, index0, m0, fork, branch);
      WrittenNothing(r, index0, m0, fork, branch, c);
      assert c[..fork + 1] == chain[..fork + 1];
      batches, records := [], [];
      var k, height := 0, fork + 1;
      while k < |branch|
        invariant 0 <= k <= |branch| && height == fork + 1 + k && |batches| == |records| == k
        invariant forall j :: 0 <= j < k ==>
          && ConnectedTo(r, st0, fork, branch, c, j, j, batches[j])
          && ConnectedTo(r, st0, fork, branch, c, j, j + 1, records[j])
        invariant Written(r, index0, m0, fork, branch, c, k, store.index, heightByHash, hashByHeight)
        invariant utxoSet.entries == Replay(r, c[..height]) && store.chainstate == utxoSet.entries
        invariant k > 0 ==> store.bestBlock == Some(branch[k - 1])
        invariant store.tip == old(store.tip)
      {
        BranchCommits(r, seen, known, index0, m0, chain, utxos0, fork, branch, k);
        WriteOne(r, known, index0, m0, fork, branch, c, k, store.index, heightByHash, hashByHeight);
        ghost var heights, hashes := heightByHash, hashByHeight;
        var batch := CommitOne(store.index[branch[k]].block, branch[k], height, c);
        MakeConnected(r, st0, m0, fork, branch, c, k, k, batch, heights, hashes);
        MakeConnected(r, st0, m0, fork, branch, c, k, k + 1, store, heightByHash, hashByHeight);
        batches, records := batches + [batch], records + [store];
        k, height := k + 1, height + 1;
      }
      assert c[..|c|] == c;
    }

    method CommitOne(block: Block, blockHash: Hash, height: nat, ghost c: seq<Block>) returns (batch: Store)
      requires height < |c| && c[height] == block && ConnectsAt(r, c, height)
      requires utxoSet.entries == Replay(r, c[..height]) && store.chainstate == utxoSet.entries
      requires blockHash in store.index
      modifies this`store, this`heightByHash, this`hashByHeight, utxoSet
      ensures utxoSet.entries == Replay(r, c[..height + 1])
      ensures batch == old(store).(chainstate := utxoSet.entries, bestBlock := Some(blockHash))
      ensures store == old(store).(
        index := old(store.index)[blockHash := old(store.index)[blockHash].(undo := Some(UndoFor(r, c, height)))],
        chainstate := utxoSet.entries, bestBlock := Some(blockHash))
      ensures heightByHash == old(heightByHash)[blockHash := height]
      ensures hashByHeight == old(hashByHeight)[height := blockHash]
    {
      hide Replay;
      hide UndoFor;
      ghost var utxos0 := utxoSet.entries;
      var undo := utxoSet.ConnectBlock(r, block, height);
      PersistUtxoChanges(block, undo.value, blockHash, height, utxos0);
      batch := store;
      store := store.(index := store.index[blockHash := store.index[blockHash].(undo := undo)]);
      heightByHash := heightByHash[blockHash := height];
      hashByHeight := hashByHeight[height := blockHash];
    }

    /** Removes the entries of the old branch, snapshotted in oldHashes. */
    method RemoveOldBranch(oldHashes: map<nat, Hash>, fork: nat, oldTip: nat, ghost m0: Memory)
      requires m0.hashByHeight == oldHashes && forall i :: fork < i <= oldTip ==> i in oldHashes
      modifies this`heightByHash, this`hashByHeight
      ensures heightByHash == old(heightByHash) - OldHashes(m0, fork, oldTip + 1)
      ensures forall i :: i in hashByHeight <==>
        i in old(hashByHeight) && !(fork < i <= oldTip && old(hashByHeight)[i] == oldHashes[i])
      ensures forall i :: i in hashByHeight ==> hashByHeight[i] == old(hashByHeight)[i]
    {
      ghost var heights0, hashes0 := heightByHash, hashByHeight;
      var h := fork + 1;
      while h <= oldTip
        invariant fork + 1 <= h && (h <= oldTip + 1 || h == fork + 1)
        invariant heightByHash == heights0 - OldHashes(m0, fork, if h <= oldTip + 1 then h else oldTip + 1)
        invariant forall i :: i in hashByHeight <==>
          i in hashes0 && !(fork < i < h && i <= oldTip && hashes0[i] == oldHashes[i])
        invariant forall i :: i in hashByHeight ==> hashByHeight[i] == hashes0[i]
      {
        heightByHash := heightByHash - {oldHashes[h]};
        if h in hashByHeight && hashByHeight[h] == oldHashes[h] {
          hashByHeight := hashByHeight - {h};
        }
        h := h + 1;
      }
    }

    /** Phase 2 up to the maps of the old branch. */
    method WriteBranch(fork: nat, branch: seq<Hash>) returns (commits: CommitTrace)
      requires Valid() && BranchOk(known, store.index, Mem(), fork, branch) && |branch| > 0 && fork < |chain|
      requires ValidChain(r, Switched(chain, fork, BranchBlocks(store.index, branch)))
      modifies this`store, this`heightByHash, this`hashByHeight, utxoSet
      ensures var c := Switched(chain, fork, BranchBlocks(old(store.index), branch));
        && |c| == fork + 1 + |branch| && (forall j :: 0 <= j < |branch| ==> branch[j] in old(store.index))
        && Written(r, old(store.index), old(Mem()), fork, branch, c, |branch|, store.index, heightByHash, hashByHeight)
        && utxoSet.entries == Replay(r, c) && store.chainstate == utxoSet.entries
        && CommitWrites(r, old(store), old(Mem()), chain, fork, branch, c, commits)
      ensures store.bestBlock == Some(branch[|branch| - 1])
    {
      hide ConnectedTo;
      hide UndoneTo;
      hide CommitWrites;
      hide StateOk;
      hide ValidChain;
      hide Replay;
      hide Written;
      hide BranchOk;
      TipFacts();
      ghost var m0, index0, utxos0 := Mem(), store.index, utxoSet.entries;
      BranchShape(known, index0, m0, fork, branch);
      var disconnects := CommitDisconnect(fork);
      ghost var c := Switched(chain, fork, BranchBlocks(index0, branch));
      var batches, records := CommitConnect(fork, branch, utxos0, old(store), c);
      commits := CommitTrace(disconnects, batches, records);
      MakeWrites(r, old(store), m0, chain, fork, branch, c, commits);
    }

    /** Phase 2: commits a branch that passed the trial. Nothing here can fail. */
    method Commit(fork: nat, branch: seq<Hash>, newTipHash: Hash, newTipHeight: nat, newWork: nat)
      returns (commits: CommitTrace)
      requires Valid() && BranchOk(known, store.index, Mem(), fork, branch) && |branch| > 0 && fork < |chain|
      requires ValidChain(r, Switched(chain, fork, BranchBlocks(store.index, branch)))
      requires newTipHash == branch[|branch| - 1] && newTipHeight == fork + |branch|
      requires newWork == known[newTipHash].work
      modifies this`store, this`heightByHash, this`hashByHeight, this`tipHash, this`tipHeight, this`tipWork,
        this`chain, utxoSet
      ensures Valid()
      ensures chain == Switched(old(chain), fork, BranchBlocks(old(store.index), branch))
      ensures tipHash == newTipHash && tipHeight == newTipHeight && tipWork == newWork
      ensures OrphansStayOrphans(old(Mem()), Mem())
      ensures SameRecords(old(store).index, store.index)
      ensures forall x :: x in heightByHash ==> x in old(heightByHash) || x in store.index
      ensures HeightsMoved(old(Mem()), branch, heightByHash)
      ensures CommitWrites(r, old(store), old(Mem()), old(chain), fork, branch, chain, commits)
    {
      hide ConnectedTo;
      hide UndoneTo;
      hide CommitWrites;
      hide StateOk;
      hide ValidChain;
      hide Replay;
      hide Written;
      hide BranchOk;
      hide OrphansStayOrphans;
      hide OldHashes;
      hide SameRecords;
      hide Switched;
      hide OnMain;
      hide UndoFor;
      hide HeightsMoved;
      TipFacts();
      ghost var m0, index0, chain0, utxos0 := Mem(), store.index, chain, utxoSet.entries;
      BranchShape(known, index0, m0, fork, branch);
      var oldHashes, oldTip := hashByHeight, tipHeight;
      commits := WriteBranch(fork, branch);
      ghost var heights, hashes := heightByHash, hashByHeight;
      RemoveOldBranch(oldHashes, fork, oldTip, m0);
      store := store.(tip := Some((newTipHash, newTipHeight)));
      tipHash := newTipHash;
      tipHeight := newTipHeight;
      tipWork := newWork;
      chain := Switched(chain, fork, BranchBlocks(index0, branch));
      CommitState(r, seen, known, index0, m0, chain0, utxos0, fork, branch, store.index, heights, hashes, Mem());
      WrittenRecords(r, index0, m0, fork, branch, chain, store.index, heights, hashes);
    }

    /** All headers from h down to the main chain are stored. */
    ghost predicate WalkStored(h: Hash)
      requires Valid() && h in known
      reads this, utxoSet
    {
      StoredWalk(r, seen, known, store.index, Mem(), h)
    }

    /** A reorganisation to a stored tip: all or nothing. It takes place exactly when the
        branch is stored down to the main chain, the depth limits allow it, and the
        chain it leads to is valid. */
    method Reorganise(newTipHash: Hash, newTipHeight: nat, newWork: nat, now: int)
      returns (res: ReorgResult, commits: CommitTrace, ghost fork: nat, ghost branch: seq<Hash>)
      requires Valid()
      requires newTipHash in known && !OnMain(Mem(), newTipHash)
      requires known[newTipHash].height == newTipHeight && known[newTipHash].work == newWork
      modifies this`store, this`heightByHash, this`hashByHeight, this`tipHash, this`tipHeight, this`tipWork,
        this`chain, this`reorgHistory, utxoSet
      ensures Valid()
      ensures !res.Switch? ==>
        Mem() == old(Mem()) && store == old(store) && chain == old(chain) && utxoSet.entries == old(utxoSet.entries)
      ensures res.Switch? ==>
        && BranchOk(known, old(store.index), old(Mem()), fork, branch) && fork < |old(chain)|
        && chain == Switched(old(chain), fork, BranchBlocks(old(store.index), branch))
        && tipHash == newTipHash && tipHeight == newTipHeight && tipWork == newWork
        && OrphansStayOrphans(old(Mem()), Mem())
        && SameRecords(old(store).index, store.index)
        && (forall x :: x in heightByHash ==> x in old(heightByHash) || x in store.index)
        && HeightsMoved(old(Mem()), branch, heightByHash)
        && reorgHistory == KeptHistory(r.params, old(reorgHistory), old(tipHeight) - fork, now)
                           + [ReorgRecord(newTipHeight, old(tipHeight) - fork, now)]
        && CommitWrites(r, old(store), old(Mem()), old(chain), fork, branch, chain, commits)
      ensures !res.Switch? ==>
        && commits == NO_COMMIT && fork <= tipHeight
        && reorgHistory == if branch == [] then old(reorgHistory)
                           else KeptHistory(r.params, old(reorgHistory), tipHeight - fork, now)
      ensures !old(WalkStored(newTipHash)) ==> res.Invalid? && branch == []
      ensures old(WalkStored(newTipHash)) ==>
        && BranchOk(known, old(store.index), old(Mem()), fork, branch) && fork < |old(chain)|
        && |branch| > 0 && branch[|branch| - 1] == newTipHash
        && Dropped(old(chain), Switched(old(chain), fork, BranchBlocks(old(store.index), branch)))
           == old(tipHeight) - fork
        && (res.TooDeep? <==> !DepthOk(r.params, old(reorgHistory), old(tipHeight) - fork, now))
        && (!res.TooDeep? ==>
              (res.Switch? <==> ValidChain(r, Switched(old(chain), fork, BranchBlocks(old(store.index), branch)))))
    {
      hide StateOk;
      hide ValidChain;
      hide Replay;
      hide CommitWrites;
      hide SameRecords;
      hide KeptHistory;
      hide DepthOk;
      hide OrphansStayOrphans;
      hide OnMain;
      hide StoredWalk;
      hide UndoFor;
      hide HeightsMoved;
      hide BranchOk;
      hide Dropped;
      var ok, at, path := FindBranch(newTipHash);
      fork, branch := at, path;
      if !ok {
        return Invalid, NO_COMMIT, 0, [];
      }
      BranchShape(known, store.index, Mem(), at, path);
      TipFacts();
      SwitchDrops(r, seen, known, store.index, Mem(), chain, utxoSet.entries, at, path);
      var depth := tipHeight - at;
      ok := WithinDepth(depth, now);
      if !ok {
        return TooDeep, NO_COMMIT, at, path;
      }
      ok := Trial(at, path);
      if !ok {
        return Invalid, NO_COMMIT, at, path;
      }
      commits := Commit(at, path, newTipHash, newTipHeight, newWork);
      reorgHistory := reorgHistory + [ReorgRecord(newTipHeight, depth, now)];
      res := Switch;
    }

    method BranchMedianTime(fork: nat, branch: seq<Hash>, k: nat) returns (mtp: U32)
      requires Valid() && BranchOk(known, store.index, Mem(), fork, branch) && k < |branch| && fork < |chain|
      ensures mtp == ChainMedian(HeadersOf(Switched(chain, fork, BranchBlocks(store.index, branch))[..fork + 1 + k]))
    {
      hide ValidChain;
      hide Replay;
      hide MainOk;
      hide IndexOk;
      hide HeightsOk;
      hide World;
      hide TreeOk;
      hide OnMain;
      hide PathOk;
      hide BranchStep;
      var prev := store.index[branch[k]].block.header.prevBlock;
      BranchParent(r, seen, known, store.index, Mem(), chain, fork, branch, k);
      var anc := BuildAncestorLookup(r, store.index, Mem(), prev, fork + k, seen, known, chain);
      mtp := CalcMedianTimePast(fork + k, anc);
      MedianOfPath(r, seen, known, SwitchedHashes(Mem(), fork, branch, k),
                   Switched(chain, fork, BranchBlocks(store.index, branch))[..fork + 1 + k], anc);
    }

    // ---------- Blocks off the tip ----------

    /** Writes the block and its index record, and optionally its height entry. */
    method StoreBlock(block: Block, blockHash: Hash, newHeight: nat, newWork: nat, withHeight: bool)
      requires Valid()
      requires block in seen && blockHash == r.blockHash(block.header) && blockHash !in heightByHash
      requires block.header.prevBlock in known && StructureOk(r, block, newHeight)
      requires ChildNode(r, known, block.header) == Node(block.header, newHeight, newWork)
      modifies this`store, this`heightByHash, this`known
      ensures Valid() && known == old(known)[blockHash := Node(block.header, newHeight, newWork)]
      ensures heightByHash == if withHeight then old(heightByHash)[blockHash := newHeight] else old(heightByHash)
      ensures store == old(store).(index := old(store).index[blockHash := IndexRec(block, newHeight, newWork, None)])
      ensures !OnMain(Mem(), blockHash) && Grew(r, old(known), known, block.header)
    {
      hide StateOk;
      hide StructureOk;
      ghost var m0, known0, index0 := Mem(), known, store.index;
      TipFacts();
      GrownNode(r, seen, known, store.index, Mem(), chain, utxoSet.entries, block);
      var rec := IndexRec(block, newHeight, newWork, None);
      store := store.(index := store.index[blockHash := rec]);
      if withHeight {
        heightByHash := heightByHash[blockHash := newHeight];
      }
      known := known[blockHash := ChildNode(r, known, block.header)];
      StoreOffMain(r, seen, known0, index0, m0, chain, utxoSet.entries, block, rec, Mem());
      StillOffMain(r, seen, known, store.index, m0, Mem(), chain, utxoSet.entries, blockHash);
    }

    /** Deletes the index record of a block off the main chain, and its height entry. The
        index stays parent-closed exactly if no other stored block builds on this one. */
    method ForgetBlock(blockHash: Hash)
      requires Valid() && !OnMain(Mem(), blockHash)
      modifies this`store, this`heightByHash
      ensures Valid() && heightByHash == old(heightByHash) - {blockHash}
      ensures store == old(store).(index := old(store).index - {blockHash})
      ensures old(IndexClosed(store.index)) ==>
        (IndexClosed(store.index) <==> !HasStoredChild(old(store).index, blockHash))
    {
      hide StateOk;
      ghost var m0, index0 := Mem(), store.index;
      if IndexClosed(index0) {
        ForgetClosed(index0, blockHash);
      }
      heightByHash := heightByHash - {blockHash};
      store := store.(index := store.index - {blockHash});
      ForgetOffMain(r, seen, known, index0, m0, chain, utxoSet.entries, blockHash, Mem());
    }

    /** Header, structure and work checks common to new blocks and resolved orphans.
        `work` is the cumulative work of the block. */
    method CheckBlock(block: Block, parentHeight: nat, trustedHeader: bool, now: U32)
      returns (ok: bool, work: nat, ghost anc: Ancestors)
      requires Valid()
      requires block.header.prevBlock in heightByHash && heightByHash[block.header.prevBlock] == parentHeight
      ensures block.header.prevBlock in known
      ensures (WalkStored(block.header.prevBlock) <==> WalksLike(r, seen, known, block.header.prevBlock, anc))
      ensures ok <==>
        && block.header.prevBlock in store.index
        && (trustedHeader || HeaderPasses(r, block.header, store.index[block.header.prevBlock].block.header,
                                          parentHeight, now, anc))
        && StructureOk(r, block, parentHeight + 1)
      ensures ok ==> ChildNode(r, known, block.header) == Node(block.header, parentHeight + 1, work)
      ensures ok && !trustedHeader && WalkStored(block.header.prevBlock) ==> Timely(r, seen, known, block.header)
    {
      hide MainOk;
      hide ValidChain;
      hide Replay;
      hide StructureOk;
      hide World;
      hide TreeOk;
      hide StoredWalk;
      hide WalksLike;
      var prev := block.header.prevBlock;
      var getAncestor := BuildAncestorLookup(r, store.index, Mem(), prev, parentHeight, seen, known, chain);
      anc := getAncestor;
      if prev !in store.index {
        return false, 0, anc;
      }
      var parent := store.index[prev];
      assert RecOk(r, seen, known, prev, parent);
      if !trustedHeader {
        if !r.validateHeader(block.header, parent.block.header, parentHeight + 1, getAncestor) {
          return false, 0, anc;
        }
        ok := ValidateHeaderTimestamp(r.params.timestampRule, block.header, parent.block.header,
                                      now, r.params.maxTimeFutureDrift, getAncestor, parentHeight);
        if !ok {
          return false, 0, anc;
        }
      }
      if !trustedHeader && WalkStored(prev) {
        MedianOfWalk(r, seen, known, prev, getAncestor);
      }
      ok := ValidateBlockStructure(r, block, parentHeight + 1);
      work := parent.work + r.weight(block.header);
    }

    /** A block off the tip with more work than it: stored, then reorganised to. If that is
        too deep the block stays a side block; if it cannot be done the block's record is
        deleted, also one it had before. */
    method SwitchTo(block: Block, blockHash: Hash, newHeight: nat, newWork: nat, now: U32, ghost faults: Faults)
      returns (outcome: Outcome, commits: CommitTrace, ghost why: Why)
      requires Ready()
      requires block in seen && blockHash == r.blockHash(block.header) && blockHash !in heightByHash
      requires blockHash !in orphans
      requires block.header.prevBlock in known && block.header.prevBlock in store.index
      requires StructureOk(r, block, newHeight)
      requires ChildNode(r, known, block.header) == Node(block.header, newHeight, newWork)
      requires newWork > tipWork && block.header.prevBlock != tipHash && !faults.block && !faults.index
      modifies this`store, this`heightByHash, this`hashByHeight, this`tipHash, this`tipHeight, this`tipWork,
        this`chain, this`known, this`reorgHistory, utxoSet
      ensures Ready() && tipWork >= old(tipWork)
      ensures outcome.Accepted? || outcome.SideChain? || outcome.Refused?
      ensures var index := old(store).index[blockHash := IndexRec(block, newHeight, newWork, None)];
        if old(WalkStored(block.header.prevBlock))
        then Judged(r, index, old(Mem()), old(chain), old(reorgHistory), now, blockHash, why, outcome)
        else outcome.Refused? && why.branch == []
      ensures commits == why.commits
      ensures Exact(r, old(Snap()), block, Node(block.header, newHeight, newWork), now, faults, why, outcome, Snap())
      ensures !outcome.Accepted? ==> chain == old(chain) && utxoSet.entries == old(utxoSet.entries)
      ensures !outcome.Refused? ==> blockHash in known && (blockHash == tipHash || !OnMain(Mem(), blockHash))
      ensures why.tree == known == old(known)[blockHash := Node(block.header, newHeight, newWork)]
      ensures Grew(r, old(known), known, block.header)
    {
      hide StateOk;
      hide Valid;
      hide OrphansOk;
      hide StructureOk;
      hide OnMain;
      hide OrphansStayOrphans;
      hide BranchOk;
      hide ValidChain;
      hide DepthOk;
      hide Dropped;
      hide KeptHistory;
      hide UndoFor;
      hide SameRecords;
      hide StoredWalk;
      hide TreeOk;
      hide RecordsOk;
      hide Grew;
      hide Switched;
      hide BranchBlocks;
      hide Judged;
      hide HeightsMoved;
      hide CommitWrites;
      hide Exact;
      ghost var m0, index0, node, s0 := Mem(), store.index, Node(block.header, newHeight, newWork), Snap();
      TipFacts();
      TreeFacts();
      NewRecord(block, blockHash, newHeight, newWork);
      StoreBlock(block, blockHash, newHeight, newWork, false);
      TreeFacts();
      WalkOfChild(r, seen, old(known), index0, known, IndexRec(block, newHeight, newWork, None), m0, block.header);
      var res;
      ghost var fork, branch;
      res, commits, fork, branch := Reorganise(blockHash, newHeight, newWork, now);
      why := Why(_ => None, known, fork, branch, commits);
      if old(WalkStored(block.header.prevBlock)) {
        JudgedBy(r, index0[blockHash := IndexRec(block, newHeight, newWork, None)], m0, old(chain), old(reorgHistory),
                 now, blockHash, why, res);
      }
      match res {
        case Switch =>
          SwitchedOrphans(r, seen, m0, Mem(), orphans);
          SwitchedRecords(r, index0, blockHash, IndexRec(block, newHeight, newWork, None), m0.tipWork, m0.heightByHash,
                          store.index, heightByHash, newWork);
          ExactSwitch(r, s0, block, node, now, faults, why, Snap());
          outcome := Accepted;
        case TooDeep =>
          DeepNeedsLimit(r.params, old(reorgHistory), m0.tipHeight - fork, now);
          KeepDeep(block, blockHash, newHeight, newWork, index0);
          ExactSide(r, s0, block, node, now, faults, why, Snap());
          outcome := SideChain;
        case Invalid =>
          DropBlock(blockHash, index0, IndexRec(block, newHeight, newWork, None));
          ExactRefusal(r, s0, block, node, now, faults, why, Snap());
          outcome := Refused;
      }
    }

    /** Keeps a block beside the main chain that is too deep to switch to. */
    method KeepDeep(block: Block, blockHash: Hash, newHeight: nat, newWork: nat, ghost index0: map<Hash, IndexRec>)
      requires Valid() && OrphansOk(r, seen, Mem(), orphans) && RecordsOk(r, index0, heightByHash, tipWork)
      requires store.index == index0[blockHash := IndexRec(block, newHeight, newWork, None)]
      requires r.params.maxReorgDepth != 0
      requires blockHash in known && known[blockHash].height == newHeight && blockHash !in heightByHash
      requires blockHash !in orphans
      modifies this`heightByHash
      ensures Ready() && heightByHash == old(heightByHash)[blockHash := newHeight] && !OnMain(Mem(), blockHash)
    {
      hide Valid;
      hide OrphansOk;
      hide RecordsOk;
      hide OnMain;
      ghost var m0 := Mem();
      LimitedRecords(r, index0, blockHash, IndexRec(block, newHeight, newWork, None), heightByHash, tipWork);
      KeepHeight(block, blockHash, newHeight);
      SideOrphans(r, seen, m0, blockHash, newHeight, orphans);
    }

    /** Deletes the record of a block that was written over what there was before. */
    method DropBlock(blockHash: Hash, ghost index0: map<Hash, IndexRec>, ghost rec: IndexRec)
      requires Valid() && OrphansOk(r, seen, Mem(), orphans) && RecordsOk(r, index0, heightByHash, tipWork)
      requires store.index == index0[blockHash := rec] && (blockHash in index0 ==> index0[blockHash].work > tipWork)
      requires blockHash !in heightByHash && !OnMain(Mem(), blockHash)
      modifies this`store, this`heightByHash
      ensures Ready() && Mem() == old(Mem()) && store == old(store).(index := index0 - {blockHash})
    {
      hide Valid;
      hide OrphansOk;
      hide RecordsOk;
      hide OnMain;
      ForgetBlock(blockHash);
      assert heightByHash == old(heightByHash);
      InsertThenRemove(index0, blockHash, rec);
      ForgottenRecords(r, index0, blockHash, heightByHash, tipWork);
    }

    /** Gives a stored side block its height entry. */
    method KeepHeight(block: Block, blockHash: Hash, newHeight: nat)
      requires Valid() && blockHash in known && known[blockHash].height == newHeight && blockHash !in heightByHash
      modifies this`heightByHash
      ensures Valid() && heightByHash == old(heightByHash)[blockHash := newHeight] && !OnMain(Mem(), blockHash)
    {
      hide StateOk;
      ghost var m0 := Mem();
      TipFacts();
      heightByHash := heightByHash[blockHash := newHeight];
      HeightOffMain(r, seen, known, store.index, m0, chain, utxoSet.entries, blockHash, newHeight);
      StillOffMain(r, seen, known, store.index, m0, Mem(), chain, utxoSet.entries, blockHash);
    }

    /** A block that is neither an orphan nor a child of the tip. */
    method AcceptOffTip(block: Block, blockHash: Hash, newHeight: nat, newWork: nat, now: U32, faults: Faults)
      returns (outcome: Outcome, commits: CommitTrace, ghost why: Why)
      requires Ready()
      requires block in seen && blockHash == r.blockHash(block.header) && blockHash !in heightByHash
      requires blockHash !in orphans
      requires block.header.prevBlock in known && block.header.prevBlock in store.index
      requires StructureOk(r, block, newHeight)
      requires ChildNode(r, known, block.header) == Node(block.header, newHeight, newWork)
      requires block.header.prevBlock != tipHash
      modifies this`store, this`heightByHash, this`hashByHeight, this`tipHash, this`tipHeight, this`tipWork,
        this`chain, this`known, this`reorgHistory, utxoSet
      ensures Ready() && tipWork >= old(tipWork)
      ensures Verdict(r, seen, old(Snap()), block, Node(block.header, newHeight, newWork), now, faults, why, outcome)
      ensures outcome.Accepted? || outcome.SideChain? || outcome.Refused?
      ensures Exact(r, old(Snap()), block, Node(block.header, newHeight, newWork), now, faults, why, outcome, Snap())
      ensures !outcome.Accepted? ==> chain == old(chain) && utxoSet.entries == old(utxoSet.entries)
      ensures !outcome.Refused? ==> blockHash in known && (blockHash == tipHash || !OnMain(Mem(), blockHash))
      ensures commits == why.commits
      ensures why.tree == known && Grew(r, old(known), known, block.header)
    {
      hide StateOk;
      hide Valid;
      hide OrphansOk;
      hide StructureOk;
      hide OnMain;
      hide RecordsOk;
      hide TreeOk;
      hide Judged;
      hide SameRecords;
      hide UndoFor;
      hide KeptHistory;
      hide BlockOk;
      hide Exact;
      hide CommitWrites;
      hide StoredWalk;
      commits := NO_COMMIT;
      ghost var s0, node := Snap(), Node(block.header, newHeight, newWork);
      TreeFacts();
      if faults.block || faults.index {
        NothingGrew(r, known, block.header);
        outcome, why := Refused, Why(_ => None, known, 0, [], NO_COMMIT);
        ExactRefusal(r, s0, block, node, now, faults, why, Snap());
      } else if newWork > tipWork {
        outcome, commits, why := SwitchTo(block, blockHash, newHeight, newWork, now, faults);
      } else {
        ghost var m0, index0 := Mem(), store.index;
        NewRecord(block, blockHash, newHeight, newWork);
        StoreBlock(block, blockHash, newHeight, newWork, true);
        SideOrphans(r, seen, m0, blockHash, newHeight, orphans);
        SideRecords(r, index0, blockHash, IndexRec(block, newHeight, newWork, None), m0.heightByHash, m0.tipWork,
                    m0.tipWork);
        outcome, why := SideChain, Why(_ => None, known, 0, [], NO_COMMIT);
        ExactSide(r, s0, block, node, now, faults, why, Snap());
      }
    }

    // ---------- Orphans ----------

    /** Validates an orphan whose parent is known and attaches it: to the tip, by a
        reorganisation, or as a side block. */
    method AttachOrphan(block: Block, blockHash: Hash, now: U32, faults: Faults)
      returns (attached: bool, reorged: bool, trace: seq<Store>, ghost why: Why, ghost outcome: Outcome)
      requires Ready()
      requires block in seen && blockHash == r.blockHash(block.header) && blockHash !in heightByHash
      requires blockHash !in orphans
      modifies this`store, this`heightByHash, this`hashByHeight, this`tipHash, this`tipHeight, this`tipWork,
        this`chain, this`known, this`reorgHistory, utxoSet
      ensures Ready() && tipWork >= old(tipWork)
      ensures Attempted(r, seen, Attempt(block, old(Snap()), why, outcome, attached, reorged, Snap()), now, faults)
      ensures reorged ==> attached
      ensures attached ==> block.header.prevBlock in old(heightByHash)
      ensures attached && block.header.prevBlock == old(tipHash) ==>
        chain == old(chain) + [block] && faults == NO_FAULTS
      ensures attached && block.header.prevBlock != old(tipHash) ==> blockHash in heightByHash
      ensures !attached ==> chain == old(chain) && utxoSet.entries == old(utxoSet.entries)
      ensures !reorged ==> forall x :: x in heightByHash ==> x in old(heightByHash) || x == blockHash
      ensures attached ==> blockHash in known && (blockHash == tipHash || !OnMain(Mem(), blockHash))
      ensures old(AllTimed()) ==> AllTimed()
      ensures forall st :: st in trace ==> Survivor(r, seen, st, old(tipWork), old(AllTimed()))
    {
      hide StateOk;
      hide Weighed;
      hide Valid;
      hide OrphansOk;
      hide StructureOk;
      hide OnMain;
      hide RecordsOk;
      hide TreeOk;
      hide BlockOk;
      hide SurvivesCrash;
      hide Survivor;
      hide Timed;
      hide Timely;
      hide Grew;
      hide Verdict;
      hide Exact;
      hide HeaderPasses;
      hide StoredWalk;
      hide WalksLike;
      hide ParentsBelow;
      attached, reorged, trace, why, outcome := false, false, [], Why(_ => None, known, 0, [], NO_COMMIT), Refused;
      TreeFacts();
      SnapWeighed();
      var prev := block.header.prevBlock;
      if prev !in heightByHash {
        return;
      }
      var newHeight := heightByHash[prev] + 1;
      var ok, newWork;
      ghost var anc;
      ok, newWork, anc := CheckBlock(block, heightByHash[prev], false, now);
      why := why.(anc := anc);
      if !ok {
        return;
      }
      if AllTimed() {
        WalksAreStored(prev);
      }
      attached, reorged, trace, why, outcome :=
        AttachChecked(block, blockHash, newHeight, newWork, now, faults, anc);
      SnapWeighed();
    }

    /** An orphan that passed the checks common to all blocks. */
    method AttachChecked(block: Block, blockHash: Hash, newHeight: nat, newWork: nat, now: U32, faults: Faults,
                         ghost anc: Ancestors)
      returns (attached: bool, reorged: bool, trace: seq<Store>, ghost why: Why, ghost outcome: Outcome)
      requires Ready()
      requires block in seen && blockHash == r.blockHash(block.header) && blockHash !in heightByHash
      requires blockHash !in orphans
      requires block.header.prevBlock in known && block.header.prevBlock in store.index
      requires StructureOk(r, block, newHeight)
      requires ChildNode(r, known, block.header) == Node(block.header, newHeight, newWork)
      requires AllTimed() ==> Timely(r, seen, known, block.header)
      modifies this`store, this`heightByHash, this`hashByHeight, this`tipHash, this`tipHeight, this`tipWork,
        this`chain, this`known, this`reorgHistory, utxoSet
      ensures Ready() && tipWork >= old(tipWork)
      ensures var node, fs := Node(block.header, newHeight, newWork),
                              WaitingFaults(block.header.prevBlock == old(tipHash), faults);
        && Verdict(r, seen, old(Snap()), block, node, now, fs, why, outcome)
        && Exact(r, old(Snap()), block, node, now, fs, why, outcome, Snap())
      ensures attached <==> outcome.Accepted? || (outcome.SideChain? && newWork <= old(tipWork))
      ensures reorged <==> outcome.Accepted? && block.header.prevBlock != old(tipHash)
      ensures why.anc == anc
      ensures attached && block.header.prevBlock == old(tipHash) ==>
        chain == old(chain) + [block] && faults == NO_FAULTS
      ensures attached && block.header.prevBlock != old(tipHash) ==> blockHash in heightByHash
      ensures !attached ==> chain == old(chain) && utxoSet.entries == old(utxoSet.entries)
      ensures !reorged ==> forall x :: x in heightByHash ==> x in old(heightByHash) || x == blockHash
      ensures attached ==> blockHash in known && (blockHash == tipHash || !OnMain(Mem(), blockHash))
      ensures old(AllTimed()) ==> AllTimed()
      ensures forall st :: st in trace ==> Survivor(r, seen, st, old(tipWork), old(AllTimed()))
    {
      hide StateOk;
      hide Valid;
      hide OrphansOk;
      hide StructureOk;
      hide OnMain;
      hide RecordsOk;
      hide TreeOk;
      hide BlockOk;
      hide SurvivesCrash;
      hide Survivor;
      hide Timed;
      hide Timely;
      hide Grew;
      hide Exact;
      hide StoredWalk;
      hide Judged;
      hide ParentsBelow;
      hide UndoFor;
      ghost var timed, known0, node, s0 := AllTimed(), known, Node(block.header, newHeight, newWork), Snap();
      attached, reorged, trace, why, outcome := false, false, [], Why(anc, known, 0, [], NO_COMMIT), Refused;
      TipFacts();
      NodeWork();
      if block.header.prevBlock == tipHash {
        attached, trace := ExtendReady(block, blockHash, newHeight, newWork, faults);
        outcome := if attached then Accepted else Refused;
        ExactTip(r, s0, block, node, now, faults, why, attached, Snap());
      } else if faults.block {
        NothingGrew(r, known, block.header);
        ExactRefusal(r, s0, block, node, now, faults.(index := false), why, Snap());
      } else {
        var better, end := newWork > tipWork, Refused;
        end, why := AttachOffTip(block, blockHash, newHeight, newWork, now, faults.(index := false), anc);
        attached, reorged, outcome := end.Accepted? || (end.SideChain? && !better), end.Accepted?, end;
        OffTipHeights(r, s0, block, node, now, faults.(index := false), why, outcome, Snap());
        TipIndexed();
      }
      TreeFacts();
      if timed {
        TimedGrows(r, seen, known0, known, block.header);
      }
      TraceSurvives(r, seen, known, trace, old(chain), block, old(tipWork), timed);
    }

    /** ExtendTip between calls: the whole invariant is kept. */
    method ExtendReady(block: Block, blockHash: Hash, newHeight: nat, newWork: nat, faults: Faults)
      returns (ok: bool, trace: seq<Store>)
      requires Ready()
      requires block in seen && blockHash == r.blockHash(block.header) && blockHash !in heightByHash
      requires blockHash !in orphans
      requires block.header.prevBlock == tipHash && newHeight == tipHeight + 1
      requires newWork == tipWork + r.weight(block.header)
      requires StructureOk(r, block, newHeight)
      modifies this`store, this`heightByHash, this`hashByHeight, this`tipHash, this`tipHeight, this`tipWork,
        this`chain, this`known, utxoSet
      ensures Ready() && tipWork >= old(tipWork)
      ensures |old(chain)| > 0 && ok == (BlockOk(r, old(chain), block) && faults == NO_FAULTS)
      ensures ok ==>
        Moved(old(Mem()), old(chain), block, blockHash, newWork) && blockHash in known && tipHash == blockHash
      ensures !ok ==> chain == old(chain) && Mem() == old(Mem()) && utxoSet.entries == old(utxoSet.entries)
      ensures var rec := ConnectedRec(r, old(chain), block, newHeight, newWork);
        && (ok ==> ThreeWrites(old(store), trace, utxoSet.entries, blockHash, rec) && trace[2] == store)
        && (!ok ==> store == if BlockOk(r, old(chain), block) && !faults.block && !faults.undo && !faults.index
                             then old(store).(index := old(store).index[blockHash := rec]) else old(store))
      ensures Grew(r, old(known), known, block.header)
      ensures forall st :: st in trace ==> SurvivesCrash(r, seen, known, st, old(chain), block)
      ensures forall st :: st in trace && r.params.maxReorgDepth == 0 ==> ParentsBelow(st.index, old(tipWork))
    {
      hide StateOk;
      hide OrphansOk;
      hide StructureOk;
      hide OnMain;
      hide BlockOk;
      hide Recoverable;
      hide SurvivesCrash;
      hide UndoFor;
      hide ParentsBelow;
      ghost var m0, index0 := Mem(), store.index;
      TipFacts();
      TipIndexed();
      NewRecord(block, blockHash, newHeight, newWork);
      ghost var rec := ConnectedRec(r, chain, block, newHeight, newWork);
      SideRecords(r, index0, blockHash, rec, m0.heightByHash, m0.tipWork, newWork);
      ok, trace := ExtendTip(block, blockHash, newHeight, newWork, faults);
      if ok {
        TipFacts();
        ExtendedOrphans(r, seen, m0, blockHash, newWork, orphans);
      }
    }

    /** An orphan off the tip gets its height entry before the reorganisation to it. */
    method AttachOffTip(block: Block, blockHash: Hash, newHeight: nat, newWork: nat, now: U32, ghost faults: Faults,
                        ghost anc: Ancestors)
      returns (outcome: Outcome, ghost why: Why)
      requires Ready() && !faults.block && !faults.index
      requires block in seen && blockHash == r.blockHash(block.header) && blockHash !in heightByHash
      requires blockHash !in orphans
      requires block.header.prevBlock in known && block.header.prevBlock in store.index
      requires StructureOk(r, block, newHeight)
      requires ChildNode(r, known, block.header) == Node(block.header, newHeight, newWork)
      requires block.header.prevBlock != tipHash
      modifies this`store, this`heightByHash, this`hashByHeight, this`tipHash, this`tipHeight, this`tipWork,
        this`chain, this`known, this`reorgHistory, utxoSet
      ensures Ready() && tipWork >= old(tipWork)
      ensures Verdict(r, seen, old(Snap()), block, Node(block.header, newHeight, newWork), now, faults, why, outcome)
      ensures Exact(r, old(Snap()), block, Node(block.header, newHeight, newWork), now, faults, why, outcome, Snap())
      ensures outcome.Accepted? || outcome.SideChain? || outcome.Refused?
      ensures why.anc == anc && (newWork <= old(tipWork) ==> outcome.SideChain?)
      ensures !outcome.Accepted? ==> chain == old(chain) && utxoSet.entries == old(utxoSet.entries)
      ensures !outcome.Refused? ==> blockHash in known && (blockHash == tipHash || !OnMain(Mem(), blockHash))
      ensures Grew(r, old(known), known, block.header)
    {
      hide StateOk;
      hide Valid;
      hide OrphansOk;
      hide StructureOk;
      hide OnMain;
      hide RecordsOk;
      hide TreeOk;
      hide OrphansStayOrphans;
      hide BlockOk;
      hide BranchOk;
      hide ValidChain;
      hide DepthOk;
      hide Dropped;
      hide SameRecords;
      hide StoredWalk;
      hide Grew;
      hide Switched;
      hide BranchBlocks;
      hide HeightsMoved;
      hide KeptHistory;
      hide UndoFor;
      hide CommitWrites;
      hide Judged;
      hide Exact;
      if newWork > tipWork {
        outcome, why := SwitchWaiting(block, blockHash, newHeight, newWork, now, faults, anc);
        return;
      }
      ghost var m0, index0, node, s0 := Mem(), store.index, Node(block.header, newHeight, newWork), Snap();
      NewRecord(block, blockHash, newHeight, newWork);
      StoreBlock(block, blockHash, newHeight, newWork, true);
      SideOrphans(r, seen, m0, blockHash, newHeight, orphans);
      SideRecords(r, index0, blockHash, IndexRec(block, newHeight, newWork, None), m0.heightByHash, m0.tipWork,
                  m0.tipWork);
      outcome, why := SideChain, Why(anc, known, 0, [], NO_COMMIT);
      ExactSide(r, s0, block, node, now, faults, why, Snap());
    }

    /** An orphan off the tip with more work than it. */
    method SwitchWaiting(block: Block, blockHash: Hash, newHeight: nat, newWork: nat, now: U32, ghost faults: Faults,
                         ghost anc: Ancestors)
      returns (outcome: Outcome, ghost why: Why)
      requires Ready() && !faults.block && !faults.index
      requires block in seen && blockHash == r.blockHash(block.header) && blockHash !in heightByHash
      requires blockHash !in orphans
      requires block.header.prevBlock in known && block.header.prevBlock in store.index
      requires StructureOk(r, block, newHeight)
      requires ChildNode(r, known, block.header) == Node(block.header, newHeight, newWork)
      requires newWork > tipWork && block.header.prevBlock != tipHash
      modifies this`store, this`heightByHash, this`hashByHeight, this`tipHash, this`tipHeight, this`tipWork,
        this`chain, this`known, this`reorgHistory, utxoSet
      ensures Ready() && tipWork >= old(tipWork)
      ensures Verdict(r, seen, old(Snap()), block, Node(block.header, newHeight, newWork), now, faults, why, outcome)
      ensures Exact(r, old(Snap()), block, Node(block.header, newHeight, newWork), now, faults, why, outcome, Snap())
      ensures outcome.Accepted? || outcome.SideChain? || outcome.Refused?
      ensures why.anc == anc
      ensures !outcome.Accepted? ==> chain == old(chain) && utxoSet.entries == old(utxoSet.entries)
      ensures !outcome.Refused? ==> blockHash in known && (blockHash == tipHash || !OnMain(Mem(), blockHash))
      ensures Grew(r, old(known), known, block.header)
    {
      hide StateOk;
      hide Valid;
      hide OrphansOk;
      hide StructureOk;
      hide OnMain;
      hide RecordsOk;
      hide TreeOk;
      hide OrphansStayOrphans;
      hide BlockOk;
      hide BranchOk;
      hide ValidChain;
      hide DepthOk;
      hide Dropped;
      hide SameRecords;
      hide StoredWalk;
      hide Grew;
      hide Switched;
      hide BranchBlocks;
      hide HeightsMoved;
      hide KeptHistory;
      hide UndoFor;
      hide CommitWrites;
      hide Judged;
      hide Exact;
      hide Verdict;
      ghost var m0, index0, node, s0 := Mem(), store.index, Node(block.header, newHeight, newWork), Snap();
      ghost var rec := IndexRec(block, newHeight, newWork, None);
      TipFacts();
      TreeFacts();
      NewRecord(block, blockHash, newHeight, newWork);
      StoreBlock(block, blockHash, newHeight, newWork, true);
      SideOrphans(r, seen, m0, blockHash, newHeight, orphans);
      ghost var m1 := Mem();
      TreeFacts();
      NewWalk(r, seen, old(known), index0, known, rec, m0, m1, block.header);
      var res, commits;
      ghost var fork, branch;
      res, commits, fork, branch := Reorganise(blockHash, newHeight, newWork, now);
      why := Why(anc, known, fork, branch, commits);
      SameBranch(r, known, index0[blockHash := rec], m0, m1, blockHash, fork, branch);
      if old(WalkStored(block.header.prevBlock)) {
        JudgedBy(r, index0[blockHash := rec], m0, old(chain), old(reorgHistory), now, blockHash, why, res);
      }
      match res {
        case Switch =>
          SwitchedOrphans(r, seen, m1, Mem(), orphans);
          SwitchedRecords(r, index0, blockHash, rec, m0.tipWork, m0.heightByHash, store.index, heightByHash, newWork);
          SameWrites(r, s0.store.(index := index0[blockHash := rec]), m0, m1, s0.chain, fork, branch, chain, commits);
          ExactSwitch(r, s0, block, node, now, faults, why, Snap());
          outcome := Accepted;
        case TooDeep =>
          DeepNeedsLimit(r.params, old(reorgHistory), m1.tipHeight - fork, now);
          LimitedRecords(r, index0, blockHash, rec, m0.heightByHash, m0.tipWork);
          ExactSide(r, s0, block, node, now, faults, why, Snap());
          outcome := SideChain;
        case Invalid =>
          DropWaiting(blockHash, index0, rec, m0);
          ExactRefusal(r, s0, block, node, now, faults, why, Snap());
          outcome := Refused;
      }
      OffTipVerdict(r, seen, s0, block, node, now, faults, why, outcome);
    }

    /** Deletes the record and the height entry of an orphan that could not be switched to. */
    method DropWaiting(blockHash: Hash, ghost index0: map<Hash, IndexRec>, ghost rec: IndexRec, ghost m0: Memory)
      requires Valid() && OrphansOk(r, seen, m0, orphans) && RecordsOk(r, index0, m0.heightByHash, tipWork)
      requires store.index == index0[blockHash := rec] && (blockHash in index0 ==> index0[blockHash].work > tipWork)
      requires blockHash !in m0.heightByHash && !OnMain(Mem(), blockHash)
      requires Mem() == m0.(heightByHash := m0.heightByHash[blockHash := rec.height])
      modifies this`store, this`heightByHash
      ensures Ready() && Mem() == m0 && store == old(store).(index := index0 - {blockHash})
    {
      hide Valid;
      hide OrphansOk;
      hide RecordsOk;
      hide OnMain;
      ForgetBlock(blockHash);
      AddThenRemove(m0.heightByHash, blockHash, rec.height);
      InsertThenRemove(index0, blockHash, rec);
      ForgottenRecords(r, index0, blockHash, m0.heightByHash, tipWork);
    }

    /** Resolves the orphans that wait for a block just accepted, and in turn those that
        wait for them, each in the order of their hashes. */
    method ProcessOrphans(parentHash: Hash, now: U32, faults: Hash -> Faults)
      returns (trace: seq<Store>, ghost tried: seq<Attempt>)
      requires Ready() && Apart([parentHash], orphans, heightByHash)
      modifies this`store, this`heightByHash, this`hashByHeight, this`tipHash, this`tipHeight, this`tipWork,
        this`chain, this`known, this`reorgHistory, this`orphans, utxoSet
      ensures Ready() && tipWork >= old(tipWork) && |orphans| <= |old(orphans)|
      ensures Children(orphans, parentHash) == {}
      ensures Tries(r, seen, tried, now, faults, old(Snap()), Snap())
      ensures Children(old(orphans), parentHash) == {} ==>
        && Untouched(old(store), old(Mem()), old(chain), old(utxoSet.entries), old(reorgHistory))
        && trace == [] && tried == []
      ensures old(AllTimed()) ==> AllTimed()
      ensures forall st :: st in trace ==> Survivor(r, seen, st, old(tipWork), old(AllTimed()))
    {
      hide Valid;
      hide OrphansOk;
      hide RecordsOk;
      hide Apart;
      hide Children;
      hide Survivor;
      hide Timed;
      hide Untouched;
      hide Tries;
      hide TriedInOrder;
      hide AttachedOf;
      var queue;
      ghost var children;
      queue, trace, tried, children := ResolveNext([parentHash], now, faults);
      while |queue| > 0
        invariant Ready() && Apart(queue, orphans, heightByHash)
        invariant tipWork >= old(tipWork) && |orphans| <= |old(orphans)| && Children(orphans, parentHash) == {}
        invariant Tries(r, seen, tried, now, faults, old(Snap()), Snap())
        invariant Children(old(orphans), parentHash) == {} ==> queue == [] && trace == [] && tried == []
        invariant Children(old(orphans), parentHash) == {} ==>
          Untouched(old(store), old(Mem()), old(chain), old(utxoSet.entries), old(reorgHistory))
        invariant old(AllTimed()) ==> AllTimed()
        invariant forall st :: st in trace ==> Survivor(r, seen, st, old(tipWork), old(AllTimed()))
        decreases 2 * |orphans| + |queue|
      {
        ghost var work0, timed0, pool := tipWork, AllTimed(), orphans;
        var more;
        ChildrenTaken(pool, queue[0], parentHash);
        ghost var before, moreTried := Snap(), [];
        queue, more, moreTried, children := ResolveNext(queue, now, faults);
        TryOn(r, seen, tried, moreTried, now, faults, old(Snap()), before, Snap());
        tried := tried + moreTried;
        SurvivorsWeaken(r, seen, more, work0, timed0, old(tipWork), old(AllTimed()));
        trace := trace + more;
      }
    }

    /** Takes the children of the first block of the queue out of the pool and attaches them. */
    method ResolveNext(queue: seq<Hash>, now: U32, faults: Hash -> Faults)
      returns (next: seq<Hash>, trace: seq<Store>, ghost tried: seq<Attempt>, ghost children: seq<Hash>)
      requires Ready() && |queue| > 0 && Apart(queue, orphans, heightByHash)
      modifies this`store, this`heightByHash, this`hashByHeight, this`tipHash, this`tipHeight, this`tipWork,
        this`chain, this`known, this`reorgHistory, this`orphans, utxoSet
      ensures Ready() && Apart(next, orphans, heightByHash) && tipWork >= old(tipWork)
      ensures orphans == old(orphans) - Children(old(orphans), queue[0]) && Children(orphans, queue[0]) == {}
      ensures |orphans| <= |old(orphans)| && 2 * |orphans| + |next| < 2 * |old(orphans)| + |queue|
      ensures Ascending(children) && forall h :: h in children <==> h in Children(old(orphans), queue[0])
      ensures Tries(r, seen, tried, now, faults, old(Snap()), Snap()) && TriedInOrder(tried, children, old(orphans))
      ensures next == if |tried| > 0 && tried[|tried| - 1].reorged then [children[|tried| - 1]]
                      else queue[1..] + AttachedOf(tried, children)
      ensures Children(old(orphans), queue[0]) == {} ==>
        && Untouched(old(store), old(Mem()), old(chain), old(utxoSet.entries), old(reorgHistory))
        && next == queue[1..] && trace == [] && tried == []
      ensures old(AllTimed()) ==> AllTimed()
      ensures forall st :: st in trace ==> Survivor(r, seen, st, old(tipWork), old(AllTimed()))
    {
      hide Valid;
      hide OrphansOk;
      hide RecordsOk;
      hide Apart;
      hide Children;
      hide Removed;
      hide Survivor;
      hide Timed;
      hide Tries;
      hide TriedInOrder;
      hide Ascending;
      var found := ChildrenOf(queue[0]);
      children := found;
      ghost var taken := Children(orphans, queue[0]);
      AscendingDistinct(children);
      ListedSize(children, taken);
      TakeChildren(r, seen, Mem(), orphans, queue, taken);
      ChildrenTaken(orphans, queue[0], queue[0]);
      var pending := orphans;
      var gone := set h | h in found;
      assert gone == taken;
      orphans := orphans - gone;
      next, trace, tried := AttachChildren(found, taken, pending, queue[1..], now, faults);
    }

    /** The orphans whose parent is `parent`, in ascending order of their hash bytes. */
    method ChildrenOf(parent: Hash) returns (children: seq<Hash>)
      ensures Ascending(children) && forall h :: h in children <==> h in Children(orphans, parent)
    {
      children := [];
      var todo := orphans.Keys;
      while todo != {}
        invariant todo <= orphans.Keys && Ascending(children)
        invariant forall h :: h in children <==>
          h in orphans && h !in todo && orphans[h].block.header.prevBlock == parent
        decreases todo
      {
        var h :| h in todo;
        todo := todo - {h};
        if orphans[h].block.header.prevBlock == parent {
          children := InsertHash(children, h);
        }
      }
    }

    /** Attaches the children of one block in order; returns the blocks whose own children
        come next: the pending ones and those just attached, or only the new tip after a
        reorganisation. */
    method AttachChildren(children: seq<Hash>, ghost taken: set<Hash>, pending: map<Hash, Orphan>, rest: seq<Hash>,
                          now: U32, faults: Hash -> Faults)
      returns (queue: seq<Hash>, trace: seq<Store>, ghost tried: seq<Attempt>)
      requires Ready() && Apart(rest, orphans, heightByHash)
      requires Removed(r, seen, pending, taken, orphans, heightByHash)
      requires Ascending(children) && forall h :: h in children <==> h in taken
      modifies this`store, this`heightByHash, this`hashByHeight, this`tipHash, this`tipHeight, this`tipWork,
        this`chain, this`known, this`reorgHistory, utxoSet
      ensures Ready() && Apart(queue, orphans, heightByHash) && tipWork >= old(tipWork)
      ensures |queue| <= |rest| + |children|
      ensures Tries(r, seen, tried, now, faults, old(Snap()), Snap()) && TriedInOrder(tried, children, pending)
      ensures queue == if |tried| > 0 && tried[|tried| - 1].reorged then [children[|tried| - 1]]
                       else rest + AttachedOf(tried, children)
      ensures children == [] ==> Untouched(old(store), old(Mem()), old(chain), old(utxoSet.entries), old(reorgHistory))
      ensures children == [] ==> queue == rest && known == old(known) && trace == [] && tried == []
      ensures old(AllTimed()) ==> AllTimed()
      ensures forall st :: st in trace ==> Survivor(r, seen, st, old(tipWork), old(AllTimed()))
    {
      hide Valid;
      hide OrphansOk;
      hide RecordsOk;
      hide OnMain;
      hide Survivor;
      hide Timed;
      hide Attempted;
      hide Tries;
      hide Apart;
      hide Removed;
      hide Ascending;
      hide TriedInOrder;
      hide AttachedOf;
      queue, trace, tried := rest, [], [];
      NothingTried(r, seen, now, faults, Snap());
      TriedNone(children, pending);
      AscendingDistinct(children);
      var i := 0;
      ghost var todo := taken;
      while i < |children|
        invariant Ready() && Apart(queue, orphans, heightByHash) && tipWork >= old(tipWork)
        invariant 0 <= i <= |children| && |queue| <= |rest| + i
        invariant forall j :: i <= j < |children| ==> children[j] in todo
        invariant Removed(r, seen, pending, todo, orphans, heightByHash)
        invariant Tries(r, seen, tried, now, faults, old(Snap()), Snap()) && |tried| == i
        invariant TriedInOrder(tried, children[..i], pending) && queue == rest + AttachedOf(tried, children)
        invariant i > 0 ==> !tried[i - 1].reorged
        invariant i == 0 ==> queue == rest && known == old(known) && trace == []
        invariant i == 0 ==> Untouched(old(store), old(Mem()), old(chain), old(utxoSet.entries), old(reorgHistory))
        invariant old(AllTimed()) ==> AllTimed()
        invariant forall st :: st in trace ==> Survivor(r, seen, st, old(tipWork), old(AllTimed()))
      {
        var h := children[i];
        ghost var heights, work0, timed0 := heightByHash, tipWork, AllTimed();
        TakeOne(r, seen, pending, todo, orphans, heightByHash, h);
        var reorged, more;
        ghost var a;
        queue, reorged, more, a := AttachNext(pending[h].block, h, queue, now, faults(h));
        TryMore(r, seen, tried, now, faults, old(Snap()), a);
        AttachedMore(tried, a, children);
        InOrderMore(tried, a, children, pending);
        tried := tried + [a];
        SurvivorsWeaken(r, seen, more, work0, timed0, old(tipWork), old(AllTimed()));
        trace := trace + more;
        i := i + 1;
        if reorged {
          break;
        }
        StaysRemoved(r, seen, pending, todo, orphans, heights, heightByHash, h);
        todo := todo - {h};
      }
      InOrderEnds(tried, children, pending);
    }

    /** Attaches one waiting block and updates the queue of blocks whose children come next. */
    method AttachNext(block: Block, h: Hash, queue: seq<Hash>, now: U32, faults: Faults)
      returns (next: seq<Hash>, reorged: bool, trace: seq<Store>, ghost a: Attempt)
      requires Ready() && Apart(queue, orphans, heightByHash)
      requires block in seen && h == r.blockHash(block.header) && h !in heightByHash && h !in orphans
      modifies this`store, this`heightByHash, this`hashByHeight, this`tipHash, this`tipHeight, this`tipWork,
        this`chain, this`known, this`reorgHistory, utxoSet
      ensures Ready() && Apart(next, orphans, heightByHash) && tipWork >= old(tipWork)
      ensures a == Attempt(block, old(Snap()), a.why, a.outcome, a.attached, reorged, Snap())
      ensures Attempted(r, seen, a, now, faults)
      ensures next == if reorged then [h] else queue + if a.attached then [h] else []
      ensures !reorged ==> forall x :: x in heightByHash ==> x in old(heightByHash) || x == h
      ensures old(AllTimed()) ==> AllTimed()
      ensures forall st :: st in trace ==> Survivor(r, seen, st, old(tipWork), old(AllTimed()))
    {
      hide Valid;
      hide OrphansOk;
      hide RecordsOk;
      hide OnMain;
      hide Survivor;
      hide Timed;
      hide Attempted;
      hide Apart;
      var attached;
      ghost var why, outcome;
      attached, reorged, trace, why, outcome := AttachOrphan(block, h, now, faults);
      a := Attempt(block, old(Snap()), why, outcome, attached, reorged, Snap());
      next := queue;
      if attached {
        NewBlockApart(h);
      }
      if reorged {
        next := [h];
        return;
      }
      StaysApart(queue, orphans, old(heightByHash), heightByHash, h);
      if attached {
        ApartAppend(queue, h, orphans, heightByHash);
        next := queue + [h];
      }
    }

    /** Nothing but the orphan pool and the set of known headers may have changed. */
    ghost predicate Untouched(store0: Store, m0: Memory, chain0: seq<Block>, utxos0: Utxos, history0: seq<ReorgRecord>)
      reads this, utxoSet
    {
      store == store0 && Mem() == m0 && chain == chain0 && utxoSet.entries == utxos0 && reorgHistory == history0
    }

    /** Without a depth limit, every header of the tree was accepted against the median
        time of its own ancestors. */
    ghost predicate AllTimed()
      reads this`known
    {
      r.params.maxReorgDepth == 0 && Timed(r, seen, known)
    }

    /** No orphan waiting for the tip, or for a block off the main chain, has a height entry. */
    lemma NewBlockApart(h: Hash)
      requires Ready() && h in known && (h == tipHash || !OnMain(Mem(), h))
      ensures Apart([h], orphans, heightByHash)
    {
      hide StateOk;
      hide OrphansOk;
      hide OnMain;
      hide RecordsOk;
      forall a | a in orphans && orphans[a].block.header.prevBlock == h ensures a !in heightByHash {
        OrphanParent(r, seen, known, store.index, Mem(), chain, utxoSet.entries, orphans, a);
      }
    }

    // ---------- processBlock ----------

    /** Forgets side-chain heights far below the tip. */
    method PruneSideChainIndex()
      requires Ready()
      modifies this`heightByHash
      ensures Ready()
      ensures forall h :: h in heightByHash <==>
        && h in old(heightByHash)
        && (old(heightByHash)[h] + PRUNE_DEPTH >= tipHeight || OnMain(old(Mem()), h))
      ensures forall h :: h in heightByHash ==> heightByHash[h] == old(heightByHash)[h]
    {
      hide StateOk;
      ghost var m0 := Mem();
      var cutoff := if tipHeight > PRUNE_DEPTH then tipHeight - PRUNE_DEPTH else 0;
      var all := heightByHash;
      var todo := heightByHash.Keys;
      while todo != {}
        invariant todo <= all.Keys && all == m0.heightByHash
        invariant forall h :: h in heightByHash <==> h in all && (h in todo || all[h] >= cutoff || OnMain(m0, h))
        invariant forall h :: h in heightByHash ==> heightByHash[h] == all[h]
        decreases todo
      {
        var h :| h in todo;
        todo := todo - {h};
        if all[h] < cutoff && !(all[h] in hashByHeight && hashByHeight[all[h]] == h) {
          heightByHash := heightByHash - {h};
        }
      }
      PruneKeeps(r, seen, known, store.index, m0, chain, utxoSet.entries, Mem());
    }

    /** Drops the orphans older than the expiry time. */
    method EvictExpiredOrphans(now: int)
      requires Ready()
      modifies this`orphans
      ensures Ready() && orphans == Unexpired(old(orphans), now)
    {
      hide Valid;
      var all := orphans;
      var todo := orphans.Keys;
      while todo != {}
        invariant Valid() && todo <= all.Keys && orphans.Keys <= all.Keys
        invariant forall h :: h in all ==> (h in orphans <==> h in todo || now - all[h].addedAt <= ORPHAN_EXPIRY)
        invariant forall h :: h in orphans ==> orphans[h] == all[h]
        decreases todo
      {
        var h :| h in todo;
        todo := todo - {h};
        if now - all[h].addedAt > ORPHAN_EXPIRY {
          orphans := orphans - {h};
        }
      }
    }

    /** Drops one orphan of the earliest arrival time. */
    method EvictOldestOrphan()
      requires Ready()
      modifies this`orphans
      ensures Ready()
      ensures |old(orphans)| > 0 ==>
        exists h :: h in old(orphans) && orphans == old(orphans) - {h} && Oldest(old(orphans), h)
      ensures |old(orphans)| == 0 ==> orphans == old(orphans)
    {
      hide Valid;
      if orphans.Keys == {} {
        return;
      }
      var oldest :| oldest in orphans;
      var todo := orphans.Keys;
      while todo != {}
        invariant oldest in orphans && todo <= orphans.Keys
        invariant forall o :: o in orphans && o !in todo ==> orphans[oldest].addedAt <= orphans[o].addedAt
        decreases todo
      {
        var h :| h in todo;
        todo := todo - {h};
        if orphans[h].addedAt < orphans[oldest].addedAt {
          oldest := h;
        }
      }
      orphans := orphans - {oldest};
    }

    /** Parks a block whose parent is unknown, within the pool's bound. */
    method ParkOrphan(block: Block, blockHash: Hash, now: U32) returns (parked: bool)
      requires Ready() && block in seen && blockHash == r.blockHash(block.header) && blockHash !in heightByHash
      requires |orphans| <= MAX_ORPHAN_BLOCKS
      modifies this`orphans
      ensures Ready() && |orphans| <= MAX_ORPHAN_BLOCKS
      ensures parked == r.orphanPowOk(block.header)
      ensures parked ==>
        exists kept :: RoomMade(old(orphans), now, kept) && orphans == kept[blockHash := Orphan(block, now)]
      ensures !parked ==> orphans == old(orphans)
    {
      hide Valid;
      hide OrphansOk;
      hide RoomMade;
      if !r.orphanPowOk(block.header) {
        return false;
      }
      MakeRoom(now);
      GenesisIndexed();
      InsertSize(orphans, blockHash, Orphan(block, now));
      OrphanParked(r, seen, Mem(), orphans, blockHash, Orphan(block, now));
      orphans := orphans[blockHash := Orphan(block, now)];
      parked := true;
    }

    method MakeRoom(now: U32)
      requires Ready() && |orphans| <= MAX_ORPHAN_BLOCKS
      modifies this`orphans
      ensures Ready() && |orphans| < MAX_ORPHAN_BLOCKS && RoomMade(old(orphans), now, orphans)
    {
      hide Valid;
      hide OrphansOk;
      hide Oldest;
      EvictExpiredOrphans(now);
      SubsetSize(orphans.Keys, old(orphans).Keys);
      if |orphans| >= MAX_ORPHAN_BLOCKS {
        ghost var full := orphans;
        EvictOldestOrphan();
        ghost var gone :| gone in full && orphans == full - {gone};
        assert orphans.Keys == full.Keys - {gone};
      }
    }

    /** A block that is neither known nor waiting, on a known parent, and passes the checks
        common to all blocks. */
    ghost predicate Passes(block: Block, trustedHeader: bool, now: U32, anc: Ancestors)
      reads this
    {
      var prev := block.header.prevBlock;
      && r.blockHash(block.header) !in heightByHash && r.blockHash(block.header) !in orphans
      && prev in heightByHash && prev in store.index
      && (trustedHeader || HeaderPasses(r, block.header, store.index[prev].block.header, heightByHash[prev], now, anc))
      && StructureOk(r, block, heightByHash[prev] + 1)
    }

    /** A block that is neither known nor waiting, on a known parent. */
    ghost predicate OnKnownParent(block: Block)
      reads this
    {
      && r.blockHash(block.header) !in heightByHash && r.blockHash(block.header) !in orphans
      && block.header.prevBlock in heightByHash
    }

    /** One block handed to the node, with which of its writes fail and which of those of
        the waiting blocks behind it. `trace` lists the store after each write of an
        extension. Whatever happens the node stays consistent, and the work of its tip does
        not decrease; `why` holds what the outcome was decided by. */
    method ProcessBlock(block: Block, trustedHeader: bool, now: U32, faults: Faults, orphanFaults: Hash -> Faults)
      returns (outcome: Outcome, trace: seq<Store>, commits: CommitTrace, ghost why: Why, ghost after: Aftermath)
      requires Ready() && |orphans| <= MAX_ORPHAN_BLOCKS && block in seen
      modifies this`store, this`heightByHash, this`hashByHeight, this`tipHash, this`tipHeight, this`tipWork,
        this`chain, this`known, this`reorgHistory, this`orphans, utxoSet
      ensures Ready() && |orphans| <= MAX_ORPHAN_BLOCKS
      ensures tipWork >= old(tipWork)
      ensures forall st :: st in trace ==> Survivor(r, seen, st, old(tipWork), old(AllTimed()) && !trustedHeader)
      ensures old(AllTimed()) && !trustedHeader ==> AllTimed()
      ensures outcome.Refused? || outcome.Parked? ==>
        chain == old(chain) && utxoSet.entries == old(utxoSet.entries) && Mem() == old(Mem())
      ensures var h := r.blockHash(block.header);
        && (h in old(heightByHash) || h in old(orphans) ==> outcome.Refused? && store == old(store))
        && (outcome.Parked? <==> h !in old(heightByHash) && h !in old(orphans)
                                 && block.header.prevBlock !in old(heightByHash) && r.orphanPowOk(block.header))
        && (outcome.Parked? ==> store == old(store))
      ensures !old(Passes(block, trustedHeader, now, why.anc)) ==>
        chain == old(chain) && reorgHistory == old(reorgHistory)
      ensures old(OnKnownParent(block)) ==>
        && block.header.prevBlock in old(known)
        && (old(WalkStored(block.header.prevBlock)) <==>
              WalksLike(r, seen, old(known), block.header.prevBlock, why.anc))
        && (if old(Passes(block, trustedHeader, now, why.anc))
            then Verdict(r, seen, old(Snap()), block, ChildNode(r, old(known), block.header), now, faults, why, outcome)
            else outcome.Refused? && store == old(store))
      ensures outcome.Refused? ==> StoreAfterRefusal(r, old(store), old(Mem()), old(chain), block, store)
      ensures !outcome.Parked? ==> |orphans| <= |old(orphans)|
      ensures commits == why.commits && (!old(Passes(block, trustedHeader, now, why.anc)) ==> commits == NO_COMMIT)
      ensures old(Passes(block, trustedHeader, now, why.anc)) ==>
        && block.header.prevBlock in old(known)
        && Exact(r, old(Snap()), block, ChildNode(r, old(known), block.header), now, faults, why, outcome,
                 after.settled)
        && Weighed(r, after.settled) && Followed(r, seen, outcome, now, orphanFaults, after, Snap())
        && (Children(old(orphans), r.blockHash(block.header)) == {} ==> after.tried == [])
    {
      hide Valid;
      hide Weighed;
      hide OrphansOk;
      hide StructureOk;
      hide OnMain;
      hide RecordsOk;
      hide TreeOk;
      hide Apart;
      hide BlockOk;
      hide Survivor;
      hide Verdict;
      hide Timed;
      hide HeaderPasses;
      hide StoredWalk;
      hide WalksLike;
      hide StoreAfterRefusal;
      hide Followed;
      hide Exact;
      hide AfterPrune;
      hide Children;
      hide ParentsBelow;
      var blockHash := r.blockHash(block.header);
      trace, commits := [], NO_COMMIT;
      StoreKept(r, store, Mem(), chain, block);
      if blockHash in heightByHash || blockHash in orphans {
        outcome := Refused;
        why, after := Why(_ => None, known, 0, [], NO_COMMIT), Aftermath(Snap(), [], Snap());
        return;
      }
      if block.header.prevBlock !in heightByHash {
        var parked := ParkOrphan(block, blockHash, now);
        outcome := if parked then Parked else Refused;
        why, after := Why(_ => None, known, 0, [], NO_COMMIT), Aftermath(Snap(), [], Snap());
        return;
      }
      outcome, trace, commits, why, after :=
        ProcessChild(block, blockHash, trustedHeader, now, faults, orphanFaults);
    }

    /** A block that is neither known nor waiting, on a known parent. */
    method ProcessChild(block: Block, blockHash: Hash, trustedHeader: bool, now: U32, faults: Faults,
                        orphanFaults: Hash -> Faults)
      returns (outcome: Outcome, trace: seq<Store>, commits: CommitTrace, ghost why: Why, ghost after: Aftermath)
      requires Ready() && |orphans| <= MAX_ORPHAN_BLOCKS && block in seen
      requires blockHash == r.blockHash(block.header) && OnKnownParent(block)
      modifies this`store, this`heightByHash, this`hashByHeight, this`tipHash, this`tipHeight, this`tipWork,
        this`chain, this`known, this`reorgHistory, this`orphans, utxoSet
      ensures Ready() && |orphans| <= MAX_ORPHAN_BLOCKS
      ensures tipWork >= old(tipWork)
      ensures forall st :: st in trace ==> Survivor(r, seen, st, old(tipWork), old(AllTimed()) && !trustedHeader)
      ensures old(AllTimed()) && !trustedHeader ==> AllTimed()
      ensures outcome.Refused? || outcome.Parked? ==>
        chain == old(chain) && utxoSet.entries == old(utxoSet.entries) && Mem() == old(Mem())
      ensures !outcome.Parked?
      ensures !old(Passes(block, trustedHeader, now, why.anc)) ==>
        chain == old(chain) && reorgHistory == old(reorgHistory)
      ensures old(OnKnownParent(block)) ==>
        && block.header.prevBlock in old(known)
        && (old(WalkStored(block.header.prevBlock)) <==>
              WalksLike(r, seen, old(known), block.header.prevBlock, why.anc))
        && (if old(Passes(block, trustedHeader, now, why.anc))
            then Verdict(r, seen, old(Snap()), block, ChildNode(r, old(known), block.header), now, faults, why, outcome)
            else outcome.Refused? && store == old(store))
      ensures outcome.Refused? ==> StoreAfterRefusal(r, old(store), old(Mem()), old(chain), block, store)
      ensures !outcome.Parked? ==> |orphans| <= |old(orphans)|
      ensures commits == why.commits && (!old(Passes(block, trustedHeader, now, why.anc)) ==> commits == NO_COMMIT)
      ensures old(Passes(block, trustedHeader, now, why.anc)) ==>
        && block.header.prevBlock in old(known)
        && Exact(r, old(Snap()), block, ChildNode(r, old(known), block.header), now, faults, why, outcome,
                 after.settled)
        && Weighed(r, after.settled) && Followed(r, seen, outcome, now, orphanFaults, after, Snap())
        && (Children(old(orphans), r.blockHash(block.header)) == {} ==> after.tried == [])
    {
      hide StateOk;
      hide Valid;
      hide Weighed;
      hide OrphansOk;
      hide StructureOk;
      hide OnMain;
      hide RecordsOk;
      hide TreeOk;
      hide Apart;
      hide BlockOk;
      hide Survivor;
      hide SurvivesCrash;
      hide Verdict;
      hide Timed;
      hide Timely;
      hide Grew;
      hide HeaderPasses;
      hide StoredWalk;
      hide WalksLike;
      hide StoreAfterRefusal;
      hide Followed;
      hide Exact;
      hide AfterPrune;
      hide Children;
      hide Untouched;
      hide ParentsBelow;
      ghost var timed := AllTimed() && !trustedHeader;
      trace, commits, after := [], NO_COMMIT, Aftermath(Snap(), [], Snap());
      StoreKept(r, store, Mem(), chain, block);
      var prev := block.header.prevBlock;
      var newHeight := heightByHash[prev] + 1;
      var ok, newWork;
      ghost var anc;
      ok, newWork, anc := CheckBlock(block, heightByHash[prev], trustedHeader, now);
      if !ok {
        outcome, why := Refused, Why(anc, known, 0, [], NO_COMMIT);
        return;
      }
      if timed {
        WalksAreStored(prev);
      }
      ghost var node := Node(block.header, newHeight, newWork);
      outcome, trace, commits, why := AcceptBlock(block, blockHash, newHeight, newWork, now, faults, timed);
      VerdictAnc(r, seen, old(Snap()), block, node, now, faults, why, outcome, anc);
      ExactAnc(r, old(Snap()), block, node, now, faults, why, outcome, Snap(), anc);
      why, after := why.(anc := anc), Aftermath(Snap(), [], Snap());
      SnapWeighed();
      NothingFollows(r, seen, now, orphanFaults, Snap());
      if outcome.Refused? {
        return;
      }
      ghost var work1, timed1 := tipWork, AllTimed();
      var more;
      more, after := FollowUp(blockHash, outcome, now, orphanFaults);
      SurvivorsWeaken(r, seen, more, work1, timed1, old(tipWork), timed);
      trace := trace + more;
    }

    /** Attaches the blocks waiting for an accepted one, then prunes after an extension. */
    method FollowUp(blockHash: Hash, outcome: Outcome, now: U32, orphanFaults: Hash -> Faults)
      returns (trace: seq<Store>, ghost after: Aftermath)
      requires Ready() && blockHash in known && (blockHash == tipHash || !OnMain(Mem(), blockHash))
      requires outcome.Accepted? || outcome.SideChain?
      modifies this`store, this`heightByHash, this`hashByHeight, this`tipHash, this`tipHeight, this`tipWork,
        this`chain, this`known, this`reorgHistory, this`orphans, utxoSet
      ensures Ready() && tipWork >= old(tipWork) && |orphans| <= |old(orphans)|
      ensures after.settled == old(Snap()) && Followed(r, seen, outcome, now, orphanFaults, after, Snap())
      ensures Children(old(orphans), blockHash) == {} ==> after.tried == []
      ensures old(AllTimed()) ==> AllTimed()
      ensures forall st :: st in trace ==> Survivor(r, seen, st, old(tipWork), old(AllTimed()))
    {
      hide Valid;
      hide OrphansOk;
      hide RecordsOk;
      hide Apart;
      hide Children;
      hide Tries;
      hide Survivor;
      hide Timed;
      NewBlockApart(blockHash);
      ghost var tried;
      trace, tried := ProcessOrphans(blockHash, now, orphanFaults);
      after := Aftermath(old(Snap()), tried, Snap());
      if outcome.Accepted? {
        PruneSideChainIndex();
      }
    }

    /** Extends the tip, or stores or reorganises to a block off the tip. */
    method AcceptBlock(block: Block, blockHash: Hash, newHeight: nat, newWork: nat, now: U32, faults: Faults,
                       ghost timed: bool)
      returns (outcome: Outcome, trace: seq<Store>, commits: CommitTrace, ghost why: Why)
      requires Ready()
      requires block in seen && blockHash == r.blockHash(block.header) && blockHash !in heightByHash
      requires blockHash !in orphans
      requires block.header.prevBlock in known && block.header.prevBlock in store.index
      requires StructureOk(r, block, newHeight)
      requires ChildNode(r, known, block.header) == Node(block.header, newHeight, newWork)
      requires timed ==> AllTimed() && Timely(r, seen, known, block.header)
      modifies this`store, this`heightByHash, this`hashByHeight, this`tipHash, this`tipHeight, this`tipWork,
        this`chain, this`known, this`reorgHistory, utxoSet
      ensures Ready() && tipWork >= old(tipWork)
      ensures outcome.Accepted? || outcome.SideChain? || outcome.Refused?
      ensures Verdict(r, seen, old(Snap()), block, Node(block.header, newHeight, newWork), now, faults, why, outcome)
      ensures outcome.Refused? ==> chain == old(chain) && utxoSet.entries == old(utxoSet.entries) && Mem() == old(Mem())
      ensures outcome.Refused? ==> StoreAfterRefusal(r, old(store), old(Mem()), old(chain), block, store)
      ensures Exact(r, old(Snap()), block, Node(block.header, newHeight, newWork), now, faults, why, outcome, Snap())
      ensures outcome.SideChain? ==> chain == old(chain) && utxoSet.entries == old(utxoSet.entries)
      ensures !outcome.Refused? ==> blockHash in known && (blockHash == tipHash || !OnMain(Mem(), blockHash))
      ensures commits == why.commits
      ensures timed ==> AllTimed()
      ensures forall st :: st in trace ==> Survivor(r, seen, st, old(tipWork), timed)
    {
      hide StateOk;
      hide Valid;
      hide OrphansOk;
      hide StructureOk;
      hide OnMain;
      hide RecordsOk;
      hide TreeOk;
      hide BlockOk;
      hide SurvivesCrash;
      hide Grew;
      hide ParentsBelow;
      hide Judged;
      hide SameRecords;
      hide KeptHistory;
      hide StoredWalk;
      hide UndoFor;
      hide Survivor;
      hide Timed;
      hide Timely;
      hide Exact;
      hide CommitWrites;
      hide StoreAfterRefusal;
      ghost var known0, chain0, work0, s0 := known, chain, tipWork, Snap();
      ghost var node := Node(block.header, newHeight, newWork);
      commits := NO_COMMIT;
      NodeWork();
      TipFacts();
      if block.header.prevBlock == tipHash {
        var ok;
        ok, trace := ExtendReady(block, blockHash, newHeight, newWork, faults);
        outcome := if ok then Accepted else Refused;
        why := Why(_ => None, known, 0, [], NO_COMMIT);
        ExactTip(r, s0, block, node, now, faults, why, ok, Snap());
      } else {
        outcome, commits, why := AcceptOffTip(block, blockHash, newHeight, newWork, now, faults);
        trace := [];
      }
      if outcome.Refused? {
        RefusalStore(r, s0, block, node, now, faults, why, Snap());
      }
      TreeFacts();
      if timed {
        TimedGrows(r, seen, known0, known, block.header);
      }
      TraceSurvives(r, seen, known, trace, chain0, block, work0, timed);
    }

    // ---------- Facts about a valid state ----------

    lemma TreeFacts()
      requires Valid()
      ensures TreeOk(r, seen, known)
    {
      hide Replay;
      hide ValidChain;
    }

    /** What is known about the record of a new block, and about its parent's. */
    lemma NewRecord(block: Block, blockHash: Hash, newHeight: nat, newWork: nat)
      requires Valid() && block in seen && blockHash == r.blockHash(block.header) && blockHash !in heightByHash
      requires block.header.prevBlock in known
      requires ChildNode(r, known, block.header) == Node(block.header, newHeight, newWork)
      ensures blockHash != block.header.prevBlock
      ensures (blockHash in store.index ==> store.index[blockHash].work == newWork)
      ensures block.header.prevBlock in store.index ==>
        store.index[block.header.prevBlock].work + r.weight(block.header) == newWork
    {
      hide Replay;
      hide ValidChain;
      hide MainOk;
      GrownNode(r, seen, known, store.index, Mem(), chain, utxoSet.entries, block);
      if block.header.prevBlock in store.index {
        assert RecOk(r, seen, known, block.header.prevBlock, store.index[block.header.prevBlock]);
      }
    }

    /** The work of the tip is the summed work of the chain. */
    lemma NodeWork()
      requires Valid()
      ensures tipWork == ChainWork(r, chain)
    {
      StateWork(r, seen, known, store.index, Mem(), chain, utxoSet.entries);
    }

    lemma SnapWeighed()
      requires Valid()
      ensures Weighed(r, Snap())
    {
      hide Replay;
      hide ValidChain;
      hide ChainWork;
      NodeWork();
    }

    /** Without a depth limit, the headers of every stored block are stored down to the
        main chain: the ancestor lookup is always the parent walk. */
    lemma WalksAreStored(h: Hash)
      requires Ready() && r.params.maxReorgDepth == 0 && h in heightByHash
      ensures h in known && WalkStored(h)
    {
      hide Replay;
      hide ValidChain;
      hide OrphansOk;
      BelowIsClosed(store.index, tipWork);
      ClosedWalk(r, seen, known, store.index, Mem(), chain, h);
    }

    lemma GenesisIndexed()
      requires Valid()
      ensures GenesisHash(r) in heightByHash
    {
      GenesisHasHeight(r, seen, known, store.index, Mem(), chain, utxoSet.entries);
    }

    lemma TipIndexed()
      requires Valid()
      ensures tipHash in heightByHash && heightByHash[tipHash] == tipHeight && tipHash in store.index
      ensures |chain| == tipHeight + 1
    {
      hide ValidChain;
      hide Replay;
      hide World;
      TipEntry(r, known, store.index, Mem(), chain);
    }

    lemma StartOfBranch(fork: nat, branch: seq<Hash>)
      requires Valid() && fork < |chain| && BranchOk(known, store.index, Mem(), fork, branch)
      ensures var c := Switched(chain, fork, BranchBlocks(store.index, branch));
        c[..fork + 1] == chain[..fork + 1] && ValidChain(r, c[..fork + 1])
    {
      hide Replay;
      hide MainOk;
      hide World;
      hide TreeOk;
      hide IndexOk;
      hide HeightsOk;
      hide ValidChain;
      hide OnMain;
      hide BranchStep;
      ValidPrefix(r, chain, fork + 1);
      var c := Switched(chain, fork, BranchBlocks(store.index, branch));
      assert c[..fork + 1] == chain[..fork + 1];
    }

    lemma BranchBlockFacts(fork: nat, branch: seq<Hash>, k: nat)
      requires Valid() && fork < |chain| && BranchOk(known, store.index, Mem(), fork, branch) && k < |branch|
      ensures var c, b := Switched(chain, fork, BranchBlocks(store.index, branch)), store.index[branch[k]].block;
        && |c| == fork + 1 + |branch| && c[fork + 1 + k] == b && b in seen
        && StructureOk(r, b, fork + 1 + k) && |b.txs| > 0
        && b.header.prevBlock == r.blockHash(c[..fork + 1 + k][fork + k].header)
    {
      hide Replay;
      hide ValidChain;
      hide MainOk;
      hide World;
      hide OnMain;
      var c := Switched(chain, fork, BranchBlocks(store.index, branch));
      MainShape(r, known, store.index, Mem(), chain);
      SwitchedPath(r, seen, known, store.index, Mem(), chain, fork, branch, k);
      assert RecOk(r, seen, known, branch[k], store.index[branch[k]]);
      assert BranchStep(known, Mem(), fork, branch, k);
      var hs := SwitchedHashes(Mem(), fork, branch, k);
      assert hs[fork + k] == store.index[branch[k]].block.header.prevBlock;
      assert NodeOk(r, seen, known, hs[fork + k]);
    }

    /** A branch block that passed validation connects, to the replay of the longer chain. */
    lemma BranchConnects(fork: nat, branch: seq<Hash>, k: nat)
      requires Valid() && fork < |chain| && BranchOk(known, store.index, Mem(), fork, branch) && k < |branch|
      requires var c := Switched(chain, fork, BranchBlocks(store.index, branch));
        && |c| == fork + 1 + |branch|
        && ValidChain(r, c[..fork + 1 + k]) && BlockOk(r, c[..fork + 1 + k], c[fork + 1 + k])
      ensures var c := Switched(chain, fork, BranchBlocks(store.index, branch));
        ConnectsAt(r, c, fork + 1 + k) && ValidChain(r, c[..fork + 1 + k + 1])
    {
      hide Replay;
      hide MainOk;
      hide BlockOk;
      hide ValidChain;
      hide OnMain;
      hide BranchStep;
      hide TreeOk;
      hide World;
      hide IndexOk;
      hide HeightsOk;
      hide ConnectsAt;
      var c := Switched(chain, fork, BranchBlocks(store.index, branch));
      var n := fork + 1 + k;
      SwitchedPath(r, seen, known, store.index, Mem(), chain, fork, branch, k);
      ExtendValid(r, c[..n], c[n]);
      assert c[..n + 1] == c[..n] + [c[n]];
      ConnectsInside(r, seen, c, n);
    }

    lemma TipFacts()
      requires Valid()
      ensures tipHash in known && known[tipHash].height == tipHeight && known[tipHash].work == tipWork
      ensures |chain| == tipHeight + 1 && OnMain(Mem(), tipHash)
      ensures (forall i :: i in hashByHeight <==> 0 <= i <= tipHeight) && hashByHeight[tipHeight] == tipHash
      ensures r.blockHash(chain[tipHeight].header) == tipHash && utxoSet.entries == Replay(r, chain)
      ensures forall i :: i in hashByHeight ==> hashByHeight[i] in heightByHash
    {
      ConnectedFacts(r, seen, known, store.index, Mem(), chain, utxoSet.entries);
    }
  }
}
