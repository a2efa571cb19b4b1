/** What a restart finds on disk and what it rebuilds from it (Init in
    internal/chain/chain.go). */
module Recovery {
  import opened Types
  import opened Utxo
  import opened UtxoSets
  import opened Ledger
  import opened ChainState
  import opened Closure
  import opened HeaderRules

  /** The stores Init starts from, and the chain it starts on: ones without a recorded tip;
      ones whose recorded tip ends the stored chain c, unless the chainstate belongs to a
      higher block; and ones whose chainstate belongs to the end of c, while the recorded
      tip ends a shorter stored chain. The contents of the chainstate are left open. */
  ghost predicate Startable(r: Rules, seen: set<Block>, tree: Tree, st: Store, hs: seq<Hash>, c: seq<Block>) {
    && World(r, seen) && TreeOk(r, seen, tree) && IndexOk(r, seen, tree, st.index)
    && (|| (st.tip == None && c == [r.params.genesis] && hs == [GenesisHash(r)])
        || (&& ValidChain(r, c) && HoldsBlocks(r, tree, st.index, hs, c)
            && (|| (st.tip == Some((hs[|hs| - 1], |hs| - 1)) && NotAhead(st, hs[|hs| - 1], |hs| - 1))
                || (st.bestBlock == Some(hs[|hs| - 1]) && Behind(r, tree, st, |hs|)))))
  }

  /** The chainstate does not belong to a stored block above the recorded tip. */
  ghost predicate NotAhead(st: Store, tipHash: Hash, tipHeight: nat) {
    st.bestBlock.Some? && st.bestBlock.value != tipHash && st.bestBlock.value in st.index ==>
      st.index[st.bestBlock.value].height <= tipHeight
  }

  /** The recorded tip ends a stored chain of fewer than n blocks. */
  ghost predicate Behind(r: Rules, tree: Tree, st: Store, n: nat) {
    exists hs, c ::
      HoldsBlocks(r, tree, st.index, hs, c) && |hs| < n && st.tip == Some((hs[|hs| - 1], |hs| - 1))
  }

  /** Init takes the chainstate as it is, instead of replaying the chain. */
  ghost predicate Kept(st: Store, hs: seq<Hash>) {
    st.tip.Some? && |hs| > 0 && st.bestBlock == Some(hs[|hs| - 1])
  }

  /** The live set Init ends with. */
  ghost function LiveSet(r: Rules, st: Store, hs: seq<Hash>, c: seq<Block>): Utxos {
    if Kept(st, hs) then st.chainstate else Replay(r, c)
  }

  /** The stores from which Init leads to a consistent node: the undo data is there, and the
      chainstate is right where it is taken as it is, and holds nothing stale where the
      replay is written over it. */
  ghost predicate Intact(r: Rules, st: Store, hs: seq<Hash>, c: seq<Block>) {
    && |hs| == |c| && HoldsUndo(r, st.index, hs, c)
    && if Kept(st, hs) then st.chainstate == Replay(r, c) else st.chainstate.Keys <= Replay(r, c).Keys
  }

  /** Everything but the undo data and the UTXO set is as in a consistent state. */
  ghost predicate BareState(r: Rules, seen: set<Block>, known: Tree, index: map<Hash, IndexRec>, m: Memory,
                            c: seq<Block>) {
    exists index' :: SameRecords(index, index') && StateOk(r, seen, known, index', m, c, Replay(r, c))
  }

  /** Recoverable stores are intact. */
  lemma {:induction false} RecoverableStarts(r: Rules, seen: set<Block>, tree: Tree, st: Store, hs: seq<Hash>,
                                             c: seq<Block>)
    requires Recoverable(r, seen, tree, st, hs, c)
    ensures Startable(r, seen, tree, st, hs, c) && Intact(r, st, hs, c) && st.tip.Some?
  {
    hide World;
    hide TreeOk;
    hide IndexOk;
    hide ValidChain;
    hide Replay;
    hide UndoFor;
    BlocksAndUndo(r, tree, st.index, hs, c);
    var n := |hs| - 1;
    if st.tip != Some((hs[n], n)) {
      PathPrefix(tree, hs, c, n);
      assert HoldsBlocks(r, tree, st.index, hs[..n], c[..n]);
    }
  }

  lemma PathPrefix(known: Tree, hs: seq<Hash>, c: seq<Block>, n: nat)
    requires PathOk(known, hs, c) && n <= |hs|
    ensures PathOk(known, hs[..n], c[..n])
  {
    forall i | 0 < i < n ensures PathStep(hs[..n], c[..n], i) {
      assert PathStep(hs, c, i);
    }
  }

  lemma StartableParts(r: Rules, seen: set<Block>, tree: Tree, st: Store, hs: seq<Hash>, c: seq<Block>)
    requires Startable(r, seen, tree, st, hs, c)
    ensures TreeOk(r, seen, tree) && IndexOk(r, seen, tree, st.index)
  {
  }

  /** A crash that leaves this store on disk while `block` is being added to `chain`
      loses at most that block. */
  ghost predicate SurvivesCrash(r: Rules, seen: set<Block>, tree: Tree, st: Store, chain: seq<Block>, block: Block) {
    || (exists hs :: Recoverable(r, seen, tree, st, hs, chain))
    || (exists hs :: Recoverable(r, seen, tree, st, hs, chain + [block]))
  }

  lemma {:induction false} WorkAlongPath(r: Rules, seen: set<Block>, known: Tree, hs: seq<Hash>, c: seq<Block>, n: nat)
    requires TreeOk(r, seen, known) && PathOk(known, hs, c) && n < |c| == |hs|
    ensures known[hs[n]].work == ChainWork(r, c[..n + 1])
  {
    hide TreeOk;
    PathWork(r, seen, known, hs, c, n);
    assert c[..n + 1][..n] == c[..n];
    if n > 0 {
      WorkAlongPath(r, seen, known, hs, c, n - 1);
    }
  }

  lemma {:induction false} StateWork(r: Rules, seen: set<Block>, known: Tree, index: map<Hash, IndexRec>, m: Memory,
                                     chain: seq<Block>, utxos: Utxos)
    requires StateOk(r, seen, known, index, m, chain, utxos)
    ensures m.tipWork == ChainWork(r, chain)
  {
    hide ValidChain;
    hide Replay;
    hide TreeOk;
    hide IndexOk;
    hide UndoFor;
    MainPath(r, seen, known, index, m, chain);
    WorkAlongPath(r, seen, known, MainHashes(m.hashByHeight, m.tipHeight + 1), chain, m.tipHeight);
    assert chain[..m.tipHeight + 1] == chain;
  }

  /** A store from which a node comes up with at least this work, on a tree of headers
      that is timed if `timed`. */
  ghost predicate Survivor(r: Rules, seen: set<Block>, st: Store, work: nat, timed: bool) {
    exists tree, hs, c ::
      && Recoverable(r, seen, tree, st, hs, c) && work <= ChainWork(r, c)
      && (r.params.maxReorgDepth == 0 ==> ParentsBelow(st.index, ChainWork(r, c)))
      && (timed ==> Timed(r, seen, tree))
  }

  lemma LongerHasMoreWork(r: Rules, chain: seq<Block>, block: Block)
    ensures ChainWork(r, chain + [block]) >= ChainWork(r, chain)
  {
    assert (chain + [block])[..|chain|] == chain;
  }

  /** The stores an extension leaves behind survive a crash. */
  lemma {:induction false} TraceSurvives(r: Rules, seen: set<Block>, known: Tree, trace: seq<Store>, chain: seq<Block>,
                                         block: Block, work: nat, timed: bool)
    requires forall st :: st in trace ==> SurvivesCrash(r, seen, known, st, chain, block)
    requires forall st :: st in trace && r.params.maxReorgDepth == 0 ==> ParentsBelow(st.index, work)
    requires work == ChainWork(r, chain) && (timed ==> Timed(r, seen, known))
    ensures forall st :: st in trace ==> Survivor(r, seen, st, work, timed)
  {
    hide Recoverable;
    hide ChainWork;
    hide ParentsBelow;
    hide Timed;
    LongerHasMoreWork(r, chain, block);
    forall st | st in trace ensures Survivor(r, seen, st, work, timed) {
      if r.params.maxReorgDepth == 0 {
        BelowMore(st.index, work, ChainWork(r, chain + [block]));
      }
    }
  }

  lemma SurvivorsWeaken(r: Rules, seen: set<Block>, trace: seq<Store>, work: nat, timed: bool, work': nat, timed': bool)
    requires forall st :: st in trace ==> Survivor(r, seen, st, work, timed)
    requires work' <= work && (timed' ==> timed)
    ensures forall st :: st in trace ==> Survivor(r, seen, st, work', timed')
  {
    hide Recoverable;
    hide ChainWork;
    hide ParentsBelow;
    hide Timed;
  }

  lemma StartFacts(r: Rules, seen: set<Block>, tree: Tree, st: Store, hs: seq<Hash>, c: seq<Block>)
    returns (hs0: seq<Hash>, c0: seq<Block>)
    requires Startable(r, seen, tree, st, hs, c)
    ensures World(r, seen) && TreeOk(r, seen, tree) && IndexOk(r, seen, tree, st.index) && |hs| > 0
    ensures st.tip.None? ==> c == [r.params.genesis] && hs == [GenesisHash(r)]
    ensures st.tip.Some? ==>
      && ValidChain(r, c) && HoldsBlocks(r, tree, st.index, hs, c) && HoldsBlocks(r, tree, st.index, hs0, c0)
      && |hs0| > 0 && st.tip == Some((hs0[|hs0| - 1], |hs0| - 1))
      && (|| (|hs0| < |hs| && Kept(st, hs))
          || (hs0 == hs && c0 == c && NotAhead(st, hs[|hs| - 1], |hs| - 1)))
  {
    hide World;
    hide TreeOk;
    hide IndexOk;
    hide ValidChain;
    hs0, c0 := hs, c;
    if st.tip.Some? && !(st.tip == Some((hs[|hs| - 1], |hs| - 1)) && NotAhead(st, hs[|hs| - 1], |hs| - 1)) {
      hs0, c0 :| HoldsBlocks(r, tree, st.index, hs0, c0) && |hs0| < |hs| && st.tip == Some((hs0[|hs0| - 1], |hs0| - 1));
    }
  }

  /** The in-memory index of the part of the path hs up to the tip. */
  ghost predicate Loaded(known: Tree, index: map<Hash, IndexRec>, m: Memory, hs: seq<Hash>) {
    && m.tipHeight < |hs| && m.tipHash == hs[m.tipHeight] && m.tipHash in known && m.tipWork == known[m.tipHash].work
    && (forall i :: i in m.hashByHeight <==> 0 <= i <= m.tipHeight)
    && (forall i :: i in m.hashByHeight ==> m.hashByHeight[i] == hs[i])
    && m.heightByHash.Keys == index.Keys && (forall h :: h in m.heightByHash ==> m.heightByHash[h] == index[h].height)
  }

  lemma HeldHeight(r: Rules, seen: set<Block>, known: Tree, index: map<Hash, IndexRec>, hs: seq<Hash>, c: seq<Block>,
                   i: nat)
    requires HoldsBlocks(r, known, index, hs, c) && IndexOk(r, seen, known, index) && i < |hs|
    ensures hs[i] in index && index[hs[i]].height == i
  {
    hide UndoFor;
    assert RecOk(r, seen, known, hs[i], index[hs[i]]);
  }

  lemma HeldBlocks(r: Rules, seen: set<Block>, known: Tree, index: map<Hash, IndexRec>, hs: seq<Hash>, c: seq<Block>)
    requires HoldsBlocks(r, known, index, hs, c)
    ensures |c| == |hs| && forall i :: 0 <= i < |hs| ==> hs[i] in index && index[hs[i]].block == c[i]
  {
    hide UndoFor;
  }

  /** Work accumulates along a path. */
  lemma {:induction false} PathWork(r: Rules, seen: set<Block>, known: Tree, hs: seq<Hash>, c: seq<Block>, h: nat)
    requires TreeOk(r, seen, known) && PathOk(known, hs, c) && h < |hs|
    ensures known[hs[h]].header == c[h].header
    ensures h > 0 ==>
      c[h].header.prevBlock == hs[h - 1] && known[hs[h]].work == known[hs[h - 1]].work + r.weight(c[h].header)
    ensures h == 0 ==> known[hs[0]].work == r.weight(c[0].header)
  {
    assert NodeOk(r, seen, known, hs[h]);
    if h > 0 {
      assert PathStep(hs, c, h);
    }
  }

  lemma {:induction false} FirstBlock(r: Rules, c: seq<Block>)
    requires ValidChain(r, c)
    ensures c[0] == r.params.genesis && Replay(r, c[..1]) == GenesisUtxos(r)
  {
    hide BlockOk;
    ValidPrefix(r, c, 1);
  }

  lemma {:induction false} HeldConnects(r: Rules, seen: set<Block>, known: Tree, index: map<Hash, IndexRec>,
                                        hs: seq<Hash>, c: seq<Block>, h: nat)
    requires World(r, seen) && IndexOk(r, seen, known, index) && ValidChain(r, c)
    requires HoldsBlocks(r, known, index, hs, c)
    requires 0 < h < |c|
    ensures ConnectsAt(r, c, h)
  {
    hide Replay;
    hide ValidChain;
    hide World;
    hide UndoFor;
    hide ConnectsAt;
    forall i | 0 <= i < |c| ensures c[i] in seen {
      assert RecOk(r, seen, known, hs[i], index[hs[i]]);
    }
    ValidPrefix(r, c, h + 1);
    ConnectsInside(r, seen, c, h);
  }

  /** Maps rebuilt from a stored chain describe that chain. */
  lemma {:induction false} RecoveredState(r: Rules, seen: set<Block>, known: Tree, index: map<Hash, IndexRec>,
                                          m: Memory, hs: seq<Hash>, c: seq<Block>)
    requires World(r, seen) && TreeOk(r, seen, known) && IndexOk(r, seen, known, index)
    requires ValidChain(r, c) && HoldsChain(r, known, index, hs, c)
    requires m.tipHeight + 1 == |hs| && Loaded(known, index, m, hs)
    ensures StateOk(r, seen, known, index, m, c, Replay(r, c))
  {
    hide Replay;
    hide ValidChain;
    hide UndoFor;
    hide World;
    hide TreeOk;
    forall h | h in m.heightByHash ensures h in known && m.heightByHash[h] == known[h].height {
      assert RecOk(r, seen, known, h, index[h]);
    }
    forall i | 0 < i <= m.tipHeight ensures LinkedAt(c, m.hashByHeight, i) {
      assert PathStep(hs, c, i);
      assert i - 1 in m.hashByHeight;
    }
    forall i | i in m.hashByHeight ensures MainEntry(r, known, index, m.heightByHash, m.hashByHeight[i], i, c) {
      assert RecOk(r, seen, known, hs[i], index[hs[i]]);
    }
  }

  /** The index with the undo data of the first n blocks of the path. */
  ghost function Mend(r: Rules, index: map<Hash, IndexRec>, hs: seq<Hash>, c: seq<Block>, n: nat): map<Hash, IndexRec>
    requires n <= |hs| == |c| && forall i :: 0 <= i < |hs| ==> hs[i] in index
    ensures Mend(r, index, hs, c, n).Keys == index.Keys
  {
    if n <= 1 then index
    else
      var before := Mend(r, index, hs, c, n - 1);
      before[hs[n - 1] := before[hs[n - 1]].(undo := Some(UndoFor(r, c, n - 1)))]
  }

  lemma {:induction false} MendSame(r: Rules, index: map<Hash, IndexRec>, hs: seq<Hash>, c: seq<Block>, n: nat)
    requires n <= |hs| == |c| && forall i :: 0 <= i < |hs| ==> hs[i] in index
    ensures SameRecords(index, Mend(r, index, hs, c, n))
  {
    hide UndoFor;
    if n > 1 {
      MendSame(r, index, hs, c, n - 1);
    }
  }

  lemma {:induction false} MendHolds(r: Rules, known: Tree, index: map<Hash, IndexRec>, hs: seq<Hash>, c: seq<Block>,
                                     n: nat, i: nat)
    requires PathOk(known, hs, c) && 0 < i < n <= |hs| && forall i :: 0 <= i < |hs| ==> hs[i] in index
    ensures Mend(r, index, hs, c, n)[hs[i]].undo == Some(UndoFor(r, c, i))
  {
    hide UndoFor;
    hide PathStep;
    if i < n - 1 {
      MendHolds(r, known, index, hs, c, n - 1, i);
      assert known[hs[i]].height != known[hs[n - 1]].height;
    }
  }

  /** Maps rebuilt from a stored chain describe that chain, and the state is consistent
      exactly if the undo data is stored too. */
  lemma {:induction false} BareRecovered(r: Rules, seen: set<Block>, known: Tree, index: map<Hash, IndexRec>, m: Memory,
                                         hs: seq<Hash>, c: seq<Block>)
    requires World(r, seen) && TreeOk(r, seen, known) && IndexOk(r, seen, known, index)
    requires ValidChain(r, c) && HoldsBlocks(r, known, index, hs, c)
    requires m.tipHeight + 1 == |hs| && Loaded(known, index, m, hs)
    ensures BareState(r, seen, known, index, m, c)
    ensures StateOk(r, seen, known, index, m, c, Replay(r, c)) <==> HoldsUndo(r, index, hs, c)
  {
    hide World;
    hide TreeOk;
    hide IndexOk;
    hide ValidChain;
    hide Replay;
    hide HoldsUndo;
    hide PathOk;
    hide Loaded;
    hide SameRecords;
    hide MainOk;
    MendAll(r, seen, known, index, m, hs, c);
    RecoveredState(r, seen, known, Mend(r, index, hs, c, |hs|), m, hs, c);
    if HoldsUndo(r, index, hs, c) {
      BlocksAndUndo(r, known, index, hs, c);
      RecoveredState(r, seen, known, index, m, hs, c);
    }
    if StateOk(r, seen, known, index, m, c, Replay(r, c)) {
      StoredUndo(r, known, index, m, hs, c);
    }
  }

  lemma {:induction false} MendAll(r: Rules, seen: set<Block>, known: Tree, index: map<Hash, IndexRec>, m: Memory,
                                   hs: seq<Hash>, c: seq<Block>)
    requires IndexOk(r, seen, known, index) && HoldsBlocks(r, known, index, hs, c) && Loaded(known, index, m, hs)
    ensures |hs| == |c| && forall i :: 0 <= i < |hs| ==> hs[i] in index
    ensures var index' := Mend(r, index, hs, c, |hs|);
      && SameRecords(index, index') && IndexOk(r, seen, known, index') && HoldsChain(r, known, index', hs, c)
      && Loaded(known, index', m, hs)
  {
    hide IndexOk;
    hide UndoFor;
    hide PathStep;
    var index' := Mend(r, index, hs, c, |hs|);
    MendSame(r, index, hs, c, |hs|);
    forall i | 0 < i < |hs| ensures index'[hs[i]].undo == Some(UndoFor(r, c, i)) {
      MendHolds(r, known, index, hs, c, |hs|, i);
    }
    SameIndexOk(r, seen, known, index, index');
  }

  lemma SameIndexOk(r: Rules, seen: set<Block>, known: Tree, index: map<Hash, IndexRec>, index': map<Hash, IndexRec>)
    requires IndexOk(r, seen, known, index) && SameRecords(index, index')
    ensures IndexOk(r, seen, known, index')
  {
    forall h | h in index' ensures RecOk(r, seen, known, h, index'[h]) {
      assert RecOk(r, seen, known, h, index[h]);
    }
  }

  lemma StoredUndo(r: Rules, known: Tree, index: map<Hash, IndexRec>, m: Memory, hs: seq<Hash>, c: seq<Block>)
    requires MainOk(r, known, index, m, c) && |hs| == |c| && Loaded(known, index, m, hs)
    ensures HoldsUndo(r, index, hs, c)
  {
    hide UndoFor;
    forall i | 0 < i < |hs| ensures hs[i] in index && index[hs[i]].undo == Some(UndoFor(r, c, i)) {
      assert MainEntry(r, known, index, m.heightByHash, m.hashByHeight[i], i, c);
    }
  }

  lemma {:induction false} GenesisState(r: Rules, seen: set<Block>, known: Tree, index0: map<Hash, IndexRec>,
                                        index: map<Hash, IndexRec>, m: Memory)
    requires World(r, seen) && TreeOk(r, seen, known) && IndexOk(r, seen, known, index0)
    requires index == index0[GenesisHash(r) := IndexRec(r.params.genesis, 0, r.weight(r.params.genesis.header), None)]
    requires m == Memory(GenesisHash(r), 0, r.weight(r.params.genesis.header), map[GenesisHash(r) := 0],
                         map[0 := GenesisHash(r)])
    ensures StateOk(r, seen, known, index, m, [r.params.genesis], GenesisUtxos(r))
    ensures Replay(r, [r.params.genesis]) == GenesisUtxos(r)
  {
    hide RecOk;
    var gh := GenesisHash(r);
    assert NodeOk(r, seen, known, gh);
    GenesisRec(r, seen, known);
    forall h | h in index ensures RecOk(r, seen, known, h, index[h]) {
      if h != gh {
        assert RecOk(r, seen, known, h, index0[h]);
      }
    }
    assert MainEntry(r, known, index, m.heightByHash, m.hashByHeight[0], 0, [r.params.genesis]);
  }

  lemma GenesisRec(r: Rules, seen: set<Block>, known: Tree)
    requires World(r, seen) && TreeOk(r, seen, known)
    ensures RecOk(r, seen, known, GenesisHash(r),
                  IndexRec(r.params.genesis, 0, r.weight(r.params.genesis.header), None))
  {
    assert NodeOk(r, seen, known, GenesisHash(r));
  }

  /** The stores of a first start, before its chainstate is written. */
  lemma {:induction false} GenesisStartable(r: Rules, seen: set<Block>, known: Tree, index0: map<Hash, IndexRec>,
                                            st: Store)
    requires World(r, seen) && TreeOk(r, seen, known) && IndexOk(r, seen, known, index0)
    requires var g := r.params.genesis;
      st.index == index0[GenesisHash(r) := IndexRec(g, 0, r.weight(g.header), None)]
    requires st.tip.None? && st.bestBlock.None?
    ensures Startable(r, seen, known, st, [GenesisHash(r)], [r.params.genesis])
    ensures Startable(r, seen, known, st.(tip := Some((GenesisHash(r), 0))), [GenesisHash(r)], [r.params.genesis])
  {
    hide World;
    hide TreeOk;
    hide Replay;
    hide UndoFor;
    hide GenesisTxs;
    var m := Memory(GenesisHash(r), 0, r.weight(r.params.genesis.header), map[GenesisHash(r) := 0],
                    map[0 := GenesisHash(r)]);
    GenesisState(r, seen, known, index0, st.index, m);
    MainPath(r, seen, known, st.index, m, [r.params.genesis]);
    assert MainHashes(m.hashByHeight, 1) == [GenesisHash(r)];
    assert MainEntry(r, known, st.index, m.heightByHash, m.hashByHeight[0], 0, [r.params.genesis]);
  }

  const EMPTY_STORE: Store := Store(map[], map[], None, None)

  /** The tree that holds the genesis header only. */
  ghost function GenesisTree(r: Rules): Tree {
    map[GenesisHash(r) := Node(r.params.genesis.header, 0, r.weight(r.params.genesis.header))]
  }

  /** A node can be started on nothing. */
  lemma {:induction false} EmptyStartable(r: Rules, seen: set<Block>)
    requires World(r, seen)
    ensures Startable(r, seen, GenesisTree(r), EMPTY_STORE, [GenesisHash(r)], [r.params.genesis])
    ensures Timed(r, seen, GenesisTree(r))
  {
    assert NodeOk(r, seen, GenesisTree(r), GenesisHash(r));
  }

  /** A consistent node can be restarted from its store at any time. */
  lemma {:induction false} StateStartable(r: Rules, seen: set<Block>, known: Tree, st: Store, m: Memory,
                                          chain: seq<Block>, utxos: Utxos)
    requires StateOk(r, seen, known, st.index, m, chain, utxos) && Durable(st, m, utxos)
    ensures forall i :: 0 <= i <= m.tipHeight ==> i in m.hashByHeight
    ensures Startable(r, seen, known, st, MainHashes(m.hashByHeight, m.tipHeight + 1), chain)
    ensures Intact(r, st, MainHashes(m.hashByHeight, m.tipHeight + 1), chain)
  {
    hide Recoverable;
    hide Startable;
    hide Intact;
    hide ValidChain;
    hide Replay;
    hide World;
    hide TreeOk;
    hide IndexOk;
    StateRecoverable(r, seen, known, st, m, chain, utxos);
    RecoverableStarts(r, seen, known, st, MainHashes(m.hashByHeight, m.tipHeight + 1), chain);
  }

  lemma BareItself(r: Rules, seen: set<Block>, known: Tree, index: map<Hash, IndexRec>, m: Memory, c: seq<Block>)
    requires StateOk(r, seen, known, index, m, c, Replay(r, c))
    ensures BareState(r, seen, known, index, m, c)
  {
    hide StateOk;
    assert SameRecords(index, index);
  }

  lemma NoUndoNeeded(r: Rules, index: map<Hash, IndexRec>, hs: seq<Hash>, c: seq<Block>)
    requires |hs| == |c| == 1
    ensures HoldsUndo(r, index, hs, c)
  {
  }

  /** A consistent state has the replay as its live set. */
  lemma RightSet(r: Rules, seen: set<Block>, known: Tree, index: map<Hash, IndexRec>, m: Memory, c: seq<Block>,
                 utxos: Utxos)
    ensures StateOk(r, seen, known, index, m, c, utxos) <==>
      StateOk(r, seen, known, index, m, c, Replay(r, c)) && utxos == Replay(r, c)
  {
    hide World;
    hide TreeOk;
    hide IndexOk;
    hide MainOk;
    hide ValidChain;
    hide Replay;
  }

  /** The last write of the first start. */
  lemma {:induction false} GenesisDone(r: Rules, seen: set<Block>, known: Tree, st: Store, m: Memory, utxos: Utxos)
    requires StateOk(r, seen, known, st.index, m, [r.params.genesis], utxos) && Durable(st, m, utxos)
    requires m.tipHeight == 0 && m.hashByHeight == map[0 := GenesisHash(r)]
    ensures Startable(r, seen, known, st, [GenesisHash(r)], [r.params.genesis])
  {
    hide StateOk;
    hide Startable;
    StateStartable(r, seen, known, st, m, [r.params.genesis], utxos);
    assert MainHashes(m.hashByHeight, 1) == [GenesisHash(r)];
  }

  /** Writing the entries of a set over a chainstate gives the set exactly when nothing
      stale is left beside them. */
  lemma OverwriteExact(stale: Utxos, utxos: Utxos)
    ensures stale + utxos == utxos <==> stale.Keys <= utxos.Keys
  {
    if stale.Keys <= utxos.Keys {
      assert (stale + utxos).Keys == utxos.Keys;
    }
    if stale + utxos == utxos {
      assert (stale + utxos).Keys == stale.Keys + utxos.Keys;
    }
  }

  /** Around the write of the tip record: before and after it the store is recoverable
      with the longer chain. */
  lemma {:induction false} TipWriteRecoverable(r: Rules, seen: set<Block>, known: Tree, st: Store, m: Memory,
                                               chain: seq<Block>, utxos: Utxos, h: Hash, work: nat, hs: seq<Hash>)
    requires StateOk(r, seen, known, st.index, Extended(m, h, work), chain, utxos)
    requires st.chainstate == utxos && st.bestBlock == Some(h) && st.tip == Some((m.tipHash, m.tipHeight))
    requires |hs| == m.tipHeight + 1 && hs[m.tipHeight] == m.tipHash
    requires forall i :: 0 <= i <= m.tipHeight ==> i in m.hashByHeight && hs[i] == m.hashByHeight[i]
    ensures Recoverable(r, seen, known, st.(tip := Some((h, m.tipHeight + 1))), hs + [h], chain)
    ensures Recoverable(r, seen, known, st, hs + [h], chain)
  {
    hide StateOk;
    hide Recoverable;
    var st', m', longer := st.(tip := Some((h, m.tipHeight + 1))), Extended(m, h, work), hs + [h];
    StateRecoverable(r, seen, known, st', m', chain, utxos);
    assert longer == MainHashes(m'.hashByHeight, m'.tipHeight + 1);
    TipBehind(r, seen, known, st', longer, chain);
    assert st'.(tip := Some((longer[|longer| - 2], |longer| - 2))) == st;
  }
}
