/** The state of the chain manager as values: the block store, the in-memory
    indexes, the tree of all headers accepted so far, and the invariant that ties
    them together. The lemmas say how the invariant moves under each update the
    chain manager makes (internal/chain/chain.go). */
module ChainState {
  import opened Types
  import opened Utxo
  import opened BlockValidation
  import opened Ledger
  import opened MedianTime

  /** A block-index record; the flat-file positions of the block and of its undo
      data are replaced by the data themselves. */
  datatype IndexRec = IndexRec(block: Block, height: nat, work: nat, undo: Option<seq<SpentOutput>>)

  datatype Store = Store(
    index: map<Hash, IndexRec>, chainstate: Utxos, bestBlock: Option<Hash>, tip: Option<(Hash, nat)>)

  datatype Memory = Memory(
    tipHash: Hash, tipHeight: nat, tipWork: nat, heightByHash: map<Hash, nat>, hashByHeight: map<nat, Hash>)

  /** A header with the height and cumulative work of its position. */
  datatype Node = Node(header: BlockHeader, height: nat, work: nat)

  type Tree = map<Hash, Node>

  function GenesisHash(r: Rules): Hash {
    r.blockHash(r.params.genesis.header)
  }

  // ---------- Hypotheses on the blocks handed to the node ----------

  ghost predicate HeadersDistinct(r: Rules, seen: set<Block>) {
    forall a, b :: a in seen && b in seen && r.blockHash(a.header) == r.blockHash(b.header) ==> a.header == b.header
  }

  ghost predicate TxsDistinct(r: Rules, seen: set<Block>) {
    forall a, b, x, y :: a in seen && b in seen && x in a.txs && y in b.txs && r.txid(x) == r.txid(y) ==> x == y
  }

  /** The blocks ever handed to the node exhibit no hash collision, and no header
      hashes to zero. */
  ghost predicate World(r: Rules, seen: set<Block>) {
    && GenesisOk(r) && r.params.genesis in seen
    && HeadersDistinct(r, seen) && TxsDistinct(r, seen)
    && forall b :: b in seen ==> r.blockHash(b.header) != ZERO_HASH
  }

  ghost predicate AllSeen(seen: set<Block>, chain: seq<Block>) {
    forall i :: 0 <= i < |chain| ==> chain[i] in seen
  }

  lemma {:induction false} OwnerOf(chain: seq<Block>, t: Transaction) returns (i: nat)
    requires t in AllTxs(chain)
    ensures i < |chain| && t in chain[i].txs
  {
    var n := |chain| - 1;
    if t in chain[n].txs {
      i := n;
    } else {
      i := OwnerOf(chain[..n], t);
    }
  }

  lemma {:induction false} SeenNoCollision(r: Rules, seen: set<Block>, chain: seq<Block>)
    requires World(r, seen) && AllSeen(seen, chain)
    ensures NoCollision(r, AllTxs(chain))
  {
    forall a, b | a in AllTxs(chain) && b in AllTxs(chain) && r.txid(a) == r.txid(b) ensures a == b {
      var i := OwnerOf(chain, a);
      var j := OwnerOf(chain, b);
      assert chain[i] in seen && chain[j] in seen;
    }
  }

  // ---------- The header tree ----------

  ghost predicate NodeOk(r: Rules, seen: set<Block>, known: Tree, h: Hash)
    requires h in known
  {
    var n := known[h];
    && (exists b :: b in seen && b.header == n.header)
    && r.blockHash(n.header) == h
    && (n.height == 0 ==>
          h == GenesisHash(r) && n == Node(r.params.genesis.header, 0, r.weight(r.params.genesis.header)))
    && (n.height > 0 ==>
          && n.header.prevBlock in known
          && n.height == known[n.header.prevBlock].height + 1
          && n.work == known[n.header.prevBlock].work + r.weight(n.header))
  }

  ghost predicate TreeOk(r: Rules, seen: set<Block>, known: Tree) {
    && GenesisHash(r) in known && known[GenesisHash(r)].height == 0
    && forall h {:trigger NodeOk(r, seen, known, h)} :: h in known ==> NodeOk(r, seen, known, h)
  }

  function ChildNode(r: Rules, known: Tree, header: BlockHeader): Node
    requires header.prevBlock in known
  {
    Node(header, known[header.prevBlock].height + 1, known[header.prevBlock].work + r.weight(header))
  }

  /** A known hash determines its header, so inserting a block again changes nothing. */
  lemma {:induction false} SameNode(r: Rules, seen: set<Block>, known: Tree, b: Block)
    requires World(r, seen) && TreeOk(r, seen, known) && b in seen
    requires b.header.prevBlock in known && r.blockHash(b.header) in known && r.blockHash(b.header) != GenesisHash(r)
    ensures known[r.blockHash(b.header)] == ChildNode(r, known, b.header)
  {
    var h := r.blockHash(b.header);
    assert NodeOk(r, seen, known, h);
    var c :| c in seen && c.header == known[h].header;
    assert c.header == b.header;
  }

  lemma {:induction false} InsertNode(r: Rules, seen: set<Block>, known: Tree, b: Block)
    requires World(r, seen) && TreeOk(r, seen, known) && b in seen
    requires b.header.prevBlock in known && r.blockHash(b.header) != GenesisHash(r)
    ensures TreeOk(r, seen, known[r.blockHash(b.header) := ChildNode(r, known, b.header)])
    ensures r.blockHash(b.header) in known ==>
      && known[r.blockHash(b.header) := ChildNode(r, known, b.header)] == known
      && known[r.blockHash(b.header)] == ChildNode(r, known, b.header)
  {
    var h := r.blockHash(b.header);
    var known' := known[h := ChildNode(r, known, b.header)];
    if h in known {
      SameNode(r, seen, known, b);
      assert known' == known;
    } else {
      assert h != b.header.prevBlock;
      assert NodeOk(r, seen, known', h);
      forall x | x in known' ensures NodeOk(r, seen, known', x) {
        if x != h {
          assert NodeOk(r, seen, known, x);
        }
      }
    }
  }

  // ---------- Index, heights and main chain ----------

  ghost predicate RecOk(r: Rules, seen: set<Block>, known: Tree, h: Hash, rec: IndexRec) {
    && h in known
    && rec.block in seen
    && rec.block.header == known[h].header
    && rec.height == known[h].height
    && rec.work == known[h].work
    && (rec.height > 0 ==> StructureOk(r, rec.block, rec.height))
  }

  ghost predicate IndexOk(r: Rules, seen: set<Block>, known: Tree, index: map<Hash, IndexRec>) {
    forall h :: h in index ==> RecOk(r, seen, known, h, index[h])
  }

  ghost predicate HeightsOk(known: Tree, heightByHash: map<Hash, nat>) {
    forall h :: h in heightByHash ==> h in known && heightByHash[h] == known[h].height
  }

  /** What FindMainChainHash answers. */
  predicate OnMain(m: Memory, h: Hash) {
    h in m.heightByHash && m.heightByHash[h] in m.hashByHeight && m.hashByHeight[m.heightByHash[h]] == h
  }

  /** The undo data of the block at height h. */
  function UndoFor(r: Rules, chain: seq<Block>, h: nat): seq<SpentOutput>
    requires h < |chain|
  {
    var v := CollectTxs(r, Replay(r, chain[..h]), chain[h].txs, |chain[h].txs|, h);
    if v.Some? then v.value.undo else []
  }

  /** The entry of the main chain at height i: block b stored under hash h. */
  ghost predicate MainEntry(r: Rules, known: Tree, index: map<Hash, IndexRec>, heightByHash: map<Hash, nat>,
                            h: Hash, i: nat, chain: seq<Block>)
    requires i < |chain|
  {
    && h in known && known[h].height == i
    && h in index && index[h].block == chain[i]
    && (i > 0 ==> index[h].undo == Some(UndoFor(r, chain, i)))
    && h in heightByHash && heightByHash[h] == i
  }

  /** The block at height i names the hash at height i - 1 as its parent. */
  ghost predicate LinkedAt(chain: seq<Block>, hashByHeight: map<nat, Hash>, i: nat) {
    0 < i < |chain| && i - 1 in hashByHeight && chain[i].header.prevBlock == hashByHeight[i - 1]
  }

  /** hashByHeight is defined exactly on 0..tipHeight and names the blocks of `chain`,
      which runs from genesis to the tip along parent links; heightByHash inverts it. */
  ghost predicate MainOk(r: Rules, known: Tree, index: map<Hash, IndexRec>, m: Memory, chain: seq<Block>) {
    && |chain| == m.tipHeight + 1
    && (forall i :: i in m.hashByHeight <==> 0 <= i <= m.tipHeight)
    && (forall i :: i in m.hashByHeight ==> MainEntry(r, known, index, m.heightByHash, m.hashByHeight[i], i, chain))
    && (forall i :: 0 < i <= m.tipHeight ==> LinkedAt(chain, m.hashByHeight, i))
    && m.hashByHeight[0] == GenesisHash(r)
    && m.hashByHeight[m.tipHeight] == m.tipHash
    && m.tipWork == known[m.tipHash].work
  }

  /** The state invariant: everything the node keeps agrees with one valid chain, and
      the UTXO set is the replay of that chain. */
  ghost predicate StateOk(r: Rules, seen: set<Block>, known: Tree, index: map<Hash, IndexRec>, m: Memory,
                          chain: seq<Block>, utxos: Utxos) {
    && World(r, seen)
    && TreeOk(r, seen, known)
    && IndexOk(r, seen, known, index)
    && HeightsOk(known, m.heightByHash)
    && MainOk(r, known, index, m, chain)
    && ValidChain(r, chain)
    && utxos == Replay(r, chain)
  }

  /** The chainstate on disk mirrors the in-memory set at the tip. */
  ghost predicate Durable(store: Store, m: Memory, utxos: Utxos) {
    store.chainstate == utxos && store.bestBlock == Some(m.tipHash) && store.tip == Some((m.tipHash, m.tipHeight))
  }

  /** Connecting the block at height h succeeds and moves the replay forward by it;
      disconnecting it with its undo data moves back. */
  lemma {:induction false} ConnectStep(r: Rules, seen: set<Block>, chain: seq<Block>, h: nat)
    requires World(r, seen) && ValidChain(r, chain) && AllSeen(seen, chain) && 0 < h < |chain|
    ensures var v := CollectTxs(r, Replay(r, chain[..h]), chain[h].txs, |chain[h].txs|, h);
      && v.Some?
      && Finish(Replay(r, chain[..h]), v.value) == Replay(r, chain[..h + 1])
    ensures Disconnect(r, Replay(r, chain[..h + 1]), chain[h].txs, UndoFor(r, chain, h)) == Replay(r, chain[..h])
    ensures FreshBlock(r, Replay(r, chain[..h]), chain[h].txs)
  {
    hide BlockOk;
    hide Replay;
    hide CollectTxs;
    hide ApplyTxs;
    hide Finish;
    hide Disconnect;
    hide FreshBlock;
    hide HeadersDistinct;
    hide TxsDistinct;
    var prefix, b := chain[..h], chain[h];
    assert chain[..h + 1] == prefix + [b];
    ValidPrefix(r, chain, h + 1);
    ValidLast(r, prefix, b);
    SeenNoCollision(r, seen, prefix + [b]);
    ValidBlockIsFresh(r, prefix, b);
    ConnectIsSequential(r, Replay(r, prefix), b.txs, h);
    DisconnectUndoesConnect(r, Replay(r, prefix), b.txs, h);
  }

  /** Connecting block n of the chain to the replay of the blocks before it gives the
      replay including it, with the undo data of its height; the undo data leads back. */
  ghost predicate ConnectsAt(r: Rules, c: seq<Block>, n: nat)
    requires n < |c|
  {
    var v := CollectTxs(r, Replay(r, c[..n]), c[n].txs, |c[n].txs|, n);
    && v.Some? && v.value.undo == UndoFor(r, c, n)
    && Finish(Replay(r, c[..n]), v.value) == Replay(r, c[..n + 1])
    && FreshBlock(r, Replay(r, c[..n]), c[n].txs)
  }

  lemma {:induction false} ConnectsInside(r: Rules, seen: set<Block>, c: seq<Block>, n: nat)
    requires World(r, seen) && AllSeen(seen, c) && 0 < n < |c| && ValidChain(r, c[..n + 1])
    ensures ConnectsAt(r, c, n)
  {
    hide Replay;
    hide ValidChain;
    hide CollectTxs;
    hide Finish;
    hide Disconnect;
    hide FreshBlock;
    hide World;
    var d := c[..n + 1];
    ConnectStep(r, seen, d, n);
    assert d[..n] == c[..n] && d[..n + 1] == d;
  }

  // ---------- Blocks off the main chain ----------

  /** Writing or deleting an index record, or a height entry, of a block that is not
      on the main chain keeps the state invariant. */
  lemma {:induction false} OffMainUpdate(r: Rules, seen: set<Block>, known: Tree, index: map<Hash, IndexRec>, m: Memory,
                                         chain: seq<Block>, utxos: Utxos, known': Tree, index': map<Hash, IndexRec>,
                                         m': Memory)
    requires StateOk(r, seen, known, index, m, chain, utxos)
    requires TreeOk(r, seen, known') && forall h :: h in known ==> h in known' && known'[h] == known[h]
    requires IndexOk(r, seen, known', index') && HeightsOk(known', m'.heightByHash)
    requires forall h :: OnMain(m, h) && h in index ==> h in index' && index'[h] == index[h]
    requires forall h :: OnMain(m, h) ==> h in m'.heightByHash && m'.heightByHash[h] == m.heightByHash[h]
    requires m' == m.(heightByHash := m'.heightByHash)
    ensures StateOk(r, seen, known', index', m', chain, utxos)
  {
    hide TreeOk;
    hide IndexOk;
    hide HeightsOk;
    hide World;
    hide ValidChain;
    hide Replay;
    hide MainOk;
    MainFrame(r, known, index, m, chain, known', index', m');
  }

  lemma {:induction false} MainFrame(r: Rules, known: Tree, index: map<Hash, IndexRec>, m: Memory,
                                     chain: seq<Block>, known': Tree, index': map<Hash, IndexRec>, m': Memory)
    requires MainOk(r, known, index, m, chain)
    requires forall h :: h in known ==> h in known' && known'[h] == known[h]
    requires forall h :: OnMain(m, h) && h in index ==> h in index' && index'[h] == index[h]
    requires forall h :: OnMain(m, h) ==> h in m'.heightByHash && m'.heightByHash[h] == m.heightByHash[h]
    requires m' == m.(heightByHash := m'.heightByHash)
    ensures MainOk(r, known', index', m', chain)
  {
    hide UndoFor;
    forall i | i in m.hashByHeight
      ensures MainEntry(r, known', index', m'.heightByHash, m.hashByHeight[i], i, chain)
    {
      assert OnMain(m, m.hashByHeight[i]);
    }
  }

  /** Storing a block that is not on the main chain, with or without a height entry. */
  lemma {:induction false} StoreOffMain(r: Rules, seen: set<Block>, known: Tree, index: map<Hash, IndexRec>, m: Memory,
                                        chain: seq<Block>, utxos: Utxos, b: Block, rec: IndexRec, m': Memory)
    requires StateOk(r, seen, known, index, m, chain, utxos)
    requires b in seen && b.header.prevBlock in known && !OnMain(m, r.blockHash(b.header))
    requires var n := ChildNode(r, known, b.header);
      && rec.block == b && rec.height == n.height && rec.work == n.work && StructureOk(r, b, n.height)
      && (m' == m || m' == m.(heightByHash := m.heightByHash[r.blockHash(b.header) := n.height]))
    ensures var h, n := r.blockHash(b.header), ChildNode(r, known, b.header);
      StateOk(r, seen, known[h := n], index[h := rec], m', chain, utxos)
  {
    hide World;
    hide TreeOk;
    hide IndexOk;
    hide MainOk;
    hide ValidChain;
    hide Replay;
    hide StructureOk;
    var h, n := r.blockHash(b.header), ChildNode(r, known, b.header);
    TipEntry(r, known, index, m, chain);
    InsertNode(r, seen, known, b);
    IndexInsert(r, seen, known, index, b, rec);
    HeightsInsert(known, m.heightByHash, h, n);
    assert HeightsOk(known[h := n], m.heightByHash);
    OffMainUpdate(r, seen, known, index, m, chain, utxos, known[h := n], index[h := rec], m');
  }

  /** Forgetting a block that is not on the main chain. */
  lemma {:induction false} ForgetOffMain(r: Rules, seen: set<Block>, known: Tree, index: map<Hash, IndexRec>, m: Memory,
                                         chain: seq<Block>, utxos: Utxos, h: Hash, m': Memory)
    requires StateOk(r, seen, known, index, m, chain, utxos) && !OnMain(m, h)
    requires m' == m || m' == m.(heightByHash := m.heightByHash - {h})
    ensures StateOk(r, seen, known, index - {h}, m', chain, utxos)
  {
    hide World;
    hide TreeOk;
    hide MainOk;
    hide ValidChain;
    hide Replay;
    hide RecOk;
    OffMainUpdate(r, seen, known, index, m, chain, utxos, known, index - {h}, m');
  }

  // ---------- Ancestors ----------

  /** The plain parent walk: the ancestor of h at the given height. */
  ghost function AncestorAt(r: Rules, seen: set<Block>, known: Tree, h: Hash, height: nat): Hash
    requires TreeOk(r, seen, known) && h in known
    decreases known[h].height
  {
    assert NodeOk(r, seen, known, h);
    if known[h].height <= height then h else AncestorAt(r, seen, known, known[h].header.prevBlock, height)
  }

  lemma {:induction false} AncestorCompose(r: Rules, seen: set<Block>, known: Tree, h: Hash, mid: nat, height: nat)
    requires TreeOk(r, seen, known) && h in known && height <= mid <= known[h].height
    ensures AncestorAt(r, seen, known, h, mid) in known
    ensures AncestorAt(r, seen, known, AncestorAt(r, seen, known, h,
                                                  mid), height) == AncestorAt(r, seen, known, h, height)
    decreases known[h].height
  {
    assert NodeOk(r, seen, known, h);
    if known[h].height > mid {
      AncestorCompose(r, seen, known, known[h].header.prevBlock, mid, height);
    }
  }

  /** hs is a path of the tree from height zero, carrying the headers of chain. */
  ghost predicate PathOk(known: Tree, hs: seq<Hash>, chain: seq<Block>) {
    && |hs| == |chain|
    && (forall i :: 0 <= i < |hs| ==>
          hs[i] in known && known[hs[i]].height == i && known[hs[i]].header == chain[i].header)
    && (forall i :: 0 < i < |hs| ==> PathStep(hs, chain, i))
  }

  ghost predicate PathStep(hs: seq<Hash>, chain: seq<Block>, i: nat) {
    0 < i < |chain| && i - 1 < |hs| && chain[i].header.prevBlock == hs[i - 1]
  }

  lemma {:induction false} AncestorOnPath(r: Rules, seen: set<Block>, known: Tree, hs: seq<Hash>, chain: seq<Block>,
                                          k: nat, j: nat)
    requires TreeOk(r, seen, known) && PathOk(known, hs, chain) && j <= k < |hs|
    ensures AncestorAt(r, seen, known, hs[k], j) == hs[j]
    decreases k
  {
    if j < k {
      assert PathStep(hs, chain, k);
      AncestorOnPath(r, seen, known, hs, chain, k - 1, j);
    }
  }

  /** anc answers like the parent walk from h, up to the height of h. */
  ghost predicate WalksLike(r: Rules, seen: set<Block>, known: Tree, h: Hash, anc: Ancestors)
    requires TreeOk(r, seen, known) && h in known
  {
    forall i :: 0 <= i <= known[h].height ==>
      AncestorAt(r, seen, known, h, i) in known && anc(i) == Some(known[AncestorAt(r, seen, known, h, i)].header)
  }

  lemma {:induction false} TimesAgree(a: Ancestors, b: Ancestors, tip: nat, n: nat)
    requires forall i :: 0 <= i <= tip ==> a(i) == b(i)
    ensures Times(a, tip, n) == Times(b, tip, n)
  {
    if n > 0 {
      TimesAgree(a, b, tip, n - 1);
    }
  }

  /** With a correct ancestor lookup the node computes the chain's own median-time-past. */
  lemma {:induction false} MedianOfPath(r: Rules, seen: set<Block>, known: Tree, hs: seq<Hash>, chain: seq<Block>,
                                        anc: Ancestors)
    requires TreeOk(r, seen, known) && PathOk(known, hs, chain) && |hs| > 0
    requires WalksLike(r, seen, known, hs[|hs| - 1], anc)
    ensures MedianTimePast(anc, |chain| - 1) == ChainMedian(HeadersOf(chain))
  {
    hide TreeOk;
    var n := |hs| - 1;
    forall i | 0 <= i <= n ensures anc(i) == Lookup(HeadersOf(chain))(i) {
      AncestorOnPath(r, seen, known, hs, chain, n, i);
    }
    TimesAgree(anc, Lookup(HeadersOf(chain)), n, MEDIAN_COUNT);
  }

  /** The hashes of the main chain, by height. */
  ghost function MainHashes(hashByHeight: map<nat, Hash>, n: nat): (hs: seq<Hash>)
    requires forall i :: 0 <= i < n ==> i in hashByHeight
    ensures |hs| == n && forall i :: 0 <= i < n ==> hs[i] == hashByHeight[i]
  {
    seq(n, i requires 0 <= i < n => hashByHeight[i])
  }

  lemma {:induction false} MainPath(r: Rules, seen: set<Block>, known: Tree, index: map<Hash, IndexRec>, m: Memory,
                                    chain: seq<Block>)
    requires IndexOk(r, seen, known, index) && MainOk(r, known, index, m, chain)
    ensures PathOk(known, MainHashes(m.hashByHeight, m.tipHeight + 1), chain)
    ensures AllSeen(seen, chain)
  {
    hide UndoFor;
    forall i | 0 <= i < |chain|
      ensures known[m.hashByHeight[i]].header == chain[i].header && chain[i] in seen
    {
      assert MainEntry(r, known, index, m.heightByHash, m.hashByHeight[i], i, chain);
      assert RecOk(r, seen, known, m.hashByHeight[i], index[m.hashByHeight[i]]);
    }
    var hs := MainHashes(m.hashByHeight, m.tipHeight + 1);
    forall i | 0 < i < |hs| ensures PathStep(hs, chain, i) {
      assert LinkedAt(chain, m.hashByHeight, i);
    }
  }

  // ---------- Extending the main chain ----------

  lemma {:induction false} UndoPrefix(r: Rules, a: seq<Block>, b: seq<Block>, h: nat)
    requires h < |a| && h < |b| && a[..h] == b[..h] && a[h] == b[h]
    ensures UndoFor(r, a, h) == UndoFor(r, b, h)
  {
  }

  /** The memory after the tip moved to a child of the old tip. */
  function Extended(m: Memory, h: Hash, work: nat): Memory {
    Memory(h, m.tipHeight + 1, work, m.heightByHash[h := m.tipHeight + 1], m.hashByHeight[m.tipHeight + 1 := h])
  }

  lemma {:induction false} ExtendMain(r: Rules, known: Tree, index: map<Hash, IndexRec>, m: Memory, chain: seq<Block>,
                                      b: Block, h: Hash, known': Tree, rec: IndexRec)
    requires MainOk(r, known, index, m, chain)
    requires h !in m.heightByHash && b.header.prevBlock == m.tipHash
    requires h in known' && forall x :: x in known ==> x in known' && known'[x] == known[x]
    requires known'[h].height == m.tipHeight + 1
    requires rec.block == b && rec.undo == Some(UndoFor(r, chain + [b], |chain|))
    ensures MainOk(r, known', index[h := rec], Extended(m, h, known'[h].work), chain + [b])
  {
    hide UndoFor;
    hide OnMain;
    var m', chain' := Extended(m, h, known'[h].work), chain + [b];
    forall i | 0 < i <= m'.tipHeight ensures LinkedAt(chain', m'.hashByHeight, i) {
      if i <= m.tipHeight {
        assert LinkedAt(chain, m.hashByHeight, i);
      }
    }
    forall i | i in m'.hashByHeight
      ensures MainEntry(r, known', index[h := rec], m'.heightByHash, m'.hashByHeight[i], i, chain')
    {
      if i <= m.tipHeight {
        assert MainEntry(r, known, index, m.heightByHash, m.hashByHeight[i], i, chain);
        assert chain'[..i] == chain[..i];
        UndoPrefix(r, chain', chain, i);
      }
    }
  }

  lemma {:induction false} ExtendState(r: Rules, seen: set<Block>, known: Tree, index: map<Hash, IndexRec>, m: Memory,
                                       chain: seq<Block>, utxos: Utxos, b: Block, rec: IndexRec)
    requires StateOk(r, seen, known, index, m, chain, utxos)
    requires b in seen && r.blockHash(b.header) !in m.heightByHash && b.header.prevBlock == m.tipHash
    requires BlockOk(r, chain, b)
    requires m.tipHash in known
    requires var n := ChildNode(r, known, b.header);
      rec == IndexRec(b, n.height, n.work, Some(UndoFor(r, chain + [b], |chain|)))
    ensures var h, n := r.blockHash(b.header), ChildNode(r, known, b.header);
      StateOk(r, seen, known[h := n], index[h := rec], Extended(m, h, n.work), chain + [b], Replay(r, chain + [b]))
  {
    hide Replay;
    hide UndoFor;
    hide World;
    hide MainOk;
    hide IndexOk;
    hide TreeOk;
    hide ValidChain;
    hide StructureOk;
    hide Extended;
    var h, n := r.blockHash(b.header), ChildNode(r, known, b.header);
    TipEntry(r, known, index, m, chain);
    InsertNode(r, seen, known, b);
    ExtendMain(r, known, index, m, chain, b, h, known[h := n], rec);
    ExtendValid(r, chain, b);
    IndexInsert(r, seen, known, index, b, rec);
    HeightsInsert(known, m.heightByHash, h, n);
    assert Extended(m, h, n.work).heightByHash == m.heightByHash[h := n.height] by {
      ExtendedHeights(m, h, n.work);
    }
  }

  lemma ExtendedHeights(m: Memory, h: Hash, work: nat)
    ensures Extended(m, h, work).heightByHash == m.heightByHash[h := m.tipHeight + 1]
  {
  }

  lemma HeightsInsert(known: Tree, heights: map<Hash, nat>, h: Hash, n: Node)
    requires HeightsOk(known, heights) && (h in known ==> known[h] == n)
    ensures HeightsOk(known[h := n], heights[h := n.height])
  {
  }

  lemma TipEntry(r: Rules, known: Tree, index: map<Hash, IndexRec>, m: Memory, chain: seq<Block>)
    requires MainOk(r, known, index, m, chain)
    ensures m.tipHash in known && known[m.tipHash].height == m.tipHeight && m.tipHash in index
    ensures OnMain(m, m.tipHash) && OnMain(m, GenesisHash(r)) && |chain| == m.tipHeight + 1
  {
    assert MainEntry(r, known, index, m.heightByHash, m.hashByHeight[m.tipHeight], m.tipHeight, chain);
    assert MainEntry(r, known, index, m.heightByHash, m.hashByHeight[0], 0, chain);
  }

  lemma {:induction false} IndexInsert(r: Rules, seen: set<Block>, known: Tree, index: map<Hash, IndexRec>, b: Block,
                                       rec: IndexRec)
    requires World(r, seen) && TreeOk(r, seen, known) && IndexOk(r, seen, known, index) && b in seen
    requires b.header.prevBlock in known && r.blockHash(b.header) != GenesisHash(r)
    requires var n := ChildNode(r, known, b.header);
      rec.block == b && rec.height == n.height && rec.work == n.work && StructureOk(r, b, n.height)
    ensures var h, n := r.blockHash(b.header), ChildNode(r, known, b.header);
      IndexOk(r, seen, known[h := n], index[h := rec])
  {
    hide StructureOk;
    InsertNode(r, seen, known, b);
    var h, n := r.blockHash(b.header), ChildNode(r, known, b.header);
    var index' := index[h := rec];
    forall x | x in index' ensures RecOk(r, seen, known[h := n], x, index'[x]) {
      if x != h {
        assert RecOk(r, seen, known, x, index[x]);
      }
    }
  }

  /** What connecting a valid child of the tip does to the UTXO set and to the
      chainstate, and that its undo data leads back. */
  lemma {:induction false} ExtendUtxos(r: Rules, seen: set<Block>, known: Tree, index: map<Hash, IndexRec>, m: Memory,
                                       chain: seq<Block>, utxos: Utxos, b: Block)
    requires StateOk(r, seen, known, index, m, chain, utxos) && b in seen && BlockOk(r, chain, b)
    ensures var v := CollectTxs(r, utxos, b.txs, |b.txs|, |chain|);
      && v.Some?
      && Finish(utxos, v.value) == Replay(r, chain + [b])
      && v.value.undo == UndoFor(r, chain + [b], |chain|)
      && Disconnect(r, Replay(r, chain + [b]), b.txs, v.value.undo) == utxos
    ensures FreshBlock(r, utxos, b.txs)
  {
    hide BlockOk;
    hide Replay;
    hide Finish;
    hide CollectTxs;
    hide Disconnect;
    hide FreshBlock;
    hide MainOk;
    hide ValidChain;
    hide TreeOk;
    hide World;
    MainPath(r, seen, known, index, m, chain);
    ExtendValid(r, chain, b);
    var chain' := chain + [b];
    assert chain'[..|chain|] == chain && chain'[..|chain| + 1] == chain';
    ConnectStep(r, seen, chain', |chain|);
  }

  // ---------- What a restart can recover ----------

  /** The index stores the chain c, with its undo data, along the path hs. */
  ghost predicate HoldsChain(r: Rules, known: Tree, index: map<Hash, IndexRec>, hs: seq<Hash>, c: seq<Block>) {
    && |c| > 0 && PathOk(known, hs, c) && hs[0] == GenesisHash(r)
    && forall i :: 0 <= i < |hs| ==>
         && hs[i] in index && index[hs[i]].block == c[i]
         && (i > 0 ==> index[hs[i]].undo == Some(UndoFor(r, c, i)))
  }

  /** The same without the undo data. */
  ghost predicate HoldsBlocks(r: Rules, known: Tree, index: map<Hash, IndexRec>, hs: seq<Hash>, c: seq<Block>) {
    && |c| > 0 && PathOk(known, hs, c) && hs[0] == GenesisHash(r)
    && forall i :: 0 <= i < |hs| ==> hs[i] in index && index[hs[i]].block == c[i]
  }

  /** The undo data of all blocks of the chain is stored. */
  ghost predicate HoldsUndo(r: Rules, index: map<Hash, IndexRec>, hs: seq<Hash>, c: seq<Block>)
    requires |hs| == |c|
  {
    forall i :: 0 < i < |hs| ==> hs[i] in index && index[hs[i]].undo == Some(UndoFor(r, c, i))
  }

  lemma BlocksAndUndo(r: Rules, known: Tree, index: map<Hash, IndexRec>, hs: seq<Hash>, c: seq<Block>)
    ensures HoldsChain(r, known, index, hs, c) ==>
      HoldsBlocks(r, known, index, hs, c) && |hs| == |c| && HoldsUndo(r, index, hs, c)
    ensures HoldsBlocks(r, known, index, hs, c) && |hs| == |c| && HoldsUndo(r, index, hs, c) ==>
      HoldsChain(r, known, index, hs, c)
  {
    hide UndoFor;
  }

  /** A store whose chainstate is exactly the replay of the valid chain c, with the
      recorded chain tip at the end of c or one block behind. */
  ghost predicate Recoverable(r: Rules, seen: set<Block>, known: Tree, st: Store, hs: seq<Hash>, c: seq<Block>) {
    && World(r, seen) && TreeOk(r, seen, known) && IndexOk(r, seen, known, st.index)
    && ValidChain(r, c) && HoldsChain(r, known, st.index, hs, c)
    && st.chainstate == Replay(r, c)
    && st.bestBlock == Some(hs[|hs| - 1])
    && (|| st.tip == Some((hs[|hs| - 1], |hs| - 1))
        || (|hs| > 1 && st.tip == Some((hs[|hs| - 2], |hs| - 2))))
  }

  lemma {:induction false} StateRecoverable(r: Rules, seen: set<Block>, known: Tree, st: Store, m: Memory,
                                            chain: seq<Block>, utxos: Utxos)
    requires StateOk(r, seen, known, st.index, m, chain, utxos) && Durable(st, m, utxos)
    ensures Recoverable(r, seen, known, st, MainHashes(m.hashByHeight, m.tipHeight + 1), chain)
  {
    hide World;
    hide TreeOk;
    hide ValidChain;
    hide Replay;
    hide UndoFor;
    MainPath(r, seen, known, st.index, m, chain);
    forall i | i in m.hashByHeight
      ensures MainEntry(r, known, st.index, m.heightByHash, m.hashByHeight[i], i, chain)
    {
    }
  }

  /** Until the tip record is written, the store is recoverable all the same. */
  lemma TipBehind(r: Rules, seen: set<Block>, known: Tree, st: Store, hs: seq<Hash>, c: seq<Block>)
    requires Recoverable(r, seen, known, st, hs, c) && |hs| > 1
    ensures Recoverable(r, seen, known, st.(tip := Some((hs[|hs| - 2], |hs| - 2))), hs, c)
  {
  }

  // ---------- Switching to another branch ----------

  /** hashes, in ascending order, is a stored branch that leaves the main chain above
      height `fork`. */
  ghost predicate BranchOk(known: Tree, index: map<Hash, IndexRec>, m: Memory, fork: nat, hashes: seq<Hash>) {
    && fork <= m.tipHeight && fork in m.hashByHeight
    && (forall k :: 0 <= k < |hashes| ==>
          && hashes[k] in known && hashes[k] in index
          && known[hashes[k]].height == fork + 1 + k
          && !OnMain(m, hashes[k]))
    && (forall k :: 0 <= k < |hashes| ==> BranchStep(known, m, fork, hashes, k))
  }

  /** Branch block k names branch block k - 1, or the fork block, as its parent. */
  ghost predicate BranchStep(known: Tree, m: Memory, fork: nat, hashes: seq<Hash>, k: nat) {
    && k < |hashes| && hashes[k] in known && fork in m.hashByHeight
    && known[hashes[k]].header.prevBlock == (if k == 0 then m.hashByHeight[fork] else hashes[k - 1])
  }

  ghost function BranchBlocks(index: map<Hash, IndexRec>, hashes: seq<Hash>): (bs: seq<Block>)
    requires forall k :: 0 <= k < |hashes| ==> hashes[k] in index
    ensures |bs| == |hashes| && forall k :: 0 <= k < |bs| ==> bs[k] == index[hashes[k]].block
  {
    seq(|hashes|, k requires 0 <= k < |hashes| => index[hashes[k]].block)
  }

  /** The chain that follows the main chain up to the fork and then the branch. */
  ghost function Switched(chain: seq<Block>, fork: nat, branch: seq<Block>): seq<Block>
    requires fork < |chain|
  {
    chain[..fork + 1] + branch
  }

  lemma {:induction false} SwitchMain(r: Rules, known: Tree, index: map<Hash, IndexRec>, m: Memory, chain: seq<Block>,
                                      fork: nat, hashes: seq<Hash>, branch: seq<Block>, index': map<Hash, IndexRec>,
                                      m': Memory)
    requires MainOk(r, known, index, m, chain) && BranchOk(known, index, m, fork, hashes) && |hashes| > 0
    requires |branch| == |hashes| && forall k :: 0 <= k < |branch| ==> branch[k].header == known[hashes[k]].header
    requires HeightsOk(known, m'.heightByHash)
    requires m'.tipHeight == fork + |hashes| && m'.tipHash == hashes[|hashes| - 1]
    requires m'.tipWork == known[m'.tipHash].work
    requires forall i :: i in m'.hashByHeight <==> 0 <= i <= m'.tipHeight
    requires forall i :: i in m'.hashByHeight ==>
      m'.hashByHeight[i] == (if i <= fork then m.hashByHeight[i] else hashes[i - fork - 1])
    requires forall i :: i in m'.hashByHeight ==> m'.hashByHeight[i] in m'.heightByHash
    requires forall i :: 0 <= i <= fork ==>
      m.hashByHeight[i] in index' && index'[m.hashByHeight[i]] == index[m.hashByHeight[i]]
    requires forall k :: 0 <= k < |hashes| ==>
      && hashes[k] in index' && index'[hashes[k]].block == branch[k]
      && index'[hashes[k]].undo == Some(UndoFor(r, Switched(chain, fork, branch), fork + 1 + k))
    ensures MainOk(r, known, index', m', Switched(chain, fork, branch))
  {
    hide UndoFor;
    hide OnMain;
    forall i | 0 < i <= m'.tipHeight ensures LinkedAt(Switched(chain, fork, branch), m'.hashByHeight, i) {
      SwitchLink(r, known, index, m, chain, fork, hashes, branch, m', i);
    }
    forall i | i in m'.hashByHeight
      ensures MainEntry(r, known, index', m'.heightByHash, m'.hashByHeight[i], i, Switched(chain, fork, branch))
    {
      if i <= fork {
        var chain' := Switched(chain, fork, branch);
        assert MainEntry(r, known, index, m.heightByHash, m.hashByHeight[i], i, chain);
        assert chain'[..i] == chain[..i];
        UndoPrefix(r, chain', chain, i);
      }
    }
  }

  lemma {:induction false} SwitchLink(r: Rules, known: Tree, index: map<Hash, IndexRec>, m: Memory, chain: seq<Block>,
                                      fork: nat, hashes: seq<Hash>, branch: seq<Block>, m': Memory, i: nat)
    requires MainOk(r, known, index, m, chain) && BranchOk(known, index, m, fork, hashes)
    requires |branch| == |hashes| && forall k :: 0 <= k < |branch| ==> branch[k].header == known[hashes[k]].header
    requires 0 < i <= m'.tipHeight == fork + |hashes|
    requires forall i :: i in m'.hashByHeight <==> 0 <= i <= m'.tipHeight
    requires forall i :: i in m'.hashByHeight ==>
      m'.hashByHeight[i] == (if i <= fork then m.hashByHeight[i] else hashes[i - fork - 1])
    ensures LinkedAt(Switched(chain, fork, branch), m'.hashByHeight, i)
  {
    hide MainEntry;
    hide OnMain;
    assert i - 1 in m'.hashByHeight;
    if i <= fork {
      assert LinkedAt(chain, m.hashByHeight, i);
    } else {
      var k := i - fork - 1;
      assert BranchStep(known, m, fork, hashes, k);
      assert branch[k].header == known[hashes[k]].header;
    }
  }
}
