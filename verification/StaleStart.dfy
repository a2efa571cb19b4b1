/** A node that loses its UTXO set: cut off in the commit phase of a reorganisation and
    started twice, it ends with an output as unspent that its chain has spent. */
module StaleStart {
  import opened Types
  import opened Bytes
  import opened Amounts
  import opened Utxo
  import opened TxValidation
  import opened BlockValidation
  import opened MedianTime
  import opened Sizes
  import opened Ledger
  import opened ChainState
  import opened Closure
  import opened HeaderRules
  import opened Recovery
  import opened Commits
  import opened ChainRules
  import opened Chains
  import opened Safety
  import opened Scenario
  import opened BrokenWalk
  import opened SwitchCrash

  /** The reward of the first block of the long line. */
  function Reward(): OutPoint {
    OutPoint(HashOf(LONG + 1), 0)
  }

  /** Genesis, the first block of the long line, and the block that spends its reward. */
  function SpentChain(): seq<Block> {
    [BlockOf(0), BlockOf(LONG + 1), BlockOf(SPENDER)]
  }

  /** The reward is there after the first block. */
  lemma {:induction false} RewardThere(c: seq<Block>)
    requires |c| == 2 && c[1] == BlockOf(LONG + 1)
    ensures var s := Replay(ScenarioRules(), c); Reward() in s && s[Reward()] == UtxoEntry(1, [1], 1, true)
  {
    hide ScenarioRules;
    hide HashOf;
    hide EncodeHeight;
    hide GenesisUtxos;
    var r, tx, txs := ScenarioRules(), CoinbaseOf(LONG + 1), TxsOf(LONG + 1);
    Names(LONG + 1);
    var before := Replay(r, c[..1]);
    assert ApplyTxs(r, before, txs, 0, 1) == Some(before);
    assert ApplyTxs(r, before, txs, 1, 1) == ApplyTx(r, before, tx, 1);
    CreatedUpToIs(r.txid(tx), tx, 1, 1);
  }

  /** It is gone after the spending block. */
  lemma {:induction false} RewardGone(c: seq<Block>)
    requires |c| == 3 && c[1] == BlockOf(LONG + 1) && c[2] == BlockOf(SPENDER)
    ensures Reward() !in Replay(ScenarioRules(), c)
  {
    hide ScenarioRules;
    hide HashOf;
    hide EncodeHeight;
    hide GenesisUtxos;
    var r, a, b, txs := ScenarioRules(), CoinbaseOf(SPENDER), SpendTx(), TxsOf(SPENDER);
    Names(SPENDER);
    HashesDiffer(SPENDER, LONG + 1);
    HashesDiffer(IDS, LONG + 1);
    var before := Replay(r, c[..2]);
    RewardThere(c[..2]);
    var mid := before + Created(r.txid(a), a, 2);
    assert ApplyTxs(r, before, txs, 0, 2) == Some(before);
    assert ApplyTxs(r, before, txs, 1, 2) == Some(mid);
    CreatedUpToIs(r.txid(a), a, 1, 2);
    assert Spend(mid, b.inputs, 0) == Some(mid);
    assert Spend(mid, b.inputs, 1) == Some(mid - {Reward()});
    assert ApplyTxs(r, before, txs, 2, 2) == Some(mid - {Reward()} + Created(r.txid(b), b, 2));
    CreatedUpToIs(r.txid(b), b, 1, 2);
  }

  /** The spending block is valid. */
  lemma {:induction false} SpenderValid(c: seq<Block>)
    requires |c| == 2 && c[1] == BlockOf(LONG + 1)
    ensures BlockOk(ScenarioRules(), c, BlockOf(SPENDER))
  {
    hide ScenarioRules;
    hide HashOf;
    hide StructureOk;
    hide Replay;
    hide ChainMedian;
    hide EncodeHeight;
    var r := ScenarioRules();
    Names(SPENDER);
    Names(LONG + 1);
    SmallRules();
    SmallBlock(SPENDER);
    RewardThere(c);
    SpendsReward(r, Replay(r, c), ChainMedian(HeadersOf(c)));
  }

  lemma SpendsReward(r: Rules, s: Utxos, medianTime: nat)
    requires r == ScenarioRules() && Reward() in s && s[Reward()] == UtxoEntry(1, [1], 1, true)
    ensures TxInputsOk(r, s, TxsOf(SPENDER), 2, medianTime)
  {
    hide ScenarioRules;
    hide HashOf;
    hide EncodeHeight;
    Names(SPENDER);
    SmallRules();
    HashesDiffer(SPENDER, LONG + 1);
    var a, b, txs := CoinbaseOf(SPENDER), SpendTx(), TxsOf(SPENDER);
    var v := AddOutputs(EMPTY_VIEW, Created(r.txid(a), a, 2));
    assert CollectTxs(r, s, txs, 0, 2) == Some(EMPTY_VIEW);
    assert CollectTxs(r, s, txs, 1, 2) == Some(v);
    CreatedUpToIs(r.txid(a), a, 1, 2);
    SpendIsOk(r, s, v, medianTime);
    assert TxsOk(r, s, txs, 0, 2, medianTime) && TxsOk(r, s, txs, 1, 2, medianTime);
    assert TxsOk(r, s, txs, 2, 2, medianTime);
    assert Fees(r, s, txs, 0, 2, medianTime) == 0 && Fees(r, s, txs, 1, 2, medianTime) == 0;
    assert Fees(r, s, txs, 2, 2, medianTime) == 0;
    assert SumOutputs(a.outputs, 1) == SumOutputs(a.outputs, 0) + 1;
  }

  lemma SpendIsOk(r: Rules, s: Utxos, v: View, medianTime: nat)
    requires r == ScenarioRules() && Reward() in s && s[Reward()] == UtxoEntry(1, [1], 1, true)
    requires v.spent == {} && Reward() !in v.created
    ensures SpendOk(r, s, v, SpendTx(), 2, medianTime) && Fee(s, v, SpendTx()) == 0
  {
    hide ScenarioRules;
    hide HashOf;
    SmallRules();
    AlwaysSigned();
    var tx := SpendTx();
    assert CollectInputs(s, v, tx.inputs, 0) == Some(v);
    assert CollectInputs(s, v, tx.inputs, 1).Some?;
    var es := Resolved(s, v, tx.inputs, 1);
    assert es == Resolved(s, v, tx.inputs, 0) + [s[Reward()]];
    assert SumEntries(es, 1) == SumEntries(es, 0) + 1;
    assert SumOutputs(tx.outputs, 1) == SumOutputs(tx.outputs, 0) + 1;
    assert InputsSize(tx.inputs, 1) == 0 && OutputsSize(tx.outputs, 1) == 0;
  }

  lemma AlwaysSigned()
    ensures forall sig, pk, t, i :: ScenarioRules().verifyScript(sig, pk, t, i)
  {
    hide ToLE;
  }

  /** A node on the chain with the spending block. */
  method SpentNode() returns (node: Chain)
    ensures fresh(node) && fresh(node.utxoSet) && Stage(node, SpentChain(), SPENDER) && node.reorgHistory == []
    ensures HashOf(RIVAL) !in node.heightByHash
  {
    hide HashOf;
    hide BlockOf;
    hide ScenarioRules;
    hide AllBlocks;
    hide Settles;
    hide BlockOk;
    hide LongChain;
    hide StateOk;
    hide OrphansOk;
    hide RecordsOk;
    hide World;
    hide Timed;
    ScenarioWorld();
    node := FirstStart(ScenarioRules(), AllBlocks());
    FirstLong(node);
    Lengthen(node, 0);
    OneLong();
    AllHashesDiffer();
    LongChainAt(1, 1);
    MainIs(node, 1, LONG + 1);
    SpenderValid(node.chain);
    HeaderPrev(SPENDER);
    Names(SPENDER);
    ghost var s0 := node.Snap();
    var outcome, commits;
    ghost var why, settled;
    outcome, commits, why, settled := Submit(node, SPENDER);
    TipChild(s0, SPENDER, why, outcome, settled, node.Snap());
    StageOf(node, SpentChain(), SPENDER);
  }

  lemma OneLong()
    ensures LongChain(1) == [BlockOf(0), BlockOf(LONG + 1)]
  {
    hide BlockOf;
    assert LongChain(0) == [BlockOf(0)];
  }

  /** The store after the first write of the reorganisation to the rival block: the chain
      with the spending block can be started from it, and its chainstate still has the
      reward. */
  method CutOff() returns (st: Store, ghost tree: Tree, ghost hs: seq<Hash>)
    ensures Startable(ScenarioRules(), AllBlocks(), tree, st, hs, SpentChain()) && st.tip.Some? && !Kept(st, hs)
    ensures |hs| == 3 && HoldsUndo(ScenarioRules(), st.index, hs, SpentChain())
    ensures Reward() in st.chainstate
  {
    hide HashOf;
    hide BlockOf;
    hide ScenarioRules;
    hide AllBlocks;
    hide StateOk;
    hide OrphansOk;
    hide RecordsOk;
    hide DepthOk;
    hide Verdict;
    hide Exact;
    hide Startable;
    hide HoldsUndo;
    hide Kept;
    hide Replay;
    hide ValidChain;
    hide Committing;
    hide Switchable;
    hide StructureOk;
    var node := SpentNode();
    DepthsAllowed();
    node.TipFacts();
    LeavesSwitchable(node, SpentChain(), SPENDER, RIVAL);
    ValidVia(node, RIVAL);
    Ahead(node, RIVAL);
    ghost var s0, utxos := node.Snap(), node.utxoSet.entries;
    var outcome, commits;
    ghost var why, settled;
    outcome, commits, why, settled := Submit(node, RIVAL);
    SwitchJudged(s0, RIVAL, why, outcome, settled, node.Snap());
    ghost var r, child := node.r, Node(HeaderOf(RIVAL), Height(RIVAL), Work(RIVAL));
    Names(RIVAL);
    InWorld(RIVAL);
    CommitStarts(r, node.seen, s0, utxos, BlockOf(RIVAL), child, NOW, NO_FAULTS, why, settled);
    ghost var st0 := s0.store.(index := s0.store.index[HashOf(RIVAL) :=
                               IndexRec(BlockOf(RIVAL), child.height, child.work, None)]);
    ghost var c;
    st := commits.disconnects[0];
    tree := why.tree;
    hs, c := InterruptedStarts(r, node.seen, tree, st0, s0, utxos, why, settled, AfterDisconnect(0), st);
    assert UndoneTo(r, st0, s0.m, s0.chain, 1, st);
    RewardThere(SpentChain()[..2]);
  }

  /** Started twice on that store, the node has the reward as unspent, and its chain has
      spent it. */
  method LostSet() returns (first: Chain, second: Chain)
    ensures first.chain == second.chain == SpentChain() && !first.Valid() && !second.Valid()
    ensures Reward() in second.utxoSet.entries && Reward() !in Replay(second.r, second.chain)
  {
    hide HashOf;
    hide BlockOf;
    hide ScenarioRules;
    hide AllBlocks;
    hide Startable;
    hide HoldsUndo;
    hide Kept;
    hide Replay;
    var st;
    ghost var tree, hs;
    st, tree, hs := CutOff();
    RewardGone(SpentChain());
    first, second := TwoStarts(ScenarioRules(), st, AllBlocks(), tree, hs, SpentChain());
  }
}
