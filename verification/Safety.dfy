/** What holds of the node over whole runs: any sequence of blocks from peers,
    write failures and restarts. */
module Safety {
  import opened Types
  import opened Utxo
  import opened UtxoSets
  import opened Subsidy
  import opened Ledger
  import opened Books
  import opened Supply
  import opened ChainState
  import opened MedianTime
  import opened Closure
  import opened HeaderRules
  import opened Recovery
  import opened ChainRules
  import opened AncestorLookup
  import opened ReorgLimits
  import opened BlockForm
  import opened Chains
  import TxValidation
  import BlockValidation

  /** Everything a consistent state implies about the coins and the chain. */
  ghost predicate Sound(r: Rules, m: Memory, chain: seq<Block>, utxos: Utxos) {
    && ValidChain(r, chain)
    && utxos == Replay(r, chain)
    && m.tipWork == ChainWork(r, chain)
    && DistinctIds(r, AllTxs(chain))
    && BooksOk(r, chain, utxos)
    && Total(utxos) <= Total(GenesisUtxos(r)) + SubsidySum(r.params, 1, |chain|)
    && (MainnetEconomics(r.params) && MainnetGenesis(r) ==> Total(utxos) <= MAX_MONEY)
  }

  lemma {:induction false} StateIsSound(r: Rules, seen: set<Block>, known: Tree, index: map<Hash, IndexRec>, m: Memory,
                                        chain: seq<Block>, utxos: Utxos)
    requires StateOk(r, seen, known, index, m, chain, utxos)
    ensures Sound(r, m, chain, utxos)
  {
    hide ValidChain;
    hide Replay;
    hide TreeOk;
    hide IndexOk;
    hide HeightsOk;
    hide MainOk;
    hide HeadersDistinct;
    hide TxsDistinct;
    hide DistinctIds;
    hide NoCollision;
    hide MainnetGenesis;
    hide OnMain;
    hide Total;
    hide SubsidySum;
    hide BooksOk;
    ConnectedFacts(r, seen, known, index, m, chain, utxos);
    MainPath(r, seen, known, index, m, chain);
    SeenNoCollision(r, seen, chain);
    StateWork(r, seen, known, index, m, chain, utxos);
    IdsDistinct(r, chain);
    ChainBooks(r, chain);
    ChainTotal(r, chain);
    if MainnetEconomics(r.params) && MainnetGenesis(r) {
      MainnetCoinsBounded(r, chain);
    }
  }

  lemma {:induction false} IdsDistinct(r: Rules, chain: seq<Block>)
    requires GenesisOk(r) && ValidChain(r, chain) && NoCollision(r, AllTxs(chain))
    ensures DistinctIds(r, AllTxs(chain))
  {
    hide ValidChain;
    hide NoCollision;
    forall i, j | 0 <= i < j < |AllTxs(chain)| ensures r.txid(AllTxs(chain)[i]) != r.txid(AllTxs(chain)[j]) {
      TxidsNeverRepeat(r, chain, i, j);
    }
  }

  /** The headers of the chain were accepted under the timestamp rule, each against the
      median time of those before it. */
  ghost predicate HeadersAccepted(r: Rules, chain: seq<Block>) {
    exists limits :: AcceptedHeaders(r.params.timestampRule, HeadersOf(chain), limits)
  }

  lemma {:induction false} TimedChain(r: Rules, seen: set<Block>, known: Tree, index: map<Hash, IndexRec>, m: Memory,
                                      chain: seq<Block>, utxos: Utxos)
    requires StateOk(r, seen, known, index, m, chain, utxos) && Timed(r, seen, known)
    ensures HeadersAccepted(r, chain)
  {
    hide ValidChain;
    hide Replay;
    hide TreeOk;
    hide IndexOk;
    hide MainOk;
    hide Timed;
    hide AcceptedHeaders;
    MainPath(r, seen, known, index, m, chain);
    ConnectedFacts(r, seen, known, index, m, chain, utxos);
    var limits := TimedPath(r, seen, known, MainHashes(m.hashByHeight, m.tipHeight + 1), chain, |chain|);
    assert HeadersOf(chain)[..|chain|] == HeadersOf(chain);
  }

  /** On such a chain a transaction that is final at one block is final at every later one. */
  lemma {:induction false} FinalOnChain(r: Rules, chain: seq<Block>, tx: Transaction, i: nat, j: nat)
    requires HeadersAccepted(r, chain) && 1 <= i <= j <= |chain|
    requires TxValidation.Final(tx, i, ChainMedian(HeadersOf(chain)[..i]))
    ensures TxValidation.Final(tx, j, ChainMedian(HeadersOf(chain)[..j]))
  {
    hide AcceptedHeaders;
    var limits :| AcceptedHeaders(r.params.timestampRule, HeadersOf(chain), limits);
    FinalityIsStable(r.params.timestampRule, HeadersOf(chain), limits, tx, i, j);
  }

  /** What the outside world does to a node: hand it a block, with the header checked
      before or not, at some time and with some of the disk writes failing, for the block
      and for those waiting behind it; stop it and start it again from its store; or cut
      its power after some of the writes it makes while it extends its tip. */
  datatype Event =
    | Arrive(block: Block, trusted: bool, now: U32, faults: Faults, orphanFaults: Hash -> Faults)
    | Restart
    | Crash(block: Block, trusted: bool, now: U32, faults: Faults, orphanFaults: Hash -> Faults, writes: nat)

  /** Safety over every run: whatever happens, the node stays consistent, its UTXO set
      is the replay of a valid chain whose ids never repeat and whose coins are bounded
      by the subsidies, and the work of its tip never decreases. Without a depth limit and
      without headers taken on trust, the headers of the chain obey the timestamp rule.

      `log` lists the moves of the main chain since the last start, which forgets those
      before it. While the clock does not run backwards, and where the 32-bit sums fit, no
      24 hours of them drop more than three times the depth limit. */
  method Run(node: Chain, events: seq<Event>) returns (last: Chain, ghost first: seq<Block>, ghost log: seq<Move>)
    requires node.Ready() && |node.orphans| <= MAX_ORPHAN_BLOCKS
    requires forall i :: 0 <= i < |events| ==> events[i].Restart? || events[i].block in node.seen
    modifies node, node.utxoSet
    ensures last.r == node.r && last.seen == node.seen && last.Ready()
    ensures last.tipWork >= old(node.tipWork)
    ensures Sound(last.r, last.Mem(), last.chain, last.utxoSet.entries)
    ensures old(node.AllTimed()) && NoneTrusted(events) ==> HeadersAccepted(last.r, last.chain)
    ensures Leads(first, log, last.chain) && (NoRestarts(events) ==> first == old(node.chain))
    ensures forall i :: 0 <= i < |log| ==>
      || log[i].before == log[i].after
      || (&& ValidChain(last.r, log[i].after) && ChainWork(last.r, log[i].before) <= ChainWork(last.r, log[i].after)
          && (Dropped(log[i].before, log[i].after) > 0 ==>
                ChainWork(last.r, log[i].before) < ChainWork(last.r, log[i].after)))
    ensures old(node.reorgHistory) == [] && Clocked(events) && SumsFit(node.r.params) && node.r.params.maxReorgDepth > 0
            ==>
      && (forall i :: 0 <= i < |log| ==> Dropped(log[i].before, log[i].after) <= node.r.params.maxReorgDepth)
      && (forall t :: DroppedInDay(log, t) <= 3 * node.r.params.maxReorgDepth)
  {
    hide StateOk;
    hide Sound;
    hide Startable;
    hide Accounts;
    hide Leads;
    hide AllRise;
    hide DroppedInDay;
    hide Dropped;
    hide ValidChain;
    hide OrphansOk;
    hide RecordsOk;
    hide Survivor;
    hide Verdict;
    hide Timed;
    hide HeadersAccepted;
    last, first, log := node, node.chain, [];
    ghost var timed, clocked := node.AllTimed() && NoneTrusted(events), node.reorgHistory == [] && Clocked(events);
    ghost var t := 0;
    NoMoves(node.r.params, 0);
    NoLead(node.r, node.chain);
    var i := 0;
    while i < |events|
      invariant 0 <= i <= |events|
      invariant last.r == node.r && last.seen == node.seen && last.Ready() && |last.orphans| <= MAX_ORPHAN_BLOCKS
      invariant last.tipWork >= old(node.tipWork) && (timed ==> last.AllTimed())
      invariant (last == node && last.utxoSet == node.utxoSet) || (fresh(last) && fresh(last.utxoSet))
      invariant Leads(first, log, last.chain) && (NoRestarts(events) ==> first == old(node.chain))
      invariant AllRise(node.r, log)
      invariant clocked ==> Accounts(node.r.params, last.reorgHistory, log, t)
      invariant clocked ==> forall j :: i <= j < |events| && !events[j].Restart? ==> t <= events[j].now
    {
      ghost var moves, time := log, t;
      last, first, log := Step(last, events[i], first, moves, time);
      if !events[i].Restart? {
        t := events[i].now;
      }
      i := i + 1;
    }
    AllRiseIs(node.r, log);
    if clocked && SumsFit(node.r.params) && node.r.params.maxReorgDepth > 0 {
      AccountsLimit(node.r.params, last.reorgHistory, log, t);
    }
    StateIsSound(last.r, last.seen, last.known, last.store.index, last.Mem(), last.chain, last.utxoSet.entries);
    if timed {
      TimedChain(last.r, last.seen, last.known, last.store.index, last.Mem(), last.chain, last.utxoSet.entries);
    }
  }

  ghost predicate NoneTrusted(events: seq<Event>) {
    forall i :: 0 <= i < |events| ==> events[i].Restart? || !events[i].trusted
  }

  ghost predicate NoRestarts(events: seq<Event>) {
    forall i :: 0 <= i < |events| ==> events[i].Arrive?
  }

  /** The clock does not run backwards. */
  ghost predicate Clocked(events: seq<Event>) {
    forall i, j :: 0 <= i < j < |events| && !events[i].Restart? && !events[j].Restart? ==>
      events[i].now <= events[j].now
  }

  /** One event of a run. */
  method Step(node: Chain, event: Event, ghost first: seq<Block>, ghost log: seq<Move>, ghost t: int)
    returns (next: Chain, ghost first': seq<Block>, ghost log': seq<Move>)
    requires node.Ready() && |node.orphans| <= MAX_ORPHAN_BLOCKS && (event.Restart? || event.block in node.seen)
    modifies node, node.utxoSet
    ensures next.r == node.r && next.seen == node.seen && next.Ready() && |next.orphans| <= MAX_ORPHAN_BLOCKS
    ensures next.tipWork >= old(node.tipWork)
    ensures old(node.AllTimed()) && (event.Restart? || !event.trusted) ==> next.AllTimed()
    ensures (next == node && next.utxoSet == node.utxoSet) || (fresh(next) && fresh(next.utxoSet))
    ensures event.Arrive? ==> first' == first
    ensures AllRise(node.r, log) ==> AllRise(node.r, log')
    ensures old(Leads(first, log, node.chain)) ==> Leads(first', log', next.chain)
    ensures old(Accounts(node.r.params, node.reorgHistory, log, t)) && (event.Restart? || t <= event.now) ==>
      Accounts(next.r.params, next.reorgHistory, log', if event.Restart? then t else event.now)
  {
    hide StateOk;
    hide OrphansOk;
    hide RecordsOk;
    hide Timed;
    hide Accounts;
    hide Leads;
    hide AllRise;
    hide MayEnter;
    match event {
      case Arrive(block, trusted, now, faults, orphanFaults) =>
        next := node;
        var outcome;
        ghost var why, moves;
        outcome, why, moves := Deliver(node, block, trusted, now, faults, orphanFaults, log, t);
        first', log' := first, log + moves;
        if old(Leads(first, log, node.chain)) {
          LeadsOn(first, log, old(node.chain), moves, next.chain);
        }
        if AllRise(node.r, log) {
          RiseOn(node.r, log, moves);
        }
      case Restart =>
        next := Reboot(node);
        first', log' := next.chain, [];
        NoMoves(next.r.params, t);
        NoLead(next.r, next.chain);
      case Crash(block, trusted, now, faults, orphanFaults, writes) =>
        next := CrashAndRestart(node, block, trusted, now, faults, orphanFaults, writes);
        first', log' := next.chain, [];
        NoMoves(next.r.params, now);
        NoLead(next.r, next.chain);
    }
  }

  /** A block may enter on its parent: its header is taken on trust, or is accepted by the
      consensus engine, not too far ahead of the clock, and later than the rule asks; and the
      block has the right form for its height. */
  ghost predicate MayEnter(r: Rules, block: Block, trusted: bool, parent: BlockHeader, parentHeight: nat, now: U32,
                           anc: Ancestors) {
    && (trusted ||
        (&& r.validateHeader(block.header, parent, parentHeight + 1, anc)
         && block.header.timestamp <= now + r.params.maxTimeFutureDrift
         && block.header.timestamp > (if r.params.timestampRule.PrevPlusOne? then parent.timestamp
                                      else MedianTimePast(anc, parentHeight))))
    && Formed(r, block, parentHeight + 1)
  }

  lemma EntryDecided(r: Rules, block: Block, trusted: bool, parent: BlockHeader, parentHeight: nat, now: U32,
                     anc: Ancestors)
    ensures MayEnter(r, block, trusted, parent, parentHeight, now, anc) <==>
      && (trusted || HeaderPasses(r, block.header, parent, parentHeight, now, anc))
      && BlockValidation.StructureOk(r, block, parentHeight + 1)
  {
    hide HeaderPasses;
    hide BlockValidation.StructureOk;
    hide Formed;
    hide MedianTimePast;
    HeaderDecided(r, block.header, parent, parentHeight, now, anc);
    StructureDecided(r, block, parentHeight + 1);
  }

  /** A block handed to a node. `moves` are those of the main chain it leads to, in order;
      the node's records go on accounting for them. */
  method Deliver(node: Chain, block: Block, trusted: bool, now: U32, faults: Faults, orphanFaults: Hash -> Faults,
                 ghost log: seq<Move>, ghost t: int)
    returns (outcome: Outcome, ghost why: Why, ghost moves: seq<Move>)
    requires node.Ready() && |node.orphans| <= MAX_ORPHAN_BLOCKS && block in node.seen
    modifies node, node.utxoSet
    ensures node.Ready() && |node.orphans| <= MAX_ORPHAN_BLOCKS
    ensures node.tipWork >= old(node.tipWork)
    ensures old(node.AllTimed()) && !trusted ==> node.AllTimed()
    ensures Leads(old(node.chain), moves, node.chain)
    ensures AllRise(node.r, moves)
    ensures old(node.OnKnownParent(block)) && block.header.prevBlock in old(node.store).index ==>
      (old(node.Passes(block, trusted, now, why.anc)) <==>
         MayEnter(node.r, block, trusted, old(node.store).index[block.header.prevBlock].block.header,
                  old(node.heightByHash)[block.header.prevBlock], now, why.anc))
    ensures old(node.OnKnownParent(block)) && !old(node.Passes(block, trusted, now, why.anc)) ==>
      outcome.Refused? && node.chain == old(node.chain)
    ensures old(node.Passes(block, trusted, now, why.anc)) && block.header.prevBlock == old(node.tipHash) ==>
      if ValidChain(node.r, old(node.chain) + [block]) && faults == NO_FAULTS then outcome.Accepted?
      else outcome.Refused?
    ensures old(node.Passes(block, trusted, now, why.anc)) && block.header.prevBlock != old(node.tipHash) ==>
      && block.header.prevBlock in old(node.known)
      && (ChildNode(node.r, old(node.known), block.header).work <= old(node.tipWork) ==>
            if faults.block || faults.index then outcome.Refused? else outcome.SideChain?)
    ensures old(Accounts(node.r.params, node.reorgHistory, log, t)) && t <= now ==>
      Accounts(node.r.params, node.reorgHistory, log + moves, now)
    ensures old(Accounts(node.r.params, node.reorgHistory, log, t)) && t <= now
            && 4 * node.r.params.maxReorgDepth < TWO32 && old(node.Passes(block, trusted, now, why.anc))
            && old(block.header.prevBlock != node.tipHash) && !faults.block && !faults.index ==>
      && block.header.prevBlock in old(node.known)
      && var child := ChildNode(node.r, old(node.known), block.header);
         child.work > old(node.tipWork) && old(node.WalkStored(block.header.prevBlock)) ==>
           SwitchDecided(node.r, old(node.Snap()), block, child, now, why, outcome, log)
  {
    hide OrphansOk;
    hide RecordsOk;
    hide Survivor;
    hide Verdict;
    hide Timed;
    hide Exact;
    hide Followed;
    hide StoreAfterRefusal;
    hide Accounts;
    hide Leads;
    hide SwitchDecided;
    hide StateOk;
    hide StoredWalk;
    hide WalksLike;
    hide BlockValidation.StructureOk;
    hide HeaderPasses;
    hide MayEnter;
    hide Weighed;
    hide Rises;
    hide ValidChain;
    node.TreeFacts();
    node.SnapWeighed();
    ghost var s0 := node.Snap();
    ghost var tree := node.known;
    var trace, commits;
    ghost var after;
    outcome, trace, commits, why, after := node.ProcessBlock(block, trusted, now, faults, orphanFaults);
    ghost var passed := old(node.Passes(block, trusted, now, why.anc));
    ghost var prev := block.header.prevBlock;
    if prev in s0.store.index && prev in s0.m.heightByHash {
      EntryDecided(node.r, block, trusted, s0.store.index[prev].block.header, s0.m.heightByHash[prev], now, why.anc);
    }
    moves := if passed then MovesFor(s0, after, now) else [];
    if !passed {
      NoLead(node.r, node.chain);
      assert log + moves == log;
      if Accounts(node.r.params, s0.history, log, t) && t <= now {
        AccountsLater(node.r.params, s0.history, log, t, now);
      }
    } else {
      ghost var child := ChildNode(node.r, tree, block.header);
      BlockLeads(node.r, node.seen, s0, now, outcome, orphanFaults, after, node.Snap());
      BlockRises(node.r, node.seen, s0, block, child, now, faults, why, outcome, orphanFaults, after, node.Snap());
      OtherwiseDecided(node.r, node.seen, s0, block, child, now, faults, why, outcome);
      if Accounts(node.r.params, s0.history, log, t) && t <= now {
        BlockAccounted(node.r, node.seen, s0, block, child, now, faults, why, outcome, orphanFaults, after, node.Snap(),
                       log, t);
        if 4 * node.r.params.maxReorgDepth < TWO32 && block.header.prevBlock != s0.m.tipHash
           && child.work > s0.m.tipWork && !faults.block && !faults.index
           && StoredWalk(node.r, node.seen, tree, s0.store.index, s0.m, block.header.prevBlock) {
          KeptAside(node.r, node.seen, s0, block, child, now, faults, why, outcome, log, t);
        }
      }
    }
  }

  /** A crash after some of the writes that extend the tip, by the block or by one waiting
      behind it, or after the block was processed. The node that comes up has at least the
      work of the old one. */
  method CrashAndRestart(node: Chain, block: Block, trusted: bool, now: U32, faults: Faults,
                         orphanFaults: Hash -> Faults, writes: nat)
    returns (next: Chain)
    requires node.Ready() && |node.orphans| <= MAX_ORPHAN_BLOCKS && block in node.seen
    modifies node, node.utxoSet
    ensures fresh(next) && fresh(next.utxoSet) && next.r == node.r && next.seen == node.seen
    ensures next.Ready() && next.orphans == map[] && next.tipWork >= old(node.tipWork) && next.reorgHistory == []
    ensures old(node.AllTimed()) && !trusted ==> next.AllTimed()
  {
    hide StateOk;
    hide Sound;
    hide Startable;
    hide OrphansOk;
    hide RecordsOk;
    hide Survivor;
    hide Verdict;
    hide Timed;
    hide Exact;
    hide Followed;
    hide StoreAfterRefusal;
    ghost var timed, work := node.AllTimed() && !trusted, node.tipWork;
    var outcome, trace, _, _, _ := node.ProcessBlock(block, trusted, now, faults, orphanFaults);
    if writes >= |trace| {
      next := Reboot(node);
      return;
    }
    var st := trace[writes];
    assert st in trace;
    ghost var tree, hs, c := CrashIsStartable(node.r, node.seen, st, work, timed);
    next := Start(node.r, st, node.seen, tree, hs, c);
    next.NodeWork();
  }

  /** A store that survives a crash can be started from, with at least the work it is
      credited with. */
  lemma CrashIsStartable(r: Rules, seen: set<Block>, st: Store, work: nat, timed: bool)
    returns (tree: Tree, hs: seq<Hash>, c: seq<Block>)
    requires Survivor(r, seen, st, work, timed)
    ensures Startable(r, seen, tree, st, hs, c) && st.tip.Some? && work <= ChainWork(r, c)
    ensures Intact(r, st, hs, c)
    ensures r.params.maxReorgDepth == 0 ==> ParentsBelow(st.index, ChainWork(r, c))
    ensures timed ==> Timed(r, seen, tree)
  {
    hide ChainWork;
    hide ParentsBelow;
    hide Timed;
    hide Recoverable;
    hide Startable;
    hide Intact;
    tree, hs, c :|
      && Recoverable(r, seen, tree, st, hs, c) && work <= ChainWork(r, c)
      && (r.params.maxReorgDepth == 0 ==> ParentsBelow(st.index, ChainWork(r, c)))
      && (timed ==> Timed(r, seen, tree));
    RecoverableStarts(r, seen, tree, st, hs, c);
  }

  /** Stopping a node between two blocks and starting a new one on its store. */
  method Reboot(node: Chain) returns (next: Chain)
    requires node.Ready()
    ensures fresh(next) && fresh(next.utxoSet) && next.r == node.r && next.seen == node.seen
    ensures next.Ready() && next.orphans == map[] && next.known == node.known && next.reorgHistory == []
    ensures next.chain == node.chain && next.tipWork == node.tipWork && next.utxoSet.entries == node.utxoSet.entries
  {
    hide StateOk;
    hide Startable;
    hide Sound;
    hide Replay;
    hide ParentsBelow;
    hide OrphansOk;
    node.TipFacts();
    node.NodeWork();
    StateStartable(node.r, node.seen, node.known, node.store, node.Mem(), node.chain, node.utxoSet.entries);
    next := Start(node.r, node.store, node.seen, node.known, MainHashes(node.hashByHeight, node.tipHeight + 1),
                  node.chain);
    next.TipFacts();
    next.NodeWork();
  }

  /** Starting a node on a store. It comes up on that store's chain, with a sound live set
      unless it takes a wrong chainstate as it is. It is consistent exactly if the store was
      intact, and then ready for blocks if, without a depth limit, no stored block builds on
      one with more work than the chain. */
  method Start(r: Rules, store: Store, ghost seen: set<Block>, ghost tree: Tree, ghost hs: seq<Hash>,
               ghost c: seq<Block>)
    returns (node: Chain)
    requires Startable(r, seen, tree, store, hs, c)
    ensures fresh(node) && fresh(node.utxoSet) && node.r == r && node.seen == seen
    ensures node.orphans == map[] && node.reorgHistory == [] && node.chain == c && node.known == tree
    ensures BareState(r, seen, tree, node.store.index, node.Mem(), c)
    ensures node.utxoSet.entries == LiveSet(r, store, hs, c)
    ensures Sound(r, node.Mem(), c, node.utxoSet.entries) <==> LiveSet(r, store, hs, c) == Replay(r, c)
    ensures store.tip.None? ==> node.heightByHash == map[GenesisHash(r) := 0]
    ensures store.tip.Some? ==> node.store == store.(
      chainstate := if Kept(store, hs) then store.chainstate else store.chainstate + Replay(r, c),
      bestBlock := Some(hs[|hs| - 1]), tip := Some((hs[|hs| - 1], |hs| - 1)))
    ensures node.Valid() <==> Intact(r, store, hs, c)
    ensures node.Valid() && (r.params.maxReorgDepth == 0 ==> ParentsBelow(store.index, ChainWork(r, c))) ==>
      node.Ready()
  {
    hide StateOk;
    hide Startable;
    hide Replay;
    hide ParentsBelow;
    hide IndexOk;
    hide TreeOk;
    hide BareState;
    hide Intact;
    hide Sound;
    node := new Chain(r, store, seen);
    node.Init(tree, hs, c);
    BareIsSound(r, seen, tree, node.store.index, node.Mem(), c);
    SoundSet(r, node.Mem(), c, node.utxoSet.entries);
    if r.params.maxReorgDepth == 0 && ParentsBelow(store.index, ChainWork(r, c)) {
      StartableParts(r, seen, tree, store, hs, c);
      GenesisBelow(r, seen, tree, store.index, ChainWork(r, c));
    }
  }

  lemma {:induction false} BareIsSound(r: Rules, seen: set<Block>, tree: Tree, index: map<Hash, IndexRec>, m: Memory,
                                       c: seq<Block>)
    requires BareState(r, seen, tree, index, m, c)
    ensures Sound(r, m, c, Replay(r, c)) && m.tipWork == ChainWork(r, c)
  {
    hide StateOk;
    hide Sound;
    hide SameRecords;
    var index' :| SameRecords(index, index') && StateOk(r, seen, tree, index', m, c, Replay(r, c));
    StateIsSound(r, seen, tree, index', m, c, Replay(r, c));
    StateWork(r, seen, tree, index', m, c, Replay(r, c));
  }

  lemma SoundSet(r: Rules, m: Memory, c: seq<Block>, utxos: Utxos)
    ensures Sound(r, m, c, utxos) <==> Sound(r, m, c, Replay(r, c)) && utxos == Replay(r, c)
  {
    hide ValidChain;
    hide Replay;
    hide Total;
    hide SubsidySum;
    hide DistinctIds;
    hide BooksOk;
  }

  /** The first start of a node, on an empty store. */
  method FirstStart(r: Rules, ghost seen: set<Block>) returns (node: Chain)
    requires World(r, seen)
    ensures fresh(node) && fresh(node.utxoSet) && node.r == r && node.seen == seen
    ensures node.Ready() && node.orphans == map[] && node.reorgHistory == []
    ensures node.chain == [r.params.genesis] && node.tipHash == GenesisHash(r)
    ensures node.tipHeight == 0 && node.tipWork == r.weight(r.params.genesis.header)
    ensures node.heightByHash.Keys == {GenesisHash(r)}
    ensures r.params.maxReorgDepth == 0 ==> node.AllTimed()
  {
    hide StateOk;
    hide Startable;
    hide Sound;
    hide Replay;
    hide OrphansOk;
    hide Timed;
    EmptyStartable(r, seen);
    node := Start(r, EMPTY_STORE, seen, GenesisTree(r), [GenesisHash(r)], [r.params.genesis]);
    node.TipFacts();
    node.NodeWork();
  }

  /** Every run that starts on nothing is safe. */
  method RunFromNothing(r: Rules, ghost seen: set<Block>, events: seq<Event>)
    returns (last: Chain, ghost first: seq<Block>, ghost log: seq<Move>)
    requires World(r, seen)
    requires forall i :: 0 <= i < |events| ==> events[i].Restart? || events[i].block in seen
    ensures last.r == r && last.seen == seen && last.Ready()
    ensures Sound(last.r, last.Mem(), last.chain, last.utxoSet.entries)
    ensures r.params.maxReorgDepth == 0 && NoneTrusted(events) ==> HeadersAccepted(r, last.chain)
    ensures Leads(first, log, last.chain) && (NoRestarts(events) ==> first == [r.params.genesis])
    ensures Clocked(events) && SumsFit(r.params) && r.params.maxReorgDepth > 0 ==>
      && (forall i :: 0 <= i < |log| ==> Dropped(log[i].before, log[i].after) <= r.params.maxReorgDepth)
      && (forall t :: DroppedInDay(log, t) <= 3 * r.params.maxReorgDepth)
  {
    hide StateOk;
    hide Sound;
    hide OrphansOk;
    hide RecordsOk;
    hide Timed;
    hide HeadersAccepted;
    var node := FirstStart(r, seen);
    last, first, log := Run(node, events);
  }

  /** Writing the genesis record again keeps every stored parent below the tip. */
  lemma GenesisBelow(r: Rules, seen: set<Block>, tree: Tree, index: map<Hash, IndexRec>, work: nat)
    requires TreeOk(r, seen, tree) && IndexOk(r, seen, tree, index) && ParentsBelow(index, work)
    ensures ParentsBelow(WithGenesis(r, index), work)
  {
    hide ParentsBelow;
    var gh := GenesisHash(r);
    assert NodeOk(r, seen, tree, gh);
    if gh in index {
      assert RecOk(r, seen, tree, gh, index[gh]);
    }
    BelowRoot(index, work, gh, IndexRec(r.params.genesis, 0, r.weight(r.params.genesis.header), None));
  }

  // ---------- The hypotheses can be met ----------

  const SOME_HASH: Hash := [1] + Zeros(31)

  function MainnetParams(): ChainParams {
    ChainParams(1_000_000, 10_000, MAINNET_SUBSIDY, MAINNET_HALVING, 100, 288, Some(1), Median11, 7200,
                Block(BlockHeader(1, ZERO_HASH, SOME_HASH, 1774175035, 0x1e7c_e359, 2147491670), [MainnetCoinbase()]))
  }

  /** There are rules with mainnet's parameters and blocks without collisions, so the
      theorems above speak about something. */
  lemma WorldIsPossible() returns (r: Rules, seen: set<Block>)
    ensures r.params == MainnetParams() && World(r, seen) && MainnetEconomics(r.params) && MainnetGenesis(r)
  {
    r := Rules(MainnetParams(), (t: Transaction) => SOME_HASH, (h: BlockHeader) => SOME_HASH,
               (a: Hash, b: Hash) => SOME_HASH,
               (sig: seq<Byte>, pk: seq<Byte>, t: Transaction, i: nat) => true,
               (h: BlockHeader, p: BlockHeader, n: nat, a: Ancestors) => true,
               (h: BlockHeader) => 1, (h: BlockHeader) => true);
    seen := {r.params.genesis};
    MainnetGenesisHolds(r);
    assert SOME_HASH[0] != ZERO_HASH[0];
  }
}
