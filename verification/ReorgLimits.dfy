/** How much of its main chain the node gives up in a day (internal/chain/chain.go, reorg).

    The limits are stated on the moves of the main chain alone: how many blocks each one
    drops, and when it was made. `Accounts` ties them to the records the node keeps. */
module ReorgLimits {
  import opened Types
  import opened Ledger
  import opened ChainState
  import opened AncestorLookup
  import opened Closure
  import opened Commits
  import opened ChainRules

  /** The main chain before and after a block was taken up, and the time. */
  datatype Move = Move(before: seq<Block>, after: seq<Block>, at: int)

  /** How many blocks the moves of the 24 hours up to t dropped, counted once per move. */
  ghost function DroppedInDay(log: seq<Move>, t: int): nat {
    if |log| == 0 then 0
    else
      var n := |log| - 1;
      DroppedInDay(log[..n], t)
      + if t - 86_400 < log[n].at <= t then Dropped(log[n].before, log[n].after) else 0
  }

  /** The moves lead from one chain to another, leaving none out. */
  ghost predicate Leads(first: seq<Block>, log: seq<Move>, last: seq<Block>) {
    if |log| == 0 then first == last
    else
      var n := |log| - 1;
      log[n].after == last && Leads(first, log[..n], log[n].before)
  }

  /** No move drops more blocks than the limit, and those of no 24 hours more than three
      times the limit. */
  ghost predicate Limited(p: ChainParams, log: seq<Move>) {
    && (forall i :: 0 <= i < |log| ==> Dropped(log[i].before, log[i].after) <= p.maxReorgDepth)
    && (forall t :: DroppedInDay(log, t) <= 3 * p.maxReorgDepth)
  }

  /** The 32-bit sum of the day's depths cannot pass 2^32 before it passes the 32-bit limit. */
  predicate SumsFit(p: ChainParams) {
    3 * p.maxReorgDepth % TWO32 + p.maxReorgDepth < TWO32
  }

  // ---------- The records ----------

  /** The true sum of the depths of the records after the cutoff. */
  function DepthSum(history: seq<ReorgRecord>, n: nat, cutoff: int): nat
    requires n <= |history|
  {
    if n == 0 then 0
    else DepthSum(history, n - 1, cutoff) + if history[n - 1].timestamp > cutoff then history[n - 1].depth else 0
  }

  lemma {:induction false} SumInBits(history: seq<ReorgRecord>, n: nat, cutoff: int)
    requires n <= |history|
    ensures RecentDepth(history, n, cutoff) == DepthSum(history, n, cutoff) % TWO32
  {
    if n > 0 {
      SumInBits(history, n - 1, cutoff);
    }
  }

  lemma {:induction false} SumAntitone(history: seq<ReorgRecord>, n: nat, c: int, c': int)
    requires n <= |history| && c <= c'
    ensures DepthSum(history, n, c') <= DepthSum(history, n, c)
  {
    if n > 0 {
      SumAntitone(history, n - 1, c, c');
    }
  }

  lemma {:induction false} SumPrefix(history: seq<ReorgRecord>, more: seq<ReorgRecord>, n: nat, c: int)
    requires n <= |history|
    ensures DepthSum(history + more, n, c) == DepthSum(history, n, c)
  {
    if n > 0 {
      SumPrefix(history, more, n - 1, c);
    }
  }

  lemma SumAppend(history: seq<ReorgRecord>, rec: ReorgRecord, c: int)
    ensures DepthSum(history + [rec], |history| + 1, c)
            == DepthSum(history, |history|, c) + if rec.timestamp > c then rec.depth else 0
  {
    SumPrefix(history, [rec], |history|, c);
  }

  /** Forgetting the records up to one cutoff changes no sum after a later one. */
  lemma {:induction false} SumOfRecent(history: seq<ReorgRecord>, n: nat, cutoff: int, c: int)
    requires n <= |history|
    ensures var kept := Recent(history, n, cutoff);
      DepthSum(kept, |kept|, c) == DepthSum(history, n, if c < cutoff then cutoff else c)
  {
    if n > 0 {
      SumOfRecent(history, n - 1, cutoff, c);
      var kept := Recent(history, n - 1, cutoff);
      if history[n - 1].timestamp > cutoff {
        SumAppend(kept, history[n - 1], c);
      } else {
        assert kept + [] == kept;
      }
    }
  }

  // ---------- The records account for the moves ----------

  /** From time t on the records give the blocks dropped in any 24 hours, and they and the
      moves keep the limits. */
  ghost predicate Accounts(p: ChainParams, history: seq<ReorgRecord>, log: seq<Move>, t: int) {
    && (forall i :: 0 <= i < |log| ==> log[i].at <= t)
    && (forall u :: t <= u ==> DroppedInDay(log, u) == DepthSum(history, |history|, u - DAY))
    && (p.maxReorgDepth > 0 && SumsFit(p) ==>
          && Limited(p, log)
          && forall c :: DepthSum(history, |history|, c) <= 3 * p.maxReorgDepth % TWO32)
  }

  lemma NoMoves(p: ChainParams, t: int)
    ensures Accounts(p, [], [], t)
  {
  }

  lemma AccountsLimit(p: ChainParams, history: seq<ReorgRecord>, log: seq<Move>, t: int)
    requires Accounts(p, history, log, t) && p.maxReorgDepth > 0 && SumsFit(p)
    ensures forall i :: 0 <= i < |log| ==> Dropped(log[i].before, log[i].after) <= p.maxReorgDepth
    ensures forall u :: DroppedInDay(log, u) <= 3 * p.maxReorgDepth
  {
    hide Dropped;
    hide DroppedInDay;
  }

  lemma AccountsLater(p: ChainParams, history: seq<ReorgRecord>, log: seq<Move>, t: int, t': int)
    requires Accounts(p, history, log, t) && t <= t'
    ensures Accounts(p, history, log, t')
  {
  }

  lemma NoLead(r: Rules, c: seq<Block>)
    ensures Leads(c, [], c) && AllRise(r, [])
  {
  }

  lemma AllRiseIs(r: Rules, log: seq<Move>)
    requires AllRise(r, log)
    ensures forall i :: 0 <= i < |log| ==>
      || log[i].before == log[i].after
      || (&& ValidChain(r, log[i].after) && ChainWork(r, log[i].before) <= ChainWork(r, log[i].after)
          && (Dropped(log[i].before, log[i].after) > 0 ==>
                ChainWork(r, log[i].before) < ChainWork(r, log[i].after)))
  {
    hide ValidChain;
    hide ChainWork;
    hide Dropped;
    forall i | 0 <= i < |log| ensures Rises(r, log[i]) {
    }
  }

  /** What one move does to the records: a switch is allowed by the limits and recorded;
      otherwise no block is dropped, and at most old records are. */
  ghost predicate Recorded(p: ChainParams, history: seq<ReorgRecord>, c: seq<Block>, now: int,
                           history': seq<ReorgRecord>, c': seq<Block>) {
    var d := Dropped(c, c');
    || (d == 0 && (history' == history || history' == Recent(history, |history|, now - DAY)))
    || (DepthOk(p, history, d, now)
        && exists h :: history' == KeptHistory(p, history, d, now) + [ReorgRecord(h, d, now)])
  }

  lemma {:induction false} DayAppend(log: seq<Move>, m: Move, t: int)
    ensures DroppedInDay(log + [m], t)
            == DroppedInDay(log, t) + if t - 86_400 < m.at <= t then Dropped(m.before, m.after) else 0
  {
    assert (log + [m])[..|log|] == log;
  }

  /** The limits allow a switch exactly within the true sums, where those fit. */
  lemma AllowedDepth(p: ChainParams, history: seq<ReorgRecord>, d: nat, now: int)
    requires p.maxReorgDepth > 0 && SumsFit(p)
    requires DepthSum(history, |history|, now - DAY) <= 3 * p.maxReorgDepth % TWO32
    ensures DepthOk(p, history, d, now) <==>
      d <= p.maxReorgDepth && DepthSum(history, |history|, now - DAY) + d <= 3 * p.maxReorgDepth % TWO32
  {
    SumInBits(history, |history|, now - DAY);
    SmallMod(DepthSum(history, |history|, now - DAY));
    SmallMod(DepthSum(history, |history|, now - DAY) + if d <= p.maxReorgDepth then d else 0);
  }

  lemma SmallMod(a: nat)
    ensures a < TWO32 ==> a % TWO32 == a
  {
  }

  lemma ModSum(a: nat, d: nat)
    ensures (a % TWO32 + d) % TWO32 == (a + d) % TWO32
  {
    assert a + d == TWO32 * (a / TWO32) + (a % TWO32 + d);
  }

  /** The records after a switch stay within the limit. */
  lemma {:induction false} SwitchKeepsLimit(p: ChainParams, history: seq<ReorgRecord>, d: nat, now: int,
                                            rec: ReorgRecord, c: int)
    requires p.maxReorgDepth > 0 && SumsFit(p) && DepthOk(p, history, d, now) && rec.depth == d
    requires DepthSum(history, |history|, now - DAY) <= 3 * p.maxReorgDepth % TWO32
    ensures var history' := KeptHistory(p, history, d, now) + [rec];
      DepthSum(history', |history'|, c) <= 3 * p.maxReorgDepth % TWO32
  {
    AllowedDepth(p, history, d, now);
    var kept := Recent(history, |history|, now - DAY);
    SumAppend(kept, rec, c);
    SumOfRecent(history, |history|, now - DAY, c);
    if c > now - DAY {
      SumAntitone(history, |history|, now - DAY, c);
    }
  }

  /** The sums after the records were looked through at time `now`. */
  lemma {:induction false} KeptSums(p: ChainParams, history: seq<ReorgRecord>, d: nat, now: int, c: int)
    requires now - DAY <= c
    ensures var kept := KeptHistory(p, history, d, now); DepthSum(kept, |kept|, c) == DepthSum(history, |history|, c)
    ensures var kept := Recent(history, |history|, now - DAY);
      DepthSum(kept, |kept|, c) == DepthSum(history, |history|, c)
  {
    SumOfRecent(history, |history|, now - DAY, c);
  }

  lemma {:induction false} StepSums(p: ChainParams, history: seq<ReorgRecord>, log: seq<Move>, t: int, m: Move,
                                    history': seq<ReorgRecord>, u: int)
    requires Accounts(p, history, log, t) && t <= m.at <= u
    requires Recorded(p, history, m.before, m.at, history', m.after)
    ensures DroppedInDay(log + [m], u) == DepthSum(history', |history'|, u - DAY)
  {
    hide KeptHistory;
    hide DepthOk;
    hide DroppedInDay;
    hide Dropped;
    hide Limited;
    var d := Dropped(m.before, m.after);
    DayAppend(log, m, u);
    KeptSums(p, history, d, m.at, u - DAY);
    assert DroppedInDay(log, u) == DepthSum(history, |history|, u - DAY);
    if h :| history' == KeptHistory(p, history, d, m.at) + [ReorgRecord(h, d, m.at)] {
      SumAppend(KeptHistory(p, history, d, m.at), ReorgRecord(h, d, m.at), u - DAY);
    }
  }

  /** The records after a move keep the limit. */
  lemma {:induction false} StepLimit(p: ChainParams, history: seq<ReorgRecord>, log: seq<Move>, t: int, m: Move,
                                     history': seq<ReorgRecord>, c: int)
    requires Accounts(p, history, log, t) && p.maxReorgDepth > 0 && SumsFit(p)
    requires Recorded(p, history, m.before, m.at, history', m.after)
    ensures DepthSum(history', |history'|, c) <= 3 * p.maxReorgDepth % TWO32
    ensures Dropped(m.before, m.after) <= p.maxReorgDepth
  {
    hide Limited;
    hide DroppedInDay;
    hide Dropped;
    var d := Dropped(m.before, m.after);
    var kept := KeptHistory(p, history, d, m.at);
    if DepthOk(p, history, d, m.at) && exists h :: history' == kept + [ReorgRecord(h, d, m.at)] {
      var h :| history' == kept + [ReorgRecord(h, d, m.at)];
      SwitchKeepsLimit(p, history, d, m.at, ReorgRecord(h, d, m.at), c);
    } else {
      SumOfRecent(history, |history|, m.at - DAY, c);
    }
  }

  /** A move that is recorded stays accounted for, and keeps the limits. */
  lemma {:induction false} MoveAccounted(p: ChainParams, history: seq<ReorgRecord>, log: seq<Move>, t: int, m: Move,
                                         history': seq<ReorgRecord>)
    requires Accounts(p, history, log, t) && t <= m.at
    requires Recorded(p, history, m.before, m.at, history', m.after)
    ensures Accounts(p, history', log + [m], m.at)
  {
    hide Recorded;
    hide Dropped;
    hide DroppedInDay;
    forall u | m.at <= u ensures DroppedInDay(log + [m], u) == DepthSum(history', |history'|, u - DAY) {
      StepSums(p, history, log, t, m, history', u);
    }
    if p.maxReorgDepth > 0 && SumsFit(p) {
      forall c ensures DepthSum(history', |history'|, c) <= 3 * p.maxReorgDepth % TWO32 {
        StepLimit(p, history, log, t, m, history', c);
      }
      StepLimit(p, history, log, t, m, history', 0);
      forall u ensures DroppedInDay(log + [m], u) <= 3 * p.maxReorgDepth {
        DayAppend(log, m, u);
      }
    }
  }

  // ---------- The moves of the node ----------

  lemma {:induction false} ExtensionDrops(c: seq<Block>, more: seq<Block>)
    ensures Dropped(c, c + more) == 0
  {
    assert c == c + [];
    DroppedAfter(c, [], more);
  }

  /** Settling a block is a recorded move. */
  lemma {:induction false} SettleRecorded(r: Rules, seen: set<Block>, s0: Snapshot, block: Block, node: Node, now: int,
                                          faults: Faults, why: Why, outcome: Outcome, s: Snapshot)
    requires Verdict(r, seen, s0, block, node, now, faults, why, outcome)
    requires Exact(r, s0, block, node, now, faults, why, outcome, s)
    ensures Recorded(r.params, s0.history, s0.chain, now, s.history, s.chain)
  {
    hide BlockOk;
    hide ValidChain;
    hide StoredWalk;
    hide TreeOk;
    hide BranchOk;
    hide HeightsMoved;
    hide SameRecords;
    hide CommitWrites;
    hide DepthOk;
    hide Dropped;
    hide UndoFor;
    ExtensionDrops(s0.chain, []);
    assert s0.chain + [] == s0.chain;
    ExtensionDrops(s0.chain, [block]);
  }

  /** A move leads to a valid chain with at least as much work, and more if it drops a block. */
  ghost predicate Rises(r: Rules, m: Move) {
    || m.before == m.after
    || (&& ValidChain(r, m.after) && ChainWork(r, m.before) <= ChainWork(r, m.after)
        && (Dropped(m.before, m.after) > 0 ==> ChainWork(r, m.before) < ChainWork(r, m.after)))
  }

  ghost predicate AllRise(r: Rules, log: seq<Move>) {
    forall i :: 0 <= i < |log| ==> Rises(r, log[i])
  }

  lemma RiseOn(r: Rules, xs: seq<Move>, ys: seq<Move>)
    requires AllRise(r, xs) && AllRise(r, ys)
    ensures AllRise(r, xs + ys)
  {
    hide Rises;
  }

  /** Settling a block is a move that rises. */
  lemma {:induction false} SettleRises(r: Rules, seen: set<Block>, s0: Snapshot, block: Block, node: Node, now: int,
                                       faults: Faults, why: Why, outcome: Outcome, s: Snapshot)
    requires Verdict(r, seen, s0, block, node, now, faults, why, outcome)
    requires Exact(r, s0, block, node, now, faults, why, outcome, s) && Weighed(r, s0) && Weighed(r, s)
    ensures Rises(r, Move(s0.chain, s.chain, now))
  {
    hide BlockOk;
    hide ValidChain;
    hide StoredWalk;
    hide TreeOk;
    hide BranchOk;
    hide HeightsMoved;
    hide SameRecords;
    hide CommitWrites;
    hide DepthOk;
    hide Dropped;
    hide UndoFor;
    ExtensionDrops(s0.chain, [block]);
    assert (s0.chain + [block])[..|s0.chain|] == s0.chain;
  }

  lemma AttemptRises(r: Rules, seen: set<Block>, a: Attempt, now: U32, faults: Faults)
    requires Attempted(r, seen, a, now, faults)
    ensures Rises(r, Move(a.before.chain, a.after.chain, now))
  {
    hide Weighed;
    hide Verdict;
    hide Exact;
    hide Checks;
    hide TreeOk;
    hide StoredWalk;
    hide WalksLike;
    var prev := a.block.header.prevBlock;
    if prev in a.before.m.heightByHash && Checks(r, a.before, a.block, now, a.why.anc) {
      SettleRises(r, seen, a.before, a.block, ChildNode(r, a.before.known, a.block.header), now,
                  WaitingFaults(prev == a.before.m.tipHash, faults), a.why, a.outcome, a.after);
    }
  }

  lemma {:induction false} TriesRise(r: Rules, seen: set<Block>, tried: seq<Attempt>, now: U32, faults: Hash -> Faults,
                                     first: Snapshot, last: Snapshot)
    requires Tries(r, seen, tried, now, faults, first, last)
    ensures AllRise(r, MovesOf(tried, now))
    decreases |tried|
  {
    hide Attempted;
    hide Rises;
    if |tried| > 0 {
      var n := |tried| - 1;
      TriesRise(r, seen, tried[..n], now, faults, first, tried[n].before);
      AttemptRises(r, seen, tried[n], now, faults(r.blockHash(tried[n].block.header)));
      assert MovesOf(tried, now) == MovesOf(tried[..n], now) + [Move(tried[n].before.chain, tried[n].after.chain, now)];
    }
  }

  /** The moves of a row of tries. */
  ghost function MovesOf(tried: seq<Attempt>, now: int): (log: seq<Move>)
    ensures |log| == |tried|
  {
    seq(|tried|, i requires 0 <= i < |tried| => Move(tried[i].before.chain, tried[i].after.chain, now))
  }

  lemma AttemptRecorded(r: Rules, seen: set<Block>, a: Attempt, now: U32, faults: Faults)
    requires Attempted(r, seen, a, now, faults)
    ensures Recorded(r.params, a.before.history, a.before.chain, now, a.after.history, a.after.chain)
  {
    hide Recorded;
    hide Verdict;
    hide Exact;
    hide Checks;
    hide TreeOk;
    hide StoredWalk;
    hide WalksLike;
    NothingRecorded(r.params, a.before.history, a.before.chain, now);
    var prev := a.block.header.prevBlock;
    if prev in a.before.m.heightByHash && Checks(r, a.before, a.block, now, a.why.anc) {
      SettleRecorded(r, seen, a.before, a.block, ChildNode(r, a.before.known, a.block.header), now,
                     WaitingFaults(prev == a.before.m.tipHash, faults), a.why, a.outcome, a.after);
    }
  }

  lemma NothingRecorded(p: ChainParams, history: seq<ReorgRecord>, c: seq<Block>, now: int)
    ensures Recorded(p, history, c, now, history, c)
  {
    ExtensionDrops(c, []);
    assert c + [] == c;
  }

  lemma {:induction false} TriesAccounted(r: Rules, seen: set<Block>, tried: seq<Attempt>, now: U32,
                                          faults: Hash -> Faults, first: Snapshot, last: Snapshot, log: seq<Move>,
                                          t: int)
    requires Tries(r, seen, tried, now, faults, first, last) && Accounts(r.params, first.history, log, t) && t <= now
    ensures Accounts(r.params, last.history, log + MovesOf(tried, now), now)
    decreases |tried|
  {
    hide Attempted;
    hide Recorded;
    hide Dropped;
    hide DroppedInDay;
    hide Limited;
    if |tried| == 0 {
      assert log + MovesOf(tried, now) == log;
    } else {
      var n := |tried| - 1;
      var a := tried[n];
      TriesAccounted(r, seen, tried[..n], now, faults, first, a.before, log, t);
      AttemptRecorded(r, seen, a, now, faults(r.blockHash(a.block.header)));
      var m := Move(a.before.chain, a.after.chain, now);
      MoveAccounted(r.params, a.before.history, log + MovesOf(tried[..n], now), now, m, a.after.history);
      assert MovesOf(tried, now) == MovesOf(tried[..n], now) + [m];
      assert log + MovesOf(tried, now) == (log + MovesOf(tried[..n], now)) + [m];
    }
  }

  lemma {:induction false} TriesLead(r: Rules, seen: set<Block>, tried: seq<Attempt>, now: U32, faults: Hash -> Faults,
                                     first: Snapshot, last: Snapshot)
    requires Tries(r, seen, tried, now, faults, first, last)
    ensures Leads(first.chain, MovesOf(tried, now), last.chain)
    decreases |tried|
  {
    hide Attempted;
    if |tried| > 0 {
      var n := |tried| - 1;
      TriesLead(r, seen, tried[..n], now, faults, first, tried[n].before);
      assert MovesOf(tried, now)[..n] == MovesOf(tried[..n], now);
    }
  }

  lemma {:induction false} LeadsOn(first: seq<Block>, xs: seq<Move>, mid: seq<Block>, ys: seq<Move>, last: seq<Block>)
    requires Leads(first, xs, mid) && Leads(mid, ys, last)
    ensures Leads(first, xs + ys, last)
    decreases |ys|
  {
    if |ys| == 0 {
      assert xs + ys == xs;
    } else {
      var n := |ys| - 1;
      LeadsOn(first, xs, mid, ys[..n], ys[n].before);
      assert (xs + ys)[..|xs| + n] == xs + ys[..n];
    }
  }

  /** The moves made for one block: the one that settled it, then those of the tries. */
  ghost function MovesFor(s0: Snapshot, after: Aftermath, now: int): seq<Move> {
    [Move(s0.chain, after.settled.chain, now)] + MovesOf(after.tried, now)
  }

  lemma {:induction false} BlockAccounted(r: Rules, seen: set<Block>, s0: Snapshot, block: Block, node: Node, now: U32,
                                          faults: Faults, why: Why, outcome: Outcome, orphanFaults: Hash -> Faults,
                                          after: Aftermath, s: Snapshot, log: seq<Move>, t: int)
    requires Verdict(r, seen, s0, block, node, now, faults, why, outcome)
    requires Exact(r, s0, block, node, now, faults, why, outcome, after.settled)
    requires Followed(r, seen, outcome, now, orphanFaults, after, s)
    requires Accounts(r.params, s0.history, log, t) && t <= now
    ensures Accounts(r.params, s.history, log + MovesFor(s0, after, now), now)
  {
    hide Verdict;
    hide Exact;
    hide Tries;
    hide Accounts;
    hide Recorded;
    var m := Move(s0.chain, after.settled.chain, now);
    SettleRecorded(r, seen, s0, block, node, now, faults, why, outcome, after.settled);
    MoveAccounted(r.params, s0.history, log, t, m, after.settled.history);
    TriesAccounted(r, seen, after.tried, now, orphanFaults, after.settled, after.done, log + [m], now);
    assert (log + [m]) + MovesOf(after.tried, now) == log + MovesFor(s0, after, now);
  }

  lemma BlockLeads(r: Rules, seen: set<Block>, s0: Snapshot, now: U32, outcome: Outcome, orphanFaults: Hash -> Faults,
                   after: Aftermath, s: Snapshot)
    requires Followed(r, seen, outcome, now, orphanFaults, after, s)
    ensures Leads(s0.chain, MovesFor(s0, after, now), s.chain)
  {
    hide Tries;
    var m := Move(s0.chain, after.settled.chain, now);
    assert [m][..0] == [];
    TriesLead(r, seen, after.tried, now, orphanFaults, after.settled, after.done);
    LeadsOn(s0.chain, [m], after.settled.chain, MovesOf(after.tried, now), after.done.chain);
  }

  lemma {:induction false} BlockRises(r: Rules, seen: set<Block>, s0: Snapshot, block: Block, node: Node, now: U32,
                                      faults: Faults, why: Why, outcome: Outcome, orphanFaults: Hash -> Faults,
                                      after: Aftermath, s: Snapshot)
    requires Verdict(r, seen, s0, block, node, now, faults, why, outcome) && Weighed(r, s0) && Weighed(r, after.settled)
    requires Exact(r, s0, block, node, now, faults, why, outcome, after.settled)
    requires Followed(r, seen, outcome, now, orphanFaults, after, s)
    ensures AllRise(r, MovesFor(s0, after, now))
  {
    hide Verdict;
    hide Exact;
    hide Tries;
    hide Weighed;
    hide Rises;
    SettleRises(r, seen, s0, block, node, now, faults, why, outcome, after.settled);
    TriesRise(r, seen, after.tried, now, orphanFaults, after.settled, after.done);
    RiseOn(r, [Move(s0.chain, after.settled.chain, now)], MovesOf(after.tried, now));
  }

  // ---------- What is kept aside ----------

  /** How a block with more work than the tip ends, on a branch stored down to the main
      chain. The node keeps it aside exactly if the switch would drop more blocks than the
      limit, or more than three times the limit together with the moves of the last 24
      hours; otherwise it switches exactly if the chain the branch leads to is valid. */
  ghost predicate SwitchDecided(r: Rules, s: Snapshot, block: Block, node: Node, now: int, why: Why, outcome: Outcome,
                                log: seq<Move>) {
    var h, limit := r.blockHash(block.header), r.params.maxReorgDepth;
    var index := s.store.index[h := IndexRec(block, node.height, node.work, None)];
    && why.fork < |s.chain| && |why.branch| > 0 && why.branch[|why.branch| - 1] == h
    && (forall k :: 0 <= k < |why.branch| ==> why.branch[k] in index)
    && var c := Switched(s.chain, why.fork, BranchBlocks(index, why.branch));
    && var tooDeep := limit > 0 && (Dropped(s.chain, c) > limit
                                    || DroppedInDay(log, now) + Dropped(s.chain, c) > 3 * limit);
    && (outcome.SideChain? <==> tooDeep)
    && (outcome.Accepted? <==> !tooDeep && ValidChain(r, c))
  }

  lemma {:induction false} KeptAside(r: Rules, seen: set<Block>, s: Snapshot, block: Block, node: Node, now: int,
                                     faults: Faults, why: Why, outcome: Outcome, log: seq<Move>, t: int)
    requires Verdict(r, seen, s, block, node, now, faults, why, outcome)
    requires Accounts(r.params, s.history, log, t) && t <= now && 4 * r.params.maxReorgDepth < TWO32
    requires block.header.prevBlock != s.m.tipHash && node.work > s.m.tipWork && !faults.block && !faults.index
    requires TreeOk(r, seen, s.known) && block.header.prevBlock in s.known
    requires StoredWalk(r, seen, s.known, s.store.index, s.m, block.header.prevBlock)
    ensures SwitchDecided(r, s, block, node, now, why, outcome, log)
  {
    hide Dropped;
    hide DroppedInDay;
    hide Limited;
    hide ValidChain;
    hide StoredWalk;
    hide TreeOk;
    hide BlockOk;
    hide OnMain;
    hide BranchStep;
    hide RecentDepth;
    if r.params.maxReorgDepth > 0 {
      AllowedDepth(r.params, s.history, s.m.tipHeight - why.fork, now);
    }
  }

  /** How every other block ends: on the tip it is accepted exactly if it makes the chain a
      longer valid one and no write fails; off the tip without more work it is kept aside. */
  lemma OtherwiseDecided(r: Rules, seen: set<Block>, s: Snapshot, block: Block, node: Node, now: int, faults: Faults,
                         why: Why, outcome: Outcome)
    requires Verdict(r, seen, s, block, node, now, faults, why, outcome) && Weighed(r, s)
    ensures block.header.prevBlock == s.m.tipHash ==>
      (if ValidChain(r, s.chain + [block]) && faults == NO_FAULTS then outcome.Accepted? else outcome.Refused?)
    ensures block.header.prevBlock != s.m.tipHash && node.work <= s.m.tipWork ==>
      (if faults.block || faults.index then outcome.Refused? else outcome.SideChain?)
  {
    hide BlockOk;
    hide ValidChain;
    hide StoredWalk;
    hide TreeOk;
    hide Judged;
    if block.header.prevBlock == s.m.tipHash {
      if BlockOk(r, s.chain, block) {
        ExtendValid(r, s.chain, block);
      }
      if ValidChain(r, s.chain + [block]) {
        ValidLast(r, s.chain, block);
      }
    }
  }

  /** The records are in memory only. After three switches of full depth the same day no other
      is allowed, and after a start, which has no records, all within the depth limit are. */
  lemma StartForgets(p: ChainParams, heights: (nat, nat, nat), d: nat, now: int)
    requires 0 < d <= p.maxReorgDepth && 4 * p.maxReorgDepth < TWO32
    ensures var day := [ReorgRecord(heights.0, p.maxReorgDepth, now), ReorgRecord(heights.1, p.maxReorgDepth, now),
                        ReorgRecord(heights.2, p.maxReorgDepth, now)];
      !DepthOk(p, day, d, now)
    ensures DepthOk(p, [], d, now)
  {
    hide DepthOk;
    var day := [ReorgRecord(heights.0, p.maxReorgDepth, now), ReorgRecord(heights.1, p.maxReorgDepth, now),
                ReorgRecord(heights.2, p.maxReorgDepth, now)];
    assert DepthSum(day, 1, now - DAY) == DepthSum(day, 0, now - DAY) + p.maxReorgDepth;
    assert DepthSum(day, 2, now - DAY) == 2 * p.maxReorgDepth;
    assert DepthSum(day, 3, now - DAY) == 3 * p.maxReorgDepth;
    AllowedDepth(p, day, d, now);
    AllowedDepth(p, [], d, now);
  }

  // ---------- Where the 32-bit sums wrap ----------

  /** The records of switches made one right after the other. */
  function AtOnce(depths: seq<nat>): (history: seq<ReorgRecord>)
    ensures |history| == |depths|
  {
    seq(|depths|, i requires 0 <= i < |depths| => ReorgRecord(0, depths[i], 0))
  }

  /** The limits allow switches of these depths, one right after the other. */
  ghost predicate Admitted(p: ChainParams, depths: seq<nat>) {
    forall i :: 0 <= i < |depths| ==> DepthOk(p, AtOnce(depths[..i]), depths[i], 0)
  }

  function Sum(depths: seq<nat>): nat {
    if |depths| == 0 then 0 else Sum(depths[..|depths| - 1]) + depths[|depths| - 1]
  }

  lemma {:induction false} SumAtOnce(depths: seq<nat>)
    ensures DepthSum(AtOnce(depths), |depths|, -DAY) == Sum(depths)
  {
    if |depths| > 0 {
      var n := |depths| - 1;
      SumAtOnce(depths[..n]);
      assert AtOnce(depths) == AtOnce(depths[..n]) + [ReorgRecord(0, depths[n], 0)];
      SumAppend(AtOnce(depths[..n]), ReorgRecord(0, depths[n], 0), -DAY);
    }
  }

  lemma AdmitsNext(p: ChainParams, depths: seq<nat>, d: nat)
    requires p.maxReorgDepth > 0 && d <= p.maxReorgDepth
    ensures DepthOk(p, AtOnce(depths), d, 0) <==> (Sum(depths) + d) % TWO32 <= 3 * p.maxReorgDepth % TWO32
  {
    SumAtOnce(depths);
    SumInBits(AtOnce(depths), |depths|, -DAY);
    ModSum(Sum(depths), d);
  }

  lemma {:induction false} AdmittedMore(p: ChainParams, depths: seq<nat>, d: nat)
    requires Admitted(p, depths) && p.maxReorgDepth > 0 && d <= p.maxReorgDepth
    requires (Sum(depths) + d) % TWO32 <= 3 * p.maxReorgDepth % TWO32
    ensures Admitted(p, depths + [d]) && Sum(depths + [d]) == Sum(depths) + d
  {
    hide DepthOk;
    var more := depths + [d];
    AdmitsNext(p, depths, d);
    assert more[..|depths|] == depths;
    forall i | 0 <= i < |more| ensures DepthOk(p, AtOnce(more[..i]), more[i], 0) {
      assert i < |depths| ==> more[..i] == depths[..i];
    }
  }

  lemma NoneAdmitted(p: ChainParams)
    ensures Admitted(p, [])
  {
  }

  /** Where the sums do not fit, switches that the limits allow add up without bound. */
  lemma {:induction false} Unlimited(p: ChainParams, goal: nat) returns (depths: seq<nat>)
    requires p.maxReorgDepth > 0 && !SumsFit(p)
    ensures Admitted(p, depths) && Sum(depths) >= goal && Sum(depths) % TWO32 <= 3 * p.maxReorgDepth % TWO32
  {
    hide Admitted;
    depths := [];
    NoneAdmitted(p);
    if goal > 0 {
      depths := Unlimited(p, goal - 1);
      var limit := 3 * p.maxReorgDepth % TWO32;
      var d := if Sum(depths) % TWO32 < limit then 1 else TWO32 - limit;
      ModSum(Sum(depths), d);
      AdmittedMore(p, depths, d);
      depths := depths + [d];
    }
  }

  lemma {:induction false} SumsWithin(p: ChainParams, depths: seq<nat>)
    requires p.maxReorgDepth > 0 && SumsFit(p) && Admitted(p, depths)
    ensures Sum(depths) <= 3 * p.maxReorgDepth % TWO32
  {
    hide DepthOk;
    if |depths| > 0 {
      var n := |depths| - 1;
      forall i | 0 <= i < n ensures DepthOk(p, AtOnce(depths[..n][..i]), depths[..n][i], 0) {
        assert depths[..n][..i] == depths[..i];
      }
      SumsWithin(p, depths[..n]);
      SumAtOnce(depths[..n]);
      AllowedDepth(p, AtOnce(depths[..n]), depths[n], 0);
    }
  }

  /** The limits bound the depths of a day's switches exactly if the sums fit. */
  lemma {:induction false} LimitsBoundExactly(p: ChainParams)
    requires p.maxReorgDepth > 0
    ensures SumsFit(p) <==> forall depths :: Admitted(p, depths) ==> Sum(depths) <= 3 * p.maxReorgDepth
  {
    hide Admitted;
    if SumsFit(p) {
      forall depths | Admitted(p, depths) ensures Sum(depths) <= 3 * p.maxReorgDepth {
        SumsWithin(p, depths);
      }
    } else {
      var depths := Unlimited(p, 3 * p.maxReorgDepth + 1);
      assert Admitted(p, depths) && Sum(depths) > 3 * p.maxReorgDepth;
    }
  }
}
