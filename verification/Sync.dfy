/** One round of header sync: a node names its best headers with a locator, a peer
    answers from its main chain, and the node checks that the answer connects
    (BlockLocator and FindMainChainHash in internal/chain/chain.go, handleGetHeaders
    and handleHeaders in internal/p2p/manager.go). */
module Sync {
  import opened Types
  import opened Ledger
  import opened ChainState
  import opened Chains
  import opened HeaderIndexes
  import opened Locator
  import Codec

  // ---------- Lines of headers ----------

  /** A line of headers from genesis, each naming the hash of the one before. */
  ghost predicate HeaderLine(r: Rules, hs: seq<BlockHeader>) {
    && |hs| > 0 && hs[0] == r.params.genesis.header
    && forall i :: 0 < i < |hs| ==> Follows(r, hs, i)
  }

  ghost predicate Follows(r: Rules, hs: seq<BlockHeader>, i: nat) {
    0 < i < |hs| && hs[i].prevBlock == r.blockHash(hs[i - 1])
  }

  /** The headers of two lines exhibit no hash collision, and none hashes to what
      genesis names as its parent. */
  ghost predicate NoClash(r: Rules, a: seq<BlockHeader>, b: seq<BlockHeader>) {
    && (forall x, y :: x in a + b && y in a + b && r.blockHash(x) == r.blockHash(y) ==> x == y)
    && (forall x :: x in a + b ==> r.blockHash(x) != r.params.genesis.header.prevBlock)
  }

  /** A header is at the same height on both lines. */
  lemma {:induction false} SameHeight(r: Rules, a: seq<BlockHeader>, b: seq<BlockHeader>, i: nat, j: nat)
    requires HeaderLine(r, a) && HeaderLine(r, b) && NoClash(r, a, b) && i < |a| && j < |b|
    requires r.blockHash(a[i]) == r.blockHash(b[j])
    ensures i == j && a[i] == b[j]
  {
    assert a[i] in a + b && b[j] in a + b;
    if i > 0 {
      assert Follows(r, a, i) && a[i - 1] in a + b;
    }
    if j > 0 {
      assert Follows(r, b, j) && b[j - 1] in a + b;
    }
    if i > 0 && j > 0 {
      SameHeight(r, a, b, i - 1, j - 1);
    }
  }

  /** The lines agree exactly up to height `fork`. */
  ghost predicate ForkAt(r: Rules, a: seq<BlockHeader>, b: seq<BlockHeader>, fork: nat) {
    && fork < |a| && fork < |b|
    && (forall i :: 0 <= i <= fork ==> a[i] == b[i])
    && (forall i, j :: fork < i < |a| && 0 <= j < |b| ==> r.blockHash(a[i]) != r.blockHash(b[j]))
  }

  lemma {:induction false} AgreeBelow(r: Rules, a: seq<BlockHeader>, b: seq<BlockHeader>, i: nat, k: nat)
    requires HeaderLine(r, a) && HeaderLine(r, b) && NoClash(r, a, b) && k <= i < |a| && i < |b| && a[i] == b[i]
    ensures a[k] == b[k]
    decreases i
  {
    if k < i {
      assert Follows(r, a, i) && Follows(r, b, i);
      assert a[i - 1] in a + b && b[i - 1] in a + b;
      AgreeBelow(r, a, b, i - 1, k);
    }
  }

  lemma {:induction false} ForkFrom(r: Rules, a: seq<BlockHeader>, b: seq<BlockHeader>, k: nat) returns (fork: nat)
    requires HeaderLine(r, a) && HeaderLine(r, b) && NoClash(r, a, b) && k < |a| && k < |b|
    requires forall i :: k < i < |a| && i < |b| ==> a[i] != b[i]
    ensures ForkAt(r, a, b, fork)
  {
    if a[k] == b[k] {
      fork := k;
      forall i | 0 <= i <= k ensures a[i] == b[i] {
        AgreeBelow(r, a, b, k, i);
      }
      forall i, j | k < i < |a| && 0 <= j < |b| ensures r.blockHash(a[i]) != r.blockHash(b[j]) {
        if r.blockHash(a[i]) == r.blockHash(b[j]) {
          SameHeight(r, a, b, i, j);
        }
      }
    } else {
      fork := ForkFrom(r, a, b, k - 1);
    }
  }

  /** Two lines part at some height. */
  lemma {:induction false} ForkExists(r: Rules, a: seq<BlockHeader>, b: seq<BlockHeader>) returns (fork: nat)
    requires HeaderLine(r, a) && HeaderLine(r, b) && NoClash(r, a, b)
    ensures ForkAt(r, a, b, fork)
  {
    fork := ForkFrom(r, a, b, if |a| < |b| then |a| - 1 else |b| - 1);
  }

  // ---------- The main chain and the best header chain as lines ----------

  lemma {:induction false} MainLine(r: Rules, seen: set<Block>, known: Tree, index: map<Hash, IndexRec>, m: Memory,
                                    chain: seq<Block>)
    requires TreeOk(r, seen, known) && IndexOk(r, seen, known, index) && MainOk(r, known, index, m, chain)
    ensures HeaderLine(r, HeadersOf(chain)) && |chain| == m.tipHeight + 1
    ensures forall i :: 0 <= i < |chain| ==>
      && i in m.hashByHeight && m.hashByHeight[i] == r.blockHash(chain[i].header)
      && m.hashByHeight[i] in index && index[m.hashByHeight[i]].block == chain[i]
      && m.hashByHeight[i] in m.heightByHash && m.heightByHash[m.hashByHeight[i]] == i
  {
    hide UndoFor;
    forall i | 0 <= i < |chain|
      ensures && i in m.hashByHeight && m.hashByHeight[i] == r.blockHash(chain[i].header)
        && m.hashByHeight[i] in index && index[m.hashByHeight[i]].block == chain[i]
        && m.hashByHeight[i] in m.heightByHash && m.heightByHash[m.hashByHeight[i]] == i
    {
      var h := m.hashByHeight[i];
      assert MainEntry(r, known, index, m.heightByHash, h, i, chain);
      assert NodeOk(r, seen, known, h) && RecOk(r, seen, known, h, index[h]);
    }
    forall i | 0 < i < |chain| ensures Follows(r, HeadersOf(chain), i) {
      assert LinkedAt(chain, m.hashByHeight, i);
    }
    assert NodeOk(r, seen, known, m.hashByHeight[0]);
  }

  ghost function HeadersOfLine(line: seq<HeaderNode>): seq<BlockHeader> {
    seq(|line|, i requires 0 <= i < |line| => line[i].header)
  }

  lemma {:induction false} BestLine(r: Rules, n: HeaderNode)
    requires Linked(r, n)
    ensures HeaderLine(r, HeadersOfLine(Line(r, n)))
    ensures forall i :: 0 <= i <= n.height ==> Line(r, n)[i].hash == r.blockHash(Line(r, n)[i].header)
  {
    var hs := HeadersOfLine(Line(r, n));
    forall i | 0 < i < |hs| ensures Follows(r, hs, i) {
      LineStep(r, n, i);
      LineStep(r, n, i - 1);
    }
    forall i | 0 <= i <= n.height ensures Line(r, n)[i].hash == r.blockHash(Line(r, n)[i].header) {
      LineStep(r, n, i);
    }
    LineStep(r, n, 0);
  }

  /** What the memory and the store of a consistent node say about its main chain. */
  lemma PeerLine(peer: Chain)
    requires peer.Valid()
    ensures HeaderLine(peer.r, HeadersOf(peer.chain)) && |peer.chain| == peer.tipHeight + 1
    ensures forall i :: i in peer.hashByHeight ==> i < |peer.chain|
    ensures forall i :: 0 <= i < |peer.chain| ==>
      && i in peer.hashByHeight && peer.hashByHeight[i] == peer.r.blockHash(peer.chain[i].header)
      && peer.hashByHeight[i] in peer.store.index && peer.store.index[peer.hashByHeight[i]].block == peer.chain[i]
      && peer.hashByHeight[i] in peer.heightByHash && peer.heightByHash[peer.hashByHeight[i]] == i
  {
    hide ValidChain;
    hide Replay;
    hide World;
    hide HeaderLine;
    MainLine(peer.r, peer.seen, peer.known, peer.store.index, peer.Mem(), peer.chain);
  }

  // ---------- The messages ----------

  method BlockLocator(c: Chain) returns (locator: seq<Hash>)
    requires c.Valid() && c.tipHeight < TWO32
    ensures |locator| == |LocatorHeights(c.tipHeight)|
    ensures forall n :: 0 <= n < |locator| ==>
      LocatorHeights(c.tipHeight)[n] in c.hashByHeight && locator[n] == c.hashByHeight[LocatorHeights(c.tipHeight)[n]]
  {
    hide StateOk;
    hide Drop;
    c.TipFacts();
    ghost var tip := c.tipHeight;
    ghost var heights: seq<nat> := [];
    locator := [];
    var step := 1;
    var height := c.tipHeight;
    LocatorStart(tip);
    while true
      invariant 0 <= height <= tip && height == HeightAt(tip, |locator|) && step == Step(|locator|)
      invariant |locator| == |heights|
      invariant forall n :: 0 <= n < |heights| ==>
        heights[n] in c.hashByHeight && locator[n] == c.hashByHeight[heights[n]]
      invariant forall n :: 0 <= n < |heights| ==> heights[n] == HeightAt(tip, n) && heights[n] > 0
      decreases height
    {
      if height !in c.hashByHeight {
        assert false;
      }
      locator, heights := locator + [c.hashByHeight[height]], heights + [height];
      if height == 0 {
        break;
      }
      NextEntry(tip, |locator| - 1);
      height := if height < step then 0 else height - step;
      if |locator| > 10 {
        step := step * 2 % TWO32;
      }
    }
    LoopIsLocator(tip, 0, heights);
  }

  method FindMainChainHash(c: Chain, hash: Hash) returns (height: Option<nat>)
    requires c.Valid()
    ensures height.Some? <==> exists i :: 0 <= i < |c.chain| && c.r.blockHash(c.chain[i].header) == hash
    ensures height.Some? ==> height.value < |c.chain| && c.r.blockHash(c.chain[height.value].header) == hash
  {
    hide StateOk;
    hide HeaderLine;
    PeerLine(c);
    if hash !in c.heightByHash {
      return None;
    }
    var h := c.heightByHash[hash];
    if h !in c.hashByHeight || c.hashByHeight[h] != hash {
      return None;
    }
    height := Some(h);
  }

  /** The position of the first locator hash on the main chain, or |locator|. */
  ghost predicate FirstOnMain(r: Rules, chain: seq<Block>, locator: seq<Hash>, n: nat) {
    && n <= |locator|
    && (forall k, i :: 0 <= k < n && 0 <= i < |chain| ==> r.blockHash(chain[i].header) != locator[k])
    && (n < |locator| ==> exists i :: 0 <= i < |chain| && r.blockHash(chain[i].header) == locator[n])
  }

  /** Where a reply starts: above the first locator hash on the main chain. */
  method StartHeight(c: Chain, locator: seq<Hash>) returns (start: nat, ghost n: nat)
    requires c.Valid()
    ensures FirstOnMain(c.r, c.chain, locator, n) && start < |c.chain|
    ensures n < |locator| ==> c.r.blockHash(c.chain[start].header) == locator[n]
    ensures n == |locator| ==> start == 0
  {
    hide StateOk;
    c.TipFacts();
    start := 0;
    var k := 0;
    while k < |locator|
      invariant 0 <= k <= |locator| && start == 0
      invariant forall j, i :: 0 <= j < k && 0 <= i < |c.chain| ==> c.r.blockHash(c.chain[i].header) != locator[j]
    {
      var height := FindMainChainHash(c, locator[k]);
      if height.Some? {
        start := height.value;
        n := k;
        return;
      }
      k := k + 1;
    }
    n := k;
  }

  /** The headers handleGetHeaders sends: a contiguous run of the main chain above the
      start, up to 2000 of them, up to the tip, or up to the stop hash. */
  method HandleGetHeaders(c: Chain, msg: Codec.GetHeadersMsg)
    returns (headers: seq<BlockHeader>, start: nat, ghost n: nat)
    requires c.Valid()
    ensures msg.version < 2 ==> headers == []
    ensures FirstOnMain(c.r, c.chain, msg.locator, n) && start < |c.chain|
    ensures n < |msg.locator| ==> c.r.blockHash(c.chain[start].header) == msg.locator[n]
    ensures n == |msg.locator| ==> start == 0
    ensures |headers| <= Codec.MAX_HEADERS_PER_MSG && start + |headers| < |c.chain|
    ensures forall i :: 0 <= i < |headers| ==> headers[i] == c.chain[start + 1 + i].header
    ensures forall i :: 0 <= i < |headers| - 1 ==> c.r.blockHash(headers[i]) != msg.hashStop
    ensures msg.version >= 2 ==>
      || |headers| == Codec.MAX_HEADERS_PER_MSG || start + |headers| == |c.chain| - 1
      || (|headers| > 0 && c.r.blockHash(headers[|headers| - 1]) == msg.hashStop)
  {
    hide StateOk;
    hide HeaderLine;
    headers := [];
    start, n := StartHeight(c, msg.locator);
    if msg.version >= 2 {
      headers := RunAbove(c, start, msg.hashStop);
    }
  }

  method RunAbove(c: Chain, start: nat, hashStop: Hash) returns (headers: seq<BlockHeader>)
    requires c.Valid() && start < |c.chain|
    ensures |headers| <= Codec.MAX_HEADERS_PER_MSG && start + |headers| < |c.chain|
    ensures forall i :: 0 <= i < |headers| ==> headers[i] == c.chain[start + 1 + i].header
    ensures forall i :: 0 <= i < |headers| - 1 ==> c.r.blockHash(headers[i]) != hashStop
    ensures || |headers| == Codec.MAX_HEADERS_PER_MSG || start + |headers| == |c.chain| - 1
            || (|headers| > 0 && c.r.blockHash(headers[|headers| - 1]) == hashStop)
  {
    hide StateOk;
    hide HeaderLine;
    PeerLine(c);
    headers := [];
    var h := start + 1;
    while h <= c.tipHeight && |headers| < Codec.MAX_HEADERS_PER_MSG
      invariant h == start + 1 + |headers| && |headers| <= Codec.MAX_HEADERS_PER_MSG && start + |headers| < |c.chain|
      invariant forall i :: 0 <= i < |headers| ==> headers[i] == c.chain[start + 1 + i].header
      invariant forall i :: 0 <= i < |headers| ==> c.r.blockHash(headers[i]) != hashStop
      decreases c.tipHeight + 1 - h
    {
      var header := c.store.index[c.hashByHeight[h]].block.header;
      headers := headers + [header];
      if c.r.blockHash(header) == hashStop {
        break;
      }
      h := h + 1;
    }
  }

  /** handleHeaders goes on to validate a batch only if it connects. */
  method HeadersConnect(idx: HeaderIndex, headers: seq<BlockHeader>) returns (ok: bool)
    ensures ok == (&& 0 < |headers| <= Codec.MAX_HEADERS_PER_MSG && headers[0].prevBlock in idx.byHash
                   && forall i :: 0 < i < |headers| ==> Follows(idx.r, headers, i))
  {
    if |headers| == 0 || |headers| > Codec.MAX_HEADERS_PER_MSG || headers[0].prevBlock !in idx.byHash {
      return false;
    }
    var i := 1;
    while i < |headers|
      invariant 1 <= i <= |headers| && forall j :: 0 < j < i ==> Follows(idx.r, headers, j)
    {
      if headers[i].prevBlock != idx.r.blockHash(headers[i - 1]) {
        assert !Follows(idx.r, headers, i);
        return false;
      }
      i := i + 1;
    }
    ok := true;
  }

  lemma CommonOnMain(r: Rules, a: seq<BlockHeader>, chain: seq<Block>, fork: nat, h: nat)
    requires ForkAt(r, a, HeadersOf(chain), fork) && h < |a|
    ensures h <= fork ==> h < |chain| && chain[h].header == a[h]
  {
  }

  /** Where the reply to a locator of line a starts on line b: on the common part, at
      most twice the fork depth below the tip of a. */
  lemma {:induction false} ReplyStart(r: Rules, a: seq<BlockHeader>, chain: seq<Block>, locator: seq<Hash>, n: nat,
                                      start: nat, fork: nat)
    requires HeaderLine(r, a) && |a| <= TWO32 && ForkAt(r, a, HeadersOf(chain), fork)
    requires HeaderLine(r, HeadersOf(chain)) && NoClash(r, a, HeadersOf(chain))
    requires var hs := LocatorHeights(|a| - 1);
      |locator| == |hs| && forall k :: 0 <= k < |hs| ==> hs[k] < |a| && locator[k] == r.blockHash(a[hs[k]])
    requires FirstOnMain(r, chain, locator, n) && start < |chain|
    requires n < |locator| ==> r.blockHash(chain[start].header) == locator[n]
    ensures n < |locator| && start == LocatorHeights(|a| - 1)[n] <= fork && |a| - 1 - start <= 2 * (|a| - 1 - fork)
    ensures start < |a| && a[start] == chain[start].header
  {
    hide LocatorHeights;
    var b, hs := HeadersOf(chain), LocatorHeights(|a| - 1);
    LocatorShape(|a| - 1);
    assert locator[|hs| - 1] == r.blockHash(a[0]) == r.blockHash(chain[0].header);
    assert n < |locator|;
    assert a[hs[n]] in a + b;
    SameHeight(r, a, b, hs[n], start);
    assert b[start] == chain[start].header;
    forall j | 0 <= j < n ensures hs[j] > fork {
      assert locator[j] == r.blockHash(a[hs[j]]);
      CommonOnMain(r, a, chain, fork, hs[j]);
    }
    FirstCommonEntry(|a| - 1, fork, n);
  }

  /** The request, the reply and the test whether to take it up. */
  method Exchange(idx: HeaderIndex, peer: Chain, version: U32)
    returns (headers: seq<BlockHeader>, taken: bool, start: nat, ghost n: nat, ghost locator: seq<Hash>)
    requires idx.Valid() && peer.Valid() && idx.bestHeader.height < TWO32
    ensures |locator| == |LocatorHeights(idx.bestHeader.height)|
    ensures forall k :: 0 <= k < |locator| ==>
      && LocatorHeights(idx.bestHeader.height)[k] <= idx.bestHeader.height
      && locator[k] == Line(idx.r, idx.bestHeader)[LocatorHeights(idx.bestHeader.height)[k]].hash
    ensures FirstOnMain(peer.r, peer.chain, locator, n) && start < |peer.chain|
    ensures n < |locator| ==> peer.r.blockHash(peer.chain[start].header) == locator[n]
    ensures |headers| <= Codec.MAX_HEADERS_PER_MSG && start + |headers| < |peer.chain|
    ensures forall i :: 0 <= i < |headers| ==> headers[i] == peer.chain[start + 1 + i].header
    ensures version >= 2 && start < |peer.chain| - 1 ==> |headers| > 0
    ensures taken == (&& |headers| > 0 && headers[0].prevBlock in idx.byHash
                      && forall i :: 0 < i < |headers| ==> Follows(idx.r, headers, i))
  {
    hide StateOk;
    hide Linked;
    hide Line;
    hide FirstOnMain;
    hide LocatorHeights;
    hide Follows;
    hide RejectedOk;
    var request := idx.HeaderLocator();
    locator := request;
    headers, start, n := HandleGetHeaders(peer, Codec.GetHeadersMsg(version, request, ZERO_HASH));
    taken := HeadersConnect(idx, headers);
  }

  /** One round of header sync between a node and a peer on the same network. A reply
      that is not empty starts at most twice the fork depth below the node's best
      header, on its best chain, and the node takes it up exactly when that header is
      still indexed. */
  method SyncRound(idx: HeaderIndex, peer: Chain, version: U32)
    returns (headers: seq<BlockHeader>, taken: bool, start: nat, ghost fork: nat)
    requires idx.Valid() && peer.Valid() && idx.r == peer.r && idx.bestHeader.height < TWO32
    requires NoClash(idx.r, HeadersOfLine(Line(idx.r, idx.bestHeader)), HeadersOf(peer.chain))
    ensures ForkAt(idx.r, HeadersOfLine(Line(idx.r, idx.bestHeader)), HeadersOf(peer.chain), fork)
    ensures start <= fork && idx.bestHeader.height - start <= 2 * (idx.bestHeader.height - fork)
    ensures start + |headers| < |peer.chain|
    ensures forall i :: 0 <= i < |headers| ==> headers[i] == peer.chain[start + 1 + i].header
    ensures |headers| > 0 ==> headers[0].prevBlock == Line(idx.r, idx.bestHeader)[start].hash
    ensures taken == (|headers| > 0 && Line(idx.r, idx.bestHeader)[start].hash in idx.byHash)
    ensures version >= 2 && start < |peer.chain| - 1 ==> |headers| > 0
    ensures LocatorIndexed(idx) && |headers| > 0 ==> taken
    ensures Closed(idx.byHash) && |headers| > 0 ==> taken
  {
    hide StateOk;
    hide Linked;
    hide HeaderLine;
    hide NoClash;
    hide FirstOnMain;
    hide LocatorHeights;
    hide ForkAt;
    hide Follows;
    hide Closed;
    hide RejectedOk;
    hide OnMain;
    hide LocatorIndexed;
    hide Line;
    ghost var a, b := HeadersOfLine(Line(idx.r, idx.bestHeader)), HeadersOf(peer.chain);
    ghost var n, locator;
    headers, taken, start, n, locator := Exchange(idx, peer, version);
    BestLine(idx.r, idx.bestHeader);
    PeerLine(peer);
    fork := ForkExists(idx.r, a, b);
    ReplyStart(idx.r, a, peer.chain, locator, n, start, fork);
    RunFollows(idx.r, b, headers, start);
    if Closed(idx.byHash) {
      ClosedLine(idx.r, idx.byHash, idx.bestHeader, start);
    }
    if LocatorIndexed(idx) {
      LocatorEntry(idx, n);
    }
  }

  lemma LocatorEntry(idx: HeaderIndex, n: nat)
    requires Linked(idx.r, idx.bestHeader) && idx.bestHeader.height < TWO32 && LocatorIndexed(idx)
    requires n < |LocatorHeights(idx.bestHeader.height)|
    ensures var h := LocatorHeights(idx.bestHeader.height)[n];
      h <= idx.bestHeader.height && Line(idx.r, idx.bestHeader)[h].hash in idx.byHash
  {
    hide Linked;
    hide Line;
    hide LocatorHeights;
  }

  /** Every header the locator names is indexed. */
  ghost predicate LocatorIndexed(idx: HeaderIndex)
    requires Linked(idx.r, idx.bestHeader) && idx.bestHeader.height < TWO32
    reads idx
  {
    forall n :: 0 <= n < |LocatorHeights(idx.bestHeader.height)| ==>
      && LocatorHeights(idx.bestHeader.height)[n] <= idx.bestHeader.height
      && Line(idx.r, idx.bestHeader)[LocatorHeights(idx.bestHeader.height)[n]].hash in idx.byHash
  }

  /** A run of a line follows on from the header before it. */
  lemma RunFollows(r: Rules, b: seq<BlockHeader>, run: seq<BlockHeader>, start: nat)
    requires HeaderLine(r, b) && start + |run| < |b| && forall i :: 0 <= i < |run| ==> run[i] == b[start + 1 + i]
    ensures |run| > 0 ==> run[0].prevBlock == r.blockHash(b[start])
    ensures forall i :: 0 < i < |run| ==> Follows(r, run, i)
  {
    forall i | 0 <= i < |run| ensures run[i].prevBlock == r.blockHash(b[start + i]) {
      assert Follows(r, b, start + 1 + i);
    }
  }
}
