/** The header tree used for header-first sync (internal/chain/headers.go). */
module HeaderIndexes {
  import opened Types
  import opened MedianTime
  import opened Locator

  const MAX_REJECTED_HEADERS: nat := 50000
  const MAX_HEADER_INDEX_SIZE: nat := 200000
  const MAX_FORK_DEPTH: nat := 2016

  /** A header with its place in the tree; parent is null for genesis. */
  class HeaderNode {
    const hash: Hash
    const height: nat
    const header: BlockHeader
    const work: nat
    const parent: HeaderNode?

    constructor (hash: Hash, height: nat, header: BlockHeader, work: nat, parent: HeaderNode?)
      ensures this.hash == hash && this.height == height && this.header == header && this.work == work
      ensures this.parent == parent
    {
      this.hash, this.height, this.header, this.work, this.parent := hash, height, header, work, parent;
    }
  }

  // ---------- Lines of ancestors ----------

  /** Height, work and parent link of n and of all its ancestors are right. */
  ghost predicate Linked(r: Rules, n: HeaderNode)
    decreases n.height
  {
    && n.hash == r.blockHash(n.header)
    && (n.parent == null ==> n.height == 0 && n.header == r.params.genesis.header && n.work == r.weight(n.header))
    && (n.parent != null ==>
          && n.height == n.parent.height + 1
          && n.header.prevBlock == n.parent.hash
          && n.work == n.parent.work + r.weight(n.header)
          && Linked(r, n.parent))
  }

  /** The ancestors of n from genesis to n itself, by following parents. */
  ghost function Line(r: Rules, n: HeaderNode): (line: seq<HeaderNode>)
    requires Linked(r, n)
    ensures |line| == n.height + 1
    decreases n.height
  {
    if n.parent == null then [n] else Line(r, n.parent) + [n]
  }

  lemma {:induction false} LineAt(r: Rules, n: HeaderNode, i: nat)
    requires Linked(r, n) && i <= n.height
    ensures var a := Line(r, n)[i]; Linked(r, a) && a.height == i && Line(r, a) == Line(r, n)[..i + 1]
    decreases n.height
  {
    if i == n.height {
      assert Line(r, n)[..i + 1] == Line(r, n);
    } else {
      LineAt(r, n.parent, i);
      assert Line(r, n)[..i + 1] == Line(r, n.parent)[..i + 1];
    }
  }

  lemma {:induction false} LineStep(r: Rules, n: HeaderNode, i: nat)
    requires Linked(r, n) && i <= n.height
    ensures var a := Line(r, n)[i]; a.parent == if i == 0 then null else Line(r, n)[i - 1]
    ensures Line(r, n)[i].height == i && Linked(r, Line(r, n)[i])
  {
    LineAt(r, n, i);
    var a := Line(r, n)[i];
    if i > 0 {
      assert Line(r, a)[i - 1] == Line(r, n)[..i + 1][i - 1];
    }
  }

  lemma LineEnd(r: Rules, n: HeaderNode)
    requires Linked(r, n)
    ensures Line(r, n)[n.height] == n
  {
  }

  ghost function Hashes(line: seq<HeaderNode>, from: nat): set<Hash> {
    set i | from <= i < |line| :: line[i].hash
  }

  lemma HashesStep(line: seq<HeaderNode>, from: nat)
    requires 0 < from <= |line|
    ensures Hashes(line, from - 1) == Hashes(line, from) + {line[from - 1].hash}
  {
  }

  // ---------- Ancestor lookup ----------

  /** The header at `height` found by following parents from n. */
  function Walk(n: HeaderNode?, height: nat): Option<BlockHeader>
    decreases if n == null then 0 else n.height + 1
  {
    if n == null then None
    else if n.height > height && n.parent != null && n.parent.height < n.height then Walk(n.parent, height)
    else if n.height == height then Some(n.header)
    else None
  }

  lemma {:induction false} WalkIs(r: Rules, n: HeaderNode, height: nat)
    requires Linked(r, n)
    ensures Walk(n, height) == if height <= n.height then Some(Line(r, n)[height].header) else None
    decreases n.height
  {
    if height < n.height {
      WalkIs(r, n.parent, height);
    }
  }

  datatype AddResult = Added(node: HeaderNode) | Duplicate | Rejected | Orphan | AtCapacity | Invalid

  /** The header index after pruning: what is above `below` or on the best chain. */
  ghost function Pruned(byHash: map<Hash, HeaderNode>, best: set<Hash>, below: nat): map<Hash, HeaderNode> {
    map h | h in byHash && (byHash[h].height > below || h in best) :: byHash[h]
  }

  class HeaderIndex {
    const r: Rules
    var byHash: map<Hash, HeaderNode>
    var bestHeader: HeaderNode
    var rejected: set<Hash>
    var rejectedOrder: seq<Hash>
    var bestChainByHeight: seq<HeaderNode>

    /** Every indexed header sits on a correct line of ancestors and has at most the
        work of the best one; bestChainByHeight is the best header's line. */
    ghost predicate Valid()
      reads this
    {
      && (forall h :: h in byHash ==> byHash[h].hash == h && Linked(r, byHash[h]) && byHash[h].work <= bestHeader.work)
      && bestHeader.hash in byHash && byHash[bestHeader.hash] == bestHeader
      && Linked(r, bestHeader)
      && bestChainByHeight == Line(r, bestHeader)
      && RejectedOk(rejected, rejectedOrder)
    }

    constructor (r: Rules)
      ensures Valid() && this.r == r && byHash.Keys == {r.blockHash(r.params.genesis.header)}
      ensures bestHeader.header == r.params.genesis.header && rejected == {} && Closed(byHash)
      ensures bestHeader.height == 0 && bestHeader.work == r.weight(r.params.genesis.header)
    {
      var header := r.params.genesis.header;
      var node := new HeaderNode(r.blockHash(header), 0, header, r.weight(header), null);
      this.r := r;
      byHash := map[node.hash := node];
      bestHeader := node;
      rejected, rejectedOrder := {}, [];
      bestChainByHeight := [node];
    }

    /** The ancestor lookup for children of parentNode. Up to the parent's height it
        is the plain walk along parents, on forks too. */
    method BuildAncestorLookup(parentNode: HeaderNode) returns (anc: Ancestors)
      requires Valid() && Linked(r, parentNode)
      ensures forall h :: 0 <= h <= parentNode.height ==>
        anc(h) == Walk(parentNode, h) == Some(Line(r, parentNode)[h].header)
    {
      var best := bestChainByHeight;
      var onBestChain := parentNode.height < |best| && best[parentNode.height] == parentNode;
      anc := (height: nat) =>
        if onBestChain && height < |best| then Some(best[height].header) else Walk(parentNode, height);
      forall h | 0 <= h <= parentNode.height
        ensures anc(h) == Walk(parentNode, h) == Some(Line(r, parentNode)[h].header)
      {
        WalkIs(r, parentNode, h);
        if onBestChain {
          LineAt(r, bestHeader, parentNode.height);
          assert Line(r, parentNode)[h] == best[..parentNode.height + 1][h];
        }
      }
    }

    /** Validates a header against its own ancestors and adds it. */
    method AddHeader(header: BlockHeader, now: U32) returns (result: AddResult, ghost anc: Ancestors)
      requires Valid()
      modifies this
      ensures Valid()
      ensures var h, prev := r.blockHash(header), header.prevBlock;
        && (result.Duplicate? <==> h in old(byHash))
        && (result.Rejected? <==> h !in old(byHash) && (h in old(rejected) || prev in old(rejected)))
        && (result.Orphan? <==>
              h !in old(byHash) && h !in old(rejected) && prev !in old(rejected) && prev !in old(byHash))
        && (result.AtCapacity? || result.Invalid? || result.Added? ==>
              && prev in old(byHash)
              && ChecksOut(result, header, now, anc, old(byHash)[prev], |old(byHash)|, old(bestHeader).work))
      ensures !result.Added? ==> byHash == old(byHash) && bestHeader == old(bestHeader)
      ensures result.Added? ==> rejected == old(rejected)
      ensures result.Added? ==> Inserted(result.node, header, old(byHash), old(bestHeader))
      ensures result.Duplicate? || result.Orphan? || result.AtCapacity? ==> rejected == old(rejected)
      ensures old(Closed(byHash)) && !result.Added? ==> Closed(byHash)
      ensures old(Closed(byHash)) && result.Added? ==>
        (Closed(byHash) <==> PruneSafe(result.node, old(byHash), old(bestHeader)))
      ensures result.Invalid? || result.Rejected? ==> r.blockHash(header) in rejected
      ensures result.Added? ==> var parent, n := old(byHash)[header.prevBlock], result.node;
        && n.header == header && n.hash == r.blockHash(header) && n.parent == parent && n.height == parent.height + 1
        && n.work == parent.work + r.weight(header)
        && bestHeader == (if n.work > old(bestHeader).work then n else old(bestHeader))
      ensures result.Added? || result.Invalid? ==> var parent := old(byHash)[header.prevBlock];
        result.Added? <==>
          && r.validateHeader(header, parent.header, parent.height + 1, anc)
          && header.timestamp <= now + r.params.maxTimeFutureDrift
          && header.timestamp > (if r.params.timestampRule.PrevPlusOne? then parent.header.timestamp
                                 else MedianTimePast(anc, parent.height))
    {
      hide Linked;
      hide Line;
      hide Walk;
      hide RejectedOk;
      hide Inserted;
      hide ChecksOut;
      hide Closed;
      hide PruneSafe;
      hide MedianTimePast;
      anc := _ => None;
      var headerHash := r.blockHash(header);
      if headerHash in byHash {
        return Duplicate, anc;
      }
      if headerHash in rejected {
        return Rejected, anc;
      }
      if header.prevBlock in rejected {
        AddRejected(headerHash);
        return Rejected, anc;
      }
      if header.prevBlock !in byHash {
        return Orphan, anc;
      }
      result, anc := AddChild(header, headerHash, byHash[header.prevBlock], now);
    }

    /** Adds a header whose parent is indexed, if it passes. */
    method AddChild(header: BlockHeader, headerHash: Hash, parentNode: HeaderNode, now: U32)
      returns (result: AddResult, ghost anc: Ancestors)
      requires Valid() && headerHash == r.blockHash(header) && headerHash !in byHash
      requires header.prevBlock in byHash && byHash[header.prevBlock] == parentNode
      modifies this
      ensures Valid()
      ensures result.AtCapacity? || result.Invalid? || result.Added?
      ensures ChecksOut(result, header, now, anc, parentNode, |old(byHash)|, old(bestHeader).work)
      ensures !result.Added? ==> byHash == old(byHash) && bestHeader == old(bestHeader)
      ensures !result.Invalid? ==> rejected == old(rejected)
      ensures result.Added? ==> Inserted(result.node, header, old(byHash), old(bestHeader))
      ensures old(Closed(byHash)) && !result.Added? ==> Closed(byHash)
      ensures old(Closed(byHash)) && result.Added? ==>
        (Closed(byHash) <==> PruneSafe(result.node, old(byHash), old(bestHeader)))
      ensures result.Invalid? ==> headerHash in rejected
      ensures result.Added? ==> var n := result.node;
        && n.header == header && n.hash == headerHash && n.parent == parentNode && n.height == parentNode.height + 1
        && n.work == parentNode.work + r.weight(header)
        && bestHeader == (if n.work > old(bestHeader).work then n else old(bestHeader))
      ensures !result.AtCapacity? ==>
        (result.Added? <==>
           && r.validateHeader(header, parentNode.header, parentNode.height + 1, anc)
           && header.timestamp <= now + r.params.maxTimeFutureDrift
           && header.timestamp > (if r.params.timestampRule.PrevPlusOne? then parentNode.header.timestamp
                                  else MedianTimePast(anc, parentNode.height)))
    {
      hide Linked;
      hide Line;
      hide Walk;
      hide RejectedOk;
      hide Inserted;
      hide Closed;
      hide PruneSafe;
      hide MedianTimePast;
      anc := _ => None;
      if |byHash| >= MAX_HEADER_INDEX_SIZE {
        var childWork := parentNode.work + r.weight(header);
        if childWork <= bestHeader.work {
          return AtCapacity, anc;
        }
      }
      var lookup := BuildAncestorLookup(parentNode);
      anc := lookup;
      var ok := r.validateHeader(header, parentNode.header, parentNode.height + 1, lookup);
      if ok {
        ok := ValidateHeaderTimestamp(r.params.timestampRule, header, parentNode.header, now,
                                      r.params.maxTimeFutureDrift, lookup, parentNode.height);
      }
      if !ok {
        AddRejected(headerHash);
        return Invalid, anc;
      }
      var node := Insert(header, headerHash, parentNode, true);
      return Added(node), anc;
    }

    /** The outcome for a header whose parent is indexed. */
    ghost predicate ChecksOut(result: AddResult, header: BlockHeader, now: U32, anc: Ancestors, parent: HeaderNode,
                              size: nat, bestWork: nat) {
      var full := size >= MAX_HEADER_INDEX_SIZE && parent.work + r.weight(header) <= bestWork;
      && (result.AtCapacity? <==> full)
      && (!full ==> (result.Added? <==> HeaderPasses(r, header, parent.header, parent.height, now, anc)))
      && (!full && Linked(r, parent) ==> forall h :: 0 <= h <= parent.height ==> anc(h) == Walk(parent, h))
    }

    /** What adding a node did: it is indexed on its parent, it is the best header if it
        has more work than the old one, and pruning took place at every hundredth height. */
    ghost predicate Inserted(node: HeaderNode, header: BlockHeader, byHash0: map<Hash, HeaderNode>, best0: HeaderNode)
      reads this
    {
      && header.prevBlock in byHash0
      && IsChild(r, node, header, byHash0[header.prevBlock])
      && bestHeader == (if node.work > best0.work then node else best0)
      && Linked(r, bestHeader)
      && byHash == (if node.work > best0.work && node.height % 100 == 0 && node.height >= MAX_FORK_DEPTH
                    then Pruned(byHash0[node.hash := node], Hashes(Line(r, bestHeader), 0),
                                node.height - MAX_FORK_DEPTH)
                    else byHash0[node.hash := node])
    }

    /** If adding the node makes the index prune, no indexed header just above the
        threshold has its parent off the node's line. */
    ghost predicate PruneSafe(node: HeaderNode, byHash0: map<Hash, HeaderNode>, best0: HeaderNode) {
      Linked(r, node) &&
      (node.work > best0.work && node.height % 100 == 0 && node.height >= MAX_FORK_DEPTH ==>
         NoForkAt(byHash0, Hashes(Line(r, node), 0), node.height - MAX_FORK_DEPTH + 1))
    }

    /** Adds a node for a header that was checked or comes from the store. */
    method Insert(header: BlockHeader, headerHash: Hash, parentNode: HeaderNode, prune: bool) returns (node: HeaderNode)
      requires Valid() && headerHash == r.blockHash(header) && headerHash !in byHash
      requires header.prevBlock in byHash && byHash[header.prevBlock] == parentNode
      modifies this`byHash, this`bestHeader, this`bestChainByHeight
      ensures Valid()
      ensures IsChild(r, node, header, parentNode)
      ensures prune ==> Inserted(node, header, old(byHash), old(bestHeader))
      ensures !prune ==> byHash == old(byHash)[headerHash := node]
      ensures bestHeader == if node.work > old(bestHeader).work then node else old(bestHeader)
      ensures old(Closed(byHash)) && prune ==> (Closed(byHash) <==> PruneSafe(node, old(byHash), old(bestHeader)))
      ensures old(Closed(byHash)) && !prune ==> Closed(byHash)
    {
      hide Closed;
      hide Pruned;
      hide Hashes;
      hide NoForkAt;
      hide RejectedOk;
      hide Line;
      hide Linked;
      node := NewChild(header, headerHash, parentNode);
      if node.work > bestHeader.work {
        Adopt(node);
        if prune && node.height % 100 == 0 {
          PruneStaleForks();
        }
      }
      if old(Closed(byHash)) {
        ghost var due := node.height % 100 == 0 && node.height >= MAX_FORK_DEPTH;
        ghost var prunes := prune && node.work > old(bestHeader).work && due;
        ClosedAfter(r, old(byHash), node, byHash, prunes);
      }
    }

    /** Indexes a new node. The best header stays, even if the new node has more work. */
    method NewChild(header: BlockHeader, headerHash: Hash, parentNode: HeaderNode) returns (node: HeaderNode)
      requires Valid() && headerHash == r.blockHash(header) && headerHash !in byHash
      requires header.prevBlock in byHash && byHash[header.prevBlock] == parentNode
      modifies this`byHash
      ensures IsChild(r, node, header, parentNode) && byHash == old(byHash)[headerHash := node]
      ensures Linked(r, node) && (node.work <= bestHeader.work ==> Valid())
    {
      hide RejectedOk;
      hide Line;
      assert Linked(r, parentNode);
      node := new HeaderNode(headerHash, parentNode.height + 1, header, parentNode.work + r.weight(header), parentNode);
      byHash := byHash[headerHash := node];
    }

    /** Makes a node with more work than all others the best header. */
    method Adopt(node: HeaderNode)
      requires forall h :: h in byHash ==> byHash[h].hash == h && Linked(r, byHash[h]) && byHash[h].work <= node.work
      requires node.hash in byHash && byHash[node.hash] == node && Linked(r, bestHeader)
      requires bestChainByHeight == Line(r, bestHeader) && RejectedOk(rejected, rejectedOrder)
      modifies this`bestHeader, this`bestChainByHeight
      ensures Valid() && bestHeader == node
    {
      hide RejectedOk;
      LineEnd(r, bestHeader);
      bestHeader := node;
      RebuildHeightIndex();
    }

    /** InsertTrustedHeader: the same without any check. */
    method InsertTrustedHeader(header: BlockHeader) returns (ok: bool)
      requires Valid()
      modifies this`byHash, this`bestHeader, this`bestChainByHeight
      ensures Valid()
      ensures ok == (r.blockHash(header) in old(byHash) || header.prevBlock in old(byHash))
      ensures ok ==> r.blockHash(header) in byHash
      ensures forall h :: h in old(byHash) ==> h in byHash && byHash[h] == old(byHash)[h]
      ensures byHash.Keys <= old(byHash).Keys + {r.blockHash(header)}
      ensures old(Closed(byHash)) ==> Closed(byHash)
    {
      hide Linked;
      var headerHash := r.blockHash(header);
      if headerHash in byHash {
        return true;
      }
      if header.prevBlock !in byHash {
        return false;
      }
      var node := Insert(header, headerHash, byHash[header.prevBlock], false);
      ok := true;
    }

    /** Updates bestChainByHeight to the line of bestHeader: by one append when the new
        best header extends the old one, by a walk along parents otherwise. */
    method RebuildHeightIndex()
      requires Linked(r, bestHeader)
      requires |bestChainByHeight| > 0 && Linked(r, bestChainByHeight[|bestChainByHeight| - 1])
      requires bestChainByHeight == Line(r, bestChainByHeight[|bestChainByHeight| - 1])
      modifies this`bestChainByHeight
      ensures bestChainByHeight == Line(r, bestHeader)
    {
      var height := bestHeader.height;
      if height == |bestChainByHeight| && height > 0 && bestChainByHeight[height - 1] == bestHeader.parent {
        bestChainByHeight := bestChainByHeight + [bestHeader];
        return;
      }
      hide Linked;
      LineEnd(r, bestHeader);
      ghost var line := Line(r, bestHeader);
      var best := bestHeader;
      var index := seq(height + 1, _ => best);
      var node: HeaderNode? := best;
      while node != null
        invariant |index| == height + 1
        invariant node != null ==> node.height <= height && node == line[node.height]
        invariant forall i :: (if node == null then 0 else node.height + 1) <= i <= height ==> index[i] == line[i]
        decreases if node == null then 0 else node.height + 1
      {
        LineStep(r, bestHeader, node.height);
        index := index[node.height := node];
        node := node.parent;
      }
      bestChainByHeight := index;
      assert bestChainByHeight == line;
    }

    /** Drops the headers that are more than MAX_FORK_DEPTH below the best header and not
        on its chain. */
    method PruneStaleForks()
      requires Valid()
      modifies this`byHash
      ensures Valid()
      ensures byHash == (if bestHeader.height < MAX_FORK_DEPTH then old(byHash)
                         else Pruned(old(byHash), Hashes(Line(r, bestHeader), 0), bestHeader.height - MAX_FORK_DEPTH))
    {
      hide Linked;
      var bestHeight := bestHeader.height;
      if bestHeight < MAX_FORK_DEPTH {
        return;
      }
      var pruneBelow := bestHeight - MAX_FORK_DEPTH;
      var bestChainHashes := BestChainHashes(pruneBelow);
      var todo := byHash.Keys;
      ghost var byHash0 := byHash;
      while todo != {}
        invariant todo <= byHash0.Keys
        invariant forall h :: h in byHash <==>
          h in byHash0 && (h in todo || byHash0[h].height > pruneBelow || h in bestChainHashes)
        invariant forall h :: h in byHash ==> byHash[h] == byHash0[h]
        decreases todo
      {
        var hash :| hash in todo;
        todo := todo - {hash};
        var n := byHash[hash];
        if n.height > pruneBelow {
          continue;
        }
        if hash in bestChainHashes {
          continue;
        }
        byHash := byHash - {hash};
      }
    }

    /** Collects the hashes of the best chain in two loops, down to the threshold and on
        to genesis. */
    method BestChainHashes(pruneBelow: nat) returns (hashes: set<Hash>)
      requires Linked(r, bestHeader)
      ensures hashes == Hashes(Line(r, bestHeader), 0)
    {
      hide Linked;
      LineEnd(r, bestHeader);
      ghost var line := Line(r, bestHeader);
      hashes := {};
      var node: HeaderNode? := bestHeader;
      while node != null
        invariant node != null ==> node.height < |line| && node == line[node.height]
        invariant hashes == Hashes(line, if node == null then 0 else node.height + 1)
        decreases if node == null then 0 else node.height + 1
      {
        hashes := hashes + {node.hash};
        LineStep(r, bestHeader, node.height);
        HashesStep(line, node.height + 1);
        if node.height <= pruneBelow {
          break;
        }
        node := node.parent;
      }
      while node != null
        invariant node != null ==> node.height < |line| && node == line[node.height]
        invariant node == null ==> hashes == Hashes(line, 0)
        invariant node != null ==> hashes == Hashes(line, node.height + 1) || hashes == Hashes(line, node.height)
        decreases if node == null then 0 else node.height + 1
      {
        hashes := hashes + {node.hash};
        LineStep(r, bestHeader, node.height);
        HashesStep(line, node.height + 1);
        node := node.parent;
      }
    }

    /** Remembers a bad header, forgetting the oldest ones at capacity. */
    method AddRejected(hash: Hash)
      requires RejectedOk(rejected, rejectedOrder)
      modifies this`rejected, this`rejectedOrder
      ensures RejectedOk(rejected, rejectedOrder) && hash in rejected
      ensures hash in old(rejected) ==> rejectedOrder == old(rejectedOrder)
      ensures hash !in old(rejected) ==>
        var full := |old(rejectedOrder)| >= MAX_REJECTED_HEADERS;
        rejectedOrder == (if full then old(rejectedOrder)[1..] else old(rejectedOrder)) + [hash]
    {
      if hash in rejected {
        return;
      }
      OrderSize(rejected, rejectedOrder);
      while |rejected| >= MAX_REJECTED_HEADERS && |rejectedOrder| > 0
        invariant RejectedOk(rejected, rejectedOrder) && hash !in rejected && |rejected| == |rejectedOrder|
        invariant
          || rejectedOrder == old(rejectedOrder)
          || (|old(rejectedOrder)| >= MAX_REJECTED_HEADERS && rejectedOrder == old(rejectedOrder)[1..])
        decreases |rejectedOrder|
      {
        var evict := rejectedOrder[0];
        rejectedOrder := rejectedOrder[1..];
        rejected := rejected - {evict};
      }
      rejected := rejected + {hash};
      rejectedOrder := rejectedOrder + [hash];
    }

    /** HeaderLocator: names the headers of the best chain at the locator's heights. */
    method HeaderLocator() returns (locator: seq<Hash>)
      requires Valid() && bestHeader.height < TWO32
      ensures |locator| == |LocatorHeights(bestHeader.height)|
      ensures forall n :: 0 <= n < |locator| ==>
        && LocatorHeights(bestHeader.height)[n] <= bestHeader.height
        && locator[n] == Line(r, bestHeader)[LocatorHeights(bestHeader.height)[n]].hash
    {
      hide Linked;
      hide Drop;
      ghost var line := Line(r, bestHeader);
      ghost var tip := bestHeader.height;
      ghost var heights: seq<nat> := [];
      LineEnd(r, bestHeader);
      locator := [];
      var step := 1;
      var node := bestHeader;
      LocatorStart(tip);
      while true
        invariant node.height <= tip && node == line[node.height] && node.height == HeightAt(tip, |locator|)
        invariant step == Step(|locator|)
        invariant |locator| == |heights|
        invariant forall n :: 0 <= n < |heights| ==> heights[n] <= tip && locator[n] == line[heights[n]].hash
        invariant forall n :: 0 <= n < |heights| ==> heights[n] == HeightAt(tip, n) && heights[n] > 0
        decreases node.height
      {
        locator, heights := locator + [node.hash], heights + [node.height];
        if node.height == 0 {
          break;
        }
        NextEntry(tip, |locator| - 1);
        var targetHeight := if node.height >= step then node.height - step else 0;
        node := DescendTo(node, targetHeight);
        if |locator| > 10 {
          step := step * 2 % TWO32;
        }
      }
      LoopIsLocator(tip, 0, heights);
    }

    /** Follows parents down to the target height. */
    method DescendTo(from: HeaderNode, targetHeight: nat) returns (node: HeaderNode)
      requires Linked(r, bestHeader) && from.height <= bestHeader.height && targetHeight <= from.height
      requires Line(r, bestHeader)[from.height] == from
      ensures node == Line(r, bestHeader)[targetHeight] && node.height == targetHeight
    {
      hide Linked;
      ghost var line := Line(r, bestHeader);
      node := from;
      LineStep(r, bestHeader, node.height);
      while node.parent != null && node.height > targetHeight
        invariant targetHeight <= node.height <= bestHeader.height && node == line[node.height]
        invariant node.parent == null ==> node.height == 0
        decreases node.height
      {
        LineStep(r, bestHeader, node.height);
        LineStep(r, bestHeader, node.height - 1);
        node := node.parent;
      }
    }

    /** Up to `limit` consecutive hashes of the best chain from startHeight on. */
    method HeadersToFetch(startHeight: nat, limit: nat) returns (result: seq<Hash>)
      requires Valid()
      ensures |result| <= limit && (startHeight > bestHeader.height ==> result == [])
      ensures startHeight <= bestHeader.height ==>
        |result| == if bestHeader.height + 1 - startHeight < limit then bestHeader.height + 1 - startHeight else limit
      ensures forall i :: 0 <= i < |result| ==>
        startHeight + i <= bestHeader.height && result[i] == Line(r, bestHeader)[startHeight + i].hash
    {
      result := [];
      var h := startHeight;
      while h <= bestHeader.height && |result| < limit
        invariant h == startHeight + |result| && |result| <= limit
        invariant |result| > 0 ==> h <= bestHeader.height + 1
        invariant forall i :: 0 <= i < |result| ==>
          startHeight + i <= bestHeader.height && result[i] == Line(r, bestHeader)[startHeight + i].hash
        decreases bestHeader.height + 1 - h
      {
        if h < |bestChainByHeight| {
          result := result + [bestChainByHeight[h].hash];
        }
        h := h + 1;
      }
    }
  }

  /** The node made for a header on its parent. */
  ghost predicate IsChild(r: Rules, node: HeaderNode, header: BlockHeader, parent: HeaderNode) {
    && node.hash == r.blockHash(header) && node.header == header && node.parent == parent
    && node.height == parent.height + 1 && node.work == parent.work + r.weight(header)
  }

  /** The queue lists the rejected hashes once each, within the cap. */
  ghost predicate RejectedOk(rejected: set<Hash>, order: seq<Hash>) {
    && (forall h :: h in rejected <==> h in order)
    && (forall i, j :: 0 <= i < j < |order| ==> order[i] != order[j])
    && |order| <= MAX_REJECTED_HEADERS
  }

  lemma {:induction false} OrderSize(rejected: set<Hash>, order: seq<Hash>)
    requires (forall h :: h in rejected <==> h in order) && forall i, j :: 0 <= i < j < |order| ==> order[i] != order[j]
    ensures |rejected| == |order|
    decreases |order|
  {
    if |order| > 0 {
      var h := order[0];
      OrderSize(rejected - {h}, order[1..]);
      assert rejected == (rejected - {h}) + {h};
    } else {
      assert rejected == {};
    }
  }

  lemma LocatorStart(tip: nat)
    ensures HeightAt(tip, 0) == tip && Step(0) == 1
  {
  }

  // ---------- Parent-closed indexes ----------

  /** The node under h has no parent, or its parent is indexed as itself. */
  ghost predicate ParentIn(byHash: map<Hash, HeaderNode>, h: Hash)
    requires h in byHash
  {
    var p := byHash[h].parent;
    p == null || (p.hash in byHash && byHash[p.hash] == p)
  }

  ghost predicate Closed(byHash: map<Hash, HeaderNode>) {
    forall h :: h in byHash ==> ParentIn(byHash, h)
  }

  /** In a closed index the whole line of an indexed header is indexed. */
  lemma {:induction false} ClosedLine(r: Rules, byHash: map<Hash, HeaderNode>, n: HeaderNode, i: nat)
    requires Closed(byHash) && Linked(r, n) && n.hash in byHash && byHash[n.hash] == n && i <= n.height
    ensures Line(r, n)[i].hash in byHash && byHash[Line(r, n)[i].hash] == Line(r, n)[i]
    decreases n.height
  {
    if i < n.height {
      assert ParentIn(byHash, n.hash);
      ClosedLine(r, byHash, n.parent, i);
    }
  }

  lemma InsertClosed(byHash: map<Hash, HeaderNode>, node: HeaderNode)
    requires Closed(byHash) && node.hash !in byHash && node.parent != null
    requires node.parent.hash in byHash && byHash[node.parent.hash] == node.parent
    ensures Closed(byHash[node.hash := node])
  {
    var byHash' := byHash[node.hash := node];
    forall h | h in byHash' ensures ParentIn(byHash', h) {
      if h != node.hash {
        assert ParentIn(byHash, h);
      }
    }
  }

  lemma NewNodeIsAbove(byHash: map<Hash, HeaderNode>, node: HeaderNode, best: set<Hash>, height: nat)
    requires node.hash !in byHash && node.height > height
    ensures NoForkAt(byHash[node.hash := node], best, height) <==> NoForkAt(byHash, best, height)
  {
    var byHash' := byHash[node.hash := node];
    assert forall h :: h in byHash ==> h in byHash' && byHash'[h] == byHash[h];
  }

  /** What adding a node, with or without pruning, does to a closed index. */
  lemma {:induction false} ClosedAfter(r: Rules, byHash0: map<Hash, HeaderNode>, node: HeaderNode,
                                       byHash: map<Hash, HeaderNode>, prunes: bool)
    requires Closed(byHash0) && Keyed(r, byHash0) && Linked(r, node) && node.hash !in byHash0 && node.parent != null
    requires node.parent.hash in byHash0 && byHash0[node.parent.hash] == node.parent
    requires prunes ==> node.height >= MAX_FORK_DEPTH
    requires byHash == (if prunes
                        then Pruned(byHash0[node.hash := node], Hashes(Line(r, node), 0), node.height - MAX_FORK_DEPTH)
                        else byHash0[node.hash := node])
    ensures Closed(byHash)
      <==> (prunes ==> NoForkAt(byHash0, Hashes(Line(r, node), 0), node.height - MAX_FORK_DEPTH + 1))
  {
    hide Closed;
    hide Pruned;
    hide Hashes;
    hide NoForkAt;
    InsertClosed(byHash0, node);
    if prunes {
      PruneClosed(r, byHash0[node.hash := node], node, node.height - MAX_FORK_DEPTH);
      NewNodeIsAbove(byHash0, node, Hashes(Line(r, node), 0), node.height - MAX_FORK_DEPTH + 1);
    }
  }

  /** Every indexed header at this height has its parent among the given hashes. */
  ghost predicate NoForkAt(byHash: map<Hash, HeaderNode>, best: set<Hash>, height: nat) {
    forall h :: h in byHash && byHash[h].height == height && byHash[h].parent != null ==> byHash[h].parent.hash in best
  }

  ghost predicate Keyed(r: Rules, byHash: map<Hash, HeaderNode>) {
    forall h :: h in byHash ==> byHash[h].hash == h && Linked(r, byHash[h])
  }

  /** Pruning keeps the index closed exactly when no header just above the threshold has
      a parent off the best chain. */
  lemma {:induction false} PruneClosed(r: Rules, byHash: map<Hash, HeaderNode>, best: HeaderNode, below: nat)
    requires Closed(byHash) && Keyed(r, byHash) && Linked(r, best) && best.hash in byHash && byHash[best.hash] == best
    ensures Closed(Pruned(byHash, Hashes(Line(r, best), 0), below))
      <==> NoForkAt(byHash, Hashes(Line(r, best), 0), below + 1)
  {
    var hashes := Hashes(Line(r, best), 0);
    var after := Pruned(byHash, hashes, below);
    if NoForkAt(byHash, hashes, below + 1) {
      forall h | h in after ensures ParentIn(after, h) {
        ParentKept(r, byHash, best, below, h);
      }
    }
    if Closed(after) {
      forall h | h in byHash && byHash[h].height == below + 1 && byHash[h].parent != null
        ensures byHash[h].parent.hash in hashes
      {
        assert ParentIn(after, h) && ParentIn(byHash, h);
      }
    }
  }

  lemma {:induction false} ParentKept(r: Rules, byHash: map<Hash, HeaderNode>, best: HeaderNode, below: nat, h: Hash)
    requires Closed(byHash) && Keyed(r, byHash) && Linked(r, best) && best.hash in byHash && byHash[best.hash] == best
    requires NoForkAt(byHash, Hashes(Line(r, best), 0), below + 1)
    requires h in Pruned(byHash, Hashes(Line(r, best), 0), below)
    ensures ParentIn(Pruned(byHash, Hashes(Line(r, best), 0), below), h)
  {
    var line := Line(r, best);
    assert ParentIn(byHash, h);
    if byHash[h].height <= below {
      var i :| 0 <= i < |line| && line[i].hash == h;
      ClosedLine(r, byHash, best, i);
      LineStep(r, best, i);
      assert i > 0 ==> line[i - 1].hash in Hashes(line, 0);
    }
  }
}
