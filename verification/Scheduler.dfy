/** The parallel block-download scheduler (internal/p2p/scheduler.go). */
module Schedulers {
  import opened Types
  import opened Maps
  import opened HeaderIndexes

  const MAX_IN_FLIGHT_PER_PEER: int := 16
  const MAX_GLOBAL_IN_FLIGHT: int := 512
  const MAX_STAGING_SIZE: int := 1024
  const REQUEST_TIMEOUT: int := 30

  datatype Entry = Entry(hash: Hash, height: nat)

  datatype InFlight = InFlight(hash: Hash, height: nat, peer: string, requestedAt: int)

  datatype Staged = Staged(block: Block, peer: string)

  ghost function HashesOf(es: seq<Entry>): set<Hash> {
    set i | 0 <= i < |es| :: es[i].hash
  }

  lemma HashesAppend(es: seq<Entry>, e: Entry)
    ensures HashesOf(es + [e]) == HashesOf(es) + {e.hash}
  {
    var more := es + [e];
    assert more[|es|] == e;
    forall h | h in HashesOf(es) ensures h in HashesOf(more) {
      var i :| 0 <= i < |es| && es[i].hash == h;
      assert more[i] == es[i];
    }
  }

  ghost predicate NoRepeat(es: seq<Entry>) {
    forall i, j :: 0 <= i < j < |es| ==> es[i].hash != es[j].hash
  }

  lemma NoRepeatAppend(es: seq<Entry>, e: Entry)
    requires NoRepeat(es) && e.hash !in HashesOf(es)
    ensures NoRepeat(es + [e])
  {
    forall i | 0 <= i < |es| ensures es[i].hash != e.hash {
      assert es[i].hash in HashesOf(es);
    }
  }

  /** Needed, in flight, staged and drained share no hash, and none is queued twice. */
  ghost predicate Exclusive(needed: seq<Entry>, inFlight: map<Hash, InFlight>, staging: map<Hash, Staged>,
                            drained: set<Hash>) {
    && NoRepeat(needed)
    && (forall h :: h in inFlight ==> h !in HashesOf(needed))
    && (forall h :: h in staging ==> h !in HashesOf(needed) && h !in inFlight)
    && (forall h :: h in drained ==> h !in HashesOf(needed) && h !in inFlight && h !in staging)
  }

  /** Nothing is lost and nothing is invented, and the bounds hold. */
  ghost predicate Conserved(r: Rules, targets: set<Hash>, needed: seq<Entry>, inFlight: map<Hash, InFlight>,
                            staging: map<Hash, Staged>, drained: set<Hash>) {
    && (forall h :: h in targets <==> h in HashesOf(needed) || h in inFlight || h in staging || h in drained)
    && |inFlight| <= MAX_GLOBAL_IN_FLIGHT
    && |inFlight| + |staging| < MAX_STAGING_SIZE + MAX_GLOBAL_IN_FLIGHT
    && (forall h :: h in staging ==> r.blockHash(staging[h].block.header) == h)
  }

  // ---------- The moves of one hash ----------

  lemma FlightToQueue(r: Rules, targets: set<Hash>, needed: seq<Entry>, inFlight: map<Hash, InFlight>,
                      staging: map<Hash, Staged>, drained: set<Hash>, e: Entry)
    requires Conserved(r, targets, needed, inFlight, staging, drained) && e.hash in inFlight
    ensures Conserved(r, targets, needed + [e], inFlight - {e.hash}, staging, drained)
    ensures Exclusive(needed, inFlight, staging, drained) ==>
      Exclusive(needed + [e], inFlight - {e.hash}, staging, drained)
  {
    hide HashesOf;
    hide NoRepeat;
    Requeued(needed, e);
    RemoveSize(inFlight, e.hash);
  }

  lemma StagingToQueue(r: Rules, targets: set<Hash>, needed: seq<Entry>, inFlight: map<Hash, InFlight>,
                       staging: map<Hash, Staged>, drained: set<Hash>, e: Entry)
    requires Conserved(r, targets, needed, inFlight, staging, drained) && e.hash in staging
    ensures Conserved(r, targets, needed + [e], inFlight, staging - {e.hash}, drained)
    ensures Exclusive(needed, inFlight, staging, drained) ==>
      Exclusive(needed + [e], inFlight, staging - {e.hash}, drained)
  {
    hide HashesOf;
    hide NoRepeat;
    Requeued(needed, e);
    RemoveSize(staging, e.hash);
  }

  lemma FlightToStaging(r: Rules, targets: set<Hash>, needed: seq<Entry>, inFlight: map<Hash, InFlight>,
                        staging: map<Hash, Staged>, drained: set<Hash>, hash: Hash, b: Staged)
    requires Conserved(r, targets, needed, inFlight, staging, drained) && hash in inFlight
    requires r.blockHash(b.block.header) == hash
    ensures Conserved(r, targets, needed, inFlight - {hash}, staging[hash := b], drained)
    ensures Exclusive(needed, inFlight, staging, drained) ==>
      Exclusive(needed, inFlight - {hash}, staging[hash := b], drained)
  {
    hide HashesOf;
    hide NoRepeat;
    RemoveSize(inFlight, hash);
    InsertSize(staging, hash, b);
  }

  lemma StagedSize(needed: seq<Entry>, inFlight: map<Hash, InFlight>, staging: map<Hash, Staged>, drained: set<Hash>,
                   hash: Hash, b: Staged)
    requires hash in inFlight
    ensures |inFlight - {hash}| + |staging[hash := b]| <= |inFlight| + |staging|
    ensures Exclusive(needed, inFlight, staging, drained) ==>
      |inFlight - {hash}| + |staging[hash := b]| == |inFlight| + |staging|
  {
    hide HashesOf;
    hide NoRepeat;
    RemoveSize(inFlight, hash);
    InsertSize(staging, hash, b);
  }

  lemma StagingToDrained(r: Rules, targets: set<Hash>, needed: seq<Entry>, inFlight: map<Hash, InFlight>,
                         staging: map<Hash, Staged>, drained: set<Hash>, hash: Hash)
    requires Conserved(r, targets, needed, inFlight, staging, drained) && hash in staging
    ensures Conserved(r, targets, needed, inFlight, staging - {hash}, drained + {hash})
    ensures r.blockHash(staging[hash].block.header) == hash && |staging - {hash}| < |staging|
    ensures Exclusive(needed, inFlight, staging, drained) ==>
      Exclusive(needed, inFlight, staging - {hash}, drained + {hash})
  {
    hide HashesOf;
    hide NoRepeat;
    RemoveSize(staging, hash);
  }

  lemma QueueAgain(r: Rules, targets: set<Hash>, needed: seq<Entry>, inFlight: map<Hash, InFlight>,
                   staging: map<Hash, Staged>, drained: set<Hash>, e: Entry)
    requires Conserved(r, targets, needed, inFlight, staging, drained)
    ensures Conserved(r, targets + {e.hash}, needed + [e], inFlight, staging - {e.hash}, drained - {e.hash})
    ensures e.hash in drained ==> e.hash in targets
  {
    hide HashesOf;
    HashesAppend(needed, e);
    RemoveSize(staging, e.hash);
    SameUnion(targets, HashesOf(needed) + inFlight.Keys, staging.Keys + drained, e.hash);
    assert (staging - {e.hash}).Keys == staging.Keys - {e.hash};
  }

  lemma QueueAgainExclusive(needed: seq<Entry>, inFlight: map<Hash, InFlight>, staging: map<Hash, Staged>,
                            drained: set<Hash>, e: Entry)
    requires Exclusive(needed, inFlight, staging, drained)
    ensures Exclusive(needed + [e], inFlight, staging - {e.hash}, drained - {e.hash})
            <==> e.hash !in HashesOf(needed) && e.hash !in inFlight
    ensures e.hash in drained ==> e.hash !in HashesOf(needed) && e.hash !in inFlight
  {
    hide HashesOf;
    hide NoRepeat;
    Requeued(needed, e);
    RepeatPrefix(needed, e);
  }

  class BlockScheduler {
    const headerIndex: HeaderIndex
    var needed: seq<Entry>
    var inFlight: map<Hash, InFlight>
    var staging: map<Hash, Staged>
    var peerInFlight: map<string, int>
    var nextConnectHeight: nat

    /** All hashes scheduled since the last (re)population, and those handed on. */
    ghost var targets: set<Hash>
    ghost var drained: set<Hash>

    ghost predicate Valid()
      reads this
    {
      Conserved(headerIndex.r, targets, needed, inFlight, staging, drained)
    }

    /** Every target is in exactly one place. */
    ghost predicate Exact()
      reads this
    {
      Exclusive(needed, inFlight, staging, drained)
    }

    /** The counters tell the requests of each peer, and no peer has more than sixteen. */
    ghost predicate Fair()
      reads this
    {
      Tallied(peerInFlight, inFlight) && Bounded(inFlight)
    }

    constructor (headerIndex: HeaderIndex, tipHeight: nat)
      ensures Valid() && Exact() && Fair() && this.headerIndex == headerIndex && targets == {}
      ensures needed == [] && inFlight == map[] && staging == map[] && peerInFlight == map[]
    {
      this.headerIndex := headerIndex;
      needed, inFlight, staging, peerInFlight := [], map[], map[], map[];
      nextConnectHeight := tipHeight + 1;
      targets, drained := {}, {};
    }

    /** Queues every block between the chain tip and the best header that is not being
        worked on. What was drained before is settled: connected, or queued again. */
    method Populate(tipHeight: nat)
      requires Valid() && headerIndex.Valid() && headerIndex.bestHeader.height < TWO32 && tipHeight < TWO32
      modifies this
      ensures Valid() && drained == {} && nextConnectHeight == tipHeight + 1
      ensures inFlight == old(inFlight) && staging == old(staging)
      ensures forall h :: tipHeight < h <= headerIndex.bestHeader.height ==>
        headerIndex.bestChainByHeight[h].hash in targets
      ensures forall h :: h in targets ==>
        || h in old(targets)
        || exists i :: tipHeight < i <= headerIndex.bestHeader.height && headerIndex.bestChainByHeight[i].hash == h
      ensures old(Exact()) && (Closed(headerIndex.byHash) || DistinctHashes(headerIndex.bestChainByHeight)) ==> Exact()
      ensures peerInFlight == old(peerInFlight)
      ensures OldOrAbove(old(needed), needed, tipHeight, headerIndex.bestChainByHeight)
      ensures Upto(old(needed), headerIndex.bestHeader.height) ==> Upto(needed, headerIndex.bestHeader.height)
    {
      hide Linked;
      hide HashesOf;
      hide Line;
      hide RejectedOk;
      hide Conserved;
      hide Exclusive;
      hide Queued;
      hide DistinctHashes;
      hide Different;
      hide Closed;
      hide Upto;
      hide OldOrFrom;
      hide OldOrAbove;
      if Closed(headerIndex.byHash) {
        ClosedDistinct(headerIndex.r, headerIndex.byHash, headerIndex.bestHeader);
      }
      nextConnectHeight := tipHeight + 1;
      var bestHeaderHeight := headerIndex.bestHeader.height;
      var alreadyQueued := QueuedHashes();
      var hashes := headerIndex.HeadersToFetch(nextConnectHeight, (bestHeaderHeight - tipHeight) % TWO32);
      ghost var needed0 := needed;
      needed := QueueNew(hashes, alreadyQueued);
      targets, drained := HashesOf(needed) + inFlight.Keys + staging.Keys, {};
      Populated(headerIndex.r, headerIndex.bestChainByHeight, tipHeight, hashes, old(targets), needed0, needed,
                inFlight, staging, old(drained), targets);
    }

    /** Appends the hashes that are not being worked on to the queue. */
    method QueueNew(hashes: seq<Hash>, alreadyQueued: set<Hash>) returns (queue: seq<Entry>)
      requires alreadyQueued == HashesOf(needed)
      ensures Queued(needed, queue, hashes, inFlight.Keys + staging.Keys)
      ensures OldOrFrom(needed, queue, nextConnectHeight, hashes, |hashes|)
    {
      hide HashesOf;
      hide NoRepeat;
      queue := needed;
      var i := 0;
      while i < |hashes|
        invariant 0 <= i <= |hashes| && Queued(needed, queue, hashes[..i], inFlight.Keys + staging.Keys)
        invariant OldOrFrom(needed, queue, nextConnectHeight, hashes, i)
      {
        var h := hashes[i];
        assert hashes[..i + 1] == hashes[..i] + [h];
        if h !in alreadyQueued && h !in inFlight && h !in staging {
          var e := Entry(h, nextConnectHeight + i);
          QueuedMore(needed, queue, hashes[..i], inFlight.Keys + staging.Keys, e);
          queue := queue + [e];
        }
        i := i + 1;
      }
      assert hashes[..i] == hashes;
    }

    method QueuedHashes() returns (hashes: set<Hash>)
      ensures hashes == HashesOf(needed)
    {
      hashes := {};
      var i := 0;
      while i < |needed|
        invariant 0 <= i <= |needed| && hashes == set k | 0 <= k < i :: needed[k].hash
      {
        hashes := hashes + {needed[i].hash};
        i := i + 1;
      }
    }

    /** Forgets everything and starts over from the chain tip. */
    method Reset(tipHeight: nat)
      requires headerIndex.Valid() && headerIndex.bestHeader.height < TWO32 && tipHeight < TWO32
      modifies this
      ensures Valid() && inFlight == map[] && staging == map[] && drained == {}
      ensures forall h :: tipHeight < h <= headerIndex.bestHeader.height ==>
        headerIndex.bestChainByHeight[h].hash in HashesOf(needed)
      ensures Closed(headerIndex.byHash) || DistinctHashes(headerIndex.bestChainByHeight) ==> Exact()
      ensures Fair()
    {
      hide Linked;
      hide Closed;
      hide Exclusive;
      NothingAsked();
      NothingQueued();
      needed, inFlight, staging, peerInFlight := [], map[], map[], map[];
      targets, drained := {}, {};
      Populate(tipHeight);
    }

    /** Moves up to `limit` queued blocks the peer has into flight. */
    method AssignWork(peer: string, limit: int, peerBestHeight: nat, now: int)
      returns (chosen: seq<Hash>, ghost taken: set<nat>)
      requires Valid()
      modifies this`needed, this`inFlight, this`peerInFlight
      ensures Valid() && (old(Exact()) ==> Exact()) && (old(Fair()) ==> Fair())
      ensures var room := Room(CountOf(old(peerInFlight), peer), limit, |old(inFlight)|, |staging|);
        && |chosen| <= room
        && (|chosen| < room ==> forall i :: 0 <= i < |needed| ==> Unsuitable(needed[i], inFlight, peerBestHeight))
      ensures Moved(old(needed), old(inFlight), old(peerInFlight), peer, peerBestHeight, now, needed, inFlight,
                    peerInFlight, chosen)
      ensures var room := Room(CountOf(old(peerInFlight), peer), limit, |old(inFlight)|, |staging|);
        TakenInOrder(old(needed), |old(needed)|, old(inFlight), peer, peerBestHeight, now, room, taken, needed,
                     inFlight, chosen)
    {
      hide Conserved;
      hide Exclusive;
      hide Moved;
      hide Unsuitable;
      hide Tallied;
      hide Bounded;
      hide Asked;
      hide TakenInOrder;
      NothingMoved(needed, inFlight, peerInFlight, peer, peerBestHeight, now);
      PassAll(needed, |needed|, inFlight, peer, peerBestHeight, now, 0);
      assert needed[..|needed|] == needed;
      chosen, taken := [], {};
      var count := if peer in peerInFlight then peerInFlight[peer] else 0;
      peerInFlight := peerInFlight[peer := count];
      if count >= MAX_IN_FLIGHT_PER_PEER || |inFlight| >= MAX_GLOBAL_IN_FLIGHT || |staging| >= MAX_STAGING_SIZE {
        return;
      }
      var available := MAX_IN_FLIGHT_PER_PEER - count;
      if available > limit {
        available := limit;
      }
      var globalAvailable := MAX_GLOBAL_IN_FLIGHT - |inFlight|;
      if available > globalAvailable {
        available := globalAvailable;
      }
      chosen, taken := Request(peer, count, available, peerBestHeight, now);
      if available < 0 {
        NoRoom(old(needed), old(inFlight), peer, peerBestHeight, now, available, taken, needed, inFlight, chosen);
      }
      CountedOnce(needed, old(needed), old(inFlight), old(peerInFlight), peer, peerBestHeight, now, inFlight,
                  peerInFlight, chosen);
    }

    /** Moves queued blocks into flight, and counts them for the peer. */
    method Request(peer: string, count: int, available: int, peerBestHeight: nat, now: int)
      returns (chosen: seq<Hash>, ghost taken: set<nat>)
      requires Valid() && count == CountOf(peerInFlight, peer) && |staging| < MAX_STAGING_SIZE
      requires |inFlight| < MAX_GLOBAL_IN_FLIGHT && |inFlight| + available <= MAX_GLOBAL_IN_FLIGHT
      requires count + available <= MAX_IN_FLIGHT_PER_PEER
      modifies this`needed, this`inFlight, this`peerInFlight
      ensures Valid() && (old(Exact()) ==> Exact()) && (old(Fair()) ==> Fair())
      ensures |chosen| > 0 ==> |chosen| <= available
      ensures |chosen| < available ==> forall i :: 0 <= i < |needed| ==> Unsuitable(needed[i], inFlight, peerBestHeight)
      ensures Moved(old(needed), old(inFlight), old(peerInFlight), peer, peerBestHeight, now, needed, inFlight,
                    peerInFlight, chosen)
      ensures TakenInOrder(old(needed), |old(needed)|, old(inFlight), peer, peerBestHeight, now, available, taken,
                           needed, inFlight, chosen)
    {
      hide Conserved;
      hide Exclusive;
      hide Split;
      hide OnlyNew;
      hide Tallied;
      hide Bounded;
      hide Picked;
      hide TakenInOrder;
      chosen, taken := MoveToFlight(peer, available, peerBestHeight, now);
      SplitConserves(headerIndex.r, targets, old(needed), old(inFlight), needed, inFlight, chosen, staging, drained);
      if old(Fair()) {
        AskMore(old(peerInFlight), old(inFlight), inFlight, peer, peerBestHeight, now, |chosen|);
      }
      peerInFlight := peerInFlight[peer := count + |chosen|];
    }

    /** The scan over the queue. */
    method MoveToFlight(peer: string, available: int, peerBestHeight: nat, now: int)
      returns (chosen: seq<Hash>, ghost taken: set<nat>)
      modifies this`needed, this`inFlight
      ensures Split(old(needed), old(inFlight), needed, inFlight, chosen) && |inFlight| == |old(inFlight)| + |chosen|
      ensures |chosen| > 0 ==> |chosen| <= available
      ensures OnlyNew(old(inFlight), inFlight, peer, peerBestHeight, now)
      ensures |chosen| < available ==> forall i :: 0 <= i < |needed| ==> Unsuitable(needed[i], inFlight, peerBestHeight)
      ensures Picked(old(needed), needed, chosen)
      ensures TakenInOrder(old(needed), |old(needed)|, old(inFlight), peer, peerBestHeight, now, available, taken,
                           needed, inFlight, chosen)
    {
      hide Split;
      hide OnlyNew;
      hide Picked;
      hide TakenInOrder;
      NothingPicked([]);
      chosen, taken := [], {};
      TakeNone(needed, inFlight, peer, peerBestHeight, now, available);
      var remaining: seq<Entry> := [];
      var i := 0;
      SplitStart(inFlight, peer, peerBestHeight, now);
      while i < |needed|
        invariant 0 <= i <= |needed| && needed == old(needed)
        invariant Split(needed[..i], old(inFlight), remaining, inFlight, chosen)
        invariant |chosen| > 0 ==> |chosen| <= available
        invariant Picked(needed[..i], remaining, chosen)
        invariant TakenInOrder(needed, i, old(inFlight), peer, peerBestHeight, now, available, taken, remaining,
                               inFlight, chosen)
        invariant OnlyNew(old(inFlight), inFlight, peer, peerBestHeight, now)
        invariant |chosen| < available ==>
          forall k :: 0 <= k < |remaining| ==> Unsuitable(remaining[k], inFlight, peerBestHeight)
      {
        var entry := needed[i];
        assert needed[..i + 1] == needed[..i] + [entry];
        PickNext(needed[..i], remaining, chosen, entry);
        if |chosen| >= available || entry.hash in inFlight || entry.height > peerBestHeight {
          SplitKeep(needed[..i], old(inFlight), remaining, inFlight, chosen, entry);
          PassNext(needed, i, old(inFlight), peer, peerBestHeight, now, available, taken, remaining, inFlight, chosen);
          remaining := remaining + [entry];
        } else {
          var request := InFlight(entry.hash, entry.height, peer, now);
          SplitMove(needed[..i], old(inFlight), remaining, inFlight, chosen, entry, request);
          OldStay(old(inFlight), inFlight, peer, peerBestHeight, now);
          TakeNext(needed, i, old(inFlight), peer, peerBestHeight, now, available, taken, remaining, inFlight, chosen);
          MoreNew(old(inFlight), inFlight, peer, peerBestHeight, now, request);
          taken := taken + {i};
          inFlight := inFlight[entry.hash := request];
          chosen := chosen + [entry.hash];
        }
        i := i + 1;
      }
      assert needed[..i] == needed;
      SplitSize(needed, old(inFlight), remaining, inFlight, chosen);
      needed := remaining;
    }

    /** Takes a block that was asked for into staging; a block with another header goes
        back to the queue. */
    method BlockReceived(hash: Hash, block: Block, peer: string) returns (expected: bool)
      requires Valid()
      modifies this`needed, this`inFlight, this`staging, this`peerInFlight
      ensures Valid()
      ensures old(Exact()) ==> Exact()
      ensures expected == (hash in old(inFlight) && headerIndex.r.blockHash(block.header) == hash)
      ensures expected ==>
        && inFlight == old(inFlight) - {hash} && staging == old(staging)[hash := Staged(block, peer)]
        && needed == old(needed)
      ensures !expected && hash in old(inFlight) ==>
        && inFlight == old(inFlight) - {hash} && staging == old(staging)
        && needed == old(needed) + [Entry(hash, old(inFlight)[hash].height)]
      ensures hash !in old(inFlight) ==>
        && inFlight == old(inFlight) && staging == old(staging)
        && needed == old(needed) && peerInFlight == old(peerInFlight)
      ensures hash in old(inFlight) ==> peerInFlight == old(peerInFlight)[peer := CountOf(old(peerInFlight), peer) - 1]
      ensures old(Fair()) ==> (Fair() <==> hash !in old(inFlight) || old(inFlight)[hash].peer == peer)
    {
      hide Conserved;
      hide Exclusive;
      hide Tallied;
      hide Bounded;
      if hash !in inFlight {
        return false;
      }
      var entry := inFlight[hash];
      if Fair() {
        AskLess(peerInFlight, inFlight, hash, peer);
      }
      var count := if peer in peerInFlight then peerInFlight[peer] else 0;
      peerInFlight := peerInFlight[peer := count - 1];
      if headerIndex.r.blockHash(block.header) != hash {
        BackToQueue(hash, entry.height);
        return false;
      }
      FlightToStaging(headerIndex.r, targets, needed, inFlight, staging, drained, hash, Staged(block, peer));
      inFlight := inFlight - {hash};
      staging := staging[hash := Staged(block, peer)];
      expected := true;
    }

    /** Hands on the staged blocks that come next on the best header chain, in order of
        height without gaps. If the next one is missing while staging is more than half
        full, staging is put back into the queue. */
    method DrainReady() returns (ready: seq<Staged>, ghost flushed: seq<Hash>)
      requires Valid() && headerIndex.Valid()
      modifies this`needed, this`staging, this`nextConnectHeight, this`drained
      ensures Valid()
      ensures old(Exact()) ==> Exact()
      ensures nextConnectHeight == old(nextConnectHeight) + |ready|
      ensures forall i :: 0 <= i < |ready| ==>
        NextOnChain(headerIndex.r, headerIndex.bestChainByHeight, old(nextConnectHeight) + i, old(staging), ready[i])
      ensures DrainedTo(headerIndex.bestChainByHeight, old(nextConnectHeight), |ready|, old(staging), old(needed),
                        staging, needed, flushed)
      ensures targets == old(targets) && (old(Fair()) ==> Fair())
    {
      hide Linked;
      hide Line;
      hide RejectedOk;
      hide Conserved;
      hide Exclusive;
      hide Tallied;
      hide Bounded;
      hide Rest;
      hide DrainedTo;
      hide Flushed;
      hide NextOnChain;
      ready, flushed := [], [];
      NoneTaken(staging, headerIndex.bestChainByHeight, nextConnectHeight);
      while true
        invariant Valid() && (old(Exact()) ==> Exact()) && targets == old(targets) && needed == old(needed)
        invariant nextConnectHeight == old(nextConnectHeight) + |ready|
        invariant |ready| > 0 ==> nextConnectHeight <= |headerIndex.bestChainByHeight|
        invariant staging == Rest(old(staging), headerIndex.bestChainByHeight, old(nextConnectHeight), |ready|)
        invariant forall i :: 0 <= i < |ready| ==>
          NextOnChain(headerIndex.r, headerIndex.bestChainByHeight, old(nextConnectHeight) + i, old(staging), ready[i])
        decreases |staging|
      {
        ghost var rest := staging;
        if nextConnectHeight >= |headerIndex.bestChainByHeight| {
          DrainEnds(headerIndex.bestChainByHeight, old(nextConnectHeight), |ready|, old(staging), rest, old(needed),
                    staging, needed, flushed);
          break;
        }
        var hash := headerIndex.bestChainByHeight[nextConnectHeight].hash;
        if hash !in staging {
          if |staging| > MAX_STAGING_SIZE / 2 {
            flushed := FlushStaging();
          }
          DrainEnds(headerIndex.bestChainByHeight, old(nextConnectHeight), |ready|, old(staging), rest, old(needed),
                    staging, needed, flushed);
          break;
        }
        RestMore(old(staging), headerIndex.bestChainByHeight, old(nextConnectHeight), |ready|);
        RestWithin(old(staging), headerIndex.bestChainByHeight, old(nextConnectHeight), |ready|, hash);
        var staged := HandOn(hash);
        StagedNext(headerIndex.r, headerIndex.bestChainByHeight, nextConnectHeight, old(staging), staged);
        ready := ready + [staged];
        nextConnectHeight := nextConnectHeight + 1;
      }
    }

    method HandOn(hash: Hash) returns (staged: Staged)
      requires Valid() && hash in staging
      modifies this`staging, this`drained
      ensures Valid() && (old(Exact()) ==> Exact())
      ensures staging == old(staging) - {hash} && |staging| < |old(staging)|
      ensures staged == old(staging)[hash] && headerIndex.r.blockHash(staged.block.header) == hash
    {
      hide Conserved;
      hide Exclusive;
      StagingToDrained(headerIndex.r, targets, needed, inFlight, staging, drained, hash);
      staged := staging[hash];
      staging := staging - {hash};
      drained := drained + {hash};
    }

    method FlushStaging() returns (ghost flushed: seq<Hash>)
      requires Valid()
      modifies this`needed, this`staging
      ensures Valid() && staging == map[]
      ensures old(Exact()) ==> Exact()
      ensures Flushed(old(staging), staging, flushed, old(needed), needed)
    {
      hide Conserved;
      hide Exclusive;
      hide Flushed;
      flushed := [];
      NothingFlushed(staging, needed);
      while staging != map[]
        invariant Valid() && (old(Exact()) ==> Exact()) && Flushed(old(staging), staging, flushed, old(needed), needed)
        decreases |staging|
      {
        var hash :| hash in staging;
        RemoveSize(staging, hash);
        FlushMore(old(staging), staging, flushed, old(needed), needed, hash);
        flushed := flushed + [hash];
        StagingToQueue(headerIndex.r, targets, needed, inFlight, staging, drained, Entry(hash, 0));
        needed := needed + [Entry(hash, 0)];
        staging := staging - {hash};
      }
    }

    /** Queues a drained block again after it failed to connect. */
    method RequeueBlock(hash: Hash, height: nat)
      requires Valid()
      modifies this`needed, this`staging, this`targets, this`drained
      ensures Valid() && targets == old(targets) + {hash} && needed == old(needed) + [Entry(hash, height)]
      ensures staging == old(staging) - {hash} && (old(Fair()) ==> Fair())
      ensures old(Exact()) ==> (Exact() <==> hash !in HashesOf(old(needed)) && hash !in inFlight)
      ensures old(Exact()) && hash in old(drained) ==> Exact() && targets == old(targets)
    {
      hide Conserved;
      hide Exclusive;
      hide Tallied;
      hide Bounded;
      hide HashesOf;
      QueueAgain(headerIndex.r, targets, needed, inFlight, staging, drained, Entry(hash, height));
      assert hash in targets ==> targets + {hash} == targets;
      if Exact() {
        QueueAgainExclusive(needed, inFlight, staging, drained, Entry(hash, height));
      }
      staging := staging - {hash};
      needed := needed + [Entry(hash, height)];
      drained := drained - {hash};
      targets := targets + {hash};
    }

    /** Puts requests that have been waiting too long back into the queue. */
    method HandleTimeout(now: int) returns (timedOut: seq<InFlight>, ghost late: seq<Hash>)
      requires Valid()
      modifies this`needed, this`inFlight, this`peerInFlight
      ensures Valid()
      ensures Lists(late, set h | h in old(inFlight) && now - old(inFlight)[h].requestedAt > REQUEST_TIMEOUT)
      ensures Requests(old(inFlight), late, timedOut) && Returns(old(inFlight), late, old(needed), needed)
      ensures old(Exact()) ==> Exact()
      ensures old(Fair()) ==> Fair()
      ensures var flight := old(inFlight);
        inFlight == map h | h in flight && now - flight[h].requestedAt <= REQUEST_TIMEOUT :: flight[h]
    {
      hide Conserved;
      hide Exclusive;
      hide Tallied;
      hide Bounded;
      timedOut, late := [], [];
      ListsNothing(inFlight, needed);
      var todo := inFlight.Keys;
      while todo != {}
        invariant Valid() && (old(Exact()) ==> Exact()) && (old(Fair()) ==> Fair()) && todo <= inFlight.Keys
        invariant forall h :: h in inFlight ==> h in old(inFlight) && inFlight[h] == old(inFlight)[h]
        invariant forall h :: h in old(inFlight) ==>
          (h in inFlight <==> h in todo || now - old(inFlight)[h].requestedAt <= REQUEST_TIMEOUT)
        invariant Lists(late, old(inFlight).Keys - inFlight.Keys)
        invariant Requests(old(inFlight), late, timedOut) && Returns(old(inFlight), late, old(needed), needed)
        decreases todo
      {
        var hash :| hash in todo;
        todo := todo - {hash};
        var entry := inFlight[hash];
        if now - entry.requestedAt > REQUEST_TIMEOUT {
          RequestsMore(old(inFlight), late, timedOut, hash);
          timedOut := timedOut + [entry];
          if Fair() {
            AskLess(peerInFlight, inFlight, hash, entry.peer);
          }
          var count := if entry.peer in peerInFlight then peerInFlight[entry.peer] else 0;
          peerInFlight := peerInFlight[entry.peer := count - 1];
          ListsMore(late, old(inFlight).Keys - inFlight.Keys, hash);
          ReturnsMore(old(inFlight), late, old(needed), needed, hash);
          late := late + [hash];
          BackToQueue(hash, entry.height);
        }
      }
      assert old(inFlight).Keys - inFlight.Keys
             == set h | h in old(inFlight) && now - old(inFlight)[h].requestedAt > REQUEST_TIMEOUT;
    }

    /** Puts the requests of a disconnected peer back into the queue. */
    method RemovePeer(peer: string) returns (ghost dropped: seq<Hash>)
      requires Valid()
      modifies this`needed, this`inFlight, this`peerInFlight
      ensures Valid()
      ensures Lists(dropped, set h | h in old(inFlight) && old(inFlight)[h].peer == peer)
      ensures Returns(old(inFlight), dropped, old(needed), needed) && peerInFlight == old(peerInFlight) - {peer}
      ensures old(Exact()) ==> Exact()
      ensures old(Fair()) ==> Fair()
      ensures inFlight == map h | h in old(inFlight) && old(inFlight)[h].peer != peer :: old(inFlight)[h]
    {
      hide Conserved;
      hide Exclusive;
      hide Tallied;
      hide Bounded;
      dropped := [];
      ListsNothing(inFlight, needed);
      var todo := inFlight.Keys;
      while todo != {}
        invariant Valid() && (old(Exact()) ==> Exact()) && todo <= inFlight.Keys && peerInFlight == old(peerInFlight)
        invariant forall h :: h in inFlight ==> h in old(inFlight) && inFlight[h] == old(inFlight)[h]
        invariant forall h :: h in old(inFlight) ==> (h in inFlight <==> h in todo || old(inFlight)[h].peer != peer)
        invariant Lists(dropped, old(inFlight).Keys - inFlight.Keys)
        invariant Returns(old(inFlight), dropped, old(needed), needed)
        decreases todo
      {
        var hash :| hash in todo;
        todo := todo - {hash};
        var entry := inFlight[hash];
        if entry.peer == peer {
          ListsMore(dropped, old(inFlight).Keys - inFlight.Keys, hash);
          ReturnsMore(old(inFlight), dropped, old(needed), needed, hash);
          dropped := dropped + [hash];
          BackToQueue(hash, entry.height);
        }
      }
      assert old(inFlight).Keys - inFlight.Keys == set h | h in old(inFlight) && old(inFlight)[h].peer == peer;
      if old(Fair()) {
        AskNone(peerInFlight, old(inFlight), inFlight, peer);
      }
      peerInFlight := peerInFlight - {peer};
    }

    method BackToQueue(hash: Hash, height: nat)
      requires Valid() && hash in inFlight
      modifies this`needed, this`inFlight
      ensures Valid() && inFlight == old(inFlight) - {hash} && needed == old(needed) + [Entry(hash, height)]
      ensures old(Exact()) ==> Exact()
    {
      hide Conserved;
      hide Exclusive;
      FlightToQueue(headerIndex.r, targets, needed, inFlight, staging, drained, Entry(hash, height));
      needed := needed + [Entry(hash, height)];
      inFlight := inFlight - {hash};
    }

    /** Moves the next height up after blocks were connected. */
    method UpdateNextConnectHeight(height: nat)
      modifies this`nextConnectHeight
      ensures nextConnectHeight >= old(nextConnectHeight) && nextConnectHeight > height
      ensures nextConnectHeight == old(nextConnectHeight) || nextConnectHeight == height + 1
    {
      if height >= nextConnectHeight {
        nextConnectHeight := height + 1;
      }
    }

    /** Complete means that every target was handed on. */
    method IsComplete() returns (complete: bool)
      requires Valid()
      ensures complete <==> |needed| == 0 && inFlight == map[] && staging == map[]
      ensures complete ==> targets == drained
      ensures Exact() && targets == drained ==> complete
    {
      complete := |needed| == 0 && |inFlight| == 0 && |staging| == 0;
      assert |needed| > 0 ==> needed[0].hash in HashesOf(needed);
      if |inFlight| > 0 {
        var h :| h in inFlight;
      }
      if |staging| > 0 {
        var h :| h in staging;
      }
    }
  }

  /** The list names exactly the hashes of the set, each once. */
  ghost predicate Lists(hs: seq<Hash>, s: set<Hash>) {
    && (forall h :: h in hs <==> h in s)
    && (forall i, j :: 0 <= i < j < |hs| ==> hs[i] != hs[j])
  }

  /** The list holds the requests for these hashes, in this order. */
  ghost predicate Requests(flight: map<Hash, InFlight>, hs: seq<Hash>, list: seq<InFlight>) {
    |list| == |hs| && forall i :: 0 <= i < |hs| ==> hs[i] in flight && list[i] == flight[hs[i]]
  }

  /** The queue grew by these hashes, in this order and each with the height it was asked
      for under. */
  ghost predicate Returns(flight: map<Hash, InFlight>, hs: seq<Hash>, queue0: seq<Entry>, queue: seq<Entry>) {
    && |queue| == |queue0| + |hs| && queue[..|queue0|] == queue0
    && (forall i :: 0 <= i < |hs| ==>
          hs[i] in flight && queue[|queue0| + i] == Entry(hs[i], flight[hs[i]].height))
  }

  /** The queue grew by these hashes, in this order and without their heights. */
  ghost predicate Unplaced(hs: seq<Hash>, queue0: seq<Entry>, queue: seq<Entry>) {
    && |queue| == |queue0| + |hs| && queue[..|queue0|] == queue0
    && (forall i :: 0 <= i < |hs| ==> queue[|queue0| + i] == Entry(hs[i], 0))
  }

  /** What is left of staging when the blocks of n heights of the line are taken out. */
  ghost function Rest(staging: map<Hash, Staged>, line: seq<HeaderNode>, from: nat, n: nat): map<Hash, Staged>
    requires n == 0 || from + n <= |line|
  {
    if n == 0 then staging else Rest(staging, line, from, n - 1) - {line[from + n - 1].hash}
  }

  /** What left staging is listed and back in the queue. */
  ghost predicate Flushed(staging0: map<Hash, Staged>, staging: map<Hash, Staged>, hs: seq<Hash>, queue0: seq<Entry>,
                          queue: seq<Entry>) {
    staging.Keys <= staging0.Keys && Lists(hs, staging0.Keys - staging.Keys) && Unplaced(hs, queue0, queue)
  }

  lemma NothingFlushed(staging: map<Hash, Staged>, queue: seq<Entry>)
    ensures Flushed(staging, staging, [], queue, queue)
  {
  }

  lemma FlushMore(staging0: map<Hash, Staged>, staging: map<Hash, Staged>, hs: seq<Hash>, queue0: seq<Entry>,
                  queue: seq<Entry>, h: Hash)
    requires Flushed(staging0, staging, hs, queue0, queue) && h in staging
    ensures Flushed(staging0, staging - {h}, hs + [h], queue0, queue + [Entry(h, 0)])
  {
    hide Lists;
    ListsMore(hs, staging0.Keys - staging.Keys, h);
    assert staging0.Keys - (staging - {h}).Keys == (staging0.Keys - staging.Keys) + {h};
  }

  /** The blocks of n heights were handed on. The next one is missing, and if staging was
      still more than half full it was put back into the queue; or the line ends there. */
  ghost predicate DrainedTo(line: seq<HeaderNode>, from: nat, n: nat, staging0: map<Hash, Staged>, queue0: seq<Entry>,
                            staging: map<Hash, Staged>, queue: seq<Entry>, flushed: seq<Hash>) {
    && (n == 0 || from + n <= |line|)
    && var rest := Rest(staging0, line, from, n);
    && (from + n < |line| ==> line[from + n].hash !in rest)
    && (if from + n < |line| && |rest| > 512
        then staging == map[] && Lists(flushed, rest.Keys) && Unplaced(flushed, queue0, queue)
        else staging == rest && queue == queue0)
  }

  lemma DrainEnds(line: seq<HeaderNode>, from: nat, n: nat, staging0: map<Hash, Staged>, rest: map<Hash, Staged>,
                  queue0: seq<Entry>, staging: map<Hash, Staged>, queue: seq<Entry>, flushed: seq<Hash>)
    requires (n == 0 || from + n <= |line|) && rest == Rest(staging0, line, from, n)
    requires from + n < |line| ==> line[from + n].hash !in rest
    requires if from + n < |line| && |rest| > MAX_STAGING_SIZE / 2
             then staging == map[] && Flushed(rest, staging, flushed, queue0, queue)
             else staging == rest && queue == queue0
    ensures DrainedTo(line, from, n, staging0, queue0, staging, queue, flushed)
  {
    hide Lists;
    hide Unplaced;
    assert staging == map[] ==> rest.Keys - staging.Keys == rest.Keys;
  }

  lemma NoneTaken(staging: map<Hash, Staged>, line: seq<HeaderNode>, from: nat)
    ensures Rest(staging, line, from, 0) == staging
  {
  }

  lemma {:induction false} RestWithin(staging: map<Hash, Staged>, line: seq<HeaderNode>, from: nat, n: nat, h: Hash)
    requires (n == 0 || from + n <= |line|) && h in Rest(staging, line, from, n)
    ensures h in staging && Rest(staging, line, from, n)[h] == staging[h]
  {
    if n > 0 {
      RestWithin(staging, line, from, n - 1, h);
    }
  }

  lemma StagedNext(r: Rules, line: seq<HeaderNode>, height: nat, staging: map<Hash, Staged>, b: Staged)
    requires height < |line| && line[height].hash in staging && b == staging[line[height].hash]
    requires r.blockHash(b.block.header) == line[height].hash
    ensures NextOnChain(r, line, height, staging, b)
  {
  }

  lemma RestMore(staging: map<Hash, Staged>, line: seq<HeaderNode>, from: nat, n: nat)
    requires from + n < |line|
    ensures Rest(staging, line, from, n + 1) == Rest(staging, line, from, n) - {line[from + n].hash}
  {
  }

  lemma ListsNothing(flight: map<Hash, InFlight>, queue: seq<Entry>)
    ensures Lists([], {}) && Requests(flight, [], []) && Returns(flight, [], queue, queue)
  {
  }

  lemma ListsMore(hs: seq<Hash>, s: set<Hash>, h: Hash)
    requires Lists(hs, s) && h !in s
    ensures Lists(hs + [h], s + {h})
  {
  }

  lemma RequestsMore(flight: map<Hash, InFlight>, hs: seq<Hash>, list: seq<InFlight>, h: Hash)
    requires Requests(flight, hs, list) && h in flight
    ensures Requests(flight, hs + [h], list + [flight[h]])
  {
  }

  lemma ReturnsMore(flight: map<Hash, InFlight>, hs: seq<Hash>, queue0: seq<Entry>, queue: seq<Entry>, h: Hash)
    requires Returns(flight, hs, queue0, queue) && h in flight
    ensures Returns(flight, hs + [h], queue0, queue + [Entry(h, flight[h].height)])
  {
  }

  /** The block of the best header chain at this height, as it was staged. */
  ghost predicate NextOnChain(r: Rules, line: seq<HeaderNode>, height: nat, staging: map<Hash, Staged>, b: Staged) {
    && height < |line| && line[height].hash in staging && b == staging[line[height].hash]
    && r.blockHash(b.block.header) == line[height].hash
  }

  // ---------- Requests per peer ----------

  /** The requests in flight to a peer. */
  ghost function Asked(flight: map<Hash, InFlight>, peer: string): set<Hash> {
    set h | h in flight && flight[h].peer == peer
  }

  ghost function CountOf(counts: map<string, int>, peer: string): int {
    if peer in counts then counts[peer] else 0
  }

  ghost predicate Tallied(counts: map<string, int>, flight: map<Hash, InFlight>) {
    forall p: string :: CountOf(counts, p) == |Asked(flight, p)|
  }

  ghost predicate Bounded(flight: map<Hash, InFlight>) {
    forall p: string :: |Asked(flight, p)| <= MAX_IN_FLIGHT_PER_PEER
  }

  /** How many requests the limits leave room for. */
  ghost function Room(count: int, limit: int, inFlight: int, staging: int): nat {
    if count >= MAX_IN_FLIGHT_PER_PEER || limit < 0 then 0
    else if inFlight >= MAX_GLOBAL_IN_FLIGHT || staging >= MAX_STAGING_SIZE then 0
    else Least(MAX_IN_FLIGHT_PER_PEER - count, Least(limit, MAX_GLOBAL_IN_FLIGHT - inFlight))
  }

  ghost function Least(a: nat, b: nat): nat {
    if a < b then a else b
  }

  lemma NothingAsked()
    ensures Tallied(map[], map[]) && Bounded(map[])
  {
    forall p: string ensures Asked(map[], p) == {} {
    }
  }

  lemma AskMore(counts: map<string, int>, flight0: map<Hash, InFlight>, flight: map<Hash, InFlight>, peer: string,
                peerBestHeight: nat, now: int, n: nat)
    requires Tallied(counts, flight0) && Bounded(flight0) && OnlyNew(flight0, flight, peer, peerBestHeight, now)
    requires |flight| == |flight0| + n && (n > 0 ==> CountOf(counts, peer) + n <= MAX_IN_FLIGHT_PER_PEER)
    ensures Tallied(counts[peer := CountOf(counts, peer) + n], flight) && Bounded(flight)
  {
    var counts' := counts[peer := CountOf(counts, peer) + n];
    forall p: string ensures CountOf(counts', p) == |Asked(flight, p)| <= MAX_IN_FLIGHT_PER_PEER {
      assert CountOf(counts, p) == |Asked(flight0, p)|;
      AskedOf(flight0, flight, peer, peerBestHeight, now, p);
    }
  }

  lemma AskedOf(flight0: map<Hash, InFlight>, flight: map<Hash, InFlight>, peer: string, peerBestHeight: nat, now: int,
                p: string)
    requires OnlyNew(flight0, flight, peer, peerBestHeight, now)
    ensures |Asked(flight, p)| == |Asked(flight0, p)| + if p == peer then |flight| - |flight0| else 0
  {
    var asked0, asked := Asked(flight0, p), Asked(flight, p);
    if p == peer {
      assert asked - asked0 == flight.Keys - flight0.Keys;
      DifferenceSize(asked0, asked);
      DifferenceSize(flight0.Keys, flight.Keys);
    } else {
      assert asked == asked0;
    }
  }

  /** One request fewer, counted for the given peer: right exactly if it was asked. */
  lemma AskLess(counts: map<string, int>, flight: map<Hash, InFlight>, hash: Hash, peer: string)
    requires Tallied(counts, flight) && Bounded(flight) && hash in flight
    ensures Bounded(flight - {hash})
    ensures Tallied(counts[peer := CountOf(counts, peer) - 1], flight - {hash}) <==> flight[hash].peer == peer
  {
    var counts', asked := counts[peer := CountOf(counts, peer) - 1], flight[hash].peer;
    forall p: string ensures |Asked(flight - {hash}, p)| == |Asked(flight, p)| - if p == asked then 1 else 0 {
      assert Asked(flight - {hash}, p) == Asked(flight, p) - if p == asked then {hash} else {};
    }
    assert CountOf(counts', peer) == CountOf(counts, peer) - 1;
    forall p: string ensures CountOf(counts', p) == |Asked(flight, p)| - if p == peer then 1 else 0 {
      assert CountOf(counts, p) == |Asked(flight, p)|;
    }
  }

  lemma AskNone(counts: map<string, int>, flight0: map<Hash, InFlight>, flight: map<Hash, InFlight>, peer: string)
    requires Tallied(counts, flight0) && Bounded(flight0)
    requires flight == map h | h in flight0 && flight0[h].peer != peer :: flight0[h]
    ensures Tallied(counts - {peer}, flight) && Bounded(flight)
  {
    forall p: string ensures CountOf(counts - {peer}, p) == |Asked(flight, p)| <= MAX_IN_FLIGHT_PER_PEER {
      assert CountOf(counts, p) == |Asked(flight0, p)|;
      assert Asked(flight, p) == if p == peer then {} else Asked(flight0, p);
    }
  }

  // ---------- The scan ----------

  /** What was chosen left the queue. */
  ghost predicate Picked(needed0: seq<Entry>, needed: seq<Entry>, chosen: seq<Hash>) {
    && |needed0| == |needed| + |chosen|
    && (forall e :: e in needed ==> e in needed0)
    && (forall h :: h in chosen ==> h in HashesOf(needed0))
  }

  lemma NothingPicked(needed: seq<Entry>)
    ensures Picked(needed, needed, [])
  {
  }

  lemma PickNext(needed0: seq<Entry>, needed: seq<Entry>, chosen: seq<Hash>, e: Entry)
    requires Picked(needed0, needed, chosen)
    ensures Picked(needed0 + [e], needed + [e], chosen) && Picked(needed0 + [e], needed, chosen + [e.hash])
  {
    hide HashesOf;
    HashesAppend(needed0, e);
  }

  /** The queue was split into what remains and what went into flight. */
  ghost predicate Split(needed0: seq<Entry>, flight0: map<Hash, InFlight>, needed: seq<Entry>, flight: map<Hash,
                        InFlight>, chosen: seq<Hash>) {
    && (forall h :: h in HashesOf(needed) || h in flight <==> h in HashesOf(needed0) || h in flight0)
    && (forall h :: h in HashesOf(needed) ==> h in HashesOf(needed0))
    && |flight| == |flight0| + |chosen|
    && (forall h :: h in flight <==> h in flight0 || h in chosen)
    && (NoRepeat(needed0) && Outside(flight0, needed0) ==> NoRepeat(needed) && Outside(flight, needed))
  }

  ghost predicate Outside(flight: map<Hash, InFlight>, needed: seq<Entry>) {
    forall h :: h in flight ==> h !in HashesOf(needed)
  }

  /** Old requests are unchanged, new ones are to this peer for blocks it has. */
  ghost predicate OnlyNew(flight0: map<Hash, InFlight>, flight: map<Hash, InFlight>, peer: string, peerBestHeight: nat,
                          now: int) {
    && (forall h :: h in flight0 ==> h in flight && flight[h] == flight0[h])
    && (forall h :: h in flight && h !in flight0 ==>
          flight[h] == InFlight(h, flight[h].height, peer, now) && flight[h].height <= peerBestHeight)
  }

  /** The chosen hashes, and only they, moved from the queue into flight, and were counted. */
  ghost predicate Moved(needed0: seq<Entry>, flight0: map<Hash, InFlight>, counts0: map<string, int>, peer: string,
                        peerBestHeight: nat, now: int, needed: seq<Entry>, flight: map<Hash, InFlight>,
                        counts: map<string, int>, chosen: seq<Hash>) {
    && Picked(needed0, needed, chosen)
    && OnlyNew(flight0, flight, peer, peerBestHeight, now)
    && (forall h :: h in flight <==> h in flight0 || h in chosen)
    && |flight| == |flight0| + |chosen|
    && counts == counts0[peer := CountOf(counts0, peer) + |chosen|]
  }

  // ---------- Which entries are taken ----------

  /** The entries among the first n whose position is in the set, or is not. */
  ghost function At(needed: seq<Entry>, s: set<nat>, n: nat, inside: bool): seq<Entry>
    requires n <= |needed|
  {
    if n == 0 then []
    else At(needed, s, n - 1, inside) + if (n - 1 in s) == inside then [needed[n - 1]] else []
  }

  ghost function HashList(es: seq<Entry>): seq<Hash> {
    seq(|es|, i requires 0 <= i < |es| => es[i].hash)
  }

  /** The entry was asked for: it was not in flight and the peer has it. */
  ghost predicate AskedFor(e: Entry, flight0: map<Hash, InFlight>, flight: map<Hash, InFlight>, peer: string,
                           peerBestHeight: nat, now: int) {
    && e.hash !in flight0 && e.height <= peerBestHeight
    && e.hash in flight && flight[e.hash] == InFlight(e.hash, e.height, peer, now)
  }

  /** The first n entries were split by position: those taken went into flight in order,
      each with its height, and no entry was passed over that could have been taken. */
  ghost predicate TakenInOrder(needed0: seq<Entry>, n: nat, flight0: map<Hash, InFlight>, peer: string,
                               peerBestHeight: nat, now: int, available: int, taken: set<nat>, left: seq<Entry>,
                               flight: map<Hash, InFlight>, chosen: seq<Hash>)
    requires n <= |needed0|
  {
    && (forall i :: i in taken ==> i < n)
    && left == At(needed0, taken, n, false) && chosen == HashList(At(needed0, taken, n, true))
    && (forall i :: i in taken ==> AskedFor(needed0[i], flight0, flight, peer, peerBestHeight, now))
    && (forall i :: 0 <= i < n && i !in taken ==>
          || needed0[i].height > peerBestHeight || needed0[i].hash in flight
          || (|chosen| >= available && forall k :: k in taken ==> k < i))
  }

  lemma {:induction false} AtSame(needed: seq<Entry>, s: set<nat>, s': set<nat>, n: nat, inside: bool)
    requires n <= |needed| && forall i :: 0 <= i < n ==> (i in s <==> i in s')
    ensures At(needed, s, n, inside) == At(needed, s', n, inside)
  {
    if n > 0 {
      AtSame(needed, s, s', n - 1, inside);
    }
  }

  lemma TakeNone(needed: seq<Entry>, flight: map<Hash, InFlight>, peer: string, peerBestHeight: nat, now: int,
                 available: int)
    ensures TakenInOrder(needed, 0, flight, peer, peerBestHeight, now, available, {}, [], flight, [])
  {
  }

  lemma {:induction false} TakeNext(needed: seq<Entry>, n: nat, flight0: map<Hash, InFlight>, peer: string,
                                    peerBestHeight: nat, now: int, available: int, taken: set<nat>, left: seq<Entry>,
                                    flight: map<Hash, InFlight>, chosen: seq<Hash>)
    requires n < |needed| && |chosen| < available && needed[n].height <= peerBestHeight && needed[n].hash !in flight
    requires TakenInOrder(needed, n, flight0, peer, peerBestHeight, now, available, taken, left, flight, chosen)
    requires forall h :: h in flight0 ==> h in flight
    ensures var e := needed[n];
      TakenInOrder(needed, n + 1, flight0, peer, peerBestHeight, now, available, taken + {n}, left,
                   flight[e.hash := InFlight(e.hash, e.height, peer, now)], chosen + [e.hash])
  {
    AtSame(needed, taken, taken + {n}, n, true);
    AtSame(needed, taken, taken + {n}, n, false);
    assert HashList(At(needed, taken + {n}, n + 1, true)) == HashList(At(needed, taken, n, true)) + [needed[n].hash];
  }

  lemma {:induction false} PassNext(needed: seq<Entry>, n: nat, flight0: map<Hash, InFlight>, peer: string,
                                    peerBestHeight: nat, now: int, available: int, taken: set<nat>, left: seq<Entry>,
                                    flight: map<Hash, InFlight>, chosen: seq<Hash>)
    requires n < |needed|
    requires |chosen| >= available || needed[n].height > peerBestHeight || needed[n].hash in flight
    requires TakenInOrder(needed, n, flight0, peer, peerBestHeight, now, available, taken, left, flight, chosen)
    ensures TakenInOrder(needed, n + 1, flight0, peer, peerBestHeight, now, available, taken, left + [needed[n]],
                         flight, chosen)
  {
  }

  lemma NoRoom(needed0: seq<Entry>, flight0: map<Hash, InFlight>, peer: string, peerBestHeight: nat, now: int,
               available: int, taken: set<nat>, left: seq<Entry>, flight: map<Hash, InFlight>, chosen: seq<Hash>)
    requires TakenInOrder(needed0, |needed0|, flight0, peer, peerBestHeight, now, available, taken, left, flight,
                          chosen)
    requires available < 0
    ensures TakenInOrder(needed0, |needed0|, flight0, peer, peerBestHeight, now, 0, taken, left, flight, chosen)
  {
  }

  /** Passing over everything when there is no room. */
  lemma {:induction false} PassAll(needed: seq<Entry>, n: nat, flight: map<Hash, InFlight>, peer: string,
                                   peerBestHeight: nat, now: int, available: int)
    requires available <= 0 && n <= |needed|
    ensures TakenInOrder(needed, n, flight, peer, peerBestHeight, now, available, {}, needed[..n], flight, [])
  {
    if n > 0 {
      PassAll(needed, n - 1, flight, peer, peerBestHeight, now, available);
      assert needed[..n] == needed[..n - 1] + [needed[n - 1]];
    }
  }

  lemma NothingMoved(needed: seq<Entry>, flight: map<Hash, InFlight>, counts: map<string, int>, peer: string,
                     peerBestHeight: nat, now: int)
    ensures Moved(needed, flight, counts, peer, peerBestHeight, now, needed, flight,
                  counts[peer := CountOf(counts, peer)], [])
    ensures Tallied(counts, flight) && Bounded(flight) ==> Tallied(counts[peer := CountOf(counts, peer)], flight)
  {
    if Tallied(counts, flight) && Bounded(flight) {
      AskMore(counts, flight, flight, peer, peerBestHeight, now, 0);
    }
  }

  lemma CountedOnce(needed: seq<Entry>, needed0: seq<Entry>, flight0: map<Hash, InFlight>, counts0: map<string, int>,
                    peer: string, peerBestHeight: nat, now: int, flight: map<Hash, InFlight>, counts: map<string, int>,
                    chosen: seq<Hash>)
    requires Moved(needed0, flight0, counts0[peer := CountOf(counts0, peer)], peer, peerBestHeight, now, needed, flight,
                   counts, chosen)
    ensures Moved(needed0, flight0, counts0, peer, peerBestHeight, now, needed, flight, counts, chosen)
  {
    hide Picked;
    hide OnlyNew;
    assert counts == counts0[peer := CountOf(counts0, peer) + |chosen|];
  }

  ghost predicate Unsuitable(e: Entry, flight: map<Hash, InFlight>, peerBestHeight: nat) {
    e.height > peerBestHeight || e.hash in flight
  }

  lemma OldStay(flight0: map<Hash, InFlight>, flight: map<Hash, InFlight>, peer: string, peerBestHeight: nat, now: int)
    requires OnlyNew(flight0, flight, peer, peerBestHeight, now)
    ensures forall h :: h in flight0 ==> h in flight
  {
  }

  lemma MoreNew(flight0: map<Hash, InFlight>, flight: map<Hash, InFlight>, peer: string, peerBestHeight: nat, now: int,
                e: InFlight)
    requires OnlyNew(flight0, flight, peer, peerBestHeight, now) && e.hash !in flight
    requires e.peer == peer && e.requestedAt == now && e.height <= peerBestHeight
    ensures OnlyNew(flight0, flight[e.hash := e], peer, peerBestHeight, now)
  {
  }

  lemma SplitStart(flight: map<Hash, InFlight>, peer: string, peerBestHeight: nat, now: int)
    ensures Split([], flight, [], flight, [])
    ensures OnlyNew(flight, flight, peer, peerBestHeight, now)
  {
  }

  lemma SplitSize(needed0: seq<Entry>, flight0: map<Hash, InFlight>, needed: seq<Entry>, flight: map<Hash, InFlight>,
                  chosen: seq<Hash>)
    requires Split(needed0, flight0, needed, flight, chosen)
    ensures |flight| == |flight0| + |chosen|
  {
  }

  lemma SplitKeep(needed0: seq<Entry>, flight0: map<Hash, InFlight>, needed: seq<Entry>, flight: map<Hash, InFlight>,
                  chosen: seq<Hash>, e: Entry)
    requires Split(needed0, flight0, needed, flight, chosen)
    ensures Split(needed0 + [e], flight0, needed + [e], flight, chosen)
  {
    hide HashesOf;
    HashesAppend(needed0, e);
    HashesAppend(needed, e);
    RepeatPrefix(needed0, e);
    Requeued(needed, e);
  }

  lemma SplitMove(needed0: seq<Entry>, flight0: map<Hash, InFlight>, needed: seq<Entry>, flight: map<Hash, InFlight>,
                  chosen: seq<Hash>, e: Entry, request: InFlight)
    requires Split(needed0, flight0, needed, flight, chosen) && e.hash !in flight
    ensures Split(needed0 + [e], flight0, needed, flight[e.hash := request], chosen + [e.hash])
  {
    hide HashesOf;
    hide NoRepeat;
    HashesAppend(needed0, e);
    RepeatPrefix(needed0, e);
    InsertSize(flight, e.hash, request);
  }

  lemma RepeatPrefix(es: seq<Entry>, e: Entry)
    ensures NoRepeat(es + [e]) ==> NoRepeat(es) && e.hash !in HashesOf(es)
  {
    if NoRepeat(es + [e]) {
      forall i | 0 <= i < |es| ensures es[i].hash != e.hash {
        assert (es + [e])[i] == es[i] && (es + [e])[|es|] == e;
      }
      forall i, j | 0 <= i < j < |es| ensures es[i].hash != es[j].hash {
        assert (es + [e])[i] == es[i] && (es + [e])[j] == es[j];
      }
    }
  }

  lemma SplitConserves(r: Rules, targets: set<Hash>, needed0: seq<Entry>, flight0: map<Hash, InFlight>,
                       needed: seq<Entry>, flight: map<Hash, InFlight>, chosen: seq<Hash>, staging: map<Hash, Staged>,
                       drained: set<Hash>)
    requires Conserved(r, targets, needed0, flight0, staging, drained)
    requires Split(needed0, flight0, needed, flight, chosen)
    requires |flight0| + |chosen| <= MAX_GLOBAL_IN_FLIGHT && |staging| < MAX_STAGING_SIZE
    ensures Conserved(r, targets, needed, flight, staging, drained)
    ensures forall h :: h in flight <==> h in flight0 || h in chosen
    ensures Exclusive(needed0, flight0, staging, drained) ==> Exclusive(needed, flight, staging, drained)
  {
    hide HashesOf;
    hide NoRepeat;
  }

  // ---------- Population ----------

  /** queue is the old queue with all hashes added that are not busy. */
  ghost predicate Queued(needed: seq<Entry>, queue: seq<Entry>, hashes: seq<Hash>, busy: set<Hash>) {
    && HashesOf(needed) <= HashesOf(queue)
    && (forall h :: h in HashesOf(queue) ==> h in HashesOf(needed) || (h in hashes && h !in busy))
    && (forall h :: h in hashes ==> h in HashesOf(queue) || h in busy)
    && (NoRepeat(needed) && Different(hashes) ==> NoRepeat(queue))
  }

  ghost predicate Different(hashes: seq<Hash>) {
    forall i, j :: 0 <= i < j < |hashes| ==> hashes[i] != hashes[j]
  }

  lemma DifferentPrefix(hashes: seq<Hash>, h: Hash)
    ensures Different(hashes + [h]) ==> Different(hashes) && h !in hashes
  {
    if Different(hashes + [h]) {
      forall i | 0 <= i < |hashes| ensures hashes[i] != h {
        assert (hashes + [h])[i] == hashes[i] && (hashes + [h])[|hashes|] == h;
      }
      forall i, j | 0 <= i < j < |hashes| ensures hashes[i] != hashes[j] {
        assert (hashes + [h])[i] == hashes[i] && (hashes + [h])[j] == hashes[j];
      }
    }
  }

  lemma QueuedMore(needed: seq<Entry>, queue: seq<Entry>, hashes: seq<Hash>, busy: set<Hash>, e: Entry)
    requires Queued(needed, queue, hashes, busy) && e.hash !in HashesOf(needed) && e.hash !in busy
    ensures Queued(needed, queue + [e], hashes + [e.hash], busy)
  {
    hide HashesOf;
    hide NoRepeat;
    hide Different;
    Requeued(queue, e);
    DifferentPrefix(hashes, e.hash);
  }

  lemma FetchedHashes(line: seq<HeaderNode>, tipHeight: nat, hashes: seq<Hash>)
    requires forall i :: 0 <= i < |hashes| ==> tipHeight + 1 + i < |line| && hashes[i] == line[tipHeight + 1 + i].hash
    requires |hashes| == if tipHeight + 1 < |line| then |line| - tipHeight - 1 else 0
    ensures forall h :: tipHeight < h < |line| ==> line[h].hash in hashes
    ensures forall x :: x in hashes ==> exists i :: tipHeight < i < |line| && line[i].hash == x
    ensures DistinctHashes(line) ==> Different(hashes)
  {
    forall h | tipHeight < h < |line| ensures line[h].hash in hashes {
      assert hashes[h - tipHeight - 1] == line[h].hash;
    }
  }

  /** What the queue and the targets are after the hashes above the tip were queued. */
  lemma Populated(r: Rules, line: seq<HeaderNode>, tip: nat, hashes: seq<Hash>, targets: set<Hash>, needed: seq<Entry>,
                  queue: seq<Entry>, inFlight: map<Hash, InFlight>, staging: map<Hash, Staged>, drained: set<Hash>,
                  targets': set<Hash>)
    requires forall i :: 0 <= i < |hashes| ==> tip + 1 + i < |line| && hashes[i] == line[tip + 1 + i].hash
    requires |hashes| == if tip + 1 < |line| then |line| - tip - 1 else 0
    requires Conserved(r, targets, needed, inFlight, staging, drained)
    requires Queued(needed, queue, hashes, inFlight.Keys + staging.Keys)
    requires OldOrFrom(needed, queue, tip + 1, hashes, |hashes|)
    requires targets' == HashesOf(queue) + inFlight.Keys + staging.Keys
    ensures Conserved(r, targets', queue, inFlight, staging, {})
    ensures forall h :: tip < h < |line| ==> line[h].hash in targets'
    ensures forall x :: x in targets' ==> x in targets || exists i :: tip < i < |line| && line[i].hash == x
    ensures Exclusive(needed, inFlight, staging, drained) && DistinctHashes(line) ==>
      Exclusive(queue, inFlight, staging, {})
    ensures OldOrAbove(needed, queue, tip, line) && (Upto(needed, |line| - 1) ==> Upto(queue, |line| - 1))
  {
    hide Conserved;
    hide Exclusive;
    hide Queued;
    hide OldOrFrom;
    hide OldOrAbove;
    hide HashesOf;
    hide Upto;
    hide DistinctHashes;
    hide Different;
    FetchedHashes(line, tip, hashes);
    PopulatedConserves(r, targets, needed, queue, inFlight, staging, drained, hashes, targets');
    PopulatedExclusive(needed, queue, inFlight, staging, drained, hashes);
    PopulatedHeights(needed, queue, tip + 1, hashes, line);
  }

  lemma PopulatedConserves(r: Rules, targets: set<Hash>, needed: seq<Entry>, queue: seq<Entry>,
                           inFlight: map<Hash, InFlight>, staging: map<Hash, Staged>, drained: set<Hash>,
                           hashes: seq<Hash>, targets': set<Hash>)
    requires Conserved(r, targets, needed, inFlight, staging, drained)
    requires Queued(needed, queue, hashes, inFlight.Keys + staging.Keys)
    requires forall h :: h in targets' <==> h in HashesOf(queue) || h in inFlight || h in staging
    ensures Conserved(r, targets', queue, inFlight, staging, {})
    ensures forall h :: h in hashes ==> h in targets'
    ensures forall h :: h in targets' ==> h in targets || h in hashes
  {
    hide HashesOf;
    hide NoRepeat;
    hide Different;
    hide Exclusive;
  }

  lemma PopulatedExclusive(needed: seq<Entry>, queue: seq<Entry>, inFlight: map<Hash, InFlight>,
                           staging: map<Hash, Staged>, drained: set<Hash>, hashes: seq<Hash>)
    requires Queued(needed, queue, hashes, inFlight.Keys + staging.Keys)
    ensures Exclusive(needed, inFlight, staging, drained) && Different(hashes) ==>
      Exclusive(queue, inFlight, staging, {})
  {
    hide HashesOf;
    hide NoRepeat;
    hide Different;
  }

  /** All queued heights are at most this one. */
  ghost predicate Upto(needed: seq<Entry>, height: int) {
    forall e :: e in needed ==> e.height <= height
  }

  /** Queued entries are old, or hold one of the first n hashes with its height. */
  ghost predicate OldOrFrom(needed: seq<Entry>, queue: seq<Entry>, start: nat, hashes: seq<Hash>, n: nat) {
    forall e :: e in queue ==>
      || e in needed
      || (start <= e.height < start + n && e.height - start < |hashes| && e.hash == hashes[e.height - start])
  }

  /** Queued entries are old, or name a header of the line above the tip with its height. */
  ghost predicate OldOrAbove(needed: seq<Entry>, queue: seq<Entry>, tip: nat, line: seq<HeaderNode>) {
    forall e :: e in queue ==> e in needed || (tip < e.height < |line| && line[e.height].hash == e.hash)
  }

  lemma PopulatedHeights(needed: seq<Entry>, queue: seq<Entry>, start: nat, hashes: seq<Hash>, line: seq<HeaderNode>)
    requires OldOrFrom(needed, queue, start, hashes, |hashes|)
    requires forall i :: 0 <= i < |hashes| ==> start + i < |line| && hashes[i] == line[start + i].hash
    ensures start > 0 ==> OldOrAbove(needed, queue, start - 1, line)
    ensures Upto(needed, |line| - 1) ==> Upto(queue, |line| - 1)
  {
    forall e | e in queue ensures e in needed || (start <= e.height < |line| && line[e.height].hash == e.hash) {
      if e !in needed {
        assert hashes[e.height - start] == line[start + (e.height - start)].hash;
      }
    }
  }

  lemma NothingQueued()
    ensures Exclusive([], map[], map[], {})
  {
  }

  /** On a parent-closed header index the best chain repeats no hash. */
  lemma ClosedDistinct(r: Rules, byHash: map<Hash, HeaderNode>, best: HeaderNode)
    requires Closed(byHash) && Linked(r, best) && best.hash in byHash && byHash[best.hash] == best
    ensures DistinctHashes(Line(r, best))
  {
    var line := Line(r, best);
    forall i, j | 0 <= i < j < |line| ensures line[i].hash != line[j].hash {
      ClosedLine(r, byHash, best, i);
      ClosedLine(r, byHash, best, j);
      LineStep(r, best, i);
      LineStep(r, best, j);
    }
  }

  ghost predicate DistinctHashes(line: seq<HeaderNode>) {
    forall i, j :: 0 <= i < j < |line| ==> line[i].hash != line[j].hash
  }

  lemma Requeued(needed: seq<Entry>, e: Entry)
    ensures HashesOf(needed + [e]) == HashesOf(needed) + {e.hash}
    ensures NoRepeat(needed) && e.hash !in HashesOf(needed) ==> NoRepeat(needed + [e])
  {
    HashesAppend(needed, e);
    if NoRepeat(needed) && e.hash !in HashesOf(needed) {
      NoRepeatAppend(needed, e);
    }
  }
}
