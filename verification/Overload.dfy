/** A run of the download scheduler in which one peer gets seventeen requests at a time. */
module Overload {
  import opened Types
  import opened Maps
  import opened HeaderIndexes
  import opened Schedulers
  import Scenario

  const ALICE: string := "a"
  const BOB: string := "b"

  /** An index that holds n headers on genesis. */
  method LongIndex(n: nat) returns (idx: HeaderIndex)
    requires n < 2099
    ensures fresh(idx) && Scenario.Building(idx, n, 0)
  {
    hide Scenario.Building;
    idx := Scenario.FirstIndex();
    var i := 0;
    while i < n
      invariant 0 <= i <= n && fresh(idx) && Scenario.Building(idx, i, 0)
    {
      Scenario.AddLong(idx, i);
      i := i + 1;
    }
  }

  /** A scheduler with n blocks to fetch. */
  method Queue(n: nat) returns (s: BlockScheduler)
    requires 0 < n < 2099
    ensures fresh(s) && fresh(s.headerIndex) && s.headerIndex.r == Scenario.ScenarioRules()
    ensures s.Valid() && s.Exact() && s.inFlight == map[] && s.peerInFlight == map[] && s.staging == map[]
    ensures |s.needed| >= n && Upto(s.needed, n) && OnLine(s.targets, n)
  {
    hide Linked;
    hide Line;
    hide RejectedOk;
    hide Closed;
    hide Scenario.Holds;
    hide Scenario.HashOf;
    hide Scenario.ScenarioRules;
    hide Exclusive;
    var idx := LongIndex(n);
    s := new BlockScheduler(idx, 0);
    Scenario.HoldsAt(idx.byHash, n, 0, Scenario.LongId(n));
    s.Populate(0);
    ClosedDistinct(idx.r, idx.byHash, idx.bestHeader);
    ManyQueued(idx.bestChainByHeight, s.needed);
    forall h | h in s.targets ensures exists i :: 1 <= i <= n && h == Scenario.HashOf(Scenario.LongId(i)) {
      var i :| 0 < i <= n && idx.bestChainByHeight[i].hash == h;
      Scenario.LongLine(idx.r, idx.byHash, n, 0, n, i);
    }
  }

  /** The hashes are of the first n blocks of the long line. */
  ghost predicate OnLine(hashes: set<Hash>, n: nat)
    requires n <= 2100
  {
    forall h :: h in hashes ==> exists i :: 1 <= i <= n && h == Scenario.HashOf(Scenario.LongId(i))
  }

  /** A queue that names all but the first of some different hashes is as long. */
  lemma {:induction false} ManyQueued(line: seq<HeaderNode>, es: seq<Entry>)
    requires |line| > 0 && DistinctHashes(line) && forall i :: 1 <= i < |line| ==> line[i].hash in HashesOf(es)
    ensures |es| >= |line| - 1
  {
    var hashes := set i | 1 <= i < |line| :: line[i].hash;
    var xs := seq(|line| - 1, i requires 0 <= i < |line| - 1 => line[i + 1].hash);
    forall h | h in hashes ensures h in xs {
      var i :| 1 <= i < |line| && line[i].hash == h;
      assert xs[i - 1] == h;
    }
    ListedSize(xs, hashes);
    SubsetSize(hashes, HashesOf(es));
    HashesSize(es);
  }

  lemma {:induction false} HashesSize(es: seq<Entry>)
    ensures |HashesOf(es)| <= |es|
  {
    if |es| > 0 {
      var n := |es| - 1;
      assert es == es[..n] + [es[n]];
      HashesAppend(es[..n], es[n]);
      HashesSize(es[..n]);
    }
  }

  /** A peer gets all it has room for from a queue long enough. */
  method Ask(s: BlockScheduler, peer: string, n: nat, top: nat) returns (chosen: seq<Hash>)
    requires s.Valid() && s.Exact() && Upto(s.needed, top) && |s.needed| >= n
    requires CountOf(s.peerInFlight, peer) + n <= MAX_IN_FLIGHT_PER_PEER && |s.inFlight| + n <= MAX_GLOBAL_IN_FLIGHT
    requires n > 0 && |s.staging| < MAX_STAGING_SIZE
    modifies s`needed, s`inFlight, s`peerInFlight
    ensures s.Valid() && s.Exact() && Upto(s.needed, top) && |s.needed| == |old(s.needed)| - n
    ensures |chosen| == n && |s.inFlight| == |old(s.inFlight)| + n
    ensures forall h :: h in old(s.inFlight) ==> h in s.inFlight && s.inFlight[h] == old(s.inFlight)[h]
    ensures forall h :: h in chosen ==> h in s.inFlight && s.inFlight[h].peer == peer && s.inFlight[h].height <= top
    ensures s.peerInFlight == old(s.peerInFlight)[peer := CountOf(old(s.peerInFlight), peer) + n]
    ensures forall p: string :: |Asked(s.inFlight, p)| == |Asked(old(s.inFlight), p)| + if p == peer then n else 0
  {
    hide Conserved;
    hide Exclusive;
    hide Tallied;
    hide Bounded;
    hide Asked;
    hide HashesOf;
    hide NoRepeat;
    NotInFlight(s.needed, s.inFlight, s.staging, s.drained);
    hide TakenInOrder;
    ghost var taken;
    chosen, taken := s.AssignWork(peer, n, top, 0);
    NotInFlight(s.needed, s.inFlight, s.staging, s.drained);
    NeverQueuedAndChosen(old(s.needed), old(s.inFlight), chosen);
    forall p: string ensures |Asked(s.inFlight, p)| == |Asked(old(s.inFlight), p)| + if p == peer then |chosen| else 0 {
      AskedOf(old(s.inFlight), s.inFlight, peer, top, 0, p);
    }
    assert |s.needed| > 0 ==> s.needed[0] in s.needed;
  }

  lemma NotInFlight(needed: seq<Entry>, inFlight: map<Hash, InFlight>, staging: map<Hash, Staged>, drained: set<Hash>)
    requires Exclusive(needed, inFlight, staging, drained)
    ensures forall e :: e in needed ==> e.hash !in inFlight
  {
    forall e | e in needed ensures e.hash !in inFlight {
      assert e.hash in HashesOf(needed);
    }
  }

  lemma NeverQueuedAndChosen(needed: seq<Entry>, inFlight: map<Hash, InFlight>, chosen: seq<Hash>)
    requires (forall e :: e in needed ==> e.hash !in inFlight) && forall h :: h in chosen ==> h in HashesOf(needed)
    ensures forall h :: h in chosen ==> h !in inFlight
  {
    forall h | h in chosen ensures h !in inFlight {
      var i :| 0 <= i < |needed| && needed[i].hash == h;
      assert needed[i] in needed;
    }
  }

  /** Bob delivers a block Alice was asked for. It is counted as one of his, whether or not
      it is the right one. */
  method Deliver(s: BlockScheduler, hash: Hash, block: Block)
    requires s.Valid() && s.Exact() && Upto(s.needed, 18) && |s.staging| == 0
    requires hash in s.inFlight && s.inFlight[hash].peer == ALICE && s.inFlight[hash].height <= 18
    modifies s`needed, s`inFlight, s`staging, s`peerInFlight
    ensures s.Valid() && s.Exact() && Upto(s.needed, 18) && |s.needed| >= |old(s.needed)| && |s.staging| <= 1
    ensures CountOf(s.peerInFlight, BOB) == CountOf(old(s.peerInFlight), BOB) - 1
    ensures Asked(s.inFlight, BOB) == Asked(old(s.inFlight), BOB) && |s.inFlight| < |old(s.inFlight)|
  {
    hide Conserved;
    hide Exclusive;
    var expected := s.BlockReceived(hash, block, BOB);
    RemoveSize(old(s.inFlight), hash);
    InsertSize(old(s.staging), hash, Staged(block, BOB));
    Strangers();
  }

  lemma Strangers()
    ensures ALICE != BOB
  {
    assert ALICE[0] != BOB[0];
  }

  /** Alice is asked for one block and Bob for sixteen; Bob delivers Alice's block, and is
      asked for one more. */
  method SeventeenRequests(block: Block) returns (s: BlockScheduler)
    ensures s.Valid() && |Asked(s.inFlight, BOB)| == 17
  {
    hide Conserved;
    hide Exclusive;
    hide Asked;
    hide Upto;
    s := Queue(18);
    NobodyAsked(BOB);
    var fromAlice := Ask(s, ALICE, 1, 18);
    Strangers();
    var fromBob := Ask(s, BOB, 16, 18);
    Deliver(s, fromAlice[0], block);
    var more := Ask(s, BOB, 1, 18);
  }

  lemma NobodyAsked(peer: string)
    ensures Asked(map[], peer) == {}
  {
  }

  // ---------- Staging beyond its limit ----------

  /** Deliveries never stage more than was in flight and staged before. */
  method Deliveries(s: BlockScheduler, arrivals: seq<(Hash, Block, string)>)
    requires s.Valid()
    modifies s`needed, s`inFlight, s`staging, s`peerInFlight
    ensures s.Valid() && |s.inFlight| + |s.staging| <= |old(s.inFlight)| + |old(s.staging)|
  {
    hide Conserved;
    var i := 0;
    while i < |arrivals|
      invariant 0 <= i <= |arrivals| && s.Valid()
      invariant |s.inFlight| + |s.staging| <= |old(s.inFlight)| + |old(s.staging)|
    {
      var (hash, block, peer) := arrivals[i];
      if hash in s.inFlight {
        StagedSize(s.needed, s.inFlight, s.staging, s.drained, hash, Staged(block, peer));
        RemoveSize(s.inFlight, hash);
      }
      var expected := s.BlockReceived(hash, block, peer);
      i := i + 1;
    }
  }

  /** Blocks for all targets. */
  ghost predicate Served(r: Rules, targets: set<Hash>, blocks: map<Hash, Block>) {
    forall h :: h in targets ==> h in blocks && r.blockHash(blocks[h].header) == h
  }

  /** If everything in flight is delivered, exactly that much is staged: staging stays
      within its limit in every run of deliveries exactly if what is in flight and staged
      together does. */
  method StageAll(s: BlockScheduler, blocks: map<Hash, Block>, peer: string)
    requires s.Valid() && s.Exact() && Served(s.headerIndex.r, s.targets, blocks)
    modifies s`needed, s`inFlight, s`staging, s`peerInFlight
    ensures s.Valid() && s.Exact() && s.inFlight == map[] && s.needed == old(s.needed)
    ensures |s.staging| == |old(s.inFlight)| + |old(s.staging)|
    ensures CountOf(s.peerInFlight, peer) == CountOf(old(s.peerInFlight), peer) - |old(s.inFlight)|
    ensures forall p: string :: p != peer ==> CountOf(s.peerInFlight, p) == CountOf(old(s.peerInFlight), p)
  {
    hide Exclusive;
    hide HashesOf;
    while s.inFlight != map[]
      invariant s.Valid() && s.Exact() && s.needed == old(s.needed)
      invariant |s.inFlight| + |s.staging| == |old(s.inFlight)| + |old(s.staging)|
      invariant CountOf(s.peerInFlight, peer) - |s.inFlight| == CountOf(old(s.peerInFlight), peer) - |old(s.inFlight)|
      invariant forall p: string :: p != peer ==> CountOf(s.peerInFlight, p) == CountOf(old(s.peerInFlight), p)
      decreases |s.inFlight|
    {
      var hash :| hash in s.inFlight;
      RemoveSize(s.inFlight, hash);
      StagedSize(s.needed, s.inFlight, s.staging, s.drained, hash, Staged(blocks[hash], peer));
      var expected := s.BlockReceived(hash, blocks[hash], peer);
    }
  }

  method LineBlocks(n: nat) returns (blocks: map<Hash, Block>)
    requires n <= 2100
    ensures forall h :: h in blocks ==> Scenario.ScenarioRules().blockHash(blocks[h].header) == h
    ensures forall i :: 1 <= i <= n ==> Scenario.HashOf(Scenario.LongId(i)) in blocks
  {
    hide Scenario.HashOf;
    hide Scenario.ScenarioRules;
    hide Scenario.BlockOf;
    blocks := map[];
    var i := 0;
    while i < n
      invariant 0 <= i <= n
      invariant forall h :: h in blocks ==> Scenario.ScenarioRules().blockHash(blocks[h].header) == h
      invariant forall j :: 1 <= j <= i ==> Scenario.HashOf(Scenario.LongId(j)) in blocks
    {
      i := i + 1;
      Scenario.Names(Scenario.LongId(i));
      blocks := blocks[Scenario.HashOf(Scenario.LongId(i)) := Scenario.BlockOf(Scenario.LongId(i))];
    }
  }

  lemma LineServes(targets: set<Hash>, n: nat, blocks: map<Hash, Block>)
    requires n <= 2100 && OnLine(targets, n)
    requires forall h :: h in blocks ==> Scenario.ScenarioRules().blockHash(blocks[h].header) == h
    requires forall i :: 1 <= i <= n ==> Scenario.HashOf(Scenario.LongId(i)) in blocks
    ensures Served(Scenario.ScenarioRules(), targets, blocks)
  {
    hide Scenario.HashOf;
    hide Scenario.ScenarioRules;
    forall h | h in targets ensures h in blocks {
      var i :| 1 <= i <= n && h == Scenario.HashOf(Scenario.LongId(i));
    }
  }

  /** Sixty-three rounds of sixteen blocks, and then two peers with sixteen each: more than
      1024 blocks are staged. */
  method FullStaging() returns (s: BlockScheduler)
    ensures s.Valid() && |s.staging| == 1040 && MAX_STAGING_SIZE == 1024
  {
    hide Conserved;
    hide Exclusive;
    hide Asked;
    hide Upto;
    hide OnLine;
    hide Served;
    hide Scenario.HashOf;
    hide Scenario.ScenarioRules;
    s := Queue(1040);
    var blocks := LineBlocks(1040);
    LineServes(s.targets, 1040, blocks);
    var i := 0;
    while i < 63
      invariant 0 <= i <= 63 && fresh(s) && s.Valid() && s.Exact() && s.inFlight == map[]
      invariant CountOf(s.peerInFlight, ALICE) == CountOf(s.peerInFlight, BOB) == 0
      invariant |s.staging| == 16 * i && |s.needed| >= 1040 - 16 * i && Upto(s.needed, 1040)
      invariant Served(s.headerIndex.r, s.targets, blocks)
    {
      Strangers();
      var chosen := Ask(s, BOB, 16, 1040);
      StageAll(s, blocks, BOB);
      i := i + 1;
    }
    Strangers();
    var fromAlice := Ask(s, ALICE, 16, 1040);
    var fromBob := Ask(s, BOB, 16, 1040);
    StageAll(s, blocks, BOB);
  }
}
