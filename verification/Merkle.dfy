/** Merkle roots (internal/crypto/merkle.go). */
module Merkle {
  import opened Types

  type PairHash = (Hash, Hash) -> Hash

  /** The two children of node i of the level above hs; an odd last node is paired with itself. */
  function Children(hs: seq<Hash>, i: nat): (Hash, Hash)
    requires 2 * i < |hs|
  {
    (hs[2 * i], if 2 * i + 1 < |hs| then hs[2 * i + 1] else hs[2 * i])
  }

  /** The first n nodes of the level above hs. */
  function LevelUpTo(pair: PairHash, hs: seq<Hash>, n: nat): (next: seq<Hash>)
    requires 2 * n <= |hs| + 1
    ensures |next| == n
    ensures forall i :: 0 <= i < n ==> next[i] == pair(Children(hs, i).0, Children(hs, i).1)
  {
    if n == 0 then []
    else LevelUpTo(pair, hs, n - 1) + [pair(Children(hs, n - 1).0, Children(hs, n - 1).1)]
  }

  function NextLevel(pair: PairHash, hs: seq<Hash>): seq<Hash> {
    LevelUpTo(pair, hs, (|hs| + 1) / 2)
  }

  function Root(pair: PairHash, hs: seq<Hash>): Hash
    decreases |hs|
  {
    if |hs| == 0 then ZERO_HASH
    else if |hs| == 1 then hs[0]
    else Root(pair, NextLevel(pair, hs))
  }

  method MerkleRoot(pair: PairHash, hashes: seq<Hash>) returns (root: Hash)
    ensures root == Root(pair, hashes)
  {
    if |hashes| == 0 {
      return ZERO_HASH;
    }
    var level := hashes;
    while |level| > 1
      invariant |level| > 0 && Root(pair, level) == Root(pair, hashes)
      decreases |level|
    {
      level := PairUp(pair, level);
    }
    root := level[0];
  }

  method PairUp(pair: PairHash, bottom: seq<Hash>) returns (next: seq<Hash>)
    requires |bottom| > 0
    ensures next == NextLevel(pair, bottom)
  {
    var level := bottom;
    if |level| % 2 != 0 {
      level := level + [level[|level| - 1]];
    }
    next := [];
    var i := 0;
    while i < |level|
      invariant 0 <= i <= |level| && i % 2 == 0
      invariant next == LevelUpTo(pair, bottom, i / 2)
    {
      assert (level[i], level[i + 1]) == Children(bottom, i / 2);
      next := next + [pair(level[i], level[i + 1])];
      i := i + 2;
    }
  }

  // ---------- Duplicate-free lists of one depth have distinct roots ----------

  function Depth(n: nat): nat
    decreases n
  {
    if n <= 1 then 0 else 1 + Depth((n + 1) / 2)
  }

  /** Every pair hashed on the way from hs to its root. */
  ghost function HashedPairs(pair: PairHash, hs: seq<Hash>): set<(Hash, Hash)>
    decreases |hs|
  {
    if |hs| <= 1 then {}
    else (set i | 0 <= i < (|hs| + 1) / 2 :: Children(hs, i)) + HashedPairs(pair, NextLevel(pair, hs))
  }

  ghost predicate CollisionFree(pair: PairHash, ps: set<(Hash, Hash)>) {
    forall p, q :: p in ps && q in ps && pair(p.0, p.1) == pair(q.0, q.1) ==> p == q
  }

  ghost predicate Distinct(hs: seq<Hash>) {
    forall i, j :: 0 <= i < j < |hs| ==> hs[i] != hs[j]
  }

  lemma {:induction false} NextLevelDistinct(pair: PairHash, hs: seq<Hash>)
    requires |hs| > 1 && Distinct(hs) && CollisionFree(pair, HashedPairs(pair, hs))
    ensures Distinct(NextLevel(pair, hs))
  {
    var next := NextLevel(pair, hs);
    forall i, j | 0 <= i < j < |next| ensures next[i] != next[j] {
      assert Children(hs, i) in HashedPairs(pair, hs) && Children(hs, j) in HashedPairs(pair, hs);
      assert Children(hs, i).0 != Children(hs, j).0;
    }
  }

  lemma {:induction false} SameChildren(pair: PairHash, a: seq<Hash>, b: seq<Hash>, i: nat)
    requires |a| > 1 && |b| > 1 && 2 * i < |a| && 2 * i < |b|
    requires CollisionFree(pair, HashedPairs(pair, a) + HashedPairs(pair, b))
    requires NextLevel(pair, a) == NextLevel(pair, b)
    ensures Children(a, i) == Children(b, i)
  {
    assert Children(a, i) in HashedPairs(pair, a) && Children(b, i) in HashedPairs(pair, b) by {
      hide CollisionFree;
      hide NextLevel;
    }
    assert NextLevel(pair, a)[i] == NextLevel(pair, b)[i];
  }

  /** Only a repeated last element could make lists of different lengths pair up alike. */
  lemma ChildrenDetermine(a: seq<Hash>, b: seq<Hash>)
    requires Distinct(a) && Distinct(b) && |a| > 0 && (|a| + 1) / 2 == (|b| + 1) / 2
    requires forall i :: 0 <= i < (|a| + 1) / 2 ==> Children(a, i) == Children(b, i)
    ensures a == b
  {
    assert Children(a, (|a| - 1) / 2) == Children(b, (|a| - 1) / 2);
    forall k | 0 <= k < |a| ensures a[k] == b[k] {
      assert Children(a, k / 2) == Children(b, k / 2);
    }
  }

  lemma {:induction false} LevelsAgree(pair: PairHash, a: seq<Hash>, b: seq<Hash>)
    requires |a| > 1 && |b| > 1 && Distinct(a) && Distinct(b)
    requires CollisionFree(pair, HashedPairs(pair, a) + HashedPairs(pair, b))
    requires NextLevel(pair, a) == NextLevel(pair, b)
    ensures a == b
  {
    hide CollisionFree;
    hide HashedPairs;
    hide Distinct;
    assert (|a| + 1) / 2 == |NextLevel(pair, a)|;
    assert (|b| + 1) / 2 == |NextLevel(pair, b)|;
    forall i | 0 <= i < (|a| + 1) / 2 ensures Children(a, i) == Children(b, i) {
      SameChildren(pair, a, b, i);
    }
    ChildrenDetermine(a, b);
  }

  lemma CollisionFreeBelow(pair: PairHash, ps: set<(Hash, Hash)>, qs: set<(Hash, Hash)>)
    requires CollisionFree(pair, qs) && ps <= qs
    ensures CollisionFree(pair, ps)
  {
  }

  lemma Levels(pair: PairHash, hs: seq<Hash>)
    requires |hs| > 0
    ensures |hs| == 1 ==> Root(pair, hs) == hs[0] && Depth(|hs|) == 0
    ensures |hs| > 1 ==>
      && 0 < |NextLevel(pair, hs)| < |hs| && Root(pair, hs) == Root(pair, NextLevel(pair, hs))
      && Depth(|hs|) == 1 + Depth(|NextLevel(pair, hs)|)
  {
  }

  lemma PairsBelow(pair: PairHash, hs: seq<Hash>)
    requires |hs| > 1
    ensures HashedPairs(pair, NextLevel(pair, hs)) <= HashedPairs(pair, hs)
  {
  }

  /** Once duplicate ids are rejected, a root determines the list of ids among the
      lists of the same depth, although odd levels repeat their last element. */
  lemma {:induction false} RootDeterminesList(pair: PairHash, a: seq<Hash>, b: seq<Hash>)
    requires |a| > 0 && |b| > 0 && Distinct(a) && Distinct(b) && Depth(|a|) == Depth(|b|)
    requires CollisionFree(pair, HashedPairs(pair, a) + HashedPairs(pair, b))
    requires Root(pair, a) == Root(pair, b)
    ensures a == b
    decreases |a|
  {
    hide Distinct;
    hide CollisionFree;
    hide HashedPairs;
    hide NextLevel;
    hide Root;
    Levels(pair, a);
    Levels(pair, b);
    if |a| > 1 {
      var na, nb := NextLevel(pair, a), NextLevel(pair, b);
      PairsBelow(pair, a);
      PairsBelow(pair, b);
      CollisionFreeBelow(pair, HashedPairs(pair, a), HashedPairs(pair, a) + HashedPairs(pair, b));
      CollisionFreeBelow(pair, HashedPairs(pair, b), HashedPairs(pair, a) + HashedPairs(pair, b));
      CollisionFreeBelow(pair, HashedPairs(pair, na) + HashedPairs(pair, nb),
                         HashedPairs(pair, a) + HashedPairs(pair, b));
      NextLevelDistinct(pair, a);
      NextLevelDistinct(pair, b);
      RootDeterminesList(pair, na, nb);
      LevelsAgree(pair, a, b);
    }
  }

  /** Without the duplicate check the root is ambiguous: repeating the last id of a
      three-element list keeps the root. */
  lemma DuplicateTailKeepsRoot(pair: PairHash, x: Hash, y: Hash, z: Hash)
    ensures Root(pair, [x, y, z]) == Root(pair, [x, y, z, z])
  {
    assert NextLevel(pair, [x, y, z]) == [pair(x, y), pair(z, z)];
    assert NextLevel(pair, [x, y, z, z]) == [pair(x, y), pair(z, z)];
  }

  /** Without equal depths too: an inner node can pose as an id. */
  lemma ShallowerListSameRoot(pair: PairHash, x: Hash, y: Hash)
    ensures Root(pair, [x, y]) == Root(pair, [pair(x, y)])
  {
    assert NextLevel(pair, [x, y]) == [pair(x, y)];
  }
}
