/** Parent-closed block indexes: when every stored block has its parent stored, the
    ancestor lookup of the chain manager can never go wrong. */
module Closure {
  import opened Types
  import opened ChainState
  import opened AncestorLookup

  ghost predicate HasParent(index: map<Hash, IndexRec>, h: Hash)
    requires h in index
  {
    index[h].height > 0 ==> index[h].block.header.prevBlock in index
  }

  ghost predicate IndexClosed(index: map<Hash, IndexRec>) {
    forall h :: h in index ==> HasParent(index, h)
  }

  /** The parent of h is stored and has at most this work. */
  ghost predicate ParentBelow(index: map<Hash, IndexRec>, h: Hash, work: nat)
    requires h in index
  {
    var prev := index[h].block.header.prevBlock;
    index[h].height > 0 ==> prev in index && index[prev].work <= work
  }

  /** The index is closed, and no stored block builds on one with more work than `work`. */
  ghost predicate ParentsBelow(index: map<Hash, IndexRec>, work: nat) {
    forall h :: h in index ==> ParentBelow(index, h, work)
  }

  /** Two indexes that differ in undo data only. */
  ghost predicate SameRecords(a: map<Hash, IndexRec>, b: map<Hash, IndexRec>) {
    a.Keys == b.Keys && forall h :: h in a ==> b[h] == a[h].(undo := b[h].undo)
  }

  /** Every height entry is backed by a record; without a depth limit for
      reorganisations, no stored block builds on one with more work than the tip. */
  ghost predicate RecordsOk(r: Rules, index: map<Hash, IndexRec>, heights: map<Hash, nat>, tipWork: nat) {
    && (forall h :: h in heights ==> h in index)
    && (r.params.maxReorgDepth == 0 ==> ParentsBelow(index, tipWork))
  }

  lemma BelowIsClosed(index: map<Hash, IndexRec>, work: nat)
    requires ParentsBelow(index, work)
    ensures IndexClosed(index)
  {
    forall h | h in index ensures HasParent(index, h) {
      assert ParentBelow(index, h, work);
    }
  }

  lemma BelowMore(index: map<Hash, IndexRec>, work: nat, more: nat)
    requires ParentsBelow(index, work) && work <= more
    ensures ParentsBelow(index, more)
  {
    forall h | h in index ensures ParentBelow(index, h, more) {
      assert ParentBelow(index, h, work);
    }
  }

  lemma BelowSame(a: map<Hash, IndexRec>, b: map<Hash, IndexRec>, work: nat)
    requires ParentsBelow(a, work) && SameRecords(a, b)
    ensures ParentsBelow(b, work)
  {
    forall h | h in b ensures ParentBelow(b, h, work) {
      assert ParentBelow(a, h, work);
    }
  }

  /** Storing a block, again or for the first time, on a stored parent. */
  lemma BelowInsert(index: map<Hash, IndexRec>, work: nat, h: Hash, rec: IndexRec)
    requires ParentsBelow(index, work) && (h in index ==> index[h].work == rec.work)
    requires rec.block.header.prevBlock in index && rec.block.header.prevBlock != h
    requires index[rec.block.header.prevBlock].work <= work
    ensures ParentsBelow(index[h := rec], work)
  {
    var index' := index[h := rec];
    forall x | x in index' ensures ParentBelow(index', x, work) {
      if x != h {
        assert ParentBelow(index, x, work);
      }
    }
  }

  /** Storing a block without a parent again. */
  lemma BelowRoot(index: map<Hash, IndexRec>, work: nat, h: Hash, rec: IndexRec)
    requires ParentsBelow(index, work) && (h in index ==> index[h].work == rec.work) && rec.height == 0
    ensures ParentsBelow(index[h := rec], work)
  {
    var index' := index[h := rec];
    forall x | x in index' ensures ParentBelow(index', x, work) {
      if x != h {
        assert ParentBelow(index, x, work);
      }
    }
  }

  /** A block with more work than every stored parent can be dropped. */
  lemma BelowRemove(index: map<Hash, IndexRec>, work: nat, h: Hash)
    requires ParentsBelow(index, work) && (h in index ==> index[h].work > work)
    ensures ParentsBelow(index - {h}, work)
  {
    forall x | x in index - {h} ensures ParentBelow(index - {h}, x, work) {
      assert ParentBelow(index, x, work);
    }
  }

  /** Some other stored block builds on h. */
  ghost predicate HasStoredChild(index: map<Hash, IndexRec>, h: Hash) {
    exists x :: x in index && x != h && index[x].height > 0 && index[x].block.header.prevBlock == h
  }

  /** Dropping a block keeps the index closed exactly when no other stored block builds on it. */
  lemma {:induction false} ForgetClosed(index: map<Hash, IndexRec>, h: Hash)
    requires IndexClosed(index)
    ensures IndexClosed(index - {h}) <==> !HasStoredChild(index, h)
  {
    var after := index - {h};
    if !HasStoredChild(index, h) {
      forall x | x in after ensures HasParent(after, x) {
        assert HasParent(index, x);
      }
    }
    if IndexClosed(after) {
      forall x | x in index && x != h && index[x].height > 0 ensures index[x].block.header.prevBlock != h {
        assert x in after && HasParent(after, x);
      }
    }
  }

  /** From every block of a closed index the store can walk down to the main chain. */
  lemma {:induction false} ClosedWalk(r: Rules, seen: set<Block>, known: Tree, index: map<Hash, IndexRec>, m: Memory,
                                      chain: seq<Block>, h: Hash)
    requires TreeOk(r, seen, known) && IndexOk(r, seen, known, index) && MainOk(r, known, index, m, chain)
    requires IndexClosed(index) && h in index
    ensures h in known && StoredWalk(r, seen, known, index, m, h)
    decreases if h in known then known[h].height else 0
  {
    hide MainOk;
    hide OnMain;
    assert RecOk(r, seen, known, h, index[h]);
    if !OnMain(m, h) {
      assert HasParent(index, h);
      OffMainIsAbove(r, seen, known, index, m, chain, h);
      ClosedWalk(r, seen, known, index, m, chain, known[h].header.prevBlock);
    }
  }

  lemma OffMainIsAbove(r: Rules, seen: set<Block>, known: Tree, index: map<Hash, IndexRec>, m: Memory,
                       chain: seq<Block>, h: Hash)
    requires TreeOk(r, seen, known) && MainOk(r, known, index, m, chain) && h in known && !OnMain(m, h)
    ensures known[h].height > 0 && known[h].header.prevBlock in known
    ensures known[known[h].header.prevBlock].height + 1 == known[h].height
  {
    assert NodeOk(r, seen, known, h);
    TipEntry(r, known, index, m, chain);
  }

  /** Storing a block changes no walk from a lower block. */
  lemma {:induction false} WalkBelow(r: Rules, seen: set<Block>, known: Tree, index: map<Hash, IndexRec>, m: Memory,
                                     known': Tree, h: Hash, rec: IndexRec, x: Hash)
    requires TreeOk(r, seen, known) && TreeOk(r, seen, known') && x in known
    requires forall y :: y in known ==> y in known' && known'[y] == known[y]
    requires h in known' && known[x].height < known'[h].height
    ensures StoredWalk(r, seen, known, index, m, x) <==> StoredWalk(r, seen, known', index[h := rec], m, x)
    decreases known[x].height
  {
    assert NodeOk(r, seen, known, x);
    assert x != h;
    if known[x].height > 0 {
      WalkBelow(r, seen, known, index, m, known', h, rec, known[x].header.prevBlock);
    }
  }
}
