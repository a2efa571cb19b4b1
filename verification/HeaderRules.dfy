/** The timestamp rule on the tree of accepted headers: every header was accepted
    against the median time of its own ancestors. */
module HeaderRules {
  import opened Types
  import opened MedianTime
  import opened Ledger
  import opened ChainState

  /** The ancestors of p by height, found by following parents. */
  ghost function TreeLookup(r: Rules, seen: set<Block>, known: Tree, p: Hash): Ancestors
    requires TreeOk(r, seen, known) && p in known
  {
    (i: nat) =>
      if i <= known[p].height && AncestorAt(r, seen, known, p, i) in known
      then Some(known[AncestorAt(r, seen, known, p, i)].header) else None
  }

  ghost function TreeMedian(r: Rules, seen: set<Block>, known: Tree, p: Hash): U32
    requires TreeOk(r, seen, known) && p in known
  {
    MedianTimePast(TreeLookup(r, seen, known, p), known[p].height)
  }

  /** The header satisfies the timestamp rule on its own ancestors, for some limit. */
  ghost predicate Timely(r: Rules, seen: set<Block>, known: Tree, header: BlockHeader) {
    && TreeOk(r, seen, known) && header.prevBlock in known
    && exists limit: int ::
         TimestampOk(r.params.timestampRule, header, known[header.prevBlock].header, limit,
                     TreeMedian(r, seen, known, header.prevBlock))
  }

  /** Every header of the tree except genesis does. */
  ghost predicate Timed(r: Rules, seen: set<Block>, known: Tree) {
    TreeOk(r, seen, known) && forall h :: h in known && known[h].height > 0 ==> Timely(r, seen, known, known[h].header)
  }

  /** A lookup that walks like the tree gives the tree's median. */
  lemma {:induction false} MedianOfWalk(r: Rules, seen: set<Block>, known: Tree, p: Hash, anc: Ancestors)
    requires TreeOk(r, seen, known) && p in known && WalksLike(r, seen, known, p, anc)
    ensures MedianTimePast(anc, known[p].height) == TreeMedian(r, seen, known, p)
  {
    hide TreeOk;
    TimesAgree(anc, TreeLookup(r, seen, known, p), known[p].height, MEDIAN_COUNT);
  }

  lemma {:induction false} AncestorSame(r: Rules, seen: set<Block>, known: Tree, known': Tree, p: Hash, i: nat)
    requires TreeOk(r, seen, known) && TreeOk(r, seen, known') && p in known
    requires forall y :: y in known ==> y in known' && known'[y] == known[y]
    ensures AncestorAt(r, seen, known, p, i) == AncestorAt(r, seen, known', p, i)
    ensures AncestorAt(r, seen, known, p, i) in known
    decreases known[p].height
  {
    assert NodeOk(r, seen, known, p);
    if known[p].height > i {
      AncestorSame(r, seen, known, known', known[p].header.prevBlock, i);
    }
  }

  lemma {:induction false} MedianSame(r: Rules, seen: set<Block>, known: Tree, known': Tree, p: Hash)
    requires TreeOk(r, seen, known) && TreeOk(r, seen, known') && p in known
    requires forall y :: y in known ==> y in known' && known'[y] == known[y]
    ensures TreeMedian(r, seen, known, p) == TreeMedian(r, seen, known', p)
  {
    hide TreeOk;
    forall i | 0 <= i <= known[p].height
      ensures TreeLookup(r, seen, known, p)(i) == TreeLookup(r, seen, known', p)(i)
    {
      AncestorSame(r, seen, known, known', p, i);
    }
    TimesAgree(TreeLookup(r, seen, known, p), TreeLookup(r, seen, known', p), known[p].height, MEDIAN_COUNT);
  }

  lemma {:induction false} TimelySame(r: Rules, seen: set<Block>, known: Tree, known': Tree, header: BlockHeader)
    requires Timely(r, seen, known, header) && TreeOk(r, seen, known')
    requires forall y :: y in known ==> y in known' && known'[y] == known[y]
    ensures Timely(r, seen, known', header)
  {
    hide TreeOk;
    hide TreeMedian;
    MedianSame(r, seen, known, known', header.prevBlock);
  }

  /** The tree is unchanged, or has grown by this header on its parent. */
  ghost predicate Grew(r: Rules, known: Tree, known': Tree, header: BlockHeader) {
    || known' == known
    || (&& header.prevBlock in known && known' == known[r.blockHash(header) := ChildNode(r, known, header)]
        && (r.blockHash(header) in known ==> known[r.blockHash(header)] == ChildNode(r, known, header)))
  }

  lemma NothingGrew(r: Rules, known: Tree, header: BlockHeader)
    ensures Grew(r, known, known, header)
  {
  }

  lemma {:induction false} TimedGrows(r: Rules, seen: set<Block>, known: Tree, known': Tree, header: BlockHeader)
    requires Timed(r, seen, known) && Timely(r, seen, known, header) && Grew(r, known, known', header)
    requires TreeOk(r, seen, known')
    ensures Timed(r, seen, known')
  {
    hide TreeOk;
    hide Timely;
    forall h | h in known' && known'[h].height > 0 ensures Timely(r, seen, known', known'[h].header) {
      TimelySame(r, seen, known, known', known'[h].header);
    }
  }

  /** The headers of a path through a timed tree are a chain accepted under the rule, so
      its median never decreases and finality is stable on it. */
  lemma {:induction false} TimedPath(r: Rules, seen: set<Block>, known: Tree, hs: seq<Hash>, chain: seq<Block>, n: nat)
    returns (limits: seq<int>)
    requires Timed(r, seen, known) && PathOk(known, hs, chain) && n <= |chain|
    ensures AcceptedHeaders(r.params.timestampRule, HeadersOf(chain)[..n], limits)
  {
    hide TreeOk;
    hide Timely;
    if n == 0 {
      limits := [];
    } else {
      limits := TimedPath(r, seen, known, hs, chain, n - 1);
      var limit := 0;
      if n > 1 {
        limit := TimedStep(r, seen, known, hs, chain, n - 1);
      }
      var shorter, longer := HeadersOf(chain)[..n - 1], HeadersOf(chain)[..n];
      limits := limits + [limit];
      forall i | 1 <= i < n
        ensures TimestampOk(r.params.timestampRule, longer[i], longer[i - 1], limits[i], ChainMedian(longer[..i]))
      {
        if i < n - 1 {
          assert shorter[..i] == longer[..i] && shorter[i] == longer[i] && shorter[i - 1] == longer[i - 1];
        } else {
          assert longer[..i] == HeadersOf(chain)[..i];
        }
      }
    }
  }

  lemma {:induction false} TimedStep(r: Rules, seen: set<Block>, known: Tree, hs: seq<Hash>, chain: seq<Block>, i: nat)
    returns (limit: int)
    requires Timed(r, seen, known) && PathOk(known, hs, chain) && 0 < i < |chain|
    ensures var all := HeadersOf(chain);
      TimestampOk(r.params.timestampRule, all[i], all[i - 1], limit, ChainMedian(all[..i]))
  {
    hide TreeOk;
    hide TimestampOk;
    hide MedianTimePast;
    assert PathStep(hs, chain, i);
    var header := known[hs[i]].header;
    assert Timely(r, seen, known, header);
    limit :| TimestampOk(r.params.timestampRule, header, known[header.prevBlock].header, limit,
                         TreeMedian(r, seen, known, header.prevBlock));
    PathMedian(r, seen, known, hs, chain, i);
  }

  /** On a path the tree's median is the chain's. */
  lemma {:induction false} PathMedian(r: Rules, seen: set<Block>, known: Tree, hs: seq<Hash>, chain: seq<Block>, i: nat)
    requires TreeOk(r, seen, known) && PathOk(known, hs, chain) && 0 < i < |chain|
    ensures hs[i - 1] in known && TreeMedian(r, seen, known, hs[i - 1]) == ChainMedian(HeadersOf(chain)[..i])
  {
    hide TreeOk;
    var hs', chain' := hs[..i], chain[..i];
    assert PathOk(known, hs', chain') by {
      forall k | 0 < k < i ensures PathStep(hs', chain', k) {
        assert PathStep(hs, chain, k);
      }
    }
    assert HeadersOf(chain') == HeadersOf(chain)[..i];
    var p := hs[i - 1];
    forall j | 0 <= j <= known[p].height ensures AncestorAt(r, seen, known, p, j) in known {
      AncestorSame(r, seen, known, known, p, j);
    }
    MedianOfPath(r, seen, known, hs', chain', TreeLookup(r, seen, known, p));
  }
}
