/** Median-time-past and the header timestamp rules (internal/consensus/validation.go;
    see the Specification section of BIP 113). */
module MedianTime {
  import opened Types
  import TxValidation

  const MEDIAN_COUNT: nat := 11

  // ---------- Sorting and the median ----------

  /** Inserts x after the last element that is at most x. */
  function Insert(s: seq<U32>, x: U32): (t: seq<U32>)
    ensures |t| == |s| + 1
  {
    if |s| > 0 && s[|s| - 1] > x then Insert(s[..|s| - 1], x) + [s[|s| - 1]] else s + [x]
  }

  function Sort(ts: seq<U32>): (s: seq<U32>)
    ensures |s| == |ts|
  {
    if |ts| == 0 then [] else Insert(Sort(ts[..|ts| - 1]), ts[|ts| - 1])
  }

  /** The upper median; zero for an empty window. */
  function Median(ts: seq<U32>): U32 {
    if |ts| == 0 then 0 else Sort(ts)[|ts| / 2]
  }

  lemma {:induction false} InsertAt(s: seq<U32>, x: U32, k: nat)
    requires k <= |s|
    requires forall i :: k <= i < |s| ==> s[i] > x
    requires k == 0 || s[k - 1] <= x
    ensures Insert(s, x) == s[..k] + [x] + s[k..]
  {
    if k < |s| {
      var n := |s| - 1;
      InsertAt(s[..n], x, k);
      assert s[..n][..k] == s[..k];
      assert s[k..] == s[..n][k..] + [s[n]];
    }
  }

  method InsertionSort(a: array<U32>)
    modifies a
    ensures a[..] == Sort(old(a[..]))
  {
    ghost var all := a[..];
    var i := 0;
    while i < a.Length
      invariant 0 <= i <= a.Length
      invariant a[..i] == Sort(all[..i]) && a[i..] == all[i..]
    {
      InsertNext(a, i);
      assert all[..i + 1][..i] == all[..i];
      i := i + 1;
    }
    assert a[..] == a[..i] && all[..i] == all;
  }

  /** One pass of the insertion sort: moves a[i] into place among the elements before it. */
  method InsertNext(a: array<U32>, i: nat)
    requires i < a.Length
    modifies a
    ensures a[..i + 1] == Insert(old(a[..i]), old(a[i]))
    ensures a[i + 1..] == old(a[i + 1..])
  {
    ghost var s := a[..i];
    var key := a[i];
    var j := i - 1;
    while j >= 0 && a[j] > key
      invariant -1 <= j < i
      invariant a[..j + 1] == s[..j + 1] && a[i + 1..] == old(a[i + 1..])
      invariant forall m :: j + 1 < m <= i ==> a[m] == s[m - 1]
      invariant forall m :: j < m < i ==> s[m] > key
    {
      assert a[j] == s[j];
      a[j + 1] := a[j];
      j := j - 1;
    }
    assert j >= 0 ==> a[j] == s[j];
    a[j + 1] := key;
    InsertAt(s, key, j + 1);
    assert a[..i + 1] == s[..j + 1] + [key] + s[j + 1..];
  }

  // ---------- The window ----------

  /** The timestamps at heights tip, tip - 1, ..., for at most n headers. */
  function Times(anc: Ancestors, tip: nat, n: nat): (ts: seq<U32>)
    ensures |ts| <= n
  {
    if n == 0 then []
    else
      var ts := Times(anc, tip, n - 1);
      if |ts| == n - 1 && n - 1 <= tip && anc(tip - (n - 1)).Some?
      then ts + [anc(tip - (n - 1)).value.timestamp]
      else ts
  }

  function MedianTimePast(anc: Ancestors, tip: nat): U32 {
    Median(Times(anc, tip, MEDIAN_COUNT))
  }

  method CalcMedianTimePast(tip: nat, anc: Ancestors) returns (median: U32)
    ensures median == MedianTimePast(anc, tip)
  {
    var timestamps: seq<U32> := [];
    var i: nat := 0;
    while i < MEDIAN_COUNT && tip >= i
      invariant 0 <= i <= MEDIAN_COUNT
      invariant timestamps == Times(anc, tip, i) && |timestamps| == i
    {
      var h := anc(tip - i);
      if h.None? {
        break;
      }
      timestamps := timestamps + [h.value.timestamp];
      i := i + 1;
    }
    TimesStop(anc, tip, i, MEDIAN_COUNT);
    if |timestamps| == 0 {
      return 0;
    }
    var a := new U32[|timestamps|](k requires 0 <= k < |timestamps| => timestamps[k]);
    assert a[..] == timestamps;
    InsertionSort(a);
    median := a[|timestamps| / 2];
  }

  lemma {:induction false} TimesStop(anc: Ancestors, tip: nat, i: nat, n: nat)
    requires i <= n && (i == n || tip < i || anc(tip - i).None?)
    ensures Times(anc, tip, n) == Times(anc, tip, i)
  {
    if i < n {
      TimesStop(anc, tip, i, n - 1);
    }
  }

  // ---------- Header timestamps ----------

  predicate TimestampOk(rule: TimestampRule, header: BlockHeader, parent: BlockHeader, maxFuture: int,
                        medianTime: nat) {
    && header.timestamp <= maxFuture
    && match rule
       case PrevPlusOne => header.timestamp > parent.timestamp
       case Median11 => header.timestamp > medianTime
  }

  method ValidateHeaderTimestamp(rule: TimestampRule, header: BlockHeader, parent: BlockHeader,
                                 nowUnix: U32, drift: int, anc: Ancestors, tip: nat) returns (ok: bool)
    ensures ok == TimestampOk(rule, header, parent, nowUnix + drift, MedianTimePast(anc, tip))
  {
    if header.timestamp > nowUnix + drift {
      return false;
    }
    match rule {
      case PrevPlusOne =>
        ok := header.timestamp > parent.timestamp;
      case Median11 =>
        var median := CalcMedianTimePast(tip, anc);
        ok := header.timestamp > median;
    }
  }

  /** What FullValidateHeader demands of a header on its parent. */
  ghost predicate HeaderPasses(r: Rules, header: BlockHeader, parent: BlockHeader, parentHeight: nat, now: U32,
                               anc: Ancestors) {
    && r.validateHeader(header, parent, parentHeight + 1, anc)
    && TimestampOk(r.params.timestampRule, header, parent, now + r.params.maxTimeFutureDrift,
                   MedianTimePast(anc, parentHeight))
  }

  lemma HeaderDecided(r: Rules, header: BlockHeader, parent: BlockHeader, parentHeight: nat, now: U32, anc: Ancestors)
    ensures HeaderPasses(r, header, parent, parentHeight, now, anc) <==>
      && r.validateHeader(header, parent, parentHeight + 1, anc)
      && header.timestamp <= now + r.params.maxTimeFutureDrift
      && header.timestamp > (if r.params.timestampRule.PrevPlusOne? then parent.timestamp
                             else MedianTimePast(anc, parentHeight))
  {
    hide MedianTimePast;
  }

  /** A chain of headers as an ancestor lookup. */
  function Lookup(hs: seq<BlockHeader>): Ancestors {
    (h: nat) => if h < |hs| then Some(hs[h]) else None
  }

  function ChainMedian(hs: seq<BlockHeader>): U32 {
    if |hs| == 0 then 0 else MedianTimePast(Lookup(hs), |hs| - 1)
  }

  /** Each header after the first was accepted on top of its predecessors, when the
      latest allowed timestamp was limits[i]. */
  ghost predicate AcceptedHeaders(rule: TimestampRule, hs: seq<BlockHeader>, limits: seq<int>) {
    && |limits| == |hs|
    && forall i :: 1 <= i < |hs| ==> TimestampOk(rule, hs[i], hs[i - 1], limits[i], ChainMedian(hs[..i]))
  }

  // ---------- Median-time-past never decreases ----------

  function CountGe(ts: seq<U32>, x: U32): (c: nat)
    ensures c <= |ts|
  {
    if |ts| == 0 then 0
    else CountGe(ts[..|ts| - 1], x) + (if ts[|ts| - 1] >= x then 1 else 0)
  }

  lemma {:induction false} CountGeConcat(a: seq<U32>, b: seq<U32>, x: U32)
    ensures CountGe(a + b, x) == CountGe(a, x) + CountGe(b, x)
  {
    if |b| == 0 {
      assert a + b == a;
    } else {
      var n := |b| - 1;
      assert (a + b)[..|a + b| - 1] == a + b[..n];
      CountGeConcat(a, b[..n], x);
    }
  }

  lemma CountGeLast(s: seq<U32>, y: U32, x: U32)
    ensures CountGe(s + [y], x) == CountGe(s, x) + (if y >= x then 1 else 0)
  {
    assert (s + [y])[..|s|] == s;
  }

  lemma {:induction false} CountGeInsert(s: seq<U32>, y: U32, x: U32)
    ensures CountGe(Insert(s, y), x) == CountGe(s, x) + (if y >= x then 1 else 0)
  {
    if |s| > 0 && s[|s| - 1] > y {
      var n := |s| - 1;
      CountGeInsert(s[..n], y, x);
      CountGeLast(Insert(s[..n], y), s[n], x);
    } else {
      CountGeLast(s, y, x);
    }
  }

  lemma {:induction false} CountGeSort(ts: seq<U32>, x: U32)
    ensures CountGe(Sort(ts), x) == CountGe(ts, x)
  {
    if |ts| > 0 {
      CountGeSort(ts[..|ts| - 1], x);
      CountGeInsert(Sort(ts[..|ts| - 1]), ts[|ts| - 1], x);
    }
  }

  ghost predicate Sorted(s: seq<U32>) {
    forall i, j :: 0 <= i <= j < |s| ==> s[i] <= s[j]
  }

  lemma {:induction false} InsertSorted(s: seq<U32>, x: U32)
    requires Sorted(s)
    ensures Sorted(Insert(s, x))
    ensures forall i :: 0 <= i <= |s| ==> Insert(s, x)[i] == x || Insert(s, x)[i] in s
  {
    if |s| > 0 && s[|s| - 1] > x {
      InsertSorted(s[..|s| - 1], x);
    }
  }

  lemma {:induction false} SortSorted(ts: seq<U32>)
    ensures Sorted(Sort(ts))
  {
    if |ts| > 0 {
      SortSorted(ts[..|ts| - 1]);
      InsertSorted(Sort(ts[..|ts| - 1]), ts[|ts| - 1]);
    }
  }

  /** In a sorted sequence the elements >= x are those from the first one on. */
  lemma {:induction false} CountSorted(s: seq<U32>, x: U32, k: nat)
    requires Sorted(s) && k < |s|
    ensures s[k] >= x <==> CountGe(s, x) >= |s| - k
  {
    var n := |s| - 1;
    if k < n {
      CountSorted(s[..n], x, k);
    } else if s[k] < x {
      AllBelow(s, x);
    }
  }

  lemma {:induction false} AllBelow(s: seq<U32>, x: U32)
    requires forall i :: 0 <= i < |s| ==> s[i] < x
    ensures CountGe(s, x) == 0
  {
    if |s| > 0 {
      AllBelow(s[..|s| - 1], x);
    }
  }

  /** The median is at least x exactly when enough of the window is. */
  lemma {:induction false} MedianAtLeast(ts: seq<U32>, x: U32)
    requires |ts| > 0
    ensures Median(ts) >= x <==> CountGe(ts, x) >= |ts| - |ts| / 2
  {
    SortSorted(ts);
    CountGeSort(ts, x);
    CountSorted(Sort(ts), x, |ts| / 2);
  }

  /** Sliding a window by a newer timestamp above its median does not lower the median. */
  lemma {:induction false} SlideKeepsMedian(w: seq<U32>, t: U32)
    requires 0 < |w| <= MEDIAN_COUNT && t >= Median(w)
    ensures Median([t] + w[..if |w| < MEDIAN_COUNT then |w| else |w| - 1]) >= Median(w)
  {
    var n := if |w| < MEDIAN_COUNT then |w| else |w| - 1;
    var w' := [t] + w[..n];
    var m := Median(w);
    MedianAtLeast(w, m);
    MedianAtLeast(w', m);
    CountGeConcat([t], w[..n], m);
    CountGeConcat(w[..n], w[n..], m);
    assert w == w[..n] + w[n..];
    assert CountGe([t], m) == 1 by {
      assert [t][..0] == [];
    }
  }

  lemma {:induction false} TimesOfChain(hs: seq<BlockHeader>, n: nat)
    requires |hs| > 0
    ensures var ts := Times(Lookup(hs), |hs| - 1, n);
      && |ts| == (if n <= |hs| then n else |hs|)
      && forall i :: 0 <= i < |ts| ==> ts[i] == hs[|hs| - 1 - i].timestamp
  {
    if n > 0 {
      TimesOfChain(hs, n - 1);
    }
  }

  lemma {:induction false} WindowSlides(hs: seq<BlockHeader>, h: BlockHeader)
    requires |hs| > 0
    ensures var w := Times(Lookup(hs), |hs| - 1, MEDIAN_COUNT);
      Times(Lookup(hs + [h]), |hs|, MEDIAN_COUNT)
      == [h.timestamp] + w[..if |w| < MEDIAN_COUNT then |w| else |w| - 1]
  {
    TimesOfChain(hs, MEDIAN_COUNT);
    TimesOfChain(hs + [h], MEDIAN_COUNT);
    assert |hs + [h]| - 1 == |hs|;
  }

  /** Timestamps of a prev+1 chain increase, so the last one is above the median. */
  lemma {:induction false} LastIsAboveMedian(hs: seq<BlockHeader>)
    requires |hs| > 0 && forall i :: 1 <= i < |hs| ==> hs[i].timestamp > hs[i - 1].timestamp
    ensures ChainMedian(hs) <= hs[|hs| - 1].timestamp
  {
    var last := hs[|hs| - 1].timestamp;
    var w := Times(Lookup(hs), |hs| - 1, MEDIAN_COUNT);
    TimesOfChain(hs, MEDIAN_COUNT);
    Increasing(hs);
    if ChainMedian(hs) > last {
      MedianAtLeast(w, last + 1);
      AllBelow(w, last + 1);
    }
  }

  lemma {:induction false} Increasing(hs: seq<BlockHeader>)
    requires forall i :: 1 <= i < |hs| ==> hs[i].timestamp > hs[i - 1].timestamp
    ensures forall i, j :: 0 <= i <= j < |hs| ==> hs[i].timestamp <= hs[j].timestamp
  {
    if |hs| > 0 {
      var n := |hs| - 1;
      Increasing(hs[..n]);
      assert forall i, j :: 0 <= i <= j < n ==> hs[..n][i].timestamp <= hs[..n][j].timestamp;
      forall i | 0 <= i < n ensures hs[i].timestamp <= hs[n].timestamp {
        assert hs[..n][i].timestamp <= hs[..n][n - 1].timestamp;
      }
    }
  }

  /** Under either rule an accepted timestamp is above the median-time-past before it. */
  lemma {:induction false} AcceptedAboveMedian(rule: TimestampRule, hs: seq<BlockHeader>, limits: seq<int>, i: nat)
    requires AcceptedHeaders(rule, hs, limits) && 1 <= i < |hs|
    ensures hs[i].timestamp > ChainMedian(hs[..i])
  {
    assert TimestampOk(rule, hs[i], hs[i - 1], limits[i], ChainMedian(hs[..i]));
    if rule.PrevPlusOne? {
      assert forall j :: 1 <= j < |hs| ==> hs[j].timestamp > hs[j - 1].timestamp;
      LastIsAboveMedian(hs[..i]);
    }
  }

  /** Median-time-past never decreases along a chain of accepted headers. */
  lemma {:induction false} MedianNeverDecreases(rule: TimestampRule, hs: seq<BlockHeader>, limits: seq<int>, i: nat,
                                                j: nat)
    requires AcceptedHeaders(rule, hs, limits) && 1 <= i <= j <= |hs|
    ensures ChainMedian(hs[..i]) <= ChainMedian(hs[..j])
    decreases j
  {
    if i < j {
      MedianNeverDecreases(rule, hs, limits, i, j - 1);
      var prefix := hs[..j - 1];
      AcceptedAboveMedian(rule, hs, limits, j - 1);
      assert hs[..j] == prefix + [hs[j - 1]];
      WindowSlides(prefix, hs[j - 1]);
      TimesOfChain(prefix, MEDIAN_COUNT);
      SlideKeepsMedian(Times(Lookup(prefix), |prefix| - 1, MEDIAN_COUNT), hs[j - 1].timestamp);
    }
  }

  /** A transaction final at height i of an accepted chain is final at every later height. */
  lemma {:induction false} FinalityIsStable(rule: TimestampRule, hs: seq<BlockHeader>, limits: seq<int>,
                                            tx: Transaction, i: nat, j: nat)
    requires AcceptedHeaders(rule, hs, limits) && 1 <= i <= j <= |hs|
    requires TxValidation.Final(tx, i, ChainMedian(hs[..i]))
    ensures TxValidation.Final(tx, j, ChainMedian(hs[..j]))
  {
    MedianNeverDecreases(rule, hs, limits, i, j);
  }

  // ---------- Median-time-past stays within the clocks ----------

  lemma {:induction false} CountGeSome(ts: seq<U32>, x: U32)
    requires CountGe(ts, x) > 0
    ensures exists i :: 0 <= i < |ts| && ts[i] >= x
  {
    if ts[|ts| - 1] < x {
      CountGeSome(ts[..|ts| - 1], x);
      var i :| 0 <= i < |ts| - 1 && ts[..|ts| - 1][i] >= x;
      assert ts[i] >= x;
    }
  }

  lemma {:induction false} MedianWithin(ts: seq<U32>, bound: int)
    requires 0 <= bound && forall i :: 0 <= i < |ts| ==> ts[i] <= bound
    ensures Median(ts) <= bound
  {
    if |ts| > 0 {
      MedianAtLeast(ts, Median(ts));
      CountGeSome(ts, Median(ts));
    }
  }

  lemma {:induction false} TimesWithin(hs: seq<BlockHeader>, tip: nat, n: nat, bound: int)
    requires forall i :: 0 <= i < |hs| ==> hs[i].timestamp <= bound
    ensures forall k :: 0 <= k < |Times(Lookup(hs), tip, n)| ==> Times(Lookup(hs), tip, n)[k] <= bound
  {
    if n > 0 {
      TimesWithin(hs, tip, n - 1, bound);
    }
  }

  /** No header accepted by clocks that allow timestamps up to the bound is beyond it, and
      neither is median-time-past; so no transaction locked until then is final. */
  lemma {:induction false} ClocksBoundMedian(rule: TimestampRule, hs: seq<BlockHeader>, limits: seq<int>, bound: nat)
    requires AcceptedHeaders(rule, hs, limits) && |hs| > 0 && hs[0].timestamp <= bound
    requires forall i :: 1 <= i < |hs| ==> limits[i] <= bound
    ensures forall i :: 0 <= i < |hs| ==> hs[i].timestamp <= bound
    ensures ChainMedian(hs) <= bound
    ensures forall tx: Transaction, height: nat ::
      tx.lockTime >= bound && tx.lockTime >= TxValidation.LOCKTIME_THRESHOLD && tx.lockTime != 0
      && (exists i :: 0 <= i < |tx.inputs| && tx.inputs[i].sequence != TxValidation.SEQUENCE_FINAL)
      ==> !TxValidation.Final(tx, height, ChainMedian(hs))
  {
    hide ChainMedian;
    forall i | 0 <= i < |hs| ensures hs[i].timestamp <= bound {
      if i > 0 {
        assert TimestampOk(rule, hs[i], hs[i - 1], limits[i], ChainMedian(hs[..i]));
      }
    }
    MedianOfBounded(hs, bound);
  }

  lemma MedianOfBounded(hs: seq<BlockHeader>, bound: nat)
    requires |hs| > 0 && forall i :: 0 <= i < |hs| ==> hs[i].timestamp <= bound
    ensures ChainMedian(hs) <= bound
  {
    TimesWithin(hs, |hs| - 1, MEDIAN_COUNT, bound);
    MedianWithin(Times(Lookup(hs), |hs| - 1, MEDIAN_COUNT), bound);
  }
}
