/** Block locators: the heights a node names when it asks a peer for headers
    (BlockLocator in internal/chain/chain.go, HeaderLocator in
    internal/chain/headers.go). */
module Locator {
  import opened Types

  const MAX_LOCATOR_LEN: nat := 43

  function Pow2(k: nat): (p: nat)
    ensures p >= 1
  {
    if k == 0 then 1 else 2 * Pow2(k - 1)
  }

  /** How far below the tip entry n lies while genesis is not reached. */
  function Drop(n: nat): nat {
    if n <= 10 then n else 9 + Pow2(n - 10)
  }

  function HeightAt(tip: nat, n: nat): nat {
    if tip <= Drop(n) then 0 else tip - Drop(n)
  }

  /** The 32-bit step after n entries. */
  function Step(n: nat): nat {
    if n <= 10 then 1 else Pow2(n - 10) % TWO32
  }

  lemma {:induction false} PowGrows(a: nat, b: nat)
    requires a <= b
    ensures Pow2(a) <= Pow2(b)
  {
    if a < b {
      PowGrows(a, b - 1);
    }
  }

  lemma Pow2Doubles(k: nat, p: nat)
    requires Pow2(k) == p
    ensures Pow2(k + 4) == 16 * p
  {
    assert Pow2(k + 4) == 2 * Pow2(k + 3) && Pow2(k + 3) == 2 * Pow2(k + 2);
    assert Pow2(k + 2) == 2 * Pow2(k + 1) && Pow2(k + 1) == 2 * Pow2(k);
  }

  lemma Pow2At32()
    ensures Pow2(32) == TWO32 && Pow2(31) == 0x8000_0000
  {
    hide Pow2;
    Pow2At0();
    Pow2Doubles(0, 1);
    Pow2Doubles(4, 16);
    Pow2Doubles(8, 0x100);
    Pow2Doubles(12, 0x1000);
    Pow2Doubles(16, 0x1_0000);
    Pow2Doubles(20, 0x10_0000);
    Pow2Doubles(24, 0x100_0000);
    Pow2Doubles(28, 0x1000_0000);
    Pow2Next(31);
  }

  lemma Pow2At0()
    ensures Pow2(0) == 1
  {
  }

  lemma Pow2Next(k: nat)
    ensures Pow2(k + 1) == 2 * Pow2(k)
  {
  }

  /** While genesis is not reached at most 41 entries were produced, so the step has
      not overflowed. */
  lemma {:induction false} StepFits(tip: nat, n: nat)
    requires tip < TWO32 && HeightAt(tip, n) > 0
    ensures n <= 41 && (n > 10 ==> Step(n) == Pow2(n - 10)) && Step(n) > 0
  {
    hide Pow2;
    Pow2At32();
    if n >= 42 {
      PowGrows(32, n - 10);
    } else if n > 10 {
      PowGrows(n - 10, 31);
    }
  }

  /** One round of the loop: subtract the step, then double it after ten entries. */
  lemma {:induction false} NextEntry(tip: nat, n: nat)
    requires tip < TWO32 && HeightAt(tip, n) > 0
    ensures var h, s := HeightAt(tip, n), Step(n);
      HeightAt(tip, n + 1) == (if h < s then 0 else h - s)
    ensures Step(n + 1) == (if n + 1 > 10 then Step(n) * 2 % TWO32 else Step(n))
    ensures HeightAt(tip, n + 1) < HeightAt(tip, n)
  {
    hide Pow2;
    StepFits(tip, n);
    if n >= 10 {
      Pow2Next(n - 10);
      Pow2At0();
    }
  }

  /** The heights of a locator from entry n on: down to genesis, which is the last. */
  ghost function HeightsFrom(tip: nat, n: nat): (hs: seq<nat>)
    requires tip < TWO32
    ensures |hs| > 0
    decreases HeightAt(tip, n)
  {
    if HeightAt(tip, n) == 0 then [0]
    else
      NextEntry(tip, n);
      [HeightAt(tip, n)] + HeightsFrom(tip, n + 1)
  }

  /** The heights named by the locator of a chain with tip height `tip`. */
  ghost function LocatorHeights(tip: nat): (hs: seq<nat>)
    requires tip < TWO32
    ensures |hs| > 0
  {
    HeightsFrom(tip, 0)
  }

  lemma {:induction false} EntryAt(tip: nat, n: nat, i: nat)
    requires tip < TWO32 && i < |HeightsFrom(tip, n)|
    ensures HeightsFrom(tip, n)[i] == HeightAt(tip, n + i)
    ensures i < |HeightsFrom(tip, n)| - 1 <==> HeightAt(tip, n + i) > 0
    decreases HeightAt(tip, n)
  {
    hide HeightAt;
    hide Step;
    if HeightAt(tip, n) > 0 {
      NextEntry(tip, n);
      if i > 0 {
        EntryAt(tip, n + 1, i - 1);
      }
    }
  }

  /** A locator descends strictly from the tip to genesis and has at most 43 entries,
      fewer than the 500 the receiver accepts. */
  lemma {:induction false} LocatorShape(tip: nat)
    requires tip < TWO32
    ensures var hs := LocatorHeights(tip); hs[0] == tip && hs[|hs| - 1] == 0 && |hs| <= MAX_LOCATOR_LEN
    ensures forall n :: 0 <= n < |LocatorHeights(tip)| - 1 ==> LocatorHeights(tip)[n] > LocatorHeights(tip)[n + 1]
  {
    hide Step;
    var hs := LocatorHeights(tip);
    EntryAt(tip, 0, 0);
    EntryAt(tip, 0, |hs| - 1);
    forall n | 0 <= n < |hs| - 1 ensures hs[n] > hs[n + 1] {
      EntryAt(tip, 0, n);
      EntryAt(tip, 0, n + 1);
      NextEntry(tip, n);
    }
    if |hs| >= 2 {
      EntryAt(tip, 0, |hs| - 2);
      StepFits(tip, |hs| - 2);
    }
  }

  /** Where two chains part, the first entry on the common part lies at most twice the
      fork depth below the tip. */
  lemma {:induction false} FirstCommonEntry(tip: nat, fork: nat, n: nat)
    requires tip < TWO32 && fork <= tip && n < |LocatorHeights(tip)|
    requires LocatorHeights(tip)[n] <= fork && forall j :: 0 <= j < n ==> LocatorHeights(tip)[j] > fork
    ensures tip - LocatorHeights(tip)[n] <= 2 * (tip - fork)
  {
    EntryAt(tip, 0, n);
    if n > 0 {
      EntryAt(tip, 0, n - 1);
      assert LocatorHeights(tip)[n - 1] > fork;
      DropDoubles(n);
    }
  }

  lemma DropDoubles(n: nat)
    requires n > 0
    ensures Drop(n) <= 2 * Drop(n - 1) + 1
    ensures n > 1 ==> Drop(n) <= 2 * Drop(n - 1)
  {
    hide Pow2;
    if n > 11 {
      Pow2Next(n - 11);
    } else if n == 11 {
      Pow2At0();
      Pow2Next(0);
    }
  }

  /** A list that follows the locator's loop to its end is the locator. */
  lemma {:induction false} LoopIsLocator(tip: nat, n: nat, hs: seq<nat>)
    requires tip < TWO32 && |hs| > 0 && hs[|hs| - 1] == 0
    requires forall i :: 0 <= i < |hs| ==> hs[i] == HeightAt(tip, n + i)
    requires forall i :: 0 <= i < |hs| - 1 ==> hs[i] > 0
    ensures hs == HeightsFrom(tip, n)
    decreases |hs|
  {
    hide HeightAt;
    hide Step;
    if |hs| > 1 {
      assert hs[0] > 0;
      NextEntry(tip, n);
      forall i | 0 <= i < |hs| - 1 ensures hs[1..][i] == HeightAt(tip, n + 1 + i) {
        assert hs[1..][i] == hs[i + 1];
      }
      LoopIsLocator(tip, n + 1, hs[1..]);
      assert hs == [hs[0]] + hs[1..];
    }
  }
}
