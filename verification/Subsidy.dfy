/** Block subsidies (internal/params/params.go) and the money supply they allow. */
module Subsidy {
  import opened Types

  /** MaxMoneyValue of internal/params/networks.go. */
  const MAX_MONEY: int := 2_099_999_997_690_000

  const MAINNET_SUBSIDY: int := 50_0000_0000
  const MAINNET_HALVING: int := 210_000

  /** Shifting right by k bits. */
  function Shr(n: nat, k: nat): nat {
    if k == 0 then n else Shr(n, k - 1) / 2
  }

  function CalcSubsidy(p: ChainParams, height: nat): nat {
    if p.subsidyHalvingInterval == 0 then p.initialSubsidy
    else
      var halvings := height / p.subsidyHalvingInterval;
      if halvings >= 64 then 0 else Shr(p.initialSubsidy, halvings)
  }

  lemma {:induction false} SubsidyBound(p: ChainParams, height: nat)
    ensures CalcSubsidy(p, height) <= p.initialSubsidy
  {
    if p.subsidyHalvingInterval != 0 && height / p.subsidyHalvingInterval < 64 {
      ShrBound(p.initialSubsidy, height / p.subsidyHalvingInterval);
    }
  }

  lemma {:induction false} ShrBound(n: nat, k: nat)
    ensures Shr(n, k) <= n
  {
    if k > 0 {
      ShrBound(n, k - 1);
    }
  }

  /** The subsidies of the blocks at heights lo, ..., hi - 1. */
  function SubsidySum(p: ChainParams, lo: nat, hi: nat): nat
    requires lo <= hi
    decreases hi - lo
  {
    if lo == hi then 0 else SubsidySum(p, lo, hi - 1) + CalcSubsidy(p, hi - 1)
  }

  ghost predicate MainnetEconomics(p: ChainParams) {
    p.initialSubsidy == MAINNET_SUBSIDY && p.subsidyHalvingInterval == MAINNET_HALVING
  }

  /** The sum of the first k per-block rewards, one per halving era. */
  function EraRewards(k: nat): nat {
    if k == 0 then 0 else EraRewards(k - 1) + Shr(MAINNET_SUBSIDY, k - 1)
  }

  lemma EraOf(k: nat, n: nat)
    requires n < MAINNET_HALVING
    ensures (MAINNET_HALVING * k + n) / MAINNET_HALVING == k
  {
  }

  lemma SubsidyInEra(p: ChainParams, k: nat, n: nat)
    requires MainnetEconomics(p) && k < 64 && n < MAINNET_HALVING
    ensures CalcSubsidy(p, MAINNET_HALVING * k + n) == Shr(MAINNET_SUBSIDY, k)
  {
    hide Shr;
    EraOf(k, n);
  }

  lemma {:induction false} SumByEra(p: ChainParams, k: nat, n: nat)
    requires MainnetEconomics(p) && k < 64 && n <= MAINNET_HALVING
    ensures SubsidySum(p, 0, MAINNET_HALVING * k + n) == MAINNET_HALVING * EraRewards(k) + n * Shr(MAINNET_SUBSIDY, k)
    decreases k, n
  {
    hide Shr;
    hide CalcSubsidy;
    if n > 0 {
      SumByEra(p, k, n - 1);
      SubsidyInEra(p, k, n - 1);
      var e := Shr(MAINNET_SUBSIDY, k);
      assert (n - 1) * e + e == n * e;
    } else if k > 0 {
      SumByEra(p, k - 1, MAINNET_HALVING);
      assert MAINNET_HALVING * (k - 1) + MAINNET_HALVING == MAINNET_HALVING * k;
    }
  }

  lemma NextEra(k: nat, reward: nat, total: nat)
    requires Shr(MAINNET_SUBSIDY, k) == reward && EraRewards(k) == total
    ensures Shr(MAINNET_SUBSIDY, k + 1) == reward / 2 && EraRewards(k + 1) == total + reward
  {
  }

  lemma FirstEra()
    ensures Shr(MAINNET_SUBSIDY, 0) == MAINNET_SUBSIDY && EraRewards(0) == 0
  {
  }

  /** The reward is gone after 33 halvings. */
  lemma AllRewards()
    ensures Shr(MAINNET_SUBSIDY, 33) == 0 && EraRewards(33) == 9_999_999_989
  {
    hide Shr;
    hide EraRewards;
    FirstEra();
    NextEra(0, 5_000_000_000, 0);
    NextEra(1, 2_500_000_000, 5_000_000_000);
    NextEra(2, 1_250_000_000, 7_500_000_000);
    NextEra(3, 625_000_000, 8_750_000_000);
    NextEra(4, 312_500_000, 9_375_000_000);
    NextEra(5, 156_250_000, 9_687_500_000);
    NextEra(6, 78_125_000, 9_843_750_000);
    NextEra(7, 39_062_500, 9_921_875_000);
    NextEra(8, 19_531_250, 9_960_937_500);
    NextEra(9, 9_765_625, 9_980_468_750);
    NextEra(10, 4_882_812, 9_990_234_375);
    NextEra(11, 2_441_406, 9_995_117_187);
    NextEra(12, 1_220_703, 9_997_558_593);
    NextEra(13, 610_351, 9_998_779_296);
    NextEra(14, 305_175, 9_999_389_647);
    NextEra(15, 152_587, 9_999_694_822);
    NextEra(16, 76_293, 9_999_847_409);
    NextEra(17, 38_146, 9_999_923_702);
    NextEra(18, 19_073, 9_999_961_848);
    NextEra(19, 9_536, 9_999_980_921);
    NextEra(20, 4_768, 9_999_990_457);
    NextEra(21, 2_384, 9_999_995_225);
    NextEra(22, 1_192, 9_999_997_609);
    NextEra(23, 596, 9_999_998_801);
    NextEra(24, 298, 9_999_999_397);
    NextEra(25, 149, 9_999_999_695);
    NextEra(26, 74, 9_999_999_844);
    NextEra(27, 37, 9_999_999_918);
    NextEra(28, 18, 9_999_999_955);
    NextEra(29, 9, 9_999_999_973);
    NextEra(30, 4, 9_999_999_982);
    NextEra(31, 2, 9_999_999_986);
    NextEra(32, 1, 9_999_999_988);
  }

  /** Once a reward is zero, all later rewards are. */
  lemma {:induction false} RewardDiesOut(z: nat, k: nat)
    requires z <= k && Shr(MAINNET_SUBSIDY, z) == 0
    ensures Shr(MAINNET_SUBSIDY, k) == 0
    ensures EraRewards(k) == EraRewards(z)
    decreases k
  {
    if k > z {
      RewardDiesOut(z, k - 1);
    }
  }

  lemma {:induction false} SumGrows(p: ChainParams, lo: nat, m: nat, n: nat)
    requires lo <= m <= n
    ensures SubsidySum(p, lo, m) <= SubsidySum(p, lo, n)
    decreases n
  {
    if m < n {
      SumGrows(p, lo, m, n - 1);
    }
  }

  lemma {:induction false} SumFromZero(p: ChainParams, n: nat)
    requires n >= 1
    ensures SubsidySum(p, 0, n) == CalcSubsidy(p, 0) + SubsidySum(p, 1, n)
  {
    if n > 1 {
      SumFromZero(p, n - 1);
    }
  }

  lemma {:induction false} SumAfterAllHalvings(p: ChainParams, z: nat, n: nat)
    requires MainnetEconomics(p) && z < 64 && Shr(MAINNET_SUBSIDY, z) == 0 && n >= MAINNET_HALVING * z
    ensures SubsidySum(p, 0, n) == MAINNET_HALVING * EraRewards(z)
    decreases n
  {
    if n == MAINNET_HALVING * z {
      SumByEra(p, z, 0);
    } else {
      SumAfterAllHalvings(p, z, n - 1);
      var halvings := (n - 1) / MAINNET_HALVING;
      assert halvings >= z;
      RewardDiesOut(z, halvings);
    }
  }

  /** Mainnet subsidies never exceed MaxMoneyValue, and reach it exactly once
      all halvings are done. */
  lemma {:induction false} MainnetSupply(p: ChainParams, n: nat)
    requires MainnetEconomics(p)
    ensures SubsidySum(p, 0, n) <= MAX_MONEY
    ensures n >= 6_930_000 ==> SubsidySum(p, 0, n) == MAX_MONEY
  {
    hide Shr;
    hide EraRewards;
    hide SubsidySum;
    AllRewards();
    var m := if n >= 6_930_000 then n else 6_930_000;
    SumGrows(p, 0, n, m);
    SumAfterAllHalvings(p, 33, m);
  }
}
