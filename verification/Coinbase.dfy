/** The halving subsidy and the bound it puts on the supply. */
module Coinbase {

  const INITIAL_SUBSIDY: nat := 50 * 100_000_000
  const HALVING_INTERVAL: nat := 210_000
  const SUPPLY_CAP: nat := 2_099_999_997_690_000

  /** n >> k */
  function ShiftRight(n: nat, k: nat): nat
    decreases k
  {
    if k == 0 then n else ShiftRight(n / 2, k - 1)
  }

  /** The total_reward of build_coinbase_transaction. */
  function CoinbaseReward(height: nat, fees: int): int {
    ShiftRight(INITIAL_SUBSIDY, height / HALVING_INTERVAL) + fees
  }

  function RewardAtHeight(height: nat, fees: int): int {
    var halvings := height / HALVING_INTERVAL;
    if halvings >= 64 then fees else ShiftRight(INITIAL_SUBSIDY, halvings) + fees
  }

  function Subsidy(height: nat): nat {
    ShiftRight(INITIAL_SUBSIDY, height / HALVING_INTERVAL)
  }

  /** The subsidies of all blocks below a height. */
  function Supply(height: nat): nat {
    if height == 0 then 0 else Supply(height - 1) + Subsidy(height - 1)
  }

  /** The subsidies of the first eras, era by era. */
  function EraSupply(eras: nat): nat {
    if eras == 0 then 0 else EraSupply(eras - 1) + HALVING_INTERVAL * ShiftRight(INITIAL_SUBSIDY, eras - 1)
  }

  lemma {:induction false} ShiftHalves(n: nat, k: nat)
    ensures ShiftRight(n, k + 1) == ShiftRight(n, k) / 2
    decreases k
  {
    if k > 0 { ShiftHalves(n / 2, k - 1); }
  }

  lemma {:induction false} ShiftFalls(n: nat, j: nat, k: nat)
    requires j <= k
    ensures ShiftRight(n, k) <= ShiftRight(n, j)
    decreases k - j
  {
    if j < k {
      ShiftHalves(n, j);
      ShiftFalls(n, j + 1, k);
    }
  }

  /** The same sum, newest era last, in a form that can be evaluated. */
  function Eras(subsidy: nat, eras: nat): nat
    decreases eras
  {
    if eras == 0 then 0 else 210_000 * subsidy + Eras(subsidy / 2, eras - 1)
  }

  lemma {:induction false} ErasExtend(n: nat, k: nat)
    ensures Eras(n, k + 1) == Eras(n, k) + 210_000 * ShiftRight(n, k)
    decreases k
  {
    if k > 0 { ErasExtend(n / 2, k - 1); }
  }

  lemma {:induction false} ErasAreEraSupply(k: nat)
    ensures EraSupply(k) == Eras(INITIAL_SUBSIDY, k)
  {
    if k > 0 {
      ErasAreEraSupply(k - 1);
      ErasExtend(INITIAL_SUBSIDY, k - 1);
    }
  }

  lemma {:induction false} ErasSplit(n: nat, j: nat, k: nat)
    ensures ShiftRight(n, j + k) == ShiftRight(ShiftRight(n, j), k)
    ensures Eras(n, j + k) == Eras(n, j) + Eras(ShiftRight(n, j), k)
    decreases j
  {
    if j > 0 { ErasSplit(n / 2, j - 1, k); }
  }

  lemma SixEras(n: nat, a: nat, b: nat, c: nat, d: nat, e: nat, f: nat)
    requires a == n / 2 && b == a / 2 && c == b / 2 && d == c / 2 && e == d / 2 && f == e / 2
    ensures ShiftRight(n, 6) == f
    ensures Eras(n, 6) == 210_000 * (n + a + b + c + d + e)
  {
  }

  lemma ThreeEras()
    ensures ShiftRight(4, 2) == 1 && ShiftRight(4, 3) == 0 && Eras(4, 3) == 1_470_000
  {
  }

  lemma ThirtyThreeHalvings()
    ensures ShiftRight(INITIAL_SUBSIDY, 32) == 1 && ShiftRight(INITIAL_SUBSIDY, 33) == 0
    ensures EraSupply(33) == SUPPLY_CAP
  {
    hide ShiftRight, Eras, EraSupply;
    SixEras(5000000000, 2500000000, 1250000000, 625000000, 312500000, 156250000, 78125000);
    ErasSplit(5000000000, 6, 27);
    ErasSplit(5000000000, 6, 26);
    SixEras(78125000, 39062500, 19531250, 9765625, 4882812, 2441406, 1220703);
    ErasSplit(78125000, 6, 21);
    ErasSplit(78125000, 6, 20);
    SixEras(1220703, 610351, 305175, 152587, 76293, 38146, 19073);
    ErasSplit(1220703, 6, 15);
    ErasSplit(1220703, 6, 14);
    SixEras(19073, 9536, 4768, 2384, 1192, 596, 298);
    ErasSplit(19073, 6, 9);
    ErasSplit(19073, 6, 8);
    SixEras(298, 149, 74, 37, 18, 9, 4);
    ErasSplit(298, 6, 3);
    ErasSplit(298, 6, 2);
    ThreeEras();
    ErasAreEraSupply(33);
  }

  /** The subsidy never rises, and is nothing exactly from height 6,930,000 on. */
  lemma SubsidyFalls(h: nat, k: nat)
    requires h <= k
    ensures Subsidy(k) <= Subsidy(h)
    ensures Subsidy(h) == 0 <==> h >= 6_930_000
  {
    ShiftFalls(INITIAL_SUBSIDY, h / HALVING_INTERVAL, k / HALVING_INTERVAL);
    ThirtyThreeHalvings();
    if h >= 6_930_000 {
      ShiftFalls(INITIAL_SUBSIDY, 33, h / HALVING_INTERVAL);
    } else {
      ShiftFalls(INITIAL_SUBSIDY, h / HALVING_INTERVAL, 32);
    }
  }

  /** The two reward formulas agree at every height, past 64 halvings as well. */
  lemma RewardsAgree(height: nat, fees: int)
    ensures CoinbaseReward(height, fees) == RewardAtHeight(height, fees)
  {
    if height / HALVING_INTERVAL >= 64 {
      ThirtyThreeHalvings();
      ShiftFalls(INITIAL_SUBSIDY, 33, height / HALVING_INTERVAL);
    }
  }

  lemma NextHeight(h: nat)
    ensures if h % 210_000 == 209_999
            then (h + 1) / 210_000 == h / 210_000 + 1 && (h + 1) % 210_000 == 0
            else (h + 1) / 210_000 == h / 210_000 && (h + 1) % 210_000 == h % 210_000 + 1
  {
  }

  lemma {:induction false} SupplyByEra(height: nat)
    ensures Supply(height) == EraSupply(height / 210_000) + height % 210_000 * Subsidy(height)
  {
    if height > 0 {
      var h := height - 1;
      SupplyByEra(h);
      NextHeight(h);
      var e, r, s := h / 210_000, h % 210_000, Subsidy(h);
      assert Supply(height) == EraSupply(e) + r * s + s;
      if r == 209_999 {
        NextEra(e, s);
      } else {
        OneMore(r, s);
      }
    }
  }

  lemma NextEra(e: nat, s: nat)
    requires s == ShiftRight(INITIAL_SUBSIDY, e)
    ensures EraSupply(e + 1) == EraSupply(e) + 209_999 * s + s
  {
  }

  lemma OneMore(r: nat, s: nat)
    ensures (r + 1) * s == r * s + s
  {
  }

  lemma {:induction false} SupplyGrows(h: nat, k: nat)
    requires h <= k
    ensures Supply(h) <= Supply(k)
    ensures h >= 6_930_000 ==> Supply(h) == Supply(k)
    decreases k - h
  {
    if h < k {
      SupplyGrows(h, k - 1);
      SubsidyFalls(k - 1, k - 1);
    }
  }

  lemma SupplyAtLastEra()
    ensures Supply(6_930_000) == SUPPLY_CAP
  {
    hide Supply, EraSupply, Subsidy;
    ThirtyThreeHalvings();
    var h := 6_930_000;
    SupplyByEra(h);
    assert h / 210_000 == 33 && h % 210_000 == 0;
  }

  /** The supply stays within the cap, reaches it at height 6,930,000 and never before. */
  lemma SupplyCapped(height: nat)
    ensures Supply(height) <= SUPPLY_CAP
    ensures Supply(height) == SUPPLY_CAP <==> height >= 6_930_000
  {
    SupplyAtLastEra();
    if height >= 6_930_000 {
      SupplyGrows(6_930_000, height);
    } else {
      SupplyGrows(height + 1, 6_930_000);
      SubsidyFalls(height, height);
      assert Supply(height + 1) == Supply(height) + Subsidy(height);
    }
  }

  /** The subsidy starts at 50 coins and is halved, rounding down, every 210,000 blocks. */
  lemma SubsidyHalves(height: nat)
    ensures height < 210_000 ==> Subsidy(height) == 5_000_000_000
    ensures Subsidy(height + 210_000) == Subsidy(height) / 2
  {
    assert (height + 210_000) / HALVING_INTERVAL == height / HALVING_INTERVAL + 1;
    ShiftHalves(INITIAL_SUBSIDY, height / HALVING_INTERVAL);
  }

  /** What the coinbases below a height pay beyond the fees of their blocks, by either reward function. */
  function NewCoins(height: nat, fees: int -> int, byCoinbase: bool): int {
    if height == 0 then 0
    else
      var h := height - 1;
      NewCoins(h, fees, byCoinbase) + (if byCoinbase then CoinbaseReward(h, fees(h)) else RewardAtHeight(h, fees(h))) - fees(h)
  }

  /** Whatever the fees, the rewards beyond them never add up to more than the cap, and reach it at height 6,930,000. */
  lemma {:induction false} RewardsCapped(height: nat, fees: int -> int, byCoinbase: bool)
    ensures NewCoins(height, fees, byCoinbase) == Supply(height)
    ensures NewCoins(height, fees, byCoinbase) <= SUPPLY_CAP
    ensures NewCoins(height, fees, byCoinbase) == SUPPLY_CAP <==> height >= 6_930_000
  {
    SupplyCapped(height);
    hide ShiftRight;
    if height > 0 {
      RewardsCapped(height - 1, fees, byCoinbase);
      RewardsAgree(height - 1, fees(height - 1));
    }
  }
}
