/** Consensus constants and the coinbase schedule (src/chain/genesis.ts). */
module Genesis {
  import opened Binary

  const CHAIN_ID: nat := 0xc01d_feed
  const COIN: nat := 100_000_000
  const INITIAL_REWARD: nat := 50 * COIN
  const HALVING_INTERVAL: nat := 210_000
  const MAX_MONEY: nat := 21_000_000 * COIN
  const TARGET_BLOCK_TIME_S: nat := 150
  const DIFFICULTY_WINDOW: nat := 50
  const MTP_WINDOW: nat := 11
  const HALFLIFE_S: nat := 600
  const EMERGENCY_DROP_MULT: nat := 6
  const MAX_FUTURE_TIME_S: nat := 600
  const MAX_BLOCK_BYTES: nat := 262_144
  const SNAPSHOT_DEPTH: nat := 100
  const GENESIS_DIFFICULTY_COMPACT: nat := 0x2002_0000
  const GENESIS_TIMESTAMP: nat := 1_779_700_000
  const FORK1_ACTIVATION_TIME: nat := 1_783_267_200
  const SANDGLASS_FORK_HEIGHT: nat := 33_550
  const SANDGLASS_ANCHOR_TIMESTAMP: nat := 1_784_721_600
  const SANDGLASS_ANCHOR_CLAMP_BLOCKS: nat := 2000
  const SANDGLASS_ANCHOR_ATTEMPTS: nat := 5_000_000
  const SANDGLASS2_ANCHOR_HEIGHT: nat := 35_550

  /** Halved every 210,000 blocks, zero from the 64th halving on. */
  function BlockReward(height: nat): nat {
    var halvings := height / HALVING_INTERVAL;
    if halvings >= 64 then 0 else Halved(INITIAL_REWARD, halvings)
  }

  /** `x >> n` */
  function Halved(x: nat, n: nat): nat {
    if n == 0 then x else Halved(x, n - 1) / 2
  }

  /** Everything ever paid to miners up to and including `height`; genesis pays nothing. */
  function Supply(height: nat): nat {
    if height == 0 then 0 else Supply(height - 1) + BlockReward(height)
  }

  lemma {:induction false} HalvedShrinks(x: nat, n: nat)
    ensures Halved(x, n) <= x
  {
    if n > 0 {
      HalvedShrinks(x, n - 1);
    }
  }

  lemma {:induction false} HalvedExact(x: nat, n: nat)
    ensures Halved(x, n) * Pow(2, n) <= x < (Halved(x, n) + 1) * Pow(2, n)
  {
    if n > 0 {
      HalvedExact(x, n - 1);
      HalvedBracket(Halved(x, n - 1), Pow(2, n - 1));
    }
  }

  lemma HalvedBracket(y: nat, p: nat)
    ensures y / 2 * (2 * p) <= y * p && (y + 1) * p <= (y / 2 + 1) * (2 * p)
  {
    var h, b := y / 2, y % 2;
    assert y == 2 * h + b;
    assert h * (2 * p) == 2 * h * p;
    assert y * p == 2 * h * p + b * p;
    assert (h + 1) * (2 * p) == 2 * h * p + 2 * p;
    assert (y + 1) * p == 2 * h * p + (b + 1) * p;
    assert b * p >= 0 && (b + 1) * p <= 2 * p;
  }

  /** The reward is 50 coins divided by 2 once per 210,000 blocks, rounded down, for 64 intervals, and then nothing. */
  lemma RewardExact(height: nat)
    ensures var n, reward := height / 210_000, BlockReward(height);
            && (n < 64 ==> reward * Pow(2, n) <= 50 * 100_000_000 < (reward + 1) * Pow(2, n))
            && (n >= 64 ==> reward == 0)
  {
    hide Halved;
    HalvedExact(INITIAL_REWARD, height / HALVING_INTERVAL);
  }

  /** A whole further interval at the current reward covers everything still to come. */
  ghost function RemainingBound(height: nat): int {
    (2 * HALVING_INTERVAL - 1 - height % HALVING_INTERVAL) * BlockReward(height)
  }

  lemma RewardStep(height: nat)
    ensures (height + 1) % HALVING_INTERVAL != 0 ==> BlockReward(height + 1) == BlockReward(height)
    ensures (height + 1) % HALVING_INTERVAL == 0 ==> 2 * BlockReward(height + 1) <= BlockReward(height)
  {
    var era, next := height / HALVING_INTERVAL, (height + 1) / HALVING_INTERVAL;
    if (height + 1) % HALVING_INTERVAL == 0 {
      assert next == era + 1;
      if next < 64 {
        assert Halved(INITIAL_REWARD, next) == Halved(INITIAL_REWARD, era) / 2;
      }
    } else {
      assert next == era;
    }
  }

  lemma {:induction false} SupplyBound(height: nat)
    ensures Supply(height) + RemainingBound(height) <= RemainingBound(0)
  {
    hide BlockReward, RemainingBound;
    if height > 0 {
      SupplyBound(height - 1);
      BoundStep(height - 1);
    }
  }

  /** What a block is paid, the bound had in reserve. */
  lemma BoundStep(height: nat)
    ensures RemainingBound(height + 1) + BlockReward(height + 1) <= RemainingBound(height)
  {
    hide BlockReward;
    RewardStep(height);
    var r, r' := BlockReward(height), BlockReward(height + 1);
    var pos, pos' := height % HALVING_INTERVAL, (height + 1) % HALVING_INTERVAL;
    NextPosition(height);
    if pos' == 0 {
      assert RemainingBound(height + 1) == (2 * HALVING_INTERVAL - 1) * r';
      assert RemainingBound(height) == HALVING_INTERVAL * r;
    } else {
      OneMore(2 * HALVING_INTERVAL - 1 - pos', r);
    }
  }

  lemma NextPosition(height: nat)
    ensures var pos, pos' := height % HALVING_INTERVAL, (height + 1) % HALVING_INTERVAL;
            if pos' == 0 then pos == HALVING_INTERVAL - 1 else pos == pos' - 1
  {
  }

  lemma OneMore(w: int, r: int)
    ensures w * r + r == (w + 1) * r
  {
  }

  /** The whole schedule pays out strictly less than MAX_MONEY. */
  lemma SupplyCapped(height: nat)
    ensures Supply(height) < MAX_MONEY
  {
    SupplyBound(height);
    assert BlockReward(0) == INITIAL_REWARD;
    assert RemainingBound(0) < MAX_MONEY;
    RemainingNonNegative(height);
  }

  lemma RemainingNonNegative(height: nat)
    ensures RemainingBound(height) >= 0
  {
    hide BlockReward;
    var left: nat := 2 * HALVING_INTERVAL - 1 - height % HALVING_INTERVAL;
    ProductNonNegative(left, BlockReward(height));
  }

  lemma ProductNonNegative(a: nat, b: nat)
    ensures a * b >= 0
  {
  }
}
