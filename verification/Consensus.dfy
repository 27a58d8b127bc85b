/** Which difficulty a block must carry, and what it is worth (src/chain/consensus.ts). */
module Consensus {
  import opened Asert
  import opened Binary
  import opened BlockCodec
  import opened Compact
  import opened Crypto
  import opened Genesis

  function SandglassAnchorTarget(): nat { TWO256 / SANDGLASS_ANCHOR_ATTEMPTS }

  const EMERGENCY_GAP_S := EMERGENCY_DROP_MULT * TARGET_BLOCK_TIME_S

  /** Both the candidate and its parent came more than six block times late, and the grandparent is not genesis. */
  predicate EmergencyDrop(prevs: seq<Header>, candidateTime: Option<nat>) {
    && candidateTime.Some? && |prevs| >= 2
    && prevs[|prevs| - 2].height > 0
    && prevs[|prevs| - 1].timestamp - prevs[|prevs| - 2].timestamp > EMERGENCY_GAP_S
    && candidateTime.value - prevs[|prevs| - 1].timestamp > EMERGENCY_GAP_S
  }

  function Min(a: nat, b: nat): nat { if a <= b then a else b }

  /** The clamp of the blocks just above the second fork: within a factor 4 of its anchor. */
  function Band(t: nat, anchor: nat): nat {
    if t < anchor / 4 then anchor / 4 else if t > anchor * 4 then anchor * 4 else t
  }

  /** None is the thrown error for a missing or wrong third-fork anchor. */
  function NextDifficulty(nextHeight: nat, prevs: seq<Header>, candidateTime: Option<nat>,
      anchor: Option<Header>): Option<int>
    requires prevs != []
  {
    if nextHeight == 0 then Some(GENESIS_DIFFICULTY_COMPACT)
    else if nextHeight == SANDGLASS_FORK_HEIGHT then Some(TargetToCompact(SandglassAnchorTarget()))
    else
      var prev := prevs[|prevs| - 1];
      if EmergencyDrop(prevs, candidateTime) then
        Some(TargetToCompact(Min(CompactToTarget(prev.difficulty) * 2, CompactToTarget(GENESIS_DIFFICULTY_COMPACT))))
      else if nextHeight > SANDGLASS2_ANCHOR_HEIGHT then
        if anchor.None? || anchor.value.height != SANDGLASS2_ANCHOR_HEIGHT then None
        else Some(TargetToCompact(AsertTarget(prev.height, prev.timestamp, anchor.value.height, anchor.value.timestamp,
                                              CompactToTarget(anchor.value.difficulty))))
      else if nextHeight > SANDGLASS_FORK_HEIGHT then
        var t := AsertTarget(prev.height, prev.timestamp, SANDGLASS_FORK_HEIGHT, SANDGLASS_ANCHOR_TIMESTAMP,
                             SandglassAnchorTarget());
        Some(TargetToCompact(if nextHeight <= SANDGLASS_FORK_HEIGHT + SANDGLASS_ANCHOR_CLAMP_BLOCKS
                             then Band(t, SandglassAnchorTarget()) else t))
      else
        Some(TargetToCompact(AsertTarget(prev.height, prev.timestamp, 0, GENESIS_TIMESTAMP,
                                         CompactToTarget(GENESIS_DIFFICULTY_COMPACT))))
  }

  // ------------------------------------------------------------------
  // Every regime stays in range
  // ------------------------------------------------------------------

  lemma AnchorTargetRange()
    ensures 4 <= SandglassAnchorTarget() && SandglassAnchorTarget() * 4 <= FloorTarget()
    ensures SandglassAnchorTarget() <= TWO256
  {
    FloorValue();
    PowPositive(256, 29);
    var a := SandglassAnchorTarget();
    assert TWO256 == 5_000_000 * a + TWO256 % 5_000_000;
  }

  lemma EncodedRange(t: nat)
    requires 1 <= t <= FloorTarget()
    ensures 1 <= CompactToTarget(TargetToCompact(t)) <= FloorTarget() < TWO256
    ensures TargetToCompact(CompactToTarget(TargetToCompact(t))) == TargetToCompact(t)
  {
    hide CompactToTarget, TargetToCompact;
    FloorValue();
    CompactIsRoundDown(t, t);
    CanonicalCompact(t);
  }

  predicate GoodDifficulty(d: int) {
    && 1 <= CompactToTarget(d) <= CompactToTarget(GENESIS_DIFFICULTY_COMPACT)
    && TargetToCompact(CompactToTarget(d)) == d
  }

  /** Whatever rule applies, a required difficulty has a target in [1, floor], in canonical form, and is worth work. */
  lemma RequiredDifficultyGood(nextHeight: nat, prevs: seq<Header>, candidateTime: Option<nat>, anchor: Option<Header>)
    requires prevs != [] && CompactToTarget(prevs[|prevs| - 1].difficulty) >= 1
    requires NextDifficulty(nextHeight, prevs, candidateTime, anchor).Some?
    ensures GoodDifficulty(NextDifficulty(nextHeight, prevs, candidateTime, anchor).value)
  {
    hide CompactToTarget, TargetToCompact, AsertTarget, SandglassAnchorTarget;
    var prev := prevs[|prevs| - 1];
    FloorValue();
    AnchorTargetRange();
    if nextHeight == 0 {
      GenesisDifficultyGood();
    } else if nextHeight == SANDGLASS_FORK_HEIGHT {
      EncodedRange(SandglassAnchorTarget());
    } else if EmergencyDrop(prevs, candidateTime) {
      EncodedRange(Min(CompactToTarget(prev.difficulty) * 2, FloorTarget()));
    } else if nextHeight > SANDGLASS2_ANCHOR_HEIGHT {
      ScheduledGood(prev.height, prev.timestamp, anchor.value.height, anchor.value.timestamp,
                    CompactToTarget(anchor.value.difficulty));
    } else if nextHeight > SANDGLASS_FORK_HEIGHT {
      var t := AsertTarget(prev.height, prev.timestamp, SANDGLASS_FORK_HEIGHT, SANDGLASS_ANCHOR_TIMESTAMP,
                           SandglassAnchorTarget());
      AsertMonotone(prev.height, prev.timestamp, prev.height, prev.timestamp, SANDGLASS_FORK_HEIGHT,
                    SANDGLASS_ANCHOR_TIMESTAMP, SandglassAnchorTarget());
      EncodedRange(t);
      EncodedRange(Band(t, SandglassAnchorTarget()));
    } else {
      ScheduledGood(prev.height, prev.timestamp, 0, GENESIS_TIMESTAMP, FloorTarget());
    }
  }

  /** Even on a parent with a zero target, as only an unvalidated file can hold: zero again, or in range. */
  lemma RequiredDifficultyFits(nextHeight: nat, prevs: seq<Header>, candidateTime: Option<nat>, anchor: Option<Header>)
    requires prevs != [] && NextDifficulty(nextHeight, prevs, candidateTime, anchor).Some?
    ensures 0 <= NextDifficulty(nextHeight, prevs, candidateTime, anchor).value < U32
  {
    hide CompactToTarget, TargetToCompact, AsertTarget, SandglassAnchorTarget, GoodDifficulty;
    var prev := prevs[|prevs| - 1];
    if CompactToTarget(prev.difficulty) >= 1 {
      RequiredDifficultyGood(nextHeight, prevs, candidateTime, anchor);
      GoodDifficultyFits(NextDifficulty(nextHeight, prevs, candidateTime, anchor).value);
    } else {
      var sound := prev.(difficulty := GENESIS_DIFFICULTY_COMPACT);
      var other := prevs[|prevs| - 1 := sound];
      GenesisTargetPositive();
      NothingToCompact();
      RequiredDifficultyGood(nextHeight, other, candidateTime, anchor);
      GoodDifficultyFits(NextDifficulty(nextHeight, other, candidateTime, anchor).value);
    }
  }

  lemma GenesisTargetPositive()
    ensures CompactToTarget(GENESIS_DIFFICULTY_COMPACT) >= 1
  {
    hide CompactToTarget;
    FloorValue();
  }

  lemma NothingToCompact()
    ensures TargetToCompact(0) == 0
  {
  }

  lemma GoodDifficultyFits(d: int)
    requires GoodDifficulty(d)
    ensures 0 <= d < U32
  {
    hide CompactToTarget, TargetToCompact;
    FloorValue();
    CompactRange(CompactToTarget(d));
  }

  lemma CompactRange(t: nat)
    requires 1 <= t <= TWO256
    ensures 0 <= TargetToCompact(t) < U32
  {
    hide Exponent, CompactToTarget, Int32;
    TargetExponent(t);
    Unpack(Exponent(t), Mantissa(t));
  }

  lemma ScheduledGood(h: int, t: int, anchorHeight: int, anchorTime: int, anchorTarget: nat)
    ensures GoodDifficulty(TargetToCompact(AsertTarget(h, t, anchorHeight, anchorTime, anchorTarget)))
  {
    hide CompactToTarget, TargetToCompact, AsertTarget;
    AsertMonotone(h, t, h, t, anchorHeight, anchorTime, anchorTarget);
    EncodedRange(AsertTarget(h, t, anchorHeight, anchorTime, anchorTarget));
  }

  lemma GenesisDifficultyGood()
    ensures GoodDifficulty(GENESIS_DIFFICULTY_COMPACT)
    ensures CompactToTarget(GENESIS_DIFFICULTY_COMPACT) == FloorTarget() < TWO256
  {
    FloorValue();
    assert GENESIS_DIFFICULTY_COMPACT == (29 + 3) * SHIFT24 + 0x2_0000;
    FloorCompact(29);
  }

  lemma {:induction false} FloorCompact(k: nat)
    requires k <= 29
    ensures k >= 1 ==> Exponent(0x20000 * Pow(256, k)) == k && Mantissa(0x20000 * Pow(256, k)) == 0x20000
    ensures k == 29 ==> TargetToCompact(0x20000 * Pow(256, k)) == GENESIS_DIFFICULTY_COMPACT
  {
    if k >= 1 {
      PowPositive(256, k - 1);
      var t := 0x20000 * Pow(256, k - 1);
      assert 0x20000 * Pow(256, k) == 256 * t && 256 * t / 256 == t;
      FloorCompact(k - 1);
      assert k == 1 ==> t == 0x20000;
    }
  }

  /** What every block of a chain built under these rules is worth. */
  lemma GoodDifficultyHasWork(d: int)
    requires GoodDifficulty(d)
    ensures BlockWork(d) >= 1
  {
    hide BlockWork, CompactToTarget, TargetToCompact;
    FloorValue();
    WorkPositive(d);
  }

  // ------------------------------------------------------------------
  // What the rules depend on
  // ------------------------------------------------------------------

  /**
   * How many headers a caller passes never matters: only the last two are read.
   * (Block validation passes 60, the template builders pass other windows.)
   */
  lemma LookbackIrrelevant(nextHeight: nat, a: seq<Header>, b: seq<Header>, candidateTime: Option<nat>,
      anchor: Option<Header>)
    requires |a| >= 2 && |b| >= 2 && a[|a| - 2..] == b[|b| - 2..]
    ensures NextDifficulty(nextHeight, a, candidateTime, anchor) == NextDifficulty(nextHeight, b, candidateTime, anchor)
  {
    hide AsertTarget, CompactToTarget, TargetToCompact;
    assert a[|a| - 2..][0] == a[|a| - 2] && a[|a| - 2..][1] == a[|a| - 1];
    assert b[|b| - 2..][0] == b[|b| - 2] && b[|b| - 2..][1] == b[|b| - 1];
  }

  /** The first block above the third fork's anchor carries its difficulty on, unless the emergency rule fires. */
  lemma AnchorCarriesOver(prevs: seq<Header>, candidateTime: Option<nat>)
    requires prevs != [] && prevs[|prevs| - 1].height == SANDGLASS2_ANCHOR_HEIGHT
    requires GoodDifficulty(prevs[|prevs| - 1].difficulty) && !EmergencyDrop(prevs, candidateTime)
    ensures var anchor := prevs[|prevs| - 1];
            NextDifficulty(SANDGLASS2_ANCHOR_HEIGHT + 1, prevs, candidateTime, Some(anchor)) == Some(anchor.difficulty)
  {
    hide CompactToTarget, TargetToCompact, AsertTarget;
    var anchor := prevs[|prevs| - 1];
    OnSchedule(anchor.height, anchor.timestamp, anchor.height, anchor.timestamp, CompactToTarget(anchor.difficulty));
  }

  /** Above the third fork's anchor the only missing piece can be the anchor itself. */
  lemma OnlyAnchorCanBeMissing(nextHeight: nat, prevs: seq<Header>, candidateTime: Option<nat>, anchor: Option<Header>)
    requires prevs != []
    requires nextHeight > SANDGLASS2_ANCHOR_HEIGHT ==> anchor.Some? && anchor.value.height == SANDGLASS2_ANCHOR_HEIGHT
    ensures NextDifficulty(nextHeight, prevs, candidateTime, anchor).Some?
  {
    hide CompactToTarget, TargetToCompact, AsertTarget;
  }

  /** `checkPoW` */
  predicate CheckPoW(c: Crypto, h: Header) {
    0 < CompactToTarget(h.difficulty) < TWO256 && ReadBE(c.powHash(EncodeHeader(h))) < CompactToTarget(h.difficulty)
  }

  /** A header that meets its proof of work is worth something, whatever rule set its difficulty. */
  lemma PoWHasWork(c: Crypto, h: Header)
    requires CheckPoW(c, h)
    ensures BlockWork(h.difficulty) >= 1
  {
    hide BlockWork, CompactToTarget;
    WorkPositive(h.difficulty);
  }
}
