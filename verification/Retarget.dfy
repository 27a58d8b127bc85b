/**
 * What the retarget rule demands of the next block on stored branches, by the
 * parent's place on its schedule (nextDifficulty in src/chain/consensus.ts
 * 166-294, with the windows and anchors src/chain/blockchain.ts passes it).
 */
module Retarget {
  import opened Asert
  import opened Binary
  import opened Compact
  import opened Consensus
  import opened Crypto
  import opened Tree
  import opened TreeFacts

  /** A child of `p` at that time must carry the compact form of `target`. */
  ghost predicate Asks(t: Tree, p: Hash32, time: nat, target: nat)
    requires p in t.blocks
  {
    var d := ExpectedDifficulty(t, p, time);
    d.Some? && d == Some(TargetToCompact(target)) && CompactToTarget(d.value) == RoundDown(target)
  }

  /** The target a child of `p` must have. */
  ghost function AskedTarget(t: Tree, p: Hash32, time: nat): nat
    requires p in t.blocks
  {
    var d := ExpectedDifficulty(t, p, time);
    if d.None? then 0 else CompactToTarget(d.value)
  }

  /** Both the candidate and its parent come more than six block times after what they build on, genesis aside. */
  predicate TwoLate(t: Tree, p: Hash32, time: nat)
    requires p in t.blocks
  {
    var h := HeaderAt(t, p);
    && h.height >= 2 && h.prevHash in t.blocks
    && h.timestamp > HeaderAt(t, h.prevHash).timestamp + 6 * 150
    && time > h.timestamp + 6 * 150
  }

  /** Seconds by which `p` is behind a schedule of one block every 150 s from an anchor. */
  function Behind(t: Tree, p: Hash32, anchorHeight: int, anchorTime: int): int
    requires p in t.blocks
  {
    HeaderAt(t, p).timestamp - anchorTime - (HeaderAt(t, p).height - anchorHeight) * 150
  }

  /** The target the chain was reset to at height 33,550: five million attempts. */
  const RESET_TARGET: nat := TWO256 / 5_000_000

  const RESET_TIME: nat := 1_784_721_600

  // ------------------------------------------------------------------
  // What the rule reads
  // ------------------------------------------------------------------

  lemma LastTwo(c: Crypto, t: Tree, p: Hash32, time: nat)
    requires Shape(c, t) && p in t.blocks
    ensures var r := Recent(t, p, RETARGET_LOOKBACK); r != [] && r[|r| - 1] == HeaderAt(t, p)
    ensures EmergencyDrop(Recent(t, p, RETARGET_LOOKBACK), Some(time)) <==> TwoLate(t, p, time)
  {
    hide Shape, GenesisHash, Recent;
    ParentOf(c, t, p);
    RecentStep(c, t, p, RETARGET_LOOKBACK);
    if p != GenesisHash(c) {
      ParentOf(c, t, HeaderAt(t, p).prevHash);
    }
  }

  lemma Encodes(t: Tree, p: Hash32, time: nat, target: nat)
    requires p in t.blocks && ExpectedDifficulty(t, p, time) == Some(TargetToCompact(target)) && target <= TWO256
    ensures Asks(t, p, time, target) && AskedTarget(t, p, time) == RoundDown(target)
  {
    hide ExpectedDifficulty, CompactToTarget, TargetToCompact, RoundDown;
    CompactRoundTrip(target);
  }

  /** No schedule's target exceeds the floor. */
  lemma ScheduleBounds(h: int, t: int, anchorHeight: int, anchorTime: int, anchorTarget: nat)
    ensures AsertTarget(h, t, anchorHeight, anchorTime, anchorTarget) <= FloorTarget() <= TWO256
  {
    hide AsertTarget, CompactToTarget;
    FloorValue();
    AsertMonotone(h, t, h, t, anchorHeight, anchorTime, anchorTarget);
  }

  // ------------------------------------------------------------------
  // The reset, and the emergency rule
  // ------------------------------------------------------------------

  /** Height 33,550 has a difficulty of its own, whatever came before. */
  lemma ResetAtFork(c: Crypto, t: Tree, p: Hash32, time: nat)
    requires Shape(c, t) && p in t.blocks && HeaderAt(t, p).height == 33_549
    ensures Asks(t, p, time, RESET_TARGET)
  {
    hide Shape, Recent, CompactToTarget, TargetToCompact;
    LastTwo(c, t, p, time);
    AnchorTargetRange();
    Encodes(t, p, time, RESET_TARGET);
  }

  /** Everywhere else, two late blocks in a row double the parent's target, up to the floor. */
  lemma TwoLateDoubles(c: Crypto, t: Tree, p: Hash32, time: nat)
    requires Shape(c, t) && p in t.blocks && HeaderAt(t, p).height != 33_549 && TwoLate(t, p, time)
    ensures var twice := 2 * CompactToTarget(HeaderAt(t, p).difficulty);
            Asks(t, p, time, if twice <= FloorTarget() then twice else FloorTarget())
  {
    hide Shape, Recent, CompactToTarget, TargetToCompact, EmergencyDrop, TwoLate, AsertTarget, SandglassAnchorTarget,
      Band, Asks, AskedTarget, RoundDown;
    LastTwo(c, t, p, time);
    FloorValue();
    var twice := 2 * CompactToTarget(HeaderAt(t, p).difficulty);
    Encodes(t, p, time, if twice <= FloorTarget() then twice else FloorTarget());
  }

  // ------------------------------------------------------------------
  // The three schedules
  // ------------------------------------------------------------------

  /** Which anchor a child of `p` is scheduled from: its height, time and target. */
  datatype Schedule = Schedule(height: nat, time: nat, target: nat)

  ghost function ScheduleOf(c: Crypto, t: Tree, p: Hash32): Schedule
    requires Shape(c, t) && p in t.blocks
  {
    var h := HeaderAt(t, p).height;
    if h >= 35_550 then
      var anchor := HeadersTo(c, t, p)[35_550];
      Schedule(35_550, anchor.timestamp, CompactToTarget(anchor.difficulty))
    else if h >= 33_550 then Schedule(33_550, RESET_TIME, RESET_TARGET)
    else Schedule(0, 1_779_700_000, FloorTarget())
  }

  /** Without two late blocks, a schedule decides; the 2,000 blocks after the reset stay within a factor 4 of it. */
  lemma ScheduleDecides(c: Crypto, t: Tree, p: Hash32, time: nat)
    requires Shape(c, t) && p in t.blocks && HeaderAt(t, p).height != 33_549 && !TwoLate(t, p, time)
    ensures var h, s := HeaderAt(t, p), ScheduleOf(c, t, p);
            var raw := AsertTarget(h.height, h.timestamp, s.height, s.time, s.target);
            Asks(t, p, time, if 33_550 <= h.height < 35_550 then Confined(raw) else raw)
            && AskedTarget(t, p, time) == RoundDown(if 33_550 <= h.height < 35_550 then Confined(raw) else raw)
  {
    hide Shape, Recent, CompactToTarget, TargetToCompact, AsertTarget, EmergencyDrop, TwoLate, RoundDown, HeadersTo;
    LastTwo(c, t, p, time);
    AnchorTargetRange();
    AnchorIsAncestor(c, t, p);
    var h, s := HeaderAt(t, p), ScheduleOf(c, t, p);
    var raw := AsertTarget(h.height, h.timestamp, s.height, s.time, s.target);
    ScheduleBounds(h.height, h.timestamp, s.height, s.time, s.target);
    if h.height >= 35_550 {
      HeadersHeights(c, t, p, 35_550);
    }
    Encodes(t, p, time, if 33_550 <= h.height < 35_550 then Confined(raw) else raw);
  }

  /** Within a factor 4 of the reset target. */
  function Confined(target: nat): (r: nat)
    ensures RESET_TARGET / 4 <= r <= 4 * RESET_TARGET
    ensures RESET_TARGET / 4 <= target <= 4 * RESET_TARGET ==> r == target
    ensures target < RESET_TARGET / 4 ==> r == RESET_TARGET / 4
    ensures target > 4 * RESET_TARGET ==> r == 4 * RESET_TARGET
  {
    if target > 4 * RESET_TARGET then 4 * RESET_TARGET
    else if target < RESET_TARGET / 4 then RESET_TARGET / 4 else target
  }

  /**
   * Above height 35,550, for any whole number of half-lives (600 s) that the
   * parent is behind its branch's own block 35,550: that block's target is
   * doubled as often, or halved as often ahead of schedule, between 1 and the floor.
   */
  lemma AboveAnchor(c: Crypto, t: Tree, p: Hash32, time: nat, k: int)
    requires Shape(c, t) && p in t.blocks && HeaderAt(t, p).height >= 35_550 && !TwoLate(t, p, time)
    requires Behind(t, p, 35_550, HeadersTo(c, t, p)[35_550].timestamp) == 600 * k
    ensures Asks(t, p, time, Doubled(CompactToTarget(HeadersTo(c, t, p)[35_550].difficulty), k))
  {
    hide Shape, HeadersTo, CompactToTarget, AsertTarget, TwoLate, Asks, AskedTarget, RoundDown, Doubled;
    ScheduleDecides(c, t, p, time);
    var h, s := HeaderAt(t, p), ScheduleOf(c, t, p);
    AfterHalfLives(h.height, h.timestamp, s.height, s.time, s.target, k);
  }

  /** In particular a parent exactly on schedule is followed by the anchor's own difficulty, at every height. */
  lemma OnAnchorSchedule(c: Crypto, t: Tree, p: Hash32, time: nat)
    requires Shape(c, t) && p in t.blocks && HeaderAt(t, p).height >= 35_550 && !TwoLate(t, p, time)
    requires Behind(t, p, 35_550, HeadersTo(c, t, p)[35_550].timestamp) == 0
    requires GoodDifficulty(HeadersTo(c, t, p)[35_550].difficulty)
    ensures ExpectedDifficulty(t, p, time) == Some(HeadersTo(c, t, p)[35_550].difficulty)
  {
    hide Shape, HeadersTo, CompactToTarget, TwoLate, TargetToCompact, ExpectedDifficulty;
    AboveAnchor(c, t, p, time, 0);
    assert Pow(2, 0) == 1;
  }

  /** One half-life behind asks for twice the anchor's target up to the floor, one ahead for half of it, at least 1. */
  lemma OneHalfLife(c: Crypto, t: Tree, p: Hash32, time: nat)
    requires Shape(c, t) && p in t.blocks && HeaderAt(t, p).height >= 35_550 && !TwoLate(t, p, time)
    ensures var anchor := HeadersTo(c, t, p)[35_550];
            var target, late := CompactToTarget(anchor.difficulty), Behind(t, p, 35_550, anchor.timestamp);
            && (late == 600 && target >= 1 ==>
                  Asks(t, p, time, if 2 * target <= FloorTarget() then 2 * target else FloorTarget()))
            && (late == -600 && target <= 2 * FloorTarget() ==>
                  Asks(t, p, time, if target >= 2 then target / 2 else 1))
  {
    hide Shape, HeadersTo, CompactToTarget, TwoLate, Asks, Doubled, Behind;
    var anchor := HeadersTo(c, t, p)[35_550];
    var target, late := CompactToTarget(anchor.difficulty), Behind(t, p, 35_550, anchor.timestamp);
    OneDoubling(target);
    if late == 600 {
      AboveAnchor(c, t, p, time, 1);
    } else if late == -600 {
      AboveAnchor(c, t, p, time, -1);
    }
  }

  lemma OneDoubling(target: nat)
    ensures target >= 1 ==> Doubled(target, 1) == if 2 * target <= FloorTarget() then 2 * target else FloorTarget()
    ensures target <= 2 * FloorTarget() ==> Doubled(target, -1) == if target >= 2 then target / 2 else 1
  {
    FloorValue();
    hide FloorTarget;
    assert Pow(2, 1) == 2;
  }

  /** The 2,000 blocks above the reset follow its own schedule from a fixed time, at most two doublings either way. */
  lemma AboveReset(c: Crypto, t: Tree, p: Hash32, time: nat, k: int)
    requires Shape(c, t) && p in t.blocks && 33_550 <= HeaderAt(t, p).height < 35_550 && !TwoLate(t, p, time)
    requires Behind(t, p, 33_550, RESET_TIME) == 600 * k
    ensures k == 0 ==> Asks(t, p, time, RESET_TARGET)
    ensures k == 1 ==> Asks(t, p, time, 2 * RESET_TARGET)
    ensures k >= 2 ==> Asks(t, p, time, 4 * RESET_TARGET)
    ensures k == -1 ==> Asks(t, p, time, RESET_TARGET / 2)
    ensures k <= -2 ==> Asks(t, p, time, RESET_TARGET / 4)
  {
    hide Shape, CompactToTarget, AsertTarget, TwoLate, Asks, AskedTarget, RoundDown, Doubled, Confined;
    ScheduleDecides(c, t, p, time);
    var h, s := HeaderAt(t, p), ScheduleOf(c, t, p);
    AfterHalfLives(h.height, h.timestamp, s.height, s.time, s.target, k);
    ConfinedHalfLives(k);
  }

  lemma ConfinedHalfLives(k: int)
    ensures var r := Confined(Doubled(RESET_TARGET, k));
            r == if k >= 2 then 4 * RESET_TARGET else if k == 1 then 2 * RESET_TARGET
                 else if k == 0 then RESET_TARGET else if k == -1 then RESET_TARGET / 2 else RESET_TARGET / 4
  {
    hide CompactToTarget, Confined, Doubled;
    AnchorTargetRange();
    DoubledBounds(RESET_TARGET, k);
  }

  lemma DoubledBounds(a: nat, k: int)
    requires 4 <= a && 4 * a <= FloorTarget()
    ensures k >= 2 ==> Doubled(a, k) >= 4 * a
    ensures k == 1 ==> Doubled(a, k) == 2 * a
    ensures k == 0 ==> Doubled(a, k) == a
    ensures k == -1 ==> Doubled(a, k) == a / 2
    ensures k <= -2 ==> Doubled(a, k) <= a / 4
  {
    hide FloorTarget;
    assert Pow(2, 0) == 1 && Pow(2, 1) == 2 && Pow(2, 2) == 4;
    if k >= 2 {
      PowAdd(2, 2, k - 2);
      PowPositive(2, k - 2);
      FourTimes(a, Pow(2, k - 2));
    } else if k <= -2 {
      PowAdd(2, 2, -k - 2);
      PowPositive(2, -k - 2);
      Smaller(a, Pow(2, -k - 2));
    }
  }

  lemma FourTimes(a: nat, p: nat)
    requires p > 0
    ensures a * (4 * p) >= 4 * a
  {
    Larger(4 * a, p);
    assert a * (4 * p) == 4 * a * p;
  }

  lemma Larger(x: nat, p: nat)
    requires p > 0
    ensures x * p >= x
  {
  }

  lemma Smaller(x: nat, p: nat)
    requires p > 0
    ensures x / (4 * p) <= x / 4
  {
    var q := x / (4 * p);
    assert x >= 4 * p * q by {
      assert x == 4 * p * q + x % (4 * p);
    }
    Larger(q, p);
    assert 4 * p * q == 4 * (q * p);
  }

  /** Below the reset the schedule starts at genesis, with genesis's difficulty as target and as floor. */
  lemma FromGenesis(c: Crypto, t: Tree, p: Hash32, time: nat, k: int)
    requires Shape(c, t) && p in t.blocks && HeaderAt(t, p).height < 33_549 && !TwoLate(t, p, time)
    requires Behind(t, p, 0, 1_779_700_000) == 600 * k
    ensures Asks(t, p, time, Doubled(FloorTarget(), k))
    ensures k >= 0 ==> ExpectedDifficulty(t, p, time) == Some(0x2002_0000)
  {
    hide Shape, CompactToTarget, TargetToCompact, AsertTarget, TwoLate, AskedTarget, RoundDown, Doubled,
      ExpectedDifficulty;
    ScheduleDecides(c, t, p, time);
    var h, s := HeaderAt(t, p), ScheduleOf(c, t, p);
    AfterHalfLives(h.height, h.timestamp, s.height, s.time, s.target, k);
    GenesisDifficultyGood();
    if k >= 0 {
      DoubledFloor(k);
    }
  }

  lemma DoubledFloor(k: nat)
    ensures Doubled(FloorTarget(), k) == FloorTarget()
  {
    hide CompactToTarget;
    FloorValue();
    PowPositive(2, k);
    Larger(FloorTarget(), Pow(2, k));
  }

  // ------------------------------------------------------------------
  // Between whole half-lives
  // ------------------------------------------------------------------

  /**
   * Of two parents on the same schedule, on any branches, the one that is no
   * higher and no earlier never makes its child harder.
   */
  lemma LaterIsNoHarder(c: Crypto, t: Tree, p: Hash32, q: Hash32, time: nat, time': nat)
    requires Shape(c, t) && p in t.blocks && q in t.blocks
    requires HeaderAt(t, p).height != 33_549 && HeaderAt(t, q).height != 33_549
    requires !TwoLate(t, p, time) && !TwoLate(t, q, time')
    requires ScheduleOf(c, t, p) == ScheduleOf(c, t, q)
    requires HeaderAt(t, q).height <= HeaderAt(t, p).height && HeaderAt(t, p).timestamp <= HeaderAt(t, q).timestamp
    ensures 1 <= AskedTarget(t, p, time) <= AskedTarget(t, q, time') <= FloorTarget()
  {
    hide Shape, CompactToTarget, AsertTarget, TwoLate, AskedTarget, RoundDown, Confined, HeadersTo, Asks;
    ScheduleDecides(c, t, p, time);
    ScheduleDecides(c, t, q, time');
    var g, h, s := HeaderAt(t, p), HeaderAt(t, q), ScheduleOf(c, t, p);
    var x := AsertTarget(g.height, g.timestamp, s.height, s.time, s.target);
    var y := AsertTarget(h.height, h.timestamp, s.height, s.time, s.target);
    AsertMonotone(g.height, g.timestamp, h.height, h.timestamp, s.height, s.time, s.target);
    AnchorTargetRange();
    ConfinedMonotone(x, y);
    RoundDownOrder(x, y);
    RoundDownOrder(Confined(x), Confined(y));
  }

  lemma ConfinedMonotone(x: nat, y: nat)
    requires x <= y
    ensures Confined(x) <= Confined(y)
  {
  }

  lemma RoundDownOrder(x: nat, y: nat)
    requires 1 <= x <= y
    ensures 1 <= RoundDown(x) <= RoundDown(y) <= y
  {
    RoundDownMonotone(x, y);
    RoundDownClose(x);
    RoundDownClose(y);
  }
}
