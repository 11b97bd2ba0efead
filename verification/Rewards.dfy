/** Block rewards (core/state_processor.go): the era arithmetic, the piecewise winner reward and the uncle shares,
    with the bounds on issuance they imply. */
module Rewards {
  import opened Arithmetic

  const ERA_LENGTH := 100000
  const MAXIMUM_BLOCK_REWARD := 50_000_000_000_000_000_000
  const UNIT := 10_000_000_000_000_000
  const REWARDS_36: seq<nat> := [2000, 1300, 1200, 1100, 1000, 900, 800, 700, 625]
  const REWARDS_50: seq<nat> := [500, 400, 300, 225, 160, 125]

  /** floor(50 WEB * 249^e / 250^e): the undisturbed disinflation curve. */
  function Curve(e: nat): nat {
    PowPositive(250, e);
    MAXIMUM_BLOCK_REWARD * Pow(249, e) / Pow(250, e)
  }

  /** The winner's reward in an era, branch by branch. */
  function WinnerReward(eraOrig: nat): int
    decreases eraOrig
  {
    if eraOrig == 0 then MAXIMUM_BLOCK_REWARD else
      var era := if 45 <= eraOrig < 50 then eraOrig + 475 else if eraOrig >= 56 then eraOrig + 865 else eraOrig;
      if 36 <= era < 45 then REWARDS_36[era - 36] * UNIT
      else if 50 <= era < 56 then REWARDS_50[era - 50] * UNIT
      else if 33 <= era < 36 then
        var r := WinnerReward(32);
        r - r / (2 * (45 - 33)) * (era - 33 + 1)
      else Curve(era)
  }

  /** The zero-based era of a block number. */
  function BlockEra(number: int, eraLength: nat): int
    requires eraLength > 0
  {
    if number < 1 then 0 else
      var base := number - (number - 1) % eraLength;
      var d := base / eraLength;
      d - d % 1
  }

  /** For eras longer than one block this is the plain quotient, and zero up to genesis. */
  lemma BlockEraIsQuotient(number: int, eraLength: nat)
    requires eraLength >= 2
    ensures BlockEra(number, eraLength) == if number < 1 then 0 else (number - 1) / eraLength
  {
    var k, r := (number - 1) / eraLength, (number - 1) % eraLength;
    assert number - r == eraLength * k + 1;
    QuotientUnique(number - r, eraLength, k, 1);
  }

  // The disinflation ratio over the reals, and numeric bounds on it.

  ghost function Ratio(e: nat): real {
    if e == 0 then 1.0 else 0.996 * Ratio(e - 1)
  }

  lemma {:induction false} RatioAdd(a: nat, b: nat)
    ensures Ratio(a + b) == Ratio(a) * Ratio(b)
  {
    if b > 0 {
      RatioAdd(a, b - 1);
    }
  }

  lemma {:induction false} RatioRange(e: nat)
    ensures 0.0 < Ratio(e) <= 1.0
  {
    if e > 0 {
      RatioRange(e - 1);
    }
  }

  lemma RatioFalls(a: nat, b: nat)
    requires a <= b
    ensures Ratio(b) <= Ratio(a)
  {
    RatioAdd(a, b - a);
    RatioRange(a);
    RatioRange(b - a);
  }

  /** Doubles an exponent, keeping an interval around the ratio. */
  lemma RatioSquare(e: nat, lo: real, hi: real, lo': real, hi': real)
    requires 0.0 <= lo <= Ratio(e) <= hi
    requires lo' <= lo * lo && hi * hi <= hi'
    ensures lo' <= Ratio(2 * e) <= hi'
  {
    RatioAdd(e, e);
    MulBetween(lo, Ratio(e), hi, lo, Ratio(e), hi);
  }

  lemma MulBetween(a: real, x: real, b: real, c: real, y: real, d: real)
    requires 0.0 <= a <= x <= b && 0.0 <= c <= y <= d
    ensures a * c <= x * y <= b * d
  {
    assert a * c <= x * c <= x * y;
    assert x * y <= x * d <= b * d;
  }

  lemma RatioOne()
    ensures Ratio(1) == 0.996
  {
    assert Ratio(1) == 0.996 * Ratio(0);
  }

  lemma RatioBounds()
    ensures 0.9840957442 <= Ratio(4) <= 0.9840957443
    ensures 0.9684444337 <= Ratio(8) <= 0.9684444340
    ensures 0.9378846211 <= Ratio(16) <= 0.9378846218
    ensures 0.8796275624 <= Ratio(32) <= 0.8796275639
    ensures 0.7737446485 <= Ratio(64) <= 0.7737446512
    ensures 0.5986807810 <= Ratio(128) <= 0.5986807853
    ensures 0.3584186775 <= Ratio(256) <= 0.3584186827
    ensures 0.1284639483 <= Ratio(512) <= 0.1284639522
  {
    hide Ratio;
    RatioOne();
    RatioSquare(1, 0.996, 0.996, 0.992016, 0.992016);
    RatioSquare(2, 0.992016, 0.992016, 0.9840957442, 0.9840957443);
    RatioSquare(4, 0.9840957442, 0.9840957443, 0.9684444337, 0.9684444340);
    RatioSquare(8, 0.9684444337, 0.9684444340, 0.9378846211, 0.9378846218);
    RatioSquare(16, 0.9378846211, 0.9378846218, 0.8796275624, 0.8796275639);
    RatioSquare(32, 0.8796275624, 0.8796275639, 0.7737446485, 0.7737446512);
    RatioSquare(64, 0.7737446485, 0.7737446512, 0.5986807810, 0.5986807853);
    RatioSquare(128, 0.5986807810, 0.5986807853, 0.3584186775, 0.3584186827);
    RatioSquare(256, 0.3584186775, 0.3584186827, 0.1284639483, 0.1284639522);
  }

  lemma Ratio520()
    ensures Ratio(520) <= 0.1245
  {
    hide Ratio;
    RatioBounds();
    RatioUpper(512, 8, 0.1284639522, 0.9684444340, 0.1245);
  }

  /** Multiplies two upper bounds. */
  lemma RatioUpper(a: nat, b: nat, hiA: real, hiB: real, hi: real)
    requires Ratio(a) <= hiA && Ratio(b) <= hiB && hiA * hiB <= hi
    ensures Ratio(a + b) <= hi
  {
    hide Ratio;
    RatioAdd(a, b);
    RatioRange(a);
    RatioRange(b);
    MulBetween(0.0, Ratio(a), hiA, 0.0, Ratio(b), hiB);
  }

  lemma RatioLower(a: nat, b: nat, loA: real, loB: real, lo: real)
    requires Ratio(a) >= loA >= 0.0 && Ratio(b) >= loB >= 0.0 && loA * loB >= lo
    ensures Ratio(a + b) >= lo
  {
    hide Ratio;
    RatioAdd(a, b);
    MulBetween(loA, Ratio(a), Ratio(a), loB, Ratio(b), Ratio(b));
  }

  lemma Ratio524()
    ensures Ratio(524) >= 0.12
  {
    hide Ratio;
    RatioBounds();
    RatioLower(512, 8, 0.1284639483, 0.9684444337, 0.1244);
    RatioLower(520, 4, 0.1244, 0.9840957442, 0.12);
  }

  lemma Ratio921()
    ensures Ratio(921) <= 0.02495
  {
    hide Ratio;
    RatioBounds();
    RatioOne();
    RatioUpper(512, 256, 0.1284639522, 0.3584186827, 0.046043882);
    RatioUpper(768, 128, 0.046043882, 0.5986807853, 0.02756559);
    RatioUpper(896, 16, 0.02756559, 0.9378846218, 0.02585335);
    RatioUpper(912, 8, 0.02585335, 0.9684444340, 0.02503754);
    RatioUpper(920, 1, 0.02503754, 0.996, 0.02495);
  }

  lemma {:induction false} RatioOfPowers(e: nat)
    ensures Pow(249, e) as real == Ratio(e) * Pow(250, e) as real
  {
    if e > 0 {
      RatioOfPowers(e - 1);
      var q, d := Pow(249, e - 1), Pow(250, e - 1);
      assert (249 * q) as real == 249.0 * q as real && (250 * d) as real == 250.0 * d as real;
      assert 249.0 * (Ratio(e - 1) * d as real) == (0.996 * Ratio(e - 1)) * (250.0 * d as real);
    }
  }

  /** The integer curve is the real one rounded down. */
  lemma CurveIsFloor(e: nat)
    ensures Curve(e) as real <= 50_000_000_000_000_000_000.0 * Ratio(e) < Curve(e) as real + 1.0
  {
    var n, d, c, x := MAXIMUM_BLOCK_REWARD * Pow(249, e), Pow(250, e), Curve(e),
      50_000_000_000_000_000_000.0 * Ratio(e);
    PowPositive(250, e);
    RatioOfPowers(e);
    FloorBounds(n, d);
    assert n as real == x * d as real;
    FloorReal(n, d, c, x);
  }

  lemma FloorBounds(n: nat, d: nat)
    requires d > 0
    ensures (n / d) * d <= n < (n / d + 1) * d
  {
  }

  lemma NegativeProduct(a: real, d: real)
    requires d > 0.0 && a < 0.0
    ensures a * d < 0.0
  {
  }

  lemma PositiveProduct(a: real, d: real)
    requires d > 0.0 && a >= 0.0
    ensures a * d >= 0.0
  {
  }

  // Products under names of their own, so that the comparison below is linear.

  function Times(c: nat, d: nat): nat { c * d }
  function RealTimes(c: real, d: real): real { c * d }

  lemma Between(x: real, c: real, d: real)
    requires d > 0.0 && RealTimes(c, d) <= RealTimes(x, d) < RealTimes(c + 1.0, d)
    ensures c <= x < c + 1.0
  {
    if x < c {
      NegativeProduct(x - c, d);
    } else if x >= c + 1.0 {
      PositiveProduct(x - (c + 1.0), d);
    }
  }

  lemma TimesReal(c: nat, d: nat)
    ensures Times(c, d) as real == RealTimes(c as real, d as real)
  {
  }

  lemma FloorReal(n: nat, d: nat, c: nat, x: real)
    requires d > 0 && n as real == RealTimes(x, d as real) && Times(c, d) <= n < Times(c + 1, d)
    ensures c as real <= x < c as real + 1.0
  {
    hide Times, RealTimes;
    TimesReal(c, d);
    TimesReal(c + 1, d);
    Between(x, c as real, d as real);
  }

  lemma CurveFalls(a: nat, b: nat)
    requires a <= b
    ensures Curve(b) <= Curve(a)
  {
    CurveIsFloor(a);
    CurveIsFloor(b);
    RatioFalls(a, b);
  }

  /** One era costs the curve at most a two-hundred-and-fiftieth and one unit. */
  lemma CurveStep(e: nat)
    ensures 250 * (Curve(e + 1) + 1) > 249 * Curve(e)
  {
    CurveIsFloor(e);
    CurveIsFloor(e + 1);
    assert Ratio(e + 1) == 0.996 * Ratio(e);
  }

  /** The numbers at the seams of the piecewise curve. */
  lemma CurveSeams()
    ensures Curve(32) >= 43_000_000_000_000_000_000
    ensures Curve(64) >= 38_000_000_000_000_000_000
    ensures Curve(520) <= 6_250_000_000_000_000_000
    ensures Curve(524) >= 5_000_000_000_000_000_000
    ensures Curve(921) <= 1_250_000_000_000_000_000
  {
    hide Ratio, Curve;
    RatioBounds();
    Ratio520();
    Ratio524();
    Ratio921();
    CurveIsFloor(32);
    CurveIsFloor(64);
    CurveIsFloor(520);
    CurveIsFloor(524);
    CurveIsFloor(921);
  }

  /** In the linear stretch each step is larger than the curve's. */
  lemma StretchBelowCurve(era: nat)
    requires 33 <= era < 36
    ensures 0 <= WinnerReward(era) <= Curve(era)
  {
    hide Curve;
    CurveSeams();
    CurveStep(32);
    CurveStep(33);
    CurveStep(34);
    var r := Curve(32);
    assert WinnerReward(era) == r - r / 24 * (era - 32);
    assert era == 33 || era == 34 || era == 35;
  }

  lemma ListedBelowCurve(era: nat)
    requires 36 <= era < 45 || 50 <= era < 56
    ensures 0 <= WinnerReward(era) <= Curve(era)
  {
    hide Curve;
    CurveSeams();
    CurveFalls(era, 64);
    assert WinnerReward(era) <= 2000 * UNIT;
  }

  /** Whatever the branch, the reward is between zero and the undisturbed curve. */
  lemma WinnerRewardBelowCurve(era: nat)
    ensures 0 <= WinnerReward(era) <= Curve(era)
  {
    hide Curve;
    CurveZero();
    if 33 <= era < 36 {
      StretchBelowCurve(era);
    } else if 36 <= era < 45 || 50 <= era < 56 {
      ListedBelowCurve(era);
    } else if 45 <= era < 50 {
      CurveFalls(era, era + 475);
    } else if era >= 56 {
      CurveFalls(era, era + 865);
    }
  }

  lemma CurveZero()
    ensures Curve(0) == MAXIMUM_BLOCK_REWARD
  {
  }

  /** The value rounded down of 50 WEB after `e` eras of disinflation. */
  ghost predicate IsFloorAt(r: int, e: nat) {
    r as real <= 50_000_000_000_000_000_000.0 * Ratio(e) < r as real + 1.0
  }

  /** The exact reward where it follows the curve: from the start, 475 eras ahead of it, and 865 eras ahead of it. */
  lemma WinnerRewardOnCurve(era: nat)
    ensures era < 33 ==> IsFloorAt(WinnerReward(era), era)
    ensures 45 <= era < 50 ==> IsFloorAt(WinnerReward(era), era + 475)
    ensures era >= 56 ==> IsFloorAt(WinnerReward(era), era + 865)
  {
    hide Curve, Ratio;
    CurveZero();
    CurveIsFloor(if 45 <= era < 50 then era + 475 else if era >= 56 then era + 865 else era);
  }

  /** The exact reward where it does not: three equal steps down from era 32, and two lists of amounts. */
  lemma WinnerRewardListed()
    ensures WinnerReward(33) == WinnerReward(32) - WinnerReward(32) / 24
    ensures WinnerReward(34) == WinnerReward(32) - 2 * (WinnerReward(32) / 24)
    ensures WinnerReward(35) == WinnerReward(32) - 3 * (WinnerReward(32) / 24)
    ensures WinnerReward(36) == 20_000_000_000_000_000_000 && WinnerReward(37) == 13_000_000_000_000_000_000
    ensures WinnerReward(38) == 12_000_000_000_000_000_000 && WinnerReward(39) == 11_000_000_000_000_000_000
    ensures WinnerReward(40) == 10_000_000_000_000_000_000 && WinnerReward(41) == 9_000_000_000_000_000_000
    ensures WinnerReward(42) == 8_000_000_000_000_000_000 && WinnerReward(43) == 7_000_000_000_000_000_000
    ensures WinnerReward(44) == 6_250_000_000_000_000_000
    ensures WinnerReward(50) == 5_000_000_000_000_000_000 && WinnerReward(51) == 4_000_000_000_000_000_000
    ensures WinnerReward(52) == 3_000_000_000_000_000_000 && WinnerReward(53) == 2_250_000_000_000_000_000
    ensures WinnerReward(54) == 1_600_000_000_000_000_000 && WinnerReward(55) == 1_250_000_000_000_000_000
  {
    hide Curve;
  }

  /** The winner's reward never rises from one era to the next, across every seam. */
  lemma WinnerRewardFalls(era: nat)
    ensures WinnerReward(era + 1) <= WinnerReward(era)
  {
    hide Curve;
    CurveSeams();
    CurveZero();
    if era < 32 {
      CurveFalls(era, era + 1);
    } else if 45 <= era < 49 {
      CurveFalls(era + 475, era + 476);
    } else if era >= 56 {
      CurveFalls(era + 865, era + 866);
    }
  }

  /** Winner rewards of blocks 1 to n. */
  function Issued(n: nat): int {
    if n == 0 then 0 else Issued(n - 1) + WinnerReward(Max(BlockEra(n, ERA_LENGTH), 0))
  }

  /** The real-valued cap on issuance up to block `era * ERA_LENGTH + r`. */
  ghost function Cap(era: nat, r: nat): real {
    5_000_000_000_000_000_000_000_000.0 * (250.0 - 250.0 * Ratio(era) + r as real / 100_000.0 * Ratio(era))
  }

  lemma {:induction false} IssuedBelowCap(n: nat)
    ensures Issued(n) as real <= Cap(n / ERA_LENGTH, n % ERA_LENGTH)
  {
    hide WinnerReward, Curve, Cap, Ratio, BlockEra;
    if n == 0 {
      CapStart();
    } else {
      IssuedBelowCap(n - 1);
      var e, r := (n - 1) / ERA_LENGTH, (n - 1) % ERA_LENGTH;
      BlockEraIsQuotient(n, ERA_LENGTH);
      WinnerRewardBelowCurve(e);
      CurveIsFloor(e);
      CapStep(e, r);
      if r + 1 < ERA_LENGTH {
        QuotientUnique(n, ERA_LENGTH, e, r + 1);
      } else {
        QuotientUnique(n, ERA_LENGTH, e + 1, 0);
        CapCarry(e);
      }
    }
  }

  lemma CapStart()
    ensures Cap(0, 0) == 0.0
  {
    assert Ratio(0) == 1.0;
  }

  /** One block of an era adds exactly the era's real reward to the cap. */
  lemma CapStep(e: nat, r: nat)
    ensures Cap(e, r + 1) == Cap(e, r) + 50_000_000_000_000_000_000.0 * Ratio(e)
  {
    var x := Ratio(e);
    assert (r + 1) as real / 100_000.0 * x == r as real / 100_000.0 * x + x / 100_000.0;
  }

  lemma CapCarry(e: nat)
    ensures Cap(e, ERA_LENGTH) == Cap(e + 1, 0)
  {
    assert Ratio(e + 1) == 0.996 * Ratio(e);
  }

  lemma CapBounded(e: nat, r: nat)
    requires r < ERA_LENGTH
    ensures Cap(e, r) < 1_250_000_000_000_000_000_000_000_000.0
  {
    hide Ratio;
    RatioRange(e);
    BelowWhole(r as real / 100_000.0, Ratio(e));
  }

  lemma BelowWhole(t: real, y: real)
    requires 0.0 <= t <= 1.0 && 0.0 < y
    ensures 5_000_000_000_000_000_000_000_000.0 * (250.0 - 250.0 * y + t * y) < 1_250_000_000_000_000_000_000_000_000.0
  {
    MulBetween(0.0, t, 1.0, 0.0, y, y);
  }

  /** However many blocks are mined, winner rewards stay below 1.25e9 WEB. */
  lemma WinnerIssuanceBounded(n: nat)
    ensures 0 <= Issued(n) < 1_250_000_000_000_000_000_000_000_000
  {
    hide Ratio, Issued, Cap;
    IssuedBelowCap(n);
    CapBounded(n / ERA_LENGTH, n % ERA_LENGTH);
    IssuedNotNegative(n);
  }

  lemma {:induction false} IssuedNotNegative(n: nat)
    ensures Issued(n) >= 0
  {
    if n > 0 {
      IssuedNotNegative(n - 1);
      WinnerRewardBelowCurve(Max(BlockEra(n, ERA_LENGTH), 0));
    }
  }

  /** Everything a block with `uncles` uncles creates: the winner's reward with its uncle shares, and the uncles'. */
  function UncleShare(era: nat): int { WinnerReward(era) / 32 }

  /** A share is a thirty-second of the winner's reward, rounded down. */
  lemma UncleShareExact(era: nat)
    ensures 32 * UncleShare(era) <= WinnerReward(era) < 32 * (UncleShare(era) + 1)
  {
    hide WinnerReward;
  }

  function BlockIssue(era: nat, uncles: nat): int {
    WinnerReward(era) + uncles * UncleShare(era) + uncles * UncleShare(era)
  }

  /** Total issue of blocks 1 to |counts|, `counts[k]` uncles in block k + 1. */
  function TotalIssue(counts: seq<nat>): int {
    if counts == [] then 0 else
      var n := |counts|;
      TotalIssue(counts[..n - 1]) + BlockIssue(Max(BlockEra(n, ERA_LENGTH), 0), counts[n - 1])
  }

  lemma BlockIssueNineEighths(era: nat, uncles: nat)
    requires uncles <= 2
    ensures 0 <= 8 * BlockIssue(era, uncles) <= 9 * WinnerReward(era)
  {
    hide WinnerReward;
    WinnerRewardBelowCurve(era);
    var w, share := WinnerReward(era), UncleShare(era);
    assert uncles * share == if uncles == 0 then 0 else if uncles == 1 then share else 2 * share;
  }

  /** With at most two uncles a block, everything ever created stays below nine eighths of the winner bound. */
  lemma {:induction false} TotalIssueNineEighths(counts: seq<nat>)
    requires forall k :: 0 <= k < |counts| ==> counts[k] <= 2
    ensures 0 <= 8 * TotalIssue(counts) <= 9 * Issued(|counts|)
  {
    hide WinnerReward, BlockIssue, BlockEra;
    if counts != [] {
      var n := |counts|;
      TotalIssueNineEighths(counts[..n - 1]);
      BlockIssueNineEighths(Max(BlockEra(n, ERA_LENGTH), 0), counts[n - 1]);
    }
  }

  lemma TotalIssueBounded(counts: seq<nat>)
    requires forall k :: 0 <= k < |counts| ==> counts[k] <= 2
    ensures 8 * TotalIssue(counts) < 9 * 1_250_000_000_000_000_000_000_000_000
  {
    TotalIssueNineEighths(counts);
    WinnerIssuanceBounded(|counts|);
  }
}
