/** Header validity (core/block_validator.go) and the header a miner builds (miner/worker.go): what the rules imply
    over a whole chain, and exactly when the miner's strategy stays inside them. */
module HeaderRules {
  import opened Types
  import opened Arithmetic

  const MIN_GAS_LIMIT := 5000
  const TARGET_GAS_LIMIT := 4712388
  const GAS_LIMIT_BOUND_DIVISOR := 1024
  const MINIMUM_DIFFICULTY := 10000
  const DIFFICULTY_BOUND_DIVISOR := 200
  const HEADER_EXTRA_MAX := 32
  const TWO_64 := 0x1_0000_0000_0000_0000
  const MAX_BIG := 0xffff_ffff_ffff_ffff_ffff_ffff_ffff_ffff_ffff_ffff_ffff_ffff_ffff_ffff_ffff_ffff

  datatype DifficultyRule = Defused | Atlantis

  datatype HeaderError =
    | ExtraTooLong | TimestampTooBig | FutureBlock | TimestampNotLater
    | WrongDifficulty | WrongGasLimit | WrongNumber | BadNonce

  /** A big integer read as a Go uint64. */
  function Uint64(n: nat): nat { n % TWO_64 }

  /** How many two-hundredths of the parent difficulty are added, at least -20. */
  function Steps(rule: DifficultyRule, time: nat, parent: Header): int {
    match rule
    case Atlantis => StepsAfter(if parent.hasUncles then 2 else 1, 9, time - parent.time)
    case Defused => StepsAfter(1, 10, time - Uint64(parent.time))
  }

  /** One step less for every interval. */
  function StepsAfter(first: nat, interval: nat, gap: int): int
    requires interval > 0
  {
    Max(first - gap / interval, -20)
  }

  /** `rules(n)` is the algorithm configured for block number `n`. */
  function CalcDifficulty(rules: nat -> DifficultyRule, time: nat, parent: Header): (d: nat)
    ensures d >= MINIMUM_DIFFICULTY
  {
    var steps := Steps(rules(parent.number + 1), time, parent);
    Max(parent.difficulty + parent.difficulty / DIFFICULTY_BOUND_DIVISOR * steps, MINIMUM_DIFFICULTY)
  }

  function ValidateHeader(rules: nat -> DifficultyRule, now: nat, pow: Header -> bool,
                          header: Header, parent: Header, checkPow: bool, uncle: bool): (r: Option<HeaderError>)
    ensures r.None? <==>
      && header.extraSize <= HEADER_EXTRA_MAX && parent.time < header.time <= (if uncle then MAX_BIG else now)
      && header.difficulty == CalcDifficulty(rules, Uint64(header.time), parent)
      && GasLimitAccepted(parent.gasLimit, header.gasLimit)
      && header.number == parent.number + 1 && (checkPow ==> pow(header))
  {
    if header.extraSize > HEADER_EXTRA_MAX then Some(ExtraTooLong)
    else if uncle && header.time > MAX_BIG then Some(TimestampTooBig)
    else if !uncle && header.time > now then Some(FutureBlock)
    else if header.time <= parent.time then Some(TimestampNotLater)
    else if CalcDifficulty(rules, Uint64(header.time), parent) != header.difficulty then Some(WrongDifficulty)
    else if Abs(parent.gasLimit - header.gasLimit) >= parent.gasLimit / GAS_LIMIT_BOUND_DIVISOR
            || header.gasLimit < MIN_GAS_LIMIT then Some(WrongGasLimit)
    else if header.number - parent.number != 1 then Some(WrongNumber)
    else if checkPow && !pow(header) then Some(BadNonce)
    else None
  }

  /** The gas limit of the next block after a parent with this limit and usage. */
  function CalcGasLimit(parentLimit: nat, parentUsed: nat, target: nat): int {
    var contrib := parentUsed * 3 / 2 / GAS_LIMIT_BOUND_DIVISOR;
    var decay := parentLimit / GAS_LIMIT_BOUND_DIVISOR - 1;
    var gl := Max(parentLimit - decay + contrib, MIN_GAS_LIMIT);
    if gl < target then Min(parentLimit + decay, target) else gl
  }

  predicate GasLimitAccepted(parentLimit: nat, limit: int) {
    Abs(parentLimit - limit) < parentLimit / GAS_LIMIT_BOUND_DIVISOR && limit >= MIN_GAS_LIMIT
  }

  /** The exact limit: a step down of a 1024th and up by three 2048ths of the usage, but not below 5000; where that is
      below the target, a whole step up as far as the target. */
  lemma GasLimitExact(limit: nat, used: nat, target: nat)
    ensures var step, gl := limit / 1024 - 1, CalcGasLimit(limit, used, target);
      var drift := limit - step + 3 * used / 2048;
      && (drift >= target && drift >= 5000 ==> gl == drift)
      && (drift < 5000 && target <= 5000 ==> gl == 5000)
      && (drift < target && 5000 < target ==> gl == if limit + step < target then limit + step else target)
  {
    assert used * 3 / 2 / 1024 == 3 * used / 2048;
  }

  /** So above the target and the floor the limit rises exactly when more than about two thirds of it were used. */
  lemma GasLimitRisesIff(limit: nat, used: nat, target: nat)
    requires limit > 5000 && target <= 5000
    ensures CalcGasLimit(limit, used, target) > limit <==> 3 * used / 2048 > limit / 1024 - 1
  {
    GasLimitExact(limit, used, target);
  }

  /** The rules, as what breaks each of them. */
  ghost function HeaderChecks(rules: nat -> DifficultyRule, now: nat, pow: Header -> bool, header: Header,
                              parent: Header, checkPow: bool, uncle: bool): seq<bool> {
    var step := parent.gasLimit / 1024;
    [header.extraSize > 32, uncle && header.time > MAX_BIG, !uncle && header.time > now, header.time <= parent.time,
     header.difficulty != CalcDifficulty(rules, header.time % 0x1_0000_0000_0000_0000, parent),
     header.gasLimit < 5000 || header.gasLimit >= parent.gasLimit + step || header.gasLimit <= parent.gasLimit - step,
     header.number != parent.number + 1, checkPow && !pow(header)]
  }

  /** The first rule a header breaks decides which error is reported. */
  lemma FirstRuleDecides(rules: nat -> DifficultyRule, now: nat, pow: Header -> bool, header: Header, parent: Header,
                         checkPow: bool, uncle: bool, i: nat)
    requires i < 8
    ensures var errors := [ExtraTooLong, TimestampTooBig, FutureBlock, TimestampNotLater, WrongDifficulty,
                           WrongGasLimit, WrongNumber, BadNonce];
      ValidateHeader(rules, now, pow, header, parent, checkPow, uncle) == Some(errors[i]) <==>
        FirstAt(HeaderChecks(rules, now, pow, header, parent, checkPow, uncle), i)
  {
    hide CalcDifficulty, FirstAt;
    FirstOfEight(HeaderChecks(rules, now, pow, header, parent, checkPow, uncle), i);
  }

  /** The miner's gas limit is accepted exactly when usage does not push it a full step up, or the target pulls it
      back. Only parents with limits below 6144 can fail. */
  lemma MinerGasLimitAcceptedIff(limit: nat, used: nat, target: nat)
    requires limit >= MIN_GAS_LIMIT && used <= limit
    ensures GasLimitAccepted(limit, CalcGasLimit(limit, used, target)) <==>
      || used * 3 / 2 / GAS_LIMIT_BOUND_DIVISOR + 1 < 2 * (limit / GAS_LIMIT_BOUND_DIVISOR)
      || limit - (limit / GAS_LIMIT_BOUND_DIVISOR - 1) + used * 3 / 2 / GAS_LIMIT_BOUND_DIVISOR < target
    ensures limit >= 6144 ==> GasLimitAccepted(limit, CalcGasLimit(limit, used, target))
  {
    var q := limit / 1024;
    assert used * 3 / 2 <= limit * 3 / 2;
    assert limit < 1024 * (q + 1);
  }

  lemma MinerGasLimitCanFail()
    ensures !GasLimitAccepted(5000, CalcGasLimit(5000, 5000, 5000))
  {
  }

  lemma DefaultTargetAccepted(limit: nat, used: nat)
    requires limit >= MIN_GAS_LIMIT && used <= limit
    ensures GasLimitAccepted(limit, CalcGasLimit(limit, used, TARGET_GAS_LIMIT))
  {
    MinerGasLimitAcceptedIff(limit, used, TARGET_GAS_LIMIT);
  }

  /** The header commitNewWork builds on `parent` when the clock reads `now`. */
  function MinedHeader(rules: nat -> DifficultyRule, now: nat, parent: Header, target: nat,
                       hash: Hash, coinbase: Address, extraSize: nat): (h: Header)
    requires parent.gasLimit > 0
    ensures h.parentHash == parent.hash && h.time > parent.time && h.time >= now
    ensures h.time == now || h.time == parent.time + 1
    ensures h.hash == hash && h.coinbase == coinbase && h.extraSize == extraSize && h.gasUsed == 0 && !h.hasUncles
  {
    var tstamp := if parent.time >= now then parent.time + 1 else now;
    Header(hash, parent.hash, parent.number + 1, CalcDifficulty(rules, Uint64(tstamp), parent), tstamp,
           CalcGasLimit(parent.gasLimit, parent.gasUsed, target), 0, coinbase, extraSize, false)
  }

  /** Nothing but the clock, the extra data and the nonce can make a freshly mined header invalid. */
  lemma MinedHeaderValid(rules: nat -> DifficultyRule, now: nat, later: nat, pow: Header -> bool, parent: Header,
                         hash: Hash, coinbase: Address, extraSize: nat, checkPow: bool)
    requires parent.gasLimit >= MIN_GAS_LIMIT && parent.gasUsed <= parent.gasLimit && extraSize <= HEADER_EXTRA_MAX
    ensures var h := MinedHeader(rules, now, parent, TARGET_GAS_LIMIT, hash, coinbase, extraSize);
      ValidateHeader(rules, later, pow, h, parent, checkPow, false) ==
        if h.time > later then Some(FutureBlock) else if checkPow && !pow(h) then Some(BadNonce) else None
  {
    DefaultTargetAccepted(parent.gasLimit, parent.gasUsed);
  }

  /** The limit after `n` empty blocks mined on top of `limit`. */
  function IdleLimit(limit: int, target: nat, n: nat): int
    decreases n
  {
    if n == 0 || limit < 0 then limit else IdleLimit(CalcGasLimit(limit, 0, target), target, n - 1)
  }

  /** Miners of empty blocks bring any limit to the target in finitely many blocks and then hold it there. */
  lemma {:induction false} IdleLimitReachesTarget(limit: nat, target: nat) returns (n: nat)
    requires limit >= MIN_GAS_LIMIT && target >= MIN_GAS_LIMIT
    ensures IdleLimit(limit, target, n) == target
    ensures CalcGasLimit(target, 0, target) == target
    ensures n <= Abs(limit - target)
    decreases Abs(limit - target)
  {
    if limit == target {
      n := 0;
    } else {
      var next := CalcGasLimit(limit, 0, target);
      assert Abs(next - target) < Abs(limit - target) && next >= MIN_GAS_LIMIT;
      var m := IdleLimitReachesTarget(next, target);
      n := m + 1;
    }
  }

  /** Consecutive headers, each valid on top of the one before it. */
  ghost predicate ValidChain(rules: nat -> DifficultyRule, now: nat, pow: Header -> bool, chain: seq<Header>) {
    forall i, j :: 0 <= i < j < |chain| && j == i + 1 ==>
      ValidateHeader(rules, now, pow, chain[j], chain[i], true, false) == None
  }

  lemma StepsRange(rule: DifficultyRule, time: nat, parent: Header)
    requires time > Uint64(parent.time) && time > parent.time
    ensures -20 <= Steps(rule, time, parent) <= 2
  {
  }

  lemma StepSigns(q: nat, s: int)
    requires -20 <= s <= 2
    ensures q * -20 <= q * s <= q * 2
    ensures q > 0 ==> (q * s > 0 <==> s > 0) && (q * s < 0 <==> s < 0) && (q * s == q * -20 <==> s == -20)
  {
    MulMono(q, -20, s);
    MulMono(q, s, 2);
  }

  /** One block lowers the difficulty by at most a tenth, or leaves it at the floor, and raises it by at most a
      hundredth. */
  lemma DifficultyStep(rules: nat -> DifficultyRule, time: nat, parent: Header)
    requires time > Uint64(parent.time) && time > parent.time
    ensures var d := CalcDifficulty(rules, time, parent);
      && 10 * d >= 9 * parent.difficulty
      && (d == MINIMUM_DIFFICULTY || 100 * d <= 101 * parent.difficulty)
  {
    hide Steps, Uint64;
    var rule, q := rules(parent.number + 1), parent.difficulty / DIFFICULTY_BOUND_DIVISOR;
    StepsRange(rule, time, parent);
    StepSigns(q, Steps(rule, time, parent));
  }

  /** How long after its parent a block must come for the difficulty to stop rising. */
  function RisesBelow(rule: DifficultyRule, hasUncles: bool): nat {
    if rule == Defused then 10 else if hasUncles then 18 else 9
  }

  function Interval(rule: DifficultyRule): nat { if rule == Defused then 10 else 9 }

  function FirstStep(rule: DifficultyRule, hasUncles: bool): nat {
    if rule == Atlantis && hasUncles then 2 else 1
  }

  lemma StepsOf(rule: DifficultyRule, time: nat, parent: Header)
    requires parent.time < TWO_64 && parent.time < time
    ensures Steps(rule, time, parent)
         == StepsAfter(FirstStep(rule, parent.hasUncles), Interval(rule), time - parent.time)
  {
    hide StepsAfter;
    UintSmall(parent.time);
  }

  lemma UintSmall(n: nat)
    requires n < TWO_64
    ensures Uint64(n) == n
  {
  }

  lemma StepsByGap(rule: DifficultyRule, time: nat, parent: Header)
    requires parent.time < TWO_64 && parent.time < time
    ensures var gap, turn, s := time - parent.time, RisesBelow(rule, parent.hasUncles), Steps(rule, time, parent);
      && (s > 0 <==> gap < turn) && (s < 0 <==> gap >= turn + Interval(rule))
      && (s == -20 <==> gap >= turn + 20 * Interval(rule))
  {
    hide Steps, StepsAfter;
    StepsOf(rule, time, parent);
    StepsAt(FirstStep(rule, parent.hasUncles), Interval(rule), time - parent.time);
  }

  lemma StepsAt(first: nat, interval: nat, gap: nat)
    requires 1 <= first <= 2 && 9 <= interval <= 10
    ensures var s := StepsAfter(first, interval, gap);
      && (s > 0 <==> gap < first * interval) && (s < 0 <==> gap >= (first + 1) * interval)
      && (s == -20 <==> gap >= (first + 20) * interval)
  {
    if interval == 9 {
      assert gap == 9 * (gap / 9) + gap % 9;
    } else {
      assert gap == 10 * (gap / 10) + gap % 10;
    }
  }

  /** Difficulty rises exactly for blocks sooner than that, stays for one more interval, then falls, by a tenth from
      twenty intervals later on. */
  lemma DifficultyBalances(rules: nat -> DifficultyRule, time: nat, parent: Header)
    requires parent.time < TWO_64 && parent.time < time && parent.difficulty > 2 * MINIMUM_DIFFICULTY
    ensures var d, gap, rule := CalcDifficulty(rules, time, parent), time - parent.time, rules(parent.number + 1);
      var turn := RisesBelow(rule, parent.hasUncles);
      && (d > parent.difficulty <==> gap < turn)
      && (d < parent.difficulty <==> gap >= turn + Interval(rule))
      && (d == parent.difficulty - 20 * (parent.difficulty / DIFFICULTY_BOUND_DIVISOR) <==>
          gap >= turn + 20 * Interval(rule))
  {
    var rule, q := rules(parent.number + 1), parent.difficulty / DIFFICULTY_BOUND_DIVISOR;
    assert Uint64(parent.time) == parent.time;
    StepsRange(rule, time, parent);
    StepsByGap(rule, time, parent);
    BalancesBySteps(parent.difficulty, q, Steps(rule, time, parent));
  }

  /** The exact difficulty: `s` two-hundredths of the parent's are added, one less for every interval the block takes
      longer, starting from one, or from two after a parent with uncles, and ending at minus twenty. */
  lemma DifficultyExact(rules: nat -> DifficultyRule, time: nat, parent: Header, s: int)
    requires parent.time < TWO_64 && parent.time < time
    requires var rule, gap := rules(parent.number + 1), time - parent.time;
      var interval, first := if rule.Defused? then 10 else 9, if rule.Atlantis? && parent.hasUncles then 2 else 1;
      -20 <= s <= first && interval * (first - s) <= gap && (s > -20 ==> gap < interval * (first - s + 1))
    ensures CalcDifficulty(rules, time, parent) == Max(10000, parent.difficulty + parent.difficulty / 200 * s)
  {
    hide Steps, StepsAfter;
    var rule := rules(parent.number + 1);
    StepsOf(rule, time, parent);
    StepsExact(FirstStep(rule, parent.hasUncles), Interval(rule), time - parent.time, s);
  }

  lemma StepsExact(first: nat, interval: nat, gap: nat, s: int)
    requires 1 <= first <= 2 && 9 <= interval <= 10 && -20 <= s <= first
    requires interval * (first - s) <= gap && (s > -20 ==> gap < interval * (first - s + 1))
    ensures StepsAfter(first, interval, gap) == s
  {
    if interval == 9 {
      assert gap == 9 * (gap / 9) + gap % 9;
    } else {
      assert gap == 10 * (gap / 10) + gap % 10;
    }
  }

  lemma BalancesBySteps(p: nat, q: nat, s: int)
    requires p > 2 * MINIMUM_DIFFICULTY && q == p / DIFFICULTY_BOUND_DIVISOR && -20 <= s <= 2
    ensures var d := Max(p + q * s, MINIMUM_DIFFICULTY);
      (d > p <==> s > 0) && (d < p <==> s < 0) && (d == p - 20 * q <==> s == -20)
  {
    StepSigns(q, s);
  }

  lemma DivMono(a: int, b: int)
    requires a <= b
    ensures a / 9 <= b / 9 && a / 10 <= b / 10
  {
  }

  lemma StepsFall(rule: DifficultyRule, early: nat, late: nat, parent: Header)
    requires early <= late
    ensures Steps(rule, late, parent) <= Steps(rule, early, parent)
  {
    hide Uint64;
    DivMono(early - parent.time, late - parent.time);
    DivMono(early - Uint64(parent.time), late - Uint64(parent.time));
  }

  /** A later timestamp never raises the difficulty. */
  lemma DifficultyFallsWithTime(rules: nat -> DifficultyRule, early: nat, late: nat, parent: Header)
    requires early <= late
    ensures CalcDifficulty(rules, late, parent) <= CalcDifficulty(rules, early, parent)
  {
    hide Steps;
    var rule := rules(parent.number + 1);
    StepsFall(rule, early, late, parent);
    MulMono(parent.difficulty / DIFFICULTY_BOUND_DIVISOR, Steps(rule, late, parent), Steps(rule, early, parent));
  }

  lemma ValidStep(rules: nat -> DifficultyRule, now: nat, pow: Header -> bool, h: Header, p: Header)
    requires ValidateHeader(rules, now, pow, h, p, true, false) == None && now < TWO_64
    ensures h.number == p.number + 1 && p.time < h.time <= now && h.difficulty >= MINIMUM_DIFFICULTY
    ensures 10 * h.difficulty >= 9 * p.difficulty
  {
    hide CalcDifficulty;
    DifficultyStep(rules, h.time, p);
  }

  /** Over any valid chain, numbers and timestamps rise, every block but the first meets the difficulty floor, and
      difficulty cannot collapse faster than by a tenth a block. */
  lemma {:induction false} ChainDifficulty(rules: nat -> DifficultyRule, now: nat, pow: Header -> bool,
                                           chain: seq<Header>)
    requires ValidChain(rules, now, pow, chain) && chain != [] && now < TWO_64
    requires chain[0].time < TWO_64
    ensures var n := |chain| - 1;
      && chain[n].number == chain[0].number + n
      && chain[n].time >= chain[0].time + n
      && (n > 0 ==> chain[n].difficulty >= MINIMUM_DIFFICULTY && chain[n].time <= now)
      && Pow(10, n) * chain[n].difficulty >= Pow(9, n) * chain[0].difficulty
    decreases |chain|
  {
    hide ValidateHeader, CalcDifficulty;
    var n := |chain| - 1;
    if n > 0 {
      var lower := chain[..n];
      ChainDifficulty(rules, now, pow, lower);
      var p, h := chain[n - 1], chain[n];
      ValidStep(rules, now, pow, h, p);
      ScaleStep(Pow(10, n - 1), Pow(9, n - 1), chain[0].difficulty, p.difficulty, h.difficulty, 10, 9);
    }
  }

  /** Chains one bound `v * p <= u * h` onto an accumulated `b * x <= a * p`. */
  lemma ScaleStep(a: nat, b: nat, x: nat, p: nat, h: nat, u: nat, v: nat)
    requires b * x <= a * p && v * p <= u * h
    ensures (v * b) * x <= (u * a) * h
  {
    calc {
      (v * b) * x;
      v * (b * x);
    <=  { MulMono(v, b * x, a * p); }
      v * (a * p);
      a * (v * p);
    <=  { MulMono(a, v * p, u * h); }
      a * (u * h);
      (u * a) * h;
    }
  }

  lemma ScaleStepUp(a: nat, b: nat, x: nat, p: nat, h: nat, u: nat, v: nat)
    requires a * p <= b * x && u * h <= v * p
    ensures (u * a) * h <= (v * b) * x
  {
    calc {
      (u * a) * h;
      a * (u * h);
    <=  { MulMono(a, u * h, v * p); }
      a * (v * p);
      v * (a * p);
    <=  { MulMono(v, a * p, b * x); }
      v * (b * x);
      (v * b) * x;
    }
  }

  lemma MulMono(a: nat, b: int, c: int)
    requires b <= c
    ensures a * b <= a * c
  {
  }

  /** Over any valid chain the gas limit stays above the floor and within (1 +- 1/1024)^n of the first block's. */
  lemma {:induction false} ChainGasLimit(rules: nat -> DifficultyRule, now: nat, pow: Header -> bool,
                                         chain: seq<Header>)
    requires ValidChain(rules, now, pow, chain) && chain != []
    ensures var n := |chain| - 1;
      && (n > 0 ==> chain[n].gasLimit >= MIN_GAS_LIMIT)
      && Pow(1023, n) * chain[0].gasLimit <= Pow(1024, n) * chain[n].gasLimit <= Pow(1025, n) * chain[0].gasLimit
    decreases |chain|
  {
    var n := |chain| - 1;
    if n > 0 {
      ChainGasLimit(rules, now, pow, chain[..n]);
      var p, h := chain[n - 1].gasLimit, chain[n].gasLimit;
      assert ValidateHeader(rules, now, pow, chain[n], chain[n - 1], true, false) == None;
      assert 1023 * p <= 1024 * h <= 1025 * p;
      ScaleStep(Pow(1024, n - 1), Pow(1023, n - 1), chain[0].gasLimit, p, h, 1024, 1023);
      ScaleStepUp(Pow(1024, n - 1), Pow(1025, n - 1), chain[0].gasLimit, p, h, 1024, 1025);
    }
  }
}
