/**
 The economic model: six pools of coins that do not circulate yet, how fees fill them and how mining
 rewards, interest and promotion payments drain them, and the ring of recent supplies.
 */
module Economics {
  import opened ChainTypes

  const HUNDRED_PERCENT: nat := 10000
  const PROMOTION_SCALE: nat := 262144
  const TWO_64: nat := 0x1_0000_0000_0000_0000

  datatype Config = Config(
    miningPercent: nat,
    interestPercent: nat,
    promotionPercent: nat,
    burnPercent: nat,
    interestBlocks: nat,
    interestFeesTime: nat,
    interestDelay: nat,
    coinbaseBlocks: nat,
    blocksPerDay: nat,
    totalInterests: nat)

  /** What a genesis configuration has to satisfy. */
  ghost predicate Sound(c: Config) {
    && c.miningPercent + c.interestPercent + c.promotionPercent <= HUNDRED_PERCENT
    && c.burnPercent <= HUNDRED_PERCENT
    && 0 < c.interestBlocks <= c.interestFeesTime
    && 0 < c.coinbaseBlocks && 0 < c.blocksPerDay
  }

  datatype Economy = Economy(
    miningCoinbase: int,
    miningFees: int,
    interestCoinbase: int,
    interestFees: int,
    promotion: int,
    burn: int,
    initialPromotion: int,
    blockReward: int,
    accumulated: int,
    historic: map<nat, int>)

  function Pools(e: Economy): int {
    e.miningCoinbase + e.miningFees + e.interestCoinbase + e.interestFees + e.promotion + e.burn
  }

  ghost predicate NonNegative(e: Economy) {
    && e.miningCoinbase >= 0 && e.miningFees >= 0 && e.interestCoinbase >= 0 && e.interestFees >= 0
    && e.promotion >= 0 && e.burn >= 0 && e.blockReward >= 0 && e.initialPromotion >= 0
  }

  function Share(amount: int, percent: nat): int {
    amount * percent / HUNDRED_PERCENT
  }

  /** The pools at genesis: shares of the coins that are not issued yet. */
  function Initial(c: Config, initSupply: int, totalSupply: int): Economy
    requires c.coinbaseBlocks > 0
  {
    var coinbase := totalSupply - initSupply;
    var mining := Share(coinbase, c.miningPercent);
    var promotion := Share(coinbase, c.promotionPercent);
    Economy(mining, 0, Share(coinbase, c.interestPercent), 0, promotion, 0, promotion, mining / c.coinbaseBlocks, 0,
      map[])
  }

  function AddFee(e: Economy, c: Config, fee: int): Economy {
    var burned := Share(fee, c.burnPercent);
    var rest := fee - burned;
    var mining := Share(rest, c.miningPercent);
    var promotion := Share(rest, c.promotionPercent);
    e.(miningFees := e.miningFees + mining,
       promotion := e.promotion + promotion,
       burn := e.burn + burned,
       interestFees := e.interestFees + (rest - mining - promotion))
  }

  function Min(a: int, b: int): int {
    if a < b then a else b
  }

  /** The producer's reward and what is left; None on a division by zero. */
  function WithdrawMining(e: Economy, c: Config, block: nat, nominator: nat, denominator: nat): Option<(Economy, int)>
    requires c.blocksPerDay > 0
  {
    if block <= c.interestDelay then Some((e, 0))
    else if denominator == 0 then None
    else
      var coinbase := Min(e.blockReward * nominator / denominator, e.miningCoinbase);
      var fees := Min(e.miningFees / (c.blocksPerDay * 7) * nominator / denominator, e.miningFees);
      Some((e.(miningCoinbase := e.miningCoinbase - coinbase, miningFees := e.miningFees - fees), coinbase + fees))
  }

  /** The interest on a holding and what is left; None where the model asserts. */
  function WithdrawInterests(e: Economy, c: Config, holding: int, period: nat): Option<(Economy, int)>
    requires c.coinbaseBlocks > 0 && c.interestFeesTime > 0
  {
    if holding < 0 || e.interestCoinbase < 0 || e.interestFees < 0 || e.accumulated < holding then None
    else if holding == 0 then Some((e, 0))
    else
      var available := Min(e.interestCoinbase, c.totalInterests * period / c.coinbaseBlocks);
      var coinbase := holding * available / e.accumulated;
      var fees := e.interestFees * c.interestBlocks / c.interestFeesTime * holding / e.accumulated;
      Some((e.(interestFees := e.interestFees - fees, interestCoinbase := e.interestCoinbase - coinbase),
        fees + coinbase))
  }

  /** The part of the promotion pool that is still locked, in 128-bit fixed-point arithmetic. */
  function Locked(initial: nat, c: Config, block: nat): nat
    requires c.coinbaseBlocks > 0
  {
    var perBlock := initial * PROMOTION_SCALE / c.coinbaseBlocks;
    var left := (c.coinbaseBlocks - block) % TWO_128;
    perBlock * left % TWO_128 / PROMOTION_SCALE
  }

  /** What may be paid out of the promotion pool; None where the model asserts. */
  function Available(e: Economy, c: Config, block: nat): Option<int>
    requires c.coinbaseBlocks > 0
  {
    if e.initialPromotion < 0 then None
    else
      var locked := Locked(e.initialPromotion, c, block);
      if locked >= TWO_64 || e.promotion < locked then None else Some(e.promotion - locked)
  }

  function WithdrawPromotion(e: Economy, c: Config, amount: int, block: nat): Option<(Economy, int)>
    requires c.coinbaseBlocks > 0
  {
    match Available(e, c, block)
    case None => None
    case Some(free) =>
      var paid := Min(free, amount);
      if paid <= 0 then None else Some((e.(promotion := e.promotion - paid), paid))
  }

  function Recorded(e: Economy, slot: nat): int {
    if slot in e.historic then e.historic[slot] else 0
  }

  /** Replaces the oldest recorded supply by the newest. */
  function RecordBlock(e: Economy, c: Config, block: nat, supply: int): Economy
    requires c.interestBlocks > 0
  {
    var slot := block % c.interestBlocks;
    var kept := if block >= c.interestBlocks then e.accumulated - Recorded(e, slot) else e.accumulated;
    e.(historic := e.historic[slot := supply], accumulated := kept + supply)
  }

  // ----- conservation and non-negativity -----

  lemma ShareBounds(amount: int, percent: nat)
    requires 0 <= amount && percent <= HUNDRED_PERCENT
    ensures 0 <= Share(amount, percent) <= amount
  {
    assert amount * percent <= amount * HUNDRED_PERCENT;
  }

  lemma SharesFit(amount: int, p: nat, q: nat)
    requires 0 <= amount && p + q <= HUNDRED_PERCENT
    ensures 0 <= Share(amount, p) && 0 <= Share(amount, q) && Share(amount, p) + Share(amount, q) <= amount
  {
    assert amount * p + amount * q == amount * (p + q);
    assert amount * (p + q) <= amount * HUNDRED_PERCENT;
    assert 0 <= amount * p && 0 <= amount * q;
  }

  /** A fee ends up in the pools, all of it; no pool shrinks. */
  lemma AddFeeConserves(e: Economy, c: Config, fee: int)
    requires Sound(c) && fee >= 0
    ensures Pools(AddFee(e, c, fee)) == Pools(e) + fee
    ensures NonNegative(e) ==> NonNegative(AddFee(e, c, fee))
    ensures AddFee(e, c, fee).promotion >= e.promotion
  {
    hide Share;
    ShareBounds(fee, c.burnPercent);
    SharesFit(fee - Share(fee, c.burnPercent), c.miningPercent, c.promotionPercent);
  }

  lemma Monotone(a: nat, b: int, c: int)
    requires b <= c
    ensures a * b <= a * c
  {}

  lemma QuotientAtLeast(a: int, d: int, q: int)
    requires d > 0 && d * q <= a
    ensures q <= a / d
  {
    if a / d < q {
      Monotone(d, a / d + 1, q);
      assert false;
    }
  }

  lemma QuotientAtMost(a: int, d: int, q: int)
    requires d > 0 && a < d * (q + 1)
    ensures a / d <= q
  {
    if q < a / d {
      Monotone(d, q + 1, a / d);
      assert false;
    }
  }

  lemma QuotientSign(a: int, b: int)
    requires a >= 0 && b > 0
    ensures 0 <= a / b <= a
  {
    QuotientAtLeast(a, b, 0);
    assert a < b * (a + 1) by {
      Monotone(a + 1, 1, b);
    }
    QuotientAtMost(a, b, a);
  }

  lemma ProductSign(a: int, b: int)
    requires a >= 0 && b >= 0
    ensures a * b >= 0
  {}

  /** A mining reward is taken from the pools, never more than they hold. */
  lemma WithdrawMiningConserves(e: Economy, c: Config, block: nat, nominator: nat, denominator: nat)
    requires Sound(c) && NonNegative(e)
    ensures var r := WithdrawMining(e, c, block, nominator, denominator);
      r.Some? ==> (&& NonNegative(r.value.0) && r.value.1 >= 0 && Pools(r.value.0) == Pools(e) - r.value.1
                   && r.value.0 == e.(miningCoinbase := r.value.0.miningCoinbase, miningFees := r.value.0.miningFees))
  {
    if denominator > 0 {
      ProductSign(e.blockReward, nominator);
      QuotientSign(e.blockReward * nominator, denominator);
      QuotientSign(e.miningFees, c.blocksPerDay * 7);
      ProductSign(e.miningFees / (c.blocksPerDay * 7), nominator);
      QuotientSign(e.miningFees / (c.blocksPerDay * 7) * nominator, denominator);
    }
  }

  /** A proportion of at most one of a pool is not more than the pool. */
  lemma Proportion(pool: int, part: int, whole: int)
    requires pool >= 0 && 0 <= part <= whole && whole > 0
    ensures 0 <= part * pool / whole <= pool
    ensures 0 <= pool * part / whole <= pool
  {
    Monotone(pool, part, whole);
    assert part * pool == pool * part && whole * pool == pool * whole;
    ProductSign(part, pool);
    QuotientAtLeast(pool * part, whole, 0);
    assert whole * (pool + 1) == pool * whole + whole;
    QuotientAtMost(pool * part, whole, pool);
  }

  /** Interest is taken from the pools, never more than they hold. */
  lemma WithdrawInterestsConserves(e: Economy, c: Config, holding: int, period: nat)
    requires Sound(c) && NonNegative(e)
    ensures var r := WithdrawInterests(e, c, holding, period);
      r.Some? ==> (&& NonNegative(r.value.0) && r.value.1 >= 0 && Pools(r.value.0) == Pools(e) - r.value.1
                   && r.value.0 == e.(interestCoinbase := r.value.0.interestCoinbase,
                     interestFees := r.value.0.interestFees))
  {
    if 0 < holding <= e.accumulated {
      var scheduled := c.totalInterests * period / c.coinbaseBlocks;
      ProductSign(c.totalInterests, period);
      QuotientSign(c.totalInterests * period, c.coinbaseBlocks);
      Proportion(Min(e.interestCoinbase, scheduled), holding, e.accumulated);
      Proportion(e.interestFees, c.interestBlocks, c.interestFeesTime);
      Proportion(e.interestFees * c.interestBlocks / c.interestFeesTime, holding, e.accumulated);
    }
  }

  // ----- how much is paid -----

  /** q is the quotient of a and d, rounded down. */
  ghost predicate RoundedDown(q: int, a: int, d: int) {
    q * d <= a < (q + 1) * d
  }

  lemma QuotientRounds(a: int, d: int)
    requires d > 0
    ensures RoundedDown(a / d, a, d)
  {
    assert a == a / d * d + a % d;
  }

  /** A holding earns its part of the accumulated supply, rounded down: of what the schedule makes available for the
      period, as far as the pool has it, and of the fees of as many blocks as the period has. */
  lemma InterestIsProportional(e: Economy, c: Config, holding: int, period: nat)
    requires Sound(c) && NonNegative(e) && 0 < holding <= e.accumulated
    ensures WithdrawInterests(e, c, holding, period).Some?
    ensures var (f, paid) := WithdrawInterests(e, c, holding, period).value;
      var coinbase, fees := e.interestCoinbase - f.interestCoinbase, e.interestFees - f.interestFees;
      && paid == coinbase + fees && f == e.(interestCoinbase := f.interestCoinbase, interestFees := f.interestFees)
      && (exists scheduled: int :: RoundedDown(scheduled, c.totalInterests * period, c.coinbaseBlocks)
            && RoundedDown(coinbase, holding * (if scheduled < e.interestCoinbase then scheduled
              else e.interestCoinbase),
                 e.accumulated))
      && (exists share: int :: RoundedDown(share, e.interestFees * c.interestBlocks, c.interestFeesTime)
            && RoundedDown(fees, share * holding, e.accumulated))
  {
    hide RoundedDown;
    var scheduled := c.totalInterests * period / c.coinbaseBlocks;
    var share := e.interestFees * c.interestBlocks / c.interestFeesTime;
    QuotientRounds(c.totalInterests * period, c.coinbaseBlocks);
    QuotientRounds(holding * Min(e.interestCoinbase, scheduled), e.accumulated);
    QuotientRounds(e.interestFees * c.interestBlocks, c.interestFeesTime);
    QuotientRounds(share * holding, e.accumulated);
  }

  /** A fee is split by percentages, rounded down: first what is burned, then of the rest the parts for mining and for
      promotion; interest gets what is left. */
  lemma FeeIsSplit(e: Economy, c: Config, fee: int)
    ensures var f := AddFee(e, c, fee);
      var burned, mining, promotion := f.burn - e.burn, f.miningFees - e.miningFees, f.promotion - e.promotion;
      && RoundedDown(burned, fee * c.burnPercent, 10000)
      && RoundedDown(mining, (fee - burned) * c.miningPercent, 10000)
      && RoundedDown(promotion, (fee - burned) * c.promotionPercent, 10000)
      && f.interestFees == e.interestFees + fee - burned - mining - promotion
      && f == e.(burn := f.burn, miningFees := f.miningFees, promotion := f.promotion, interestFees := f.interestFees)
  {
    hide RoundedDown;
    var burned := Share(fee, c.burnPercent);
    QuotientRounds(fee * c.burnPercent, 10000);
    QuotientRounds((fee - burned) * c.miningPercent, 10000);
    QuotientRounds((fee - burned) * c.promotionPercent, 10000);
  }

  /** At genesis the pools get their percentages of the coins not issued, rounded down; the block reward is the mining
      pool spread over the coinbase blocks; nothing has been paid in. */
  lemma GenesisIsSplit(c: Config, initSupply: int, totalSupply: int)
    requires c.coinbaseBlocks > 0
    ensures var e, coins := Initial(c, initSupply, totalSupply), totalSupply - initSupply;
      && RoundedDown(e.miningCoinbase, coins * c.miningPercent, 10000)
      && RoundedDown(e.interestCoinbase, coins * c.interestPercent, 10000)
      && RoundedDown(e.promotion, coins * c.promotionPercent, 10000)
      && RoundedDown(e.blockReward, e.miningCoinbase, c.coinbaseBlocks)
      && e.initialPromotion == e.promotion && e.miningFees == e.interestFees == e.burn == e.accumulated == 0
      && e.historic == map[]
  {
    hide RoundedDown;
    var coins := totalSupply - initSupply;
    QuotientRounds(coins * c.miningPercent, 10000);
    QuotientRounds(coins * c.interestPercent, 10000);
    QuotientRounds(coins * c.promotionPercent, 10000);
    QuotientRounds(Share(coins, c.miningPercent), c.coinbaseBlocks);
  }

  /** x is the quotient of a and d, rounded down, or the whole pool if that is less. */
  ghost predicate AtMost(x: int, a: int, d: int, pool: int) {
    exists q: int :: RoundedDown(q, a, d) && x == if q < pool then q else pool
  }

  /** After the delay a producer gets its part of the block reward and of one block's part of the mining fees of a week,
      each as far as the pool has it; it throws exactly on a zero denominator. */
  lemma MiningRewardIs(e: Economy, c: Config, block: nat, nominator: nat, denominator: nat)
    requires Sound(c)
    ensures var r := WithdrawMining(e, c, block, nominator, denominator);
      && (r.None? <==> block > c.interestDelay && denominator == 0)
      && (block <= c.interestDelay ==> r == Some((e, 0)))
      && (block > c.interestDelay && denominator > 0 ==>
            var (f, paid) := r.value;
            var coinbase, fees := e.miningCoinbase - f.miningCoinbase, e.miningFees - f.miningFees;
            && paid == coinbase + fees && f == e.(miningCoinbase := f.miningCoinbase, miningFees := f.miningFees)
            && AtMost(coinbase, e.blockReward * nominator, denominator, e.miningCoinbase)
            && exists perBlock: int :: RoundedDown(perBlock, e.miningFees, 7 * c.blocksPerDay)
                 && AtMost(fees, perBlock * nominator, denominator, e.miningFees))
  {
    hide RoundedDown;
    if denominator > 0 {
      var perBlock := e.miningFees / (c.blocksPerDay * 7);
      QuotientRounds(e.blockReward * nominator, denominator);
      QuotientRounds(e.miningFees, 7 * c.blocksPerDay);
      QuotientRounds(perBlock * nominator, denominator);
      assert AtMost(Min(perBlock * nominator / denominator, e.miningFees), perBlock * nominator, denominator,
        e.miningFees);
    }
  }

  /** The genesis pools fall short of the unissued coins by the amounts rounded away, and by nothing else. */
  lemma InitialPools(c: Config, initSupply: int, totalSupply: int)
    requires Sound(c) && initSupply <= totalSupply
    ensures var e := Initial(c, initSupply, totalSupply);
      NonNegative(e) && Pools(e) <= totalSupply - initSupply
  {
    hide Share;
    var coinbase := totalSupply - initSupply;
    SharesFit(coinbase, c.miningPercent, c.promotionPercent);
    ThreeSharesFit(coinbase, c.miningPercent, c.interestPercent, c.promotionPercent);
    QuotientSign(Share(coinbase, c.miningPercent), c.coinbaseBlocks);
  }

  lemma ThreeSharesFit(amount: int, p: nat, q: nat, r: nat)
    requires 0 <= amount && p + q + r <= HUNDRED_PERCENT
    ensures 0 <= Share(amount, p) && 0 <= Share(amount, q) && 0 <= Share(amount, r)
    ensures Share(amount, p) + Share(amount, q) + Share(amount, r) <= amount
  {
    SharesFit(amount, p, q);
    assert amount * p + amount * q + amount * r == amount * (p + q + r);
    assert amount * (p + q + r) <= amount * HUNDRED_PERCENT;
    assert 0 <= amount * r;
  }

  // ----- the promotion pool -----

  lemma LockedDoesNotWrap(initial: nat, c: Config, block: nat)
    requires 0 < c.coinbaseBlocks < TWO_128 && block <= c.coinbaseBlocks && initial < TWO_64
    ensures Locked(initial, c, block)
         == initial * PROMOTION_SCALE / c.coinbaseBlocks * (c.coinbaseBlocks - block) / PROMOTION_SCALE
    ensures Locked(initial, c, block) <= initial
  {
    var left := c.coinbaseBlocks - block;
    PerBlockFits(initial * PROMOTION_SCALE, c.coinbaseBlocks, left);
    SmallMod(left);
    SmallMod(initial * PROMOTION_SCALE / c.coinbaseBlocks * left);
    DivMonotone(initial * PROMOTION_SCALE / c.coinbaseBlocks * left, initial * PROMOTION_SCALE, PROMOTION_SCALE);
  }

  lemma PerBlockFits(scaled: nat, n: nat, left: nat)
    requires 0 < n && left <= n
    ensures 0 <= scaled / n * left <= scaled
  {
    QuotientSign(scaled, n);
    Monotone(scaled / n, left, n);
    ProductSign(scaled / n, left);
  }

  lemma SmallMod(x: nat)
    requires x < TWO_128
    ensures x % TWO_128 == x
  {}

  lemma DivMonotone(a: nat, b: nat, d: nat)
    requires a <= b && d > 0
    ensures a / d <= b / d
  {
    QuotientAtLeast(b, d, a / d);
  }

  /** Less is locked at every later block. */
  lemma LockedShrinks(initial: nat, c: Config, block: nat, later: nat)
    requires 0 < c.coinbaseBlocks < TWO_128 && block <= later <= c.coinbaseBlocks && initial < TWO_64
    ensures Locked(initial, c, later) <= Locked(initial, c, block)
  {
    hide Locked;
    var perBlock := initial * PROMOTION_SCALE / c.coinbaseBlocks;
    assert perBlock >= 0;
    ShrinkBy(perBlock, c.coinbaseBlocks - later, c.coinbaseBlocks - block);
    LockedDoesNotWrap(initial, c, block);
    LockedDoesNotWrap(initial, c, later);
  }

  lemma ShrinkBy(perBlock: nat, fewer: nat, more: nat)
    requires fewer <= more
    ensures perBlock * fewer / PROMOTION_SCALE <= perBlock * more / PROMOTION_SCALE
  {
    Monotone(perBlock, fewer, more);
    DivMonotone(perBlock * fewer, perBlock * more, PROMOTION_SCALE);
  }

  /** The locked amount follows the linear schedule initial * left / coinbaseBlocks from below, by less
      than left / 2^18 + 1; stated without fractions. */
  lemma LockedFollowsSchedule(initial: nat, c: Config, block: nat)
    requires 0 < c.coinbaseBlocks < TWO_128 && block <= c.coinbaseBlocks && initial < TWO_64
    ensures var left := c.coinbaseBlocks - block;
      var locked := Locked(initial, c, block);
      && locked * c.coinbaseBlocks <= initial * left
      && initial * left * PROMOTION_SCALE < (locked * PROMOTION_SCALE + left + PROMOTION_SCALE) * c.coinbaseBlocks
  {
    hide Locked;
    LockedDoesNotWrap(initial, c, block);
    var n, left := c.coinbaseBlocks, c.coinbaseBlocks - block;
    DivBounds(initial * PROMOTION_SCALE, n);
    var perBlock := initial * PROMOTION_SCALE / n;
    QuotientSign(initial * PROMOTION_SCALE, n);
    ProductSign(perBlock, left);
    DivBounds(perBlock * left, PROMOTION_SCALE);
    ScheduleBelow(initial, n, left, perBlock, Locked(initial, c, block));
    ScheduleAbove(initial, n, left, perBlock, Locked(initial, c, block));
  }

  lemma DivBounds(a: nat, d: nat)
    requires d > 0
    ensures a / d * d <= a < a / d * d + d
  {
    assert a == d * (a / d) + a % d;
  }

  lemma ScheduleBelow(initial: nat, n: nat, left: nat, perBlock: nat, locked: nat)
    requires perBlock * n <= initial * PROMOTION_SCALE && locked * PROMOTION_SCALE <= perBlock * left
    ensures locked * n <= initial * left
  {
    calc {
      locked * n * PROMOTION_SCALE;
      (locked * PROMOTION_SCALE) * n;
    <= { Monotone(n, locked * PROMOTION_SCALE, perBlock * left); }
      (perBlock * left) * n;
      (perBlock * n) * left;
    <= { Monotone(left, perBlock * n, initial * PROMOTION_SCALE); }
      (initial * PROMOTION_SCALE) * left;
      initial * left * PROMOTION_SCALE;
    }
  }

  lemma ScheduleAbove(initial: nat, n: nat, left: nat, perBlock: nat, locked: nat)
    requires n > 0 && left <= n
    requires initial * PROMOTION_SCALE < perBlock * n + n
      && perBlock * left < locked * PROMOTION_SCALE + PROMOTION_SCALE
    ensures initial * left * PROMOTION_SCALE < (locked * PROMOTION_SCALE + left + PROMOTION_SCALE) * n
  {
    calc {
      initial * left * PROMOTION_SCALE;
      left * (initial * PROMOTION_SCALE);
    <= { Monotone(left, initial * PROMOTION_SCALE, perBlock * n + n); }
      left * (perBlock * n + n);
      { assert perBlock * n + n == (perBlock + 1) * n; }
      left * ((perBlock + 1) * n);
      (perBlock * left + left) * n;
    <  { StrictMonotone(n, perBlock * left + left, locked * PROMOTION_SCALE + PROMOTION_SCALE + left); }
      (locked * PROMOTION_SCALE + PROMOTION_SCALE + left) * n;
    }
  }

  lemma StrictMonotone(a: nat, b: nat, c: nat)
    requires b < c && a > 0
    ensures b * a < c * a
  {}

  /** While the coinbase lasts, paying from a pool that covers the locked amount never asserts, and the
      pool still covers it afterwards. */
  lemma PromotionStaysLocked(e: Economy, c: Config, amount: int, block: nat)
    requires 0 < c.coinbaseBlocks < TWO_128 && block <= c.coinbaseBlocks && 0 <= e.initialPromotion < TWO_64
    requires Locked(e.initialPromotion, c, block) <= e.promotion
    ensures Available(e, c, block) == Some(e.promotion - Locked(e.initialPromotion, c, block))
    ensures var r := WithdrawPromotion(e, c, amount, block);
      r.Some? ==> (&& Locked(e.initialPromotion, c, block) <= r.value.0.promotion && 0 < r.value.1 <= amount
                   && r.value.0 == e.(promotion := e.promotion - r.value.1))
    ensures WithdrawPromotion(e, c, amount, block).None?
      <==> amount <= 0 || e.promotion == Locked(e.initialPromotion, c, block)
  {
    hide Locked;
    LockedDoesNotWrap(e.initialPromotion, c, block);
  }

  // ----- the ring of recent supplies -----

  /** The model after recording the supplies of blocks 1, 2, ... in turn. */
  ghost function RecordAll(e: Economy, c: Config, supplies: seq<int>): Economy
    requires c.interestBlocks > 0
    decreases |supplies|
  {
    if supplies == [] then e
    else
      var n := |supplies|;
      RecordBlock(RecordAll(e, c, supplies[..n - 1]), c, n, supplies[n - 1])
  }

  ghost function SumRange(s: seq<int>, lo: nat, hi: nat): int
    requires lo <= hi <= |s|
    decreases hi - lo
  {
    if lo == hi then 0 else SumRange(s, lo, hi - 1) + s[hi - 1]
  }

  lemma DifferentSlots(i: nat, j: nat, w: nat)
    requires j < i < j + w
    ensures i % w != j % w
  {
    if i % w == j % w {
      assert i - j == w * (i / w - j / w) by { DivBounds(i, w); DivBounds(j, w); }
      if i / w - j / w >= 1 {
        Monotone(w, 1, i / w - j / w);
      } else {
        Monotone(w, i / w - j / w, 0);
      }
      assert false;
    }
  }

  lemma SameSlot(i: nat, w: nat)
    requires w > 0
    ensures (i + w) % w == i % w
  {
    var q := i / w;
    assert w * (q + 1) == w * q + w;
    ModUnique(i + w, w, q + 1, i % w);
  }

  lemma ModUnique(a: int, w: nat, q: int, r: nat)
    requires r < w && a == w * q + r
    ensures a / w == q && a % w == r
  {
    assert w * (q + 1) == w * q + w;
    QuotientAtLeast(a, w, q);
    QuotientAtMost(a, w, q);
  }

  /** The ring holds the supplies of the last interestBlocks blocks. */
  lemma {:induction false} RingHolds(e: Economy, c: Config, supplies: seq<int>, b: nat)
    requires c.interestBlocks > 0 && e.historic == map[]
    requires b <= |supplies| < b + c.interestBlocks
    ensures Recorded(RecordAll(e, c, supplies), b % c.interestBlocks) == if b == 0 then 0 else supplies[b - 1]
    decreases |supplies|
  {
    var n := |supplies|;
    if n > b {
      DifferentSlots(n, b, c.interestBlocks);
      RingHolds(e, c, supplies[..n - 1], b);
    } else if b == 0 {
      assert RecordAll(e, c, supplies) == e;
    }
  }

  lemma {:induction false} RangePrefix(s: seq<int>, t: seq<int>, lo: nat, hi: nat)
    requires lo <= hi <= |s| && |s| <= |t| && t[..|s|] == s
    ensures SumRange(s, lo, hi) == SumRange(t, lo, hi)
    decreases hi - lo
  {
    if lo < hi {
      assert s[hi - 1] == t[..|s|][hi - 1];
      RangePrefix(s, t, lo, hi - 1);
    }
  }

  lemma {:induction false} RangeDropFirst(s: seq<int>, lo: nat, hi: nat)
    requires lo < hi <= |s|
    ensures SumRange(s, lo, hi) == s[lo] + SumRange(s, lo + 1, hi)
    decreases hi - lo
  {
    if lo + 1 < hi {
      RangeDropFirst(s, lo, hi - 1);
    }
  }

  /** The accumulated supply is the sum of the supplies of the last interestBlocks blocks. */
  lemma {:induction false} AccumulatedIsWindow(e: Economy, c: Config, supplies: seq<int>)
    requires c.interestBlocks > 0 && e.historic == map[] && e.accumulated == 0
    ensures var n := |supplies|;
      RecordAll(e, c, supplies).accumulated
        == SumRange(supplies, if n <= c.interestBlocks then 0 else n - c.interestBlocks, n)
    decreases |supplies|
  {
    var n, w := |supplies|, c.interestBlocks;
    if n > 0 {
      var before := supplies[..n - 1];
      AccumulatedIsWindow(e, c, before);
      if n >= w {
        RingHolds(e, c, before, n - w);
        SameSlot(n - w, w);
      }
      RangePrefix(before, supplies, if n - 1 <= w then 0 else n - 1 - w, n - 1);
      if n > w {
        RangeDropFirst(supplies, n - 1 - w, n - 1);
      }
    }
  }

  // ----- the model as an object -----

  class EconomicModel {
    const config: Config
    var miningCoinbase: int
    var miningFees: int
    var interestCoinbase: int
    var interestFees: int
    var promotion: int
    var burn: int
    var initialPromotion: int
    var blockReward: int
    var accumulated: int
    var historic: map<nat, int>

    function View(): Economy
      reads this
    {
      Economy(miningCoinbase, miningFees, interestCoinbase, interestFees, promotion, burn,
              initialPromotion, blockReward, accumulated, historic)
    }

    constructor (c: Config, initSupply: int, totalSupply: int)
      requires Sound(c) && 0 <= initSupply <= totalSupply
      ensures config == c && View() == Initial(c, initSupply, totalSupply)
      ensures NonNegative(View()) && initSupply + Pools(View()) <= totalSupply
    {
      var coinbase := totalSupply - initSupply;
      config := c;
      miningCoinbase, miningFees := Share(coinbase, c.miningPercent), 0;
      interestCoinbase, interestFees := Share(coinbase, c.interestPercent), 0;
      promotion, initialPromotion, burn := Share(coinbase, c.promotionPercent), Share(coinbase, c.promotionPercent), 0;
      blockReward := Share(coinbase, c.miningPercent) / c.coinbaseBlocks;
      accumulated, historic := 0, map[];
      InitialPools(c, initSupply, totalSupply);
    }

    /** A fee goes into the pools as a whole. */
    method PayIn(fee: nat)
      requires Sound(config) && NonNegative(View())
      modifies this
      ensures View() == AddFee(old(View()), config, fee)
      ensures NonNegative(View()) && Pools(View()) == old(Pools(View())) + fee
    {
      AddFeeConserves(View(), config, fee);
      var burned := Share(fee, config.burnPercent);
      var rest := fee - burned;
      var toMining, toPromotion := Share(rest, config.miningPercent), Share(rest, config.promotionPercent);
      miningFees := miningFees + toMining;
      promotion := promotion + toPromotion;
      burn := burn + burned;
      interestFees := interestFees + (rest - toMining - toPromotion);
    }

    /** The producer's reward comes out of the pools, which stay non-negative; None on a division by zero. */
    method TakeMiningReward(block: nat, nominator: nat, denominator: nat) returns (reward: Option<int>)
      requires Sound(config) && NonNegative(View())
      modifies this
      ensures reward.None? <==> WithdrawMining(old(View()), config, block, nominator, denominator).None?
      ensures reward.None? ==> View() == old(View())
      ensures reward.Some? ==>
        WithdrawMining(old(View()), config, block, nominator, denominator) == Some((View(), reward.value))
      ensures NonNegative(View()) && Pools(View()) == old(Pools(View())) - if reward.Some? then reward.value else 0
    {
      WithdrawMiningConserves(View(), config, block, nominator, denominator);
      if block <= config.interestDelay {
        return Some(0);
      }
      if denominator == 0 {
        return None;
      }
      var fromCoinbase := Min(blockReward * nominator / denominator, miningCoinbase);
      var fromFees := Min(miningFees / (config.blocksPerDay * 7) * nominator / denominator, miningFees);
      miningCoinbase := miningCoinbase - fromCoinbase;
      miningFees := miningFees - fromFees;
      return Some(fromCoinbase + fromFees);
    }

    /** Interest on a holding comes out of the two interest pools; None where the model asserts. */
    method TakeInterests(holding: int, period: nat) returns (interest: Option<int>)
      requires Sound(config) && NonNegative(View())
      modifies this
      ensures interest.None? <==> holding < 0 || accumulated < holding
      ensures interest.None? ==> View() == old(View())
      ensures interest.Some? ==>
        WithdrawInterests(old(View()), config, holding, period) == Some((View(), interest.value))
      ensures NonNegative(View()) && Pools(View()) == old(Pools(View())) - if interest.Some? then interest.value else 0
    {
      WithdrawInterestsConserves(View(), config, holding, period);
      if !(holding >= 0 && interestCoinbase >= 0 && interestFees >= 0 && accumulated >= holding) {
        return None;
      }
      if holding == 0 {
        return Some(0);
      }
      var available := Min(interestCoinbase, config.totalInterests * period / config.coinbaseBlocks);
      var coinbase := holding * available / accumulated;
      var fees := interestFees * config.interestBlocks / config.interestFeesTime * holding / accumulated;
      interestFees := interestFees - fees;
      interestCoinbase := interestCoinbase - coinbase;
      return Some(fees + coinbase);
    }

    /** Pays at most what is not locked; the pool never falls below the locked amount. */
    method TakePromotion(amount: int, block: nat) returns (paid: Option<int>)
      requires 0 < config.coinbaseBlocks < TWO_128 && block <= config.coinbaseBlocks && 0 <= initialPromotion < TWO_64
      requires Locked(initialPromotion, config, block) <= promotion
      modifies this
      ensures paid.None? <==> amount <= 0 || old(promotion) == Locked(old(initialPromotion), config, block)
      ensures paid.Some? ==>
        WithdrawPromotion(old(View()), config, amount, block) == Some((View(), paid.value)) && 0 < paid.value <= amount
      ensures paid.Some? ==> Locked(initialPromotion, config, block) <= promotion
    {
      PromotionStaysLocked(View(), config, amount, block);
      var free := promotion - Locked(initialPromotion, config, block);
      var taken := Min(free, amount);
      promotion := promotion - taken;
      return if taken <= 0 then None else Some(taken);
    }

    method RecordSupply(block: nat, supply: int)
      requires config.interestBlocks > 0
      modifies this
      ensures View() == RecordBlock(old(View()), config, block, supply)
    {
      var slot := block % config.interestBlocks;
      if block >= config.interestBlocks {
        accumulated := accumulated - if slot in historic then historic[slot] else 0;
      }
      historic := historic[slot := supply];
      accumulated := accumulated + supply;
    }
  }
}
