/** When paying interest throws, and that holdings can come to lie outside the range it asserts. */
module Interests {
  import opened ChainTypes
  import opened Sums
  import opened VoteTally
  import TallySteps
  import ProxyChange
  import Schedule
  import opened ProxyForest
  import opened FromScratch
  import opened Economics
  import opened Ledger
  import opened LedgerInvariants
  import opened LedgerSteps
  import opened LedgerRuns
  import opened EscrowLife

  /** The batch of every `stride`-th account from `id` on has one whose considered holding is negative or
      above the accumulated supply. */
  ghost predicate SomeOut(ids: seq<Name>, accounts: map<Name, Account>, accumulated: int, stride: nat, id: nat)
    requires stride > 0
    decreases |ids| - id
  {
    && id < |ids|
    && ((ids[id] in accounts && !(0 <= accounts[ids[id]].holdings <= accumulated))
        || SomeOut(ids, accounts, accumulated, stride, id + stride))
  }

  lemma {:induction false} SomeOutLater(ids: seq<Name>, accounts: map<Name, Account>, others: map<Name, Account>,
                                        accumulated: int, stride: nat, id: nat, a: Name)
    requires stride > 0 && a in others && a in accounts && others == accounts[a := others[a]]
    requires forall j {:trigger ids[j]} :: id <= j < |ids| ==> ids[j] != a
    ensures SomeOut(ids, others, accumulated, stride, id) == SomeOut(ids, accounts, accumulated, stride, id)
    decreases |ids| - id
  {
    if id < |ids| {
      SomeOutLater(ids, accounts, others, accumulated, stride, id + stride, a);
    }
  }

  lemma InterestThrowsIff(s: State, p: Params, a: Name)
    requires Sound(p.config) && NonNegative(s.econ) && a in s.tally.accounts
    ensures Interest(s, p, a).None?
      <==> s.head > p.config.interestDelay && !(0 <= s.tally.accounts[a].holdings <= s.econ.accumulated)
    ensures Interest(s, p, a).Some? ==> var (r, interest) := Interest(s, p, a).value;
      && NonNegative(r.econ) && r.econ.accumulated == s.econ.accumulated && r.tally.ids == s.tally.ids
      && r.head == s.head
      && r.tally.accounts == s.tally.accounts[a := r.tally.accounts[a]] && a in r.tally.accounts
  {
    hide AdjustOne;
    var c, x := p.config, s.tally.accounts[a];
    WithdrawInterestsConserves(s.econ, c, x.holdings, if c.interestBlocks < s.head then c.interestBlocks else s.head);
  }

  lemma {:induction false} InterestFromThrowsIff(s: State, p: Params, id: nat, paid: int)
    requires Sound(p.config) && NonNegative(s.econ) && Distinct(s.tally.ids) && forall a ::
      a in s.tally.ids ==> a in s.tally.accounts
    ensures InterestFrom(s, p, id, paid).None? <==>
      s.head > p.config.interestDelay
        && SomeOut(s.tally.ids, s.tally.accounts, s.econ.accumulated, p.config.interestBlocks, id)
    decreases |s.tally.ids| - id
  {
    hide Interest, NonNegative;
    if id < |s.tally.ids| {
      var a := s.tally.ids[id];
      InterestThrowsIff(s, p, a);
      if Interest(s, p, a).Some? {
        var (r, interest) := Interest(s, p, a).value;
        InterestFromThrowsIff(r, p, id + p.config.interestBlocks, paid + interest);
        SomeOutLater(s.tally.ids, s.tally.accounts, r.tally.accounts, s.econ.accumulated, p.config.interestBlocks,
          id + p.config.interestBlocks, a);
      }
    }
  }

  lemma SupplyIsNatural(s: State, p: Params)
    requires Good(s, p)
    ensures s.supply >= 0
  {
    hide Exact, EscrowTotal, Economics.Locked;
    EscrowsNonNegative(s.escrows);
    var zero := (b: nat) => 0;
    SumZero(s.tally.ids, zero);
    SumMonotone(s.tally.ids, zero, Funds(s.tally.accounts));
  }

  /** Paying interest throws exactly if some account whose turn it is has a considered holding out of range. */
  lemma ProcessInterestsThrowsIff(s: State, p: Params)
    requires Good(s, p)
    ensures ProcessInterests(s, p).None? <==>
      s.head > p.config.interestDelay
      && SomeOut(s.tally.ids, s.tally.accounts, s.econ.accumulated, p.config.interestBlocks,
        s.head % p.config.interestBlocks)
  {
    hide TallyGood, FundsIn, VestsIn, EscrowTotal, NonNegative, InterestFrom, Economics.Locked, SomeOut;
    var id := s.head % p.config.interestBlocks;
    GoodEnumerates(s, p);
    InterestFromThrowsIff(s, p, id, 0);
    SupplyIsNatural(s, p);
    if InterestFrom(s, p, id, 0).Some? {
      InterestConserves(s, p, id, 0);
    }
  }

  lemma {:induction false} SomeOutAt(ids: seq<Name>, accounts: map<Name, Account>, accumulated: int, stride: nat,
                                     start: nat, m: nat)
    requires stride > 0 && start + m * stride < |ids| && ids[start + m * stride] in accounts
    requires !(0 <= accounts[ids[start + m * stride]].holdings <= accumulated)
    ensures SomeOut(ids, accounts, accumulated, stride, start)
    decreases m
  {
    if m > 0 {
      assert start + stride + (m - 1) * stride == start + m * stride;
      SomeOutAt(ids, accounts, accumulated, stride, start + stride, m - 1);
    }
  }

  /** Once an account has a negative considered holding, interest throws at each of its turns. */
  lemma NegativeHoldingThrows(s: State, p: Params, i: nat)
    requires Good(s, p) && s.head > p.config.interestDelay && i < |s.tally.ids| && Holding(s, s.tally.ids[i]) < 0
    requires i % p.config.interestBlocks == s.head % p.config.interestBlocks
    ensures ProcessInterests(s, p).None?
  {
    hide TallyGood, NonNegative, EscrowsGood, PromotionCovered, Balanced, ProcessInterests, SomeOut;
    ProcessInterestsThrowsIff(s, p);
    SlotArithmetic(i, p.config.interestBlocks);
    SomeOutAt(s.tally.ids, s.tally.accounts, s.econ.accumulated, p.config.interestBlocks,
      s.head % p.config.interestBlocks, i / p.config.interestBlocks);
  }

  lemma GoodEnumerates(s: State, p: Params)
    requires Good(s, p)
    ensures Distinct(s.tally.ids) && forall a :: a in s.tally.ids ==> a in s.tally.accounts
  {
    ExactEnumerates(s.tally);
  }

  /** What an account's considered holding is. */
  function Holding(s: State, a: Name): int {
    if a in s.tally.accounts then s.tally.accounts[a].holdings else 0
  }

  lemma AdjustHolding(s: State, p: Params, a: Name, delta: int)
    requires p.config.interestBlocks > 0 && a in s.tally.accounts
    ensures AdjustBalance(s, p, a, delta).Some? <==> Balance(s, a) + delta >= 0
    ensures AdjustBalance(s, p, a, delta).Some? ==> var r := AdjustBalance(s, p, a, delta).value;
      && r == s.(tally := r.tally) && r.tally.accounts.Keys == s.tally.accounts.Keys
      && (forall b {:trigger r.tally.accounts[b]} ::
        b in r.tally.accounts ==> r.tally.accounts[b].id == s.tally.accounts[b].id)
      && (forall b {:trigger Balance(r, b)} :: Balance(r, b) == Balance(s, b) + if b == a then delta else 0)
      && (forall b {:trigger Holding(r, b)} ::
            Holding(r, b) == Holding(s, b)
              + if b == a then delta * TurnsLeft(s.tally.accounts[a].id, s.head, p.config.interestBlocks) else 0)
  {
    hide AdjustOne, TurnsLeft;
  }

  lemma TransferHolding(s: State, p: Params, from: Name, to: Name, amount: int)
    requires p.config.interestBlocks > 0 && from in s.tally.accounts && to in s.tally.accounts && from != to
    requires 0 < amount <= Balance(s, from) && Balance(s, to) >= 0
    ensures Transfer(s, p, from, to, amount).Some?
    ensures var r, period := Transfer(s, p, from, to, amount).value, p.config.interestBlocks;
      && r == s.(tally := r.tally) && r.tally.accounts.Keys == s.tally.accounts.Keys
      && (forall b {:trigger r.tally.accounts[b]} ::
        b in r.tally.accounts ==> r.tally.accounts[b].id == s.tally.accounts[b].id)
      && Balance(r, from) == Balance(s, from) - amount && Balance(r, to) == Balance(s, to) + amount
      && Holding(r, from) == Holding(s, from) - amount * TurnsLeft(s.tally.accounts[from].id, s.head, period)
      && Holding(r, to) == Holding(s, to) + amount * TurnsLeft(s.tally.accounts[to].id, s.head, period)
  {
    hide AdjustBalance, TurnsLeft;
    AdjustHolding(s, p, from, -amount);
    var m := AdjustBalance(s, p, from, -amount).value;
    AdjustHolding(m, p, to, amount);
    var t := TurnsLeft(s.tally.accounts[from].id, s.head, p.config.interestBlocks);
    assert -amount * t == -(amount * t);
  }

  /** The blocks to an account's turn are fewer than a period, and lead to a head in its turn. */
  lemma TurnsLeftIs(id: nat, head: nat, period: nat, n: nat)
    requires period > 0
    ensures TurnsLeft(id, head, period) == n <==> n < period && (head + n) % period == id % period
  {
    var mine, now := id % period, head % period;
    SlotArithmetic(head, period);
    var left := TurnsLeft(id, head, period);
    if mine >= now {
      ModUnique(head + left, period, head / period, mine);
    } else {
      ModUnique(head + left, period, head / period + 1, mine);
    }
    if n < period && n != left {
      RemaindersDiffer(head, period, n, left);
    }
  }

  lemma RemaindersDiffer(head: nat, period: nat, m: nat, n: nat)
    requires period > 0 && m < period && n < period && m != n
    ensures (head + m) % period != (head + n) % period
  {
    var now := head % period;
    SlotArithmetic(head, period);
    if now + m < period {
      ModUnique(head + m, period, head / period, now + m);
    } else {
      ModUnique(head + m, period, head / period + 1, now + m - period);
    }
    if now + n < period {
      ModUnique(head + n, period, head / period, now + n);
    } else {
      ModUnique(head + n, period, head / period + 1, now + n - period);
    }
  }

  lemma TurnAfterOwn(id: nat, head: nat, period: nat)
    requires period > 0 && id % period == head % period
    ensures TurnsLeft(id, head, period) == 0 && TurnsLeft(id, head + 1, period) == period - 1
  {
    if head % period == period - 1 {
      NextIsZero(head, period);
    } else {
      NextIsOne(head, period);
    }
  }

  lemma NextIsZero(head: nat, period: nat)
    requires period > 0 && head % period == period - 1
    ensures (head + 1) % period == 0
  {
    SlotArithmetic(head, period);
    assert head + 1 == (head / period + 1) * period;
    ModUnique(head + 1, period, head / period + 1, 0);
  }

  lemma NextIsOne(head: nat, period: nat)
    requires period > 0 && head % period < period - 1
    ensures (head + 1) % period == head % period + 1
  {
    SlotArithmetic(head, period);
    ModUnique(head + 1, period, head / period, head % period + 1);
  }

  lemma SlotArithmetic(head: nat, period: nat)
    requires period > 0
    ensures head == head / period * period + head % period
  {}

  /** In the block of an account's own turn a deposit adds nothing to its considered holding; taken out again one
      block later it is subtracted for all but one block of the period. */
  lemma DepositInTurnLosesHolding(s: State, p: Params, a: Name, b: Name, d: int, time: nat)
    requires Good(s, p) && a in s.tally.accounts && b in s.tally.accounts && a != b && 0 < d <= Balance(s, b)
      && s.time < time
    requires s.tally.accounts[a].id % p.config.interestBlocks == s.head % p.config.interestBlocks
    ensures var s1 := Transfer(s, p, b, a, d);
      && s1.Some?
      && var s2 := NextBlock(s1.value, p, time);
         && s2.Some?
         && var s3 := Transfer(s2.value, p, a, b, d);
            && s3.Some? && Holding(s3.value, a) == Holding(s, a) - d * (p.config.interestBlocks - 1)
            && Balance(s3.value, a) == Balance(s, a)
  {
    hide Transfer, TurnsLeft, RecordBlock, Exact, Balanced, EscrowsGood, PromotionCovered, NonNegative;
    assert SolventAccount(s.tally.accounts[a]) && SolventAccount(s.tally.accounts[b]);
    TurnAfterOwn(s.tally.accounts[a].id, s.head, p.config.interestBlocks);
    TransferHolding(s, p, b, a, d);
    var s1 := Transfer(s, p, b, a, d).value;
    var s2 := NextBlock(s1, p, time).value;
    assert Balance(s2, a) == Balance(s1, a) && Balance(s2, b) == Balance(s1, b) && Holding(s2, a) == Holding(s1, a);
    TransferHolding(s2, p, a, b, d);
  }

  // ----- a holding does not recover by itself -----

  /** Whether an account is in the batch of every `stride`-th account from `id` on. */
  ghost predicate InBatch(ids: seq<Name>, stride: nat, id: nat, a: Name)
    requires stride > 0
    decreases |ids| - id
  {
    id < |ids| && (ids[id] == a || InBatch(ids, stride, id + stride, a))
  }

  /** The steps that may change an account's considered holding. */
  ghost predicate Involves(s: State, p: Params, step: Step, a: Name)
    requires p.config.interestBlocks > 0
  {
    match step
    case FeeStep(payer, _) => a == payer
    case TransferStep(from, to, _) => a == from || a == to
    case VestStep(from, to, _) => a == from || a == to
    case AccountStep(creator, name, _, _) => a == creator || a == name
    case EscrowStep(from, _, _) => a == from
    case ApproveStep(k, _, agent, _, _) => a == k.0 || a == agent
    case ReleaseStep(_, _, _, _, receiver, _) => a == receiver
    case PromotionStep(to, _) => a == to
    case ExpireStep(k) => a == k.0
    case InterestStep => InBatch(s.tally.ids, p.config.interestBlocks, s.head % p.config.interestBlocks, a)
    case ClearStep => a == NULL_ACCOUNT
    case ProducerStep(producer) => a == producer
    case _ => false
  }

  lemma BalancesKeepHolding(p: Params, a: Name)
    requires p.config.interestBlocks > 0
    ensures forall s, b, d {:trigger AdjustBalance(s, p, b, d)} ::
      AdjustBalance(s, p, b, d).Some? && a != b ==> Holding(AdjustBalance(s, p, b, d).value, a) == Holding(s, a)
    ensures forall s, b, d {:trigger CreateVesting(s, p, b, d)} ::
      CreateVesting(s, p, b, d).Some? && a != b ==> Holding(CreateVesting(s, p, b, d).value, a) == Holding(s, a)
  {
    hide AdjustOne, TurnsLeft;
  }

  lemma {:induction false} InterestKeepsHolding(s: State, p: Params, id: nat, paid: int, a: Name)
    requires Sound(p.config) && InterestFrom(s, p, id, paid).Some?
      && !InBatch(s.tally.ids, p.config.interestBlocks, id, a)
    ensures var r := InterestFrom(s, p, id, paid).value.0;
      && Holding(r, a) == Holding(s, a)
      && (a in s.tally.accounts ==> a in r.tally.accounts && r.tally.accounts[a] == s.tally.accounts[a])
    decreases |s.tally.ids| - id
  {
    hide AdjustOne, WithdrawInterests;
    if id < |s.tally.ids| && s.tally.ids[id] in s.tally.accounts {
      var (r, interest) := Interest(s, p, s.tally.ids[id]).value;
      InterestKeepsHolding(r, p, id + p.config.interestBlocks, paid + interest, a);
    }
  }

  lemma ProducerKeepsHolding(s: State, p: Params, producer: Name, a: Name)
    requires Sound(p.config) && PayProducer(s, p, producer).Some? && a != producer
    ensures Holding(PayProducer(s, p, producer).value, a) == Holding(s, a)
  {
    hide AdjustOne, TurnsLeft, WithdrawMining;
  }

  predicate OnEscrow(step: Step) {
    step.EscrowStep? || step.ApproveStep? || step.ReleaseStep? || step.ExpireStep?
  }

  lemma EscrowKeepsHolding(s: State, p: Params, step: Step, a: Name)
    requires Playable(s, p) && Apply(s, p, step).Some? && !Involves(s, p, step, a) && OnEscrow(step)
    ensures Holding(Apply(s, p, step).value, a) == Holding(s, a)
  {
    hide AdjustBalance, MayRelease;
    BalancesKeepHolding(p, a);
  }

  /** Steps that move coins of accounts outside escrows. */
  predicate MovesCoins(step: Step) {
    step.FeeStep? || step.TransferStep? || step.VestStep? || step.AccountStep? || step.PromotionStep? || step.ClearStep?
  }

  lemma MovesKeepHolding(s: State, p: Params, step: Step, a: Name)
    requires Playable(s, p) && Apply(s, p, step).Some? && !Involves(s, p, step, a) && MovesCoins(step)
    ensures Holding(Apply(s, p, step).value, a) == Holding(s, a)
  {
    hide AdjustBalance, AdjustOne, AdjustAll, AddFee, InterestFrom, Economics.Locked, TurnsLeft;
    BalancesKeepHolding(p, a);
  }

  /** Every other step leaves it alone. */
  lemma UninvolvedKeepsHolding(s: State, p: Params, step: Step, a: Name)
    requires Playable(s, p) && Apply(s, p, step).Some? && !Involves(s, p, step, a)
    ensures Holding(Apply(s, p, step).value, a) == Holding(s, a)
  {
    hide AdjustBalance, AdjustOne, AdjustAll, AddFee, InterestFrom, MayRelease, Economics.Locked, TurnsLeft,
      PayProducer, EscrowTransfer, EscrowApprove, EscrowRelease, ExpireEscrow, Schedule.RoundOf, ProxyChange.ChainOk,
      ProxyChange.Deltas, TallySteps.Poll, Weight, InBatch, PayFee, Transfer, TransferToVesting, CreateAccount,
        PayPromotion,
      ClearNull;
    if step.InterestStep? {
      InterestKeepsHolding(s, p, s.head % p.config.interestBlocks, 0, a);
    } else if step.ProducerStep? {
      ProducerKeepsHolding(s, p, step.producer, a);
    } else if OnEscrow(step) {
      EscrowKeepsHolding(s, p, step, a);
    } else if MovesCoins(step) {
      MovesKeepHolding(s, p, step, a);
    } else {
      BalancesKeepHolding(p, a);
    }
  }

  /** No step of a run that succeeds involves the account. */
  ghost predicate Untouched(s: State, p: Params, steps: seq<Step>, a: Name)
    requires p.config.interestBlocks > 0
    decreases |steps|
  {
    steps == []
    || ((Playable(s, p) && Apply(s, p, steps[0]).Some? ==> !Involves(s, p, steps[0], a))
        && Untouched(Next(s, p, steps[0]), p, steps[1..], a))
  }

  lemma {:induction false} HoldingStays(s: State, p: Params, steps: seq<Step>, a: Name)
    requires p.config.interestBlocks > 0 && Untouched(s, p, steps, a)
    ensures Holding(After(s, p, steps), a) == Holding(s, a)
    decreases |steps|
  {
    hide Apply, Playable, Involves, Holding;
    if steps != [] {
      if Playable(s, p) && Apply(s, p, steps[0]).Some? {
        UninvolvedKeepsHolding(s, p, steps[0], a);
      }
      HoldingStays(Next(s, p, steps[0]), p, steps[1..], a);
    }
  }

  /** After every run that does not touch the account, a negative considered holding makes its next turn throw. */
  lemma NegativeHoldingWaits(s: State, p: Params, steps: seq<Step>, a: Name, i: nat)
    requires Good(s, p) && Holding(s, a) < 0 && Untouched(s, p, steps, a)
    requires var r := After(s, p, steps);
      && r.head > p.config.interestDelay && i < |r.tally.ids| && r.tally.ids[i] == a
      && i % p.config.interestBlocks == r.head % p.config.interestBlocks
    ensures ProcessInterests(After(s, p, steps), p).None?
  {
    hide Holding, After, Untouched, ProcessInterests;
    HoldingStays(s, p, steps, a);
    RunConserves(s, p, steps);
    NegativeHoldingThrows(After(s, p, steps), p, i);
  }

  // ----- what a batch earns -----

  /** Interest is added to the balance of one account, whose considered holding becomes its funds times the period. */
  lemma InterestPays(s: State, p: Params, a: Name)
    requires Sound(p.config) && NonNegative(s.econ) && a in s.tally.accounts && Interest(s, p, a).Some?
    ensures var (r, interest) := Interest(s, p, a).value;
      var x, y := s.tally.accounts[a], r.tally.accounts[a];
      && interest >= 0 && r.tally.accounts == s.tally.accounts[a := y] && r.tally.ids == s.tally.ids
      && y == x.(balance := x.balance + interest,
        holdings := (x.balance + interest + x.vesting) * p.config.interestBlocks)
      && r == s.(econ := r.econ, tally := r.tally)
      && if s.head <= p.config.interestDelay then interest == 0 && r.econ == s.econ
         else WithdrawInterests(s.econ, p.config, x.holdings,
                if s.head < p.config.interestBlocks then s.head else p.config.interestBlocks)
                  == Some((r.econ, interest))
  {
    hide AdjustOne, WithdrawInterests;
    if s.head > p.config.interestDelay {
      WithdrawInterestsConserves(s.econ, p.config, s.tally.accounts[a].holdings,
        if p.config.interestBlocks < s.head then p.config.interestBlocks else s.head);
    }
  }

  /** The considered holdings of a batch. */
  ghost function HeldFrom(ids: seq<Name>, accounts: map<Name, Account>, stride: nat, id: nat): int
    requires stride > 0
    decreases |ids| - id
  {
    if id >= |ids| || ids[id] !in accounts then 0
    else accounts[ids[id]].holdings + HeldFrom(ids, accounts, stride, id + stride)
  }

  lemma {:induction false} HeldLater(ids: seq<Name>, accounts: map<Name, Account>, a: Name, x: Account, stride: nat,
                                     id: nat)
    requires stride > 0 && a in accounts && forall i {:trigger ids[i]} :: id <= i < |ids| ==> ids[i] != a
    ensures HeldFrom(ids, accounts[a := x], stride, id) == HeldFrom(ids, accounts, stride, id)
    decreases |ids| - id
  {
    if id < |ids| && ids[id] in accounts {
      HeldLater(ids, accounts, a, x, stride, id + stride);
    }
  }

  /** What the schedule makes available for a period, and the fees' part for it. */
  ghost function Due(c: Config, period: nat): int
    requires c.coinbaseBlocks > 0
  {
    c.totalInterests * period / c.coinbaseBlocks
  }

  ghost function FeesDue(e: Economy, c: Config): int
    requires c.interestFeesTime > 0
  {
    e.interestFees * c.interestBlocks / c.interestFeesTime
  }

  /** One account earns at most its part. */
  lemma OneEarns(e: Economy, c: Config, holding: int, period: nat)
    requires Sound(c) && NonNegative(e) && WithdrawInterests(e, c, holding, period).Some?
    ensures var f := WithdrawInterests(e, c, holding, period).value.0;
      && 0 <= holding <= e.accumulated && f.accumulated == e.accumulated && NonNegative(f)
      && 0 <= FeesDue(f, c) <= FeesDue(e, c) && 0 <= Due(c, period)
      && (e.interestCoinbase - f.interestCoinbase) * e.accumulated <= holding * Due(c, period)
      && (e.interestFees - f.interestFees) * e.accumulated <= holding * FeesDue(e, c)
      && (holding == 0 ==> f == e)
  {
    hide WithdrawInterests, Due, FeesDue, NonNegative;
    var f := WithdrawInterests(e, c, holding, period).value.0;
    WithdrawIs(e, c, holding, period);
    DueSign(c, period);
    FeesDueFall(e, f, c);
    if holding > 0 {
      PartAtMost(holding, Min(e.interestCoinbase, Due(c, period)), Due(c, period), e.accumulated);
      PartAtMost(holding, FeesDue(e, c), FeesDue(e, c), e.accumulated);
    }
  }

  lemma DueSign(c: Config, period: nat)
    requires c.coinbaseBlocks > 0
    ensures Due(c, period) >= 0
  {
    ProductSign(c.totalInterests, period);
    QuotientSign(c.totalInterests * period, c.coinbaseBlocks);
  }

  lemma WithdrawIs(e: Economy, c: Config, holding: int, period: nat)
    requires Sound(c) && NonNegative(e) && WithdrawInterests(e, c, holding, period).Some?
    ensures var f := WithdrawInterests(e, c, holding, period).value.0;
      && 0 <= holding <= e.accumulated && f.accumulated == e.accumulated && NonNegative(f)
      && 0 <= f.interestFees <= e.interestFees
      && (holding == 0 ==> f == e)
      && (holding > 0 ==>
            && e.interestCoinbase - f.interestCoinbase
              == holding * Min(e.interestCoinbase, Due(c, period)) / e.accumulated
            && e.interestFees - f.interestFees == holding * FeesDue(e, c) / e.accumulated)
  {
    WithdrawInterestsConserves(e, c, holding, period);
    assert FeesDue(e, c) * holding == holding * FeesDue(e, c);
    if holding > 0 {
      ProductSign(e.interestFees, c.interestBlocks);
      QuotientSign(e.interestFees * c.interestBlocks, c.interestFeesTime);
      ProductSign(holding, FeesDue(e, c));
      QuotientSign(holding * FeesDue(e, c), e.accumulated);
    }
  }

  lemma PartAtMost(holding: nat, available: int, due: int, whole: int)
    requires available <= due && whole > 0
    ensures holding * available / whole * whole <= holding * due
  {
    QuotientRounds(holding * available, whole);
    Economics.Monotone(holding, available, due);
  }

  lemma FeesDueFall(e: Economy, f: Economy, c: Config)
    requires Sound(c) && 0 <= f.interestFees <= e.interestFees
    ensures 0 <= FeesDue(f, c) <= FeesDue(e, c)
  {
    ProductSign(f.interestFees, c.interestBlocks);
    QuotientSign(f.interestFees * c.interestBlocks, c.interestFeesTime);
    Economics.Monotone(c.interestBlocks, f.interestFees, e.interestFees);
    DivMonotone(f.interestFees * c.interestBlocks, e.interestFees * c.interestBlocks, c.interestFeesTime);
  }

  lemma EarnTogether(c: int, d: int, whole: int, h: int, k: int, due: int, less: int)
    requires c * whole <= h * due && d * whole <= k * less && 0 <= k && less <= due
    ensures (c + d) * whole <= (h + k) * due
  {
    Economics.Monotone(k, less, due);
  }

  /** Together the accounts of a batch earn at most their part of what is due for the period. */
  lemma {:induction false} BatchEarns(s: State, p: Params, id: nat, paid: int)
    requires Sound(p.config) && NonNegative(s.econ) && Distinct(s.tally.ids) && InterestFrom(s, p, id, paid).Some?
    requires s.head > p.config.interestDelay
    ensures var e, f := s.econ, InterestFrom(s, p, id, paid).value.0.econ;
      var period := if s.head < p.config.interestBlocks then s.head else p.config.interestBlocks;
      var held := HeldFrom(s.tally.ids, s.tally.accounts, p.config.interestBlocks, id);
      && held >= 0 && f.accumulated == e.accumulated
      && (e.interestCoinbase - f.interestCoinbase) * e.accumulated <= held * Due(p.config, period)
      && (e.interestFees - f.interestFees) * e.accumulated <= held * FeesDue(e, p.config)
      && (held == 0 ==> f.interestCoinbase == e.interestCoinbase && f.interestFees == e.interestFees)
    decreases |s.tally.ids| - id
  {
    hide Interest, WithdrawInterests, NonNegative, Due, FeesDue;
    if id < |s.tally.ids| && s.tally.ids[id] in s.tally.accounts {
      var a, e := s.tally.ids[id], s.econ;
      var period := if s.head < p.config.interestBlocks then s.head else p.config.interestBlocks;
      var (r, interest) := Interest(s, p, a).value;
      InterestPays(s, p, a);
      OneEarns(e, p.config, s.tally.accounts[a].holdings, period);
      BatchEarns(r, p, id + p.config.interestBlocks, paid + interest);
      HeldLater(s.tally.ids, s.tally.accounts, a, r.tally.accounts[a], p.config.interestBlocks,
        id + p.config.interestBlocks);
      var f := InterestFrom(r, p, id + p.config.interestBlocks, paid + interest).value.0.econ;
      var later := HeldFrom(s.tally.ids, r.tally.accounts, p.config.interestBlocks, id + p.config.interestBlocks);
      EarnTogether(e.interestCoinbase - r.econ.interestCoinbase, r.econ.interestCoinbase - f.interestCoinbase,
        e.accumulated, s.tally.accounts[a].holdings, later, Due(p.config, period), Due(p.config, period));
      EarnTogether(e.interestFees - r.econ.interestFees, r.econ.interestFees - f.interestFees,
        e.accumulated, s.tally.accounts[a].holdings, later, FeesDue(e, p.config), FeesDue(r.econ, p.config));
    }
  }

  /** So holdings of at most the accumulated supply earn at most what the schedule and the fees give for the period. */
  lemma BatchEarnsAtMostDue(s: State, p: Params)
    requires Good(s, p) && s.head > p.config.interestDelay && ProcessInterests(s, p).Some?
    requires HeldFrom(s.tally.ids, s.tally.accounts, p.config.interestBlocks, s.head % p.config.interestBlocks)
      <= s.econ.accumulated
    ensures var c, e, f := p.config, s.econ, ProcessInterests(s, p).value.econ;
      && (e.interestCoinbase - f.interestCoinbase) * c.coinbaseBlocks
           <= c.totalInterests * (if s.head < c.interestBlocks then s.head else c.interestBlocks)
      && (e.interestFees - f.interestFees) * c.interestFeesTime <= e.interestFees * c.interestBlocks
  {
    hide TallyGood, EscrowsGood, PromotionCovered, Balanced, InterestFrom, HeldFrom;
    var c, e, f := p.config, s.econ, ProcessInterests(s, p).value.econ;
    GoodEnumerates(s, p);
    BatchEarns(s, p, s.head % c.interestBlocks, 0);
    var held := HeldFrom(s.tally.ids, s.tally.accounts, c.interestBlocks, s.head % c.interestBlocks);
    var period := if s.head < c.interestBlocks then s.head else c.interestBlocks;
    ProductSign(c.totalInterests, period);
    QuotientSign(c.totalInterests * period, c.coinbaseBlocks);
    FeesDueFall(e, e, c);
    EarnsWhole(e.interestCoinbase - f.interestCoinbase, e.accumulated, held, Due(c, period));
    EarnsWhole(e.interestFees - f.interestFees, e.accumulated, held, FeesDue(e, c));
    QuotientRounds(c.totalInterests * period, c.coinbaseBlocks);
    QuotientRounds(e.interestFees * c.interestBlocks, c.interestFeesTime);
    Economics.Monotone(c.coinbaseBlocks, e.interestCoinbase - f.interestCoinbase, Due(c, period));
    Economics.Monotone(c.interestFeesTime, e.interestFees - f.interestFees, FeesDue(e, c));
  }

  lemma EarnsWhole(c: int, whole: int, held: int, due: int)
    requires c * whole <= held * due && 0 <= held <= whole && 0 <= due && (held == 0 ==> c <= 0)
    ensures c <= due
  {
    if held > 0 {
      Economics.Monotone(due, held, whole);
      assert whole * c <= whole * due;
      if c > due {
        Economics.Monotone(whole, due + 1, c);
        assert false;
      }
    }
  }

  /**
   An account into which more is paid in its turn, and out again one block later, than its considered holding makes up
   for: its next turn throws, whatever happens in between that does not touch it. So for every period.
   */
  lemma DepositInTurnThrows(s: State, p: Params, a: Name, b: Name, d: int, middle: seq<Step>, rest: seq<Step>, i: nat)
    requires Good(s, p) && a in s.tally.accounts && b in s.tally.accounts && a != b && 0 < d <= Balance(s, b)
    requires s.tally.accounts[a].id % p.config.interestBlocks == s.head % p.config.interestBlocks
    requires Holding(s, a) < d * (p.config.interestBlocks - 1)
    requires var s1 := Next(s, p, TransferStep(b, a, d));
      var s2 := After(s1, p, middle);
      && s2.head == s.head + 1 && a in s1.tally.accounts && a in s2.tally.accounts && b in s2.tally.accounts
      && s2.tally.accounts[a] == s1.tally.accounts[a]
      && var s3 := Next(s2, p, TransferStep(a, b, d));
        && Untouched(s3, p, rest, a)
        && var r := After(s3, p, rest);
          && r.head > p.config.interestDelay && i < |r.tally.ids| && r.tally.ids[i] == a
          && i % p.config.interestBlocks == r.head % p.config.interestBlocks
    ensures var s2 := After(Next(s, p, TransferStep(b, a, d)), p, middle);
      var s3 := Next(s2, p, TransferStep(a, b, d));
      && Holding(s3, a) == Holding(s, a) - d * (p.config.interestBlocks - 1) && Balance(s3, a) == Balance(s, a)
      && ProcessInterests(After(s3, p, rest), p).None?
  {
    hide Transfer, TurnsLeft, Good, After, Untouched, ProcessInterests, Apply, Playable;
    GoodAccounts(s, p, a, b);
    var s1 := Next(s, p, TransferStep(b, a, d));
    TransferHolding(s, p, b, a, d);
    TransferIs(s, p, b, a, d);
    RunConserves(s1, p, middle);
    var s2 := After(s1, p, middle);
    GoodAccounts(s2, p, a, b);
    TransferHolding(s2, p, a, b, d);
    TransferIs(s2, p, a, b, d);
    TurnAfterOwn(s.tally.accounts[a].id, s.head, p.config.interestBlocks);
    NegativeHoldingWaits(Next(s2, p, TransferStep(a, b, d)), p, rest, a, i);
  }

  lemma GoodAccounts(s: State, p: Params, a: Name, b: Name)
    requires Good(s, p) && a in s.tally.accounts && b in s.tally.accounts
    ensures Balance(s, a) >= 0 && Balance(s, b) >= 0 && p.config.interestBlocks > 0
  {
    hide TallyGood, NonNegative, EscrowsGood, PromotionCovered, Balanced;
    assert SolventAccount(s.tally.accounts[a]) && SolventAccount(s.tally.accounts[b]) by {
      SolventGood(s, p);
    }
  }

  lemma SolventGood(s: State, p: Params)
    requires Good(s, p)
    ensures Solvent(s.tally.accounts)
  {}

  lemma TransferIs(s: State, p: Params, from: Name, to: Name, d: int)
    requires Good(s, p) && Transfer(s, p, from, to, d).Some?
    ensures Next(s, p, TransferStep(from, to, d)) == Transfer(s, p, from, to, d).value
    ensures Good(Next(s, p, TransferStep(from, to, d)), p)
  {
    hide Transfer, Good;
    GoodIsPlayable(s, p);
    TransferConserves(s, p, from, to, d);
  }

  /** Before interest is paid at all, its processing only considers holdings anew. */
  lemma {:induction false} EarlyInterest(s: State, p: Params, id: nat, paid: int, a: Name)
    requires p.config.interestBlocks > 0 && p.config.coinbaseBlocks > 0 && p.config.interestFeesTime > 0
    requires s.head <= p.config.interestDelay && a in s.tally.accounts
    ensures InterestFrom(s, p, id, paid).Some?
    ensures var r := InterestFrom(s, p, id, paid).value;
      && r.1 == paid && a in r.0.tally.accounts && Balance(r.0, a) == Balance(s, a)
      && (Total(s.tally.accounts[a]) == 0 && Holding(s, a) == 0 ==> r.0.tally.accounts[a] == s.tally.accounts[a])
    decreases |s.tally.ids| - id
  {
    if id < |s.tally.ids| && s.tally.ids[id] in s.tally.accounts {
      var (r, interest) := Interest(s, p, s.tally.ids[id]).value;
      EarlyInterest(r, p, id + p.config.interestBlocks, paid + interest, a);
    }
  }

  lemma {:induction false} InterestKeepsNames(s: State, p: Params, id: nat, paid: int)
    requires p.config.interestBlocks > 0 && p.config.coinbaseBlocks > 0 && p.config.interestFeesTime > 0
    requires InterestFrom(s, p, id, paid).Some?
    ensures var r := InterestFrom(s, p, id, paid).value.0;
      && r.tally.accounts.Keys == s.tally.accounts.Keys && r.tally.ids == s.tally.ids
      && r.head == s.head && r.time == s.time
      && forall b {:trigger r.tally.accounts[b]} ::
        b in r.tally.accounts ==> r.tally.accounts[b].id == s.tally.accounts[b].id
    decreases |s.tally.ids| - id
  {
    hide AdjustOne, WithdrawInterests;
    if id < |s.tally.ids| && s.tally.ids[id] in s.tally.accounts {
      var (r, interest) := Interest(s, p, s.tally.ids[id]).value;
      InterestKeepsNames(r, p, id + p.config.interestBlocks, paid + interest);
    }
  }
}
