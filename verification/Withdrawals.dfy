/** Withdrawals of vesting shares: how much is converted when, over every run. */
module Withdrawals {
  import opened ChainTypes
  import opened VoteTally
  import opened ProxyForest
  import ProxyChange
  import opened TallySteps
  import opened Economics
  import opened Ledger
  import opened LedgerInvariants
  import opened LedgerSteps
  import opened LedgerRuns
  import Schedule

  /** The 27th part, rounded down, but at least one share. */
  ghost predicate RateOf(rate: int, amount: int) {
    (rate == 1 && amount < 27) || (rate >= 1 && 27 * rate <= amount < 27 * (rate + 1))
  }

  /** An account may start a withdrawal of shares it has, unless nothing would change or it is a witness with a key
      and would keep too few; the first part is due a day later. Zero stops the withdrawal. */
  lemma WithdrawIff(s: State, a: Name, amount: nat)
    ensures WithdrawVesting(s, a, amount).Some? <==>
      && a in s.tally.accounts && amount <= s.tally.accounts[a].vesting
      && (if amount == 0 then s.tally.accounts[a].power.rate != 0
          else
            && !RateOf(s.tally.accounts[a].power.rate, amount)
            && (a in s.tally.x.witnesses && s.tally.x.witnesses[a].key != NO_KEY ==>
                  s.tally.accounts[a].vesting - amount >= s.requiredVesting))
    ensures WithdrawVesting(s, a, amount).Some? ==>
      var r := WithdrawVesting(s, a, amount).value;
      var w := r.tally.accounts[a].power;
      && r == s.(tally := s.tally.(accounts := s.tally.accounts[a := s.tally.accounts[a].(power := w)]))
      && if amount == 0 then w == Withdrawal(0, None, 0, 0)
         else RateOf(w.rate, amount) && w == Withdrawal(w.rate, Some(s.time + 86400), amount, 0)
  {
    if a in s.tally.accounts {
      QuotientRounds(amount, 27);
    }
  }

  /** A withdrawal under way has converted whole parts only, and not all of them. */
  ghost predicate Underway(w: Withdrawal) {
    w.next.Some? ==>
      RateOf(w.rate, w.toWithdraw) && 0 <= w.withdrawn < w.toWithdraw && exists n: nat :: w.withdrawn == n * w.rate
  }

  /** A due conversion turns one part, or what is left of the amount or of the shares, into balance. The next is due a
      day after this one was, and there is none once the amount or the shares are used up. */
  lemma ConvertsOnePart(s: State, a: Name)
    requires a in s.tally.accounts && Underway(s.tally.accounts[a].power) && s.tally.accounts[a].vesting >= 0
    ensures ConvertVesting(s, a).Some?
      <==> s.tally.accounts[a].power.next.Some? && s.tally.accounts[a].power.next.value <= s.time
    ensures ConvertVesting(s, a).Some? ==>
      var r, x := ConvertVesting(s, a).value, s.tally.accounts[a];
      var w, y := x.power, r.tally.accounts[a];
      var part := y.balance - x.balance;
      && part == Smallest(w.rate, w.toWithdraw - w.withdrawn, x.vesting)
      && y.vesting == x.vesting - part && y.power.withdrawn == w.withdrawn + part <= w.toWithdraw
      && y.power.toWithdraw == w.toWithdraw
      && y.power.next == (if y.power.withdrawn == w.toWithdraw || y.vesting == 0 then None
        else Some(w.next.value + 86400))
      && (y.power.next.Some? ==> y.power.rate == w.rate) && Underway(y.power)
      && r == s.(tally := s.tally.(accounts := s.tally.accounts[a := y]), totalVesting := s.totalVesting - part)
      && y == x.(balance := y.balance, vesting := y.vesting, power := y.power)
  {
    var w, x := s.tally.accounts[a].power, s.tally.accounts[a];
    if ConvertVesting(s, a).Some? {
      var n: nat :| w.withdrawn == n * w.rate;
      if w.toWithdraw - w.withdrawn < w.rate {
        LastPart(w.toWithdraw, n, w.rate);
      } else if x.vesting >= w.rate {
        assert w.withdrawn + w.rate == (n + 1) * w.rate;
      }
    }
  }

  function Smallest(a: int, b: int, c: int): int {
    if a <= b && a <= c then a else if b <= c then b else c
  }

  lemma LastPart(amount: int, n: nat, rate: int)
    requires rate > 0 && n * rate <= amount < n * rate + rate
    ensures amount % rate == amount - n * rate
  {
    assert amount == n * rate + (amount - n * rate);
    ModUnique(amount, rate, n, amount - n * rate);
  }

  /** Conversions in order, with anything in between that leaves the withdrawal alone: after n of them n parts have been
      converted, or all of the amount; then it ends. */
  lemma {:induction false} PartsAddUp(ss: seq<State>, a: Name)
    requires forall i {:trigger ss[i]} :: 0 <= i < |ss| ==>
      && a in ss[i].tally.accounts && ConvertVesting(ss[i], a).Some?
      && var x := ss[i].tally.accounts[a]; x.vesting >= x.power.toWithdraw - x.power.withdrawn
    requires forall i, j {:trigger ss[i], ss[j]} :: 0 <= i && j == i + 1 && j < |ss| ==>
      ss[j].tally.accounts[a].power == ConvertVesting(ss[i], a).value.tally.accounts[a].power
    requires ss != [] ==>
      var w := ss[0].tally.accounts[a].power; Underway(w) && w.withdrawn == 0
    ensures ss != [] ==>
      var w := ss[0].tally.accounts[a].power;
      var v := ConvertVesting(ss[|ss| - 1], a).value.tally.accounts[a].power;
      && v.withdrawn == (if |ss| * w.rate < w.toWithdraw then |ss| * w.rate else w.toWithdraw)
      && (v.next.None? <==> |ss| * w.rate >= w.toWithdraw)
      && v.toWithdraw == w.toWithdraw && Underway(v) && (v.next.Some? ==> v.rate == w.rate)
    decreases |ss|
  {
    if ss != [] {
      var last := ss[|ss| - 1];
      if |ss| > 1 {
        var before := ss[..|ss| - 1];
        PartsAddUp(before, a);
        assert ss[|ss| - 2] == before[|before| - 1];
        assert last.tally.accounts[a].power == ConvertVesting(ss[|ss| - 2], a).value.tally.accounts[a].power;
        OneMore(|before|, ss[0].tally.accounts[a].power.rate);
      }
      ConvertsOnePart(last, a);
    }
  }

  lemma OneMore(n: nat, rate: int)
    ensures (n + 1) * rate == n * rate + rate
  {}

  // ----- every run keeps withdrawals in order -----

  ghost predicate AllUnderway(accounts: map<Name, Account>) {
    forall a {:trigger accounts[a]} :: a in accounts ==> Underway(accounts[a].power)
  }

  /** Accounts keep their withdrawals; new ones have none. */
  ghost predicate SamePowers(s: State, r: State) {
    forall a {:trigger r.tally.accounts[a]} :: a in r.tally.accounts ==>
      r.tally.accounts[a].power
        == if a in s.tally.accounts then s.tally.accounts[a].power else Withdrawal(0, None, 0, 0)
  }

  lemma BalancesKeepPowers(p: Params)
    requires p.config.interestBlocks > 0
    ensures forall s, a, d {:trigger AdjustBalance(s, p, a, d)} ::
      AdjustBalance(s, p, a, d).Some? ==>
        SamePowers(s, AdjustBalance(s, p, a, d).value)
        && AdjustBalance(s, p, a, d).value.tally.accounts.Keys == s.tally.accounts.Keys
    ensures forall s, a, d {:trigger CreateVesting(s, p, a, d)} ::
      CreateVesting(s, p, a, d).Some? ==>
        SamePowers(s, CreateVesting(s, p, a, d).value)
        && CreateVesting(s, p, a, d).value.tally.accounts.Keys == s.tally.accounts.Keys
  {
    hide AdjustOne, TurnsLeft;
  }

  lemma {:induction false} InterestKeepsPowers(s: State, p: Params, id: nat, paid: int)
    requires Sound(p.config) && InterestFrom(s, p, id, paid).Some?
    ensures var r := InterestFrom(s, p, id, paid).value.0;
      SamePowers(s, r) && r.tally.accounts.Keys == s.tally.accounts.Keys
    decreases |s.tally.ids| - id
  {
    hide AdjustOne, WithdrawInterests;
    if id < |s.tally.ids| && s.tally.ids[id] in s.tally.accounts {
      var (r, interest) := Interest(s, p, s.tally.ids[id]).value;
      InterestKeepsPowers(r, p, id + p.config.interestBlocks, paid + interest);
    }
  }

  predicate OnCoins(step: Step) {
    step.FeeStep? || step.TransferStep? || step.VestStep? || step.AccountStep? || step.PromotionStep? || step.ClearStep?
    || step.ProducerStep?
  }

  predicate OnEscrows(step: Step) {
    step.EscrowStep? || step.ApproveStep? || step.DisputeStep? || step.ReleaseStep? || step.ExpireStep?
  }

  lemma CreateKeepsPowers(s: State, p: Params, creator: Name, name: Name, fee: int, required: nat)
    requires p.config.interestBlocks > 0 && CreateAccount(s, p, creator, name, fee, required).Some?
    ensures SamePowers(s, CreateAccount(s, p, creator, name, fee, required).value)
  {
    hide AdjustBalance, AddFee, PayFee;
    BalancesKeepPowers(p);
    var s1 := s.(tally := WithAccount(s.tally, name));
    assert SamePowers(s, s1);
    FeeKeepsPowers(s1, p, creator, required);
    var s2 := PayFee(s1, p, creator, required).value;
    if fee > required {
      var s3 := AdjustBalance(s2, p, name, fee - required).value;
      assert SamePowers(s2, s3);
      assert SamePowers(s3, CreateAccount(s, p, creator, name, fee, required).value);
    }
  }

  lemma FeeKeepsPowers(s: State, p: Params, a: Name, fee: int)
    requires p.config.interestBlocks > 0 && PayFee(s, p, a, fee).Some?
    ensures SamePowers(s, PayFee(s, p, a, fee).value)
      && PayFee(s, p, a, fee).value.tally.accounts.Keys == s.tally.accounts.Keys
  {
    hide AdjustBalance, AddFee;
    BalancesKeepPowers(p);
  }

  lemma RewardKeepsPowers(s: State, p: Params, producer: Name)
    requires Sound(p.config) && PayProducer(s, p, producer).Some?
    ensures SamePowers(s, PayProducer(s, p, producer).value)
  {
    hide AdjustOne, TurnsLeft, WithdrawMining;
  }

  lemma PromotionKeepsPowers(s: State, p: Params, to: Name, amount: int)
    requires Sound(p.config) && PayPromotion(s, p, to, amount).Some?
    ensures SamePowers(s, PayPromotion(s, p, to, amount).value)
  {
    hide AdjustOne, TurnsLeft, Economics.Locked;
  }

  lemma CoinsKeepPowers(s: State, p: Params, step: Step)
    requires Playable(s, p) && Apply(s, p, step).Some? && OnCoins(step)
    ensures SamePowers(s, Apply(s, p, step).value)
  {
    hide AdjustBalance, CreateVesting, AddFee, WithdrawMining, Economics.Locked, CreateAccount,
      PayProducer, PayFee, PayPromotion;
    BalancesKeepPowers(p);
    if step.AccountStep? {
      CreateKeepsPowers(s, p, step.creator, step.name, step.amount, step.required);
    } else if step.FeeStep? {
      FeeKeepsPowers(s, p, step.payer, step.amount);
    } else if step.ProducerStep? {
      RewardKeepsPowers(s, p, step.producer);
    } else if step.PromotionStep? {
      PromotionKeepsPowers(s, p, step.to, step.amount);
    }
  }

  lemma EscrowsKeepPowers(s: State, p: Params, step: Step)
    requires Playable(s, p) && Apply(s, p, step).Some? && OnEscrows(step)
    ensures SamePowers(s, Apply(s, p, step).value)
  {
    hide AdjustBalance, MayRelease;
    BalancesKeepPowers(p);
  }

  lemma OthersKeepPowers(s: State, p: Params, step: Step)
    requires Playable(s, p) && Apply(s, p, step).Some? && !step.WithdrawStep? && !step.ConvertStep?
    ensures SamePowers(s, Apply(s, p, step).value)
  {
    hide PayFee, Transfer, TransferToVesting, CreateAccount, PayPromotion, ClearNull, PayProducer, EscrowTransfer,
      EscrowApprove, EscrowDispute, EscrowRelease, ExpireEscrow, InterestFrom, AdjustAll, ProxyChange.ChainOk,
      ProxyChange.Deltas, Poll, Weight, Schedule.RoundOf;
    if OnCoins(step) {
      CoinsKeepPowers(s, p, step);
    } else if OnEscrows(step) {
      EscrowsKeepPowers(s, p, step);
    } else if step.InterestStep? {
      InterestKeepsPowers(s, p, s.head % p.config.interestBlocks, 0);
    }
  }

  lemma StepKeepsUnderway(s: State, p: Params, step: Step)
    requires Good(s, p) && AllUnderway(s.tally.accounts)
    ensures AllUnderway(Next(s, p, step).tally.accounts)
  {
    hide Good, Underway, Apply, Playable, SamePowers;
    var r := Next(s, p, step);
    if Playable(s, p) && Apply(s, p, step).Some? {
      match step
      case WithdrawStep(a, shares) =>
        StartIsUnderway(s, p, a, shares);
      case ConvertStep(a) =>
        ConvertKeepsUnderway(s, p, a);
      case _ =>
        OthersKeepPowers(s, p, step);
        SameIsUnderway(s, r);
    }
  }

  lemma SameIsUnderway(s: State, r: State)
    requires SamePowers(s, r) && AllUnderway(s.tally.accounts)
    ensures AllUnderway(r.tally.accounts)
  {
    hide Underway;
    assert Underway(Withdrawal(0, None, 0, 0)) by {
      NotUnderway(0, 0, 0);
    }
    forall a | a in r.tally.accounts
      ensures Underway(r.tally.accounts[a].power)
    {
      if a in s.tally.accounts {
        assert Underway(s.tally.accounts[a].power);
      }
    }
  }

  lemma NotUnderway(rate: int, toWithdraw: int, withdrawn: int)
    ensures Underway(Withdrawal(rate, None, toWithdraw, withdrawn))
  {}

  lemma StartIsUnderway(s: State, p: Params, a: Name, shares: nat)
    requires Playable(s, p) && Apply(s, p, WithdrawStep(a, shares)).Some? && AllUnderway(s.tally.accounts)
    ensures AllUnderway(Apply(s, p, WithdrawStep(a, shares)).value.tally.accounts)
  {
    WithdrawIff(s, a, shares);
    var w := WithdrawVesting(s, a, shares).value.tally.accounts[a].power;
    assert w.withdrawn == 0 * w.rate;
    assert Underway(w);
  }

  lemma ConvertKeepsUnderway(s: State, p: Params, a: Name)
    requires Good(s, p) && Playable(s, p) && Apply(s, p, ConvertStep(a)).Some? && AllUnderway(s.tally.accounts)
    ensures AllUnderway(Apply(s, p, ConvertStep(a)).value.tally.accounts)
  {
    hide Underway, Good;
    assert a in s.tally.accounts && Underway(s.tally.accounts[a].power);
    SharesNatural(s, p, a);
    ConvertsOnePart(s, a);
  }

  lemma SharesNatural(s: State, p: Params, a: Name)
    requires Good(s, p) && a in s.tally.accounts
    ensures s.tally.accounts[a].vesting >= 0
  {}

  /** So after every run from a good state all withdrawals are in order. */
  lemma {:induction false} RunKeepsUnderway(s: State, p: Params, steps: seq<Step>)
    requires Good(s, p) && AllUnderway(s.tally.accounts)
    ensures AllUnderway(After(s, p, steps).tally.accounts)
    decreases |steps|
  {
    hide Good, Next, AllUnderway;
    if steps != [] {
      StepKeepsUnderway(s, p, steps[0]);
      assert Good(Next(s, p, steps[0]), p) by {
        RunConserves(s, p, [steps[0]]);
        assert [steps[0]][1..] == [] && After(s, p, [steps[0]]) == Next(s, p, steps[0]);
      }
      RunKeepsUnderway(Next(s, p, steps[0]), p, steps[1..]);
    }
  }

  /** No account has a withdrawal at genesis. */
  lemma {:induction false} FoundedUnderway(founders: seq<Founder>)
    ensures AllUnderway(Founded(founders).accounts)
    decreases |founders|
  {
    if founders != [] {
      FoundedUnderway(founders[..|founders| - 1]);
    }
  }
}
