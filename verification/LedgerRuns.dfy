/** Genesis, and what holds after every run of steps from it. */
module LedgerRuns {
  import opened ChainTypes
  import opened VoteTally
  import opened ProxyForest
  import opened ProxyChange
  import opened TallySteps
  import opened FromScratch
  import opened Economics
  import opened Election
  import opened Schedule
  import opened Ledger
  import opened LedgerInvariants
  import opened LedgerSteps

  // ----- genesis -----

  datatype Founder = Founder(name: Name, balance: nat)

  /** The accounts that genesis creates, without votes or proxies. */
  function Founded(founders: seq<Founder>): Tally
    decreases |founders|
  {
    if founders == [] then Tally([], map[], Electors(map[], {}, 0), Index(map[], map[]))
    else
      var n := |founders| - 1;
      var f := founders[n];
      var t := WithAccount(Founded(founders[..n]), f.name);
      t.(accounts := t.accounts[f.name := FreshAccount(n).(balance := f.balance, holdings := f.balance * 2)])
  }

  function FoundersTotal(founders: seq<Founder>): nat
    decreases |founders|
  {
    if founders == [] then 0
    else FoundersTotal(founders[..|founders| - 1]) + founders[|founders| - 1].balance
  }

  ghost predicate Legal(founders: seq<Founder>) {
    && (forall i :: 0 <= i < |founders| ==> founders[i].name != SELF)
    && (forall i, j :: 0 <= i < j < |founders| ==> founders[i].name != founders[j].name)
  }

  /** Every founder has its balance, twice of it as considered holding, no proxy, and its place as id. */
  lemma {:induction false} FoundedAre(founders: seq<Founder>, i: nat)
    requires Legal(founders) && i < |founders|
    ensures var t, name := Founded(founders), founders[i].name;
      && |t.ids| == |founders| && t.ids[i] == name && name in t.accounts && name in t.e.proxy
      && t.e.proxy[name] == SELF && t.e.votes == {} && t.e.now == 0
      && t.accounts[name] == FreshAccount(i).(balance := founders[i].balance, holdings := 2 * founders[i].balance)
    decreases |founders|
  {
    var n := |founders| - 1;
    var before := founders[..n];
    if i < n {
      FoundedAre(before, i);
      assert before[i] == founders[i] && founders[i].name != founders[n].name;
    } else {
      FoundedCount(before);
    }
    if n > 0 {
      FoundedAre(before, 0);
    }
  }

  lemma {:induction false} FoundedCount(founders: seq<Founder>)
    ensures |Founded(founders).ids| == |founders|
    decreases |founders|
  {
    if founders != [] {
      FoundedCount(founders[..|founders| - 1]);
    }
  }

  function Genesis(p: Params, founders: seq<Founder>, first: Name, key: nat, totalSupply: int, time: nat,
                   required: int): State
    requires p.config.coinbaseBlocks > 0
  {
    var t := Founded(founders);
    var total := FoundersTotal(founders);
    State(t.(x := t.x.(witnesses := map[first := FreshWitness(0, key).(role := Top)])), [first], map[],
          total, 0, Initial(p.config, total, totalSupply), 0, time, required, 21, 63, 25)
  }

  /** At genesis the founders' balances are the supply, one witness is elected, and nothing else has happened. */
  lemma GenesisIs(p: Params, founders: seq<Founder>, first: Name, key: nat, totalSupply: int, time: nat, required: int)
    requires p.config.coinbaseBlocks > 0
    ensures var g := Genesis(p, founders, first, key, totalSupply, time, required);
      && g.tally.x.witnesses.Keys == {first} && g.tally.x.witnesses[first].role == Top
      && g.tally.x.witnesses[first].votes == 0 && g.tally.x.witnesses[first].key == key && g.names == [first]
      && g.tally.ids == Founded(founders).ids && g.tally.accounts == Founded(founders).accounts
      && g.tally.e == Founded(founders).e
      && g.supply == FoundersTotal(founders) && g.totalVesting == 0 && g.escrows == map[] && g.head == 0
      && g.time == time
      && g.requiredVesting == required && g.econ == Initial(p.config, g.supply, totalSupply)
      && (g.topWeight, g.timeshareWeight, g.payFactor) == (21, 63, 25)
  {}

  lemma {:induction false} FoundedGood(founders: seq<Founder>)
    requires Legal(founders)
    ensures var t := Founded(founders);
      && TallyGood(t, []) && t.e.votes == {} && t.x.witnesses == map[] && t.e.now == 0
      && |t.ids| == |founders| && (forall i :: 0 <= i < |founders| ==> t.ids[i] == founders[i].name)
      && FundSum(t) == FoundersTotal(founders) && VestSum(t) == 0
    decreases |founders|
  {
    hide TallyGood, FundSum, VestSum;
    if founders == [] {
      FoundedEmpty();
    } else {
      var n := |founders| - 1;
      var f := founders[n];
      var t := Founded(founders[..n]);
      FoundedGood(founders[..n]);
      assert forall i :: 0 <= i < n ==> t.ids[i] != f.name;
      Unlisted(t, f.name);
      FounderAdded(t, f);
    }
  }

  lemma Unlisted(t: Tally, a: Name)
    requires TallyGood(t, []) && a !in t.ids
    ensures a !in t.accounts
  {
    ExactEnumerates(t);
  }

  lemma FoundedEmpty()
    ensures TallyGood(Founded([]), []) && FundSum(Founded([])) == 0 && VestSum(Founded([])) == 0
  {}

  lemma FounderAdded(t: Tally, f: Founder)
    requires TallyGood(t, []) && t.e.votes == {} && f.name !in t.accounts && f.name != SELF
    ensures var m := WithAccount(t, f.name);
      var r := m.(accounts := m.accounts[f.name := FreshAccount(|t.ids|).(balance := f.balance,
        holdings := f.balance * 2)]);
      TallyGood(r, []) && FundSum(r) == FundSum(t) + f.balance && VestSum(r) == VestSum(t)
  {
    hide Exact, FundsIn, VestsIn, CountsExact, Solvent;
    var m := WithAccount(t, f.name);
    var y := FreshAccount(|t.ids|).(balance := f.balance, holdings := f.balance * 2);
    NewAccountKeepsExact(t, f.name);
    NewAccountGood(t, f.name);
    NewAccountSums(t, f.name);
    ExactEnumerates(m);
    RewriteKeepsExact(m, f.name, y);
    AccountsStayGood(m, m.(accounts := m.accounts[f.name := y]), f.name, y);
    SumsShift(m, f.name, y);
  }

  /** Genesis is a good state; supply and pools fall short of the total only by what rounding loses. */
  lemma GenesisGood(p: Params, founders: seq<Founder>, first: Name, key: nat, totalSupply: int, time: nat,
                    required: int)
    requires Sound(p.config) && p.config.coinbaseBlocks < TWO_128 && Legal(founders)
    requires FoundersTotal(founders) <= totalSupply < TWO_64
    ensures var s := Genesis(p, founders, first, key, totalSupply, time, required);
      Good(s, p) && Wealth(s) <= totalSupply
  {
    hide Exact, FundsIn, VestsIn, CountsExact, Solvent, Economics.Locked, Initial, EscrowTotal, Founded;
    var t := Founded(founders);
    FoundedGood(founders);
    var s := Genesis(p, founders, first, key, totalSupply, time, required);
    var ws := s.tally.x.witnesses;
    WitnessesKeepExact(t, ws, 0);
    SameAccountsCounts(t, s.tally);
    InitialPools(p.config, FoundersTotal(founders), totalSupply);
    InitialPromotion(p.config, FoundersTotal(founders), totalSupply);
    LockedDoesNotWrap(s.econ.initialPromotion, p.config, 0);
    NoEscrows();
  }

  lemma NoEscrows()
    ensures EscrowTotal(map[]) == 0
  {}

  lemma InitialPromotion(c: Config, initSupply: int, totalSupply: int)
    requires Sound(c) && 0 <= initSupply <= totalSupply < TWO_64
    ensures var e := Initial(c, initSupply, totalSupply);
      e.initialPromotion == e.promotion && 0 <= e.promotion < TWO_64
  {
    ShareBounds(totalSupply - initSupply, c.promotionPercent);
  }

  // ----- runs -----

  /** A step that throws leaves the state as it was. */
  ghost function Next(s: State, p: Params, step: Step): State {
    if Playable(s, p) && Apply(s, p, step).Some? then Apply(s, p, step).value else s
  }

  ghost function After(s: State, p: Params, steps: seq<Step>): State
    decreases |steps|
  {
    if steps == [] then s else After(Next(s, p, steps[0]), p, steps[1..])
  }

  /** What the run takes out of existence by clearing the null account. */
  ghost function LostIn(s: State, p: Params, steps: seq<Step>): int
    decreases |steps|
  {
    if steps == [] then 0
    else (if Playable(s, p) && Apply(s, p, steps[0]).Some? then Lost(s, steps[0]) else 0)
         + LostIn(Next(s, p, steps[0]), p, steps[1..])
  }

  /** Every run from a good state stays good, and supply, pools and losses add up to the same total. */
  lemma {:induction false} RunConserves(s: State, p: Params, steps: seq<Step>)
    requires Good(s, p)
    ensures Good(After(s, p, steps), p)
    ensures Wealth(After(s, p, steps)) + LostIn(s, p, steps) == Wealth(s) && LostIn(s, p, steps) >= 0
    decreases |steps|
  {
    hide Good, Wealth, Apply, Playable, Lost;
    if steps != [] {
      if Playable(s, p) && Apply(s, p, steps[0]).Some? {
        StepConserves(s, p, steps[0]);
      }
      RunConserves(Next(s, p, steps[0]), p, steps[1..]);
    }
  }

  // ----- the chain's own check of its invariants -----

  ghost predicate VotesWithinSupply(s: State) {
    forall w {:trigger s.tally.x.witnesses[w]} :: w in s.tally.x.witnesses ==> s.tally.x.witnesses[w].votes <= s.supply
  }

  /** The four assertions of the run-time check. */
  ghost predicate Validates(s: State, totalSupply: int) {
    && VotesWithinSupply(s)
    && s.supply == FundSum(s.tally) + EscrowTotal(s.escrows)
    && s.totalVesting == VestSum(s.tally)
    && Wealth(s) == totalSupply
  }

  lemma {:induction false} EscrowsNonNegative(m: map<EscrowKey, Escrow>)
    requires forall k {:trigger m[k]} :: k in m ==> m[k].balance >= 0 && m[k].fee >= 0
    ensures EscrowTotal(m) >= 0
    decreases |m|
  {
    if m != map[] {
      var k :| k in m;
      EscrowSplit(m, k);
      EscrowsNonNegative(m - {k});
    }
  }

  /** Votes are never negative and never exceed the supply. */
  lemma GoodVotes(s: State, p: Params)
    requires Good(s, p)
    ensures VotesWithinSupply(s)
    ensures forall w {:trigger s.tally.x.witnesses[w]} :: w in s.tally.x.witnesses ==> 0 <= s.tally.x.witnesses[w].votes
  {
    hide Exact, CountsExact, Table, InTime, NonNegative, Economics.Locked, EscrowTotal;
    EscrowsNonNegative(s.escrows);
    forall w | w in s.tally.x.witnesses
      ensures 0 <= s.tally.x.witnesses[w].votes <= s.supply
    {
      VotesAreBounded(s.tally, w);
    }
  }

  /** After every run from genesis the first three assertions of the run-time check hold. The fourth holds
      if and only if genesis lost nothing to rounding and nothing was ever burned by the null account. */
  lemma CheckHoldsIff(p: Params, founders: seq<Founder>, first: Name, key: nat, totalSupply: int, time: nat,
                      required: int, steps: seq<Step>)
    requires Sound(p.config) && p.config.coinbaseBlocks < TWO_128 && Legal(founders)
    requires FoundersTotal(founders) <= totalSupply < TWO_64
    ensures var g := Genesis(p, founders, first, key, totalSupply, time, required);
      var s := After(g, p, steps);
      && Good(s, p) && VotesWithinSupply(s) && Balanced(s)
      && (Validates(s, totalSupply) <==> Wealth(g) == totalSupply && LostIn(g, p, steps) == 0)
  {
    hide TallyGood, FundsIn, VestsIn, EscrowTotal, Economics.Locked, NonNegative, Genesis, After, LostIn, Pools;
    var g := Genesis(p, founders, first, key, totalSupply, time, required);
    GenesisGood(p, founders, first, key, totalSupply, time, required);
    RunConserves(g, p, steps);
    GoodVotes(After(g, p, steps), p);
  }

  // ----- virtual time over runs -----

  /** No step moves the virtual time backwards, except a round that resets it to zero because a lap wrapped. */
  lemma StepTime(s: State, p: Params, step: Step)
    requires Good(s, p) && Playable(s, p) && Apply(s, p, step).Some?
    ensures var now := Apply(s, p, step).value.tally.e.now;
      s.tally.e.now <= now || (step.RoundStep? && now == 0 && RoundIn(s, p).wrapped)
  {
    hide Good, Apply, RoundIn;
    if step.RoundStep? {
      RoundTime(s, p);
      RoundApplied(s, p);
    } else {
      OtherStepTime(s, p, step);
    }
  }

  /** The scheduling round that is due in a state. */
  function RoundIn(s: State, p: Params): Round
    requires forall a :: a in s.names ==> a in s.tally.x.witnesses
  {
    RoundOf(s.tally.x.witnesses, s.names, s.tally.e.now, p.maxVoted, p.max)
  }

  lemma RoundApplied(s: State, p: Params)
    requires Playable(s, p)
    ensures Apply(s, p, RoundStep).value.tally.e.now == TimeAfter(RoundIn(s, p))
  {
    hide RoundOf, AfterRound, TimeAfter, Sound;
  }

  lemma RoundTime(s: State, p: Params)
    requires Good(s, p) && Playable(s, p)
    ensures s.tally.e.now <= TimeAfter(RoundIn(s, p)) || (TimeAfter(RoundIn(s, p)) == 0 && RoundIn(s, p).wrapped)
  {
    hide TallyGood, RoundOf, Balanced, EscrowsGood, PromotionCovered;
    TallyInTime(s.tally, s.names);
    RoundKeepsInTime(s.tally.x.witnesses, s.names, s.tally.e.now, p.maxVoted, p.max);
  }

  lemma BalancesKeepTime(p: Params)
    requires p.config.interestBlocks > 0
    ensures forall s, a, d {:trigger AdjustBalance(s, p, a, d)} ::
      AdjustBalance(s, p, a, d).Some? ==> AdjustBalance(s, p, a, d).value.tally.e == s.tally.e
  {
    hide AdjustOne, TurnsLeft;
  }

  /** Only a scheduling round moves the virtual time. */
  lemma OtherStepTime(s: State, p: Params, step: Step)
    requires Playable(s, p) && Apply(s, p, step).Some? && !step.RoundStep?
    ensures Apply(s, p, step).value.tally.e.now == s.tally.e.now
  {
    hide AdjustBalance, AdjustOne, AdjustAll, AddFee, Deltas, ChainOk, Poll, Weight, InterestFrom, MayRelease,
      Economics.Locked, WithdrawMining, TurnsLeft, Reschedule;
    BalancesKeepTime(p);
    if step.InterestStep? {
      InterestKeeps(s, p, s.head % p.config.interestBlocks, 0);
    }
  }

  lemma TallyInTime(t: Tally, names: seq<Name>)
    requires TallyGood(t, names)
    ensures Table(t.x.witnesses, names) && InTime(t.x.witnesses, t.e.now)
  {}

  /** Interest touches neither votes and proxies nor escrows. */
  lemma {:induction false} InterestKeeps(s: State, p: Params, id: nat, paid: int)
    requires p.config.interestBlocks > 0 && p.config.coinbaseBlocks > 0 && p.config.interestFeesTime > 0
    requires InterestFrom(s, p, id, paid).Some?
    ensures var r := InterestFrom(s, p, id, paid).value.0; r.tally.e == s.tally.e && r.escrows == s.escrows
    decreases |s.tally.ids| - id
  {
    hide AdjustOne, WithdrawInterests;
    if id < |s.tally.ids| && s.tally.ids[id] in s.tally.accounts {
      var (r, interest) := Interest(s, p, s.tally.ids[id]).value;
      InterestKeeps(r, p, id + p.config.interestBlocks, paid + interest);
    }
  }
}
