/** Each step of the ledger keeps the invariants and the total of supply and pools. */
module LedgerSteps {
  import opened ChainTypes
  import opened Sums
  import opened VoteTally
  import opened ProxyForest
  import opened ProxyChange
  import opened TallySteps
  import opened FromScratch
  import opened Economics
  import opened Election
  import opened Schedule
  import opened Ledger
  import opened LedgerInvariants

  /** The successor state r of s is good and no coin appeared or vanished, except `lost` ones. */
  ghost predicate Conserves(s: State, r: State, p: Params, lost: int) {
    Good(r, p) && Wealth(r) + lost == Wealth(s)
  }

  /** Coins moved between accounts only. */
  lemma TallyMoveConserves(s: State, r: State, p: Params)
    requires Good(s, p) && MovesTally(s, r, 0, 0)
    ensures Conserves(s, r, p, 0)
  {
    hide TallyGood, FundsIn, VestsIn, EscrowTotal, NonNegative, Economics.Locked;
  }

  lemma PayFeeConserves(s: State, p: Params, a: Name, fee: int)
    requires Good(s, p) && PayFee(s, p, a, fee).Some?
    ensures Conserves(s, PayFee(s, p, a, fee).value, p, 0)
    ensures PayFee(s, p, a, fee).value.escrows == s.escrows && PayFee(s, p, a, fee).value.tally.ids == s.tally.ids
    ensures PayFee(s, p, a, fee).value.tally.accounts.Keys == s.tally.accounts.Keys
  {
    hide TallyGood, FundsIn, VestsIn, EscrowTotal, AdjustBalance, AddFee, Economics.Locked;
    if fee > 0 {
      AdjustBalanceMoves(s, p, a, -fee);
      AddFeeConserves(s.econ, p.config, fee);
      AddFeeKeepsSchedule(s.econ, p.config, fee);
    }
  }

  lemma AddFeeKeepsSchedule(e: Economy, c: Config, fee: int)
    ensures AddFee(e, c, fee).initialPromotion == e.initialPromotion
  {}

  lemma TransferConserves(s: State, p: Params, from: Name, to: Name, amount: int)
    requires Good(s, p) && Transfer(s, p, from, to, amount).Some?
    ensures Conserves(s, Transfer(s, p, from, to, amount).value, p, 0)
  {
    hide TallyGood, FundsIn, VestsIn, EscrowTotal, AdjustBalance, Economics.Locked, NonNegative;
    AdjustBalanceMoves(s, p, from, -amount);
    var m := AdjustBalance(s, p, from, -amount).value;
    AdjustBalanceMoves(m, p, to, amount);
  }

  lemma TransferToVestingConserves(s: State, p: Params, from: Name, to: Name, amount: int)
    requires Good(s, p) && TransferToVesting(s, p, from, to, amount).Some?
    ensures Conserves(s, TransferToVesting(s, p, from, to, amount).value, p, 0)
  {
    hide TallyGood, FundsIn, VestsIn, EscrowTotal, AdjustBalance, Vest, Economics.Locked, NonNegative;
    var receiver := if to == SELF then from else to;
    if receiver == from {
      VestMoves(s, from, amount);
    } else {
      AdjustBalanceMoves(s, p, from, -amount);
      var m := AdjustBalance(s, p, from, -amount).value;
      AdjustBalanceMoves(m, p, receiver, amount);
      var n := AdjustBalance(m, p, receiver, amount).value;
      VestMoves(n, receiver, amount);
    }
  }

  lemma WithdrawVestingConserves(s: State, p: Params, a: Name, amount: nat)
    requires Good(s, p) && WithdrawVesting(s, a, amount).Some?
    ensures Conserves(s, WithdrawVesting(s, a, amount).value, p, 0)
  {
    hide Exact, Table, InTime, CountsExact, FundsIn, VestsIn, EscrowTotal, Economics.Locked, NonNegative;
    var r := WithdrawVesting(s, a, amount).value;
    assert s.tally.accounts[a].balance >= 0;
    RewriteShifts(s.tally, s.names, a, r.tally.accounts[a]);
    TallyMoveConserves(s, r, p);
  }

  lemma NewAccountMoves(s: State, p: Params, name: Name)
    requires Good(s, p) && name != SELF && name !in s.tally.accounts
    ensures Conserves(s, s.(tally := WithAccount(s.tally, name)), p, 0)
  {
    hide Exact, Table, InTime, EscrowTotal, Economics.Locked, NonNegative, CountsExact, Solvent, FundsIn, VestsIn;
    NewAccountKeepsExact(s.tally, name);
    NewAccountGood(s.tally, name);
    NewAccountSums(s.tally, name);
  }

  lemma NewAccountSums(t: Tally, name: Name)
    requires Exact(t) && name !in t.accounts
    ensures FundSum(WithAccount(t, name)) == FundSum(t) && VestSum(WithAccount(t, name)) == VestSum(t)
  {
    hide Exact;
    var r := WithAccount(t, name);
    ExactEnumerates(t);
    SumAppend(t.ids, name, Funds(r.accounts));
    SumAppend(t.ids, name, Vested(r.accounts));
    SumEqual(t.ids, Funds(t.accounts), Funds(r.accounts));
    SumEqual(t.ids, Vested(t.accounts), Vested(r.accounts));
  }

  lemma NewAccountGood(t: Tally, name: Name)
    requires Exact(t) && CountsExact(t) && Solvent(t.accounts) && name !in t.accounts
    ensures CountsExact(WithAccount(t, name)) && Solvent(WithAccount(t, name).accounts)
  {
    hide SlotsExact, VotesExact, Acyclic;
    assert VotesOf(t.e.votes, name) == {};
  }

  lemma CreateAccountConserves(s: State, p: Params, creator: Name, name: Name, fee: int, required: nat)
    requires Good(s, p) && CreateAccount(s, p, creator, name, fee, required).Some?
    ensures Conserves(s, CreateAccount(s, p, creator, name, fee, required).value, p, 0)
  {
    hide TallyGood, Balanced, EscrowsGood, PromotionCovered, Wealth, PayFee, AdjustBalance, WithAccount;
    var s1 := s.(tally := WithAccount(s.tally, name));
    NewAccountMoves(s, p, name);
    PayFeeConserves(s1, p, creator, required);
    var s2 := PayFee(s1, p, creator, required).value;
    if fee != required {
      MoveConserves(s2, p, name, creator, fee - required);
    }
  }

  lemma MoveConserves(s: State, p: Params, to: Name, from: Name, amount: int)
    requires Good(s, p) && AdjustBalance(s, p, to, amount).Some?
    requires AdjustBalance(AdjustBalance(s, p, to, amount).value, p, from, -amount).Some?
    ensures Conserves(s, AdjustBalance(AdjustBalance(s, p, to, amount).value, p, from, -amount).value, p, 0)
  {
    hide TallyGood, FundsIn, VestsIn, EscrowTotal, AdjustBalance, Economics.Locked, NonNegative;
    AdjustBalanceMoves(s, p, to, amount);
    AdjustBalanceMoves(AdjustBalance(s, p, to, amount).value, p, from, -amount);
  }

  lemma UpdateWitnessConserves(s: State, p: Params, owner: Name, key: nat)
    requires Good(s, p) && UpdateWitness(s, owner, key).Some?
    ensures Conserves(s, UpdateWitness(s, owner, key).value, p, 0)
  {
    hide Exact, CountsExact, FundsIn, VestsIn, EscrowTotal, Economics.Locked, NonNegative;
    var r := UpdateWitness(s, owner, key).value;
    WitnessesKeepExact(s.tally, r.tally.x.witnesses, s.tally.e.now);
    assert CountsExact(r.tally) by { SameAccountsCounts(s.tally, r.tally); }
  }

  lemma StopWitnessConserves(s: State, p: Params, w: Name)
    requires Good(s, p) && StopWitness(s, w).Some?
    ensures Conserves(s, StopWitness(s, w).value, p, 0)
  {
    hide Exact, CountsExact, FundsIn, VestsIn, EscrowTotal, Economics.Locked, NonNegative;
    var r := StopWitness(s, w).value;
    WitnessesKeepExact(s.tally, r.tally.x.witnesses, s.tally.e.now);
    assert CountsExact(r.tally) by { SameAccountsCounts(s.tally, r.tally); }
  }

  lemma RequirementConserves(s: State, p: Params, vesting: int)
    requires Good(s, p)
    ensures Conserves(s, s.(requiredVesting := vesting), p, 0)
  {
    hide TallyGood, FundsIn, VestsIn, EscrowTotal, NonNegative, Economics.Locked;
  }

  lemma SameAccountsCounts(t: Tally, r: Tally)
    requires CountsExact(t) && r.accounts == t.accounts && r.e.votes == t.e.votes
    ensures CountsExact(r)
  {}

  // ----- votes and proxies -----

  lemma SameSums(t: Tally, r: Tally)
    requires r.ids == t.ids && r.accounts.Keys == t.accounts.Keys
    requires forall a {:trigger r.accounts[a]} ::
      a in t.accounts ==> r.accounts[a] == t.accounts[a].(votedFor := r.accounts[a].votedFor)
    ensures FundSum(r) == FundSum(t) && VestSum(r) == VestSum(t)
    ensures Solvent(t.accounts) ==> Solvent(r.accounts)
  {
    SumEqual(t.ids, Funds(t.accounts), Funds(r.accounts));
    SumEqual(t.ids, Vested(t.accounts), Vested(r.accounts));
  }

  /** A change of vote records or proxies that keeps the tally good moves no coins. */
  lemma TallyChangeConserves(s: State, p: Params, t: Tally)
    requires Good(s, p) && t.ids == s.tally.ids && t.accounts.Keys == s.tally.accounts.Keys
    requires forall a {:trigger t.accounts[a]} ::
      a in t.accounts ==> t.accounts[a] == s.tally.accounts[a].(votedFor := t.accounts[a].votedFor)
    requires Exact(t) && CountsExact(t) && Table(t.x.witnesses, s.names) && InTime(t.x.witnesses, t.e.now)
    ensures Conserves(s, s.(tally := t), p, 0)
  {
    hide Exact, CountsExact, Table, InTime, FundsIn, VestsIn, EscrowTotal, Economics.Locked, NonNegative, Solvent;
    SameSums(s.tally, t);
  }

  lemma PollGood(x: Index, names: seq<Name>, w: Name, delta: int, now: nat)
    requires Table(x.witnesses, names) && InTime(x.witnesses, now) && w in x.witnesses
    ensures Table(Poll(x, w, delta, now).witnesses, names) && InTime(Poll(x, w, delta, now).witnesses, now)
  {
    hide AdjustVote;
    AdjustedInTime(x.witnesses[w], delta, now);
    AdjustedIds(x.witnesses[w], delta, now);
    SameIdsTable(x.witnesses, Poll(x, w, delta, now).witnesses, names);
  }

  lemma AdjustedIds(w: Witness, delta: int, now: nat)
    ensures AdjustVote(w, delta, now).id == w.id && AdjustVote(w, delta, now).key == w.key
  {}

  lemma VoteConserves(s: State, p: Params, a: Name, w: Name, approve: bool)
    requires Good(s, p) && VoteWitness(s, p, a, w, approve).Some?
    ensures Conserves(s, VoteWitness(s, p, a, w, approve).value, p, 0)
  {
    hide Exact, CountsExact, Table, InTime, Balanced, NonNegative, EscrowsGood, PromotionCovered, Solvent, Poll, Weight;
    var t := s.tally;
    VoteKeepsExact(t, a, w, approve, p.voteLimit);
    VoteKeepsCounts(t, a, w, approve, p.voteLimit);
    PollGood(t.x, s.names, w, Weight(t.accounts, t.x, a), t.e.now);
    PollGood(t.x, s.names, w, -Weight(t.accounts, t.x, a), t.e.now);
    TallyChangeConserves(s, p, VoteWitness(s, p, a, w, approve).value.tally);
  }

  lemma ProxyCounts(t: Tally, a: Name, q: Name)
    requires Exact(t) && CountsExact(t) && SetProxy(t, a, q).Some?
    ensures CountsExact(SetProxy(t, a, q).value)
  {
    hide SlotsExact, VotesExact, Acyclic, AdjustAll, Deltas, ChainOk;
    var r := SetProxy(t, a, q).value;
    if q != SELF {
      forall b | b in r.accounts
        ensures r.accounts[b].votedFor == |VotesOf(r.e.votes, b)|
      {
        assert t.accounts[b].votedFor == |VotesOf(t.e.votes, b)|;
        if b == a {
          assert VotesOf(r.e.votes, a) == {};
        } else {
          assert VotesOf(r.e.votes, b) == VotesOf(t.e.votes, b);
        }
      }
    } else {
      assert r.e.votes == t.e.votes;
    }
  }

  lemma ProxyGood(t: Tally, names: seq<Name>, a: Name, q: Name)
    requires Table(t.x.witnesses, names) && InTime(t.x.witnesses, t.e.now) && SetProxy(t, a, q).Some?
    ensures var r := SetProxy(t, a, q).value;
      Table(r.x.witnesses, names) && InTime(r.x.witnesses, r.e.now) && r.e.now == t.e.now
  {
    hide Table, InTime, AdjustAll, SameIds, ChainOk;
    var delta := Deltas(t.accounts, t.x, a);
    var d := Detached(t, a);
    AdjustAllInTime(t.e, t.x, a, Negated(delta), 0);
    AdjustAllIds(t.e, t.x, a, Negated(delta), 0);
    SameIdsTable(t.x.witnesses, d.x.witnesses, names);
    if q != SELF {
      var e := d.e.(proxy := d.e.proxy[a := q]);
      AdjustAllInTime(e, d.x, a, delta, 0);
      AdjustAllIds(e, d.x, a, delta, 0);
      SameIdsTable(d.x.witnesses, AdjustAll(e, d.x, a, delta, 0).witnesses, names);
    }
  }

  lemma ProxyConserves(s: State, p: Params, a: Name, q: Name)
    requires Good(s, p) && ProxyVotes(s, a, q).Some?
    ensures Conserves(s, ProxyVotes(s, a, q).value, p, 0)
  {
    hide Exact, CountsExact, Table, InTime, Balanced, NonNegative, EscrowsGood, PromotionCovered, Solvent, AdjustAll,
      Deltas, ChainOk;
    SetProxyKeepsExact(s.tally, a, q);
    ProxyCounts(s.tally, a, q);
    ProxyGood(s.tally, s.names, a, q);
    TallyChangeConserves(s, p, ProxyVotes(s, a, q).value.tally);
  }

  // ----- escrow -----

  lemma EscrowTransferConserves(s: State, p: Params, from: Name, id: nat, e: Escrow)
    requires Good(s, p) && EscrowTransfer(s, p, from, id, e).Some?
    ensures Conserves(s, EscrowTransfer(s, p, from, id, e).value, p, 0)
  {
    hide TallyGood, FundsIn, VestsIn, EscrowTotal, AdjustBalance, Economics.Locked, NonNegative;
    AdjustBalanceMoves(s, p, from, -(e.balance + e.fee));
    EscrowPut(s.escrows, (from, id), e);
  }

  lemma RefundConserves(s: State, p: Params, k: EscrowKey)
    requires Good(s, p) && k in s.escrows && RefundEscrow(s, p, k).Some?
    ensures Conserves(s, RefundEscrow(s, p, k).value, p, 0)
  {
    hide TallyGood, FundsIn, VestsIn, EscrowTotal, AdjustBalance, Economics.Locked, NonNegative;
    AdjustBalanceMoves(s, p, k.0, s.escrows[k].balance);
    var m := AdjustBalance(s, p, k.0, s.escrows[k].balance).value;
    AdjustBalanceMoves(m, p, k.0, s.escrows[k].fee);
    EscrowSplit(s.escrows, k);
  }

  lemma ApproveConserves(s: State, p: Params, k: EscrowKey, to: Name, agent: Name, who: Name, approve: bool)
    requires Good(s, p) && EscrowApprove(s, p, k, to, agent, who, approve).Some?
    ensures Conserves(s, EscrowApprove(s, p, k, to, agent, who, approve).value, p, 0)
  {
    hide TallyGood, FundsIn, VestsIn, EscrowTotal, AdjustBalance, RefundEscrow, Economics.Locked, NonNegative;
    if !approve {
      RefundConserves(s, p, k);
    } else {
      var e := s.escrows[k];
      var f := e.(toApproved := e.toApproved || who == to, agentApproved := e.agentApproved || who == agent);
      if f.toApproved && f.agentApproved {
        AdjustBalanceMoves(s, p, agent, f.fee);
        EscrowPut(s.escrows, k, f.(fee := 0));
      } else {
        EscrowPut(s.escrows, k, f);
      }
    }
  }

  lemma DisputeConserves(s: State, p: Params, k: EscrowKey, to: Name, agent: Name, who: Name)
    requires Good(s, p) && EscrowDispute(s, k, to, agent, who).Some?
    ensures Conserves(s, EscrowDispute(s, k, to, agent, who).value, p, 0)
  {
    hide TallyGood, FundsIn, VestsIn, EscrowTotal, Economics.Locked, NonNegative;
    EscrowPut(s.escrows, k, s.escrows[k].(disputed := true));
  }

  lemma ReleaseConserves(s: State, p: Params, k: EscrowKey, to: Name, agent: Name, who: Name, receiver: Name,
                         amount: int)
    requires Good(s, p) && EscrowRelease(s, p, k, to, agent, who, receiver, amount).Some?
    ensures Conserves(s, EscrowRelease(s, p, k, to, agent, who, receiver, amount).value, p, 0)
  {
    hide TallyGood, FundsIn, VestsIn, EscrowTotal, AdjustBalance, Economics.Locked, NonNegative;
    var e := s.escrows[k];
    AdjustBalanceMoves(s, p, receiver, amount);
    EscrowSplit(s.escrows, k);
    EscrowPut(s.escrows, k, e.(balance := e.balance - amount));
  }

  // ----- pools -----

  lemma WithdrawnPromotion(e: Economy, c: Config, amount: int, block: nat)
    requires c.coinbaseBlocks > 0
    ensures var r := WithdrawPromotion(e, c, amount, block);
      r.Some? ==> (&& r.value.0 == e.(promotion := e.promotion - r.value.1) && 0 < r.value.1 && 0 <= e.initialPromotion
                   && 0 <= Economics.Locked(e.initialPromotion, c, block) <= r.value.0.promotion)
  {
    hide Economics.Locked;
  }

  lemma PromotionConserves(s: State, p: Params, to: Name, amount: int)
    requires Good(s, p) && PayPromotion(s, p, to, amount).Some?
    ensures Conserves(s, PayPromotion(s, p, to, amount).value, p, 0)
  {
    hide TallyGood, FundsIn, VestsIn, EscrowTotal, AdjustBalance, WithdrawPromotion, Economics.Locked;
    WithdrawnPromotion(s.econ, p.config, amount, s.head);
    var w := WithdrawPromotion(s.econ, p.config, amount, s.head).value;
    AdjustBalanceMoves(s.(econ := w.0), p, to, w.1);
  }

  ghost predicate InterestState(s: State, p: Params, paid: int) {
    && Sound(p.config) && TallyGood(s.tally, s.names)
    && NonNegative(s.econ) && EscrowsGood(s) && PromotionCovered(s, p)
    && s.supply + paid == FundSum(s.tally) + EscrowTotal(s.escrows)
    && s.totalVesting == VestSum(s.tally)
  }

  /** One account's interest. */
  lemma InterestPaid(s: State, p: Params, a: Name, paid: int)
    requires InterestState(s, p, paid) && a in s.tally.accounts && Interest(s, p, a).Some?
    ensures var (r, interest) := Interest(s, p, a).value;
      && InterestState(r, p, paid + interest) && Pools(r.econ) + interest == Pools(s.econ) && 0 <= interest
      && r.supply == s.supply && r.tally.ids == s.tally.ids
  {
    hide Exact, CountsExact, Table, InTime, FundsIn, VestsIn, EscrowTotal, Economics.Locked, WithdrawInterests,
      AdjustOne;
    var c, x := p.config, s.tally.accounts[a];
    WithdrawInterestsConserves(s.econ, c, x.holdings, if c.interestBlocks < s.head then c.interestBlocks else s.head);
    var (r, interest) := Interest(s, p, a).value;
    var y := r.tally.accounts[a];
    if interest > 0 {
      CreditShifts(s.tally, s.names, a, y, interest);
    } else {
      RewriteShifts(s.tally, s.names, a, y);
    }
  }

  lemma {:induction false} InterestConserves(s: State, p: Params, id: nat, paid: int)
    requires InterestState(s, p, paid) && paid >= 0 && InterestFrom(s, p, id, paid).Some?
    ensures var r := InterestFrom(s, p, id, paid).value;
      && InterestState(r.0, p, r.1) && r.1 >= 0
      && Pools(r.0.econ) + r.1 == Pools(s.econ) + paid && r.0.supply == s.supply
    decreases |s.tally.ids| - id
  {
    hide TallyGood, EscrowsGood, PromotionCovered, FundsIn, VestsIn, EscrowTotal, NonNegative, Interest, Pools;
    if id < |s.tally.ids| && s.tally.ids[id] in s.tally.accounts {
      var a := s.tally.ids[id];
      InterestPaid(s, p, a, paid);
      var (r, interest) := Interest(s, p, a).value;
      InterestConserves(r, p, id + p.config.interestBlocks, paid + interest);
    }
  }

  lemma ProcessInterestsConserves(s: State, p: Params)
    requires Good(s, p) && ProcessInterests(s, p).Some?
    ensures Conserves(s, ProcessInterests(s, p).value, p, 0)
  {
    hide TallyGood, FundsIn, VestsIn, EscrowTotal, NonNegative, InterestFrom, Economics.Locked;
    InterestConserves(s, p, s.head % p.config.interestBlocks, 0);
  }

  lemma ClearNullConserves(s: State, p: Params)
    requires Good(s, p) && ClearNull(s, p).Some?
    ensures Conserves(s, ClearNull(s, p).value, p, Cleared(s)) && Cleared(s) >= 0
  {
    hide Exact, CountsExact, Table, InTime, FundsIn, VestsIn, EscrowTotal, NonNegative, Economics.Locked, AdjustBalance;
    var x := s.tally.accounts[NULL_ACCOUNT];
    assert SolventAccount(x);
    var s1 := s;
    if x.balance > 0 {
      AdjustBalanceMoves(s, p, NULL_ACCOUNT, -x.balance);
      AdjustedVesting(s, p, NULL_ACCOUNT, -x.balance);
      s1 := AdjustBalance(s, p, NULL_ACCOUNT, -x.balance).value;
    }
    assert Shifted(s.tally, s1.tally, s.names, -x.balance, 0);
    NullVestingCleared(s1.tally, s.names);
  }

  lemma NullVestingCleared(t: Tally, names: seq<Name>)
    requires TallyGood(t, names) && NULL_ACCOUNT in t.accounts
    ensures var y := t.accounts[NULL_ACCOUNT];
      y.vesting >= 0 && Shifted(t, t.(accounts := t.accounts[NULL_ACCOUNT := y.(vesting := 0)]), names, -y.vesting,
        -y.vesting)
  {
    hide Exact, CountsExact, Table, InTime, FundsIn, VestsIn;
    var y := t.accounts[NULL_ACCOUNT];
    assert SolventAccount(y);
    RewriteShifts(t, names, NULL_ACCOUNT, y.(vesting := 0));
  }

  lemma AdjustedVesting(s: State, p: Params, a: Name, delta: int)
    requires p.config.interestBlocks > 0 && AdjustBalance(s, p, a, delta).Some?
    ensures AdjustBalance(s, p, a, delta).value.tally.accounts[a].vesting == s.tally.accounts[a].vesting
  {}

  lemma PayProducerConserves(s: State, p: Params, producer: Name)
    requires Good(s, p) && PayProducer(s, p, producer).Some?
    ensures Conserves(s, PayProducer(s, p, producer).value, p, 0)
  {
    hide TallyGood, FundsIn, VestsIn, EscrowTotal, Economics.Locked, WithdrawMining, CreateVesting;
    var nominator := match s.tally.x.witnesses[producer].role
      case Timeshare => s.timeshareWeight
      case Top => s.topWeight
      case Unscheduled => 0;
    WithdrawMiningConserves(s.econ, p.config, s.head, nominator, s.payFactor);
    var w := WithdrawMining(s.econ, p.config, s.head, nominator, s.payFactor).value;
    CreateVestingMoves(s.(econ := w.0), p, producer, w.1);
  }

  lemma ConvertConserves(s: State, p: Params, a: Name)
    requires Good(s, p) && ConvertVesting(s, a).Some?
    ensures Conserves(s, ConvertVesting(s, a).value, p, 0)
  {
    hide Exact, CountsExact, Table, InTime, FundsIn, VestsIn, EscrowTotal, NonNegative, Economics.Locked;
    var x := s.tally.accounts[a];
    assert x.balance >= 0 && x.vesting >= 0;
    RewriteShifts(s.tally, s.names, a, ConvertVesting(s, a).value.tally.accounts[a]);
  }

  lemma RescheduleConserves(s: State, p: Params)
    requires Good(s, p) && Playable(s, p)
    ensures Conserves(s, Reschedule(s, p).value, p, 0)
  {
    hide Exact, CountsExact, InTime, FundsIn, VestsIn, EscrowTotal, NonNegative, Economics.Locked, RoundOf,
      AfterRound, Solvent;
    var t := s.tally;
    var r := RoundOf(t.x.witnesses, s.names, t.e.now, p.maxVoted, p.max);
    RoundKeepsInTime(t.x.witnesses, s.names, t.e.now, p.maxVoted, p.max);
    var ws := AfterRound(t.x.witnesses, r);
    RoundIds(t.x.witnesses, r);
    SameIdsTable(t.x.witnesses, ws, s.names);
    WitnessesKeepExact(t, ws, TimeAfter(r));
    SameAccountsCounts(t, Reschedule(s, p).value.tally);
  }

  lemma RoundIds(ws: Witnesses, r: Round)
    ensures SameIds(ws, AfterRound(ws, r))
    ensures AfterRound(ws, r).Keys == ws.Keys
    ensures forall w {:trigger AfterRound(ws, r)[w]} :: w in ws ==> AfterRound(ws, r)[w].votes == ws[w].votes
  {
    hide Lap;
  }

  lemma NextBlockConserves(s: State, p: Params, time: nat)
    requires Good(s, p) && NextBlock(s, p, time).Some?
    ensures Conserves(s, NextBlock(s, p, time).value, p, 0)
  {
    hide TallyGood, FundsIn, VestsIn, EscrowTotal, Economics.Locked;
    if s.head + 1 <= p.config.coinbaseBlocks {
      LockedShrinks(s.econ.initialPromotion, p.config, s.head, s.head + 1);
    }
  }

  // ----- every step -----

  lemma GoodIsPlayable(s: State, p: Params)
    requires Good(s, p)
    ensures Playable(s, p)
  {}

  /** What a step takes out of existence. */
  ghost function Lost(s: State, step: Step): int {
    if step.ClearStep? then Cleared(s) else 0
  }

  /** Every step that succeeds leads to a good state and conserves coins, except those of the null account. */
  lemma StepConserves(s: State, p: Params, step: Step)
    requires Good(s, p) && Playable(s, p) && Apply(s, p, step).Some?
    ensures Conserves(s, Apply(s, p, step).value, p, Lost(s, step)) && Lost(s, step) >= 0
  {
    hide Good, Conserves, PayFee, Transfer, TransferToVesting, WithdrawVesting, CreateAccount, UpdateWitness,
      StopWitness, VoteWitness, ProxyVotes, EscrowTransfer, EscrowApprove, EscrowDispute, EscrowRelease,
      PayPromotion, RefundEscrow, ProcessInterests, ClearNull, Cleared, PayProducer, ConvertVesting, Reschedule,
      NextBlock;
    match step
    case FeeStep(a, fee) => PayFeeConserves(s, p, a, fee);
    case TransferStep(from, to, amount) => TransferConserves(s, p, from, to, amount);
    case VestStep(from, to, amount) => TransferToVestingConserves(s, p, from, to, amount);
    case WithdrawStep(a, shares) => WithdrawVestingConserves(s, p, a, shares);
    case AccountStep(creator, name, fee, required) => CreateAccountConserves(s, p, creator, name, fee, required);
    case WitnessStep(owner, key) => UpdateWitnessConserves(s, p, owner, key);
    case StopStep(w) => StopWitnessConserves(s, p, w);
    case RequirementStep(vesting) => RequirementConserves(s, p, vesting);
    case VoteStep(a, w, approve) => VoteConserves(s, p, a, w, approve);
    case ProxyStep(a, q) => ProxyConserves(s, p, a, q);
    case EscrowStep(from, id, e) => EscrowTransferConserves(s, p, from, id, e);
    case ApproveStep(k, to, agent, who, approve) => ApproveConserves(s, p, k, to, agent, who, approve);
    case DisputeStep(k, to, agent, who) => DisputeConserves(s, p, k, to, agent, who);
    case ReleaseStep(k, to, agent, who, receiver, amount) => ReleaseConserves(s, p, k, to, agent, who, receiver,
      amount);
    case PromotionStep(to, amount) => PromotionConserves(s, p, to, amount);
    case ExpireStep(k) => RefundConserves(s, p, k);
    case InterestStep => ProcessInterestsConserves(s, p);
    case ClearStep => ClearNullConserves(s, p);
    case ProducerStep(producer) => PayProducerConserves(s, p, producer);
    case ConvertStep(a) => ConvertConserves(s, p, a);
    case RoundStep => RescheduleConserves(s, p);
    case BlockStep(time) => NextBlockConserves(s, p, time);
  }
}
