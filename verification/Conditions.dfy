/** Exactly when the operations of the ledger succeed in a good state, from what the parties can see before. */
module Conditions {
  import opened ChainTypes
  import opened Sums
  import opened VoteTally
  import opened ProxyForest
  import ProxyChange
  import opened TallySteps
  import opened FromScratch
  import opened Economics
  import opened Ledger
  import opened LedgerInvariants
  import opened LedgerRuns
  import opened LedgerSteps
  import opened Election
  import opened Schedule
  import opened EscrowLife

  // ----- the supply covers every account -----

  lemma SupplyCovers(s: State, p: Params, a: Name)
    requires Good(s, p) && a in s.tally.accounts
    ensures s.tally.accounts[a].balance >= 0 && s.tally.accounts[a].vesting >= 0
    ensures Total(s.tally.accounts[a]) <= s.supply
  {
    hide Exact, CountsExact, Table, InTime, EscrowTotal, NonNegative, PromotionCovered;
    ExactEnumerates(s.tally);
    EscrowsNonNegative(s.escrows);
    FundsCover(s.tally.ids, s.tally.accounts, a);
  }

  lemma FundsCover(ids: seq<Name>, accounts: map<Name, Account>, a: Name)
    requires Distinct(ids) && a in ids && a in accounts && Solvent(accounts)
    ensures Total(accounts[a]) <= FundsIn(ids, accounts)
  {
    var zero, own := (b: nat) => 0, (b: nat) => if b == a then Total(accounts[a]) else 0;
    SumZero(ids, zero);
    SumChangedAt(ids, zero, own, a, Total(accounts[a]));
    SumMonotone(ids, own, Funds(accounts));
  }

  lemma Adjusts(s: State, p: Params, a: Name, delta: int)
    requires p.config.interestBlocks > 0
    ensures AdjustBalance(s, p, a, delta).Some? <==> a in s.tally.accounts && s.tally.accounts[a].balance + delta >= 0
    ensures AdjustBalance(s, p, a, delta).Some? ==>
      var r := AdjustBalance(s, p, a, delta).value;
      && r == s.(tally := r.tally) && r.tally.accounts.Keys == s.tally.accounts.Keys
      && forall b {:trigger r.tally.accounts[b]} :: b in r.tally.accounts ==>
        r.tally.accounts[b].balance == s.tally.accounts[b].balance + if b == a then delta else 0
  {
    hide AdjustOne, TurnsLeft;
  }

  lemma GoodParams(s: State, p: Params)
    requires Good(s, p)
    ensures Sound(p.config) && TallyGood(s.tally, s.names)
  {}

  // ----- coins -----

  /** Whoever has the fee can pay it: the supply never falls short. */
  lemma FeePaidIff(s: State, p: Params, a: Name, fee: int)
    requires Good(s, p)
    ensures PayFee(s, p, a, fee).Some? <==> fee >= 0 && a in s.tally.accounts && fee <= s.tally.accounts[a].balance
  {
    hide Good, AdjustBalance;
    GoodParams(s, p);
    Adjusts(s, p, a, -fee);
    if a in s.tally.accounts {
      SupplyCovers(s, p, a);
    }
  }

  lemma TransferIff(s: State, p: Params, from: Name, to: Name, amount: int)
    requires Good(s, p)
    ensures Transfer(s, p, from, to, amount).Some?
      <==> 0 < amount && from in s.tally.accounts && to in s.tally.accounts && amount <= s.tally.accounts[from].balance
  {
    hide Good, AdjustBalance;
    GoodParams(s, p);
    Adjusts(s, p, from, -amount);
    if AdjustBalance(s, p, from, -amount).Some? {
      Adjusts(AdjustBalance(s, p, from, -amount).value, p, to, amount);
    }
    if to in s.tally.accounts {
      SupplyCovers(s, p, to);
    }
  }

  lemma VestIff(s: State, p: Params, from: Name, to: Name, amount: int)
    requires Good(s, p)
    ensures TransferToVesting(s, p, from, to, amount).Some? <==>
      && 0 < amount && from in s.tally.accounts && amount <= s.tally.accounts[from].balance
      && (to == SELF || to in s.tally.accounts)
  {
    hide Good, AdjustBalance;
    GoodParams(s, p);
    var receiver := if to == SELF then from else to;
    Adjusts(s, p, from, -amount);
    if AdjustBalance(s, p, from, -amount).Some? {
      Adjusts(AdjustBalance(s, p, from, -amount).value, p, receiver, amount);
    }
    if receiver in s.tally.accounts {
      SupplyCovers(s, p, receiver);
    }
  }

  /** A new account needs a creator with the offered fee, which covers the required one, and a new name. */
  lemma CreateIff(s: State, p: Params, creator: Name, name: Name, fee: int, required: nat)
    requires Good(s, p)
    ensures CreateAccount(s, p, creator, name, fee, required).Some? <==>
      && creator in s.tally.accounts && required <= fee <= s.tally.accounts[creator].balance
      && name != SELF && name !in s.tally.accounts
  {
    hide Good, AdjustBalance, PayFee, TallySteps.WithAccount;
    GoodParams(s, p);
    if creator in s.tally.accounts && required <= fee <= s.tally.accounts[creator].balance && name != SELF
       && name !in s.tally.accounts {
      SupplyCovers(s, p, creator);
      CreateSucceeds(s, p, creator, name, fee, required);
    }
  }

  lemma CreateSucceeds(s: State, p: Params, creator: Name, name: Name, fee: int, required: nat)
    requires p.config.interestBlocks > 0 && creator in s.tally.accounts && name !in s.tally.accounts && name != SELF
    requires required <= fee <= s.tally.accounts[creator].balance <= s.supply
    ensures CreateAccount(s, p, creator, name, fee, required).Some?
  {
    hide AdjustBalance, PayFee, TallySteps.WithAccount;
    var s1 := s.(tally := TallySteps.WithAccount(s.tally, name));
    NewAccount(s, name);
    FeePaid(s1, p, creator, required);
    var s2 := PayFee(s1, p, creator, required).value;
    if fee > required {
      Adjusts(s2, p, name, fee - required);
      Adjusts(AdjustBalance(s2, p, name, fee - required).value, p, creator, -(fee - required));
    }
  }

  lemma FeePaid(s: State, p: Params, a: Name, fee: nat)
    requires p.config.interestBlocks > 0 && a in s.tally.accounts && fee <= s.tally.accounts[a].balance
      && fee <= s.supply
    ensures PayFee(s, p, a, fee).Some?
    ensures var r := PayFee(s, p, a, fee).value;
      && r.tally.accounts.Keys == s.tally.accounts.Keys
      && forall b {:trigger r.tally.accounts[b]} :: b in r.tally.accounts ==>
        r.tally.accounts[b].balance == s.tally.accounts[b].balance - if b == a then fee else 0
  {
    hide AdjustBalance;
    Adjusts(s, p, a, -(fee as int));
  }

  lemma NewAccount(s: State, name: Name)
    requires name !in s.tally.accounts
    ensures var t := TallySteps.WithAccount(s.tally, name);
      t.accounts.Keys == s.tally.accounts.Keys + {name} && t.accounts[name].balance == 0
      && forall b {:trigger t.accounts[b]} :: b in s.tally.accounts ==> t.accounts[b] == s.tally.accounts[b]
  {}

  /** Clearing the null account never throws if it exists: what it holds is part of the supply. */
  lemma ClearIff(s: State, p: Params)
    requires Good(s, p)
    ensures ClearNull(s, p).Some? <==> NULL_ACCOUNT in s.tally.accounts
  {
    hide Good, AdjustBalance;
    GoodParams(s, p);
    if NULL_ACCOUNT in s.tally.accounts {
      SupplyCovers(s, p, NULL_ACCOUNT);
      Adjusts(s, p, NULL_ACCOUNT, -s.tally.accounts[NULL_ACCOUNT].balance);
      NullVesting(s, p);
    }
  }

  lemma NullVesting(s: State, p: Params)
    requires p.config.interestBlocks > 0 && NULL_ACCOUNT in s.tally.accounts
    ensures var d := -s.tally.accounts[NULL_ACCOUNT].balance;
      AdjustBalance(s, p, NULL_ACCOUNT, d).Some? ==>
        AdjustBalance(s, p, NULL_ACCOUNT, d).value.tally.accounts[NULL_ACCOUNT].vesting
          == s.tally.accounts[NULL_ACCOUNT].vesting
  {
    hide AdjustOne, TurnsLeft;
  }

  /** A promotion payment is made exactly if something is asked for and something is free. */
  lemma PromotionIff(s: State, p: Params, to: Name, amount: int)
    requires Good(s, p) && s.head <= p.config.coinbaseBlocks
    ensures PayPromotion(s, p, to, amount).Some? <==>
      && 0 < amount && to in s.tally.accounts
      && Economics.Locked(s.econ.initialPromotion, p.config, s.head) < s.econ.promotion
  {
    hide TallyGood, EscrowsGood, Balanced, AdjustBalance, Economics.Locked, NonNegative;
    PromotionStaysLocked(s.econ, p.config, amount, s.head);
    if to in s.tally.accounts && WithdrawPromotion(s.econ, p.config, amount, s.head).Some? {
      SupplyCovers(s, p, to);
      var (econ, paid) := WithdrawPromotion(s.econ, p.config, amount, s.head).value;
      Adjusts(s.(econ := econ), p, to, paid);
    }
  }

  /** New shares are considered for the blocks to the account's next turn, like coins; shares made of balance are not
      considered again. */
  lemma SharesAreConsidered(s: State, p: Params, a: Name, delta: int)
    requires p.config.interestBlocks > 0
    ensures CreateVesting(s, p, a, delta).Some? <==> a in s.tally.accounts && delta >= 0
    ensures CreateVesting(s, p, a, delta).Some? ==>
      var x, y := s.tally.accounts[a], CreateVesting(s, p, a, delta).value.tally.accounts[a];
      y == x.(vesting := x.vesting + delta,
              holdings := x.holdings + delta * TurnsLeft(x.id, s.head, p.config.interestBlocks))
    ensures Vest(s, a, delta).Some? <==> a in s.tally.accounts && delta <= s.tally.accounts[a].balance
    ensures Vest(s, a, delta).Some? ==>
      var x, y := s.tally.accounts[a], Vest(s, a, delta).value.tally.accounts[a];
      y == x.(balance := x.balance - delta, vesting := x.vesting + delta)
  {
    hide AdjustOne, TurnsLeft;
  }

  // ----- witnesses -----

  /** Whoever has the required shares is a witness with the given key; a new one has no votes and is last in time. */
  lemma WitnessIff(s: State, owner: Name, key: nat)
    ensures UpdateWitness(s, owner, key).Some?
      <==> owner in s.tally.accounts && s.requiredVesting <= s.tally.accounts[owner].vesting
    ensures UpdateWitness(s, owner, key).Some? ==>
      var r, ws := UpdateWitness(s, owner, key).value, s.tally.x.witnesses;
      && r.tally.x.witnesses.Keys == ws.Keys + {owner} && r.tally.x.witnesses[owner].key == key
      && (forall w {:trigger r.tally.x.witnesses[w]} :: w in ws && w != owner ==> r.tally.x.witnesses[w] == ws[w])
      && (owner in ws ==> r.tally.x.witnesses[owner] == ws[owner].(key := key) && r.names == s.names)
      && (owner !in ws ==>
            && r.tally.x.witnesses[owner].votes == 0 && r.tally.x.witnesses[owner].id == |s.names|
            && r.tally.x.witnesses[owner].scheduled == TWO_128 - 1 && r.names == s.names + [owner])
      && r.tally.accounts == s.tally.accounts && r.tally.e == s.tally.e && r.supply == s.supply
      && r.escrows == s.escrows
  {}

  /** A witness that stops keeps everything but its key. */
  lemma StopLeaves(s: State, w: Name)
    requires w in s.tally.x.witnesses
    ensures var ws := s.tally.x.witnesses;
      StopWitness(s, w) == Some(s.(tally := s.tally.(x := s.tally.x.(witnesses := ws[w := ws[w].(key := 0)]))))
  {}

  /** Nobody but the null account is kept from voting or setting a proxy by anything but the rules of the tally. */
  lemma VoteStepIff(s: State, p: Params, a: Name, w: Name, approve: bool)
    requires Good(s, p)
    ensures VoteWitness(s, p, a, w, approve).Some? <==>
      && a != NULL_ACCOUNT && a in s.tally.accounts && s.tally.e.proxy[a] == SELF && w in s.tally.x.witnesses
      && if approve then (a, w) !in s.tally.e.votes && s.tally.accounts[a].votedFor < p.voteLimit
         else (a, w) in s.tally.e.votes
  {
    hide TallySteps.Vote, CountsExact, Table, InTime, EscrowsGood, Balanced, PromotionCovered;
    TallySteps.VoteAcceptedIff(s.tally, a, w, approve, p.voteLimit);
  }

  lemma ProxyStepIff(s: State, p: Params, a: Name, q: Name)
    requires Good(s, p)
    ensures ProxyVotes(s, a, q).Some? <==>
      && a != NULL_ACCOUNT && a in s.tally.accounts && q != a && s.tally.e.proxy[a] != q
      && (q == SELF
          || (q in s.tally.accounts && (forall i: nat :: Hop(s.tally.e.proxy, q, i) != a)
              && exists k: nat :: k <= 2 && Hop(s.tally.e.proxy, q, k) in s.tally.accounts
                   && s.tally.e.proxy[Hop(s.tally.e.proxy, q, k)] == SELF))
  {
    hide ProxyChange.SetProxy, CountsExact, Table, InTime, EscrowsGood, Balanced, PromotionCovered, Hop;
    ProxyChange.ProxyAcceptedIff(s.tally, a, q);
  }

  // ----- escrows -----

  /** Opening needs three parties with the agent not one of the others, deadlines ahead in order, and the funds. */
  lemma OpenIff(s: State, p: Params, from: Name, id: nat, e: Escrow)
    requires Good(s, p) && !e.toApproved && !e.agentApproved && !e.disputed
    ensures EscrowTransfer(s, p, from, id, e).Some? <==>
      && e.fee >= 0 && e.balance > 0 && e.agent != from && e.agent != e.to && s.time < e.ratifyBy < e.expires
      && from in s.tally.accounts && e.to in s.tally.accounts && e.agent in s.tally.accounts
      && e.balance + e.fee <= s.tally.accounts[from].balance && (from, id) !in s.escrows
  {
    hide Good, AdjustBalance;
    GoodParams(s, p);
    Adjusts(s, p, from, -(e.balance + e.fee));
  }

  /** The receiver and the agent may each approve once, or reject as long as they have not approved, up to the
      deadline. */
  lemma ApproveIff(s: State, p: Params, k: EscrowKey, to: Name, agent: Name, who: Name, approve: bool)
    requires Good(s, p) && k in s.escrows
    ensures var e := s.escrows[k];
      EscrowApprove(s, p, k, to, agent, who, approve).Some? <==>
        && to == e.to && agent == e.agent && s.time <= e.ratifyBy
        && ((who == e.to && !e.toApproved) || (who == e.agent && !e.agentApproved))
  {
    hide TallyGood, AdjustBalance, PromotionCovered, Balanced, NonNegative;
    var e := s.escrows[k];
    SupplyCovers(s, p, k.0);
    SupplyCovers(s, p, e.agent);
    Adjusts(s, p, k.0, e.balance);
    Adjusts(AdjustBalance(s, p, k.0, e.balance).value, p, k.0, e.fee);
    Adjusts(s, p, e.agent, e.fee);
  }

  /** An approval sets the approver's flag and no other; the second one pays the agent. A rejection refunds. */
  lemma ApproveLeaves(s: State, p: Params, k: EscrowKey, to: Name, agent: Name, who: Name, approve: bool)
    requires Good(s, p) && EscrowApprove(s, p, k, to, agent, who, approve).Some?
    ensures k in s.escrows
    ensures var r, e := EscrowApprove(s, p, k, to, agent, who, approve).value, s.escrows[k];
      if !approve then Refunded(s, r, k) && r.escrows == s.escrows - {k}
      else
        var both := (e.toApproved || who == e.to) && (e.agentApproved || who == e.agent);
        && r.escrows == s.escrows[k := e.(toApproved := e.toApproved || who == e.to,
             agentApproved := e.agentApproved || who == e.agent, fee := if both then 0 else e.fee)]
        && forall b {:trigger Paid(s, r, b)} :: Paid(s, r, b) == if both && b == e.agent then e.fee else 0
  {
    hide TallyGood, AdjustBalance, Balance, PromotionCovered, Balanced, NonNegative;
    var r, e := EscrowApprove(s, p, k, to, agent, who, approve).value, s.escrows[k];
    if !approve {
      RefundPays(s, p, k);
      RefundKeepsOthers(s, p, k);
    } else if (e.toApproved || who == e.to) && (e.agentApproved || who == e.agent) {
      AdjustBalancePays(s, p, agent, e.fee);
      SameBalances(r, AdjustBalance(s, p, agent, e.fee).value);
    } else {
      SameBalances(r, s);
    }
  }

  lemma RefundKeepsOthers(s: State, p: Params, k: EscrowKey)
    requires p.config.interestBlocks > 0 && k in s.escrows && RefundEscrow(s, p, k).Some?
    ensures RefundEscrow(s, p, k).value.escrows == s.escrows - {k}
  {
    hide AdjustBalance;
    Adjusts(s, p, k.0, s.escrows[k].balance);
    Adjusts(AdjustBalance(s, p, k.0, s.escrows[k].balance).value, p, k.0, s.escrows[k].fee);
  }

  /** Either party may dispute a ratified escrow once, before it expires; nothing else changes. */
  lemma DisputeIff(s: State, p: Params, k: EscrowKey, to: Name, agent: Name, who: Name)
    requires Good(s, p) && k in s.escrows
    ensures var e := s.escrows[k];
      EscrowDispute(s, k, to, agent, who).Some? <==>
        && to == e.to && agent == e.agent && (who == k.0 || who == e.to)
        && e.toApproved && e.agentApproved && !e.disputed && s.time < e.expires
    ensures var r := EscrowDispute(s, k, to, agent, who);
      r.Some? ==> r.value == s.(escrows := s.escrows[k := s.escrows[k].(disputed := true)])
  {
    hide TallyGood, PromotionCovered, Balanced, NonNegative;
  }

  /**
   Releases of a ratified escrow go to one of the two parties. While it is disputed only the agent releases. Otherwise
   before it expires each party releases to the other, and from then on each to either.
   */
  lemma ReleaseIff(s: State, p: Params, k: EscrowKey, to: Name, agent: Name, who: Name, receiver: Name, amount: int)
    requires Good(s, p) && k in s.escrows
    ensures var e := s.escrows[k];
      EscrowRelease(s, p, k, to, agent, who, receiver, amount).Some? <==>
        && to == e.to && agent == e.agent && e.toApproved && e.agentApproved && 0 < amount <= e.balance
        && (if e.disputed then who == e.agent && (receiver == k.0 || receiver == e.to)
            else if s.time < e.expires then (who == k.0 && receiver == e.to) || (who == e.to && receiver == k.0)
            else (who == k.0 || who == e.to) && (receiver == k.0 || receiver == e.to))
  {
    hide TallyGood, AdjustBalance, PromotionCovered, Balanced, NonNegative;
    var e := s.escrows[k];
    SupplyCovers(s, p, k.0);
    SupplyCovers(s, p, e.to);
    Adjusts(s, p, receiver, amount);
  }

  /** The receiver gets the amount, and the escrow keeps the rest, or is gone if there is none. */
  lemma ReleaseLeaves(s: State, p: Params, k: EscrowKey, to: Name, agent: Name, who: Name, receiver: Name, amount: int)
    requires Good(s, p) && EscrowRelease(s, p, k, to, agent, who, receiver, amount).Some?
    ensures k in s.escrows
    ensures var r, e := EscrowRelease(s, p, k, to, agent, who, receiver, amount).value, s.escrows[k];
      && r.escrows == (if amount == e.balance then s.escrows - {k}
        else s.escrows[k := e.(balance := e.balance - amount)])
      && forall b {:trigger Paid(s, r, b)} :: Paid(s, r, b) == if b == receiver then amount else 0
  {
    hide TallyGood, AdjustBalance, Balance, PromotionCovered, Balanced, NonNegative;
    AdjustBalancePays(s, p, receiver, amount);
    SameBalances(EscrowRelease(s, p, k, to, agent, who, receiver, amount).value,
      AdjustBalance(s, p, receiver, amount).value);
  }

  /** An escrow goes back exactly if it is not ratified when its deadline is reached. */
  lemma ExpireIff(s: State, p: Params, k: EscrowKey)
    requires Good(s, p) && k in s.escrows
    ensures ExpireEscrow(s, p, k).Some?
      <==> !(s.escrows[k].toApproved && s.escrows[k].agentApproved) && s.escrows[k].ratifyBy <= s.time
    ensures var r := ExpireEscrow(s, p, k); r.Some? ==> Refunded(s, r.value, k) && r.value.escrows == s.escrows - {k}
  {
    hide TallyGood, AdjustBalance, Balance, PromotionCovered, Balanced, NonNegative;
    var e := s.escrows[k];
    SupplyCovers(s, p, k.0);
    Adjusts(s, p, k.0, e.balance);
    Adjusts(AdjustBalance(s, p, k.0, e.balance).value, p, k.0, e.fee);
    RefundPays(s, p, k);
    RefundKeepsOthers(s, p, k);
  }

  // ----- blocks -----

  /** A producer is rewarded unless no witness has been scheduled after the delay; the weight depends on its role. */
  lemma RewardIs(s: State, p: Params, producer: Name)
    requires Good(s, p) && producer in s.tally.x.witnesses && producer in s.tally.accounts
    ensures PayProducer(s, p, producer).None? <==> s.head > p.config.interestDelay && s.payFactor == 0
    ensures PayProducer(s, p, producer).Some? ==>
      var r, role := PayProducer(s, p, producer).value, s.tally.x.witnesses[producer].role;
      var weight := if role == Top then s.topWeight else if role == Timeshare then s.timeshareWeight else 0;
      var reward := r.supply - s.supply;
      && WithdrawMining(s.econ, p.config, s.head, weight, s.payFactor) == Some((r.econ, reward))
      && r.totalVesting == s.totalVesting + reward
      && r.tally.accounts.Keys == s.tally.accounts.Keys
      && r.tally.accounts[producer].vesting == s.tally.accounts[producer].vesting + reward
  {
    hide TallyGood, EscrowsGood, PromotionCovered, Balanced, AdjustOne, WithdrawMining, TurnsLeft;
    MiningRewardIs(s.econ, p.config, s.head, match s.tally.x.witnesses[producer].role
      case Timeshare => s.timeshareWeight
      case Top => s.topWeight
      case Unscheduled => 0, s.payFactor);
    WithdrawMiningConserves(s.econ, p.config, s.head, match s.tally.x.witnesses[producer].role
      case Timeshare => s.timeshareWeight
      case Top => s.topWeight
      case Unscheduled => 0, s.payFactor);
  }

  /** The weights of a round add up to as many block rewards as it has witnesses: one per block on average. */
  lemma RoundWeights(s: State, p: Params)
    requires Good(s, p) && Playable(s, p) && p.maxVoted <= p.max < 86
    ensures var r := Reschedule(s, p).value;
      var round := Schedule.RoundOf(s.tally.x.witnesses, s.names, s.tally.e.now, p.maxVoted, p.max);
      var tops, others := |round.elected|, |round.runners|;
      && r.topWeight == tops + others
      && tops * r.topWeight + others * r.timeshareWeight == (tops + others) * r.payFactor
      && r.timeshareWeight == 3 * r.topWeight
  {
    hide Exact, CountsExact, InTime, EscrowsGood, PromotionCovered, Balanced, NonNegative, Schedule.AfterRound,
      Schedule.RoundOf;
    var round := Schedule.RoundOf(s.tally.x.witnesses, s.names, s.tally.e.now, p.maxVoted, p.max);
    RoundFits(s, p);
    assert 3 * |round.elected + round.runners| % 256 == 3 * |round.elected + round.runners|;
  }

  lemma RoundFits(s: State, p: Params)
    requires Good(s, p) && Playable(s, p) && p.maxVoted <= p.max
    ensures var round := Schedule.RoundOf(s.tally.x.witnesses, s.names, s.tally.e.now, p.maxVoted, p.max);
      |round.elected + round.runners| <= p.max
  {
    hide Exact, CountsExact, InTime, EscrowsGood, PromotionCovered, Balanced, NonNegative, Election.Elected,
      Election.Runners;
    Election.SizeAssertionHolds(s.tally.x.witnesses, s.names, p.maxVoted, p.max);
  }

  /** Time only moves forward; the supply at the last block is recorded, except for genesis. */
  lemma BlockIff(s: State, p: Params, time: nat)
    requires Good(s, p)
    ensures NextBlock(s, p, time).Some? <==> s.time < time
    ensures NextBlock(s, p, time).Some? ==>
      var r := NextBlock(s, p, time).value;
      && r.head == s.head + 1 && r.time == time && r == s.(head := r.head, time := time, econ := r.econ)
      && r.econ == if s.head == 0 then s.econ else RecordBlock(s.econ, p.config, s.head, s.supply)
  {
    hide TallyGood, EscrowsGood, PromotionCovered, Balanced, NonNegative, RecordBlock;
  }
}
