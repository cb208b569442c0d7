/** The life of one escrow: who is paid how much between its creation and its removal. */
module EscrowLife {
  import opened ChainTypes
  import opened VoteTally
  import opened Economics
  import Schedule
  import opened Ledger
  import opened LedgerInvariants
  import opened LedgerRuns

  /** The steps that act on an open escrow. */
  predicate Concerns(step: Step, k: EscrowKey) {
    match step
    case ApproveStep(j, _, _, _, _) => j == k
    case DisputeStep(j, _, _, _) => j == k
    case ReleaseStep(j, _, _, _, _, _) => j == k
    case ExpireStep(j) => j == k
    case _ => false
  }

  function Balance(s: State, b: Name): int {
    if b in s.tally.accounts then s.tally.accounts[b].balance else 0
  }

  predicate Ratified(e: Escrow) {
    e.toApproved && e.agentApproved
  }

  // ----- one step -----

  lemma AdjustBalancePays(s: State, p: Params, a: Name, delta: int)
    requires p.config.interestBlocks > 0 && AdjustBalance(s, p, a, delta).Some?
    ensures var r := AdjustBalance(s, p, a, delta).value;
      && r == s.(tally := r.tally)
      && forall b {:trigger Balance(r, b)} :: Balance(r, b) == Balance(s, b) + if b == a then delta else 0
  {
    hide AdjustOne, TurnsLeft;
  }

  /** What a step on the escrow pays to an account: the change of that account's balance. */
  ghost function Paid(s: State, r: State, b: Name): int {
    Balance(r, b) - Balance(s, b)
  }

  /** Everything goes back to the sender. */
  ghost predicate Refunded(s: State, r: State, k: EscrowKey) {
    && k in s.escrows && k !in r.escrows
    && forall b {:trigger Paid(s, r, b)} ::
      Paid(s, r, b) == if b == k.0 then s.escrows[k].balance + s.escrows[k].fee else 0
  }

  /** The second approval pays the agent's fee. */
  ghost predicate Ratifies(s: State, r: State, k: EscrowKey) {
    && k in s.escrows && k in r.escrows
    && Ratified(r.escrows[k]) && r.escrows[k].fee == 0
    && r.escrows[k].(fee := s.escrows[k].fee, toApproved := true, agentApproved := true)
       == s.escrows[k].(toApproved := true, agentApproved := true)
    && forall b {:trigger Paid(s, r, b)} :: Paid(s, r, b) == if b == s.escrows[k].agent then s.escrows[k].fee else 0
  }

  /** One of the two parties gets a part of the amount, or all of it. */
  ghost predicate Releases(s: State, r: State, k: EscrowKey, receiver: Name, amount: int) {
    && k in s.escrows && (receiver == k.0 || receiver == s.escrows[k].to)
    && 0 < amount <= s.escrows[k].balance
    && (k in r.escrows <==> amount < s.escrows[k].balance)
    && (k in r.escrows ==> r.escrows[k] == s.escrows[k].(balance := s.escrows[k].balance - amount))
    && forall b {:trigger Paid(s, r, b)} :: Paid(s, r, b) == if b == receiver then amount else 0
  }

  /** Nothing is paid; at most a flag is set. */
  ghost predicate Idles(s: State, r: State, k: EscrowKey) {
    && k in s.escrows && k in r.escrows
    && r.escrows[k] == s.escrows[k].(toApproved := r.escrows[k].toApproved,
      agentApproved := r.escrows[k].agentApproved, disputed := r.escrows[k].disputed)
    && (Ratified(r.escrows[k]) <==> Ratified(s.escrows[k]))
    && forall b {:trigger Paid(s, r, b)} :: Paid(s, r, b) == 0
  }

  lemma RefundPays(s: State, p: Params, k: EscrowKey)
    requires p.config.interestBlocks > 0 && k in s.escrows && RefundEscrow(s, p, k).Some?
    ensures Refunded(s, RefundEscrow(s, p, k).value, k)
  {
    hide AdjustBalance, Balance;
    var e := s.escrows[k];
    var s1 := AdjustBalance(s, p, k.0, e.balance).value;
    AdjustBalancePays(s, p, k.0, e.balance);
    var s2 := AdjustBalance(s1, p, k.0, e.fee).value;
    AdjustBalancePays(s1, p, k.0, e.fee);
    var r := RefundEscrow(s, p, k).value;
    SameBalances(r, s2);
  }

  lemma SameBalances(r: State, s: State)
    requires s.tally.accounts == r.tally.accounts
    ensures forall b {:trigger Balance(r, b)} :: Balance(r, b) == Balance(s, b)
  {}

  /** An unratified escrow can only idle, be ratified or go back to its sender; a ratified one can only idle or
      release to one of its two parties. */
  lemma StepPays(s: State, p: Params, step: Step, k: EscrowKey)
    requires Good(s, p) && Playable(s, p) && Apply(s, p, step).Some? && k in s.escrows && Concerns(step, k)
    ensures var r := Apply(s, p, step).value;
      if Ratified(s.escrows[k])
      then Idles(s, r, k) || exists receiver, amount :: Releases(s, r, k, receiver, amount)
      else Idles(s, r, k) || Refunded(s, r, k) || Ratifies(s, r, k)
  {
    hide TallyGood, AdjustBalance, Balance, PromotionCovered, Balanced, NonNegative;
    var e := s.escrows[k];
    var r := Apply(s, p, step).value;
    match step
    case ApproveStep(_, to, agent, who, approve) =>
      assert !Ratified(e);
      if !approve {
        RefundPays(s, p, k);
      } else if (e.toApproved || who == to) && (e.agentApproved || who == agent) {
        AdjustBalancePays(s, p, agent, e.fee);
        SameBalances(r, AdjustBalance(s, p, agent, e.fee).value);
        assert Ratifies(s, r, k);
      } else {
        SameBalances(r, s);
        assert Idles(s, r, k);
      }
    case DisputeStep(_, _, _, _) =>
      SameBalances(r, s);
      assert Idles(s, r, k);
    case ReleaseStep(_, _, _, _, receiver, amount) =>
      AdjustBalancePays(s, p, receiver, amount);
      SameBalances(r, AdjustBalance(s, p, receiver, amount).value);
      assert Releases(s, r, k, receiver, amount);
    case ExpireStep(_) =>
      RefundPays(s, p, k);
  }

  /** A new escrow takes its amount and fee from the sender, from nobody else, and nobody has approved it. */
  lemma EscrowOpens(s: State, p: Params, from: Name, id: nat, e: Escrow)
    requires p.config.interestBlocks > 0 && EscrowTransfer(s, p, from, id, e).Some?
    ensures var r := EscrowTransfer(s, p, from, id, e).value;
      && r.escrows == s.escrows[(from, id) := e] && (from, id) !in s.escrows && !e.toApproved && !e.agentApproved
      && !e.disputed
      && forall b {:trigger Paid(s, r, b)} :: Paid(s, r, b) == if b == from then -(e.balance + e.fee) else 0
  {
    hide AdjustBalance, Balance;
    AdjustBalancePays(s, p, from, -(e.balance + e.fee));
    SameBalances(EscrowTransfer(s, p, from, id, e).value, AdjustBalance(s, p, from, -(e.balance + e.fee)).value);
  }

  lemma BalancesKeepEscrows(p: Params)
    requires p.config.interestBlocks > 0
    ensures forall s, a, d {:trigger AdjustBalance(s, p, a, d)} ::
      AdjustBalance(s, p, a, d).Some? ==> AdjustBalance(s, p, a, d).value.escrows == s.escrows
  {
    hide AdjustOne, TurnsLeft;
  }

  /** Every other step leaves an open escrow alone. */
  lemma OtherSteps(s: State, p: Params, step: Step, k: EscrowKey)
    requires Playable(s, p) && Apply(s, p, step).Some? && k in s.escrows && !Concerns(step, k)
    ensures k in Apply(s, p, step).value.escrows && Apply(s, p, step).value.escrows[k] == s.escrows[k]
  {
    hide AdjustBalance, AdjustOne, AdjustAll, AddFee, InterestFrom, MayRelease, Economics.Locked, WithdrawMining,
      TurnsLeft, Schedule.RoundOf;
    BalancesKeepEscrows(p);
    if step.InterestStep? {
      InterestKeeps(s, p, s.head % p.config.interestBlocks, 0);
    }
  }

  /** Once removed, an escrow pays nothing: every step on it throws. */
  lemma NothingAfterRemoval(s: State, p: Params, step: Step, k: EscrowKey)
    requires Playable(s, p) && k !in s.escrows && Concerns(step, k)
    ensures Apply(s, p, step).None?
  {
    hide AdjustBalance;
  }

  // ----- the whole life -----

  /** What the steps on the escrow pay to b from here until it is removed or the run ends. */
  ghost function Payout(s: State, p: Params, steps: seq<Step>, k: EscrowKey, b: Name): int
    decreases |steps|
  {
    if steps == [] || k !in s.escrows then 0
    else
      var r := Next(s, p, steps[0]);
      (if Concerns(steps[0], k) then Paid(s, r, b) else 0) + Payout(r, p, steps[1..], k, b)
  }

  /** The escrow as the run leaves it; None if the run removed it. */
  ghost function Rest(s: State, p: Params, steps: seq<Step>, k: EscrowKey): Option<Escrow>
    decreases |steps|
  {
    if k !in s.escrows then None
    else if steps == [] then Some(s.escrows[k])
    else Rest(Next(s, p, steps[0]), p, steps[1..], k)
  }

  /** Both approvals were present at some point. */
  ghost predicate WasRatified(s: State, p: Params, steps: seq<Step>, k: EscrowKey)
    decreases |steps|
  {
    && k in s.escrows
    && (Ratified(s.escrows[k]) || (steps != [] && WasRatified(Next(s, p, steps[0]), p, steps[1..], k)))
  }

  ghost function Payouts(s: State, p: Params, steps: seq<Step>, k: EscrowKey): nat -> int {
    (b: nat) => Payout(s, p, steps, k, b)
  }

  /** How payouts relate to an escrow e from `from`, of which a run leaves `rest`. */
  ghost predicate Settles(pay: nat -> int, from: Name, e: Escrow, rest: Option<Escrow>, ratified: bool) {
    && (rest.Some? ==> rest.value.to == e.to && rest.value.agent == e.agent)
    && (forall b {:trigger pay(b)} :: pay(b) >= 0 && (b != from && b != e.to && b != e.agent ==> pay(b) == 0))
    && if ratified
       then // the fee to the agent; the parties, who may be one account, get what is no longer held
         && pay(e.agent) == e.fee
         && pay(from) + (if e.to == from then 0 else pay(e.to))
           == e.balance - (if rest.Some? then rest.value.balance else 0)
         && (rest.Some? ==> rest.value.fee == 0 && rest.value.balance > 0)
       else
         && (rest.Some? ==> rest.value.balance == e.balance && rest.value.fee == e.fee)
         && forall b {:trigger pay(b)} :: pay(b) == if rest.None? && b == from then e.balance + e.fee else 0
  }

  /**
   Over every run, an escrow that is never ratified pays nothing while it is open and everything back to its
   sender when it is removed. One that is ratified pays its fee to the agent once, and of its amount exactly
   what it no longer holds, only to the sender and the receiver.
   */
  lemma {:induction false} EscrowSettles(s: State, p: Params, steps: seq<Step>, k: EscrowKey)
    requires Good(s, p) && k in s.escrows
    ensures Settles(Payouts(s, p, steps, k), k.0, s.escrows[k], Rest(s, p, steps, k), WasRatified(s, p, steps, k))
    decreases |steps|
  {
    hide Good, Apply, Playable, Paid, Next, Settles, Moves, Concerns;
    EscrowIsGood(s, p, k);
    if steps == [] {
      SettledAtOnce(Payouts(s, p, steps, k), k.0, s.escrows[k]);
    } else {
      var step, r := steps[0], Next(s, p, steps[0]);
      StepMoves(s, p, step, k);
      assert Good(r, p) by {
        RunConserves(s, p, [step]);
        assert [step][1..] == [] && After(s, p, [step]) == r;
      }
      var pay, tail := Payouts(s, p, steps, k), Payouts(r, p, steps[1..], k);
      if k in r.escrows {
        EscrowSettles(r, p, steps[1..], k);
        EscrowIsGood(r, p, k);
      }
      Prepend(s, r, k, Concerns(step, k), pay, tail, Rest(r, p, steps[1..], k), WasRatified(r, p, steps[1..], k));
    }
  }

  ghost predicate GoodEscrow(k: EscrowKey, e: Escrow) {
    && e.balance > 0 && e.fee >= 0 && e.agent != e.to && e.agent != k.0
    && (Ratified(e) ==> e.fee == 0)
  }

  lemma EscrowIsGood(s: State, p: Params, k: EscrowKey)
    requires Good(s, p) && k in s.escrows
    ensures GoodEscrow(k, s.escrows[k])
  {
    hide TallyGood, PromotionCovered, Balanced, NonNegative;
  }

  lemma SettledAtOnce(pay: nat -> int, from: Name, e: Escrow)
    requires GoodEscrow((from, 0), e) && forall b {:trigger pay(b)} :: pay(b) == 0
    ensures Settles(pay, from, e, Some(e), Ratified(e))
  {}

  /** A throwing step leaves everything as it was. */
  lemma StepIdles(s: State, p: Params, step: Step, k: EscrowKey)
    requires k in s.escrows && !(Playable(s, p) && Apply(s, p, step).Some?)
    ensures Idles(s, Next(s, p, step), k)
  {
    hide Apply, Balance;
  }

  /** What the first step of a run may do to an open escrow. */
  ghost predicate Moves(s: State, r: State, k: EscrowKey, concerned: bool) {
    && k in s.escrows
    && if !concerned then k in r.escrows && r.escrows[k] == s.escrows[k]
       else if Ratified(s.escrows[k]) then Idles(s, r, k) || exists receiver, amount ::
         Releases(s, r, k, receiver, amount)
       else Idles(s, r, k) || Refunded(s, r, k) || Ratifies(s, r, k)
  }

  lemma StepMoves(s: State, p: Params, step: Step, k: EscrowKey)
    requires Good(s, p) && k in s.escrows
    ensures Moves(s, Next(s, p, step), k, Concerns(step, k))
  {
    hide Good, Apply, Playable, Idles, Releases, Refunded, Ratifies, Concerns;
    if !(Playable(s, p) && Apply(s, p, step).Some?) {
      StepIdles(s, p, step, k);
    } else if Concerns(step, k) {
      StepPays(s, p, step, k);
    } else {
      OtherSteps(s, p, step, k);
    }
  }

  /** One step before a run that settles. */
  lemma Prepend(s: State, r: State, k: EscrowKey, concerned: bool, pay: nat -> int, tail: nat -> int,
                rest: Option<Escrow>, ratified: bool)
    requires Moves(s, r, k, concerned) && GoodEscrow(k, s.escrows[k])
    requires forall b {:trigger pay(b)} :: pay(b) == (if concerned then Paid(s, r, b) else 0) + tail(b)
    requires if k in r.escrows then GoodEscrow(k, r.escrows[k]) && Settles(tail, k.0, r.escrows[k], rest, ratified)
             else rest.None? && !ratified && forall b {:trigger tail(b)} :: tail(b) == 0
    requires k in r.escrows && Ratified(r.escrows[k]) ==> ratified
    ensures Settles(pay, k.0, s.escrows[k], rest, Ratified(s.escrows[k]) || ratified)
  {
    hide Paid;
  }
}
