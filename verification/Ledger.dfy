/**
 The ledger: balances, vesting shares, escrows, the supply and the economic pools, as one state with the
 vote tally, and every operation that moves coins. None stands for an exception, after which the undo
 session leaves the state as it was.
 */
module Ledger {
  import opened ChainTypes
  import opened ProxyForest
  import ProxyChange
  import TallySteps
  import opened Economics
  import opened Schedule

  const WITHDRAW_INTERVALS: nat := 27
  const WITHDRAW_INTERVAL_SECONDS: nat := 86400

  datatype Escrow = Escrow(
    to: Name,
    agent: Name,
    ratifyBy: nat,
    expires: nat,
    balance: int,
    fee: int,
    toApproved: bool,
    agentApproved: bool,
    disputed: bool)

  type EscrowKey = (Name, nat)

  /** Chain parameters that genesis fixes. */
  datatype Params = Params(
    config: Config,
    maxVoted: nat,
    max: nat,
    voteLimit: nat)

  datatype State = State(
    tally: Tally,
    names: seq<Name>,
    escrows: map<EscrowKey, Escrow>,
    supply: int,
    totalVesting: int,
    econ: Economy,
    head: nat,
    time: nat,
    requiredVesting: int,
    topWeight: nat,
    timeshareWeight: nat,
    payFactor: nat)

  // ----- moving coins -----

  /** How many blocks of the present interest period an account with this id has still to come. */
  function TurnsLeft(id: nat, head: nat, period: nat): nat
    requires period > 0
  {
    var mine, now := id % period, head % period;
    if mine >= now then mine - now else mine + period - now
  }

  /** Changes a balance, which may not become negative, and sends the change up the proxy chain. */
  function AdjustBalance(s: State, p: Params, a: Name, delta: int): Option<State>
    requires p.config.interestBlocks > 0
  {
    if a !in s.tally.accounts then None
    else
      var x := s.tally.accounts[a];
      var y := x.(balance := x.balance + delta,
                  holdings := x.holdings + delta * TurnsLeft(x.id, s.head, p.config.interestBlocks));
      if y.balance < 0 then None
      else Some(s.(tally := Credited(s.tally, a, y, delta)))
  }

  function CreateVesting(s: State, p: Params, a: Name, delta: int): Option<State>
    requires p.config.interestBlocks > 0
  {
    if a !in s.tally.accounts || delta < 0 then None
    else
      var x := s.tally.accounts[a];
      var y := x.(vesting := x.vesting + delta,
                  holdings := x.holdings + delta * TurnsLeft(x.id, s.head, p.config.interestBlocks));
      Some(s.(tally := Credited(s.tally, a, y, delta)))
  }

  function Rewrite(s: State, a: Name, x: Account): State {
    s.(tally := s.tally.(accounts := s.tally.accounts[a := x]))
  }

  /** Turns balance into vesting shares. */
  function Vest(s: State, a: Name, delta: int): Option<State> {
    if a !in s.tally.accounts || s.tally.accounts[a].balance < delta then None
    else
      var x := s.tally.accounts[a];
      Some(Rewrite(s, a, x.(balance := x.balance - delta, vesting := x.vesting + delta))
             .(totalVesting := s.totalVesting + delta))
  }

  function AdjustSupply(s: State, delta: int): Option<State> {
    if s.supply + delta < 0 then None else Some(s.(supply := s.supply + delta))
  }

  function PayFee(s: State, p: Params, a: Name, fee: int): Option<State>
    requires p.config.interestBlocks > 0
  {
    if fee < 0 || a !in s.tally.accounts then None
    else if fee == 0 then Some(s)
    else if s.tally.accounts[a].balance < fee then None
    else
      var s1 :- AdjustBalance(s, p, a, -fee);
      var s2 :- AdjustSupply(s1, -fee);
      Some(s2.(econ := AddFee(s2.econ, p.config, fee)))
  }

  // ----- the evaluators -----

  function Transfer(s: State, p: Params, from: Name, to: Name, amount: int): Option<State>
    requires p.config.interestBlocks > 0
  {
    if amount <= 0 || from !in s.tally.accounts || s.tally.accounts[from].balance < amount then None
    else
      var s1 :- AdjustBalance(s, p, from, -amount);
      AdjustBalance(s1, p, to, amount)
  }

  /** `to` may be empty, which means the sender. */
  function TransferToVesting(s: State, p: Params, from: Name, to: Name, amount: int): Option<State>
    requires p.config.interestBlocks > 0
  {
    var receiver := if to == SELF then from else to;
    if amount <= 0 || from !in s.tally.accounts || receiver !in s.tally.accounts then None
    else if s.tally.accounts[from].balance < amount then None
    else if receiver == from then Vest(s, from, amount)
    else
      var s1 :- AdjustBalance(s, p, from, -amount);
      var s2 :- AdjustBalance(s1, p, receiver, amount);
      Vest(s2, receiver, amount)
  }

  /** Starts, changes or stops the conversion of vesting shares. */
  function WithdrawVesting(s: State, a: Name, amount: nat): Option<State> {
    if a !in s.tally.accounts || s.tally.accounts[a].vesting < amount then None
    else
      var x := s.tally.accounts[a];
      if amount == 0 then
        if x.power.rate == 0 then None else Some(Rewrite(s, a, x.(power := Withdrawal(0, None, 0, 0))))
      else
        var rate := if amount / WITHDRAW_INTERVALS == 0 then 1 else amount / WITHDRAW_INTERVALS;
        var ws := s.tally.x.witnesses;
        if x.power.rate == rate then None
        else if a in ws && ws[a].key != NO_KEY && x.vesting - amount < s.requiredVesting then None
        else Some(Rewrite(s, a, x.(power := Withdrawal(rate, Some(s.time + WITHDRAW_INTERVAL_SECONDS), amount, 0))))
  }

  /** `required` is the median creation fee; the excess becomes the new account's balance. */
  function CreateAccount(s: State, p: Params, creator: Name, name: Name, fee: int, required: nat): Option<State>
    requires p.config.interestBlocks > 0
  {
    if creator !in s.tally.accounts || s.tally.accounts[creator].balance < fee || fee < required then None
    else if name == SELF || name in s.tally.accounts then None
    else
      var s1 := s.(tally := TallySteps.WithAccount(s.tally, name));
      var s2 :- PayFee(s1, p, creator, required);
      if fee == required then Some(s2)
      else
        var s3 :- AdjustBalance(s2, p, name, fee - required);
        AdjustBalance(s3, p, creator, -(fee - required))
  }

  /** Registers a witness or changes its signing key. */
  function UpdateWitness(s: State, owner: Name, key: nat): Option<State> {
    if owner !in s.tally.accounts || s.tally.accounts[owner].vesting < s.requiredVesting then None
    else
      var ws := s.tally.x.witnesses;
      var known := owner in ws;
      var w := if known then ws[owner].(key := key) else FreshWitness(|s.names|, key);
      Some(s.(tally := s.tally.(x := s.tally.x.(witnesses := ws[owner := w])),
              names := if known then s.names else s.names + [owner]))
  }

  /** A witness stops producing: by its own operation, or because it missed blocks for a day. */
  function StopWitness(s: State, w: Name): Option<State> {
    if w !in s.tally.x.witnesses then None
    else
      var ws := s.tally.x.witnesses;
      Some(s.(tally := s.tally.(x := s.tally.x.(witnesses := ws[w := ws[w].(key := NO_KEY)]))))
  }

  function VoteWitness(s: State, p: Params, a: Name, w: Name, approve: bool): Option<State> {
    if a == NULL_ACCOUNT then None
    else
      var t :- TallySteps.Vote(s.tally, a, w, approve, p.voteLimit);
      Some(s.(tally := t))
  }

  function ProxyVotes(s: State, a: Name, q: Name): Option<State> {
    if a == NULL_ACCOUNT then None
    else
      var t :- ProxyChange.SetProxy(s.tally, a, q);
      Some(s.(tally := t))
  }

  function EscrowTransfer(s: State, p: Params, from: Name, id: nat, e: Escrow): Option<State>
    requires p.config.interestBlocks > 0
  {
    if e.fee < 0 || e.balance <= 0 || from == e.agent || e.to == e.agent || e.expires <= e.ratifyBy then None
    else if e.toApproved || e.agentApproved || e.disputed then None
    else if from !in s.tally.accounts || e.to !in s.tally.accounts || e.agent !in s.tally.accounts then None
    else if e.ratifyBy <= s.time || e.expires <= s.time then None
    else if s.tally.accounts[from].balance < e.balance + e.fee || (from, id) in s.escrows then None
    else
      var s1 :- AdjustBalance(s, p, from, -(e.balance + e.fee));
      Some(s1.(escrows := s1.escrows[(from, id) := e]))
  }

  /** Returns everything to the sender and closes the escrow. */
  function RefundEscrow(s: State, p: Params, k: EscrowKey): Option<State>
    requires p.config.interestBlocks > 0 && k in s.escrows
  {
    var s1 :- AdjustBalance(s, p, k.0, s.escrows[k].balance);
    var s2 :- AdjustBalance(s1, p, k.0, s.escrows[k].fee);
    Some(s2.(escrows := s2.escrows - {k}))
  }

  function EscrowApprove(s: State, p: Params, k: EscrowKey, to: Name, agent: Name, who: Name,
                         approve: bool): Option<State>
    requires p.config.interestBlocks > 0
  {
    if (who != to && who != agent) || k !in s.escrows then None
    else
      var e := s.escrows[k];
      if e.to != to || e.agent != agent || e.ratifyBy < s.time then None
      else if (who == to && e.toApproved) || (who == agent && e.agentApproved) then None
      else if !approve then RefundEscrow(s, p, k)
      else
        var f := e.(toApproved := e.toApproved || who == to, agentApproved := e.agentApproved || who == agent);
        if f.toApproved && f.agentApproved then
          var s1 :- AdjustBalance(s, p, agent, f.fee);
          Some(s1.(escrows := s1.escrows[k := f.(fee := 0)]))
        else Some(s.(escrows := s.escrows[k := f]))
  }

  function EscrowDispute(s: State, k: EscrowKey, to: Name, agent: Name, who: Name): Option<State> {
    if (who != k.0 && who != to) || k.0 !in s.tally.accounts || k !in s.escrows then None
    else
      var e := s.escrows[k];
      if e.expires <= s.time || !(e.toApproved && e.agentApproved) || e.disputed || e.to != to
        || e.agent != agent then None
      else Some(s.(escrows := s.escrows[k := e.(disputed := true)]))
  }

  /** Who may release an escrow to whom. */
  predicate MayRelease(e: Escrow, from: Name, who: Name, receiver: Name, time: nat) {
    && (receiver == from || receiver == e.to)
    && e.toApproved && e.agentApproved
    && (if e.disputed then who == e.agent
        else
          && (who == from || who == e.to)
          && (e.expires > time ==> if who == from then receiver == e.to else receiver == from))
  }

  function EscrowRelease(s: State, p: Params, k: EscrowKey, to: Name, agent: Name, who: Name, receiver: Name,
                         amount: int): Option<State>
    requires p.config.interestBlocks > 0
  {
    if amount <= 0 || k.0 !in s.tally.accounts || k !in s.escrows then None
    else
      var e := s.escrows[k];
      if e.balance < amount || e.to != to || e.agent != agent || !MayRelease(e, k.0, who, receiver, s.time) then None
      else
        var s1 :- AdjustBalance(s, p, receiver, amount);
        Some(s1.(escrows := if e.balance == amount then s1.escrows - {k}
                            else s1.escrows[k := e.(balance := e.balance - amount)]))
  }

  function PayPromotion(s: State, p: Params, to: Name, amount: int): Option<State>
    requires p.config.interestBlocks > 0 && p.config.coinbaseBlocks > 0
  {
    if to !in s.tally.accounts || amount <= 0 then None
    else
      var (econ, paid) :- WithdrawPromotion(s.econ, p.config, amount, s.head);
      var s1 :- AdjustBalance(s.(econ := econ), p, to, paid);
      AdjustSupply(s1, paid)
  }

  // ----- what a block does by itself -----

  /** An escrow that was not ratified in time goes back to its sender. */
  function ExpireEscrow(s: State, p: Params, k: EscrowKey): Option<State>
    requires p.config.interestBlocks > 0
  {
    if k !in s.escrows then None
    else
      var e := s.escrows[k];
      if (e.toApproved && e.agentApproved) || s.time < e.ratifyBy then None else RefundEscrow(s, p, k)
  }

  /** The interest of one account, and the coins it adds. */
  function Interest(s: State, p: Params, a: Name): Option<(State, int)>
    requires p.config.interestBlocks > 0 && p.config.coinbaseBlocks > 0 && p.config.interestFeesTime > 0
    requires a in s.tally.accounts
  {
    var c, x := p.config, s.tally.accounts[a];
    var (econ, interest) :- if s.head > c.interestDelay
                            then WithdrawInterests(s.econ, c, x.holdings,
                                                   if c.interestBlocks < s.head then c.interestBlocks else s.head)
                            else Some((s.econ, 0));
    var y := x.(balance := x.balance + interest, holdings := (Total(x) + interest) * c.interestBlocks);
    var t := if interest > 0 then Credited(s.tally, a, y, interest) else s.tally.(accounts := s.tally.accounts[a := y]);
    Some((s.(econ := econ, tally := t), interest))
  }

  /** Pays interest to every interestBlocks-th account from `id` on; `paid` accumulates the new coins. */
  function InterestFrom(s: State, p: Params, id: nat, paid: int): Option<(State, int)>
    requires p.config.interestBlocks > 0 && p.config.coinbaseBlocks > 0 && p.config.interestFeesTime > 0
    decreases |s.tally.ids| - id
  {
    if id >= |s.tally.ids| || s.tally.ids[id] !in s.tally.accounts then Some((s, paid))
    else
      var (r, interest) :- Interest(s, p, s.tally.ids[id]);
      InterestFrom(r, p, id + p.config.interestBlocks, paid + interest)
  }

  function ProcessInterests(s: State, p: Params): Option<State>
    requires p.config.interestBlocks > 0 && p.config.coinbaseBlocks > 0 && p.config.interestFeesTime > 0
  {
    var (s1, paid) :- InterestFrom(s, p, s.head % p.config.interestBlocks, 0);
    AdjustSupply(s1, paid)
  }

  /** Burns what the null account holds. */
  function ClearNull(s: State, p: Params): Option<State>
    requires p.config.interestBlocks > 0
  {
    if NULL_ACCOUNT !in s.tally.accounts then None
    else
      var x := s.tally.accounts[NULL_ACCOUNT];
      var s1 :- if x.balance > 0 then AdjustBalance(s, p, NULL_ACCOUNT, -x.balance) else Some(s);
      var y := s1.tally.accounts[NULL_ACCOUNT];
      var s2 := if y.vesting > 0
                then Rewrite(s1, NULL_ACCOUNT, y.(vesting := 0)).(totalVesting := s1.totalVesting - y.vesting)
                else s1;
      var burned := Cleared(s);
      if burned > 0 then AdjustSupply(s2, -burned) else Some(s2)
  }

  /** What clearing the null account takes out of existence. */
  function Cleared(s: State): int {
    if NULL_ACCOUNT !in s.tally.accounts then 0
    else
      var x := s.tally.accounts[NULL_ACCOUNT];
      (if x.balance > 0 then x.balance else 0) + (if x.vesting > 0 then x.vesting else 0)
  }

  /** Rewards the block's producer with vesting shares. */
  function PayProducer(s: State, p: Params, producer: Name): Option<State>
    requires p.config.interestBlocks > 0 && p.config.blocksPerDay > 0
  {
    if producer !in s.tally.x.witnesses then None
    else
      var nominator := match s.tally.x.witnesses[producer].role
        case Timeshare => s.timeshareWeight
        case Top => s.topWeight
        case Unscheduled => 0;
      var (econ, reward) :- WithdrawMining(s.econ, p.config, s.head, nominator, s.payFactor);
      var s1 :- CreateVesting(s.(econ := econ), p, producer, reward);
      Some(s1.(supply := s1.supply + reward, totalVesting := s1.totalVesting + reward))
  }

  function Least(a: int, b: int): int {
    if a <= b then a else b
  }

  /** One due conversion of vesting shares into balance. */
  function ConvertVesting(s: State, a: Name): Option<State> {
    if a !in s.tally.accounts then None
    else
      var x := s.tally.accounts[a];
      var w := x.power;
      if w.next.None? || s.time < w.next.value || w.rate <= 0 then None
      else
        var amount := Least(x.vesting, if w.toWithdraw - w.withdrawn < w.rate then w.toWithdraw % w.rate else w.rate);
        var withdrawn := w.withdrawn + amount;
        var power := if withdrawn >= w.toWithdraw || x.vesting - amount == 0
                     then w.(rate := 0, next := None, withdrawn := withdrawn)
                     else w.(next := Some(w.next.value + WITHDRAW_INTERVAL_SECONDS), withdrawn := withdrawn);
        Some(Rewrite(s, a, x.(vesting := x.vesting - amount, balance := x.balance + amount, power := power))
               .(totalVesting := s.totalVesting - amount))
  }

  /** A scheduling round. */
  function Reschedule(s: State, p: Params): Option<State>
    requires forall a :: a in s.names ==> a in s.tally.x.witnesses
  {
    var t := s.tally;
    var r := RoundOf(t.x.witnesses, s.names, t.e.now, p.maxVoted, p.max);
    var active := |r.elected + r.runners|;
    Some(s.(tally := t.(e := t.e.(now := TimeAfter(r)), x := t.x.(witnesses := AfterRound(t.x.witnesses, r))),
            topWeight := active,
            timeshareWeight := 3 * active % 256,
            payFactor := |r.elected| + 3 * |r.runners|))
  }

  /** The next block begins; the supply of the last one, unless that is genesis, is recorded. */
  function NextBlock(s: State, p: Params, time: nat): Option<State>
    requires p.config.interestBlocks > 0
  {
    if time <= s.time then None
    else
      var econ := if s.head == 0 then s.econ else RecordBlock(s.econ, p.config, s.head, s.supply);
      Some(s.(econ := econ, head := s.head + 1, time := time))
  }

  // ----- steps and runs -----

  datatype Step =
    | FeeStep(payer: Name, amount: int)
    | TransferStep(from: Name, to: Name, amount: int)
    | VestStep(from: Name, to: Name, amount: int)
    | WithdrawStep(account: Name, shares: nat)
    | AccountStep(creator: Name, name: Name, amount: int, required: nat)
    | WitnessStep(owner: Name, key: nat)
    | StopStep(owner: Name)
    | RequirementStep(vesting: int)
    | VoteStep(voter: Name, candidate: Name, approve: bool)
    | ProxyStep(account: Name, proxy: Name)
    | EscrowStep(from: Name, id: nat, escrow: Escrow)
    | ApproveStep(k: EscrowKey, to: Name, agent: Name, who: Name, approve: bool)
    | DisputeStep(k: EscrowKey, to: Name, agent: Name, who: Name)
    | ReleaseStep(k: EscrowKey, to: Name, agent: Name, who: Name, receiver: Name, amount: int)
    | PromotionStep(to: Name, amount: int)
    | ExpireStep(k: EscrowKey)
    | InterestStep
    | ClearStep
    | ProducerStep(producer: Name)
    | ConvertStep(account: Name)
    | RoundStep
    | BlockStep(time: nat)

  ghost predicate Playable(s: State, p: Params) {
    && Sound(p.config)
    && forall a :: a in s.names ==> a in s.tally.x.witnesses
  }

  function Apply(s: State, p: Params, step: Step): Option<State>
    requires Playable(s, p)
  {
    match step
    case FeeStep(a, fee) => PayFee(s, p, a, fee)
    case TransferStep(from, to, amount) => Transfer(s, p, from, to, amount)
    case VestStep(from, to, amount) => TransferToVesting(s, p, from, to, amount)
    case WithdrawStep(a, shares) => WithdrawVesting(s, a, shares)
    case AccountStep(creator, name, fee, required) => CreateAccount(s, p, creator, name, fee, required)
    case WitnessStep(owner, key) => UpdateWitness(s, owner, key)
    case StopStep(w) => StopWitness(s, w)
    case RequirementStep(vesting) => Some(s.(requiredVesting := vesting))
    case VoteStep(a, w, approve) => VoteWitness(s, p, a, w, approve)
    case ProxyStep(a, q) => ProxyVotes(s, a, q)
    case EscrowStep(from, id, e) => EscrowTransfer(s, p, from, id, e)
    case ApproveStep(k, to, agent, who, approve) => EscrowApprove(s, p, k, to, agent, who, approve)
    case DisputeStep(k, to, agent, who) => EscrowDispute(s, k, to, agent, who)
    case ReleaseStep(k, to, agent, who, receiver, amount) => EscrowRelease(s, p, k, to, agent, who, receiver, amount)
    case PromotionStep(to, amount) => PayPromotion(s, p, to, amount)
    case ExpireStep(k) => ExpireEscrow(s, p, k)
    case InterestStep => ProcessInterests(s, p)
    case ClearStep => ClearNull(s, p)
    case ProducerStep(producer) => PayProducer(s, p, producer)
    case ConvertStep(a) => ConvertVesting(s, a)
    case RoundStep => Reschedule(s, p)
    case BlockStep(time) => NextBlock(s, p, time)
  }
}
