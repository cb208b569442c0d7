/**
 The chain database as an object whose fields the operations update in place. Every operation does what its
 function in the modules on the tally and the ledger says. An operation that returns false has thrown; what it
 leaves behind is undone with the session that encloses it.
 */
module Database {
  import opened ChainTypes
  import opened Economics
  import VoteTally
  import ProxyForest
  import ProxyChange
  import TallySteps
  import Ledger
  import LedgerInvariants
  import LedgerSteps

  // ----- the order in which the array form fills the slots of an account -----

  /** Slots depth + n - 1 down to depth receive delta[n - 1] down to delta[0]. */
  ghost function BumpDown(x: VoteTally.Index, a: Name, delta: seq<int>, depth: nat, n: nat): VoteTally.Index
    requires n <= |delta|
    decreases n
  {
    if n == 0 then x else BumpDown(VoteTally.Bump(x, a, depth + n - 1, delta[n - 1]), a, delta, depth, n - 1)
  }

  /** Slots depth + i up to depth + n - 1, in ascending order. */
  ghost function BumpUp(x: VoteTally.Index, a: Name, delta: seq<int>, depth: nat, i: nat, n: nat): VoteTally.Index
    requires i <= n <= |delta|
    decreases n - i
  {
    if i == n then x else BumpUp(VoteTally.Bump(x, a, depth + i, delta[i]), a, delta, depth, i + 1, n)
  }

  lemma {:induction false} BumpUpLast(x: VoteTally.Index, a: Name, delta: seq<int>, depth: nat, i: nat, n: nat)
    requires i <= n < |delta|
    ensures BumpUp(x, a, delta, depth, i, n + 1)
      == BumpUp(VoteTally.Bump(x, a, depth + n, delta[n]), a, delta, depth, i, n)
    decreases n - i
  {
    if i < n {
      BumpUpLast(VoteTally.Bump(x, a, depth + i, delta[i]), a, delta, depth, i + 1, n);
      VoteTally.BumpsCommute(x, a, depth + i, delta[i], a, depth + n, delta[n]);
    }
  }

  lemma {:induction false} DownIsUp(x: VoteTally.Index, a: Name, delta: seq<int>, depth: nat, n: nat)
    requires n <= |delta|
    ensures BumpDown(x, a, delta, depth, n) == BumpUp(x, a, delta, depth, 0, n)
    decreases n
  {
    if n > 0 {
      DownIsUp(VoteTally.Bump(x, a, depth + n - 1, delta[n - 1]), a, delta, depth, n - 1);
      BumpUpLast(x, a, delta, depth, 0, n - 1);
    }
  }

  lemma {:induction false} UpIsFrom(x: VoteTally.Index, a: Name, delta: seq<int>, depth: nat, i: nat)
    requires |delta| == MAX_PROXY_DEPTH + 1 && depth + i <= MAX_PROXY_DEPTH
    ensures BumpUp(x, a, delta, depth, i, MAX_PROXY_DEPTH - depth) == VoteTally.BumpFrom(x, a, delta, depth, i)
    decreases MAX_PROXY_DEPTH - i
  {
    if depth + i < MAX_PROXY_DEPTH {
      UpIsFrom(VoteTally.Bump(x, a, depth + i, delta[i]), a, delta, depth, i + 1);
    }
  }

  lemma {:induction false} SumFromLast(delta: seq<int>, i: nat, end: nat)
    requires i <= end < |delta|
    ensures VoteTally.SumFrom(delta, i, end + 1) == VoteTally.SumFrom(delta, i, end) + delta[end]
    decreases end - i
  {
    if i < end {
      SumFromLast(delta, i + 1, end);
    }
  }

  /** The outcome of setting a proxy, field by field. */
  lemma SetProxyIs(t: ProxyForest.Tally, a: Name, q: Name)
    ensures var r := ProxyChange.SetProxy(t, a, q);
      if a !in t.accounts || a !in t.e.proxy || q == a || t.e.proxy[a] == q then r == None
      else
        var delta := ProxyChange.Deltas(t.accounts, t.x, a);
        var off := VoteTally.AdjustAll(t.e, t.x, a, ProxyChange.Negated(delta), 0);
        if q == SELF then r == Some(ProxyForest.Tally(t.ids, t.accounts,
          VoteTally.Electors(t.e.proxy[a := SELF], t.e.votes, t.e.now), off))
        else if q !in t.accounts || !ProxyChange.ChainOk(t.e.proxy, {a, q}, q) then r == None
        else
          var e := VoteTally.Electors(t.e.proxy[a := q], ProxyChange.WithoutVotesOf(t.e.votes, a), t.e.now);
          r == Some(ProxyForest.Tally(t.ids, t.accounts[a := t.accounts[a].(votedFor := 0)], e,
            VoteTally.AdjustAll(e, off, a, delta, 0)))
  {
    hide VoteTally.AdjustAll, ProxyChange.ChainOk, ProxyChange.Deltas, ProxyChange.Negated, ProxyChange.WithoutVotesOf;
    assert t.e.proxy[a := SELF][a := q] == t.e.proxy[a := q];
  }

  function InterestDue(e: Economy, c: Config, head: nat, holding: int): Option<(Economy, int)>
    requires c.coinbaseBlocks > 0 && c.interestFeesTime > 0
  {
    if head > c.interestDelay then
      WithdrawInterests(e, c, holding, if c.interestBlocks < head then c.interestBlocks else head)
    else Some((e, 0))
  }

  lemma InterestIs(s: Ledger.State, p: Ledger.Params, a: Name)
    requires Sound(p.config) && a in s.tally.accounts
    ensures var w, x := InterestDue(s.econ, p.config, s.head, s.tally.accounts[a].holdings), s.tally.accounts[a];
      && (Ledger.Interest(s, p, a).None? <==> w.None?)
      && (w.Some? ==>
            var y := x.(balance := x.balance + w.value.1,
              holdings := (x.balance + w.value.1 + x.vesting) * p.config.interestBlocks);
            var index := if w.value.1 > 0 then VoteTally.AdjustOne(s.tally.e, s.tally.x, a, w.value.1, 0)
              else s.tally.x;
            Ledger.Interest(s, p, a) ==
              Some((s.(econ := w.value.0, tally := s.tally.(accounts := s.tally.accounts[a := y], x := index)),
                w.value.1)))
  {
    hide VoteTally.AdjustOne, WithdrawInterests;
  }

  lemma InterestSound(c: Config)
    requires Sound(c)
    ensures c.interestBlocks > 0 && c.coinbaseBlocks > 0 && c.interestFeesTime > 0
  {}

  lemma InterestFromNext(s: Ledger.State, p: Ledger.Params, id: nat, paid: int)
    requires Sound(p.config) && id < |s.tally.ids| && s.tally.ids[id] in s.tally.accounts
    ensures var r := Ledger.Interest(s, p, s.tally.ids[id]);
      && Ledger.InterestFrom(s, p, id, paid)
         == (if r.None? then None else Ledger.InterestFrom(r.value.0, p, id + p.config.interestBlocks,
           paid + r.value.1))
      && (r.Some? ==> r.value.1 >= 0)
  {
    hide VoteTally.AdjustOne, WithdrawInterests;
    var c, x := p.config, s.tally.accounts[s.tally.ids[id]];
    InterestIsNatural(s.econ, c, x.holdings, if c.interestBlocks < s.head then c.interestBlocks else s.head);
  }

  lemma InterestFromEnd(s: Ledger.State, p: Ledger.Params, id: nat, paid: int)
    requires Sound(p.config) && !(id < |s.tally.ids| && s.tally.ids[id] in s.tally.accounts)
    ensures Ledger.InterestFrom(s, p, id, paid) == Some((s, paid))
  {}

  lemma InterestIsNatural(e: Economy, c: Config, holding: int, period: nat)
    requires Sound(c)
    ensures WithdrawInterests(e, c, holding, period).Some? ==> WithdrawInterests(e, c, holding, period).value.1 >= 0
  {
    if WithdrawInterests(e, c, holding, period).Some? && holding > 0 {
      RatioIsNatural(c.totalInterests, period, c.coinbaseBlocks);
      RatioIsNatural(holding, Min(e.interestCoinbase, c.totalInterests * period / c.coinbaseBlocks), e.accumulated);
      RatioIsNatural(e.interestFees, c.interestBlocks, c.interestFeesTime);
      RatioIsNatural(e.interestFees * c.interestBlocks / c.interestFeesTime, holding, e.accumulated);
    }
  }

  lemma RatioIsNatural(a: int, b: int, d: int)
    requires a >= 0 && b >= 0 && d > 0
    ensures a * b / d >= 0
  {
    assert a * b >= 0;
  }

  // ----- escrows that were not ratified in time -----

  predicate Due(e: Ledger.Escrow, time: nat) {
    !(e.toApproved && e.agentApproved) && e.ratifyBy <= time
  }

  /** The escrows of a list expire one after the other. */
  function Expired(s: Ledger.State, p: Ledger.Params, ks: seq<Ledger.EscrowKey>): Option<Ledger.State>
    requires p.config.interestBlocks > 0
    decreases |ks|
  {
    if ks == [] then Some(s)
    else
      var t :- Expired(s, p, ks[..|ks| - 1]);
      Ledger.ExpireEscrow(t, p, ks[|ks| - 1])
  }

  lemma ExpiredNext(s: Ledger.State, p: Ledger.Params, ks: seq<Ledger.EscrowKey>, k: Ledger.EscrowKey)
    requires p.config.interestBlocks > 0 && Expired(s, p, ks).Some?
    requires var t := Expired(s, p, ks).value; k in t.escrows && Due(t.escrows[k], t.time)
    ensures Expired(s, p, ks + [k]) == Ledger.RefundEscrow(Expired(s, p, ks).value, p, k)
  {
    hide Ledger.RefundEscrow;
    assert (ks + [k])[..|ks|] == ks;
  }

  lemma NoneExpired(s: Ledger.State, p: Ledger.Params)
    requires p.config.interestBlocks > 0
    ensures Expired(s, p, []) == Some(s)
  {}

  lemma EscrowGone(s: Ledger.State, p: Ledger.Params, k: Ledger.EscrowKey)
    requires p.config.interestBlocks > 0 && k in s.escrows
    ensures var r := Ledger.RefundEscrow(s, p, k);
      r.Some? ==> r.value.escrows == s.escrows - {k} && r.value.time == s.time
  {
    hide VoteTally.AdjustOne, Ledger.TurnsLeft;
  }

  // ----- what every operation keeps -----

  /** From a good state an operation leads to a good state, and coins in circulation and pools add up to the same,
      except for burned ones. */
  ghost predicate Keeps(s: Ledger.State, r: Ledger.State, p: Ledger.Params, burned: int) {
    LedgerInvariants.Good(s, p) ==> LedgerSteps.Conserves(s, r, p, burned)
  }

  lemma FeeKeeps(s: Ledger.State, p: Ledger.Params, a: Name, fee: int)
    requires p.config.interestBlocks > 0
    ensures Ledger.PayFee(s, p, a, fee).Some? ==> Keeps(s, Ledger.PayFee(s, p, a, fee).value, p, 0)
  {
    hide LedgerInvariants.Good, LedgerSteps.Conserves, Ledger.PayFee;
    if LedgerInvariants.Good(s, p) && Ledger.PayFee(s, p, a, fee).Some? {
      LedgerSteps.PayFeeConserves(s, p, a, fee);
    }
  }

  lemma VestingKeeps(s: Ledger.State, p: Ledger.Params, from: Name, to: Name, amount: int)
    requires p.config.interestBlocks > 0
    ensures Ledger.TransferToVesting(s, p, from, to, amount).Some? ==>
      Keeps(s, Ledger.TransferToVesting(s, p, from, to, amount).value, p, 0)
  {
    hide LedgerInvariants.Good, LedgerSteps.Conserves, Ledger.TransferToVesting;
    if LedgerInvariants.Good(s, p) && Ledger.TransferToVesting(s, p, from, to, amount).Some? {
      LedgerSteps.TransferToVestingConserves(s, p, from, to, amount);
    }
  }

  lemma InterestsKeep(s: Ledger.State, p: Ledger.Params)
    requires Sound(p.config)
    ensures Ledger.ProcessInterests(s, p).Some? ==> Keeps(s, Ledger.ProcessInterests(s, p).value, p, 0)
  {
    hide LedgerInvariants.Good, LedgerSteps.Conserves, Ledger.ProcessInterests;
    if LedgerInvariants.Good(s, p) && Ledger.ProcessInterests(s, p).Some? {
      LedgerSteps.ProcessInterestsConserves(s, p);
    }
  }

  lemma ClearKeeps(s: Ledger.State, p: Ledger.Params)
    requires p.config.interestBlocks > 0
    ensures Ledger.ClearNull(s, p).Some? ==> Keeps(s, Ledger.ClearNull(s, p).value, p, Ledger.Cleared(s))
  {
    hide LedgerInvariants.Good, LedgerSteps.Conserves, Ledger.ClearNull;
    if LedgerInvariants.Good(s, p) && Ledger.ClearNull(s, p).Some? {
      LedgerSteps.ClearNullConserves(s, p);
    }
  }

  lemma RewardKeeps(s: Ledger.State, p: Ledger.Params, producer: Name)
    requires Sound(p.config)
    ensures Ledger.PayProducer(s, p, producer).Some? ==> Keeps(s, Ledger.PayProducer(s, p, producer).value, p, 0)
  {
    hide LedgerInvariants.Good, LedgerSteps.Conserves, Ledger.PayProducer;
    if LedgerInvariants.Good(s, p) && Ledger.PayProducer(s, p, producer).Some? {
      LedgerSteps.PayProducerConserves(s, p, producer);
    }
  }

  lemma ApprovalKeeps(s: Ledger.State, p: Ledger.Params, k: Ledger.EscrowKey, to: Name, agent: Name, who: Name,
                      approve: bool)
    requires p.config.interestBlocks > 0
    ensures Ledger.EscrowApprove(s, p, k, to, agent, who, approve).Some? ==>
      Keeps(s, Ledger.EscrowApprove(s, p, k, to, agent, who, approve).value, p, 0)
  {
    hide LedgerInvariants.Good, LedgerSteps.Conserves, Ledger.EscrowApprove;
    if LedgerInvariants.Good(s, p) && Ledger.EscrowApprove(s, p, k, to, agent, who, approve).Some? {
      LedgerSteps.ApproveConserves(s, p, k, to, agent, who, approve);
    }
  }

  lemma ReleaseKeeps(s: Ledger.State, p: Ledger.Params, k: Ledger.EscrowKey, to: Name, agent: Name, who: Name,
                     receiver: Name, amount: int)
    requires p.config.interestBlocks > 0
    ensures Ledger.EscrowRelease(s, p, k, to, agent, who, receiver, amount).Some? ==>
      Keeps(s, Ledger.EscrowRelease(s, p, k, to, agent, who, receiver, amount).value, p, 0)
  {
    hide LedgerInvariants.Good, LedgerSteps.Conserves, Ledger.EscrowRelease;
    if LedgerInvariants.Good(s, p) && Ledger.EscrowRelease(s, p, k, to, agent, who, receiver, amount).Some? {
      LedgerSteps.ReleaseConserves(s, p, k, to, agent, who, receiver, amount);
    }
  }

  lemma VoteKeeps(s: Ledger.State, p: Ledger.Params, a: Name, w: Name, approve: bool)
    requires a != NULL_ACCOUNT
    ensures var t := TallySteps.Vote(s.tally, a, w, approve, p.voteLimit);
      t.Some? ==> Keeps(s, s.(tally := t.value), p, 0)
  {
    hide LedgerInvariants.Good, LedgerSteps.Conserves, TallySteps.Vote;
    if LedgerInvariants.Good(s, p) && TallySteps.Vote(s.tally, a, w, approve, p.voteLimit).Some? {
      LedgerSteps.VoteConserves(s, p, a, w, approve);
    }
  }

  lemma ProxyKeeps(s: Ledger.State, p: Ledger.Params, a: Name, q: Name)
    requires a != NULL_ACCOUNT
    ensures var t := ProxyChange.SetProxy(s.tally, a, q); t.Some? ==> Keeps(s, s.(tally := t.value), p, 0)
  {
    hide LedgerInvariants.Good, LedgerSteps.Conserves, ProxyChange.SetProxy;
    if LedgerInvariants.Good(s, p) && ProxyChange.SetProxy(s.tally, a, q).Some? {
      LedgerSteps.ProxyConserves(s, p, a, q);
    }
  }

  /** A refund from a good state succeeds. */
  lemma RefundKeeps(s: Ledger.State, p: Ledger.Params, k: Ledger.EscrowKey)
    requires p.config.interestBlocks > 0 && k in s.escrows
    ensures LedgerInvariants.Good(s, p) ==> Ledger.RefundEscrow(s, p, k).Some?
    ensures Ledger.RefundEscrow(s, p, k).Some? ==> Keeps(s, Ledger.RefundEscrow(s, p, k).value, p, 0)
  {
    hide LedgerInvariants.TallyGood, LedgerSteps.Conserves, Ledger.AdjustBalance, LedgerInvariants.Balanced,
      NonNegative, LedgerInvariants.PromotionCovered;
    if LedgerInvariants.Good(s, p) {
      LedgerInvariants.DepositSucceeds(s, p, k.0, s.escrows[k].balance);
      LedgerInvariants.AdjustBalanceMoves(s, p, k.0, s.escrows[k].balance);
      LedgerInvariants.DepositSucceeds(Ledger.AdjustBalance(s, p, k.0, s.escrows[k].balance).value, p, k.0,
        s.escrows[k].fee);
      LedgerSteps.RefundConserves(s, p, k);
    }
  }

  lemma KeepsAgain(s: Ledger.State, m: Ledger.State, r: Ledger.State, p: Ledger.Params)
    requires Keeps(s, m, p, 0) && Keeps(m, r, p, 0)
    ensures Keeps(s, r, p, 0)
  {
    hide LedgerInvariants.Good, LedgerInvariants.Wealth;
  }

  lemma KeptGood(s: Ledger.State, r: Ledger.State, p: Ledger.Params)
    requires Keeps(s, r, p, 0)
    ensures LedgerInvariants.Good(s, p) ==> LedgerInvariants.Good(r, p)
  {
    hide LedgerInvariants.Good;
  }

  lemma KeepsItself(s: Ledger.State, p: Ledger.Params)
    ensures Keeps(s, s, p, 0)
  {
    hide LedgerInvariants.Good, LedgerInvariants.Wealth;
  }

  lemma NegatedTwice(delta: seq<int>)
    ensures ProxyChange.Negated(ProxyChange.Negated(delta)) == delta
  {}

  class Database {
    const params: Ledger.Params
    var ids: seq<Name>
    var accounts: map<Name, Account>
    var proxy: map<Name, Name>
    var votes: set<(Name, Name)>
    var virtualTime: nat
    var proxied: map<(Name, nat), int>
    var witnesses: map<Name, Witness>
    var names: seq<Name>
    var escrows: map<Ledger.EscrowKey, Ledger.Escrow>
    var supply: int
    var totalVesting: int
    var econ: Economy
    var head: nat
    var time: nat
    var requiredVesting: int
    var topWeight: nat
    var timeshareWeight: nat
    var payFactor: nat

    function Electors(): VoteTally.Electors
      reads this
    {
      VoteTally.Electors(proxy, votes, virtualTime)
    }

    function TheIndex(): VoteTally.Index
      reads this
    {
      VoteTally.Index(proxied, witnesses)
    }

    function Tally(): ProxyForest.Tally
      reads this
    {
      ProxyForest.Tally(ids, accounts, Electors(), TheIndex())
    }

    function View(): Ledger.State
      reads this
    {
      Ledger.State(Tally(), names, escrows, supply, totalVesting, econ, head, time, requiredVesting,
                   topWeight, timeshareWeight, payFactor)
    }

    /** Configuration is sound and vote records refer to existing witnesses. */
    ghost predicate Valid()
      reads this
    {
      && Sound(params.config)
      && forall a, w {:trigger (a, w) in votes} :: (a, w) in votes ==> w in witnesses
    }

    constructor (p: Ledger.Params, s: Ledger.State)
      ensures params == p && View() == s
    {
      params := p;
      ids, accounts, proxy, votes, virtualTime :=
        s.tally.ids, s.tally.accounts, s.tally.e.proxy, s.tally.e.votes, s.tally.e.now;
      proxied, witnesses, names, escrows := s.tally.x.proxied, s.tally.x.witnesses, s.names, s.escrows;
      supply, totalVesting, econ, head, time := s.supply, s.totalVesting, s.econ, s.head, s.time;
      requiredVesting, topWeight, timeshareWeight, payFactor :=
        s.requiredVesting, s.topWeight, s.timeshareWeight, s.payFactor;
    }

    // ----- votes -----

    method AdjustWitnessVote(w: Name, delta: int)
      requires w in witnesses
      modifies this`witnesses
      ensures witnesses == old(witnesses)[w := VoteTally.AdjustVote(old(witnesses)[w], delta, virtualTime)]
    {
      var x := witnesses[w];
      x := x.(position := (x.position + x.votes * (virtualTime - x.lastUpdate)) % TWO_128);
      x := x.(lastUpdate := virtualTime);
      x := x.(votes := x.votes + delta);
      var divisor := (x.votes + 1) % TWO_128;
      var rest := (LAP_LENGTH - x.position) % TWO_128;
      x := x.(scheduled := (x.lastUpdate + if divisor == 0 then 0 else rest / divisor) % TWO_128);
      if x.scheduled < virtualTime {
        x := x.(scheduled := LAP_LENGTH);
      }
      witnesses := witnesses[w := x];
    }

    /** Goes through the vote records of an account. */
    method AdjustWitnessVotes(a: Name, delta: int)
      requires Valid()
      modifies this`witnesses
      ensures Valid() && TheIndex() == VoteTally.AdjustVotes(Electors(), old(TheIndex()), a, delta)
    {
      hide VoteTally.AdjustVote;
      var todo := set v | v in votes && v.0 == a;
      while todo != {}
        invariant todo <= set v | v in votes && v.0 == a
        invariant witnesses == map w | w in old(witnesses) ::
          if (a, w) in votes && (a, w) !in todo then VoteTally.AdjustVote(old(witnesses)[w], delta, virtualTime)
            else old(witnesses)[w]
      {
        var v :| v in todo;
        assert v == (a, v.1);
        AdjustWitnessVote(v.1, delta);
        todo := todo - {v};
      }
    }

    /** One amount travels up the proxy chain. */
    method AdjustProxiedVotes(a: Name, delta: int, depth: nat)
      requires Valid()
      modifies this`proxied, this`witnesses
      ensures Valid() && TheIndex() == VoteTally.AdjustOne(Electors(), old(TheIndex()), a, delta, depth)
      decreases MAX_PROXY_DEPTH - depth
    {
      var q := if a in proxy then proxy[a] else SELF;
      if q != SELF {
        if depth >= MAX_PROXY_DEPTH {
          return;
        }
        proxied := proxied[(q, depth) := (if (q, depth) in proxied then proxied[(q, depth)] else 0) + delta];
        AdjustProxiedVotes(q, delta, depth + 1);
      } else {
        AdjustWitnessVotes(a, delta);
      }
    }

    method FillSlots(q: Name, delta: seq<int>, depth: nat)
      requires |delta| == MAX_PROXY_DEPTH + 1 && depth < MAX_PROXY_DEPTH
      modifies this`proxied
      ensures TheIndex() == VoteTally.BumpFrom(old(TheIndex()), q, delta, depth, 0)
    {
      hide VoteTally.BumpFrom;
      ghost var x := TheIndex();
      var i := MAX_PROXY_DEPTH - depth - 1;
      while i >= 0
        invariant -1 <= i < MAX_PROXY_DEPTH - depth
        invariant BumpDown(x, q, delta, depth, MAX_PROXY_DEPTH - depth) == BumpDown(TheIndex(), q, delta, depth, i + 1)
      {
        proxied := proxied[(q, i + depth) := (if (q, i + depth) in proxied then proxied[(q, i + depth)]
          else 0) + delta[i]];
        i := i - 1;
      }
      DownIsUp(x, q, delta, depth, MAX_PROXY_DEPTH - depth);
      UpIsFrom(x, q, delta, depth, 0);
    }

    method TotalOf(delta: seq<int>, last: nat) returns (total: int)
      requires last < |delta|
      ensures total == VoteTally.SumFrom(delta, 0, last + 1)
    {
      total := 0;
      var i := last;
      while i >= 0
        invariant -1 <= i <= last && total + VoteTally.SumFrom(delta, 0, i + 1) == VoteTally.SumFrom(delta, 0, last + 1)
      {
        SumFromLast(delta, 0, i);
        total := total + delta[i];
        i := i - 1;
      }
    }

    /** All amounts of an account travel up the proxy chain together. */
    method AdjustAllProxiedVotes(a: Name, delta: seq<int>, depth: nat)
      requires Valid() && |delta| == MAX_PROXY_DEPTH + 1 && depth <= MAX_PROXY_DEPTH
      modifies this`proxied, this`witnesses
      ensures Valid() && TheIndex() == VoteTally.AdjustAll(Electors(), old(TheIndex()), a, delta, depth)
      decreases MAX_PROXY_DEPTH - depth
    {
      hide VoteTally.BumpFrom, VoteTally.SumFrom, VoteTally.AdjustVotes;
      var q := if a in proxy then proxy[a] else SELF;
      if q != SELF {
        if depth >= MAX_PROXY_DEPTH {
          return;
        }
        FillSlots(q, delta, depth);
        AdjustAllProxiedVotes(q, delta, depth + 1);
      } else {
        var total := TotalOf(delta, MAX_PROXY_DEPTH - depth);
        AdjustWitnessVotes(a, total);
      }
    }

    method ClearWitnessVotes(a: Name)
      requires Valid() && a in accounts
      modifies this`votes, this`accounts
      ensures Valid() && votes == ProxyChange.WithoutVotesOf(old(votes), a)
      ensures accounts == old(accounts)[a := old(accounts)[a].(votedFor := 0)]
    {
      var todo := set v | v in votes && v.0 == a;
      while todo != {}
        invariant todo <= votes && todo == set v | v in votes && v.0 == a
        invariant Valid() && accounts == old(accounts)
        invariant votes - todo == ProxyChange.WithoutVotesOf(old(votes), a)
      {
        var v :| v in todo;
        votes := votes - {v};
        todo := todo - {v};
      }
      accounts := accounts[a := accounts[a].(votedFor := 0)];
    }

    /** Walks up from the new proxy; false on a loop or on too long a chain. */
    method CheckProxyChain(a: Name, q: Name) returns (ok: bool)
      ensures ok == ProxyChange.ChainOk(proxy, {a, q}, q)
    {
      var chain, c := {a, q}, q;
      while c in proxy && proxy[c] != SELF
        invariant ProxyChange.ChainOk(proxy, {a, q}, q) == ProxyChange.ChainOk(proxy, chain, c)
        decreases MAX_PROXY_DEPTH - |chain|
      {
        var next := proxy[c];
        if next in chain {
          return false;
        }
        chain, c := chain + {next}, next;
        if |chain| > MAX_PROXY_DEPTH {
          return false;
        }
      }
      return true;
    }

    /** Takes an account's own funds and all proxied to it off its chain. */
    method TakeOff(a: Name) returns (delta: seq<int>)
      requires Valid() && a in accounts
      modifies this`proxied, this`witnesses
      ensures Valid() && delta == ProxyChange.Negated(ProxyChange.Deltas(accounts, old(TheIndex()), a))
      ensures TheIndex() == VoteTally.AdjustAll(Electors(), old(TheIndex()), a, delta, 0)
    {
      hide VoteTally.AdjustAll;
      delta := [-(accounts[a].balance + accounts[a].vesting)];
      var i := 0;
      while i < MAX_PROXY_DEPTH
        invariant 0 <= i <= MAX_PROXY_DEPTH && |delta| == i + 1 && TheIndex() == old(TheIndex())
        invariant delta == ProxyChange.Negated(ProxyChange.Deltas(accounts, TheIndex(), a))[..i + 1]
      {
        delta := delta + [-VoteTally.Proxied(TheIndex(), a, i)];
        i := i + 1;
      }
      assert delta == ProxyChange.Negated(ProxyChange.Deltas(accounts, TheIndex(), a));
      AdjustAllProxiedVotes(a, delta, 0);
    }

    method Negate(delta: seq<int>) returns (back: seq<int>)
      ensures back == ProxyChange.Negated(delta)
    {
      back := delta;
      var i := 0;
      while i < |delta|
        invariant 0 <= i <= |delta| == |back| && back == ProxyChange.Negated(delta)[..i] + delta[i..]
      {
        back := back[i := -back[i]];
        i := i + 1;
      }
    }

    /** Puts the negated amounts on the chain of a new proxy, whose chain has been checked. */
    method PutOn(a: Name, q: Name, delta: seq<int>)
      requires Valid() && a in accounts && |delta| == MAX_PROXY_DEPTH + 1
      modifies this`proxied, this`witnesses, this`votes, this`accounts, this`proxy
      ensures Valid() && accounts == old(accounts)[a := old(accounts)[a].(votedFor := 0)]
      ensures proxy == old(proxy)[a := q] && votes == ProxyChange.WithoutVotesOf(old(votes), a)
      ensures TheIndex() == VoteTally.AdjustAll(Electors(), old(TheIndex()), a, ProxyChange.Negated(delta), 0)
    {
      hide VoteTally.AdjustAll;
      ClearWitnessVotes(a);
      proxy := proxy[a := q];
      var back := Negate(delta);
      AdjustAllProxiedVotes(a, back, 0);
    }

    method ChangeProxy(a: Name, q: Name) returns (ok: bool)
      requires Valid() && a != NULL_ACCOUNT
      modifies this`proxied, this`witnesses, this`votes, this`accounts, this`proxy
      ensures ok <==> ProxyChange.SetProxy(old(Tally()), a, q).Some?
      ensures ok ==> Valid() && Tally() == ProxyChange.SetProxy(old(Tally()), a, q).value
    {
      hide VoteTally.AdjustAll, ProxyChange.ChainOk, ProxyChange.Deltas, ProxyChange.Negated,
        ProxyChange.WithoutVotesOf, ProxyChange.SetProxy;
      ghost var t := Tally();
      SetProxyIs(t, a, q);
      if a !in accounts || a !in proxy || a == q || proxy[a] == q {
        return false;
      }
      var delta := TakeOff(a);
      if q == SELF {
        proxy := proxy[a := SELF];
        return true;
      }
      if q !in accounts {
        return false;
      }
      ok := CheckProxyChain(a, q);
      if !ok {
        return false;
      }
      PutOn(a, q, delta);
      NegatedTwice(ProxyChange.Deltas(t.accounts, t.x, a));
    }

    method ChangeVote(a: Name, w: Name, approve: bool) returns (ok: bool)
      requires Valid() && a != NULL_ACCOUNT
      modifies this`witnesses, this`votes, this`accounts
      ensures ok <==> TallySteps.Vote(old(Tally()), a, w, approve, params.voteLimit).Some?
      ensures ok ==> Valid() && Tally() == TallySteps.Vote(old(Tally()), a, w, approve, params.voteLimit).value
    {
      hide VoteTally.AdjustVote, ProxyForest.Weight, Sound;
      if a !in accounts || a !in proxy || proxy[a] != SELF || w !in witnesses {
        return false;
      }
      var weight := ProxyForest.Weight(accounts, TheIndex(), a);
      if (a, w) !in votes {
        if !approve || accounts[a].votedFor >= params.voteLimit {
          return false;
        }
        votes := votes + {(a, w)};
        AdjustWitnessVote(w, weight);
        accounts := accounts[a := accounts[a].(votedFor := accounts[a].votedFor + 1)];
      } else {
        if approve {
          return false;
        }
        AdjustWitnessVote(w, -weight);
        accounts := accounts[a := accounts[a].(votedFor := accounts[a].votedFor - 1)];
        votes := votes - {(a, w)};
      }
      return true;
    }

    /** Sets or clears a proxy: the tally is the specified one, and all invariants are kept. */
    method AccountWitnessProxy(a: Name, q: Name) returns (ok: bool)
      requires Valid() && a != NULL_ACCOUNT
      modifies this`proxied, this`witnesses, this`votes, this`accounts, this`proxy
      ensures ok <==> ProxyChange.SetProxy(old(Tally()), a, q).Some?
      ensures ok ==> Valid() && Tally() == ProxyChange.SetProxy(old(Tally()), a, q).value
      ensures ok ==> Keeps(old(View()), View(), params, 0)
    {
      hide ProxyChange.SetProxy, Keeps;
      ProxyKeeps(View(), params, a, q);
      ok := ChangeProxy(a, q);
    }

    /** Votes for or against a witness: the tally is the specified one, and all invariants are kept. */
    method AccountWitnessVote(a: Name, w: Name, approve: bool) returns (ok: bool)
      requires Valid() && a != NULL_ACCOUNT
      modifies this`witnesses, this`votes, this`accounts
      ensures ok <==> TallySteps.Vote(old(Tally()), a, w, approve, params.voteLimit).Some?
      ensures ok ==> Valid() && Tally() == TallySteps.Vote(old(Tally()), a, w, approve, params.voteLimit).value
      ensures ok ==> Keeps(old(View()), View(), params, 0)
    {
      hide TallySteps.Vote, Keeps;
      VoteKeeps(View(), params, a, w, approve);
      ok := ChangeVote(a, w, approve);
    }

    // ----- coins -----

    method AdjustBalance(a: Name, delta: int) returns (ok: bool)
      requires Valid()
      modifies this`accounts, this`proxied, this`witnesses
      ensures Valid() && (ok <==> Ledger.AdjustBalance(old(View()), params, a, delta).Some?)
      ensures ok ==> View() == Ledger.AdjustBalance(old(View()), params, a, delta).value
    {
      hide VoteTally.AdjustOne, Ledger.TurnsLeft;
      if a !in accounts {
        return false;
      }
      var x := accounts[a];
      x := x.(balance := x.balance + delta);
      x := x.(holdings := x.holdings + delta * Ledger.TurnsLeft(x.id, head, params.config.interestBlocks));
      if x.balance < 0 {
        return false;
      }
      accounts := accounts[a := x];
      AdjustProxiedVotes(a, delta, 0);
      return true;
    }

    method CreateVesting(a: Name, delta: int) returns (ok: bool)
      requires Valid()
      modifies this`accounts, this`proxied, this`witnesses
      ensures Valid() && (ok <==> Ledger.CreateVesting(old(View()), params, a, delta).Some?)
      ensures ok ==> View() == Ledger.CreateVesting(old(View()), params, a, delta).value
    {
      hide VoteTally.AdjustOne, Ledger.TurnsLeft;
      if a !in accounts || delta < 0 {
        return false;
      }
      var x := accounts[a];
      x := x.(vesting := x.vesting + delta);
      x := x.(holdings := x.holdings + delta * Ledger.TurnsLeft(x.id, head, params.config.interestBlocks));
      accounts := accounts[a := x];
      AdjustProxiedVotes(a, delta, 0);
      return true;
    }

    method Vest(a: Name, delta: int) returns (ok: bool)
      requires Valid()
      modifies this`accounts, this`totalVesting
      ensures Valid() && (ok <==> Ledger.Vest(old(View()), a, delta).Some?)
      ensures ok ==> View() == Ledger.Vest(old(View()), a, delta).value
    {
      if a !in accounts || accounts[a].balance < delta {
        return false;
      }
      accounts := accounts[a := accounts[a].(balance := accounts[a].balance - delta,
        vesting := accounts[a].vesting + delta)];
      totalVesting := totalVesting + delta;
      return true;
    }

    method AdjustSupply(delta: int) returns (ok: bool)
      requires Valid()
      modifies this`supply
      ensures Valid() && (ok <==> Ledger.AdjustSupply(old(View()), delta).Some?)
      ensures ok ==> View() == Ledger.AdjustSupply(old(View()), delta).value
    {
      if supply + delta < 0 {
        return false;
      }
      supply := supply + delta;
      return true;
    }

    method PayFee(a: Name, fee: int) returns (ok: bool)
      requires Valid()
      modifies this`accounts, this`proxied, this`witnesses, this`supply, this`econ
      ensures Valid() && (ok <==> Ledger.PayFee(old(View()), params, a, fee).Some?)
      ensures ok ==> View() == Ledger.PayFee(old(View()), params, a, fee).value
      ensures ok ==> Keeps(old(View()), View(), params, 0)
    {
      hide Ledger.AdjustBalance, Ledger.AdjustSupply, AddFee, Keeps;
      FeeKeeps(View(), params, a, fee);
      if fee < 0 || a !in accounts {
        return false;
      }
      if fee == 0 {
        return true;
      }
      if accounts[a].balance < fee {
        return false;
      }
      ok := AdjustBalance(a, -fee);
      if !ok {
        return false;
      }
      ok := AdjustSupply(-fee);
      if !ok {
        return false;
      }
      econ := AddFee(econ, params.config, fee);
      return true;
    }

    method TransferToVesting(from: Name, to: Name, amount: int) returns (ok: bool)
      requires Valid()
      modifies this`accounts, this`proxied, this`witnesses, this`totalVesting
      ensures Valid() && (ok <==> Ledger.TransferToVesting(old(View()), params, from, to, amount).Some?)
      ensures ok ==> View() == Ledger.TransferToVesting(old(View()), params, from, to, amount).value
      ensures ok ==> Keeps(old(View()), View(), params, 0)
    {
      hide Ledger.AdjustBalance, Ledger.Vest, Keeps;
      VestingKeeps(View(), params, from, to, amount);
      var receiver := if to == SELF then from else to;
      if amount <= 0 || from !in accounts || receiver !in accounts || accounts[from].balance < amount {
        return false;
      }
      if receiver == from {
        ok := Vest(from, amount);
      } else {
        ok := AdjustBalance(from, -amount);
        if !ok {
          return false;
        }
        ok := AdjustBalance(receiver, amount);
        if !ok {
          return false;
        }
        ok := Vest(receiver, amount);
      }
    }

    /** Pays one account its interest. */
    method PayInterest(a: Name) returns (ok: bool, interest: int)
      requires Valid() && a in accounts
      modifies this`accounts, this`proxied, this`witnesses, this`econ
      ensures Valid() && (ok <==> Ledger.Interest(old(View()), params, a).Some?)
      ensures ok ==> Ledger.Interest(old(View()), params, a) == Some((View(), interest))
    {
      hide VoteTally.AdjustOne, InterestDue, Ledger.Interest;
      InterestIs(View(), params, a);
      ok, interest := TakeInterest(accounts[a].holdings);
      if !ok {
        return false, 0;
      }
      if interest > 0 {
        AdjustProxiedVotes(a, interest, 0);
      }
      var x := accounts[a].(balance := accounts[a].balance + interest);
      accounts := accounts[a := x.(holdings := (x.balance + x.vesting) * params.config.interestBlocks)];
    }

    /** Withdraws the interest on a holding from the pools, once the delay is over. */
    method TakeInterest(holding: int) returns (ok: bool, interest: int)
      requires Valid()
      modifies this`econ
      ensures ok <==> InterestDue(old(econ), params.config, head, holding).Some?
      ensures ok ==> InterestDue(old(econ), params.config, head, holding) == Some((econ, interest))
    {
      hide WithdrawInterests;
      var c := params.config;
      if head <= c.interestDelay {
        return true, 0;
      }
      var w := WithdrawInterests(econ, c, holding, if c.interestBlocks < head then c.interestBlocks else head);
      if w.None? {
        return false, 0;
      }
      econ := w.value.0;
      return true, w.value.1;
    }

    /** Pays interest to every account whose turn it is. */
    method ProcessInterests() returns (ok: bool)
      requires Valid()
      modifies this`accounts, this`proxied, this`witnesses, this`econ, this`supply
      ensures Valid() && (ok <==> Ledger.ProcessInterests(old(View()), params).Some?)
      ensures ok ==> View() == Ledger.ProcessInterests(old(View()), params).value
      ensures ok ==> Keeps(old(View()), View(), params, 0)
    {
      hide Ledger.Interest, Ledger.InterestFrom, Ledger.AdjustSupply, Sound, Keeps;
      InterestsKeep(View(), params);
      InterestSound(params.config);
      ghost var all := Ledger.InterestFrom(View(), params, head % params.config.interestBlocks, 0);
      var increase, id := 0, head % params.config.interestBlocks;
      while id < |ids| && ids[id] in accounts
        invariant Valid() && supply == old(supply) && id >= 0
        invariant all == Ledger.InterestFrom(View(), params, id, increase)
        decreases |ids| - id
      {
        InterestFromNext(View(), params, id, increase);
        var interest;
        ok, interest := PayInterest(ids[id]);
        if !ok {
          return false;
        }
        if interest > 0 {
          increase := increase + interest;
        }
        id := id + params.config.interestBlocks;
      }
      InterestFromEnd(View(), params, id, increase);
      ok := AdjustSupply(increase);
    }

    method ClearNullAccountBalance() returns (ok: bool)
      requires Valid()
      modifies this`accounts, this`proxied, this`witnesses, this`totalVesting, this`supply
      ensures Valid() && (ok <==> Ledger.ClearNull(old(View()), params).Some?)
      ensures ok ==> View() == Ledger.ClearNull(old(View()), params).value
      ensures ok ==> Keeps(old(View()), View(), params, old(Ledger.Cleared(View())))
    {
      hide VoteTally.AdjustOne, Ledger.AdjustSupply, Ledger.TurnsLeft, Keeps;
      ClearKeeps(View(), params);
      if NULL_ACCOUNT !in accounts {
        return false;
      }
      var total := 0;
      if accounts[NULL_ACCOUNT].balance > 0 {
        total := accounts[NULL_ACCOUNT].balance;
        ok := AdjustBalance(NULL_ACCOUNT, -accounts[NULL_ACCOUNT].balance);
        if !ok {
          return false;
        }
      }
      if accounts[NULL_ACCOUNT].vesting > 0 {
        var shares := accounts[NULL_ACCOUNT].vesting;
        totalVesting := totalVesting - shares;
        accounts := accounts[NULL_ACCOUNT := accounts[NULL_ACCOUNT].(vesting := 0)];
        total := total + shares;
      }
      ok := true;
      if total > 0 {
        ok := AdjustSupply(-total);
      }
    }

    /** The weight of the producer's reward. */
    method Nominator(role: Role) returns (n: nat)
      ensures n == match role case Timeshare => timeshareWeight case Top => topWeight case Unscheduled => 0
    {
      n := 0;
      if role == Timeshare {
        n := timeshareWeight;
      } else if role == Top {
        n := topWeight;
      }
    }

    /** Rewards the producer of the block with vesting shares. */
    method ProcessFunds(producer: Name) returns (ok: bool)
      requires Valid()
      modifies this`accounts, this`proxied, this`witnesses, this`econ, this`supply, this`totalVesting
      ensures Valid() && (ok <==> Ledger.PayProducer(old(View()), params, producer).Some?)
      ensures ok ==> View() == Ledger.PayProducer(old(View()), params, producer).value
      ensures ok ==> Keeps(old(View()), View(), params, 0)
    {
      hide Ledger.CreateVesting, WithdrawMining, Keeps;
      RewardKeeps(View(), params, producer);
      if producer !in witnesses {
        return false;
      }
      var nominator := Nominator(witnesses[producer].role);
      var w := WithdrawMining(econ, params.config, head, nominator, payFactor);
      if w.None? {
        return false;
      }
      econ := w.value.0;
      ok := CreateVesting(producer, w.value.1);
      if !ok {
        return false;
      }
      supply := supply + w.value.1;
      totalVesting := totalVesting + w.value.1;
      return true;
    }

    // ----- escrows -----

    method RefundEscrow(k: Ledger.EscrowKey) returns (ok: bool)
      requires Valid() && k in escrows
      modifies this`accounts, this`proxied, this`witnesses, this`escrows
      ensures Valid() && (ok <==> Ledger.RefundEscrow(old(View()), params, k).Some?)
      ensures ok ==> View() == Ledger.RefundEscrow(old(View()), params, k).value
    {
      hide Ledger.AdjustBalance;
      ok := AdjustBalance(k.0, escrows[k].balance);
      if !ok {
        return false;
      }
      ok := AdjustBalance(k.0, escrows[k].fee);
      if !ok {
        return false;
      }
      escrows := escrows - {k};
      return true;
    }

    method EscrowApprove(k: Ledger.EscrowKey, to: Name, agent: Name, who: Name, approve: bool) returns (ok: bool)
      requires Valid()
      modifies this`accounts, this`proxied, this`witnesses, this`escrows
      ensures Valid() && (ok <==> Ledger.EscrowApprove(old(View()), params, k, to, agent, who, approve).Some?)
      ensures ok ==> View() == Ledger.EscrowApprove(old(View()), params, k, to, agent, who, approve).value
      ensures ok ==> Keeps(old(View()), View(), params, 0)
    {
      hide Ledger.AdjustBalance, Ledger.RefundEscrow, Keeps;
      ApprovalKeeps(View(), params, k, to, agent, who, approve);
      if (who != to && who != agent) || k !in escrows {
        return false;
      }
      var e := escrows[k];
      if e.to != to || e.agent != agent || e.ratifyBy < time {
        return false;
      }
      var reject := !approve;
      if who == to {
        if e.toApproved {
          return false;
        }
        if !reject {
          e := e.(toApproved := true);
        }
      }
      if who == agent {
        if e.agentApproved {
          return false;
        }
        if !reject {
          e := e.(agentApproved := true);
        }
      }
      if reject {
        ok := RefundEscrow(k);
        return;
      }
      if e.toApproved && e.agentApproved {
        ok := AdjustBalance(agent, e.fee);
        if !ok {
          return false;
        }
        e := e.(fee := 0);
      }
      escrows := escrows[k := e];
      return true;
    }

    method EscrowRelease(k: Ledger.EscrowKey, to: Name, agent: Name, who: Name, receiver: Name,
                         amount: int) returns (ok: bool)
      requires Valid()
      modifies this`accounts, this`proxied, this`witnesses, this`escrows
      ensures Valid() && (ok <==> Ledger.EscrowRelease(old(View()), params, k, to, agent, who, receiver, amount).Some?)
      ensures ok ==> View() == Ledger.EscrowRelease(old(View()), params, k, to, agent, who, receiver, amount).value
      ensures ok ==> Keeps(old(View()), View(), params, 0)
    {
      hide Ledger.AdjustBalance, Keeps;
      ReleaseKeeps(View(), params, k, to, agent, who, receiver, amount);
      if amount <= 0 || k.0 !in accounts || k !in escrows {
        return false;
      }
      var e := escrows[k];
      if e.balance < amount || e.to != to || e.agent != agent || (receiver != k.0 && receiver != e.to) {
        return false;
      }
      if !e.toApproved || !e.agentApproved {
        return false;
      }
      if e.disputed {
        if who != e.agent {
          return false;
        }
      } else {
        if who != k.0 && who != e.to {
          return false;
        }
        if e.expires > time {
          if who == k.0 {
            if receiver != e.to {
              return false;
            }
          } else if receiver != k.0 {
            return false;
          }
        }
      }
      ok := AdjustBalance(receiver, amount);
      if !ok {
        return false;
      }
      e := e.(balance := e.balance - amount);
      escrows := if e.balance == 0 then escrows - {k} else escrows[k := e];
      return true;
    }

    /** Returns every escrow that was not ratified in time, in some order; none is left. */
    method ExpireEscrowRatification() returns (ok: bool, ghost order: seq<Ledger.EscrowKey>)
      requires Valid()
      modifies this`accounts, this`proxied, this`witnesses, this`escrows
      ensures Valid() && (ok ==> Expired(old(View()), params, order) == Some(View()))
      ensures ok ==> Keeps(old(View()), View(), params, 0)
      ensures old(LedgerInvariants.Good(View(), params)) ==> ok
      ensures ok ==> forall k {:trigger escrows[k]} :: k in escrows ==> !Due(escrows[k], time)
    {
      hide Ledger.RefundEscrow, Expired, Due, Sound, Keeps, LedgerInvariants.Good, LedgerSteps.Conserves;
      InterestSound(params.config);
      order := [];
      NoneExpired(View(), params);
      KeepsItself(View(), params);
      var due := set k | k in escrows && Due(escrows[k], time);
      while due != {}
        invariant Valid() && Expired(old(View()), params, order) == Some(View())
          && Keeps(old(View()), View(), params, 0)
        invariant due == set k | k in escrows && Due(escrows[k], time)
        decreases |due|
      {
        var k :| k in due;
        ExpiredNext(old(View()), params, order, k);
        EscrowGone(View(), params, k);
        RefundKeeps(View(), params, k);
        ghost var before := View();
        KeptGood(old(View()), before, params);
        ok := RefundEscrow(k);
        if !ok {
          return;
        }
        KeepsAgain(old(View()), before, View(), params);
        order := order + [k];
        due := due - {k};
      }
      forall k | k in escrows
        ensures !Due(escrows[k], time)
      {
        assert k !in due;
      }
      return true, order;
    }
  }
}
