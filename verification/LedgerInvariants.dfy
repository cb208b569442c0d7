/**
 What every step of the ledger keeps: the exact tally, virtual time, solvency, and the balance sheet that
 the chain checks at run time.
 */
module LedgerInvariants {
  import opened ChainTypes
  import opened Sums
  import opened VoteTally
  import opened ProxyForest
  import opened TallySteps
  import opened FromScratch
  import opened Economics
  import opened Election
  import opened Schedule
  import opened Ledger

  // ----- sums -----

  ghost function Vested(accounts: map<Name, Account>): nat -> int {
    (b: nat) => if b in accounts then accounts[b].vesting else 0
  }

  ghost function FundsIn(ids: seq<Name>, accounts: map<Name, Account>): int {
    Sum(ids, Funds(accounts))
  }

  ghost function VestsIn(ids: seq<Name>, accounts: map<Name, Account>): int {
    Sum(ids, Vested(accounts))
  }

  ghost function FundSum(t: Tally): int {
    FundsIn(t.ids, t.accounts)
  }

  ghost function VestSum(t: Tally): int {
    VestsIn(t.ids, t.accounts)
  }

  ghost function EscrowTotal(m: map<EscrowKey, Escrow>): int {
    if m == map[] then 0
    else
      var k :| k in m;
      m[k].balance + m[k].fee + EscrowTotal(m - {k})
  }

  lemma {:induction false} EscrowSplit(m: map<EscrowKey, Escrow>, k: EscrowKey)
    requires k in m
    ensures EscrowTotal(m) == m[k].balance + m[k].fee + EscrowTotal(m - {k})
    decreases |m|
  {
    var j :| j in m && EscrowTotal(m) == m[j].balance + m[j].fee + EscrowTotal(m - {j});
    if j != k {
      EscrowSplit(m - {j}, k);
      EscrowSplit(m - {k}, j);
      assert m - {j} - {k} == m - {k} - {j};
    }
  }

  lemma EscrowPut(m: map<EscrowKey, Escrow>, k: EscrowKey, e: Escrow)
    ensures EscrowTotal(m[k := e])
         == EscrowTotal(m) + e.balance + e.fee - if k in m then m[k].balance + m[k].fee else 0
  {
    EscrowSplit(m[k := e], k);
    assert m[k := e] - {k} == m - {k};
    if k in m {
      EscrowSplit(m, k);
    } else {
      assert m - {k} == m;
    }
  }

  // ----- invariants -----

  ghost predicate SolventAccount(x: Account) {
    x.balance >= 0 && x.vesting >= 0 && x.power.toWithdraw >= 0 && (x.power.next.Some? ==> x.power.rate > 0)
  }

  ghost predicate Solvent(accounts: map<Name, Account>) {
    forall a {:trigger accounts[a]} :: a in accounts ==>
      SolventAccount(accounts[a])
  }

  ghost predicate TallyGood(t: Tally, names: seq<Name>) {
    && Exact(t) && CountsExact(t)
    && Table(t.x.witnesses, names) && InTime(t.x.witnesses, t.e.now)
    && Solvent(t.accounts)
  }

  ghost predicate EscrowsGood(s: State) {
    forall k {:trigger s.escrows[k]} :: k in s.escrows ==>
      && s.escrows[k].balance > 0 && s.escrows[k].fee >= 0
      && k.0 in s.tally.accounts && s.escrows[k].to in s.tally.accounts && s.escrows[k].agent in s.tally.accounts
      && s.escrows[k].agent != s.escrows[k].to && s.escrows[k].agent != k.0
      && (s.escrows[k].toApproved && s.escrows[k].agentApproved ==> s.escrows[k].fee == 0)
  }

  /** The promotion pool covers what is locked, as long as the coinbase lasts. */
  ghost predicate PromotionCovered(s: State, p: Params) {
    && 0 < p.config.coinbaseBlocks < TWO_128 && 0 <= s.econ.initialPromotion < TWO_64
    && (s.head <= p.config.coinbaseBlocks ==>
      Economics.Locked(s.econ.initialPromotion, p.config, s.head) <= s.econ.promotion)
  }

  /** The supply is what accounts and escrows hold, and vesting shares add up. */
  ghost predicate Balanced(s: State) {
    && s.supply == FundSum(s.tally) + EscrowTotal(s.escrows)
    && s.totalVesting == VestSum(s.tally)
  }

  ghost predicate Good(s: State, p: Params) {
    && Sound(p.config)
    && TallyGood(s.tally, s.names)
    && NonNegative(s.econ) && EscrowsGood(s) && PromotionCovered(s, p)
    && Balanced(s)
  }

  /** Coins in circulation and coins in the pools. */
  ghost function Wealth(s: State): int {
    s.supply + Pools(s.econ)
  }

  // ----- witnesses keep their ids and keys through every change of votes -----

  ghost predicate SameIds(ws: Witnesses, vs: Witnesses) {
    && ws.Keys == vs.Keys
    && forall w {:trigger ws[w]} {:trigger vs[w]} :: w in ws ==> ws[w].id == vs[w].id && ws[w].key == vs[w].key
  }

  lemma SameIdsTable(ws: Witnesses, vs: Witnesses, names: seq<Name>)
    requires SameIds(ws, vs) && Table(ws, names)
    ensures Table(vs, names)
  {
    forall a, b | a in vs && b in vs && a != b
      ensures vs[a].id != vs[b].id
    {
      assert ws[a].id != ws[b].id;
    }
  }

  lemma {:induction false} AdjustOneIds(e: Electors, x: Index, a: Name, delta: int, depth: nat)
    ensures SameIds(x.witnesses, AdjustOne(e, x, a, delta, depth).witnesses)
    decreases MAX_PROXY_DEPTH - depth
  {
    var q := ProxyOf(e, a);
    if q != SELF && depth < MAX_PROXY_DEPTH {
      AdjustOneIds(e, Bump(x, q, depth, delta), q, delta, depth + 1);
    }
  }

  lemma {:induction false} AdjustAllIds(e: Electors, x: Index, a: Name, delta: seq<int>, depth: nat)
    requires |delta| == MAX_PROXY_DEPTH + 1 && depth <= MAX_PROXY_DEPTH
    ensures SameIds(x.witnesses, AdjustAll(e, x, a, delta, depth).witnesses)
    decreases MAX_PROXY_DEPTH - depth
  {
    var q := ProxyOf(e, a);
    if q != SELF && depth < MAX_PROXY_DEPTH {
      BumpFromWitnesses(x, q, delta, depth, 0);
      AdjustAllIds(e, BumpFrom(x, q, delta, depth, 0), q, delta, depth + 1);
    }
  }

  // ----- the tally under the primitive moves -----

  /** r holds `funds` more coins and `vests` more vesting shares than t, and is as good. */
  ghost predicate Shifted(t: Tally, r: Tally, names: seq<Name>, funds: int, vests: int) {
    && TallyGood(r, names)
    && r.ids == t.ids && r.accounts.Keys == t.accounts.Keys && r.e == t.e
    && FundSum(r) == FundSum(t) + funds
    && VestSum(r) == VestSum(t) + vests
  }

  lemma SumsShift(t: Tally, a: Name, y: Account)
    requires Distinct(t.ids) && a in t.ids && a in t.accounts
    ensures FundsIn(t.ids, t.accounts[a := y]) == FundSum(t) + Total(y) - Total(t.accounts[a])
    ensures VestsIn(t.ids, t.accounts[a := y]) == VestSum(t) + y.vesting - t.accounts[a].vesting
  {
    var accounts := t.accounts[a := y];
    SumChangedAt(t.ids, Funds(t.accounts), Funds(accounts), a, Total(y) - Total(t.accounts[a]));
    SumChangedAt(t.ids, Vested(t.accounts), Vested(accounts), a, y.vesting - t.accounts[a].vesting);
  }

  lemma AccountsStayGood(t: Tally, r: Tally, a: Name, y: Account)
    requires CountsExact(t) && Solvent(t.accounts) && a in t.accounts && SolventAccount(y)
    requires y.votedFor == t.accounts[a].votedFor && r.accounts == t.accounts[a := y] && r.e.votes == t.e.votes
    ensures CountsExact(r) && Solvent(r.accounts)
  {
    hide VotesOf;
    assert t.accounts[a].votedFor == |VotesOf(t.e.votes, a)|;
  }

  lemma CreditShifts(t: Tally, names: seq<Name>, a: Name, y: Account, delta: int)
    requires TallyGood(t, names) && a in t.accounts && SolventAccount(y)
    requires Total(y) == Total(t.accounts[a]) + delta && y.votedFor == t.accounts[a].votedFor
    ensures Shifted(t, Credited(t, a, y, delta), names, delta, y.vesting - t.accounts[a].vesting)
  {
    hide AdjustOne, Exact, InTime, Table, SameIds, FundsIn, VestsIn, CountsExact, Solvent;
    assert Enumerates(t.ids, t.accounts, t.e) by { ExactEnumerates(t); }
    AccountsStayGood(t, Credited(t, a, y, delta), a, y);
    CreditKeepsExact(t, a, y, delta);
    AdjustOneInTime(t.e, t.x, a, delta, 0);
    AdjustOneIds(t.e, t.x, a, delta, 0);
    SameIdsTable(t.x.witnesses, Credited(t, a, y, delta).x.witnesses, names);
    SumsShift(t, a, y);
  }

  lemma ExactEnumerates(t: Tally)
    requires Exact(t)
    ensures Enumerates(t.ids, t.accounts, t.e)
  {}

  lemma RewriteShifts(t: Tally, names: seq<Name>, a: Name, y: Account)
    requires TallyGood(t, names) && a in t.accounts && SolventAccount(y)
    requires Total(y) == Total(t.accounts[a]) || a == NULL_ACCOUNT
    requires y.votedFor == t.accounts[a].votedFor
    ensures Shifted(t, t.(accounts := t.accounts[a := y]), names, Total(y) - Total(t.accounts[a]),
      y.vesting - t.accounts[a].vesting)
  {
    hide Exact, InTime, Table, FundsIn, VestsIn, CountsExact, Solvent;
    assert Enumerates(t.ids, t.accounts, t.e) by { ExactEnumerates(t); }
    AccountsStayGood(t, t.(accounts := t.accounts[a := y]), a, y);
    if a == NULL_ACCOUNT {
      NullIsIdle(t);
    }
    RewriteKeepsExact(t, a, y);
    SumsShift(t, a, y);
  }

  lemma NullIsIdle(t: Tally)
    requires Exact(t) && NULL_ACCOUNT in t.accounts
    ensures t.e.proxy[NULL_ACCOUNT] == SELF && forall w {:trigger (NULL_ACCOUNT, w) in t.e.votes} ::
      (NULL_ACCOUNT, w) !in t.e.votes
  {}

  // ----- the primitive moves -----

  ghost predicate MovesTally(s: State, r: State, funds: int, vests: int) {
    r == s.(tally := r.tally) && Shifted(s.tally, r.tally, s.names, funds, vests)
  }

  lemma AdjustBalanceMoves(s: State, p: Params, a: Name, delta: int)
    requires Sound(p.config) && TallyGood(s.tally, s.names) && AdjustBalance(s, p, a, delta).Some?
    ensures MovesTally(s, AdjustBalance(s, p, a, delta).value, delta, 0)
    ensures AdjustBalance(s, p, a, delta).value.tally.accounts[a].balance == s.tally.accounts[a].balance + delta
  {
    hide Exact, InTime, Table, AdjustOne, TurnsLeft;
    var x := s.tally.accounts[a];
    CreditShifts(s.tally, s.names, a, AdjustBalance(s, p, a, delta).value.tally.accounts[a], delta);
  }

  /** A deposit into an existing account cannot fail. */
  lemma DepositSucceeds(s: State, p: Params, a: Name, delta: nat)
    requires Sound(p.config) && TallyGood(s.tally, s.names) && a in s.tally.accounts
    ensures AdjustBalance(s, p, a, delta).Some?
  {
    assert s.tally.accounts[a].balance >= 0;
  }

  lemma CreateVestingMoves(s: State, p: Params, a: Name, delta: int)
    requires Sound(p.config) && TallyGood(s.tally, s.names) && CreateVesting(s, p, a, delta).Some?
    ensures MovesTally(s, CreateVesting(s, p, a, delta).value, delta, delta)
  {
    hide Exact, InTime, Table, AdjustOne, TurnsLeft;
    CreditShifts(s.tally, s.names, a, CreateVesting(s, p, a, delta).value.tally.accounts[a], delta);
  }

  lemma VestMoves(s: State, a: Name, delta: int)
    requires TallyGood(s.tally, s.names) && Vest(s, a, delta).Some? && delta >= 0
    ensures var r := Vest(s, a, delta).value;
      MovesTally(s.(totalVesting := s.totalVesting + delta), r, 0, delta)
  {
    hide Exact, InTime, Table, CountsExact, FundsIn, VestsIn;
    RewriteShifts(s.tally, s.names, a, Vest(s, a, delta).value.tally.accounts[a]);
  }
}
