/**
 The proxy forest gives the tally its meaning: the amount proxied to an account from depth k is the sum
 of the funds of the accounts exactly k + 1 hops below it, and a witness's votes are the summed weight of
 its direct voters. Every change of funds, votes or proxies keeps both exact.
 */
module ProxyForest {
  import opened ChainTypes
  import opened Sums
  import opened VoteTally

  /** Everything the tally speaks about. `ids` lists the accounts in id order. */
  datatype Tally = Tally(ids: seq<Name>, accounts: map<Name, Account>, e: Electors, x: Index)

  /** The account k hops up the proxy chain, or SELF where the chain is shorter. */
  ghost function Hop(proxy: map<Name, Name>, a: Name, k: nat): Name
    decreases k
  {
    if k == 0 then a
    else if a in proxy && proxy[a] != SELF then Hop(proxy, proxy[a], k - 1)
    else SELF
  }

  ghost predicate Acyclic(proxy: map<Name, Name>) {
    forall a, k: nat {:trigger Hop(proxy, a, k)} :: a in proxy && k > 0 ==> Hop(proxy, a, k) != a
  }

  ghost predicate Closed(proxy: map<Name, Name>) {
    && SELF !in proxy
    && (forall a {:trigger proxy[a]} :: a in proxy ==> proxy[a] == SELF || proxy[a] in proxy)
  }

  /** Vote records join existing roots of the forest to existing witnesses, and the burn account,
      which nobody can sign for, neither votes nor proxies. */
  ghost predicate VotersAreRoots(e: Electors, x: Index) {
    && (forall a, w {:trigger (a, w) in e.votes} :: (a, w) in e.votes ==>
          a in e.proxy && e.proxy[a] == SELF && a != NULL_ACCOUNT && w in x.witnesses)
    && (NULL_ACCOUNT in e.proxy ==> e.proxy[NULL_ACCOUNT] == SELF)
  }

  ghost predicate Enumerates(ids: seq<Name>, accounts: map<Name, Account>, e: Electors) {
    && Distinct(ids)
    && (forall a :: a in ids <==> a in accounts)
    && accounts.Keys == e.proxy.Keys
  }

  ghost predicate WellFormed(t: Tally) {
    && Enumerates(t.ids, t.accounts, t.e)
    && Closed(t.e.proxy)
    && Acyclic(t.e.proxy)
    && VotersAreRoots(t.e, t.x)
  }

  // ----- what the index should hold -----

  /** The funds of b if it sits exactly k hops below a. */
  ghost function FundsAt(accounts: map<Name, Account>, proxy: map<Name, Name>, k: nat, a: Name): nat -> int {
    (b: nat) => if b in accounts && Hop(proxy, b, k) == a then Total(accounts[b]) else 0
  }

  ghost function FundsBelow(ids: seq<Name>, accounts: map<Name, Account>, proxy: map<Name, Name>, k: nat,
                            a: Name): int {
    Sum(ids, FundsAt(accounts, proxy, k, a))
  }

  function ProxiedTotal(x: Index, a: Name): int {
    Proxied(x, a, 0) + Proxied(x, a, 1) + Proxied(x, a, 2) + Proxied(x, a, 3)
  }

  /** What a direct vote of `a` is worth: its own funds and everything proxied to it. */
  function Weight(accounts: map<Name, Account>, x: Index, a: Name): int {
    (if a in accounts then Total(accounts[a]) else 0) + ProxiedTotal(x, a)
  }

  ghost function WeightFor(accounts: map<Name, Account>, votes: set<(Name, Name)>, x: Index, w: Name): nat -> int {
    (a: nat) => if (a, w) in votes then Weight(accounts, x, a) else 0
  }

  ghost function VoteSum(ids: seq<Name>, accounts: map<Name, Account>, votes: set<(Name, Name)>, x: Index,
                         w: Name): int {
    Sum(ids, WeightFor(accounts, votes, x, w))
  }

  ghost predicate SlotsExact(t: Tally) {
    forall a, k: nat {:trigger Proxied(t.x, a, k)} :: a in t.accounts && k < MAX_PROXY_DEPTH ==>
      Proxied(t.x, a, k) == FundsBelow(t.ids, t.accounts, t.e.proxy, k + 1, a)
  }

  ghost predicate VotesExact(t: Tally) {
    forall w {:trigger t.x.witnesses[w]} :: w in t.x.witnesses ==>
      t.x.witnesses[w].votes == VoteSum(t.ids, t.accounts, t.e.votes, t.x, w)
  }

  ghost predicate Exact(t: Tally) {
    WellFormed(t) && SlotsExact(t) && VotesExact(t)
  }

  // ----- the effect of the scalar form -----

  /** An amount started at `depth` is added to slot k of the account k + 1 - depth hops up. */
  lemma {:induction false} AdjustOneSlots(e: Electors, x: Index, a: Name, delta: int, depth: nat, b: Name, k: nat)
    requires Closed(e.proxy) && b in e.proxy && k < MAX_PROXY_DEPTH
    ensures Proxied(AdjustOne(e, x, a, delta, depth), b, k)
         == Proxied(x, b, k) + if depth <= k && Hop(e.proxy, a, k + 1 - depth) == b then delta else 0
    decreases MAX_PROXY_DEPTH - depth
  {
    var p := ProxyOf(e, a);
    if p != SELF && depth < MAX_PROXY_DEPTH {
      AdjustOneSlots(e, Bump(x, p, depth, delta), p, delta, depth + 1, b, k);
      if depth == k {
        assert Hop(e.proxy, a, 1) == Hop(e.proxy, p, 0);
      }
    }
  }

  lemma {:induction false} AdjustOneWitnesses(e: Electors, x: Index, a: Name, delta: int, depth: nat)
    ensures AdjustOne(e, x, a, delta, depth).witnesses.Keys == x.witnesses.Keys
    decreases MAX_PROXY_DEPTH - depth
  {
    var p := ProxyOf(e, a);
    if p != SELF && depth < MAX_PROXY_DEPTH {
      AdjustOneWitnesses(e, Bump(x, p, depth, delta), p, delta, depth + 1);
    }
  }

  lemma BumpedWeight(accounts: map<Name, Account>, x: Index, p: Name, k: nat, delta: int, a: Name)
    requires k < MAX_PROXY_DEPTH
    ensures Weight(accounts, Bump(x, p, k, delta), a) == Weight(accounts, x, a) + if a == p then delta else 0
  {}

  lemma BumpedVoteSum(ids: seq<Name>, accounts: map<Name, Account>, votes: set<(Name, Name)>, x: Index,
                      w: Name, p: Name, k: nat, delta: int)
    requires Distinct(ids) && p in ids && k < MAX_PROXY_DEPTH
    ensures VoteSum(ids, accounts, votes, Bump(x, p, k, delta), w)
         == VoteSum(ids, accounts, votes, x, w) + if (p, w) in votes then delta else 0
  {
    hide Weight;
    var y := Bump(x, p, k, delta);
    var f, g := WeightFor(accounts, votes, x, w), WeightFor(accounts, votes, y, w);
    forall a
      ensures Weight(accounts, y, a) == Weight(accounts, x, a) + if a == p then delta else 0
    {
      BumpedWeight(accounts, x, p, k, delta, a);
    }
    SumChangedAt(ids, f, g, p, if (p, w) in votes then delta else 0);
  }

  lemma SameSlotsVoteSum(ids: seq<Name>, accounts: map<Name, Account>, votes: set<(Name, Name)>, x: Index, y: Index,
                         w: Name)
    requires x.proxied == y.proxied
    ensures VoteSum(ids, accounts, votes, x, w) == VoteSum(ids, accounts, votes, y, w)
  {
    SumEqual(ids, WeightFor(accounts, votes, x, w), WeightFor(accounts, votes, y, w));
  }

  /** The excess of a witness's recorded votes over the weight of its voters. */
  ghost function Gap(ids: seq<Name>, accounts: map<Name, Account>, votes: set<(Name, Name)>, x: Index, w: Name): int
    requires w in x.witnesses
  {
    x.witnesses[w].votes - VoteSum(ids, accounts, votes, x, w)
  }

  /** The scalar form raises votes and weights in step; only a root's own direct votes run ahead. */
  lemma {:induction false} AdjustOneGap(ids: seq<Name>, accounts: map<Name, Account>, e: Electors, x: Index,
                                        a: Name, delta: int, depth: nat, w: Name)
    requires Enumerates(ids, accounts, e) && Closed(e.proxy) && VotersAreRoots(e, x)
    requires a in accounts && w in x.witnesses
    ensures w in AdjustOne(e, x, a, delta, depth).witnesses
    ensures Gap(ids, accounts, e.votes, AdjustOne(e, x, a, delta, depth), w)
         == Gap(ids, accounts, e.votes, x, w) + if (a, w) in e.votes then delta else 0
    decreases MAX_PROXY_DEPTH - depth
  {
    hide VoteSum;
    var p := ProxyOf(e, a);
    if p == SELF {
      SameSlotsVoteSum(ids, accounts, e.votes, x, AdjustVotes(e, x, a, delta), w);
    } else if depth < MAX_PROXY_DEPTH {
      BumpedVoteSum(ids, accounts, e.votes, x, w, p, depth, delta);
      AdjustOneGap(ids, accounts, e, Bump(x, p, depth, delta), p, delta, depth + 1, w);
    }
  }

  // ----- changes of funds -----

  /** A change of an account's funds followed by the scalar form. */
  function Credited(t: Tally, a: Name, account: Account, delta: int): Tally {
    t.(accounts := t.accounts[a := account], x := AdjustOne(t.e, t.x, a, delta, 0))
  }

  lemma CreditedBelow(ids: seq<Name>, accounts: map<Name, Account>, proxy: map<Name, Name>,
                      a: Name, account: Account, delta: int, k: nat, b: Name)
    requires Distinct(ids) && a in ids && a in accounts && Total(account) == Total(accounts[a]) + delta
    ensures FundsBelow(ids, accounts[a := account], proxy, k, b)
         == FundsBelow(ids, accounts, proxy, k, b) + if Hop(proxy, a, k) == b then delta else 0
  {
    hide Hop;
    SumChangedAt(ids, FundsAt(accounts, proxy, k, b), FundsAt(accounts[a := account], proxy, k, b), a,
                 if Hop(proxy, a, k) == b then delta else 0);
  }

  lemma CreditedSlot(t: Tally, a: Name, account: Account, delta: int, b: Name, k: nat)
    requires Exact(t) && a in t.accounts && Total(account) == Total(t.accounts[a]) + delta
    requires b in t.accounts && k < MAX_PROXY_DEPTH
    ensures var r := Credited(t, a, account, delta);
      Proxied(r.x, b, k) == FundsBelow(r.ids, r.accounts, r.e.proxy, k + 1, b)
  {
    hide AdjustOne, Acyclic, VotersAreRoots, VotesExact, FundsBelow, Hop;
    AdjustOneSlots(t.e, t.x, a, delta, 0, b, k);
    CreditedBelow(t.ids, t.accounts, t.e.proxy, a, account, delta, k + 1, b);
  }

  lemma CreditedVotes(t: Tally, a: Name, account: Account, delta: int, w: Name)
    requires Exact(t) && a in t.accounts && Total(account) == Total(t.accounts[a]) + delta
    requires w in t.x.witnesses
    ensures var r := Credited(t, a, account, delta);
      w in r.x.witnesses && r.x.witnesses[w].votes == VoteSum(r.ids, r.accounts, r.e.votes, r.x, w)
  {
    hide AdjustOne, Acyclic, SlotsExact;
    var accounts := t.accounts[a := account];
    SumChangedAt(t.ids, WeightFor(t.accounts, t.e.votes, t.x, w), WeightFor(accounts, t.e.votes, t.x, w), a,
                 if (a, w) in t.e.votes then delta else 0);
    AdjustOneGap(t.ids, accounts, t.e, t.x, a, delta, 0, w);
  }

  /** Moving funds into or out of an account and sending the difference up the chain keeps the tally exact. */
  lemma CreditKeepsExact(t: Tally, a: Name, account: Account, delta: int)
    requires Exact(t) && a in t.accounts && Total(account) == Total(t.accounts[a]) + delta
    ensures Exact(Credited(t, a, account, delta))
  {
    var r := Credited(t, a, account, delta);
    AdjustOneWitnesses(t.e, t.x, a, delta, 0);
    forall b, k: nat | b in r.accounts && k < MAX_PROXY_DEPTH
      ensures Proxied(r.x, b, k) == FundsBelow(r.ids, r.accounts, r.e.proxy, k + 1, b)
    {
      CreditedSlot(t, a, account, delta, b, k);
    }
    forall w | w in r.x.witnesses
      ensures r.x.witnesses[w].votes == VoteSum(r.ids, r.accounts, r.e.votes, r.x, w)
    {
      CreditedVotes(t, a, account, delta, w);
    }
  }

  /** Rewriting an account is invisible to the tally if its funds stay the same, or if it is a root
      that votes for nobody. */
  lemma RewriteKeepsExact(t: Tally, a: Name, account: Account)
    requires Exact(t) && a in t.accounts
    requires Total(account) == Total(t.accounts[a])
          || (t.e.proxy[a] == SELF && forall w {:trigger (a, w) in t.e.votes} :: (a, w) !in t.e.votes)
    ensures Exact(t.(accounts := t.accounts[a := account]))
  {
    hide Acyclic, VotersAreRoots, FundsBelow, VoteSum;
    var accounts := t.accounts[a := account];
    forall b, k: nat | b in accounts && k < MAX_PROXY_DEPTH
      ensures Proxied(t.x, b, k) == FundsBelow(t.ids, accounts, t.e.proxy, k + 1, b)
    {
      CreditedBelow(t.ids, t.accounts, t.e.proxy, a, account, Total(account) - Total(t.accounts[a]), k + 1, b);
    }
    forall w | w in t.x.witnesses
      ensures t.x.witnesses[w].votes == VoteSum(t.ids, accounts, t.e.votes, t.x, w)
    {
      RewrittenVoteSum(t.ids, t.accounts, t.e.votes, t.x, w, a, account);
    }
  }

  lemma RewrittenVoteSum(ids: seq<Name>, accounts: map<Name, Account>, votes: set<(Name, Name)>, x: Index, w: Name,
                         a: Name, account: Account)
    requires a in accounts && (Total(account) == Total(accounts[a]) || (a, w) !in votes)
    ensures VoteSum(ids, accounts[a := account], votes, x, w) == VoteSum(ids, accounts, votes, x, w)
  {
    SumEqual(ids, WeightFor(accounts, votes, x, w), WeightFor(accounts[a := account], votes, x, w));
  }
}
