/**
 The tally counted from scratch: a witness's votes are the funds of all accounts whose proxy chain of at
 most MAX_PROXY_DEPTH hops ends at one of its voters. The maintained index agrees with this count, and so
 does the hardfork's recalculation, except for the slots it does not clear.
 */
module FromScratch {
  import opened ChainTypes
  import opened Sums
  import opened VoteTally
  import opened ProxyForest

  /** The root of the proxy chain of `a`, or SELF if it is more than n hops away. */
  ghost function Root(proxy: map<Name, Name>, a: Name, n: nat): Name
    decreases n
  {
    if a !in proxy || proxy[a] == SELF then a
    else if n == 0 then SELF
    else Root(proxy, proxy[a], n - 1)
  }

  ghost function RootFunds(accounts: map<Name, Account>, e: Electors, n: nat, w: Name): nat -> int {
    (b: nat) => if b in accounts && (Root(e.proxy, b, n), w) in e.votes then Total(accounts[b]) else 0
  }

  /** The votes of w counted directly from funds, proxies and vote records. */
  ghost function Counted(ids: seq<Name>, accounts: map<Name, Account>, e: Electors, n: nat, w: Name): int {
    Sum(ids, RootFunds(accounts, e, n, w))
  }

  // ----- exchanging the order of summation -----

  /** The funds, among `bs`, of accounts exactly k hops below a voter of w. */
  ghost function VotedAt(accounts: map<Name, Account>, e: Electors, k: nat, w: Name): nat -> int {
    (b: nat) => if b in accounts && (Hop(e.proxy, b, k), w) in e.votes then Total(accounts[b]) else 0
  }

  ghost function BelowVoters(bs: seq<Name>, accounts: map<Name, Account>, e: Electors, k: nat, w: Name): nat -> int {
    (a: nat) => if (a, w) in e.votes then Sum(bs, FundsAt(accounts, e.proxy, k, a)) else 0
  }

  ghost function FundsIfVoted(accounts: map<Name, Account>, e: Electors, k: nat, w: Name, b: Name): nat -> int {
    (a: nat) => if (a, w) in e.votes && b in accounts && Hop(e.proxy, b, k) == a then Total(accounts[b]) else 0
  }

  lemma OneAccountBelow(ids: seq<Name>, accounts: map<Name, Account>, e: Electors, k: nat, w: Name, b: Name)
    requires Distinct(ids) && forall a {:trigger (a, w) in e.votes} :: (a, w) in e.votes ==> a in ids
    ensures Sum(ids, FundsIfVoted(accounts, e, k, w, b)) == VotedAt(accounts, e, k, w)(b)
  {
    hide Hop;
    var zero := (a: nat) => 0;
    var f := FundsIfVoted(accounts, e, k, w, b);
    var c := Hop(e.proxy, b, k);
    SumZero(ids, zero);
    if (c, w) in e.votes {
      SumChangedAt(ids, zero, f, c, f(c));
    } else {
      SumEqual(ids, zero, f);
    }
  }

  lemma {:induction false} SumsExchange(ids: seq<Name>, bs: seq<Name>, accounts: map<Name, Account>, e: Electors,
                                        k: nat, w: Name)
    requires Distinct(ids) && forall a {:trigger (a, w) in e.votes} :: (a, w) in e.votes ==> a in ids
    ensures Sum(ids, BelowVoters(bs, accounts, e, k, w)) == Sum(bs, VotedAt(accounts, e, k, w))
    decreases bs
  {
    hide Hop;
    if bs == [] {
      SumZero(ids, BelowVoters(bs, accounts, e, k, w));
    } else {
      SumsExchange(ids, bs[1..], accounts, e, k, w);
      OneAccountBelow(ids, accounts, e, k, w, bs[0]);
      SumAdd(ids, FundsIfVoted(accounts, e, k, w, bs[0]), BelowVoters(bs[1..], accounts, e, k, w),
             BelowVoters(bs, accounts, e, k, w));
    }
  }

  // ----- the maintained votes are the counted votes -----

  /** The part of a voter's weight that comes from at most n hops below it. */
  ghost function WeightUpTo(ids: seq<Name>, accounts: map<Name, Account>, proxy: map<Name, Name>, n: nat, a: Name): int
    decreases n
  {
    FundsBelow(ids, accounts, proxy, n, a) + if n == 0 then 0 else WeightUpTo(ids, accounts, proxy, n - 1, a)
  }

  ghost function VotersUpTo(ids: seq<Name>, accounts: map<Name, Account>, e: Electors, n: nat, w: Name): nat -> int {
    (a: nat) => if (a, w) in e.votes then WeightUpTo(ids, accounts, e.proxy, n, a) else 0
  }

  /** A root reached within n hops is reached within n - 1 or sits at exactly n. */
  lemma {:induction false} RootWithin(e: Electors, x: Index, b: Name, n: nat, w: Name)
    requires Closed(e.proxy) && VotersAreRoots(e, x) && n > 0
    ensures (Root(e.proxy, b, n), w) in e.votes <==>
              (Root(e.proxy, b, n - 1), w) in e.votes || (Hop(e.proxy, b, n), w) in e.votes
    ensures !((Root(e.proxy, b, n - 1), w) in e.votes && (Hop(e.proxy, b, n), w) in e.votes)
    decreases n
  {
    if b in e.proxy && e.proxy[b] != SELF {
      if n == 1 {
        assert Hop(e.proxy, b, 1) == Hop(e.proxy, e.proxy[b], 0) == e.proxy[b];
        assert Root(e.proxy, b, 1) == Root(e.proxy, e.proxy[b], 0);
      } else {
        RootWithin(e, x, e.proxy[b], n - 1, w);
      }
    }
  }

  lemma RootAtZero(proxy: map<Name, Name>, b: Name)
    ensures Hop(proxy, b, 0) == b
    ensures Root(proxy, b, 0) == if b !in proxy || proxy[b] == SELF then b else SELF
  {}

  lemma VotersCountThemselves(ids: seq<Name>, accounts: map<Name, Account>, e: Electors, x: Index, w: Name)
    requires Enumerates(ids, accounts, e) && Closed(e.proxy) && VotersAreRoots(e, x)
    ensures Sum(ids, VotersUpTo(ids, accounts, e, 0, w)) == Counted(ids, accounts, e, 0, w)
  {
    hide Hop, Root, Sum;
    SumsExchange(ids, ids, accounts, e, 0, w);
    forall b | b in ids
      ensures RootFunds(accounts, e, 0, w)(b) == VotedAt(accounts, e, 0, w)(b)
    {
      RootAtZero(e.proxy, b);
    }
    SumEqual(ids, VotedAt(accounts, e, 0, w), RootFunds(accounts, e, 0, w));
    SumEqual(ids, VotersUpTo(ids, accounts, e, 0, w), BelowVoters(ids, accounts, e, 0, w));
  }

  lemma {:induction false} VotersCountRoots(ids: seq<Name>, accounts: map<Name, Account>, e: Electors, x: Index,
                                            n: nat, w: Name)
    requires Enumerates(ids, accounts, e) && Closed(e.proxy) && VotersAreRoots(e, x)
    ensures Sum(ids, VotersUpTo(ids, accounts, e, n, w)) == Counted(ids, accounts, e, n, w)
    decreases n
  {
    hide Hop, Root, Sum;
    if n == 0 {
      VotersCountThemselves(ids, accounts, e, x, w);
    } else {
      SumsExchange(ids, ids, accounts, e, n, w);
      VotersCountRoots(ids, accounts, e, x, n - 1, w);
      SumAdd(ids, BelowVoters(ids, accounts, e, n, w), VotersUpTo(ids, accounts, e, n - 1, w),
             VotersUpTo(ids, accounts, e, n, w));
      forall b | b in ids
        ensures RootFunds(accounts, e, n, w)(b) == VotedAt(accounts, e, n, w)(b) + RootFunds(accounts, e, n - 1, w)(b)
      {
        RootWithin(e, x, b, n, w);
      }
      SumAdd(ids, VotedAt(accounts, e, n, w), RootFunds(accounts, e, n - 1, w), RootFunds(accounts, e, n, w));
    }
  }

  lemma NothingBelowButItself(t: Tally, a: Name)
    requires Exact(t) && a in t.accounts
    ensures FundsBelow(t.ids, t.accounts, t.e.proxy, 0, a) == Total(t.accounts[a])
  {
    hide Acyclic, VotersAreRoots, VotesExact, SlotsExact, Hop;
    var zero := (b: nat) => 0;
    SumZero(t.ids, zero);
    forall b | b in t.ids
      ensures FundsAt(t.accounts, t.e.proxy, 0, a)(b) == if b == a then Total(t.accounts[a]) else 0
    {
      RootAtZero(t.e.proxy, b);
    }
    SumChangedAt(t.ids, zero, FundsAt(t.accounts, t.e.proxy, 0, a), a, Total(t.accounts[a]));
  }

  lemma WeightIsUpToMax(t: Tally, a: Name)
    requires Exact(t) && a in t.accounts
    ensures Weight(t.accounts, t.x, a) == WeightUpTo(t.ids, t.accounts, t.e.proxy, MAX_PROXY_DEPTH, a)
  {
    hide Acyclic, VotersAreRoots, VotesExact, Hop, FundsBelow, Enumerates, Closed;
    NothingBelowButItself(t, a);
    var p := t.e.proxy;
    assert WeightUpTo(t.ids, t.accounts, p, 2, a)
        == FundsBelow(t.ids, t.accounts, p, 2, a) + FundsBelow(t.ids, t.accounts, p, 1, a)
        + FundsBelow(t.ids, t.accounts, p, 0, a);
    assert WeightUpTo(t.ids, t.accounts, p, 4, a)
        == FundsBelow(t.ids, t.accounts, p, 4, a) + FundsBelow(t.ids, t.accounts, p, 3, a)
        + WeightUpTo(t.ids, t.accounts, p, 2, a);
    assert Proxied(t.x, a, 0) == FundsBelow(t.ids, t.accounts, p, 1, a);
    assert Proxied(t.x, a, 1) == FundsBelow(t.ids, t.accounts, p, 2, a);
    assert Proxied(t.x, a, 2) == FundsBelow(t.ids, t.accounts, p, 3, a);
    assert Proxied(t.x, a, 3) == FundsBelow(t.ids, t.accounts, p, 4, a);
  }

  /** In an exact tally every witness has the votes that a count from scratch gives it. */
  lemma VotesAreCounted(t: Tally, w: Name)
    requires Exact(t) && w in t.x.witnesses
    ensures t.x.witnesses[w].votes == Counted(t.ids, t.accounts, t.e, MAX_PROXY_DEPTH, w)
  {
    hide Acyclic, SlotsExact, Weight, WeightUpTo, Counted;
    forall a | a in t.ids
      ensures WeightFor(t.accounts, t.e.votes, t.x, w)(a) == VotersUpTo(t.ids, t.accounts, t.e, MAX_PROXY_DEPTH, w)(a)
    {
      WeightIsUpToMax(t, a);
    }
    SumEqual(t.ids, WeightFor(t.accounts, t.e.votes, t.x, w), VotersUpTo(t.ids, t.accounts, t.e, MAX_PROXY_DEPTH, w));
    VotersCountRoots(t.ids, t.accounts, t.e, t.x, MAX_PROXY_DEPTH, w);
  }

  ghost function Funds(accounts: map<Name, Account>): nat -> int {
    (b: nat) => if b in accounts then Total(accounts[b]) else 0
  }

  /** No witness has more votes than there are funds, and none has fewer than zero. */
  lemma VotesAreBounded(t: Tally, w: Name)
    requires Exact(t) && w in t.x.witnesses
    requires forall a {:trigger t.accounts[a]} :: a in t.accounts ==> 0 <= Total(t.accounts[a])
    ensures 0 <= t.x.witnesses[w].votes <= Sum(t.ids, Funds(t.accounts))
  {
    hide Acyclic, SlotsExact, VotesExact, Root;
    VotesAreCounted(t, w);
    var zero := (b: nat) => 0;
    SumZero(t.ids, zero);
    SumMonotone(t.ids, zero, RootFunds(t.accounts, t.e, MAX_PROXY_DEPTH, w));
    SumMonotone(t.ids, RootFunds(t.accounts, t.e, MAX_PROXY_DEPTH, w), Funds(t.accounts));
  }

  // ----- the hardfork's recalculation -----

  function ZeroVotes(x: Index): Index {
    x.(witnesses := map w | w in x.witnesses :: x.witnesses[w].(votes := 0))
  }

  /** Sends the funds of each listed account up its chain, in order. */
  function Resend(ids: seq<Name>, accounts: map<Name, Account>, e: Electors, x: Index): Index {
    if ids == [] then x
    else
      var a := ids[0];
      Resend(ids[1..], accounts, e, AdjustOne(e, x, a, if a in accounts then Total(accounts[a]) else 0, 0))
  }

  /** Recalculating all votes zeroes the witnesses and resends all funds; it does not clear the slots. */
  function Recalculated(t: Tally): Tally {
    t.(x := Resend(t.ids, t.accounts, t.e, ZeroVotes(t.x)))
  }

  lemma {:induction false} AdjustOneVotes(e: Electors, x: Index, a: Name, delta: int, depth: nat, w: Name)
    requires Closed(e.proxy) && VotersAreRoots(e, x) && depth <= MAX_PROXY_DEPTH && w in x.witnesses
    ensures AdjustOne(e, x, a, delta, depth).witnesses.Keys == x.witnesses.Keys
    ensures AdjustOne(e, x, a, delta, depth).witnesses[w].votes
         == x.witnesses[w].votes + if (Root(e.proxy, a, MAX_PROXY_DEPTH - depth), w) in e.votes then delta else 0
    decreases MAX_PROXY_DEPTH - depth
  {
    var p := ProxyOf(e, a);
    if p != SELF && depth < MAX_PROXY_DEPTH {
      AdjustOneVotes(e, Bump(x, p, depth, delta), p, delta, depth + 1, w);
    }
  }

  lemma {:induction false} ResendVotes(ids: seq<Name>, accounts: map<Name, Account>, e: Electors, x: Index, w: Name)
    requires Closed(e.proxy) && VotersAreRoots(e, x) && w in x.witnesses
    ensures Resend(ids, accounts, e, x).witnesses.Keys == x.witnesses.Keys
    ensures Resend(ids, accounts, e, x).witnesses[w].votes
         == x.witnesses[w].votes + Counted(ids, accounts, e, MAX_PROXY_DEPTH, w)
    decreases ids
  {
    hide AdjustOne, Root;
    if ids != [] {
      var a := ids[0];
      var delta := if a in accounts then Total(accounts[a]) else 0;
      AdjustOneVotes(e, x, a, delta, 0, w);
      ResendVotes(ids[1..], accounts, e, AdjustOne(e, x, a, delta, 0), w);
    }
  }

  lemma {:induction false} ResendSlots(ids: seq<Name>, accounts: map<Name, Account>, e: Electors, x: Index, b: Name,
                                       k: nat)
    requires Closed(e.proxy) && b in e.proxy && k < MAX_PROXY_DEPTH
    ensures Proxied(Resend(ids, accounts, e, x), b, k)
         == Proxied(x, b, k) + FundsBelow(ids, accounts, e.proxy, k + 1, b)
    decreases ids
  {
    hide AdjustOne, Hop;
    if ids != [] {
      var a := ids[0];
      var delta := if a in accounts then Total(accounts[a]) else 0;
      AdjustOneSlots(e, x, a, delta, 0, b, k);
      ResendSlots(ids[1..], accounts, e, AdjustOne(e, x, a, delta, 0), b, k);
    }
  }

  /** Whatever the index held before, recalculation leaves every witness with the counted votes. */
  lemma RecalculationCountsVotes(t: Tally, w: Name)
    requires WellFormed(t) && w in t.x.witnesses
    ensures w in Recalculated(t).x.witnesses
    ensures Recalculated(t).x.witnesses[w].votes == Counted(t.ids, t.accounts, t.e, MAX_PROXY_DEPTH, w)
  {
    ResendVotes(t.ids, t.accounts, t.e, ZeroVotes(t.x), w);
  }

  /** Recalculation leaves exact slots if and only if all slots were zero before it. */
  lemma RecalculatedSlotsExactIff(t: Tally)
    requires WellFormed(t)
    ensures SlotsExact(Recalculated(t)) <==>
              forall a, k: nat {:trigger Proxied(t.x, a, k)} ::
                a in t.accounts && k < MAX_PROXY_DEPTH ==> Proxied(t.x, a, k) == 0
  {
    hide Acyclic, FundsBelow, Resend;
    var r := Recalculated(t);
    forall a, k: nat | a in t.accounts && k < MAX_PROXY_DEPTH
      ensures Proxied(r.x, a, k) == Proxied(t.x, a, k) + FundsBelow(t.ids, t.accounts, t.e.proxy, k + 1, a)
    {
      ResendSlots(t.ids, t.accounts, t.e, ZeroVotes(t.x), a, k);
      assert Proxied(ZeroVotes(t.x), a, k) == Proxied(t.x, a, k);
    }
  }
}
