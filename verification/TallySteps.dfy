/** Voting, new accounts and new witnesses; and the tally counted from scratch. */
module TallySteps {
  import opened ChainTypes
  import opened Sums
  import opened VoteTally
  import opened ProxyForest

  // ----- voting -----

  function Poll(x: Index, w: Name, delta: int, now: nat): Index
    requires w in x.witnesses
  {
    x.(witnesses := x.witnesses[w := AdjustVote(x.witnesses[w], delta, now)])
  }

  /** The vote evaluator: None where it throws. `limit` bounds the votes of one account. */
  function Vote(t: Tally, a: Name, w: Name, approve: bool, limit: nat): Option<Tally> {
    if a !in t.accounts || a !in t.e.proxy || t.e.proxy[a] != SELF || w !in t.x.witnesses then None
    else
      var x, weight := t.accounts[a], Weight(t.accounts, t.x, a);
      if (a, w) !in t.e.votes then
        if !approve || x.votedFor >= limit then None
        else Some(t.(accounts := t.accounts[a := x.(votedFor := x.votedFor + 1)],
                     e := t.e.(votes := t.e.votes + {(a, w)}),
                     x := Poll(t.x, w, weight, t.e.now)))
      else
        if approve then None
        else Some(t.(accounts := t.accounts[a := x.(votedFor := x.votedFor - 1)],
                     e := t.e.(votes := t.e.votes - {(a, w)}),
                     x := Poll(t.x, w, -weight, t.e.now)))
  }

  /** A vote is accepted exactly from an account without a proxy for a witness, if it changes something and the account
      has votes left. */
  lemma VoteAcceptedIff(t: Tally, a: Name, w: Name, approve: bool, limit: nat)
    requires Exact(t)
    ensures Vote(t, a, w, approve, limit).Some? <==>
      && a in t.accounts && t.e.proxy[a] == SELF && w in t.x.witnesses
      && (if approve then (a, w) !in t.e.votes && t.accounts[a].votedFor < limit else (a, w) in t.e.votes)
  {
    hide Acyclic, SlotsExact, VotesExact;
  }

  /** It changes the one record and the one count, and moves the account's weight to or from the one witness. */
  lemma VoteLeaves(t: Tally, a: Name, w: Name, approve: bool, limit: nat)
    requires Vote(t, a, w, approve, limit).Some?
    ensures var r, weight := Vote(t, a, w, approve, limit).value, Total(t.accounts[a]) + ProxiedTotal(t.x, a);
      && (forall b, v {:trigger (b, v) in r.e.votes} ::
            (b, v) in r.e.votes <==> if b == a && v == w then approve else (b, v) in t.e.votes)
      && r.e.proxy == t.e.proxy && r.e.now == t.e.now && r.ids == t.ids && r.x.proxied == t.x.proxied
      && r.accounts == t.accounts[a := t.accounts[a].(votedFor := t.accounts[a].votedFor + if approve then 1 else -1)]
      && r.x.witnesses == t.x.witnesses[w := r.x.witnesses[w]]
      && r.x.witnesses[w].votes == t.x.witnesses[w].votes + if approve then weight else -weight
  {}

  lemma PolledVoteSum(t: Tally, a: Name, w: Name, votes: set<(Name, Name)>, v: Name)
    requires Distinct(t.ids) && a in t.ids
    requires votes == t.e.votes + {(a, w)} || votes == t.e.votes - {(a, w)}
    ensures VoteSum(t.ids, t.accounts, votes, t.x, v)
         == VoteSum(t.ids, t.accounts, t.e.votes, t.x, v)
            + if v != w || ((a, w) in votes <==> (a, w) in t.e.votes) then 0
              else if (a, w) in votes then Weight(t.accounts, t.x, a) else -Weight(t.accounts, t.x, a)
  {
    hide Weight;
    var f, g := WeightFor(t.accounts, t.e.votes, t.x, v), WeightFor(t.accounts, votes, t.x, v);
    SumChangedAt(t.ids, f, g, a, g(a) - f(a));
  }

  /** Approving or withdrawing approval of a witness keeps the tally exact. */
  lemma VoteKeepsExact(t: Tally, a: Name, w: Name, approve: bool, limit: nat)
    requires Exact(t) && a != NULL_ACCOUNT && Vote(t, a, w, approve, limit).Some?
    ensures Exact(Vote(t, a, w, approve, limit).value)
  {
    hide Acyclic, FundsBelow, VoteSum, Weight, AdjustVote;
    var r := Vote(t, a, w, approve, limit).value;
    var m := t.(e := r.e, x := r.x);
    forall v | v in r.x.witnesses
      ensures r.x.witnesses[v].votes == VoteSum(t.ids, t.accounts, r.e.votes, r.x, v)
    {
      PolledVoteSum(t, a, w, r.e.votes, v);
      SameSlotsVoteSum(t.ids, t.accounts, r.e.votes, t.x, r.x, v);
      PolledVotes(t.x, w, if (a, w) in t.e.votes then -Weight(t.accounts, t.x, a)
        else Weight(t.accounts, t.x, a), t.e.now, v);
    }
    SameSlotsExact(t, m);
    RewriteKeepsExact(m, a, r.accounts[a]);
  }

  lemma SameSlotsExact(t: Tally, r: Tally)
    requires SlotsExact(t) && r.ids == t.ids && r.accounts == t.accounts
    requires r.e.proxy == t.e.proxy && r.x.proxied == t.x.proxied
    ensures SlotsExact(r)
  {
    forall a, k: nat | a in r.accounts && k < MAX_PROXY_DEPTH
      ensures Proxied(r.x, a, k) == FundsBelow(r.ids, r.accounts, r.e.proxy, k + 1, a)
    {
      assert Proxied(t.x, a, k) == Proxied(r.x, a, k);
    }
  }

  lemma PolledVotes(x: Index, w: Name, delta: int, now: nat, v: Name)
    requires w in x.witnesses && v in x.witnesses
    ensures Poll(x, w, delta, now).witnesses.Keys == x.witnesses.Keys
    ensures Poll(x, w, delta, now).proxied == x.proxied
    ensures Poll(x, w, delta, now).witnesses[v].votes == x.witnesses[v].votes + if v == w then delta else 0
  {}

  // ----- the number of votes an account has cast -----

  ghost function VotesOf(votes: set<(Name, Name)>, a: Name): set<(Name, Name)> {
    set v | v in votes && v.0 == a
  }

  /** `votedFor` counts the vote records of its account. */
  ghost predicate CountsExact(t: Tally) {
    forall a {:trigger t.accounts[a]} :: a in t.accounts ==> t.accounts[a].votedFor == |VotesOf(t.e.votes, a)|
  }

  lemma VoteKeepsCounts(t: Tally, a: Name, w: Name, approve: bool, limit: nat)
    requires CountsExact(t) && Vote(t, a, w, approve, limit).Some?
    ensures CountsExact(Vote(t, a, w, approve, limit).value)
  {
    hide Poll, VotesOf, Weight;
    var r := Vote(t, a, w, approve, limit).value;
    forall b | b in r.accounts
      ensures r.accounts[b].votedFor == |VotesOf(r.e.votes, b)|
    {
      assert t.accounts[b].votedFor == |VotesOf(t.e.votes, b)|;
      CountChanges(t.e.votes, a, w, b);
    }
  }

  lemma CountChanges(votes: set<(Name, Name)>, a: Name, w: Name, b: Name)
    ensures |VotesOf(votes + {(a, w)}, b)| == |VotesOf(votes, b)| + if b == a && (a, w) !in votes then 1 else 0
    ensures |VotesOf(votes - {(a, w)}, b)| == |VotesOf(votes, b)| - if b == a && (a, w) in votes then 1 else 0
  {
    if b == a {
      assert VotesOf(votes + {(a, w)}, a) == VotesOf(votes, a) + {(a, w)};
      assert VotesOf(votes - {(a, w)}, a) == VotesOf(votes, a) - {(a, w)};
    } else {
      assert VotesOf(votes + {(a, w)}, b) == VotesOf(votes, b);
      assert VotesOf(votes - {(a, w)}, b) == VotesOf(votes, b);
    }
  }

  // ----- new objects -----

  /** A new account without funds, whose slots are zero. */
  function WithAccount(t: Tally, n: Name): Tally {
    t.(ids := t.ids + [n],
       accounts := t.accounts[n := FreshAccount(|t.ids|)],
       e := t.e.(proxy := t.e.proxy[n := SELF]),
       x := t.x.(proxied := t.x.proxied[(n, 0) := 0][(n, 1) := 0][(n, 2) := 0][(n, 3) := 0]))
  }

  lemma {:induction false} NewcomerPath(proxy: map<Name, Name>, n: Name, b: Name, k: nat)
    requires Closed(proxy) && n !in proxy && n != SELF
    ensures b != n ==> Hop(proxy[n := SELF], b, k) == Hop(proxy, b, k)
    ensures b == n && k > 0 ==> Hop(proxy[n := SELF], b, k) == SELF
    ensures b in proxy ==> Hop(proxy, b, k) != n
    decreases k
  {
    if k > 0 && b in proxy && proxy[b] != SELF {
      NewcomerPath(proxy, n, proxy[b], k - 1);
    }
  }

  lemma NewcomerBelow(t: Tally, n: Name, k: nat, c: Name)
    requires Exact(t) && n !in t.accounts && n != SELF && k < MAX_PROXY_DEPTH && c in WithAccount(t, n).accounts
    ensures var r := WithAccount(t, n);
      Proxied(r.x, c, k) == FundsBelow(r.ids, r.accounts, r.e.proxy, k + 1, c)
  {
    hide Hop, Acyclic, VotesExact, VotersAreRoots, Sum, Total;
    var r := WithAccount(t, n);
    var f, g := FundsAt(t.accounts, t.e.proxy, k + 1, c), FundsAt(r.accounts, r.e.proxy, k + 1, c);
    forall b | b in r.ids
      ensures g(b) == if b == n then 0 else f(b)
      ensures c == n ==> g(b) == 0
    {
      NewcomerPath(t.e.proxy, n, b, k + 1);
    }
    SumAppend(t.ids, n, g);
    assert n in r.ids;
    if c == n {
      SumZero(r.ids, g);
    } else {
      SumEqual(t.ids, f, g);
      assert Proxied(r.x, c, k) == Proxied(t.x, c, k);
    }
  }

  lemma NewcomerAcyclic(proxy: map<Name, Name>, n: Name)
    requires Closed(proxy) && Acyclic(proxy) && n !in proxy && n != SELF
    ensures Acyclic(proxy[n := SELF])
  {
    var grown := proxy[n := SELF];
    forall b, k: nat | b in grown && k > 0
      ensures Hop(grown, b, k) != b
    {
      NewcomerPath(proxy, n, b, k);
      if b in proxy {
        assert Hop(proxy, b, k) != b;
      }
    }
  }

  lemma NewcomerVoteSum(t: Tally, n: Name, w: Name)
    requires Enumerates(t.ids, t.accounts, t.e) && VotersAreRoots(t.e, t.x) && n !in t.accounts
    ensures VoteSum(t.ids + [n], WithAccount(t, n).accounts, t.e.votes, WithAccount(t, n).x, w)
         == VoteSum(t.ids, t.accounts, t.e.votes, t.x, w)
  {
    var r := WithAccount(t, n);
    var f, g := WeightFor(t.accounts, t.e.votes, t.x, w), WeightFor(r.accounts, r.e.votes, r.x, w);
    SumAppend(t.ids, n, g);
    SumEqual(t.ids, f, g);
  }

  lemma NewAccountKeepsExact(t: Tally, n: Name)
    requires Exact(t) && n !in t.accounts && n != SELF
    ensures Exact(WithAccount(t, n))
  {
    hide Hop, Acyclic, FundsBelow, VoteSum;
    var r := WithAccount(t, n);
    NewcomerAcyclic(t.e.proxy, n);
    forall c, k: nat | c in r.accounts && k < MAX_PROXY_DEPTH
      ensures Proxied(r.x, c, k) == FundsBelow(r.ids, r.accounts, r.e.proxy, k + 1, c)
    {
      NewcomerBelow(t, n, k, c);
    }
    forall w | w in r.x.witnesses
      ensures r.x.witnesses[w].votes == VoteSum(r.ids, r.accounts, r.e.votes, r.x, w)
    {
      NewcomerVoteSum(t, n, w);
    }
  }

  /** Witnesses may be added without votes, or rewritten with the same votes, at any virtual time. */
  lemma WitnessesKeepExact(t: Tally, witnesses: map<Name, Witness>, now: nat)
    requires Exact(t) && t.x.witnesses.Keys <= witnesses.Keys
    requires forall w {:trigger witnesses[w]} :: w in witnesses ==>
      witnesses[w].votes == if w in t.x.witnesses then t.x.witnesses[w].votes else 0
    ensures Exact(t.(e := t.e.(now := now), x := t.x.(witnesses := witnesses)))
  {
    hide Hop, Acyclic, FundsBelow, VoteSum;
    var r := t.(e := t.e.(now := now), x := t.x.(witnesses := witnesses));
    SameSlotsExact(t, r);
    forall w | w in witnesses
      ensures witnesses[w].votes == VoteSum(r.ids, r.accounts, r.e.votes, r.x, w)
    {
      SameSlotsVoteSum(t.ids, t.accounts, t.e.votes, t.x, r.x, w);
      if w !in t.x.witnesses {
        NoVotesVoteSum(t.ids, t.accounts, t.e.votes, t.x, w);
      }
    }
  }

  lemma NoVotesVoteSum(ids: seq<Name>, accounts: map<Name, Account>, votes: set<(Name, Name)>, x: Index, w: Name)
    requires forall a {:trigger (a, w) in votes} :: (a, w) !in votes
    ensures VoteSum(ids, accounts, votes, x, w) == 0
  {
    SumZero(ids, WeightFor(accounts, votes, x, w));
  }
}
