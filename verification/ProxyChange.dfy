/**
 Setting and clearing a proxy: an account's whole subtree is taken off its old chain and put on the new
 one by two runs of the array form. The loop check keeps the graph a forest, and the tally stays exact.
 */
module ProxyChange {
  import opened ChainTypes
  import opened Sums
  import opened VoteTally
  import opened ProxyForest

  // ----- paths in the forest -----

  lemma {:induction false} HopAdd(proxy: map<Name, Name>, a: Name, i: nat, j: nat)
    requires Closed(proxy)
    ensures Hop(proxy, a, i + j) == Hop(proxy, Hop(proxy, a, i), j)
    decreases i
  {
    if i > 0 {
      if a in proxy && proxy[a] != SELF {
        HopAdd(proxy, proxy[a], i - 1, j);
      } else {
        assert Hop(proxy, SELF, j) == SELF;
      }
    }
  }

  /** Linking a to q only shows on paths that pass through a. */
  lemma {:induction false} LinkedPath(old_: map<Name, Name>, a: Name, q: Name, b: Name, k: nat) returns (j: nat)
    requires Closed(old_) && a in old_ && q in old_
    requires forall i: nat :: Hop(old_, q, i) != a
    ensures Hop(old_[a := q], b, k) != Hop(old_, b, k) ==>
              j < k && Hop(old_, b, j) == a && Hop(old_[a := q], b, k) == Hop(old_, q, k - j - 1)
    decreases k
  {
    var new_ := old_[a := q];
    j := 0;
    if k > 0 {
      if b == a {
        var i := LinkedPath(old_, a, q, q, k - 1);
        assert Hop(old_, q, i) != a;
        assert Hop(new_, q, k - 1) == Hop(old_, q, k - 1);
      } else if b in old_ && old_[b] != SELF {
        var i := LinkedPath(old_, a, q, old_[b], k - 1);
        assert Hop(old_, b, i + 1) == Hop(old_, old_[b], i);
        j := i + 1;
      }
    }
  }

  lemma LinkKeepsAcyclic(proxy: map<Name, Name>, a: Name, q: Name)
    requires Closed(proxy) && Acyclic(proxy) && a in proxy && q in proxy
    requires forall i: nat :: Hop(proxy, q, i) != a
    ensures Acyclic(proxy[a := q])
  {
    var linked := proxy[a := q];
    forall b, k: nat | b in proxy && k > 0
      ensures Hop(linked, b, k) != b
    {
      assert Hop(proxy, b, k) != b;
      var j := LinkedPath(proxy, a, q, b, k);
      if j < k {
        HopAdd(proxy, q, k - j - 1, j);
      }
    }
  }

  lemma {:induction false} CutPath(proxy: map<Name, Name>, a: Name, b: Name, k: nat)
    requires Closed(proxy) && a in proxy
    ensures Hop(proxy[a := SELF], b, k) in {Hop(proxy, b, k), SELF}
    decreases k
  {
    if k > 0 && b != a && b in proxy && proxy[b] != SELF {
      CutPath(proxy, a, proxy[b], k - 1);
    }
  }

  lemma CutKeepsAcyclic(proxy: map<Name, Name>, a: Name)
    requires Closed(proxy) && Acyclic(proxy) && a in proxy
    ensures Acyclic(proxy[a := SELF])
  {
    var cut := proxy[a := SELF];
    forall b, k: nat | b in proxy && k > 0
      ensures Hop(cut, b, k) != b
    {
      CutPath(proxy, a, b, k);
      assert Hop(proxy, b, k) != b;
    }
  }

  /** Cutting a's own link does not change who sits below a. */
  lemma {:induction false} CutKeepsSubtree(proxy: map<Name, Name>, a: Name, b: Name, k: nat)
    requires Closed(proxy) && Acyclic(proxy) && a in proxy
    ensures Hop(proxy, b, k) == a <==> Hop(proxy[a := SELF], b, k) == a
    decreases k
  {
    if k > 0 {
      if b == a {
        assert Hop(proxy, a, k) != a;
      } else if b in proxy && proxy[b] != SELF {
        CutKeepsSubtree(proxy, a, proxy[b], k - 1);
      }
    }
  }

  // ----- the walk that refuses loops -----

  /** Follows the chain upwards from c; fails on an account seen before or on too long a chain. */
  function ChainOk(proxy: map<Name, Name>, chain: set<Name>, c: Name): bool
    decreases MAX_PROXY_DEPTH - |chain|
  {
    if c !in proxy || proxy[c] == SELF then true
    else
      var next := proxy[c];
      var longer := chain + {next};
      next !in chain && |longer| <= MAX_PROXY_DEPTH && ChainOk(proxy, longer, next)
  }

  lemma {:induction false} ChainAvoids(proxy: map<Name, Name>, chain: set<Name>, c: Name, a: Name, k: nat)
    requires Closed(proxy) && a in proxy && a in chain && c != a && ChainOk(proxy, chain, c)
    ensures Hop(proxy, c, k) != a
    decreases k
  {
    if k > 0 && c in proxy && proxy[c] != SELF {
      ChainAvoids(proxy, chain + {proxy[c]}, proxy[c], a, k - 1);
    }
  }

  /** The chain of c ends within n hops. */
  ghost predicate EndsWithin(proxy: map<Name, Name>, c: Name, n: int) {
    exists k: nat :: k <= n && Hop(proxy, c, k) in proxy && proxy[Hop(proxy, c, k)] == SELF
  }

  /** The chain so far: a, and accounts from which c is reached. */
  ghost predicate LeadsTo(proxy: map<Name, Name>, chain: set<Name>, a: Name, c: Name) {
    && a in chain && c in chain && c != a
    && forall b {:trigger b in chain} :: b in chain && b != a ==> exists j: nat :: Hop(proxy, b, j) == c
  }

  lemma {:induction false} ChainOkIff(proxy: map<Name, Name>, chain: set<Name>, a: Name, c: Name)
    requires Closed(proxy) && Acyclic(proxy) && a in proxy && c in proxy && LeadsTo(proxy, chain, a, c)
    requires |chain| <= MAX_PROXY_DEPTH
    ensures ChainOk(proxy, chain, c)
      <==> (forall i: nat :: Hop(proxy, c, i) != a) && EndsWithin(proxy, c, MAX_PROXY_DEPTH - |chain|)
    decreases MAX_PROXY_DEPTH - |chain|
  {
    hide Closed;
    ClosedAt(proxy, c);
    if proxy[c] == SELF {
      RootHops(proxy, c, a);
      assert Hop(proxy, c, 0) == c;
    } else {
      var next := proxy[c];
      var longer := chain + {next};
      HopsFromNext(proxy, c);
      NextIsNew(proxy, chain, a, c);
      if next != a {
        LeadsOn(proxy, chain, a, c);
        assert |longer| == |chain| + 1;
        if |longer| <= MAX_PROXY_DEPTH {
          ChainOkIff(proxy, longer, a, next);
        }
        NextEnds(proxy, c, MAX_PROXY_DEPTH - |chain|, a);
      } else {
        assert Hop(proxy, c, 1) == a;
      }
    }
  }

  lemma ClosedAt(proxy: map<Name, Name>, c: Name)
    requires Closed(proxy) && c in proxy
    ensures c != SELF && SELF !in proxy && (proxy[c] == SELF || proxy[c] in proxy)
  {}

  lemma RootHops(proxy: map<Name, Name>, c: Name, a: Name)
    requires c in proxy && proxy[c] == SELF && a != SELF && c != a
    ensures forall i: nat :: Hop(proxy, c, i) != a
  {}

  lemma HopsFromNext(proxy: map<Name, Name>, c: Name)
    requires c in proxy && proxy[c] != SELF
    ensures Hop(proxy, c, 0) == c && forall i: nat {:trigger Hop(proxy, proxy[c], i)} ::
      Hop(proxy, c, i + 1) == Hop(proxy, proxy[c], i)
  {}

  /** In a forest the next account of the chain is not on it yet, unless it is a. */
  lemma NextIsNew(proxy: map<Name, Name>, chain: set<Name>, a: Name, c: Name)
    requires Closed(proxy) && Acyclic(proxy) && c in proxy && proxy[c] != SELF && LeadsTo(proxy, chain, a, c)
    ensures proxy[c] in chain <==> proxy[c] == a
  {
    var next := proxy[c];
    if next in chain && next != a {
      var j: nat :| Hop(proxy, next, j) == c;
      Ahead(proxy, next, j, c);
    }
  }

  /** The proxy of a later account of a chain is not an earlier one. */
  lemma Ahead(proxy: map<Name, Name>, b: Name, j: nat, c: Name)
    requires Closed(proxy) && Acyclic(proxy) && b in proxy && c in proxy && proxy[c] != SELF && Hop(proxy, b, j) == c
    ensures proxy[c] != b
  {
    HopAdd(proxy, b, j, 1);
    assert Hop(proxy, c, 1) == Hop(proxy, proxy[c], 0) == proxy[c];
    assert Hop(proxy, b, j + 1) != b;
  }

  lemma LeadsOn(proxy: map<Name, Name>, chain: set<Name>, a: Name, c: Name)
    requires Closed(proxy) && c in proxy && proxy[c] != SELF && proxy[c] != a && LeadsTo(proxy, chain, a, c)
    ensures LeadsTo(proxy, chain + {proxy[c]}, a, proxy[c])
  {
    var next := proxy[c];
    assert Hop(proxy, c, 1) == Hop(proxy, next, 0) == next;
    forall b | b in chain + {next} && b != a
      ensures exists j: nat :: Hop(proxy, b, j) == next
    {
      if b == next {
        assert Hop(proxy, next, 0) == next;
      } else {
        var j: nat :| Hop(proxy, b, j) == c;
        HopAdd(proxy, b, j, 1);
        assert Hop(proxy, b, j + 1) == next;
      }
    }
  }

  lemma NextEnds(proxy: map<Name, Name>, c: Name, n: int, a: Name)
    requires c in proxy && proxy[c] != SELF && c != a
    ensures EndsWithin(proxy, c, n) <==> EndsWithin(proxy, proxy[c], n - 1)
    ensures (forall i: nat :: Hop(proxy, c, i) != a) <==> (forall i: nat :: Hop(proxy, proxy[c], i) != a)
  {
    HopsFromNext(proxy, c);
    if EndsWithin(proxy, c, n) {
      var k: nat :| k <= n && Hop(proxy, c, k) in proxy && proxy[Hop(proxy, c, k)] == SELF;
      assert k > 0 && Hop(proxy, c, k) == Hop(proxy, proxy[c], k - 1);
    }
    if EndsWithin(proxy, proxy[c], n - 1) {
      var k: nat :| k <= n - 1 && Hop(proxy, proxy[c], k) in proxy && proxy[Hop(proxy, proxy[c], k)] == SELF;
      assert Hop(proxy, c, k + 1) == Hop(proxy, proxy[c], k);
    }
    AvoidsNext(proxy, c, a);
  }

  lemma AvoidsNext(proxy: map<Name, Name>, c: Name, a: Name)
    requires c in proxy && proxy[c] != SELF && c != a
    ensures (forall i: nat :: Hop(proxy, c, i) != a) <==> (forall i: nat :: Hop(proxy, proxy[c], i) != a)
  {
    HopsFromNext(proxy, c);
    hide Hop;
    if i: nat :| Hop(proxy, c, i) == a {
      var j: nat := i - 1;
      assert Hop(proxy, proxy[c], j) == a;
    }
    if i: nat :| Hop(proxy, proxy[c], i) == a {
      var j := i + 1;
      assert Hop(proxy, c, j) == a;
    }
  }

  // ----- what the array form adds to each slot -----

  /** The part of delta[i], delta[i + 1], ..., started at those depths, that reaches slot k of b. */
  ghost function CarriedFrom(proxy: map<Name, Name>, a: Name, delta: seq<int>, b: Name, k: nat, i: nat): int
    requires |delta| == MAX_PROXY_DEPTH + 1 && k < MAX_PROXY_DEPTH
    decreases k + 1 - i
  {
    if i > k then 0
    else (if Hop(proxy, a, k + 1 - i) == b then delta[i] else 0) + CarriedFrom(proxy, a, delta, b, k, i + 1)
  }

  lemma {:induction false} OneByOneSlots(e: Electors, x: Index, a: Name, delta: seq<int>, b: Name, k: nat, i: nat)
    requires Closed(e.proxy) && b in e.proxy && k < MAX_PROXY_DEPTH
    requires |delta| == MAX_PROXY_DEPTH + 1 && i <= MAX_PROXY_DEPTH + 1
    ensures Proxied(OneByOne(e, x, a, delta, 0, i), b, k) == Proxied(x, b, k) + CarriedFrom(e.proxy, a, delta, b, k, i)
    decreases MAX_PROXY_DEPTH + 1 - i
  {
    hide AdjustOne;
    if i <= MAX_PROXY_DEPTH {
      OneByOneSlots(e, AdjustOne(e, x, a, delta[i], i), a, delta, b, k, i + 1);
      AdjustOneSlots(e, x, a, delta[i], i, b, k);
    }
  }

  lemma AdjustAllSlots(e: Electors, x: Index, a: Name, delta: seq<int>, b: Name, k: nat)
    requires Closed(e.proxy) && b in e.proxy && k < MAX_PROXY_DEPTH && |delta| == MAX_PROXY_DEPTH + 1
    ensures Proxied(AdjustAll(e, x, a, delta, 0), b, k) == Proxied(x, b, k) + CarriedFrom(e.proxy, a, delta, b, k, 0)
  {
    AdjustAllIsOneByOne(e, x, a, delta, 0);
    OneByOneSlots(e, x, a, delta, b, k, 0);
  }

  function Negated(delta: seq<int>): (r: seq<int>)
    ensures |r| == |delta| && forall i :: 0 <= i < |delta| ==> r[i] == -delta[i]
  {
    seq(|delta|, i requires 0 <= i < |delta| => -delta[i])
  }

  lemma {:induction false} CarriedNegated(proxy: map<Name, Name>, a: Name, delta: seq<int>, b: Name, k: nat, i: nat)
    requires |delta| == MAX_PROXY_DEPTH + 1 && k < MAX_PROXY_DEPTH
    ensures CarriedFrom(proxy, a, Negated(delta), b, k, i) == -CarriedFrom(proxy, a, delta, b, k, i)
    decreases k + 1 - i
  {
    if i <= k {
      CarriedNegated(proxy, a, delta, b, k, i + 1);
    }
  }

  // ----- the subtree of a, seen from above -----

  /** How many of the ways of splitting k + 1 hops at i, i + 1, ... lead from b through a to c. */
  ghost function Via(proxy: map<Name, Name>, a: Name, b: Name, c: Name, k: nat, i: nat): int
    decreases k + 1 - i
  {
    if i > k then 0
    else (if Hop(proxy, b, i) == a && Hop(proxy, a, k + 1 - i) == c then 1 else 0) + Via(proxy, a, b, c, k, i + 1)
  }

  lemma {:induction false} ViaNone(proxy: map<Name, Name>, a: Name, b: Name, c: Name, k: nat, i: nat)
    requires forall j: nat :: i <= j <= k ==> Hop(proxy, b, j) != a
    ensures Via(proxy, a, b, c, k, i) == 0
    decreases k + 1 - i
  {
    if i <= k {
      assert Hop(proxy, b, i) != a;
      ViaNone(proxy, a, b, c, k, i + 1);
    }
  }

  lemma {:induction false} ViaShift(proxy: map<Name, Name>, a: Name, b: Name, c: Name, k: nat, i: nat)
    requires b in proxy && proxy[b] != SELF && k > 0
    ensures Via(proxy, a, b, c, k, i + 1) == Via(proxy, a, proxy[b], c, k - 1, i)
    decreases k + 1 - i
  {
    if i < k {
      assert Hop(proxy, b, i + 1) == Hop(proxy, proxy[b], i);
      ViaShift(proxy, a, b, c, k, i + 1);
    }
  }

  /** A path of k + 1 hops either survives the cut of a's link or passes through a exactly once. */
  lemma {:induction false} PathSplit(proxy: map<Name, Name>, a: Name, b: Name, c: Name, k: nat)
    requires Closed(proxy) && Acyclic(proxy) && a in proxy && c in proxy
    ensures (if Hop(proxy, b, k + 1) == c then 1 else 0)
         == (if Hop(proxy[a := SELF], b, k + 1) == c then 1 else 0) + Via(proxy, a, b, c, k, 0)
    decreases k
  {
    if b == a {
      assert forall j: nat {:trigger Hop(proxy, a, j)} :: 1 <= j <= k ==> Hop(proxy, a, j) != a;
      ViaNone(proxy, a, a, c, k, 1);
      assert Hop(proxy[a := SELF], a, k + 1) == SELF;
    } else if b in proxy && proxy[b] != SELF {
      var p := proxy[b];
      if k == 0 {
        assert Via(proxy, a, b, c, 0, 1) == 0;
        assert Hop(proxy, b, 1) == Hop(proxy, p, 0) == p;
        assert Hop(proxy[a := SELF], b, 1) == Hop(proxy[a := SELF], p, 0) == p;
      } else {
        PathSplit(proxy, a, p, c, k - 1);
        ViaShift(proxy, a, b, c, k, 0);
      }
    } else {
      assert forall j: nat {:trigger Hop(proxy, b, j)} :: j <= k ==> Hop(proxy, b, j) != a;
      ViaNone(proxy, a, b, c, k, 0);
    }
  }

  /** The funds of a's subtree by distance: its own first, then one hop below, and so on. */
  ghost predicate IsSubtree(ids: seq<Name>, accounts: map<Name, Account>, proxy: map<Name, Name>, a: Name,
                            delta: seq<int>) {
    |delta| == MAX_PROXY_DEPTH + 1
    && forall i {:trigger delta[i]} :: 0 <= i < |delta| ==> delta[i] == FundsBelow(ids, accounts, proxy, i, a)
  }

  ghost function ViaFunds(accounts: map<Name, Account>, proxy: map<Name, Name>, a: Name, c: Name, k: nat,
                          i: nat): nat -> int {
    (b: nat) => if b in accounts then Via(proxy, a, b, c, k, i) * Total(accounts[b]) else 0
  }

  lemma Distribute(v: int, t: int)
    ensures (1 + v) * t == t + v * t
  {}

  /** What the array form carries to slot k of c is the funds of all accounts k + 1 hops below c through a. */
  lemma {:induction false} CarriedIsVia(ids: seq<Name>, accounts: map<Name, Account>, proxy: map<Name, Name>,
                                        a: Name, delta: seq<int>, c: Name, k: nat, i: nat)
    requires IsSubtree(ids, accounts, proxy, a, delta) && k < MAX_PROXY_DEPTH
    ensures CarriedFrom(proxy, a, delta, c, k, i) == Sum(ids, ViaFunds(accounts, proxy, a, c, k, i))
    decreases k + 1 - i
  {
    hide Hop;
    var f := ViaFunds(accounts, proxy, a, c, k, i);
    if i > k {
      SumZero(ids, f);
    } else {
      var g := ViaFunds(accounts, proxy, a, c, k, i + 1);
      CarriedIsVia(ids, accounts, proxy, a, delta, c, k, i + 1);
      forall b | b in ids
        ensures f(b) == g(b) + if Hop(proxy, a, k + 1 - i) == c then FundsAt(accounts, proxy, i, a)(b) else 0
      {
        if b in accounts {
          Distribute(Via(proxy, a, b, c, k, i + 1), Total(accounts[b]));
        }
      }
      if Hop(proxy, a, k + 1 - i) == c {
        SumAdd(ids, FundsAt(accounts, proxy, i, a), g, f);
      } else {
        SumEqual(ids, g, f);
      }
    }
  }

  /** Cutting a's link takes from every slot exactly what the array form carries up from a. */
  lemma CutBelow(ids: seq<Name>, accounts: map<Name, Account>, proxy: map<Name, Name>,
                 a: Name, delta: seq<int>, c: Name, k: nat)
    requires Closed(proxy) && Acyclic(proxy) && a in proxy && c in proxy && k < MAX_PROXY_DEPTH
    requires IsSubtree(ids, accounts, proxy, a, delta)
    ensures FundsBelow(ids, accounts, proxy, k + 1, c)
         == FundsBelow(ids, accounts, proxy[a := SELF], k + 1, c) + CarriedFrom(proxy, a, delta, c, k, 0)
  {
    hide Hop, Closed, Acyclic;
    var cut := proxy[a := SELF];
    CarriedIsVia(ids, accounts, proxy, a, delta, c, k, 0);
    forall b | b in ids
      ensures FundsAt(accounts, proxy, k + 1, c)(b)
           == FundsAt(accounts, cut, k + 1, c)(b) + ViaFunds(accounts, proxy, a, c, k, 0)(b)
    {
      PathSplit(proxy, a, b, c, k);
    }
    SumAdd(ids, FundsAt(accounts, cut, k + 1, c), ViaFunds(accounts, proxy, a, c, k, 0),
           FundsAt(accounts, proxy, k + 1, c));
  }

  lemma CutSubtree(ids: seq<Name>, accounts: map<Name, Account>, proxy: map<Name, Name>, a: Name, delta: seq<int>)
    requires Closed(proxy) && Acyclic(proxy) && a in proxy
    ensures IsSubtree(ids, accounts, proxy, a, delta) <==> IsSubtree(ids, accounts, proxy[a := SELF], a, delta)
  {
    hide Hop, Closed, Acyclic;
    forall i: nat
      ensures FundsBelow(ids, accounts, proxy, i, a) == FundsBelow(ids, accounts, proxy[a := SELF], i, a)
    {
      forall b | b in ids
        ensures FundsAt(accounts, proxy, i, a)(b) == FundsAt(accounts, proxy[a := SELF], i, a)(b)
      {
        CutKeepsSubtree(proxy, a, b, i);
      }
      SumEqual(ids, FundsAt(accounts, proxy, i, a), FundsAt(accounts, proxy[a := SELF], i, a));
    }
  }

  // ----- votes while the subtree moves -----

  lemma {:induction false} OneByOneGap(ids: seq<Name>, accounts: map<Name, Account>, e: Electors, x: Index,
                                       a: Name, delta: seq<int>, i: nat, w: Name)
    requires Enumerates(ids, accounts, e) && Closed(e.proxy) && VotersAreRoots(e, x)
    requires a in accounts && w in x.witnesses
    requires |delta| == MAX_PROXY_DEPTH + 1 && i <= MAX_PROXY_DEPTH + 1
    ensures OneByOne(e, x, a, delta, 0, i).witnesses.Keys == x.witnesses.Keys
    ensures Gap(ids, accounts, e.votes, OneByOne(e, x, a, delta, 0, i), w)
         == Gap(ids, accounts, e.votes, x, w) + if (a, w) in e.votes then SumFrom(delta, i, MAX_PROXY_DEPTH + 1) else 0
    decreases MAX_PROXY_DEPTH + 1 - i
  {
    hide AdjustOne, VoteSum;
    if i <= MAX_PROXY_DEPTH {
      var next := AdjustOne(e, x, a, delta[i], i);
      AdjustOneWitnesses(e, x, a, delta[i], i);
      AdjustOneGap(ids, accounts, e, x, a, delta[i], i, w);
      OneByOneGap(ids, accounts, e, next, a, delta, i + 1, w);
    }
  }

  lemma AdjustAllGap(ids: seq<Name>, accounts: map<Name, Account>, e: Electors, x: Index, a: Name, delta: seq<int>,
                     w: Name)
    requires Enumerates(ids, accounts, e) && Closed(e.proxy) && VotersAreRoots(e, x)
    requires a in accounts && w in x.witnesses && |delta| == MAX_PROXY_DEPTH + 1
    ensures AdjustAll(e, x, a, delta, 0).witnesses.Keys == x.witnesses.Keys
    ensures Gap(ids, accounts, e.votes, AdjustAll(e, x, a, delta, 0), w)
         == Gap(ids, accounts, e.votes, x, w) + if (a, w) in e.votes then SumFrom(delta, 0, MAX_PROXY_DEPTH + 1) else 0
  {
    hide *;
    AdjustAllIsOneByOne(e, x, a, delta, 0);
    OneByOneGap(ids, accounts, e, x, a, delta, 0, w);
  }

  lemma {:induction false} AdjustAllWitnesses(e: Electors, x: Index, a: Name, delta: seq<int>, depth: nat)
    requires |delta| == MAX_PROXY_DEPTH + 1 && depth <= MAX_PROXY_DEPTH
    ensures AdjustAll(e, x, a, delta, depth).witnesses.Keys == x.witnesses.Keys
    decreases MAX_PROXY_DEPTH - depth
  {
    var p := ProxyOf(e, a);
    if p != SELF && depth < MAX_PROXY_DEPTH {
      BumpFromWitnesses(x, p, delta, depth, 0);
      AdjustAllWitnesses(e, BumpFrom(x, p, delta, depth, 0), p, delta, depth + 1);
    }
  }

  // ----- the evaluator -----

  /** An account's own funds and everything proxied to it. */
  function Deltas(accounts: map<Name, Account>, x: Index, a: Name): (r: seq<int>)
    requires a in accounts
    ensures |r| == MAX_PROXY_DEPTH + 1
  {
    [Total(accounts[a]), Proxied(x, a, 0), Proxied(x, a, 1), Proxied(x, a, 2), Proxied(x, a, 3)]
  }

  function WithoutVotesOf(votes: set<(Name, Name)>, a: Name): set<(Name, Name)> {
    set v | v in votes && v.0 != a
  }

  /** Takes the subtree of `a` off its chain; its own vote records no longer count. */
  function Detached(t: Tally, a: Name): Tally
    requires a in t.accounts
  {
    t.(e := t.e.(proxy := t.e.proxy[a := SELF], votes := WithoutVotesOf(t.e.votes, a)),
       x := AdjustAll(t.e, t.x, a, Negated(Deltas(t.accounts, t.x, a)), 0))
  }

  /** Puts the subtree of `a`, with the given amounts, on the chain of q. */
  function Attached(t: Tally, a: Name, q: Name, delta: seq<int>): Tally
    requires |delta| == MAX_PROXY_DEPTH + 1
  {
    var e := t.e.(proxy := t.e.proxy[a := q]);
    t.(e := e, x := AdjustAll(e, t.x, a, delta, 0))
  }

  /** The proxy evaluator: None where it throws. */
  function SetProxy(t: Tally, a: Name, q: Name): Option<Tally> {
    if a !in t.accounts || a !in t.e.proxy || q == a || t.e.proxy[a] == q then None
    else if q == SELF then
      // clearing a proxy leaves the vote records alone; a proxied account has none
      Some(Detached(t, a).(e := t.e.(proxy := t.e.proxy[a := SELF])))
    else if q !in t.accounts || !ChainOk(t.e.proxy, {a, q}, q) then None
    else
      var d := Detached(t, a);
      Some(Attached(d.(accounts := d.accounts[a := d.accounts[a].(votedFor := 0)]), a, q, Deltas(t.accounts, t.x, a)))
  }

  /**
   A proxy is accepted exactly if it changes something, exists, is not reached from itself through the account, and
   its chain ends at most two hops further up; clearing one is always accepted.
   */
  lemma ProxyAcceptedIff(t: Tally, a: Name, q: Name)
    requires Exact(t)
    ensures SetProxy(t, a, q).Some? <==>
      && a in t.accounts && q != a && t.e.proxy[a] != q
      && (q == SELF
          || (q in t.accounts && (forall i: nat :: Hop(t.e.proxy, q, i) != a)
              && exists k: nat ::
                k <= 2 && Hop(t.e.proxy, q, k) in t.accounts && t.e.proxy[Hop(t.e.proxy, q, k)] == SELF))
  {
    hide Acyclic, SlotsExact, VotesExact, AdjustAll;
    if a in t.accounts && q in t.accounts && q != a {
      var chain := {a, q};
      assert Hop(t.e.proxy, q, 0) == q;
      assert LeadsTo(t.e.proxy, chain, a, q) && |chain| == 2;
      ChainOkIff(t.e.proxy, chain, a, q);
      assert t.e.proxy.Keys == t.accounts.Keys;
      SameEnd(t.accounts, t.e.proxy, q);
    }
  }

  lemma SameEnd(accounts: map<Name, Account>, proxy: map<Name, Name>, q: Name)
    requires proxy.Keys == accounts.Keys
    ensures EndsWithin(proxy, q, 2)
      <==> exists k: nat :: k <= 2 && Hop(proxy, q, k) in accounts && proxy[Hop(proxy, q, k)] == SELF
  {
    hide Hop;
    if k: nat :| k <= 2 && Hop(proxy, q, k) in proxy && proxy[Hop(proxy, q, k)] == SELF {
      assert Hop(proxy, q, k) in accounts;
    }
    if k: nat :| k <= 2 && Hop(proxy, q, k) in accounts && proxy[Hop(proxy, q, k)] == SELF {
      assert Hop(proxy, q, k) in proxy;
    }
  }

  /** It changes the one link, takes away exactly the account's own vote records, and leaves every amount alone. */
  lemma ProxyLeaves(t: Tally, a: Name, q: Name)
    requires Exact(t) && SetProxy(t, a, q).Some?
    ensures var r := SetProxy(t, a, q).value;
      && r.e.proxy == t.e.proxy[a := q] && r.e.now == t.e.now && r.ids == t.ids
      && (forall b, w {:trigger (b, w) in r.e.votes} :: (b, w) in r.e.votes <==> (b, w) in t.e.votes && b != a)
      && r.accounts == t.accounts[a := t.accounts[a].(votedFor := if q == SELF then t.accounts[a].votedFor else 0)]
      && r.x.witnesses.Keys == t.x.witnesses.Keys
  {
    hide Acyclic, SlotsExact, VotesExact, AdjustAll;
    AdjustAllWitnesses(t.e, t.x, a, Negated(Deltas(t.accounts, t.x, a)), 0);
    if q != SELF {
      var d := Detached(t, a);
      AdjustAllWitnesses(d.e.(proxy := d.e.proxy[a := q]), d.x, a, Deltas(t.accounts, t.x, a), 0);
    }
  }

  lemma SubtreeOfExact(t: Tally, a: Name)
    requires Exact(t) && a in t.accounts
    ensures IsSubtree(t.ids, t.accounts, t.e.proxy, a, Deltas(t.accounts, t.x, a))
  {
    hide Acyclic, VotersAreRoots, VotesExact;
    var zero := (b: nat) => 0;
    SumZero(t.ids, zero);
    SumChangedAt(t.ids, zero, FundsAt(t.accounts, t.e.proxy, 0, a), a, Total(t.accounts[a]));
  }

  lemma DetachedSlot(t: Tally, a: Name, c: Name, k: nat)
    requires Exact(t) && a in t.accounts && c in t.accounts && k < MAX_PROXY_DEPTH
    ensures Proxied(Detached(t, a).x, c, k) == FundsBelow(t.ids, t.accounts, t.e.proxy[a := SELF], k + 1, c)
  {
    hide AdjustAll, Deltas, VotersAreRoots, VotesExact, FundsBelow, CarriedFrom, IsSubtree;
    var delta := Deltas(t.accounts, t.x, a);
    SubtreeOfExact(t, a);
    AdjustAllSlots(t.e, t.x, a, Negated(delta), c, k);
    CarriedNegated(t.e.proxy, a, delta, c, k, 0);
    CutBelow(t.ids, t.accounts, t.e.proxy, a, delta, c, k);
  }

  lemma VoteSumWithout(ids: seq<Name>, accounts: map<Name, Account>, votes: set<(Name, Name)>, x: Index, a: Name,
                       w: Name)
    requires Distinct(ids) && a in ids
    ensures VoteSum(ids, accounts, WithoutVotesOf(votes, a), x, w)
         == VoteSum(ids, accounts, votes, x, w) - if (a, w) in votes then Weight(accounts, x, a) else 0
  {
    hide Weight;
    SumChangedAt(ids, WeightFor(accounts, votes, x, w), WeightFor(accounts, WithoutVotesOf(votes, a), x, w), a,
                 if (a, w) in votes then -Weight(accounts, x, a) else 0);
  }

  lemma DetachedVotes(t: Tally, a: Name, w: Name)
    requires Exact(t) && a in t.accounts && w in t.x.witnesses
    ensures var r := Detached(t, a);
      w in r.x.witnesses && r.x.witnesses[w].votes == VoteSum(r.ids, r.accounts, r.e.votes, r.x, w)
  {
    hide AdjustAll, Acyclic, SlotsExact, VoteSum, WithoutVotesOf;
    var delta := Deltas(t.accounts, t.x, a);
    var x := Detached(t, a).x;
    AdjustAllGap(t.ids, t.accounts, t.e, t.x, a, Negated(delta), w);
    VoteSumWithout(t.ids, t.accounts, t.e.votes, x, a, w);
    if (a, w) in t.e.votes {
      RootSlotsStay(t.e, t.x, a, Negated(delta));
      SumOfNegated(delta);
    }
  }

  lemma RootSlotsStay(e: Electors, x: Index, a: Name, delta: seq<int>)
    requires |delta| == MAX_PROXY_DEPTH + 1 && ProxyOf(e, a) == SELF
    ensures AdjustAll(e, x, a, delta, 0).proxied == x.proxied
  {}

  lemma SumOfNegated(delta: seq<int>)
    requires |delta| == 5
    ensures SumFrom(Negated(delta), 0, 5) == -(delta[0] + delta[1] + delta[2] + delta[3] + delta[4])
  {
    var n := Negated(delta);
    assert SumFrom(n, 3, 5) == n[3] + n[4] + SumFrom(n, 5, 5);
    assert SumFrom(n, 1, 5) == n[1] + n[2] + SumFrom(n, 3, 5);
  }

  /** Taking a subtree off its chain leaves an exact tally of the cut forest. */
  lemma DetachKeepsExact(t: Tally, a: Name)
    requires Exact(t) && a in t.accounts
    ensures Exact(Detached(t, a))
  {
    hide AdjustAll, FundsBelow, VoteSum, Hop, Acyclic, Deltas;
    var r := Detached(t, a);
    AdjustAllWitnesses(t.e, t.x, a, Negated(Deltas(t.accounts, t.x, a)), 0);
    CutKeepsAcyclic(t.e.proxy, a);
    forall c, k: nat | c in r.accounts && k < MAX_PROXY_DEPTH
      ensures Proxied(r.x, c, k) == FundsBelow(r.ids, r.accounts, r.e.proxy, k + 1, c)
    {
      DetachedSlot(t, a, c, k);
    }
    forall w | w in r.x.witnesses
      ensures r.x.witnesses[w].votes == VoteSum(r.ids, r.accounts, r.e.votes, r.x, w)
    {
      DetachedVotes(t, a, w);
    }
  }

  /** Putting a subtree on a chain that does not come back to it leaves an exact tally. */
  lemma AttachKeepsExact(t: Tally, a: Name, q: Name, delta: seq<int>)
    requires Exact(t) && a in t.accounts && a != NULL_ACCOUNT && q in t.accounts && t.e.proxy[a] == SELF
    requires forall w {:trigger (a, w) in t.e.votes} :: (a, w) !in t.e.votes
    requires Acyclic(t.e.proxy[a := q]) && |delta| == MAX_PROXY_DEPTH + 1
    requires IsSubtree(t.ids, t.accounts, t.e.proxy, a, delta)
    ensures Exact(Attached(t, a, q, delta))
  {
    hide AdjustAll, FundsBelow, VoteSum, Hop, Acyclic, IsSubtree, CarriedFrom;
    var r := Attached(t, a, q, delta);
    var linked := t.e.proxy[a := q];
    assert linked[a := SELF] == t.e.proxy;
    AdjustAllWitnesses(r.e, t.x, a, delta, 0);
    CutSubtree(t.ids, t.accounts, linked, a, delta);
    forall c, k: nat | c in r.accounts && k < MAX_PROXY_DEPTH
      ensures Proxied(r.x, c, k) == FundsBelow(r.ids, r.accounts, r.e.proxy, k + 1, c)
    {
      AdjustAllSlots(r.e, t.x, a, delta, c, k);
      CutBelow(t.ids, t.accounts, linked, a, delta, c, k);
    }
    forall w | w in r.x.witnesses
      ensures r.x.witnesses[w].votes == VoteSum(r.ids, r.accounts, r.e.votes, r.x, w)
    {
      AdjustAllGap(t.ids, t.accounts, r.e, t.x, a, delta, w);
    }
  }

  /** Setting, changing or clearing a proxy keeps the graph a forest and the tally exact. */
  lemma SetProxyKeepsExact(t: Tally, a: Name, q: Name)
    requires Exact(t) && a != NULL_ACCOUNT && SetProxy(t, a, q).Some?
    ensures Exact(SetProxy(t, a, q).value)
  {
    hide AdjustAll, FundsBelow, VoteSum, Hop, Acyclic, SlotsExact, VotesExact, Deltas, IsSubtree;
    DetachKeepsExact(t, a);
    var d := Detached(t, a);
    if q == SELF {
      assert WithoutVotesOf(t.e.votes, a) == t.e.votes;
    } else {
      RewriteKeepsExact(d, a, d.accounts[a].(votedFor := 0));
      var m := d.(accounts := d.accounts[a := d.accounts[a].(votedFor := 0)]);
      forall i: nat
        ensures Hop(t.e.proxy, q, i) != a
      {
        ChainAvoids(t.e.proxy, {a, q}, q, a, i);
      }
      LinkKeepsAcyclic(t.e.proxy, a, q);
      assert d.e.proxy[a := q] == t.e.proxy[a := q];
      SubtreeOfExact(t, a);
      CutSubtree(t.ids, t.accounts, t.e.proxy, a, Deltas(t.accounts, t.x, a));
      SameFundsSubtree(t.ids, t.accounts, m.accounts, d.e.proxy, a, Deltas(t.accounts, t.x, a));
      AttachKeepsExact(m, a, q, Deltas(t.accounts, t.x, a));
    }
  }

  lemma SameFundsSubtree(ids: seq<Name>, accounts: map<Name, Account>, accounts': map<Name, Account>,
                         proxy: map<Name, Name>, a: Name, delta: seq<int>)
    requires accounts.Keys == accounts'.Keys
    requires forall b :: b in accounts ==> Total(accounts[b]) == Total(accounts'[b])
    requires IsSubtree(ids, accounts, proxy, a, delta)
    ensures IsSubtree(ids, accounts', proxy, a, delta)
  {
    forall i | 0 <= i < |delta|
      ensures delta[i] == FundsBelow(ids, accounts', proxy, i, a)
    {
      SumEqual(ids, FundsAt(accounts, proxy, i, a), FundsAt(accounts', proxy, i, a));
    }
  }
}
