/**
 Witness votes and the per-depth proxied amounts are an index over the proxy forest. This module
 gives the two depth-bounded recursions that maintain it and proves that one is the other run once
 per depth.
 */
module VoteTally {
  import opened ChainTypes

  /** What a change of funds only reads: each account's proxy, the vote records and the virtual time. */
  datatype Electors = Electors(proxy: map<Name, Name>, votes: set<(Name, Name)>, now: nat)

  /** What a change of funds updates: the amount proxied to an account from each depth, and the witnesses. */
  datatype Index = Index(proxied: map<(Name, nat), int>, witnesses: map<Name, Witness>)

  function ProxyOf(e: Electors, a: Name): Name {
    if a in e.proxy then e.proxy[a] else SELF
  }

  function Proxied(x: Index, a: Name, k: nat): int {
    if (a, k) in x.proxied then x.proxied[(a, k)] else 0
  }

  // ----- the updates, as the database performs them -----

  /** The position of a witness on its virtual lap, in 128-bit arithmetic. */
  function Position(w: Witness, now: nat): nat {
    (w.position + w.votes * (now - w.lastUpdate)) % TWO_128
  }

  /** When the lap will be complete; a wrapped result counts as the end of time. The divisor is never
      zero in a reachable state, where votes are not negative. */
  function LapEnd(votes: int, position: nat, now: nat): nat {
    var divisor := (votes + 1) % TWO_128;
    var rest := (LAP_LENGTH - position) % TWO_128;
    var end := (now + if divisor == 0 then 0 else rest / divisor) % TWO_128;
    if end < now then LAP_LENGTH else end
  }

  /** Moves a witness to the present virtual time, changes its votes and reschedules it. */
  function AdjustVote(w: Witness, delta: int, now: nat): Witness {
    Witness(w.id, w.votes + delta, now, Position(w, now), LapEnd(w.votes + delta, Position(w, now), now), w.key, w.role)
  }

  /** Adjusts every witness that account `a` has a vote record for. */
  function AdjustVotes(e: Electors, x: Index, a: Name, delta: int): Index {
    x.(witnesses := map w | w in x.witnesses ::
         if (a, w) in e.votes then AdjustVote(x.witnesses[w], delta, e.now) else x.witnesses[w])
  }

  function Bump(x: Index, a: Name, k: nat, delta: int): Index {
    x.(proxied := x.proxied[(a, k) := Proxied(x, a, k) + delta])
  }

  /** One amount travels up the proxy chain. */
  function AdjustOne(e: Electors, x: Index, a: Name, delta: int, depth: nat): Index
    decreases MAX_PROXY_DEPTH - depth
  {
    var p := ProxyOf(e, a);
    if p == SELF then AdjustVotes(e, x, a, delta)
    else if depth >= MAX_PROXY_DEPTH then x
    else AdjustOne(e, Bump(x, p, depth, delta), p, delta, depth + 1)
  }

  /** Slots depth + i, depth + i + 1, ... of account `a` receive delta[i], delta[i + 1], ... */
  function BumpFrom(x: Index, a: Name, delta: seq<int>, depth: nat, i: nat): Index
    requires |delta| == MAX_PROXY_DEPTH + 1
    decreases MAX_PROXY_DEPTH - i
  {
    if depth + i >= MAX_PROXY_DEPTH then x
    else BumpFrom(Bump(x, a, depth + i, delta[i]), a, delta, depth, i + 1)
  }

  function SumFrom(delta: seq<int>, i: nat, end: nat): int
    requires i <= end <= |delta|
    decreases end - i
  {
    if i == end then 0 else delta[i] + SumFrom(delta, i + 1, end)
  }

  /** An account's own funds and everything proxied to it travel up the proxy chain together. */
  function AdjustAll(e: Electors, x: Index, a: Name, delta: seq<int>, depth: nat): Index
    requires |delta| == MAX_PROXY_DEPTH + 1 && depth <= MAX_PROXY_DEPTH
    decreases MAX_PROXY_DEPTH - depth
  {
    var p := ProxyOf(e, a);
    if p == SELF then AdjustVotes(e, x, a, SumFrom(delta, 0, MAX_PROXY_DEPTH - depth + 1))
    else if depth >= MAX_PROXY_DEPTH then x
    else AdjustAll(e, BumpFrom(x, p, delta, depth, 0), p, delta, depth + 1)
  }

  // ----- the array form is the scalar form, once per depth -----

  /** Applies the scalar form with delta[i], delta[i + 1], ... started at depth + i, depth + i + 1, ... */
  ghost function OneByOne(e: Electors, x: Index, a: Name, delta: seq<int>, depth: nat, i: nat): Index
    requires |delta| == MAX_PROXY_DEPTH + 1
    decreases MAX_PROXY_DEPTH + 1 - i
  {
    if depth + i > MAX_PROXY_DEPTH then x
    else OneByOne(e, AdjustOne(e, x, a, delta[i], depth + i), a, delta, depth, i + 1)
  }

  lemma PositionAtLastUpdate(w: Witness)
    requires w.position < TWO_128
    ensures Position(w, w.lastUpdate) == w.position
  {
    assert w.votes * 0 == 0;
  }

  /** Two changes at one virtual time leave a witness as their sum does, in every field. */
  lemma AdjustVoteFuses(w: Witness, d: int, f: int, now: nat)
    ensures AdjustVote(AdjustVote(w, d, now), f, now) == AdjustVote(w, d + f, now)
  {
    PositionAtLastUpdate(AdjustVote(w, d, now));
  }

  lemma AdjustVotesFuse(e: Electors, x: Index, a: Name, d: int, f: int)
    ensures AdjustVotes(e, AdjustVotes(e, x, a, d), a, f) == AdjustVotes(e, x, a, d + f)
  {
    forall w | w in x.witnesses {
      AdjustVoteFuses(x.witnesses[w], d, f, e.now);
    }
    assert AdjustVotes(e, AdjustVotes(e, x, a, d), a, f).witnesses == AdjustVotes(e, x, a, d + f).witnesses;
  }

  lemma BumpsCommute(x: Index, a: Name, k: nat, d: int, b: Name, j: nat, f: int)
    ensures Bump(Bump(x, a, k, d), b, j, f) == Bump(Bump(x, b, j, f), a, k, d)
  {
    assert Bump(Bump(x, a, k, d), b, j, f).proxied == Bump(Bump(x, b, j, f), a, k, d).proxied;
  }

  lemma {:induction false} BumpFromWitnesses(x: Index, p: Name, delta: seq<int>, depth: nat, i: nat)
    requires |delta| == MAX_PROXY_DEPTH + 1
    ensures BumpFrom(x, p, delta, depth, i).witnesses == x.witnesses
    decreases MAX_PROXY_DEPTH - i
  {
    if depth + i < MAX_PROXY_DEPTH {
      BumpFromWitnesses(Bump(x, p, depth + i, delta[i]), p, delta, depth, i + 1);
    }
  }

  lemma {:induction false} BumpPastAdjustOne(e: Electors, x: Index, a: Name, delta: int, depth: nat,
                                             b: Name, k: nat, f: int)
    ensures Bump(AdjustOne(e, x, a, delta, depth), b, k, f) == AdjustOne(e, Bump(x, b, k, f), a, delta, depth)
    decreases MAX_PROXY_DEPTH - depth
  {
    var p := ProxyOf(e, a);
    if p != SELF && depth < MAX_PROXY_DEPTH {
      BumpPastAdjustOne(e, Bump(x, p, depth, delta), p, delta, depth + 1, b, k, f);
      BumpsCommute(x, p, depth, delta, b, k, f);
    }
  }

  lemma {:induction false} BumpFromPastAdjustOne(e: Electors, x: Index, a: Name, d: int, depth: nat,
                                                 b: Name, delta: seq<int>, start: nat, i: nat)
    requires |delta| == MAX_PROXY_DEPTH + 1
    ensures BumpFrom(AdjustOne(e, x, a, d, depth), b, delta, start, i)
         == AdjustOne(e, BumpFrom(x, b, delta, start, i), a, d, depth)
    decreases MAX_PROXY_DEPTH - i
  {
    hide AdjustOne;
    if start + i < MAX_PROXY_DEPTH {
      BumpPastAdjustOne(e, x, a, d, depth, b, start + i, delta[i]);
      BumpFromPastAdjustOne(e, Bump(x, b, start + i, delta[i]), a, d, depth, b, delta, start, i + 1);
    }
  }

  lemma {:induction false} RootOneByOne(e: Electors, x: Index, a: Name, delta: seq<int>, depth: nat, i: nat)
    requires ProxyOf(e, a) == SELF
    requires |delta| == MAX_PROXY_DEPTH + 1 && depth + i <= MAX_PROXY_DEPTH
    ensures OneByOne(e, x, a, delta, depth, i)
         == AdjustVotes(e, x, a, SumFrom(delta, i, MAX_PROXY_DEPTH - depth + 1))
    decreases MAX_PROXY_DEPTH - i
  {
    if depth + i < MAX_PROXY_DEPTH {
      RootOneByOne(e, AdjustVotes(e, x, a, delta[i]), a, delta, depth, i + 1);
      AdjustVotesFuse(e, x, a, delta[i], SumFrom(delta, i + 1, MAX_PROXY_DEPTH - depth + 1));
    } else {
      assert SumFrom(delta, i, i + 1) == delta[i] + SumFrom(delta, i + 1, i + 1);
    }
  }

  lemma HopStep(e: Electors, x: Index, a: Name, p: Name, delta: seq<int>, depth: nat, i: nat)
    requires ProxyOf(e, a) == p != SELF
    requires |delta| == MAX_PROXY_DEPTH + 1 && depth + i < MAX_PROXY_DEPTH
    ensures BumpFrom(AdjustOne(e, x, a, delta[i], depth + i), p, delta, depth, i + 1)
         == AdjustOne(e, BumpFrom(x, p, delta, depth, i), p, delta[i], depth + 1 + i)
  {
    hide AdjustVotes, Bump;
    BumpFromPastAdjustOne(e, Bump(x, p, depth + i, delta[i]), p, delta[i], depth + 1 + i, p, delta, depth, i + 1);
  }

  lemma {:induction false} HopOneByOne(e: Electors, x: Index, a: Name, p: Name, delta: seq<int>, depth: nat, i: nat)
    requires ProxyOf(e, a) == p != SELF
    requires |delta| == MAX_PROXY_DEPTH + 1 && depth + i <= MAX_PROXY_DEPTH
    ensures OneByOne(e, x, a, delta, depth, i)
         == OneByOne(e, BumpFrom(x, p, delta, depth, i), p, delta, depth + 1, i)
    decreases MAX_PROXY_DEPTH - i
  {
    if depth + i < MAX_PROXY_DEPTH {
      HopOneByOne(e, AdjustOne(e, x, a, delta[i], depth + i), a, p, delta, depth, i + 1);
      HopStep(e, x, a, p, delta, depth, i);
    }
  }

  /** The array form changes every slot and every witness exactly as the scalar form does when it is
      run with each delta[i] started at depth + i. */
  lemma {:induction false} AdjustAllIsOneByOne(e: Electors, x: Index, a: Name, delta: seq<int>, depth: nat)
    requires |delta| == MAX_PROXY_DEPTH + 1 && depth <= MAX_PROXY_DEPTH
    ensures AdjustAll(e, x, a, delta, depth) == OneByOne(e, x, a, delta, depth, 0)
    decreases MAX_PROXY_DEPTH - depth
  {
    var p := ProxyOf(e, a);
    if p == SELF {
      RootOneByOne(e, x, a, delta, depth, 0);
    } else if depth < MAX_PROXY_DEPTH {
      AdjustAllIsOneByOne(e, BumpFrom(x, p, delta, depth, 0), p, delta, depth + 1);
      HopOneByOne(e, x, a, p, delta, depth, 0);
    }
  }
}
