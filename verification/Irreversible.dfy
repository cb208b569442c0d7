/** The last irreversible block: an order statistic of the blocks that the scheduled witnesses confirmed last. */
module Irreversible {
  import opened ChainTypes
  import opened BlockIds

  const ALL_PERCENT: nat := 10000
  const THRESHOLD: nat := 7500

  // ----- order statistics -----

  function Inserted(v: nat, s: seq<nat>): seq<nat> {
    if s == [] || v <= s[0] then [v] + s else [s[0]] + Inserted(v, s[1..])
  }

  function Ascending(s: seq<nat>): (r: seq<nat>)
    ensures |r| == |s|
  {
    if s == [] then []
    else
      InsertedLength(s[0], Ascending(s[1..]));
      Inserted(s[0], Ascending(s[1..]))
  }

  lemma InsertedLength(v: nat, s: seq<nat>)
    ensures |Inserted(v, s)| == |s| + 1
  {}

  ghost predicate IsAscending(s: seq<nat>) {
    forall i, j {:trigger s[i], s[j]} :: 0 <= i <= j < |s| ==> s[i] <= s[j]
  }

  /** How many confirmed block v or a later one. */
  function Backing(s: seq<nat>, v: nat): (n: nat)
    ensures n <= |s|
  {
    if s == [] then 0 else (if s[0] >= v then 1 else 0) + Backing(s[1..], v)
  }

  lemma {:induction false} InsertedBacking(x: nat, s: seq<nat>, v: nat)
    ensures Backing(Inserted(x, s), v) == Backing(s, v) + if x >= v then 1 else 0
    decreases |s|
  {
    if s == [] || x <= s[0] {
      assert ([x] + s)[1..] == s;
    } else {
      InsertedBacking(x, s[1..], v);
      assert ([s[0]] + Inserted(x, s[1..]))[1..] == Inserted(x, s[1..]);
    }
  }

  lemma {:induction false} InsertedAscends(x: nat, s: seq<nat>)
    requires IsAscending(s)
    ensures IsAscending(Inserted(x, s))
    ensures s != [] ==> Inserted(x, s)[0] == if x <= s[0] then x else s[0]
    decreases |s|
  {
    if s != [] && x > s[0] {
      InsertedAscends(x, s[1..]);
      HeadIsLeast(s[0], Inserted(x, s[1..]));
    } else {
      HeadIsLeast(x, s);
    }
  }

  lemma HeadIsLeast(x: nat, s: seq<nat>)
    requires IsAscending(s) && (s == [] || x <= s[0])
    ensures IsAscending([x] + s)
  {}

  lemma {:induction false} AscendingSorts(s: seq<nat>, v: nat)
    ensures IsAscending(Ascending(s)) && Backing(Ascending(s), v) == Backing(s, v)
    decreases |s|
  {
    if s != [] {
      AscendingSorts(s[1..], v);
      InsertedAscends(s[0], Ascending(s[1..]));
      InsertedBacking(s[0], Ascending(s[1..]), v);
    }
  }

  /** In ascending order, v is backed by all from the first place that reaches it. */
  lemma {:induction false} AscendingBacking(s: seq<nat>, v: nat, k: nat)
    requires IsAscending(s) && k < |s|
    ensures v <= s[k] ==> Backing(s, v) >= |s| - k
    ensures v > s[k] ==> Backing(s, v) < |s| - k
    decreases |s|
  {
    assert forall i :: 0 <= i < |s| - 1 ==> s[1..][i] == s[i + 1];
    if k > 0 {
      AscendingBacking(s[1..], v, k - 1);
    } else if |s| > 1 {
      AscendingBacking(s[1..], v, 0);
    }
  }

  // ----- the threshold -----

  function Offset(n: nat): (k: nat)
    ensures n > 0 ==> k < n
  {
    (ALL_PERCENT - THRESHOLD) * n / ALL_PERCENT
  }

  /** The threshold share of n, rounded up. */
  function Quorum(n: nat): nat {
    (THRESHOLD * n + ALL_PERCENT - 1) / ALL_PERCENT
  }

  function Candidate(confirmed: seq<nat>): nat
    requires confirmed != []
  {
    Ascending(confirmed)[Offset(|confirmed|)]
  }

  /** The candidate is the highest block number that a quorum of the scheduled witnesses has confirmed. */
  lemma CandidateIsHighestBacked(confirmed: seq<nat>, v: nat)
    requires confirmed != []
    ensures Backing(confirmed, v) >= Quorum(|confirmed|) <==> v <= Candidate(confirmed)
  {
    AscendingSorts(confirmed, v);
    AscendingBacking(Ascending(confirmed), v, Offset(|confirmed|));
    assert |confirmed| - Offset(|confirmed|) == Quorum(|confirmed|);
  }

  /** The scheduled witnesses, by position, that have confirmed block v or a later one. */
  ghost function Confirmers(confirmed: map<Name, nat>, scheduled: seq<Name>, v: nat): set<nat> {
    set i: nat | i < |scheduled| && (if scheduled[i] in confirmed then confirmed[scheduled[i]] else 0) >= v
  }

  lemma {:induction false} BackingCounts(s: seq<nat>, v: nat)
    ensures Backing(s, v) == |set i: nat | i < |s| && s[i] >= v|
    decreases |s|
  {
    var all := set i: nat | i < |s| && s[i] >= v;
    if s == [] {
      assert all == {};
    } else {
      var rest := set i: nat | i < |s| - 1 && s[1..][i] >= v;
      BackingCounts(s[1..], v);
      assert rest == set i: nat | i < |s[1..]| && s[1..][i] >= v;
      var shifted := Shifted(rest);
      ShiftedCount(rest);
      assert forall i: nat {:trigger s[i]} :: 0 < i < |s| ==> s[i] == s[1..][i - 1];
      assert all == shifted + if s[0] >= v then {0} else {};
    }
  }

  ghost function Shifted(s: set<nat>): (r: set<nat>)
    ensures forall j: nat {:trigger j in r} :: j in r <==> j > 0 && j - 1 in s
  {
    set i | i in s :: i + 1
  }

  lemma {:induction false} ShiftedCount(s: set<nat>)
    ensures |Shifted(s)| == |s|
  {
    hide Shifted;
    if s == {} {
      assert Shifted(s) == {};
    } else {
      var x :| x in s;
      ShiftedCount(s - {x});
      assert Shifted(s) == Shifted(s - {x}) + {x + 1};
    }
  }

  lemma {:induction false} BackedByNone(s: seq<nat>, v: nat)
    requires forall i {:trigger s[i]} :: 0 <= i < |s| ==> s[i] < v
    ensures Backing(s, v) == 0
    decreases |s|
  {
    if s != [] {
      assert forall i :: 0 <= i < |s| - 1 ==> s[1..][i] == s[i + 1];
      BackedByNone(s[1..], v);
    }
  }

  // ----- chains of applied blocks -----

  datatype Config = Config(startVoting: nat, maxWitnesses: nat)

  datatype Progress = Progress(head: nat, lib: nat, confirmed: map<Name, nat>, scheduled: seq<Name>)

  /** A block, its producer, and the schedule that is in force after it. */
  datatype Produced = Produced(producer: Name, schedule: seq<Name>)

  function Confirmed(p: Progress): (s: seq<nat>)
    ensures |s| == |p.scheduled| && forall i {:trigger s[i]} :: 0 <= i < |s| ==>
      s[i] == if p.scheduled[i] in p.confirmed then p.confirmed[p.scheduled[i]] else 0
  {
    seq(|p.scheduled|, i requires 0 <= i < |p.scheduled| =>
      if p.scheduled[i] in p.confirmed then p.confirmed[p.scheduled[i]] else 0)
  }

  function Raised(c: Config, p: Progress): nat {
    if p.head < c.startVoting then
      if p.head > c.maxWitnesses then p.head - c.maxWitnesses else p.lib
    else if p.scheduled != [] && Candidate(Confirmed(p)) > p.lib then Candidate(Confirmed(p))
    else p.lib
  }

  function ApplyProduced(c: Config, p: Progress, b: Produced): Progress {
    var q := p.(head := p.head + 1, confirmed := p.confirmed[b.producer := p.head + 1]);
    q.(lib := Raised(c, q), scheduled := b.schedule)
  }

  function ApplyAll(c: Config, p: Progress, bs: seq<Produced>): Progress
    decreases |bs|
  {
    if bs == [] then p else ApplyAll(c, ApplyProduced(c, p, bs[0]), bs[1..])
  }

  ghost predicate Sane(c: Config, p: Progress) {
    && p.lib <= p.head
    && (forall w {:trigger p.confirmed[w]} :: w in p.confirmed ==> p.confirmed[w] <= p.head)
    && (p.head < c.startVoting ==> p.lib == if p.head > c.maxWitnesses then p.head - c.maxWitnesses else 0)
  }

  /** One block never lowers the last irreversible block, and once votes decide, raises it only with a quorum. */
  lemma BlockRaises(c: Config, p: Progress, b: Produced)
    requires Sane(c, p)
    ensures var q := ApplyProduced(c, p, b);
      && Sane(c, q) && p.lib <= q.lib <= q.head
      && (q.head >= c.startVoting && q.lib > p.lib ==>
            Backing(Confirmed(q.(scheduled := p.scheduled)), q.lib) >= Quorum(|p.scheduled|))
  {
    var m := p.(head := p.head + 1, confirmed := p.confirmed[b.producer := p.head + 1]);
    var s := Confirmed(m);
    assert Confirmed(ApplyProduced(c, p, b).(scheduled := p.scheduled)) == s;
    if m.scheduled != [] {
      CandidateIsHighestBacked(s, Candidate(s));
      CandidateIsHighestBacked(s, m.head + 1);
      BackedByNone(s, m.head + 1);
    }
  }

  /** Once votes decide, a block makes irreversible exactly what three quarters of the scheduled witnesses have
      confirmed, and never less than before. */
  lemma QuorumDecides(c: Config, p: Progress, b: Produced, v: nat)
    requires p.head + 1 >= c.startVoting && p.scheduled != []
    ensures var q := ApplyProduced(c, p, b);
      && q.confirmed == p.confirmed[b.producer := p.head + 1]
      && (v <= q.lib <==> v <= p.lib || 4 * |Confirmers(q.confirmed, p.scheduled, v)| >= 3 * |p.scheduled|)
  {
    RaisedByQuorum(c, p.(head := p.head + 1, confirmed := p.confirmed[b.producer := p.head + 1]), v);
  }

  lemma RaisedByQuorum(c: Config, p: Progress, v: nat)
    requires p.head >= c.startVoting && p.scheduled != []
    ensures v <= Raised(c, p) <==> v <= p.lib || 4 * |Confirmers(p.confirmed, p.scheduled, v)| >= 3 * |p.scheduled|
  {
    hide Candidate, Backing;
    var s, n := Confirmed(p), |p.scheduled|;
    CandidateIsHighestBacked(s, v);
    BackingCounts(s, v);
    assert Confirmers(p.confirmed, p.scheduled, v) == set i: nat | i < |s| && s[i] >= v;
    assert Backing(s, v) >= Quorum(n) <==> 4 * Backing(s, v) >= 3 * n;
  }

  /** Along every chain of blocks the last irreversible block never falls and never passes the head. */
  lemma {:induction false} ChainRaises(c: Config, p: Progress, bs: seq<Produced>)
    requires Sane(c, p)
    ensures var q := ApplyAll(c, p, bs); Sane(c, q) && p.lib <= q.lib <= q.head == p.head + |bs|
    decreases |bs|
  {
    if bs != [] {
      BlockRaises(c, p, bs[0]);
      ChainRaises(c, ApplyProduced(c, p, bs[0]), bs[1..]);
    }
  }

  // ----- the state after a block -----

  /** Blocks say who produced them and which schedule is in force after them. */
  type Data = BlockId -> Produced

  /** Progress after a block and its ancestors; applying blocks is deterministic. */
  function StateAt(c: Config, data: Data, schedule: seq<Name>, id: BlockId): Progress {
    if id.NoBlock? then Progress(0, 0, map[], schedule)
    else ApplyProduced(c, StateAt(c, data, schedule, id.previous), data(id))
  }

  ghost predicate Scheduling(data: Data, schedule: seq<Name>) {
    schedule != [] && forall id {:trigger data(id)} :: data(id).schedule != []
  }

  lemma {:induction false} StateSane(c: Config, data: Data, schedule: seq<Name>, id: BlockId)
    requires Scheduling(data, schedule)
    ensures var p := StateAt(c, data, schedule, id); Sane(c, p) && p.head == Num(id) && p.scheduled != []
    ensures id.BlockId? ==> StateAt(c, data, schedule, id.previous).lib <= StateAt(c, data, schedule, id).lib
  {
    hide Raised;
    if id.BlockId? {
      StateSane(c, data, schedule, id.previous);
      BlockRaises(c, StateAt(c, data, schedule, id.previous), data(id));
    }
  }

  lemma {:induction false} StateRaises(c: Config, data: Data, schedule: seq<Name>, id: BlockId, k: nat)
    requires Scheduling(data, schedule) && k <= Num(id)
    ensures StateAt(c, data, schedule, Back(id, k)).lib <= StateAt(c, data, schedule, id).lib
    decreases k
  {
    hide StateAt;
    if k > 0 {
      StateSane(c, data, schedule, id);
      StateRaises(c, data, schedule, id.previous, k - 1);
    }
  }
}
