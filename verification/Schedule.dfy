/**
 One scheduling round: elect, advance the virtual time to the last witness looked at, give every examined
 witness a new lap, reset everything when a lap would wrap, and shuffle the round in place.
 */
module Schedule {
  import opened ChainTypes
  import opened Sums
  import opened VoteTally
  import opened Election
  import Economics

  // ----- virtual time -----

  /** No witness was updated in the future or is due in the past. */
  ghost predicate InTime(ws: Witnesses, now: nat) {
    && now < TWO_128
    && forall w {:trigger ws[w]} :: w in ws ==>
         ws[w].lastUpdate <= now <= ws[w].scheduled < TWO_128 && ws[w].position < TWO_128
  }

  /** The length of a whole lap at the present votes. */
  function Lap(w: Witness): nat {
    var divisor := (w.votes + 1) % TWO_128;
    if divisor == 0 then 0 else LAP_LENGTH / divisor
  }

  predicate Wraps(w: Witness, time: nat) {
    (time + Lap(w)) % TWO_128 < time
  }

  function NewLap(w: Witness, time: nat): Witness {
    w.(position := 0, lastUpdate := time, scheduled := (time + Lap(w)) % TWO_128)
  }

  function Reset(w: Witness): Witness {
    w.(position := 0, lastUpdate := 0, scheduled := Lap(w) % TWO_128)
  }

  function WithRole(w: Witness, name: Name, elected: seq<Name>, runners: seq<Name>): Witness {
    if name in runners then w.(role := Timeshare) else if name in elected then w.(role := Top) else w
  }

  /** What a round does to the witness table and to the virtual time. */
  datatype Round = Round(
    elected: seq<Name>,
    runners: seq<Name>,
    examined: seq<Name>,
    time: nat,
    wrapped: bool)

  function RoundOf(ws: Witnesses, names: seq<Name>, now: nat, maxVoted: nat, max: nat): Round
    requires forall a :: a in names ==> a in ws
  {
    var elected := Elected(ws, names, maxVoted);
    var runners := Runners(ws, names, Members(elected), max);
    var order := Sorted(ws, ByTime, names);
    var m := Examined(ws, order, Members(elected), if |elected| <= max then max - |elected| else 0);
    var time := if m == 0 then now else ws[order[m - 1]].scheduled;
    Round(elected, runners, order[..m], time, exists a :: a in order[..m] && Wraps(ws[a], time))
  }

  function AfterRound(ws: Witnesses, r: Round): Witnesses {
    map a | a in ws ::
      var w := WithRole(ws[a], a, r.elected, r.runners);
      if r.wrapped then Reset(w) else if a in r.examined then NewLap(w, r.time) else w
  }

  function TimeAfter(r: Round): nat {
    if r.wrapped then 0 else r.time
  }

  lemma AdjustedInTime(w: Witness, delta: int, now: nat)
    requires now < TWO_128
    ensures var v := AdjustVote(w, delta, now);
      v.lastUpdate <= now <= v.scheduled < TWO_128 && v.position < TWO_128
  {}

  /** A change of votes anywhere keeps every witness in time. */
  lemma {:induction false} AdjustOneInTime(e: Electors, x: Index, a: Name, delta: int, depth: nat)
    requires InTime(x.witnesses, e.now)
    ensures InTime(AdjustOne(e, x, a, delta, depth).witnesses, e.now)
    decreases MAX_PROXY_DEPTH - depth
  {
    var p := ProxyOf(e, a);
    if p == SELF {
      AdjustVotesInTime(e, x, a, delta);
    } else if depth < MAX_PROXY_DEPTH {
      AdjustOneInTime(e, Bump(x, p, depth, delta), p, delta, depth + 1);
    }
  }

  lemma AdjustVotesInTime(e: Electors, x: Index, a: Name, delta: int)
    requires InTime(x.witnesses, e.now)
    ensures InTime(AdjustVotes(e, x, a, delta).witnesses, e.now)
  {
    hide AdjustVote;
    var r := AdjustVotes(e, x, a, delta).witnesses;
    forall w | w in r
      ensures r[w].lastUpdate <= e.now <= r[w].scheduled < TWO_128 && r[w].position < TWO_128
    {
      assert x.witnesses[w].lastUpdate <= e.now;
      AdjustedInTime(x.witnesses[w], delta, e.now);
    }
  }

  lemma {:induction false} AdjustAllInTime(e: Electors, x: Index, a: Name, delta: seq<int>, depth: nat)
    requires |delta| == MAX_PROXY_DEPTH + 1 && depth <= MAX_PROXY_DEPTH && InTime(x.witnesses, e.now)
    ensures InTime(AdjustAll(e, x, a, delta, depth).witnesses, e.now)
    decreases MAX_PROXY_DEPTH - depth
  {
    var p := ProxyOf(e, a);
    if p == SELF {
      AdjustVotesInTime(e, x, a, SumFrom(delta, 0, MAX_PROXY_DEPTH - depth + 1));
    } else if depth < MAX_PROXY_DEPTH {
      BumpFromWitnesses(x, p, delta, depth, 0);
      AdjustAllInTime(e, BumpFrom(x, p, delta, depth, 0), p, delta, depth + 1);
    }
  }

  /** Whoever was not examined is due no earlier than the new time, which is no earlier than the old one. */
  lemma RoundTime(ws: Witnesses, names: seq<Name>, now: nat, maxVoted: nat, max: nat, a: Name)
    requires Table(ws, names) && InTime(ws, now) && a in ws
    ensures var r := RoundOf(ws, names, now, maxVoted, max);
      && now <= r.time < TWO_128
      && (a !in r.examined ==> r.time <= ws[a].scheduled)
  {
    hide Sorted, Examined, Elected, Runners, Lap;
    var r := RoundOf(ws, names, now, maxVoted, max);
    var order := Sorted(ws, ByTime, names);
    SortedInOrder(ws, ByTime, names);
    var m := |r.examined|;
    if m > 0 {
      assert order[m - 1] in order;
      if a !in r.examined {
        var i :| 0 <= i < |order| && order[i] == a;
        assert m <= i by {
          assert forall k {:trigger order[k]} :: 0 <= k < m ==> order[k] == r.examined[k] && order[k] in r.examined;
        }
        assert Before(ws, ByTime, order[m - 1], order[i]);
      }
    }
  }

  /** One witness after a round. */
  lemma WitnessStaysInTime(w: Witness, a: Name, r: Round, now: nat)
    requires w.lastUpdate <= now <= r.time < TWO_128 && now <= w.scheduled < TWO_128 && w.position < TWO_128
    requires a in r.examined ==> r.wrapped || !Wraps(w, r.time)
    requires a !in r.examined ==> r.time <= w.scheduled
    ensures var v := AfterRound(map[a := w], r)[a];
      v.lastUpdate <= TimeAfter(r) <= v.scheduled < TWO_128 && v.position < TWO_128
  {
    hide Lap;
    RoleKeepsLap(w, a, r.elected, r.runners);
  }

  /** A round keeps every witness in time; time does not run backwards except to zero at a reset. */
  lemma RoundKeepsInTime(ws: Witnesses, names: seq<Name>, now: nat, maxVoted: nat, max: nat)
    requires Table(ws, names) && InTime(ws, now)
    ensures var r := RoundOf(ws, names, now, maxVoted, max);
      && InTime(AfterRound(ws, r), TimeAfter(r))
      && (if r.wrapped then TimeAfter(r) == 0 else now <= TimeAfter(r))
  {
    hide RoundOf, Wraps, Reset, NewLap, WithRole;
    var r := RoundOf(ws, names, now, maxVoted, max);
    assert now <= r.time < TWO_128 by {
      RoundTimeGrows(ws, names, now, maxVoted, max);
    }
    forall a | a in ws
      ensures var w := AfterRound(ws, r)[a];
        w.lastUpdate <= TimeAfter(r) <= w.scheduled < TWO_128 && w.position < TWO_128
    {
      assert ws[a].lastUpdate <= now;
      RoundTime(ws, names, now, maxVoted, max, a);
      RoundWraps(ws, names, now, maxVoted, max, a);
      WitnessStaysInTime(ws[a], a, r, now);
      assert AfterRound(ws, r)[a] == AfterRound(map[a := ws[a]], r)[a];
    }
  }

  lemma RoundWraps(ws: Witnesses, names: seq<Name>, now: nat, maxVoted: nat, max: nat, a: Name)
    requires Table(ws, names) && a in ws
    ensures var r := RoundOf(ws, names, now, maxVoted, max);
      a in r.examined ==> r.wrapped || !Wraps(ws[a], r.time)
  {
    hide Sorted, Examined, Elected, Runners, Wraps;
  }

  lemma RoundTimeGrows(ws: Witnesses, names: seq<Name>, now: nat, maxVoted: nat, max: nat)
    requires Table(ws, names) && InTime(ws, now)
    ensures now <= RoundOf(ws, names, now, maxVoted, max).time < TWO_128
  {
    hide Examined, Elected, Runners, Wraps;
    if names == [] {
      assert Sorted(ws, ByTime, names) == [];
    } else {
      assert names[0] in names;
      RoundTime(ws, names, now, maxVoted, max, names[0]);
    }
  }

  lemma RoleKeepsLap(w: Witness, a: Name, elected: seq<Name>, runners: seq<Name>)
    ensures Lap(WithRole(w, a, elected, runners)) == Lap(w)
  {}

  /** A round leaves votes, keys and ids alone. */
  lemma RoundKeepsVotes(ws: Witnesses, r: Round, a: Name)
    requires a in ws
    ensures AfterRound(ws, r).Keys == ws.Keys
    ensures AfterRound(ws, r)[a].votes == ws[a].votes
    ensures AfterRound(ws, r)[a].key == ws[a].key && AfterRound(ws, r)[a].id == ws[a].id
  {}

  // ----- laps -----

  /** A whole lap takes as long as a runner with one more than the witness's votes per unit of time needs for it. */
  lemma LapIs(w: Witness)
    requires 0 <= w.votes < TWO_128 - 1
    ensures Economics.RoundedDown(Lap(w), TWO_128 - 1, w.votes + 1) && 0 <= Lap(w) < TWO_128
  {
    Economics.QuotientRounds(LAP_LENGTH, w.votes + 1);
    Economics.QuotientSign(LAP_LENGTH, w.votes + 1);
  }

  /** A new lap starts where the round's time is and ends a lap later; it wraps exactly if that is beyond 128 bits. */
  lemma NewLapIs(w: Witness, time: nat)
    requires 0 <= w.votes < TWO_128 - 1 && time < TWO_128
    ensures Wraps(w, time) <==> time + Lap(w) >= TWO_128
    ensures !Wraps(w, time) ==>
      NewLap(w, time) == w.(position := 0, lastUpdate := time, scheduled := time + Lap(w))
    ensures Reset(w) == w.(position := 0, lastUpdate := 0, scheduled := Lap(w))
  {
    LapIs(w);
  }

  /** A change of votes moves a witness on its lap by its old votes for the time since its last update, and then it
      needs the rest of the lap at its new votes; beyond 128 bits it is due at the end of time. */
  lemma LapAfterVotes(w: Witness, delta: int, now: nat)
    requires 0 <= w.votes && 0 <= w.votes + delta < TWO_128 - 1 && w.lastUpdate <= now < TWO_128
    requires w.position + w.votes * (now - w.lastUpdate) < TWO_128
    ensures var v := AdjustVote(w, delta, now);
      && v == w.(votes := w.votes + delta, lastUpdate := now, position := v.position, scheduled := v.scheduled)
      && v.position == w.position + w.votes * (now - w.lastUpdate)
      && DueAfter(now, TWO_128 - 1 - v.position, w.votes + delta + 1, v.scheduled)
  {
    var position := w.position + w.votes * (now - w.lastUpdate);
    Within(position);
    assert Position(w, now) == position;
    LapEndIs(w.votes + delta, position, now);
  }

  /** When this much is done at this speed, or the end of time. */
  ghost predicate DueAfter(now: nat, length: int, speed: int, due: int) {
    exists time: int :: Economics.RoundedDown(time, length, speed)
      && due == if now + time < TWO_128 then now + time else TWO_128 - 1
  }

  lemma LapEndIs(votes: int, position: nat, now: nat)
    requires 0 <= votes < TWO_128 - 1 && position < TWO_128 && now < TWO_128
    ensures DueAfter(now, TWO_128 - 1 - position, votes + 1, LapEnd(votes, position, now))
  {
    hide Economics.RoundedDown;
    var length, speed := LAP_LENGTH - position, votes + 1;
    var time := length / speed;
    Within(length);
    Within(speed);
    Economics.QuotientRounds(length, speed);
    Economics.QuotientSign(length, speed);
    Clipped(now, time);
  }

  lemma Clipped(now: nat, time: nat)
    requires now < TWO_128 && time < TWO_128
    ensures (now + time) % TWO_128 == if now + time < TWO_128 then now + time else now + time - TWO_128
  {
    if now + time < TWO_128 {
      Within(now + time);
    } else {
      Within(now + time - TWO_128);
    }
  }

  lemma Within(x: nat)
    requires x < TWO_128
    ensures x % TWO_128 == x && (x + TWO_128) % TWO_128 == x
  {}

  // ----- what a round looks at -----

  /** What is looked at holds exactly the first candidates, and ends with the last of them if there are enough. */
  ghost predicate LooksAt(ws: Witnesses, order: seq<Name>, elected: set<Name>, need: nat, m: nat)
    requires m <= |order| && forall a :: a in order ==> a in ws
  {
    && Take(Candidates(ws, order, elected), need) == Candidates(ws, order[..m], elected)
    && (|Candidates(ws, order, elected)| < need ==> m == |order|)
    && (|Candidates(ws, order, elected)| >= need ==>
          if need == 0 then m == 0 else m > 0 && ws[order[m - 1]].key != NO_KEY && order[m - 1] !in elected)
  }

  lemma {:induction false} ExaminedPrefix(ws: Witnesses, order: seq<Name>, elected: set<Name>, need: nat)
    requires forall a :: a in order ==> a in ws
    ensures LooksAt(ws, order, elected, need, Examined(ws, order, elected, need))
  {
    hide LooksAt;
    if need == 0 || order == [] {
      LooksAtNone(ws, order, elected, need);
    } else {
      var less := if ws[order[0]].key != NO_KEY && order[0] !in elected then need - 1 else need;
      ExaminedPrefix(ws, order[1..], elected, less);
      LooksAtFirst(ws, order, elected, need, Examined(ws, order[1..], elected, less));
    }
  }

  lemma LooksAtRunners(ws: Witnesses, order: seq<Name>, elected: set<Name>, need: nat, m: nat)
    requires m <= |order| && (forall a :: a in order ==> a in ws) && LooksAt(ws, order, elected, need, m)
    ensures Take(Candidates(ws, order, elected), need) == Candidates(ws, order[..m], elected)
  {}

  lemma LooksAtNone(ws: Witnesses, order: seq<Name>, elected: set<Name>, need: nat)
    requires (need == 0 || order == []) && forall a :: a in order ==> a in ws
    ensures LooksAt(ws, order, elected, need, 0)
  {}

  lemma LooksAtFirst(ws: Witnesses, order: seq<Name>, elected: set<Name>, need: nat, k: nat)
    requires need > 0 && order != [] && k < |order| && forall a :: a in order ==> a in ws
    requires LooksAt(ws, order[1..], elected,
      if ws[order[0]].key != NO_KEY && order[0] !in elected then need - 1 else need, k)
    ensures LooksAt(ws, order, elected, need, k + 1)
  {
    assert order[..k + 1][0] == order[0] && order[..k + 1][1..] == order[1..][..k];
  }

  /** A round looks at all witnesses up to its last runner in virtual time, or at all there are if it cannot be filled;
      its time is when the last of these was due. */
  lemma RoundExamines(ws: Witnesses, names: seq<Name>, now: nat, maxVoted: nat, max: nat, a: Name)
    requires Table(ws, names) && a in names && maxVoted <= max
    ensures var r := RoundOf(ws, names, now, maxVoted, max);
      && (a in r.examined <==>
            || |r.elected| + |r.runners| < max
            || exists b :: b in r.runners && b in ws
                 && (ws[a].scheduled < ws[b].scheduled || (ws[a].scheduled == ws[b].scheduled && ws[a].id <= ws[b].id)))
      && (a in r.examined ==> ws[a].scheduled <= r.time)
      && (r.examined == [] ==> r.time == now)
      && (r.examined != [] ==> exists b :: b in r.examined && b in ws && ws[b].scheduled == r.time)
  {
    hide Candidates, Examined, Elected, Sorted, Runners, LooksAt, KeylessSet, InOrder, Wraps;
    var r := RoundOf(ws, names, now, maxVoted, max);
    var order, need := Sorted(ws, ByTime, names), max - |r.elected|;
    ElectedFacts(ws, names, maxVoted);
    MemberCount(r.elected);
    SortedFacts(ws, ByTime, names);
    ExaminedPrefix(ws, order, Members(r.elected), need);
    RunnersAre(ws, names, r.elected, max);
    LooksAtRunners(ws, order, Members(r.elected), need, |r.examined|);
    assert r.examined == order[..|r.examined|];
    var i := PlaceOf(order, a);
    LookedAt(ws, order, Members(r.elected), |r.examined|, need, i);
  }

  lemma PlaceOf(order: seq<Name>, a: Name) returns (i: nat)
    requires a in order
    ensures i < |order| && order[i] == a
  {
    i :| 0 <= i < |order| && order[i] == a;
  }

  lemma RunnersAre(ws: Witnesses, names: seq<Name>, elected: seq<Name>, max: nat)
    requires Table(ws, names) && |Members(elected)| == |elected| <= max
    ensures Runners(ws, names, Members(elected), max)
      == Take(Candidates(ws, Sorted(ws, ByTime, names), Members(elected)), max - |elected|)
  {}

  lemma InPrefix(order: seq<Name>, m: nat, i: nat)
    requires Distinct(order) && m <= |order| && i < |order|
    ensures order[i] in order[..m] <==> i < m
  {}

  lemma LookedAt(ws: Witnesses, order: seq<Name>, elected: set<Name>, m: nat, need: nat, i: nat)
    requires InOrder(ws, ByTime, order) && Distinct(order) && m <= |order| && i < |order|
    requires forall a, b {:trigger ws[a].id, ws[b].id} :: a in ws && b in ws && a != b ==> ws[a].id != ws[b].id
    requires LooksAt(ws, order, elected, need, m)
    ensures var runners, a := Candidates(ws, order[..m], elected), order[i];
      && (a in order[..m] <==>
            || |runners| < need
            || exists b :: b in runners && b in ws
                 && (ws[a].scheduled < ws[b].scheduled || (ws[a].scheduled == ws[b].scheduled && ws[a].id <= ws[b].id)))
    ensures order[i] in order[..m] ==> ws[order[i]].scheduled <= ws[order[m - 1]].scheduled
  {
    var runners, a := Candidates(ws, order[..m], elected), order[i];
    InPrefix(order, m, i);
    if i < m {
      assert i < m - 1 ==> Before(ws, ByTime, a, order[m - 1]);
      assert order[m - 1] in order[..m] by {
        assert order[..m][m - 1] == order[m - 1];
      }
    } else {
      forall b | b in runners && b in ws
        ensures ws[b].scheduled < ws[a].scheduled || (ws[b].scheduled == ws[a].scheduled && ws[b].id < ws[a].id)
      {
        var j :| 0 <= j < m && order[j] == b;
        assert Before(ws, ByTime, order[j], order[i]);
      }
    }
  }

  /** A round marks its witnesses, and gives new laps to those it looked at, from its time on; but if one of these would
      wrap, all witnesses start over at time zero. */
  lemma RoundLeaves(ws: Witnesses, names: seq<Name>, now: nat, maxVoted: nat, max: nat, a: Name)
    requires Table(ws, names) && InTime(ws, now) && a in ws
    requires forall b {:trigger ws[b].votes} :: b in ws ==> 0 <= ws[b].votes < TWO_128 - 1
    ensures var r := RoundOf(ws, names, now, maxVoted, max);
      var w, v := ws[a], AfterRound(ws, r)[a];
      && (r.wrapped <==> exists b :: b in r.examined && b in ws && r.time + Lap(ws[b]) >= TWO_128)
      && v.role == (if a in r.runners then Timeshare else if a in r.elected then Top else w.role)
      && v == w.(role := v.role, position := v.position, lastUpdate := v.lastUpdate, scheduled := v.scheduled)
      && (if r.wrapped then v.position == 0 && v.lastUpdate == 0 && v.scheduled == Lap(w)
          else if a in r.examined then v.position == 0 && v.lastUpdate == r.time && v.scheduled == r.time + Lap(w)
          else v.position == w.position && v.lastUpdate == w.lastUpdate && v.scheduled == w.scheduled)
      && TimeAfter(r) == if r.wrapped then 0 else r.time
  {
    hide Sorted, Examined, Elected, Runners, Lap, Wraps, NewLap, Reset;
    var r := RoundOf(ws, names, now, maxVoted, max);
    RoundTimeGrows(ws, names, now, maxVoted, max);
    forall b | b in r.examined
      ensures b in ws && (Wraps(ws[b], r.time) <==> r.time + Lap(ws[b]) >= TWO_128)
    {
      ExaminedInTable(ws, names, now, maxVoted, max, b);
      assert 0 <= ws[b].votes < TWO_128 - 1;
      NewLapIs(ws[b], r.time);
    }
    var w := WithRole(ws[a], a, r.elected, r.runners);
    RoleKeepsLap(ws[a], a, r.elected, r.runners);
    NewLapIs(w, r.time);
    WrappedIff(ws, names, now, maxVoted, max);
  }

  lemma ExaminedInTable(ws: Witnesses, names: seq<Name>, now: nat, maxVoted: nat, max: nat, b: Name)
    requires Table(ws, names) && b in RoundOf(ws, names, now, maxVoted, max).examined
    ensures b in ws
  {
    hide Examined, Elected, Runners, Wraps;
    assert b in Sorted(ws, ByTime, names);
  }

  lemma WrappedIff(ws: Witnesses, names: seq<Name>, now: nat, maxVoted: nat, max: nat)
    requires Table(ws, names)
    ensures var r := RoundOf(ws, names, now, maxVoted, max);
      r.wrapped <==> exists b :: b in r.examined && b in ws && Wraps(ws[b], r.time)
  {
    hide Sorted, Examined, Elected, Runners, Wraps;
  }

  // ----- the shuffle -----

  const XORSHIFT_FACTOR: bv64 := 2685821657736338717

  /** The 64-bit xorshift step of the shuffle. */
  function Mix(seed: bv64): bv64 {
    var a := seed ^ (seed >> 12);
    var b := a ^ (a << 25);
    var c := b ^ (b >> 27);
    c * XORSHIFT_FACTOR
  }

  /** The number drawn for position i; `high` is the head block time in the upper half word. */
  function Draw(high: bv64, i: bv64): nat {
    Mix(high + i * XORSHIFT_FACTOR) as nat
  }

  /** Numbers drawn for some seeds. */
  lemma FirstDraws()
    ensures Draw(0, 0) == 0 && Mix(1) == 5180492295206395165
    ensures Draw(6442450944000000000, 0) == 1335418850999115942
    ensures Draw(6442450944000000000, 3) == 17476146870369037025
  {}

  /** The position that position i is exchanged with when the number k is drawn. */
  function Partner(k: nat, i: nat, n: nat): (j: nat)
    requires i < n
    ensures i <= j < n
  {
    i + k % (n - i)
  }

  /** Every position from i on is the partner for the numbers that leave its distance from i as remainder. */
  lemma PartnerIs(k: nat, i: nat, n: nat, j: nat)
    requires i <= j < n
    ensures Partner(k, i, n) == j <==> var w, r := n - i, j - i; exists q: nat :: Divides(k, w, q, r)
  {
    if Partner(k, i, n) == j {
      assert Divides(k, n - i, k / (n - i), j - i);
    }
    var w, r := n - i, j - i;
    if q: nat :| Divides(k, w, q, r) {
      Economics.ModUnique(k, w, q, r);
    }
  }

  ghost predicate Divides(k: nat, w: nat, q: nat, r: nat) {
    k == q * w + r
  }

  function Swap<T>(s: seq<T>, i: nat, j: nat): seq<T>
    requires i < |s| && j < |s|
  {
    s[i := s[j]][j := s[i]]
  }

  function Shuffled<T>(s: seq<T>, high: bv64, step: bv64, i: nat, n: nat): (r: seq<T>)
    requires i <= n <= |s|
    ensures |r| == |s|
    decreases n - i
  {
    if i == n then s
    else Shuffled(Swap(s, i, Partner(Draw(high, step), i, n)), high, step + 1, i + 1, n)
  }

  lemma SwapPermutes<T>(s: seq<T>, i: nat, j: nat)
    requires i < |s| && j < |s|
    ensures multiset(Swap(s, i, j)) == multiset(s)
  {}

  /** Shuffling permutes the first n entries and leaves the others in place. */
  lemma {:induction false} ShuffledPermutes<T>(s: seq<T>, high: bv64, step: bv64, i: nat, n: nat)
    requires i <= n <= |s|
    ensures multiset(Shuffled(s, high, step, i, n)[..n]) == multiset(s[..n])
    ensures Shuffled(s, high, step, i, n)[n..] == s[n..]
    decreases n - i
  {
    hide Draw;
    if i < n {
      var j := Partner(Draw(high, step), i, n);
      var t := Swap(s, i, j);
      ShuffledPermutes(t, high, step + 1, i + 1, n);
      SwapPermutes(s[..n], i, j);
      assert t[..n] == Swap(s[..n], i, j);
      assert t[n..] == s[n..];
    }
  }

  /** The shuffle, in place. */
  method Shuffle<T>(a: array<T>, high: bv64, n: nat)
    requires n <= a.Length
    modifies a
    ensures a[..] == Shuffled(old(a[..]), high, 0, 0, n)
    ensures multiset(a[..n]) == multiset(old(a[..n])) && a[n..] == old(a[n..])
  {
    hide Draw;
    var i, step := 0, 0 as bv64;
    while i < n
      invariant 0 <= i <= n
      invariant Shuffled(a[..], high, step, i, n) == Shuffled(old(a[..]), high, 0, 0, n)
    {
      var j := Partner(Draw(high, step), i, n);
      ghost var s := a[..];
      a[i], a[j] := a[j], a[i];
      assert a[..] == Swap(s, i, j);
      i, step := i + 1, step + 1;
    }
    ShuffledPermutes(old(a[..]), high, 0, 0, n);
    assert a[..][..n] == a[..n] && old(a[..])[..n] == old(a[..n]);
  }
}
