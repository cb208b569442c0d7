/** The scheduler object: one round performed step by step, proved against the specification of a round. */
module WitnessSchedule {
  import opened ChainTypes
  import opened Sums
  import opened Election
  import opened Schedule

  /** Rounds take place at multiples of the maximal number of witnesses. */
  predicate RoundDue(head: nat, max: nat) {
    max > 0 && head % max == 0
  }

  /** The witness table and the schedule it produces. */
  class Scheduler {
    const maxVoted: nat
    const max: nat
    var names: seq<Name>
    var witnesses: map<Name, Witness>
    var now: nat
    var shuffled: array<Name>
    var scheduled: nat
    var topWeight: nat
    var timeshareWeight: nat
    var payFactor: nat

    ghost predicate Valid()
      reads this
    {
      && maxVoted <= max && 0 < max < 256
      && Table(witnesses, names)
      && InTime(witnesses, now)
    }

    constructor (maxVoted: nat, max: nat, first: Name, key: nat)
      requires maxVoted <= max && 0 < max < 256 && first != SELF
      ensures Valid() && this.maxVoted == maxVoted && this.max == max
      ensures names == [first] && witnesses == map[first := FreshWitness(0, key).(role := Top)] && now == 0
      ensures shuffled.Length == 1 && shuffled[0] == first && scheduled == 1
      ensures topWeight == 21 && timeshareWeight == 63 && payFactor == 25
    {
      this.maxVoted, this.max := maxVoted, max;
      names, witnesses, now := [first], map[first := FreshWitness(0, key).(role := Top)], 0;
      scheduled, topWeight, timeshareWeight, payFactor := 1, 21, 63, 25;
      shuffled := new Name[1](_ => first);
    }

    /** Marks the highest-voted witnesses with a key and returns them. */
    method Elect() returns (elected: seq<Name>)
      requires Valid()
      modifies `witnesses
      ensures elected == Elected(old(witnesses), names, maxVoted)
      ensures witnesses == Marked(old(witnesses), elected, Top)
    {
      hide Sorted, InTime, Marked, Candidates;
      ghost var ws := witnesses;
      var order := Sorted(witnesses, ByVotes, names);
      ghost var all := Candidates(ws, order, {});
      var i := 0;
      elected := [];
      assert order[0..] == order;
      MarkedNone(ws, Top);
      while i < |order| && |elected| < maxVoted
        invariant 0 <= i <= |order| && |elected| <= maxVoted
        invariant all == elected + Candidates(ws, order[i..], {})
        invariant witnesses == Marked(ws, elected, Top)
      {
        var a := order[i];
        ChoiceStep(ws, order, i, {}, 1);
        MarkedAt(ws, elected, Top, a);
        if witnesses[a].key != NO_KEY {
          MarkedMore(ws, elected, Top, a);
          witnesses := witnesses[a := witnesses[a].(role := Top)];
          elected := elected + [a];
        }
        i := i + 1;
      }
      ChoiceEnd(ws, order, i, {}, 0);
    }

    /** Looks down the time order until the round is full; marks and returns the runners, everybody looked
        at, the time of the last one, and how many had no key. */
    method Run(elected: seq<Name>) returns (runners: seq<Name>, examined: seq<Name>, time: nat, skipped: nat)
      requires Valid() && Distinct(elected) && |elected| <= max
      modifies `witnesses
      ensures runners == Runners(old(witnesses), names, Members(elected), max)
      ensures var order := Sorted(old(witnesses), ByTime, names);
        examined == order[..Examined(old(witnesses), order, Members(elected), max - |elected|)]
      ensures time == if examined == [] then now else old(witnesses)[examined[|examined| - 1]].scheduled
      ensures skipped == Skipped(old(witnesses), names, Members(elected), max)
      ensures witnesses == Marked(old(witnesses), runners, Timeshare)
    {
      hide Sorted, InTime, Marked, Candidates, Examined, Keyless, Distinct;
      MemberCount(elected);
      var order := Sorted(witnesses, ByTime, names);
      runners, examined, time, skipped := RunDown(order, elected);
    }

    method RunDown(order: seq<Name>, elected: seq<Name>)
      returns (runners: seq<Name>, examined: seq<Name>, time: nat, skipped: nat)
      requires |elected| <= max && forall a :: a in order ==> a in witnesses
      modifies `witnesses
      ensures runners == Take(Candidates(old(witnesses), order, Members(elected)), max - |elected|)
      ensures examined == order[..Examined(old(witnesses), order, Members(elected), max - |elected|)]
      ensures time == if examined == [] then now else old(witnesses)[examined[|examined| - 1]].scheduled
      ensures skipped == Keyless(old(witnesses), examined)
      ensures witnesses == Marked(old(witnesses), runners, Timeshare)
    {
      hide Marked, Candidates, Examined, Keyless, RanTo, Take;
      ghost var ws, excluded, need := witnesses, Members(elected), max - |elected|;
      var i, count := 0, |elected|;
      runners, time, skipped := [], now, 0;
      MarkedNone(ws, Timeshare);
      RunStarts(ws, order, excluded, need);
      while i < |order| && count < max
        invariant 0 <= i <= |order| && count == |elected| + |runners| <= max
        invariant RanTo(ws, order, excluded, need, i, runners, skipped)
        invariant time == if i == 0 then now else ws[order[i - 1]].scheduled
        invariant witnesses == Marked(ws, runners, Timeshare)
      {
        var a := order[i];
        RunGoesOn(ws, order, excluded, need, i, runners, skipped);
        MarkedAt(ws, runners, Timeshare, a);
        time := witnesses[a].scheduled;
        if witnesses[a].key == NO_KEY {
          skipped := skipped + 1;
        } else if a !in elected {
          MarkedMore(ws, runners, Timeshare, a);
          witnesses := witnesses[a := witnesses[a].(role := Timeshare)];
          runners := runners + [a];
          count := count + 1;
        }
        i := i + 1;
      }
      RunEnds(ws, order, excluded, need, i, runners, skipped);
      examined := order[..i];
    }

    /** Gives the examined witnesses a new lap, stopping at the first one whose lap would wrap. */
    method Advance(examined: seq<Name>, time: nat) returns (wrapped: bool)
      requires forall a :: a in examined ==> a in witnesses
      requires Distinct(examined)
      modifies `witnesses
      ensures wrapped <==> exists a :: a in examined && Wraps(old(witnesses)[a], time)
      ensures AllReset(witnesses) == AllReset(old(witnesses))
      ensures !wrapped ==> witnesses == Lapped(old(witnesses), examined, time)
    {
      hide Lap;
      ghost var ws := witnesses;
      var i := 0;
      wrapped := false;
      while i < |examined| && !wrapped
        invariant 0 <= i <= |examined|
        invariant forall k :: 0 <= k < i ==> !Wraps(ws[examined[k]], time)
        invariant wrapped ==> i < |examined| && Wraps(ws[examined[i]], time)
        invariant witnesses == Lapped(ws, examined[..i], time)
        decreases |examined| - i, !wrapped
      {
        var a := examined[i];
        assert a !in examined[..i];
        if Wraps(witnesses[a], time) {
          wrapped := true;
        } else {
          LappedMore(ws, examined, i, time);
          witnesses := witnesses[a := NewLap(witnesses[a], time)];
          i := i + 1;
        }
      }
      assert examined[..|examined|] == examined;
      LappedReset(ws, examined[..i], time);
    }

    /** Starts virtual time again from zero for everybody. */
    method ResetTime()
      modifies `witnesses, `now
      ensures now == 0 && witnesses == AllReset(old(witnesses))
    {
      hide Reset;
      now := 0;
      ghost var ws := witnesses;
      var todo := witnesses.Keys;
      while todo != {}
        invariant now == 0 && todo <= ws.Keys
        invariant witnesses.Keys == ws.Keys
        invariant forall a {:trigger witnesses[a]} ::
          a in ws ==> witnesses[a] == if a in todo then ws[a] else Reset(ws[a])
        decreases |todo|
      {
        var a :| a in todo;
        witnesses := witnesses[a := Reset(witnesses[a])];
        todo := todo - {a};
      }
    }

    /** Picks and marks the witnesses of the round. The size assertion of the source cannot fail. */
    method Choose() returns (elected: seq<Name>, runners: seq<Name>, examined: seq<Name>, time: nat)
      requires Valid()
      modifies `witnesses
      ensures var r := RoundOf(old(witnesses), names, now, maxVoted, max);
        && elected == r.elected && runners == r.runners && examined == r.examined && time == r.time
        && (r.wrapped <==> exists a :: a in examined && Wraps(old(witnesses)[a], time))
      ensures witnesses == Marked(Marked(old(witnesses), elected, Top), runners, Timeshare)
      ensures |elected + runners| <= max
      ensures Distinct(examined) && forall a :: a in examined ==> a in old(witnesses)
    {
      hide Sorted, Candidates, Examined, Elected, Runners, Skipped, Wraps, Keyless, RoundOf, Marked, SameRanks,
        InTime, Members;
      ghost var ws := witnesses;
      ElectedFacts(ws, names, maxVoted);
      SizeAssertionHolds(ws, names, maxVoted, max);
      elected := Elect();
      MarkedValid(ws, names, now, elected, Top);
      SameRanksRound(ws, witnesses, names, Members(elected), max);
      var skipped;
      runners, examined, time, skipped := Run(elected);
      assert |elected + runners| == if max < |names| - skipped then max else |names| - skipped;
      SameRanksTime(ws, elected, Top, examined);
      RunMatchesRound(ws, names, now, maxVoted, max, elected, runners, examined, time);
    }

    /** One round. `high` is the head block time in the upper half of a 64-bit word. */
    method Update(high: bv64)
      requires Valid()
      modifies this
      ensures Valid() && names == old(names) && fresh(shuffled)
      ensures var r := RoundOf(old(witnesses), names, old(now), maxVoted, max);
        var active := r.elected + r.runners;
        && witnesses == AfterRound(old(witnesses), r) && now == TimeAfter(r)
        && |active| <= max == shuffled.Length && scheduled == (if active == [] then 1 else |active|)
        && shuffled[..] == Shuffled(Padded(active, max), high, 0, 0, scheduled)
        && (active != [] ==> multiset(shuffled[..scheduled]) == multiset(active))
        && topWeight == |active| && timeshareWeight == 3 * |active| % 256
        && payFactor == |r.elected| + 3 * |r.runners|
    {
      hide Wraps, Shuffled, RoundOf, AfterRound, Marked, Lapped, AllReset, InTime, Padded, Distinct;
      ghost var ws := witnesses;
      ghost var r := RoundOf(ws, names, now, maxVoted, max);
      RoundKeepsInTime(ws, names, now, maxVoted, max);
      RoundKeepsTable(ws, names, r);
      RoundApplied(ws, r);
      var elected, runners, examined, time := Choose();
      MarkedWraps(ws, r);
      var wrapped := Advance(examined, time);
      if wrapped {
        ResetTime();
      }
      Schedule(elected + runners, high);
      topWeight, timeshareWeight := |elected + runners|, 3 * |elected + runners| % 256;
      payFactor := |elected| + 3 * |runners|;
      now := if wrapped then 0 else time;
    }

    /** A round takes place at block numbers that are multiples of the maximal number of witnesses, and at no other. */
    method UpdateWitnessSchedule(head: nat, high: bv64)
      requires Valid()
      modifies this
      ensures Valid() && names == old(names)
      ensures !RoundDue(head, max) ==>
        witnesses == old(witnesses) && now == old(now) && shuffled == old(shuffled) && scheduled == old(scheduled)
      ensures RoundDue(head, max) ==>
        var r := RoundOf(old(witnesses), names, old(now), maxVoted, max);
        && witnesses == AfterRound(old(witnesses), r) && now == TimeAfter(r)
        && scheduled <= shuffled.Length
        && (r.elected + r.runners != [] ==> multiset(shuffled[..scheduled]) == multiset(r.elected + r.runners))
    {
      hide RoundOf, AfterRound, InTime, Shuffled, Padded, RoundDue;
      if RoundDue(head, max) {
        Update(high);
      }
    }

    /** Stores the round, padded with empty names, and shuffles it. */
    method Schedule(active: seq<Name>, high: bv64)
      requires 0 < max < 256 && |active| <= max
      modifies `shuffled, `scheduled
      ensures fresh(shuffled) && shuffled.Length == max
      ensures scheduled == if active == [] then 1 else |active|
      ensures shuffled[..] == Shuffled(Padded(active, max), high, 0, 0, scheduled)
      ensures active != [] ==> multiset(shuffled[..scheduled]) == multiset(active)
    {
      hide Shuffled, Draw;
      var padded := Padded(active, max);
      shuffled := new Name[max](i requires 0 <= i < max => padded[i]);
      scheduled := if |active| > 1 then |active| else 1;
      assert shuffled[..] == padded;
      assert padded[..|active|] == active;
      Shuffle(shuffled, high, scheduled);
    }
  }

  function Padded(active: seq<Name>, max: nat): (r: seq<Name>)
    requires |active| <= max
    ensures |r| == max
  {
    active + seq(max - |active|, _ => SELF)
  }

  // ----- marking a role does not change any order -----

  ghost predicate SameRanks(ws: Witnesses, vs: Witnesses) {
    && ws.Keys == vs.Keys
    && forall a {:trigger ws[a]} {:trigger vs[a]} :: a in ws ==>
         ws[a] == vs[a].(role := ws[a].role)
  }

  lemma {:induction false} SameRanksInsert(ws: Witnesses, vs: Witnesses, o: Order, a: Name, s: seq<Name>)
    requires SameRanks(ws, vs) && a in ws && forall b :: b in s ==> b in ws
    ensures Insert(ws, o, a, s) == Insert(vs, o, a, s)
  {
    if s != [] {
      assert s[0] in s;
      assert Before(ws, o, a, s[0]) == Before(vs, o, a, s[0]);
      SameRanksInsert(ws, vs, o, a, s[1..]);
    }
  }

  lemma {:induction false} SameRanksSorted(ws: Witnesses, vs: Witnesses, o: Order, names: seq<Name>)
    requires SameRanks(ws, vs) && forall a :: a in names ==> a in ws
    ensures Sorted(ws, o, names) == Sorted(vs, o, names)
  {
    if names != [] {
      SameRanksSorted(ws, vs, o, names[1..]);
      SameRanksInsert(ws, vs, o, names[0], Sorted(ws, o, names[1..]));
    }
  }

  lemma {:induction false} SameRanksChoice(ws: Witnesses, vs: Witnesses, order: seq<Name>, elected: set<Name>,
                                           need: nat)
    requires SameRanks(ws, vs) && forall a :: a in order ==> a in ws
    ensures Candidates(ws, order, elected) == Candidates(vs, order, elected)
    ensures Examined(ws, order, elected, need) == Examined(vs, order, elected, need)
    ensures Keyless(ws, order) == Keyless(vs, order)
  {
    if order != [] {
      assert order[0] in order;
      SameRanksChoice(ws, vs, order[1..], elected, need);
      if need > 0 {
        SameRanksChoice(ws, vs, order[1..], elected, need - 1);
      }
    }
  }

  lemma SameRanksRound(ws: Witnesses, vs: Witnesses, names: seq<Name>, elected: set<Name>, max: nat)
    requires SameRanks(ws, vs) && forall a :: a in names ==> a in ws
    ensures Sorted(ws, ByTime, names) == Sorted(vs, ByTime, names)
    ensures Runners(ws, names, elected, max) == Runners(vs, names, elected, max)
    ensures Skipped(ws, names, elected, max) == Skipped(vs, names, elected, max)
    ensures forall need: nat :: Examined(ws, Sorted(ws, ByTime, names), elected, need)
                             == Examined(vs, Sorted(vs, ByTime, names), elected, need)
  {
    hide Sorted, Candidates, Examined, Keyless;
    SameRanksSorted(ws, vs, ByTime, names);
    var order := Sorted(ws, ByTime, names);
    forall need: nat
      ensures Examined(ws, order, elected, need) == Examined(vs, order, elected, need)
    {
      SameRanksChoice(ws, vs, order, elected, need);
    }
    var m := Examined(ws, order, elected, if |elected| <= max then max - |elected| else 0);
    SameRanksChoice(ws, vs, order, elected, 0);
    SameRanksChoice(ws, vs, order[..m], elected, 0);
  }

  lemma MarkedValid(ws: Witnesses, names: seq<Name>, now: nat, chosen: seq<Name>, role: Role)
    requires Table(ws, names) && InTime(ws, now)
    ensures SameRanks(ws, Marked(ws, chosen, role))
    ensures Table(Marked(ws, chosen, role), names) && InTime(Marked(ws, chosen, role), now)
  {}

  lemma RoundKeepsTable(ws: Witnesses, names: seq<Name>, r: Round)
    requires Table(ws, names)
    ensures Table(AfterRound(ws, r), names)
  {
    forall a | a in ws {
      RoundKeepsVotes(ws, r, a);
    }
  }

  lemma RunMatchesRound(ws: Witnesses, names: seq<Name>, now: nat, maxVoted: nat, max: nat,
                        elected: seq<Name>, runners: seq<Name>, examined: seq<Name>, time: nat)
    requires Table(ws, names) && |elected| <= max && elected == Elected(ws, names, maxVoted)
    requires runners == Runners(ws, names, Members(elected), max)
    requires var order := Sorted(ws, ByTime, names);
      examined == order[..Examined(ws, order, Members(elected), max - |elected|)]
    requires time == if examined == [] then now else ws[examined[|examined| - 1]].scheduled
    ensures Distinct(examined) && forall a :: a in examined ==> a in ws
    ensures RoundOf(ws, names, now, maxVoted, max)
         == Round(elected, runners, examined, time, exists a :: a in examined && Wraps(ws[a], time))
  {
    hide Sorted, Candidates, Examined, Elected, Runners, Wraps;
    SortedInOrder(ws, ByTime, names);
  }

  lemma MarkedWraps(ws: Witnesses, r: Round)
    requires forall a :: a in r.examined ==> a in ws
    ensures var marked := Marked(Marked(ws, r.elected, Top), r.runners, Timeshare);
      && marked.Keys == ws.Keys
      && forall a {:trigger Wraps(ws[a], r.time)} {:trigger Wraps(marked[a], r.time)} :: a in ws ==>
           Wraps(marked[a], r.time) == Wraps(ws[a], r.time)
  {
    hide Wraps;
    var marked := Marked(Marked(ws, r.elected, Top), r.runners, Timeshare);
    forall a | a in ws
      ensures Wraps(marked[a], r.time) == Wraps(ws[a], r.time)
    {
      RoleKeepsWraps(ws[a], a, r);
      assert marked[a] == WithRole(ws[a], a, r.elected, r.runners);
    }
  }

  lemma RoleKeepsWraps(w: Witness, a: Name, r: Round)
    ensures Wraps(WithRole(w, a, r.elected, r.runners), r.time) == Wraps(w, r.time)
  {
    hide Lap;
    RoleKeepsLap(w, a, r.elected, r.runners);
  }

  /** Marking, advancing and resetting add up to the specified round. */
  lemma RoundApplied(ws: Witnesses, r: Round)
    ensures AfterRound(ws, r)
         == var marked := Marked(Marked(ws, r.elected, Top), r.runners, Timeshare);
            if r.wrapped then AllReset(marked) else Lapped(marked, r.examined, r.time)
  {
    hide Lap;
  }

  lemma LappedReset(ws: Witnesses, examined: seq<Name>, time: nat)
    ensures AllReset(Lapped(ws, examined, time)) == AllReset(ws)
  {
    hide Lap;
    forall a | a in ws {
      ResetForgets(ws[a], time);
    }
  }

  lemma ResetForgets(w: Witness, time: nat)
    ensures Reset(NewLap(w, time)) == Reset(w)
  {}

  function Marked(ws: Witnesses, chosen: seq<Name>, role: Role): Witnesses {
    map a | a in ws :: if a in chosen then ws[a].(role := role) else ws[a]
  }

  function Lapped(ws: Witnesses, examined: seq<Name>, time: nat): Witnesses {
    map a | a in ws :: if a in examined then NewLap(ws[a], time) else ws[a]
  }

  function AllReset(ws: Witnesses): Witnesses {
    map a | a in ws :: Reset(ws[a])
  }

  lemma MarkedAt(ws: Witnesses, chosen: seq<Name>, role: Role, a: Name)
    requires a in ws
    ensures a in Marked(ws, chosen, role)
    ensures Marked(ws, chosen, role)[a].key == ws[a].key
    ensures Marked(ws, chosen, role)[a].scheduled == ws[a].scheduled
  {}

  lemma SameRanksTime(ws: Witnesses, chosen: seq<Name>, role: Role, examined: seq<Name>)
    ensures forall a ::
      a in ws ==> a in Marked(ws, chosen, role) && Marked(ws, chosen, role)[a].scheduled == ws[a].scheduled
  {}

  lemma MarkedNone(ws: Witnesses, role: Role)
    ensures Marked(ws, [], role) == ws
  {}

  lemma MarkedMore(ws: Witnesses, chosen: seq<Name>, role: Role, a: Name)
    requires a in ws
    ensures var m := Marked(ws, chosen, role);
      m[a := m[a].(role := role)] == Marked(ws, chosen + [a], role)
  {
    assert forall b :: b in chosen + [a] <==> b in chosen || b == a;
  }

  lemma LappedMore(ws: Witnesses, examined: seq<Name>, i: nat, time: nat)
    requires i < |examined| && examined[i] in ws && examined[i] !in examined[..i]
    ensures Lapped(ws, examined[..i], time)[examined[i] := NewLap(ws[examined[i]], time)]
      == Lapped(ws, examined[..i + 1], time)
    ensures Lapped(ws, examined[..i], time)[examined[i]] == ws[examined[i]]
  {
    hide NewLap;
    assert examined[..i + 1] == examined[..i] + [examined[i]];
  }

  /** The search for runners after looking at i witnesses of the time order. */
  ghost predicate RanTo(ws: Witnesses, order: seq<Name>, excluded: set<Name>, need: nat, i: nat, runners: seq<Name>,
                        skipped: nat)
    requires forall a :: a in order ==> a in ws
  {
    && i <= |order| && |runners| <= need
    && Candidates(ws, order, excluded) == runners + Candidates(ws, order[i..], excluded)
    && Examined(ws, order, excluded, need) == i + Examined(ws, order[i..], excluded, need - |runners|)
    && skipped == Keyless(ws, order[..i])
  }

  lemma RunStarts(ws: Witnesses, order: seq<Name>, excluded: set<Name>, need: nat)
    requires forall a :: a in order ==> a in ws
    ensures RanTo(ws, order, excluded, need, 0, [], 0)
  {
    hide Candidates, Examined, Keyless;
    assert order[0..] == order;
    KeylessNone(ws, order[..0]);
  }

  lemma RunGoesOn(ws: Witnesses, order: seq<Name>, excluded: set<Name>, need: nat, i: nat, runners: seq<Name>,
                  skipped: nat)
    requires forall a :: a in order ==> a in ws
    requires RanTo(ws, order, excluded, need, i, runners, skipped) && i < |order| && |runners| < need
    ensures var a := order[i];
      if ws[a].key == NO_KEY then RanTo(ws, order, excluded, need, i + 1, runners, skipped + 1)
      else if a in excluded then RanTo(ws, order, excluded, need, i + 1, runners, skipped)
      else RanTo(ws, order, excluded, need, i + 1, runners + [a], skipped)
  {
    hide Candidates, Examined, Keyless;
    ChoiceStep(ws, order, i, excluded, need - |runners|);
    KeylessGrows(ws, order, i);
  }

  lemma RunEnds(ws: Witnesses, order: seq<Name>, excluded: set<Name>, need: nat, i: nat, runners: seq<Name>,
                skipped: nat)
    requires forall a :: a in order ==> a in ws
    requires RanTo(ws, order, excluded, need, i, runners, skipped) && (i == |order| || |runners| == need)
    ensures runners == Take(Candidates(ws, order, excluded), need) && i == Examined(ws, order, excluded, need)
    ensures skipped == Keyless(ws, order[..i])
  {
    hide Candidates, Examined, Keyless;
    ChoiceEnd(ws, order, i, excluded, need - |runners|);
  }

  lemma ChoiceStep(ws: Witnesses, order: seq<Name>, i: nat, excluded: set<Name>, need: nat)
    requires i < |order| && (forall a :: a in order ==> a in ws) && need > 0
    ensures var rest := Candidates(ws, order[i + 1..], excluded);
      if ws[order[i]].key != NO_KEY && order[i] !in excluded
      then Candidates(ws, order[i..], excluded) == [order[i]] + rest
           && Examined(ws, order[i..], excluded, need) == 1 + Examined(ws, order[i + 1..], excluded, need - 1)
      else Candidates(ws, order[i..], excluded) == rest
           && Examined(ws, order[i..], excluded, need) == 1 + Examined(ws, order[i + 1..], excluded, need)
  {
    assert order[i..][0] == order[i] && order[i..][1..] == order[i + 1..];
  }

  lemma ChoiceEnd(ws: Witnesses, order: seq<Name>, i: nat, excluded: set<Name>, need: nat)
    requires i <= |order| && (forall a :: a in order ==> a in ws) && (i == |order| || need == 0)
    ensures i == |order| ==> Candidates(ws, order[i..], excluded) == []
    ensures Examined(ws, order[i..], excluded, need) == 0
  {}

  lemma KeylessNone(ws: Witnesses, s: seq<Name>)
    requires s == []
    ensures Keyless(ws, s) == 0
  {}

  lemma KeylessGrows(ws: Witnesses, order: seq<Name>, i: nat)
    requires i < |order| && forall a :: a in order ==> a in ws
    ensures Keyless(ws, order[..i + 1]) == Keyless(ws, order[..i]) + if ws[order[i]].key == NO_KEY then 1 else 0
  {
    if i == 0 {
      assert order[..1] == [order[0]];
    } else {
      assert order[..i + 1][1..] == order[1..][..i] && order[..i][1..] == order[1..][..i - 1];
      KeylessGrows(ws, order[1..], i - 1);
    }
  }
}
