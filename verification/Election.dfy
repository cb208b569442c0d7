/** Which witnesses a round schedules: the most voted ones, then the next by virtual time. */
module Election {
  import opened ChainTypes
  import opened Sums

  type Witnesses = map<Name, Witness>

  // ----- the two ordered indexes over the witness table -----

  datatype Order = ByVotes | ByTime

  /** ByVotes: more votes first, then the smaller name. ByTime: earlier first, then the smaller id. */
  predicate Before(ws: Witnesses, o: Order, a: Name, b: Name)
    requires a in ws && b in ws
  {
    match o
    case ByVotes => ws[a].votes > ws[b].votes || (ws[a].votes == ws[b].votes && a < b)
    case ByTime => ws[a].scheduled < ws[b].scheduled || (ws[a].scheduled == ws[b].scheduled && ws[a].id < ws[b].id)
  }

  /** `names` lists the witness table, each witness once, and ids are unique positions in it. */
  ghost predicate Table(ws: Witnesses, names: seq<Name>) {
    && Distinct(names)
    && (forall a :: a in names <==> a in ws)
    && (forall a {:trigger ws[a].id} :: a in ws ==> ws[a].id < |names|)
    && (forall a, b {:trigger ws[a].id, ws[b].id} :: a in ws && b in ws && a != b ==> ws[a].id != ws[b].id)
  }

  function Insert(ws: Witnesses, o: Order, a: Name, s: seq<Name>): seq<Name>
    requires a in ws && forall b :: b in s ==> b in ws
  {
    if s == [] || Before(ws, o, a, s[0]) then [a] + s else [s[0]] + Insert(ws, o, a, s[1..])
  }

  /** The index in its iteration order. */
  function Sorted(ws: Witnesses, o: Order, names: seq<Name>): (r: seq<Name>)
    requires forall a :: a in names ==> a in ws
    ensures multiset(r) == multiset(names)
    ensures forall a :: a in r <==> a in names
  {
    if names == [] then []
    else
      var rest := Sorted(ws, o, names[1..]);
      InsertKeepsMembers(ws, o, names[0], rest);
      assert names == [names[0]] + names[1..];
      Insert(ws, o, names[0], rest)
  }

  lemma {:induction false} InsertKeepsMembers(ws: Witnesses, o: Order, a: Name, s: seq<Name>)
    requires a in ws && forall b :: b in s ==> b in ws
    ensures multiset(Insert(ws, o, a, s)) == multiset([a]) + multiset(s)
    ensures forall b :: b in Insert(ws, o, a, s) <==> b == a || b in s
  {
    if s != [] && !Before(ws, o, a, s[0]) {
      InsertKeepsMembers(ws, o, a, s[1..]);
      assert s == [s[0]] + s[1..];
    }
  }

  ghost predicate InOrder(ws: Witnesses, o: Order, s: seq<Name>) {
    && (forall a :: a in s ==> a in ws)
    && forall i, j :: 0 <= i < j < |s| ==> Before(ws, o, s[i], s[j])
  }

  lemma {:induction false} InsertInOrder(ws: Witnesses, o: Order, a: Name, s: seq<Name>)
    requires a in ws && InOrder(ws, o, s) && a !in s
    requires forall b {:trigger Before(ws, o, b, a)} :: b in s ==> Before(ws, o, a, b) || Before(ws, o, b, a)
    ensures InOrder(ws, o, Insert(ws, o, a, s))
  {
    InsertKeepsMembers(ws, o, a, s);
    if s != [] {
      if Before(ws, o, a, s[0]) {
        assert forall j :: 0 < j < |s| ==> Before(ws, o, s[0], s[j]);
      } else {
        assert Before(ws, o, s[0], a) by { assert s[0] in s; }
        InsertInOrder(ws, o, a, s[1..]);
        InsertKeepsMembers(ws, o, a, s[1..]);
        var r := Insert(ws, o, a, s[1..]);
        forall j | 0 <= j < |r|
          ensures Before(ws, o, s[0], r[j])
        {
          assert r[j] in r;
        }
      }
    }
  }

  /** Sorting lists the whole table in index order. */
  lemma {:induction false} SortedInOrder(ws: Witnesses, o: Order, names: seq<Name>)
    requires Distinct(names) && forall a :: a in names ==> a in ws
    requires forall a, b {:trigger ws[a].id, ws[b].id} :: a in ws && b in ws && a != b ==> ws[a].id != ws[b].id
    ensures InOrder(ws, o, Sorted(ws, o, names)) && Distinct(Sorted(ws, o, names))
  {
    if names != [] {
      SortedInOrder(ws, o, names[1..]);
      InsertInOrder(ws, o, names[0], Sorted(ws, o, names[1..]));
    }
    var s := Sorted(ws, o, names);
    forall i, j | 0 <= i < j < |s|
      ensures s[i] != s[j]
    {
      assert Before(ws, o, s[i], s[j]);
    }
  }

  // ----- choosing -----

  /** The listed witnesses that have a signing key and are not excluded, in order. */
  function Candidates(ws: Witnesses, order: seq<Name>, excluded: set<Name>): (r: seq<Name>)
    requires forall a :: a in order ==> a in ws
    ensures forall a :: a in r <==> a in order && ws[a].key != NO_KEY && a !in excluded
  {
    if order == [] then []
    else
      var rest := Candidates(ws, order[1..], excluded);
      if ws[order[0]].key != NO_KEY && order[0] !in excluded then [order[0]] + rest else rest
  }

  function Take(s: seq<Name>, n: nat): seq<Name> {
    if n <= |s| then s[..n] else s
  }

  /** The highest-voted witnesses with a key. */
  function Elected(ws: Witnesses, names: seq<Name>, maxVoted: nat): seq<Name>
    requires forall a :: a in names ==> a in ws
  {
    Take(Candidates(ws, Sorted(ws, ByVotes, names), {}), maxVoted)
  }

  /** The next witnesses by virtual time, filling the round up to `max`. */
  function Runners(ws: Witnesses, names: seq<Name>, elected: set<Name>, max: nat): seq<Name>
    requires forall a :: a in names ==> a in ws
  {
    Take(Candidates(ws, Sorted(ws, ByTime, names), elected), if |elected| <= max then max - |elected| else 0)
  }

  /** How far down the time order the round has to look to find `need` runners. */
  function Examined(ws: Witnesses, order: seq<Name>, elected: set<Name>, need: nat): (m: nat)
    requires forall a :: a in order ==> a in ws
    ensures m <= |order|
  {
    if need == 0 || order == [] then 0
    else if ws[order[0]].key != NO_KEY && order[0] !in elected then 1 + Examined(ws, order[1..], elected, need - 1)
    else 1 + Examined(ws, order[1..], elected, need)
  }

  function Keyless(ws: Witnesses, s: seq<Name>): nat
    requires forall a :: a in s ==> a in ws
  {
    if s == [] then 0 else (if ws[s[0]].key == NO_KEY then 1 else 0) + Keyless(ws, s[1..])
  }

  function Members(s: seq<Name>): set<Name> {
    set a | a in s
  }

  // ----- the round is the right one -----

  lemma {:induction false} MemberCount(s: seq<Name>)
    requires Distinct(s)
    ensures |Members(s)| == |s|
  {
    if s == [] {
      assert Members(s) == {};
    } else {
      MemberCount(s[1..]);
      assert s[0] !in s[1..];
      assert Members(s) == Members(s[1..]) + {s[0]};
    }
  }

  lemma {:induction false} CandidatesInOrder(ws: Witnesses, o: Order, order: seq<Name>, excluded: set<Name>)
    requires InOrder(ws, o, order)
    ensures InOrder(ws, o, Candidates(ws, order, excluded))
  {
    if order != [] {
      CandidatesInOrder(ws, o, order[1..], excluded);
      var rest := Candidates(ws, order[1..], excluded);
      forall j | 0 <= j < |rest|
        ensures Before(ws, o, order[0], rest[j])
      {
        assert rest[j] in rest;
        assert rest[j] in order[1..];
      }
    }
  }

  lemma InOrderDistinct(ws: Witnesses, o: Order, s: seq<Name>)
    requires InOrder(ws, o, s)
    ensures Distinct(s)
  {
    forall i, j | 0 <= i < j < |s|
      ensures s[i] != s[j]
    {
      assert Before(ws, o, s[i], s[j]);
    }
  }

  lemma TakeSplits(s: seq<Name>, n: nat, a: Name, b: Name) returns (i: nat, j: nat)
    requires a in Take(s, n) && b in s && b !in Take(s, n)
    ensures i < j < |s| && s[i] == a && s[j] == b
  {
    i :| i < |Take(s, n)| && Take(s, n)[i] == a;
    j :| j < |s| && s[j] == b;
    assert forall k {:trigger s[k]} :: 0 <= k < |Take(s, n)| ==> Take(s, n)[k] == s[k] && s[k] in Take(s, n);
  }

  /** Every elected witness has more votes than any keyed one that is not elected, or as many and the smaller name. */
  lemma ElectedAreTop(ws: Witnesses, names: seq<Name>, maxVoted: nat, a: Name, b: Name)
    requires Table(ws, names)
    requires a in Elected(ws, names, maxVoted)
    requires b in names && ws[b].key != NO_KEY && b !in Elected(ws, names, maxVoted)
    ensures ws[a].key != NO_KEY && (ws[a].votes > ws[b].votes || (ws[a].votes == ws[b].votes && a < b))
  {
    var order := Sorted(ws, ByVotes, names);
    SortedInOrder(ws, ByVotes, names);
    CandidatesInOrder(ws, ByVotes, order, {});
    var i, j := TakeSplits(Candidates(ws, order, {}), maxVoted, a, b);
  }

  /** As many are elected as may be, or as have a key; the list is ordered by votes, and then by name. */
  lemma ElectedAreRanked(ws: Witnesses, names: seq<Name>, maxVoted: nat)
    requires Table(ws, names)
    ensures var elected := Elected(ws, names, maxVoted);
      var keyed := |names| - |KeylessSet(ws, ws.Keys)|;
      && |elected| == (if keyed < maxVoted then keyed else maxVoted)
      && forall i, j {:trigger elected[i], elected[j]} :: 0 <= i < j < |elected| ==>
        && elected[i] in ws && elected[j] in ws
        && (ws[elected[i]].votes > ws[elected[j]].votes
            || (ws[elected[i]].votes == ws[elected[j]].votes && elected[i] < elected[j]))
  {
    var order := Sorted(ws, ByVotes, names);
    SortedFacts(ws, ByVotes, names);
    CandidatesInOrder(ws, ByVotes, order, {});
    CandidateCount(ws, order, {});
    var elected := Elected(ws, names, maxVoted);
    forall i, j | 0 <= i < j < |elected|
      ensures elected[i] in ws && elected[j] in ws && Before(ws, ByVotes, elected[i], elected[j])
    {
      assert elected[i] == Candidates(ws, order, {})[i] && elected[j] == Candidates(ws, order, {})[j];
    }
  }

  /** Every runner is due before any keyed witness that is left out, or at the same time and has the smaller id. */
  lemma RunnersAreNext(ws: Witnesses, names: seq<Name>, elected: set<Name>, max: nat, a: Name, b: Name)
    requires Table(ws, names)
    requires a in Runners(ws, names, elected, max)
    requires b in names && ws[b].key != NO_KEY && b !in elected && b !in Runners(ws, names, elected, max)
    ensures ws[a].key != NO_KEY && a !in elected
    ensures ws[a].scheduled < ws[b].scheduled || (ws[a].scheduled == ws[b].scheduled && ws[a].id < ws[b].id)
  {
    var order := Sorted(ws, ByTime, names);
    SortedInOrder(ws, ByTime, names);
    CandidatesInOrder(ws, ByTime, order, elected);
    var i, j := TakeSplits(Candidates(ws, order, elected), if |elected| <= max then max - |elected| else 0, a, b);
  }

  lemma {:induction false} CandidateCount(ws: Witnesses, order: seq<Name>, excluded: set<Name>)
    requires Distinct(order) && forall a :: a in order ==> a in ws
    requires forall a :: a in excluded ==> a in order && ws[a].key != NO_KEY
    ensures |Candidates(ws, order, excluded)| + |excluded| + Keyless(ws, order) == |order|
    decreases |order|
  {
    if order == [] {
      assert excluded == {};
    } else {
      var a, rest := order[0], order[1..];
      assert a !in rest;
      CandidateCount(ws, rest, excluded - {a});
      CandidatesAgree(ws, rest, excluded, excluded - {a}, a);
    }
  }

  lemma {:induction false} CandidatesAgree(ws: Witnesses, order: seq<Name>, excluded: set<Name>, fewer: set<Name>,
                                           a: Name)
    requires a !in order && forall b :: b in order ==> b in ws
    requires forall b :: b != a ==> (b in excluded <==> b in fewer)
    ensures Candidates(ws, order, excluded) == Candidates(ws, order, fewer)
  {
    if order != [] {
      assert order[0] in order;
      CandidatesAgree(ws, order[1..], excluded, fewer, a);
    }
  }

  /** If the search stops early it has found enough; otherwise it has looked at everybody. */
  lemma ExaminedEnough(ws: Witnesses, order: seq<Name>, elected: set<Name>, need: nat)
    requires forall a :: a in order ==> a in ws
    ensures var m := Examined(ws, order, elected, need);
      && (m < |order| ==> |Candidates(ws, order, elected)| >= need)
      && Keyless(ws, order[..m]) <= Keyless(ws, order)
  {
    hide Candidates, Examined, Keyless;
    ExaminedStops(ws, order, elected, need);
    KeylessPrefix(ws, order, Examined(ws, order, elected, need));
  }

  lemma {:induction false} ExaminedStops(ws: Witnesses, order: seq<Name>, elected: set<Name>, need: nat)
    requires forall a :: a in order ==> a in ws
    ensures Examined(ws, order, elected, need) < |order| ==> |Candidates(ws, order, elected)| >= need
  {
    if need > 0 && order != [] {
      ExaminedStops(ws, order[1..], elected,
        if ws[order[0]].key != NO_KEY && order[0] !in elected then need - 1 else need);
    }
  }

  lemma {:induction false} KeylessPrefix(ws: Witnesses, order: seq<Name>, m: nat)
    requires m <= |order| && forall a :: a in order ==> a in ws
    ensures Keyless(ws, order[..m]) <= Keyless(ws, order)
  {
    if m > 0 {
      assert order[..m][0] == order[0] && order[..m][1..] == order[1..][..m - 1];
      KeylessPrefix(ws, order[1..], m - 1);
    }
  }

  ghost function KeylessSet(ws: Witnesses, among: set<Name>): set<Name> {
    set a | a in among && a in ws && ws[a].key == NO_KEY
  }

  lemma {:induction false} KeylessCount(ws: Witnesses, s: seq<Name>)
    requires Distinct(s) && forall a :: a in s ==> a in ws
    ensures Keyless(ws, s) == |KeylessSet(ws, Members(s))|
  {
    if s == [] {
      assert KeylessSet(ws, Members(s)) == {};
    } else {
      assert s[0] !in s[1..];
      KeylessCount(ws, s[1..]);
      KeylessMore(ws, Members(s[1..]), s[0]);
      assert Members(s) == Members(s[1..]) + {s[0]};
    }
  }

  lemma KeylessMore(ws: Witnesses, among: set<Name>, a: Name)
    requires a in ws && a !in among
    ensures |KeylessSet(ws, among + {a})| == |KeylessSet(ws, among)| + if ws[a].key == NO_KEY then 1 else 0
  {
    assert KeylessSet(ws, among + {a}) == KeylessSet(ws, among) + if ws[a].key == NO_KEY then {a} else {};
  }

  lemma SortedFacts(ws: Witnesses, o: Order, names: seq<Name>)
    requires Table(ws, names)
    ensures var s := Sorted(ws, o, names);
      && InOrder(ws, o, s) && Distinct(s) && |s| == |names|
      && Keyless(ws, s) == |KeylessSet(ws, ws.Keys)|
  {
    var s := Sorted(ws, o, names);
    SortedInOrder(ws, o, names);
    assert |multiset(s)| == |multiset(names)|;
    KeylessCount(ws, s);
    assert Members(s) == ws.Keys;
  }

  lemma ElectedFacts(ws: Witnesses, names: seq<Name>, maxVoted: nat)
    requires Table(ws, names)
    ensures var elected := Elected(ws, names, maxVoted);
      && Distinct(elected) && |elected| <= maxVoted
      && (forall a :: a in elected ==> a in names && ws[a].key != NO_KEY)
  {
    var order := Sorted(ws, ByVotes, names);
    SortedFacts(ws, ByVotes, names);
    CandidatesInOrder(ws, ByVotes, order, {});
    InOrderDistinct(ws, ByVotes, Candidates(ws, order, {}));
  }

  /** What the scheduler skipped: the witnesses without a key among those it looked at. */
  function Skipped(ws: Witnesses, names: seq<Name>, elected: set<Name>, max: nat): nat
    requires forall a :: a in names ==> a in ws
  {
    var order := Sorted(ws, ByTime, names);
    Keyless(ws, order[..Examined(ws, order, elected, if |elected| <= max then max - |elected| else 0)])
  }

  /** The size assertion of the scheduler holds for every witness table: the round has as many witnesses
      as have a key, up to `max`, and that is what the scheduler computes from the ones it skipped. */
  lemma SizeAssertionHolds(ws: Witnesses, names: seq<Name>, maxVoted: nat, max: nat)
    requires Table(ws, names) && maxVoted <= max
    ensures var elected := Elected(ws, names, maxVoted);
      var rest := |names| - Skipped(ws, names, Members(elected), max);
      var keyed := |names| - |KeylessSet(ws, ws.Keys)|;
      && |elected + Runners(ws, names, Members(elected), max)| == (if max < rest then max else rest)
      && |elected + Runners(ws, names, Members(elected), max)| == (if max < keyed then max else keyed)
  {
    hide Candidates, Examined, Keyless, Sorted, Elected, InOrder;
    var byTime := Sorted(ws, ByTime, names);
    var elected := Elected(ws, names, maxVoted);
    SortedFacts(ws, ByTime, names);
    ElectedFacts(ws, names, maxVoted);
    MemberCount(elected);
    CandidateCount(ws, byTime, Members(elected));
    ExaminedEnough(ws, byTime, Members(elected), max - |elected|);
    assert byTime[..|byTime|] == byTime;
  }

  /** The round consists of distinct witnesses, all with a key. */
  lemma RoundIsDistinct(ws: Witnesses, names: seq<Name>, maxVoted: nat, max: nat)
    requires Table(ws, names)
    ensures var elected := Elected(ws, names, maxVoted);
      var active := elected + Runners(ws, names, Members(elected), max);
      Distinct(active) && forall a :: a in active ==> a in names && ws[a].key != NO_KEY
  {
    hide Elected, Sorted;
    var elected := Elected(ws, names, maxVoted);
    ElectedFacts(ws, names, maxVoted);
    RunnersFacts(ws, names, Members(elected), max);
    var runners := Runners(ws, names, Members(elected), max);
    forall i, j | 0 <= i < |elected| && 0 <= j < |runners|
      ensures elected[i] != runners[j]
    {
      assert elected[i] in Members(elected) && runners[j] in runners;
    }
  }

  lemma RunnersFacts(ws: Witnesses, names: seq<Name>, elected: set<Name>, max: nat)
    requires Table(ws, names)
    ensures var runners := Runners(ws, names, elected, max);
      Distinct(runners) && forall a :: a in runners ==> a in names && ws[a].key != NO_KEY && a !in elected
  {
    var order := Sorted(ws, ByTime, names);
    SortedFacts(ws, ByTime, names);
    CandidatesInOrder(ws, ByTime, order, elected);
    InOrderDistinct(ws, ByTime, Candidates(ws, order, elected));
  }
}
