/**
 Switching forks on an undo stack. A block is applied as a whole or not at all; applying it raises the last
 irreversible block, and with it gives up the undo states that are no longer needed.
 */
module ForkSwitch {
  import opened ChainTypes
  import opened BlockIds
  import ForkDatabase

  /** The chain state: its head block, the last irreversible block and everything else. */
  datatype Chain = Chain(head: BlockId, lib: nat, content: nat)

  /** What applying a block to a state gives, None if it throws; and, if it throws, the half-applied state, and
      whether the fork database was trimmed before. */
  datatype Rules =
    Rules(apply: (Chain, BlockId) -> Option<Chain>, left: (Chain, BlockId) -> Chain, trims: (Chain, BlockId) -> bool)

  /** Blocks build on the head and never lower the last irreversible block. A block that throws may have raised
      it and trimmed the fork database before, but only if it was accepted on the head. */
  ghost predicate Lawful(rules: Rules) {
    && (forall c, b {:trigger rules.apply(c, b)} :: rules.apply(c, b).Some? ==>
          && b.BlockId? && b.previous == c.head && rules.apply(c, b).value.head == b
          && c.lib <= rules.apply(c, b).value.lib <= Num(b))
    && (forall c, b {:trigger rules.left(c, b)} :: rules.apply(c, b).None? ==>
          && c.lib <= rules.left(c, b).lib
          && (rules.left(c, b).lib > c.lib ==>
                b.BlockId? && b.previous == c.head && rules.left(c, b).head == b && rules.left(c, b).lib <= Num(b)))
    && (forall c, b {:trigger rules.trims(c, b)} :: rules.apply(c, b).None? && rules.trims(c, b) ==>
          b.BlockId? && b.previous == c.head)
  }

  // ----- the undo stack -----

  /** Gives up the states before blocks up to `lib`. */
  function Commit(undo: seq<Chain>, lib: nat): (r: seq<Chain>)
    ensures |r| <= |undo|
  {
    if undo != [] && Num(undo[0].head) + 1 <= lib then Commit(undo[1..], lib) else undo
  }

  /** Each state came from the one before it by a block. */
  ghost predicate History(rules: Rules, states: seq<Chain>) {
    forall i, j {:trigger states[i], states[j]} :: 0 <= i && j == i + 1 && j < |states| ==>
      rules.apply(states[i], states[j].head) == Some(states[j])
  }

  lemma {:induction false} HistoryNumbers(rules: Rules, states: seq<Chain>, i: nat)
    requires Lawful(rules) && History(rules, states) && i < |states|
    ensures Num(states[i].head) == Num(states[0].head) + i && states[0].lib <= states[i].lib
    decreases i
  {
    if i > 0 {
      HistoryNumbers(rules, states, i - 1);
      assert rules.apply(states[i - 1], states[i].head) == Some(states[i]);
    }
  }

  /** How many states a commit gives up. */
  function Given(undo: seq<Chain>, lib: nat): (d: nat)
    ensures d <= |undo|
  {
    if undo == [] || lib <= Num(undo[0].head) then 0
    else if lib - Num(undo[0].head) <= |undo| then lib - Num(undo[0].head)
    else |undo|
  }

  lemma {:induction false} CommitGives(rules: Rules, undo: seq<Chain>, lib: nat)
    requires Lawful(rules) && History(rules, undo)
    ensures Commit(undo, lib) == undo[Given(undo, lib)..]
    decreases |undo|
  {
    if undo != [] && Num(undo[0].head) + 1 <= lib {
      if |undo| > 1 {
        assert rules.apply(undo[0], undo[1].head) == Some(undo[1]);
      }
      CommitGives(rules, undo[1..], lib);
    }
  }

  /** Committing in steps gives up the same states as committing at the end. */
  lemma CommitAgain(rules: Rules, undo: seq<Chain>, c: Chain, lib: nat, more: nat)
    requires Lawful(rules) && History(rules, undo + [c]) && lib <= more
    ensures Commit(Commit(undo, lib) + [c], more) == Commit(undo + [c], more)
  {
    hide Num;
    var all, d := undo + [c], Given(undo, lib);
    HistoryPrefix(rules, undo, c);
    CommitGives(rules, undo, lib);
    CommitGives(rules, all, more);
    assert undo[d..] + [c] == all[d..];
    HistorySuffix(rules, all, d);
    CommitGives(rules, all[d..], more);
    HistoryNumbers(rules, all, d);
    if undo != [] {
      assert all[0] == undo[0];
    }
  }

  lemma HistoryPrefix(rules: Rules, undo: seq<Chain>, c: Chain)
    requires History(rules, undo + [c])
    ensures History(rules, undo)
  {
    var all := undo + [c];
    forall i | 0 <= i && i + 1 < |undo|
      ensures rules.apply(undo[i], undo[i + 1].head) == Some(undo[i + 1])
    {
      assert all[i] == undo[i] && all[i + 1] == undo[i + 1];
    }
  }

  lemma HistoryGrows(rules: Rules, all: seq<Chain>, c: Chain)
    requires History(rules, all) && all != [] && rules.apply(all[|all| - 1], c.head) == Some(c)
    ensures History(rules, all + [c])
  {}

  lemma HistorySuffix(rules: Rules, all: seq<Chain>, d: nat)
    requires History(rules, all) && d <= |all|
    ensures History(rules, all[d..])
  {
    forall i | 0 <= i && i + 1 < |all| - d
      ensures rules.apply(all[d..][i], all[d..][i + 1].head) == Some(all[d..][i + 1])
    {
      assert all[d..][i] == all[i + d] && all[d..][i + 1] == all[i + d + 1];
    }
  }

  // ----- branches, the newest block first -----

  ghost predicate Branch(ids: seq<BlockId>) {
    && ids != [] && (forall i {:trigger ids[i]} :: 0 <= i < |ids| ==> ids[i].BlockId?)
    && forall i, j {:trigger ids[i], ids[j]} :: 0 <= i && j == i + 1 && j < |ids| ==> ids[i].previous == ids[j]
  }

  /** Applies a branch from its oldest block to its newest. */
  function Replay(rules: Rules, c: Chain, ids: seq<BlockId>): Option<Chain> {
    if ids == [] then Some(c)
    else
      var d :- Replay(rules, c, ids[1..]);
      rules.apply(d, ids[0])
  }

  /** How many blocks of a branch apply before the first that throws. */
  function Applied(rules: Rules, c: Chain, ids: seq<BlockId>): (k: nat)
    ensures k <= |ids|
  {
    if ids == [] then 0
    else if Replay(rules, c, ids).Some? then |ids|
    else Applied(rules, c, ids[1..])
  }

  lemma {:induction false} AppliedReplays(rules: Rules, c: Chain, ids: seq<BlockId>)
    ensures var k := Applied(rules, c, ids);
      && Replay(rules, c, ids[|ids| - k..]).Some?
      && (k == |ids| <==> Replay(rules, c, ids).Some?)
      && (k < |ids| ==> Replay(rules, c, ids[|ids| - k - 1..]).None?)
    decreases |ids|
  {
    assert ids[0..] == ids;
    if ids != [] && Replay(rules, c, ids).None? {
      AppliedReplays(rules, c, ids[1..]);
      var k := Applied(rules, c, ids[1..]);
      assert ids[1..][|ids| - 1 - k..] == ids[|ids| - k..];
      if k < |ids| - 1 {
        assert ids[1..][|ids| - 2 - k..] == ids[|ids| - k - 1..];
      }
    }
  }

  lemma {:induction false} AppliedHere(rules: Rules, c: Chain, ids: seq<BlockId>, i: nat)
    requires 0 < i <= |ids| && Replay(rules, c, ids[i..]).Some? && Replay(rules, c, ids[i - 1..]).None?
    ensures Applied(rules, c, ids) == |ids| - i
    decreases |ids|
  {
    if i == 1 {
      assert ids[0..] == ids;
    } else {
      assert ids[1..][i - 1..] == ids[i..] && ids[1..][i - 2..] == ids[i - 1..];
      AppliedHere(rules, c, ids[1..], i - 1);
    }
  }

  lemma ReplayStep(rules: Rules, c: Chain, ids: seq<BlockId>, i: nat)
    requires 0 < i <= |ids| && Replay(rules, c, ids[i..]).Some?
    ensures Replay(rules, c, ids[i - 1..]) == rules.apply(Replay(rules, c, ids[i..]).value, ids[i - 1])
  {
    assert ids[i - 1..][1..] == ids[i..];
  }

  lemma ReplayNothing(rules: Rules, c: Chain, ids: seq<BlockId>)
    ensures Replay(rules, c, ids[|ids|..]) == Some(c)
  {}

  lemma NothingGiven(undo: seq<Chain>, lib: nat)
    requires undo != [] ==> Num(undo[0].head) >= lib
    ensures Commit(undo, lib) == undo
  {}

  function Parent(ids: seq<BlockId>): BlockId
    requires ids != [] && ids[|ids| - 1].BlockId?
  {
    ids[|ids| - 1].previous
  }

  lemma {:induction false} BranchBack(ids: seq<BlockId>, j: nat)
    requires Branch(ids) && j <= |ids|
    ensures Back(ids[0], j) == (if j < |ids| then ids[j] else Parent(ids)) && Num(Back(ids[0], j)) + j == Num(ids[0])
    decreases j
  {
    if j > 0 {
      BranchBack(ids, j - 1);
      BackNext(ids[0], j - 1);
    }
  }

  lemma {:induction false} HistoryBack(rules: Rules, all: seq<Chain>, j: nat)
    requires Lawful(rules) && History(rules, all) && j < |all|
    ensures all[|all| - 1 - j].head == Back(all[|all| - 1].head, j) && j <= Num(all[|all| - 1].head)
    decreases j
  {
    if j > 0 {
      HistoryBack(rules, all, j - 1);
      assert rules.apply(all[|all| - 1 - j], all[|all| - j].head) == Some(all[|all| - j]);
      BackNext(all[|all| - 1].head, j - 1);
    }
  }

  /** Undone blocks that are applied again lead to the same state. */
  lemma {:induction false} ReplayRestores(rules: Rules, all: seq<Chain>, ids: seq<BlockId>)
    requires Lawful(rules) && History(rules, all) && |ids| < |all|
    requires forall j {:trigger ids[j]} :: 0 <= j < |ids| ==> ids[j] == all[|all| - 1 - j].head
    ensures Replay(rules, all[|all| - 1 - |ids|], ids) == Some(all[|all| - 1])
    decreases |ids|
  {
    if ids != [] {
      var rest := all[..|all| - 1];
      assert rest + [all[|all| - 1]] == all;
      HistoryPrefix(rules, rest, all[|all| - 1]);
      forall j | 0 <= j < |ids| - 1
        ensures ids[1..][j] == rest[|rest| - 1 - j].head
      {
        assert ids[1..][j] == ids[j + 1];
      }
      ReplayRestores(rules, rest, ids[1..]);
      assert rules.apply(all[|all| - 2], all[|all| - 1].head) == Some(all[|all| - 1]);
    }
  }

  ghost predicate Fork(first: seq<BlockId>, second: seq<BlockId>) {
    Branch(first) && Branch(second) && Parent(first) == Parent(second) && |first| > |second|
  }

  function Least(a: int, b: int): int {
    if a <= b then a else b
  }

  /** Where applying a branch stops: how many blocks applied, the state then, and what the next block leaves. */
  ghost function Stop(rules: Rules, base: Chain, first: seq<BlockId>): (r: (nat, Chain, Chain))
    requires Replay(rules, base, first).None?
    ensures r.0 < |first|
  {
    AppliedReplays(rules, base, first);
    var k := Applied(rules, base, first);
    var c := Replay(rules, base, first[|first| - k..]).value;
    (k, c, rules.left(c, first[|first| - k - 1]))
  }

  /** Whether the way back from the new branch is open: nothing above the ancestor has become irreversible, not
      even by the block that threw, and the fork database reaches as far back. */
  ghost predicate Restores(rules: Rules, base: Chain, first: seq<BlockId>, depthOld: nat)
    requires Replay(rules, base, first).None?
  {
    var (k, _, left) := Stop(rules, base, first);
    left.lib <= Num(base.head) && k <= depthOld
  }

  /** How many blocks of the new branch stay applied if the way back is not open. */
  ghost function Stuck(rules: Rules, base: Chain, first: seq<BlockId>, depthOld: nat): int
    requires Replay(rules, base, first).None?
  {
    var (k, c, left) := Stop(rules, base, first);
    k - Least(Num(c.head) - left.lib, depthOld)
  }

  /** The one place in a history where a block is the head. */
  lemma Place(rules: Rules, all: seq<Chain>, target: BlockId, k: nat)
    requires Lawful(rules) && History(rules, all) && all != []
    requires target == Back(all[|all| - 1].head, k) && k <= Num(all[|all| - 1].head)
    ensures forall m {:trigger all[m]} :: 0 <= m < |all| ==> (all[m].head == target <==> m == |all| - 1 - k)
  {
    hide Num, Lawful, History;
    forall m | 0 <= m < |all|
      ensures all[m].head == target <==> m == |all| - 1 - k
    {
      HistoryBack(rules, all, |all| - 1 - m);
    }
  }

  lemma SecondPlace(rules: Rules, all: seq<Chain>, ids: seq<BlockId>)
    requires Lawful(rules) && History(rules, all) && all != [] && Branch(ids) && ids[0] == all[|all| - 1].head
    ensures forall m {:trigger all[m]} :: 0 <= m < |all| ==> (all[m].head == Parent(ids) <==> m == |all| - 1 - |ids|)
  {
    BranchBack(ids, |ids|);
    Place(rules, all, Parent(ids), |ids|);
  }

  lemma ReplayHead(rules: Rules, base: Chain, first: seq<BlockId>, k: nat)
    requires Lawful(rules) && Branch(first) && k <= |first| && base.head == Parent(first)
    requires Replay(rules, base, first[|first| - k..]).Some?
    ensures var c := Replay(rules, base, first[|first| - k..]).value;
      Back(c.head, k) == base.head && Num(c.head) == Num(base.head) + k && (k > 0 ==> c.head == first[|first| - k])
  {
    if k > 0 {
      BranchBack(first[|first| - k..], k);
    }
  }

  /** Where the ancestor is among the undo states that are left after k blocks of the new branch. */
  lemma WayBack(rules: Rules, trail: seq<Chain>, c: Chain, first: seq<BlockId>, k: nat, base: Chain, lib: nat)
    requires Lawful(rules) && Branch(first) && base.head == Parent(first) && History(rules, trail + [c])
    requires k <= |first| && Replay(rules, base, first[|first| - k..]) == Some(c) && lib <= Num(c.head)
    requires k <= |trail| && (trail + [c])[|trail| - k] == base
    ensures var undo := Commit(trail, lib);
      && undo + [c] == (trail + [c])[|trail| - |undo|..]
      && |undo| == Least(|trail|, Num(c.head) - lib)
      && Num(c.head) == Num(base.head) + k
      && (|undo| >= k <==> lib <= Num(base.head))
      && forall m {:trigger (undo + [c])[m]} ::
        0 <= m <= |undo| ==> ((undo + [c])[m].head == base.head <==> m == |undo| - k)
  {
    hide Num, Back, Lawful, History, Replay, Branch, Commit, Given;
    var undo, d := Commit(trail, lib), Given(trail, lib);
    HistoryPrefix(rules, trail, c);
    CommitGives(rules, trail, lib);
    assert undo + [c] == (trail + [c])[d..];
    HistorySuffix(rules, trail + [c], d);
    ReplayHead(rules, base, first, k);
    Place(rules, undo + [c], base.head, k);
    HistoryNumbers(rules, trail + [c], |trail|);
    Kept(trail, c, lib);
  }

  lemma Kept(trail: seq<Chain>, c: Chain, lib: nat)
    requires Num(c.head) == Num((trail + [c])[0].head) + |trail| && lib <= Num(c.head)
    ensures |trail| - Given(trail, lib) == Least(|trail|, Num(c.head) - lib)
  {
    hide Num;
  }

  /** The states passed on the way along a branch are its replays. */
  lemma TrailReplays(rules: Rules, all: seq<Chain>, first: seq<BlockId>, k: nat, j: nat)
    requires Lawful(rules) && History(rules, all) && Branch(first) && j <= k <= |first| && k < |all|
    requires var base := all[|all| - 1 - k];
      base.head == Parent(first) && Replay(rules, base, first[|first| - k..]) == Some(all[|all| - 1])
    ensures Replay(rules, all[|all| - 1 - k], first[|first| - j..]) == Some(all[|all| - 1 - k + j])
  {
    hide Num, Back, Lawful, Replay;
    var base, sub, ids := all[|all| - 1 - k], all[..|all| - k + j], first[|first| - j..];
    ReplayHead(rules, base, first, k);
    HistoryTake(rules, all, |all| - k + j);
    forall i | 0 <= i < |ids|
      ensures ids[i] == sub[|sub| - 1 - i].head
    {
      HistoryBack(rules, all, k - j + i);
      BranchBack(first[|first| - k..], k - j + i);
    }
    ReplayRestores(rules, sub, ids);
  }

  lemma HistoryTake(rules: Rules, all: seq<Chain>, n: nat)
    requires History(rules, all) && n <= |all|
    ensures History(rules, all[..n])
  {}

  lemma SecondIsHistory(rules: Rules, all: seq<Chain>, second: seq<BlockId>)
    requires Lawful(rules) && History(rules, all) && Branch(second) && |second| < |all|
      && second[0] == all[|all| - 1].head
    ensures Replay(rules, all[|all| - 1 - |second|], second) == Some(all[|all| - 1])
    ensures Applied(rules, all[|all| - 1 - |second|], second) == |second|
  {
    hide Num, Back, Lawful, History;
    forall j | 0 <= j < |second|
      ensures second[j] == all[|all| - 1 - j].head
    {
      BranchBack(second, j);
      HistoryBack(rules, all, j);
    }
    ReplayRestores(rules, all, second);
    AppliedReplays(rules, all[|all| - 1 - |second|], second);
  }

  function Ids(xs: seq<ForkDatabase.ForkItem>): (ids: seq<BlockId>)
    ensures |ids| == |xs| && forall i {:trigger ids[i]} :: 0 <= i < |xs| ==> ids[i] == xs[i].id
  {
    seq(|xs|, i requires 0 <= i < |xs| => xs[i].id)
  }

  /** The branches that the fork database finds are a fork, if the first block is the higher one. */
  lemma MeetIsFork(alive: ForkDatabase.Alive, x: ForkDatabase.ForkItem, y: ForkDatabase.ForkItem,
                   xs: seq<ForkDatabase.ForkItem>, ys: seq<ForkDatabase.ForkItem>)
    requires ForkDatabase.WellFormed(alive) && ForkDatabase.Meet(alive, x, y, xs, ys) && Num(x.id) > Num(y.id)
    ensures Fork(Ids(xs), Ids(ys)) && Ids(xs)[0] == x.id && Ids(ys)[0] == y.id
  {
    hide Num, Back, Ids;
    PathIsBranch(alive, xs);
    PathIsBranch(alive, ys);
    ForkDatabase.PathIds(alive, xs, |xs| - 1);
    ForkDatabase.PathIds(alive, ys, |ys| - 1);
    SameNumber(ForkDatabase.Last(xs).id, ForkDatabase.Last(ys).id);
  }

  lemma SameNumber(a: BlockId, b: BlockId)
    requires a.BlockId? && b.BlockId? && a.previous == b.previous
    ensures Num(a) == Num(b)
  {}

  lemma PathIsBranch(alive: ForkDatabase.Alive, xs: seq<ForkDatabase.ForkItem>)
    requires ForkDatabase.WellFormed(alive) && ForkDatabase.Path(alive, xs)
    ensures Branch(Ids(xs))
  {
    hide Ids;
    var ids := Ids(xs);
    forall i | 0 <= i < |xs|
      ensures ids[i].BlockId? && (i + 1 < |xs| ==> ids[i].previous == ids[i + 1])
    {
      assert xs[i] in alive;
      if i + 1 < |xs| {
        ForkDatabase.PathStep(alive, xs, i);
      }
    }
  }

  lemma EarlierDiffers(rules: Rules, undo: seq<Chain>, c: Chain, i: nat)
    requires Lawful(rules) && History(rules, undo + [c]) && i <= |undo|
    ensures (undo + [c])[i] == c <==> i == |undo|
  {
    hide Num;
    HistoryNumbers(rules, undo + [c], |undo|);
    HistoryNumbers(rules, undo + [c], i);
  }

  lemma {:induction false} CommitTwice(undo: seq<Chain>, lib: nat, more: nat)
    requires lib <= more
    ensures Commit(Commit(undo, lib), more) == Commit(undo, more)
    decreases |undo|
  {
    if undo != [] && Num(undo[0].head) + 1 <= lib {
      CommitTwice(undo[1..], lib, more);
    }
  }

  /** What is left of a history after committing, as long as its last state is kept, and if it is not. */
  lemma Committed(rules: Rules, undo: seq<Chain>, c: Chain, lib: nat)
    requires Lawful(rules) && History(rules, undo + [c])
    ensures lib <= Num(c.head) ==>
      Commit(undo + [c], lib) == Commit(undo, lib) + [c] && History(rules, Commit(undo, lib) + [c])
    ensures lib <= Num(c.head) && Commit(undo, lib) != [] ==> Num(Commit(undo, lib)[0].head) >= lib
    ensures lib > Num(c.head) ==> Commit(undo + [c], lib) == []
  {
    hide Num, Lawful, Commit;
    var all := undo + [c];
    HistoryPrefix(rules, undo, c);
    CommitGives(rules, all, lib);
    CommitGives(rules, undo, lib);
    HistoryNumbers(rules, all, |undo|);
    HistorySuffix(rules, all, Given(all, lib));
    if undo != [] {
      assert all[0] == undo[0];
      if Given(undo, lib) < |undo| {
        HistoryNumbers(rules, all, Given(undo, lib));
      }
    }
    if lib <= Num(c.head) {
      assert Given(all, lib) == Given(undo, lib);
      assert all[Given(all, lib)..] == undo[Given(undo, lib)..] + [c];
    }
  }

  lemma AppliedLib(rules: Rules, c: Chain, b: BlockId)
    requires Lawful(rules) && rules.apply(c, b).Some?
    ensures rules.apply(c, b).value.head == b && rules.apply(c, b).value.lib <= Num(b)
  {}

  lemma CommittedApplied(rules: Rules, all: seq<Chain>, c: Chain)
    requires Lawful(rules) && History(rules, all) && all != [] && rules.apply(all[|all| - 1], c.head) == Some(c)
    ensures History(rules, Commit(all, c.lib) + [c]) && c.lib <= Num(c.head)
    ensures Commit(all, c.lib) != [] ==> Num(Commit(all, c.lib)[0].head) >= c.lib
  {
    hide Num, Lawful, Commit;
    AppliedLib(rules, all[|all| - 1], c.head);
    var d := Given(all, c.lib);
    CommitGives(rules, all, c.lib);
    HistoryGrows(rules, all, c);
    HistorySuffix(rules, all + [c], d);
    assert (all + [c])[d..] == all[d..] + [c];
    if d < |all| {
      HistoryNumbers(rules, all, d);
    }
  }

  /** A block that has made itself irreversible is the head of what it leaves. */
  lemma SameNumbers(rules: Rules, c: Chain, b: BlockId)
    requires Lawful(rules) && rules.apply(c, b).None? && rules.left(c, b).lib > Num(c.head) >= c.lib
    ensures rules.left(c, b).lib <= Num(rules.left(c, b).head)
  {}

  // ----- how a switch ends -----

  /**
   How a switch from `second` to `first` ends, if the fork database can be popped `depthNew` times from its head
   and `depthOld` times from the old head. With too little undo history, or too few blocks to pop, it ends at the
   last state reached. Otherwise the new branch is replayed on the ancestor; if a block of it throws, the old
   state comes back if the way is open. If not, the half-applied block stays if it has made itself
   irreversible, and else some blocks of the new branch stay.
   */
  ghost predicate Ends(rules: Rules, undo: seq<Chain>, c: Chain, first: seq<BlockId>, second: seq<BlockId>,
                       depthNew: nat, depthOld: nat, ok: bool, r: Chain)
    requires second != []
  {
    var pops := Least(|undo|, depthNew);
    if |second| > pops then !ok && r == (undo + [c])[|undo| - pops]
    else
      var base := undo[|undo| - |second|];
      if Replay(rules, base, first).Some? then ok && Replay(rules, base, first) == Some(r)
      else
        var (k, d, left) := Stop(rules, base, first);
        var j := Stuck(rules, base, first, depthOld);
        && !ok
        && if Restores(rules, base, first, depthOld) then r == c
           else if left.lib > Num(d.head) then r == left
           else 0 < j <= k && Replay(rules, base, first[|first| - j..]) == Some(r)
  }

  /**
   Exactly when a switch ends with the new branch or with the old state: nothing can be popped at all; or
   the ancestor is reached, and the new branch applies, or leaves the way back open, or contains the old head
   and the way back stops there.
   */
  ghost predicate AllOrNothing(rules: Rules, undo: seq<Chain>, first: seq<BlockId>, second: seq<BlockId>,
                               depthNew: nat, depthOld: nat)
    requires second != []
  {
    var pops := Least(|undo|, depthNew);
    if |second| > pops then pops == 0
    else
      var base := undo[|undo| - |second|];
      || Replay(rules, base, first).Some?
      || Restores(rules, base, first, depthOld)
      || var (k, d, left) := Stop(rules, base, first);
         var j := Stuck(rules, base, first, depthOld);
         left.lib <= Num(d.head) && 0 < j <= k && first[|first| - j] == second[0]
  }

  /** The condition is exact. */
  lemma AllOrNothingIff(rules: Rules, undo: seq<Chain>, c: Chain, first: seq<BlockId>, second: seq<BlockId>,
                        depthNew: nat, depthOld: nat, ok: bool, r: Chain)
    requires Lawful(rules) && History(rules, undo + [c]) && Fork(first, second) && second[0] == c.head
    requires (undo != [] ==> Num(undo[0].head) >= c.lib)
    requires Ends(rules, undo, c, first, second, depthNew, depthOld, ok, r)
    ensures ok || r == c <==> AllOrNothing(rules, undo, first, second, depthNew, depthOld)
  {
    hide Num, Lawful, History, Replay, Stuck, Restores;
    var pops := Least(|undo|, depthNew);
    EarlierDiffers(rules, undo, c, |undo| - pops);
    if |second| <= pops {
      var base := undo[|undo| - |second|];
      var all := undo + [c];
      SecondPlace(rules, all, second);
      assert all[|undo| - |second|] == base;
      SecondIsHistory(rules, all, second);
      BaseLib(rules, undo, c, |undo| - |second|);
      if Replay(rules, base, first).None? && !Restores(rules, base, first, depthOld) {
        var (k, d, left) := Stop(rules, base, first);
        if left.lib > Num(d.head) {
          AppliedReplays(rules, base, first);
          ReplayLib(rules, base, first[|first| - k..]);
          LeftIsNew(rules, base, c, first, second, k, d);
        } else {
          var j := Stuck(rules, base, first, depthOld);
          StuckIsOldIff(rules, base, c, first, second, j);
        }
      }
    }
  }

  /** Two branches from one parent to one block are the same. */
  lemma OneBranch(a: seq<BlockId>, b: seq<BlockId>)
    requires Branch(a) && Branch(b) && a[0] == b[0] && Parent(a) == Parent(b)
    ensures a == b
  {
    hide Num, Back;
    BranchBack(a, |a|);
    BranchBack(b, |b|);
    forall i | 0 <= i < |a| && i < |b|
      ensures a[i] == b[i]
    {
      BranchBack(a, i);
      BranchBack(b, i);
    }
  }

  lemma ReplayLib(rules: Rules, base: Chain, ids: seq<BlockId>)
    requires Lawful(rules) && base.lib <= Num(base.head) && Replay(rules, base, ids).Some?
    ensures Replay(rules, base, ids).value.lib <= Num(Replay(rules, base, ids).value.head)
  {}

  lemma BaseLib(rules: Rules, undo: seq<Chain>, c: Chain, i: nat)
    requires Lawful(rules) && History(rules, undo + [c]) && i < |undo| && Num(undo[0].head) >= c.lib
    ensures undo[i].lib <= Num(undo[i].head)
  {
    var all := undo + [c];
    HistoryNumbers(rules, all, i);
    HistorySuffix(rules, all, i);
    HistoryNumbers(rules, all[i..], |undo| - i);
  }

  lemma StuckIsOldIff(rules: Rules, base: Chain, c: Chain, first: seq<BlockId>, second: seq<BlockId>, j: nat)
    requires Lawful(rules) && Fork(first, second) && second[0] == c.head && base.head == Parent(first)
    requires Replay(rules, base, second) == Some(c) && 0 < j <= |first|
      && Replay(rules, base, first[|first| - j..]).Some?
    ensures Replay(rules, base, first[|first| - j..]) == Some(c) <==> first[|first| - j] == second[0]
  {
    hide Num, Lawful, Replay;
    ReplayHead(rules, base, first, j);
    if first[|first| - j] == second[0] {
      OneBranch(first[|first| - j..], second);
    }
  }

  lemma LeftIsNew(rules: Rules, base: Chain, c: Chain, first: seq<BlockId>, second: seq<BlockId>, k: nat, d: Chain)
    requires Lawful(rules) && Fork(first, second) && second[0] == c.head && base.head == Parent(first)
    requires Replay(rules, base, second) == Some(c) && k < |first|
      && Replay(rules, base, first[|first| - k..]) == Some(d)
    requires Replay(rules, base, first[|first| - k - 1..]).None?
    requires d.lib <= Num(d.head) < rules.left(d, first[|first| - k - 1]).lib
    ensures rules.left(d, first[|first| - k - 1]) != c
  {
    hide Num, Replay;
    var ids := first[|first| - k - 1..];
    ReplayStep(rules, base, first, |first| - k);
    if rules.left(d, ids[0]) == c {
      assert Parent(ids) == Parent(first);
      OneBranch(ids, second);
    }
  }

  // ----- how far the fork database reaches when a switch has failed -----

  /** Whether a block, applied or throwing, comes to trimming the fork database. */
  predicate Trims(rules: Rules, c: Chain, b: BlockId) {
    rules.apply(c, b).Some? || rules.trims(c, b)
  }

  function Outcome(rules: Rules, c: Chain, b: BlockId): Chain {
    if rules.apply(c, b).Some? then rules.apply(c, b).value else rules.left(c, b)
  }

  /** Blocks below this number are trimmed by a block, if the fork database's head has number `cursor`. */
  function Bound(cursor: nat, b: BlockId, lib: nat): nat {
    ForkDatabase.Greatest(0, cursor - (Num(b) - lib + 1))
  }

  /** Blocks below this number are trimmed while a branch is applied up to the first block that throws. */
  function Floor(rules: Rules, c: Chain, ids: seq<BlockId>, cursor: nat): nat {
    if ids == [] then 0
    else
      var floor, before := Floor(rules, c, ids[1..], cursor), Replay(rules, c, ids[1..]);
      if before.None? || !Trims(rules, before.value, ids[0]) then floor
      else ForkDatabase.Greatest(floor, Bound(cursor, ids[0], Outcome(rules, before.value, ids[0]).lib))
  }

  /** What the fork database holds after a branch has failed: blocks that are not trimmed, without the block that threw
      and those on it. */
  ghost function Remaining(rules: Rules, index: seq<ForkDatabase.ForkItem>, base: Chain, first: seq<BlockId>,
                           cursor: nat)
    : set<ForkDatabase.ForkItem>
    requires Replay(rules, base, first).None?
  {
    set z | z in index && Num(z.id) >= Floor(rules, base, first, cursor)
            && z.id !in first[..|first| - Stop(rules, base, first).0]
  }

  /** How far the fork database's head can be popped from the old head y when a switch has failed. While the new
      branch is applied, that head is as many blocks below x as are left. */
  ghost function DepthOld(rules: Rules, undo: seq<Chain>, first: seq<BlockId>, n: nat,
                          index: seq<ForkDatabase.ForkItem>,
                          x: BlockId, y: ForkDatabase.ForkItem): nat
    requires 0 < n <= Num(x)
  {
    if n > |undo| then 0
    else
      var base := undo[|undo| - n];
      if Replay(rules, base, first).Some? then 0
      else ForkDatabase.Depth(Remaining(rules, index, base, first, Num(x) - n), y)
  }

  // ----- switches to a branch one block longer, which is how branches overtake each other -----

  /** Nothing happens if nothing can be popped. Otherwise the ancestor has to be reached, and the new branch has to
      apply, or make nothing above the ancestor irreversible and either fail before its last block or have an
      ancestor that the fork database holds. */
  ghost predicate Settles(rules: Rules, undo: seq<Chain>, first: seq<BlockId>, second: seq<BlockId>, depthNew: nat,
                          anchored: bool)
    requires second != []
  {
    var pops := Least(|undo|, depthNew);
    if |second| > pops then pops == 0
    else
      var base := undo[|undo| - |second|];
      || Replay(rules, base, first).Some?
      || var (k, _, left) := Stop(rules, base, first);
         left.lib <= Num(base.head) && (k < |second| || anchored)
  }

  /** Then it only matters whether the ancestor is held. */
  lemma SettlesIff(rules: Rules, undo: seq<Chain>, first: seq<BlockId>, second: seq<BlockId>, depthNew: nat,
                   depthOld: nat,
                   anchored: bool)
    requires Fork(first, second) && |first| == |second| + 1 && first[0].previous != second[0]
    requires |second| <= |undo| ==>
      var base := undo[|undo| - |second|];
      Replay(rules, base, first).None? && Stop(rules, base, first).2.lib <= Num(base.head) ==>
        depthOld + 1 >= |second| && (depthOld >= |second| <==> anchored)
    ensures AllOrNothing(rules, undo, first, second, depthNew, depthOld)
      <==> Settles(rules, undo, first, second, depthNew, anchored)
  {
    hide Num, Back, Replay, Stop;
    BranchBack(first, |first|);
    BranchBack(second, |second|);
    forall i | 0 <= i < |first|
      ensures first[i] != second[0]
    {
      BranchBack(first, i);
      BranchBack(second, 0);
    }
  }

  /** Trimming reaches at most to what has become irreversible. */
  lemma {:induction false} FloorLow(rules: Rules, base: Chain, ids: seq<BlockId>, cursor: nat, lib: nat)
    requires Lawful(rules) && Branch(ids) && base.head == Parent(ids) && cursor <= Num(base.head) + 1
    requires if Replay(rules, base, ids).Some? then Replay(rules, base, ids).value.lib <= lib
             else Stop(rules, base, ids).2.lib <= lib
    ensures Floor(rules, base, ids, cursor) <= lib
    decreases |ids|
  {
    hide Num, Lawful, Stop;
    var rest := ids[1..];
    BranchBack(ids, |ids|);
    if rest == [] {
      assert Floor(rules, base, rest, cursor) == 0;
    } else {
      BranchRest(ids);
      if Replay(rules, base, rest).None? {
        StopRest(rules, base, ids);
      } else {
        OutcomeRises(rules, base, ids);
        if Replay(rules, base, ids).None? {
          StopLast(rules, base, ids);
        }
      }
      FloorLow(rules, base, rest, cursor, lib);
    }
    if Replay(rules, base, rest).Some? && Replay(rules, base, ids).None? {
      StopLast(rules, base, ids);
    }
  }

  lemma BranchRest(ids: seq<BlockId>)
    requires Branch(ids) && |ids| > 1
    ensures Branch(ids[1..]) && Parent(ids[1..]) == Parent(ids)
  {
    forall i, j | 0 <= i && j == i + 1 && j < |ids| - 1
      ensures ids[1..][i].previous == ids[1..][j]
    {
      assert ids[1..][i] == ids[i + 1] && ids[1..][j] == ids[j + 1];
    }
  }

  lemma StopRest(rules: Rules, base: Chain, ids: seq<BlockId>)
    requires ids != [] && Replay(rules, base, ids[1..]).None?
    ensures Replay(rules, base, ids).None? && Stop(rules, base, ids) == Stop(rules, base, ids[1..])
  {
    AppliedReplays(rules, base, ids);
    AppliedReplays(rules, base, ids[1..]);
    var k := Applied(rules, base, ids);
    assert k == Applied(rules, base, ids[1..]);
    assert ids[1..][|ids| - 1 - k..] == ids[|ids| - k..];
  }

  lemma StopLast(rules: Rules, base: Chain, ids: seq<BlockId>)
    requires ids != [] && Replay(rules, base, ids[1..]).Some? && Replay(rules, base, ids).None?
    ensures var d := Replay(rules, base, ids[1..]).value;
      Stop(rules, base, ids) == (|ids| - 1, d, rules.left(d, ids[0])) && rules.apply(d, ids[0]).None?
  {
    AppliedReplays(rules, base, ids);
    assert ids[0..] == ids;
    AppliedHere(rules, base, ids, 1);
  }

  lemma OutcomeRises(rules: Rules, base: Chain, ids: seq<BlockId>)
    requires Lawful(rules) && ids != [] && Replay(rules, base, ids[1..]).Some?
    ensures var d := Replay(rules, base, ids[1..]).value; d.lib <= Outcome(rules, d, ids[0]).lib
  {
    var d := Replay(rules, base, ids[1..]).value;
    if rules.apply(d, ids[0]).None? {
      assert d.lib <= rules.left(d, ids[0]).lib;
    }
  }

  datatype Pushed = Threw | Stored | Extended | Switched

  /** The highest block is on another branch than the head and above it. */
  predicate Switches(c: Chain, newHead: BlockId) {
    newHead.BlockId? && newHead.previous != c.head && Num(newHead) > Num(c.head)
  }

  /** The undo stack and state after a branch on `base` has failed; `trail` are the states applied to. */
  ghost predicate Failed(rules: Rules, before: seq<Chain>, base: Chain, ids: seq<BlockId>, trail: seq<Chain>,
                         undo: seq<Chain>, now: Chain) {
    && Replay(rules, base, ids).None?
    && var (k, c, left) := Stop(rules, base, ids);
       && |trail| == |before| + k && (trail + [c])[..|before| + 1] == before + [base]
       && History(rules, trail + [c]) && Replay(rules, base, ids[|ids| - k..]) == Some(c)
       && if left.lib > Num(c.head) then now == left && undo == []
          else now == c && undo == Commit(trail, left.lib)
  }

  /** What the undo states are good for after a failed switch: the ancestor is found among them exactly if the
      way back is open, and otherwise they end at a replay of a part of the new branch. */
  lemma AwayFrom(rules: Rules, trail: seq<Chain>, c: Chain, first: seq<BlockId>, k: nat, base: Chain, n: nat,
                 depthOld: nat)
    requires Lawful(rules) && Branch(first) && base.head == Parent(first) && History(rules, trail + [c])
    requires Replay(rules, base, first).None? && Stop(rules, base, first).0 == k && Stop(rules, base, first).1 == c
    requires Replay(rules, base, first[|first| - k..]) == Some(c)
    requires |trail| == n + k && (trail + [c])[n] == base
    ensures var left := Stop(rules, base, first).2;
      var undo := Commit(trail, left.lib);
      var j := Stuck(rules, base, first, depthOld);
      && Num(c.head) == Num(base.head) + k
      && (left.lib <= Num(c.head) ==>
            && (forall m {:trigger (undo + [c])[m]} ::
              0 <= m <= |undo| ==> ((undo + [c])[m].head == base.head <==> m == |undo| - k))
            && (Restores(rules, base, first, depthOld) ==>
              |undo| >= k && k <= depthOld && (undo + [c])[|undo| - k] == base)
            && (!Restores(rules, base, first, depthOld) ==>
                  && 0 < j <= k && |undo| - Least(|undo|, depthOld) == |undo| - k + j
                  && Replay(rules, base, first[|first| - j..]) == Some((undo + [c])[|undo| - k + j])))
  {
    hide Num, Back, Lawful, History, Replay, Branch, Commit, Stop;
    var left := Stop(rules, base, first).2;
    ReplayHead(rules, base, first, k);
    if left.lib <= Num(c.head) {
      WayBack(rules, trail, c, first, k, base, left.lib);
      if !Restores(rules, base, first, depthOld) {
        TrailReplays(rules, trail + [c], first, k, Stuck(rules, base, first, depthOld));
      }
    }
  }

  // ----- the database -----

  class Database {
    const rules: Rules
    const forks: ForkDatabase.ForkDb
    var chain: Chain
    var undo: seq<Chain>

    ghost predicate Valid()
      reads this, forks
    {
      && Lawful(rules) && History(rules, undo + [chain]) && forks.Valid()
      && chain.lib <= Num(chain.head) && (undo != [] ==> Num(undo[0].head) >= chain.lib)
    }

    /** How often the fork database can be popped. */
    ghost function Depth(): nat
      reads forks
    {
      if forks.head == null then 0 else ForkDatabase.Depth(ForkDatabase.Held(forks.index), forks.head)
    }

    constructor (rules: Rules, chain: Chain, forks: ForkDatabase.ForkDb)
      requires Lawful(rules) && chain.lib <= Num(chain.head) && forks.Valid()
      ensures Valid() && this.rules == rules && this.chain == chain && undo == [] && this.forks == forks
    {
      this.rules, this.chain, undo, this.forks := rules, chain, [], forks;
    }

    /** Undoes the head block. Without undo history this only moves the fork database's head. */
    method PopBlock() returns (ok: bool)
      requires Valid()
      modifies this`chain, this`undo, forks`head
      ensures Valid()
      ensures ok <==> old(Depth()) > 0
      ensures old(forks.head) != null ==> forks.head != null
      ensures forks.head == if ok then old(forks.head.prev) else old(forks.head)
      ensures ok ==> Depth() == old(Depth()) - 1 && Num(forks.head.id) + 1 == old(Num(forks.head.id))
      ensures var u := old(|undo|);
        if ok && u > 0 then chain == old(undo)[u - 1] && undo == old(undo)[..u - 1]
        else chain == old(chain) && undo == old(undo)
    {
      hide ForkDatabase.Ordered;
      if forks.head != null {
        ForkDatabase.DepthPops(forks.index, forks.head);
      }
      var popped := forks.PopBlock();
      if !popped {
        return false;
      }
      if undo != [] {
        var u := |undo| - 1;
        assert undo == undo[..u] + [undo[u]];
        HistoryPrefix(rules, undo, chain);
        BaseLib(rules, undo, chain, u);
        assert (undo + [chain])[u] == undo[u] && (undo + [chain])[u + 1] == chain;
        chain, undo := undo[u], undo[..u];
      }
      return true;
    }

    /**
     Applies a block in an undo session of its own. What became irreversible is given up even if the block
     then throws; if that includes the session itself, the half-applied block stays. The fork database is trimmed
     if the block comes to that.
     */
    method ApplyBlock(b: BlockId) returns (ok: bool)
      requires Valid() && forks.head != null
      modifies this`chain, this`undo, forks`index, forks`maxSize
      ensures Valid()
      ensures forall y {:trigger y in forks.index} :: y in forks.index <==>
        && y in old(forks.index)
        && (Trims(rules, old(chain), b) ==>
          Num(y.id) >= Bound(Num(forks.head.id), b, Outcome(rules, old(chain), b).lib))
      ensures ok <==> rules.apply(old(chain), b).Some?
      ensures ok ==> rules.apply(old(chain), b) == Some(chain) && undo == Commit(old(undo + [chain]), chain.lib)
      ensures !ok ==> var left := rules.left(old(chain), b);
        if left.lib > Num(old(chain.head)) then chain == left && undo == []
        else chain == old(chain) && undo == Commit(old(undo), left.lib)
    {
      hide Num, Commit, ForkDatabase.Ordered;
      var c := rules.apply(chain, b);
      var d := Outcome(rules, chain, b);
      ghost var all := undo + [chain];
      Committed(rules, undo, chain, d.lib);
      undo := Commit(undo + [chain], d.lib);
      if Trims(rules, chain, b) {
        TrimsOnHead(rules, chain, b);
        forks.SetMaxSize(Num(b) - d.lib + 1);
      }
      if c.Some? {
        chain := d;
        CommittedApplied(rules, all, chain);
        return true;
      }
      if undo == [] {
        chain := d;
        SameNumbers(rules, all[|all| - 1], b);
      } else {
        chain := undo[|undo| - 1];
        undo := undo[..|undo| - 1];
      }
      return false;
    }

    /** Pops until the head is `target`, or until nothing can be popped any more. */
    method PopTo(target: BlockId) returns (ok: bool)
      requires Valid() && forks.head != null
      modifies this`chain, this`undo, forks`head
      ensures Valid() && forks.head != null
      ensures var u, all := old(|undo|), old(undo + [chain]);
        var bottom := u - Least(u, old(Depth()));
        if ok then exists m :: bottom <= m <= u && all[m].head == target && chain == all[m] && undo == all[..m]
                             && Num(forks.head.id) + u - m == old(Num(forks.head.id))
        else chain == all[bottom] && forall m {:trigger all[m]} :: bottom <= m <= u ==> all[m].head != target
    {
      hide Num, Lawful, History, ForkDatabase.Ordered, ForkDatabase.Depth;
      ghost var u, all := |undo|, undo + [chain];
      ghost var m, p := u, 0;
      while chain.head != target
        invariant Valid() && forks.head != null && 0 <= p && p + Depth() == old(Depth()) && m == u - Least(u, p)
        invariant Num(forks.head.id) + p == old(Num(forks.head.id)) && (p > u ==> all[0].head != target)
        invariant chain == all[m] && undo == all[..m]
        invariant forall i {:trigger all[i]} :: m < i <= u ==> all[i].head != target
        decreases Depth()
      {
        var popped := PopBlock();
        if !popped {
          return false;
        }
        p := p + 1;
        m := u - Least(u, p);
      }
      return true;
    }

    /** Applies a branch up to the first block that throws; `rest` blocks are then left, and `trail` are the states
        that were applied to. */
    method ApplyBranch(ids: seq<BlockId>) returns (ok: bool, rest: nat, ghost trail: seq<Chain>)
      requires Valid() && forks.head != null
      modifies this`chain, this`undo, forks`index, forks`maxSize
      ensures Valid()
      ensures ok <==> Replay(rules, old(chain), ids).Some?
      ensures ok ==> Replay(rules, old(chain), ids) == Some(chain)
      ensures !ok ==> Failed(rules, old(undo), old(chain), ids, trail, undo, chain)
      ensures !ok ==> rest == |ids| - Stop(rules, old(chain), ids).0
      ensures forall y {:trigger y in forks.index} :: y in forks.index <==>
        y in old(forks.index) && Num(y.id) >= Floor(rules, old(chain), ids, Num(forks.head.id))
    {
      hide Applied, Replay, History, Commit, Num, ForkDatabase.Ordered, Floor, Bound;
      AppliedReplays(rules, chain, ids);
      var i := |ids|;
      trail := undo;
      ReplayNothing(rules, chain, ids);
      FloorNothing(rules, chain, ids, Num(forks.head.id));
      NothingGiven(undo, chain.lib);
      while i > 0
        invariant 0 <= i <= |ids| && Valid()
        invariant Replay(rules, old(chain), ids[i..]) == Some(chain)
        invariant |trail| == old(|undo|) + |ids| - i && (trail + [chain])[..old(|undo|) + 1] == old(undo + [chain])
        invariant History(rules, trail + [chain])
        invariant undo == Commit(trail, chain.lib)
        invariant forall y {:trigger y in forks.index} :: y in forks.index <==>
          y in old(forks.index) && Num(y.id) >= Floor(rules, old(chain), ids[i..], Num(forks.head.id))
      {
        ghost var c := chain;
        ReplayStep(rules, old(chain), ids, i);
        FloorStep(rules, old(chain), ids, i, Num(forks.head.id));
        var applied := ApplyBlock(ids[i - 1]);
        if !applied {
          AppliedHere(rules, old(chain), ids, i);
          CommitTwice(trail, c.lib, rules.left(c, ids[i - 1]).lib);
          FloorStays(rules, old(chain), ids, i - 1, Num(forks.head.id));
          return false, i, trail;
        }
        CommitAgain(rules, trail, c, c.lib, chain.lib);
        HistoryGrows(rules, trail + [c], chain);
        trail := trail + [c];
        i := i - 1;
      }
      assert ids[0..] == ids;
      return true, 0, trail;
    }

    /**
     Leaves the branch `ys` for the branch `xs`. Where this ends depends on the rules, the undo history and the fork
     database: how often it can be popped, and how often it can be popped from the old head after the new
     branch has failed.
     */
    method SwitchForks(xs: seq<ForkDatabase.ForkItem>, ys: seq<ForkDatabase.ForkItem>) returns (ok: bool)
      requires Valid() && forks.head != null && Fork(Ids(xs), Ids(ys)) && ys[0].id == chain.head
        && ForkDatabase.Linked(ys[0])
      requires |ys| <= Num(forks.head.id)
      modifies this`chain, this`undo, forks`index, forks`head, forks`maxSize
      ensures Valid()
      ensures var depthOld := DepthOld(rules, old(undo), Ids(xs), |ys|, old(forks.index), old(forks.head.id), ys[0]);
        Ends(rules, old(undo), old(chain), Ids(xs), Ids(ys), old(Depth()), depthOld, ok, chain)
      ensures ok ==>
        && |ys| <= old(|undo|)
        && ForkDatabase.Held(forks.index)
          == Untrimmed(rules, old(undo)[old(|undo|) - |ys|], Ids(xs), old(Num(forks.head.id)) - |ys|, old(forks.index))
    {
      hide Num, Back, Lawful, History, Commit, Given, Replay, Stop, ForkDatabase.Ordered, Floor, ForkDatabase.Depth,
        Ids;
      ghost var all, first, second := undo + [chain], Ids(xs), Ids(ys);
      ghost var n := |undo| - |ys|;
      SecondPlace(rules, all, second);
      assert n >= 0 ==> all[n].head == Parent(second);
      var reached := PopTo(ys[|ys| - 1].id.previous);
      if !reached {
        return false;
      }
      ghost var before, base := undo, chain;
      ghost var trail;
      var rest;
      ok, rest, trail := ApplyBranch(Ids(xs));
      if !ok {
        ghost var index := forks.index;
        RemoveBranch(xs, rest);
        forks.SetHead(ys[0]);
        assert ForkDatabase.Held(forks.index)
          == Remaining(rules, old(forks.index), base, first, old(Num(forks.head.id)) - |ys|);
        Recover(Ids(xs), Ids(ys), all, before, trail);
      }
    }

    /** Removes the block that threw and those on it. */
    method RemoveBranch(xs: seq<ForkDatabase.ForkItem>, rest: nat)
      requires forks.Valid() && rest <= |xs|
      modifies forks`index
      ensures forks.Valid()
      ensures forall y {:trigger y in forks.index} ::
        y in forks.index <==> y in old(forks.index) && y.id !in Ids(xs)[..rest]
    {
      hide ForkDatabase.Ordered, Num;
      var i := rest;
      while i > 0
        invariant 0 <= i <= rest && forks.Valid()
        invariant forall y {:trigger y in forks.index} :: y in forks.index <==>
          y in old(forks.index) && y.id !in Ids(xs)[i..rest]
      {
        i := i - 1;
        forks.Remove(xs[i].id);
        assert Ids(xs)[i..rest] == [xs[i].id] + Ids(xs)[i + 1..rest];
      }
      assert Ids(xs)[0..rest] == Ids(xs)[..rest];
    }

    /** The error path of a switch: back to the ancestor, if it is reached, and the old branch again. */
    method Recover(first: seq<BlockId>, second: seq<BlockId>, ghost all: seq<Chain>, ghost before: seq<Chain>,
                   ghost trail: seq<Chain>)
      requires Valid() && forks.head != null && Fork(first, second) && History(rules, all) && |all| > |second|
        && second[0] == all[|all| - 1].head
      requires var base := all[|all| - 1 - |second|];
        base.head == Parent(first) && Failed(rules, before, base, first, trail, undo, chain)
      modifies this`chain, this`undo, forks`index, forks`head, forks`maxSize
      ensures Valid()
      ensures var base := all[|all| - 1 - |second|];
        var (k, c, left) := Stop(rules, base, first);
        var j := Stuck(rules, base, first, old(Depth()));
        if Restores(rules, base, first, old(Depth())) then chain == all[|all| - 1]
        else if left.lib > Num(c.head) then chain == left
        else 0 < j <= k && Replay(rules, base, first[|first| - j..]) == Some(chain)
    {
      hide Num, Back, Lawful, History, Commit, Given, Replay, Stop, ForkDatabase.Ordered, Floor;
      ghost var base := all[|all| - 1 - |second|];
      ghost var (k, c, left) := Stop(rules, base, first);
      AwayFrom(rules, trail, c, first, k, base, |before|, Depth());
      var reached := PopTo(second[|second| - 1].previous);
      if reached {
        SecondIsHistory(rules, all, second);
        var ok, rest;
        ghost var again;
        ok, rest, again := ApplyBranch(second);
      }
    }

    /** The rest of pushing a block, after the fork database has taken it and given its head x: the chain is extended,
        left alone or switched. */
    method FollowHead(b: BlockId, x: ForkDatabase.ForkItem)
      returns (r: Pushed, ghost xs: seq<ForkDatabase.ForkItem>, ghost ys: seq<ForkDatabase.ForkItem>)
      requires Valid() && x == forks.head
      modifies this`chain, this`undo, forks`index, forks`head, forks`maxSize
      ensures Valid()
      ensures Follows(rules, old(undo), old(chain), b, old(forks.index), x, xs, ys, r, chain)
      ensures HeldAfter(rules, old(undo), old(chain), b, old(forks.index), x, xs, ys, r, forks.index)
      ensures Switches(old(chain), x.id) && xs == [] ==>
        forall us, vs {:trigger Found(old(forks.index), x, old(chain.head), us, vs)} ::
          !Found(old(forks.index), x, old(chain.head), us, vs)
    {
      hide Num, Replay, Lawful, History, Ends, AllOrNothing, Settles, DepthOld, ForkDatabase.Ordered,
        ForkDatabase.Depth;
      HeadIsBlock(forks);
      if x.id.previous != chain.head {
        if Num(x.id) > Num(chain.head) {
          var branches := forks.FetchBranchFrom(x.id, chain.head);
          if branches.None? {
            NoneFound(forks, x, chain.head);
            return Threw, [], [];
          }
          ghost var u, c, index := undo, chain, forks.index;
          xs, ys := branches.value.0, branches.value.1;
          ForkFound(forks, x, chain.head, xs, ys);
          ghost var depthOld := DepthOld(rules, undo, Ids(xs), |ys|, forks.index, x.id, ys[0]);
          ghost var depthNew := Depth();
          var ok := SwitchForks(branches.value.0, branches.value.1);
          AllOrNothingIff(rules, u, c, Ids(xs), Ids(ys), depthNew, depthOld, ok, chain);
          if |xs| == |ys| + 1 {
            Overtaken(rules, u, c, index, x, xs, ys, depthNew);
          }
          return if ok then Switched else Threw, xs, ys;
        }
        return Stored, [], [];
      }
      var applied := ApplyBlock(b);
      ExtendsSo(rules, old(chain), b, chain);
      if !applied {
        forks.Remove(b);
      }
      return if applied then Extended else Threw, [], [];
    }

    /** Takes a new block: the fork database refuses it, or stores it and gives its head x. */
    method PushBlock(b: BlockId)
      returns (r: Pushed, ghost index: seq<ForkDatabase.ForkItem>, ghost x: ForkDatabase.ForkItem?,
               ghost xs: seq<ForkDatabase.ForkItem>, ghost ys: seq<ForkDatabase.ForkItem>)
      requires Valid() && b.BlockId?
      modifies this`chain, this`undo, forks`index, forks`head, forks`maxSize
      ensures Valid()
      ensures x == null <==> old(forks.Refuses(b))
      ensures x == null ==> r == Threw && chain == old(chain)
      ensures x != null ==> ForkDatabase.Grown(old(forks.index), old(forks.head), b, index, x)
      ensures x != null ==> ForkDatabase.Ordered(index) && ForkDatabase.WellFormed(ForkDatabase.AliveIn(index, x))
      ensures x != null ==> Follows(rules, old(undo), old(chain), b, index, x, xs, ys, r, chain)
      ensures x == null ==> forks.index == old(forks.index)
      ensures x != null ==> HeldAfter(rules, old(undo), old(chain), b, index, x, xs, ys, r, forks.index)
      ensures x != null && Switches(old(chain), x.id) && xs == [] ==>
        forall us, vs {:trigger Found(index, x, old(chain.head), us, vs)} :: !Found(index, x, old(chain.head), us, vs)
    {
      hide Follows, HeldAfter, ForkDatabase.Ordered, Lawful, History, Num;
      var head := forks.PushBlock(b);
      index, x := forks.index, head;
      if head == null {
        return Threw, index, x, [], [];
      }
      r, xs, ys := FollowHead(b, head);
    }
  }

  /** The branches from the block of x and the chain's head to the nearest blocks with one parent. */
  ghost predicate Found(index: seq<ForkDatabase.ForkItem>, x: ForkDatabase.ForkItem, head: BlockId,
                        xs: seq<ForkDatabase.ForkItem>, ys: seq<ForkDatabase.ForkItem>) {
    && xs != [] && ys != []
    && ForkDatabase.Path(ForkDatabase.AliveIn(index, x), xs) && ForkDatabase.Path(ForkDatabase.AliveIn(index, x), ys)
    && xs[0] in index && xs[0].id == x.id && ys[0] in index && ys[0].id == head
    && ForkDatabase.SameParent(ForkDatabase.Last(xs), ForkDatabase.Last(ys)) && ForkDatabase.Nearest(xs, ys)
  }

  /**
   What becomes of the chain when the fork database's head is x after a block b: extended; unchanged if x is not above
   the head or there are no branches; and otherwise switched along them, exactly as far as the rules, the undo
   history and the fork database allow.
   */
  ghost predicate Follows(rules: Rules, undo: seq<Chain>, c: Chain, b: BlockId, index: seq<ForkDatabase.ForkItem>,
                          x: ForkDatabase.ForkItem, xs: seq<ForkDatabase.ForkItem>, ys: seq<ForkDatabase.ForkItem>,
                          r: Pushed, now: Chain) {
    if x.id.NoBlock? then false
    else if x.id.previous == c.head then Extends(rules, c, b, r, now)
    else if Num(x.id) <= Num(c.head) then r == Stored && now == c
    else if xs == [] then r == Threw && now == c
    else
      && Found(index, x, c.head, xs, ys) && |ys| < |xs| && |ys| <= Num(x.id)
      && SwitchedAs(rules, undo, c, index, x, xs, ys, r, now)
  }

  /** What is left of an index when a branch has been applied. */
  ghost function Untrimmed(rules: Rules, base: Chain, ids: seq<BlockId>, cursor: nat, index: seq<ForkDatabase.ForkItem>)
    : set<ForkDatabase.ForkItem>
  {
    set y | y in index && Num(y.id) >= Floor(rules, base, ids, cursor)
  }

  /** What the fork database holds in the end: after a block on the head all that is not trimmed, without the block if
      it threw; after a switch all that is not trimmed; and everything if there was nothing to apply. */
  ghost predicate HeldAfter(rules: Rules, undo: seq<Chain>, c: Chain, b: BlockId, index: seq<ForkDatabase.ForkItem>,
                            x: ForkDatabase.ForkItem, xs: seq<ForkDatabase.ForkItem>, ys: seq<ForkDatabase.ForkItem>,
                            r: Pushed, now: seq<ForkDatabase.ForkItem>) {
    if x.id.NoBlock? then false
    else if x.id.previous == c.head then
      ForkDatabase.Held(now) == set y | y in index
        && (Trims(rules, c, b) ==> Num(y.id) >= Bound(Num(x.id), b, Outcome(rules, c, b).lib))
        && (rules.apply(c, b).None? ==> y.id != b)
    else if xs == [] then now == index
    else r == Switched ==>
      && 0 < |ys| <= |undo| && |ys| <= Num(x.id)
      && ForkDatabase.Held(now) == Untrimmed(rules, undo[|undo| - |ys|], Ids(xs), Num(x.id) - |ys|, index)
  }

  ghost predicate SwitchedAs(rules: Rules, undo: seq<Chain>, c: Chain, index: seq<ForkDatabase.ForkItem>,
                             x: ForkDatabase.ForkItem, xs: seq<ForkDatabase.ForkItem>, ys: seq<ForkDatabase.ForkItem>,
                             r: Pushed, now: Chain)
    requires ys != [] && |ys| <= Num(x.id)
  {
    var depthNew := ForkDatabase.Depth(ForkDatabase.Held(index), x);
    var depthOld := DepthOld(rules, undo, Ids(xs), |ys|, index, x.id, ys[0]);
    && (r == Switched || r == Threw)
    && Ends(rules, undo, c, Ids(xs), Ids(ys), depthNew, depthOld, r == Switched, now)
    && (r == Switched || now == c <==> AllOrNothing(rules, undo, Ids(xs), Ids(ys), depthNew, depthOld))
    && (|xs| == |ys| + 1 ==>
          (r == Switched || now == c <==>
             Settles(rules, undo, Ids(xs), Ids(ys), depthNew,
                     ForkDatabase.Last(ys).prev != null && ForkDatabase.Last(ys).prev in index)))
  }

  /** A plain extension: the block applies, or the state is as before, exactly unless the throwing block has
      made itself irreversible; then it stays half-applied. */
  ghost predicate Extends(rules: Rules, c: Chain, b: BlockId, r: Pushed, now: Chain) {
    if rules.apply(c, b).Some? then r == Extended && rules.apply(c, b) == Some(now)
    else
      && r == Threw
      && (now == c <==> rules.left(c, b).lib <= Num(c.head))
      && (now != c ==> now == rules.left(c, b))
  }

  lemma ExtendsSo(rules: Rules, c: Chain, b: BlockId, now: Chain)
    requires Lawful(rules) && c.lib <= Num(c.head)
    requires rules.apply(c, b) == Some(now)
      || (rules.apply(c, b).None? && now == if rules.left(c, b).lib > Num(c.head) then rules.left(c, b) else c)
    ensures Extends(rules, c, b, if rules.apply(c, b).Some? then Extended else Threw, now)
  {}

  lemma TrimsOnHead(rules: Rules, c: Chain, b: BlockId)
    requires Lawful(rules) && c.lib <= Num(c.head) && Trims(rules, c, b)
    ensures Outcome(rules, c, b).lib <= Num(b)
  {}

  lemma FloorNothing(rules: Rules, c: Chain, ids: seq<BlockId>, cursor: nat)
    ensures Floor(rules, c, ids[|ids|..], cursor) == 0
  {}

  lemma FloorStep(rules: Rules, c: Chain, ids: seq<BlockId>, i: nat, cursor: nat)
    requires 0 < i <= |ids| && Replay(rules, c, ids[i..]).Some?
    ensures var d := Replay(rules, c, ids[i..]).value;
      Floor(rules, c, ids[i - 1..], cursor) == if !Trims(rules, d, ids[i - 1]) then Floor(rules, c, ids[i..], cursor)
        else ForkDatabase.Greatest(Floor(rules, c, ids[i..], cursor),
          Bound(cursor, ids[i - 1], Outcome(rules, d, ids[i - 1]).lib))
  {
    hide Bound;
    assert ids[i - 1..][1..] == ids[i..];
  }

  /** Blocks after one that throws trim nothing. */
  lemma {:induction false} FloorStays(rules: Rules, c: Chain, ids: seq<BlockId>, i: nat, cursor: nat)
    requires i < |ids| && Replay(rules, c, ids[i..]).None?
    ensures Floor(rules, c, ids, cursor) == Floor(rules, c, ids[i..], cursor) && Replay(rules, c, ids).None?
    decreases i
  {
    hide Bound;
    assert ids[0..] == ids;
    if i > 0 {
      assert ids[1..][i - 1..] == ids[i..];
      FloorStays(rules, c, ids[1..], i - 1, cursor);
    }
  }

  lemma HeadIsBlock(forks: ForkDatabase.ForkDb)
    requires forks.Valid() && forks.head != null
    ensures forks.head.id.BlockId? && ForkDatabase.WellFormed(forks.Alive())
  {}

  lemma ForkFound(forks: ForkDatabase.ForkDb, x: ForkDatabase.ForkItem, b: BlockId, xs: seq<ForkDatabase.ForkItem>,
                  ys: seq<ForkDatabase.ForkItem>)
    requires forks.Valid() && forks.head == x && Num(x.id) > Num(b)
    requires exists u, v ::
      forks.Known(x.id, u) && forks.Known(b, v) && ForkDatabase.Meet(forks.Alive(), u, v, xs, ys)
        && ForkDatabase.Nearest(xs, ys)
    ensures Fork(Ids(xs), Ids(ys)) && Found(forks.index, x, b, xs, ys) && |xs| > |ys| > 0 && |ys| <= Num(x.id)
    ensures ForkDatabase.Linked(ys[0])
  {
    hide Num, Ids, ForkDatabase.Nearest;
    var u, v :| forks.Known(x.id, u) && forks.Known(b, v) && ForkDatabase.Meet(forks.Alive(), u, v, xs, ys)
                && ForkDatabase.Nearest(xs, ys);
    MeetIsFork(forks.Alive(), u, v, xs, ys);
    Longer(xs, ys);
    ForkDatabase.PathIds(forks.Alive(), xs, |xs| - 1);
  }

  /** There is at most one such pair of branches. */
  lemma FoundOnce(index: seq<ForkDatabase.ForkItem>, x: ForkDatabase.ForkItem, head: BlockId,
                  xs: seq<ForkDatabase.ForkItem>, ys: seq<ForkDatabase.ForkItem>,
                  us: seq<ForkDatabase.ForkItem>, vs: seq<ForkDatabase.ForkItem>)
    requires ForkDatabase.Ordered(index) && ForkDatabase.WellFormed(ForkDatabase.AliveIn(index, x))
    requires Found(index, x, head, xs, ys) && Found(index, x, head, us, vs)
    ensures xs == us && ys == vs
  {
    hide Num, Back, ForkDatabase.Nearest, ForkDatabase.Ordered;
    var alive := ForkDatabase.AliveIn(index, x);
    ForkDatabase.UniqueIds(index);
    PathItems(alive, xs);
    PathItems(alive, ys);
    PathItems(alive, us);
    PathItems(alive, vs);
    SameNumber(ForkDatabase.Last(xs).id, ForkDatabase.Last(ys).id);
    SameNumber(ForkDatabase.Last(us).id, ForkDatabase.Last(vs).id);
    if |us| <= |xs| {
      NotShorter(alive, xs, ys, us, vs);
    } else {
      NotShorter(alive, us, vs, xs, ys);
    }
  }

  lemma NotShorter(alive: ForkDatabase.Alive, xs: seq<ForkDatabase.ForkItem>, ys: seq<ForkDatabase.ForkItem>,
                   us: seq<ForkDatabase.ForkItem>, vs: seq<ForkDatabase.ForkItem>)
    requires ForkDatabase.Path(alive, xs) && ForkDatabase.Path(alive, ys) && ForkDatabase.Nearest(xs, ys)
    requires ForkDatabase.Path(alive, us) && ForkDatabase.Path(alive, vs)
    requires ForkDatabase.SameParent(ForkDatabase.Last(us), ForkDatabase.Last(vs))
    requires us[0] == xs[0] && vs[0] == ys[0] && |us| <= |xs| && |vs| - |us| == |ys| - |xs|
    ensures xs == us && ys == vs
  {
    hide ForkDatabase.SameParent;
    forall i | 0 <= i < |us|
      ensures xs[i] == us[i]
    {
      ForkDatabase.PathsAgree(alive, xs, us, i);
    }
    forall i | 0 <= i < |vs|
      ensures ys[i] == vs[i]
    {
      ForkDatabase.PathsAgree(alive, ys, vs, i);
    }
    assert ForkDatabase.SameParent(xs[|us| - 1], ys[|vs| - 1]);
  }

  /** If the head is the first block of the new branch, the fork database can be popped along that branch. */
  lemma HeadPops(index: seq<ForkDatabase.ForkItem>, x: ForkDatabase.ForkItem, xs: seq<ForkDatabase.ForkItem>)
    requires ForkDatabase.WellFormed(ForkDatabase.AliveIn(index, x))
    requires ForkDatabase.Path(ForkDatabase.AliveIn(index, x), xs) && xs[0] == x
    ensures ForkDatabase.Depth(ForkDatabase.Held(index), x) >= |xs| - 1
  {
    hide Num, Back, ForkDatabase.Depth;
    var alive := ForkDatabase.AliveIn(index, x);
    forall i | 0 <= i < |xs|
      ensures ForkDatabase.Linked(xs[i]) && (i > 0 ==> xs[i] in index)
    {
      assert xs[i] in alive;
      ForkDatabase.PathIds(alive, xs, i);
    }
    assert forall y {:trigger y in index} :: y in index ==> y in alive;
    ForkDatabase.DepthAlong(ForkDatabase.Held(index), xs);
  }

  /** After a failed switch the old branch is still held as far as it is not trimmed, and the depth is its length less
      one, or more exactly if the ancestor is held. */
  lemma OldDepth(rules: Rules, undo: seq<Chain>, index: seq<ForkDatabase.ForkItem>, x: ForkDatabase.ForkItem,
                 xs: seq<ForkDatabase.ForkItem>, ys: seq<ForkDatabase.ForkItem>, head: BlockId)
    requires ForkDatabase.WellFormed(ForkDatabase.AliveIn(index, x)) && Found(index, x, head, xs, ys)
    requires |xs| > |ys| && |ys| <= |undo| && |ys| <= Num(x.id)
    requires var base := undo[|undo| - |ys|];
      && Replay(rules, base, Ids(xs)).None?
      && Floor(rules, base, Ids(xs), Num(x.id) - |ys|) <= Num(ForkDatabase.Last(ys).id)
    ensures var depth := DepthOld(rules, undo, Ids(xs), |ys|, index, x.id, ys[0]);
      var floor := Floor(rules, undo[|undo| - |ys|], Ids(xs), Num(x.id) - |ys|);
      var ancestor := ForkDatabase.Last(ys).prev;
      && depth + 1 >= |ys|
      && (depth >= |ys| <==> ancestor != null && ancestor in index && Num(ancestor.id) >= floor)
  {
    hide Num, Back, ForkDatabase.Depth, Floor, Replay, Stop, ForkDatabase.Nearest, ForkDatabase.Path;
    var alive := ForkDatabase.AliveIn(index, x);
    var held := Remaining(rules, index, undo[|undo| - |ys|], Ids(xs), Num(x.id) - |ys|);
    assert forall y {:trigger y in held} :: y in held ==> y in alive;
    PathItems(alive, xs);
    PathItems(alive, ys);
    SameNumber(ForkDatabase.Last(xs).id, ForkDatabase.Last(ys).id);
    forall i | 0 < i < |ys|
      ensures ys[i] in held
    {
      assert ys[i] != x;
      NotOnFirst(alive, xs, ys, i);
    }
    var ancestor := ForkDatabase.Last(ys).prev;
    if ancestor != null && ancestor in index {
      assert ancestor in alive;
      AncestorNotOn(xs, ForkDatabase.Last(ys), ancestor);
    }
    ForkDatabase.DepthAlong(held, ys);
  }

  lemma PathItems(alive: ForkDatabase.Alive, xs: seq<ForkDatabase.ForkItem>)
    requires ForkDatabase.WellFormed(alive) && ForkDatabase.Path(alive, xs)
    ensures forall i {:trigger xs[i]} :: 0 <= i < |xs| ==>
      xs[i] in alive && ForkDatabase.Linked(xs[i]) && Num(xs[i].id) + i == Num(xs[0].id)
    ensures forall i, j {:trigger xs[i], xs[j]} :: 0 <= i && j == i + 1 && j < |xs| ==> xs[i].prev == xs[j]
  {
    hide Num, Back;
    forall i | 0 <= i < |xs|
      ensures xs[i] in alive && Num(xs[i].id) + i == Num(xs[0].id)
    {
      ForkDatabase.PathIds(alive, xs, i);
    }
  }

  lemma NotOnFirst(alive: ForkDatabase.Alive, xs: seq<ForkDatabase.ForkItem>, ys: seq<ForkDatabase.ForkItem>, i: nat)
    requires ForkDatabase.WellFormed(alive) && 0 < i < |ys| < |xs|
    requires ForkDatabase.Path(alive, xs) && ForkDatabase.Path(alive, ys) && ForkDatabase.Nearest(xs, ys)
    requires ForkDatabase.SameParent(ForkDatabase.Last(xs), ForkDatabase.Last(ys))
    ensures ys[i].id !in Ids(xs)
  {
    hide Num, Back, ForkDatabase.Nearest;
    if ys[i].id in Ids(xs) {
      var j :| 0 <= j < |xs| && Ids(xs)[j] == ys[i].id;
      ForkDatabase.SharedBlockIsArgument(alive, xs[0], ys[0], xs, ys, j, i);
    }
  }

  lemma AncestorNotOn(xs: seq<ForkDatabase.ForkItem>, y: ForkDatabase.ForkItem, ancestor: ForkDatabase.ForkItem)
    requires xs != [] && ForkDatabase.SameParent(ForkDatabase.Last(xs), y) && ForkDatabase.Linked(y)
      && y.prev == ancestor
    requires forall i {:trigger xs[i]} :: 0 <= i < |xs| ==> Num(xs[i].id) + i == Num(xs[0].id)
    ensures ancestor.id !in Ids(xs) && Num(ancestor.id) + 1 == Num(y.id)
  {}

  /** For a branch one block longer the exact condition. */
  lemma Overtaken(rules: Rules, undo: seq<Chain>, c: Chain, index: seq<ForkDatabase.ForkItem>, x: ForkDatabase.ForkItem,
                  xs: seq<ForkDatabase.ForkItem>, ys: seq<ForkDatabase.ForkItem>, depthNew: nat)
    requires Lawful(rules) && History(rules, undo + [c])
    requires ForkDatabase.WellFormed(ForkDatabase.AliveIn(index, x)) && Found(index, x, c.head, xs, ys)
    requires Fork(Ids(xs), Ids(ys)) && |xs| == |ys| + 1 && |ys| <= Num(x.id) && x.id.BlockId? && x.id.previous != c.head
    ensures AllOrNothing(rules, undo, Ids(xs), Ids(ys), depthNew,
      DepthOld(rules, undo, Ids(xs), |ys|, index, x.id, ys[0]))
      <==> Settles(rules, undo, Ids(xs), Ids(ys), depthNew, ForkDatabase.Last(ys).prev != null
        && ForkDatabase.Last(ys).prev in index)
  {
    hide Num, Back, ForkDatabase.Depth, Floor, Replay, Stop, ForkDatabase.Nearest, ForkDatabase.Path, Lawful, History,
      AllOrNothing, Settles, DepthOld, Ids;
    var alive, first, second := ForkDatabase.AliveIn(index, x), Ids(xs), Ids(ys);
    var last, depthOld := ForkDatabase.Last(ys), DepthOld(rules, undo, first, |ys|, index, x.id, ys[0]);
    if |ys| <= |undo| {
      var base := undo[|undo| - |ys|];
      assert (undo + [c])[|undo| - |ys|] == base;
      SecondPlace(rules, undo + [c], second);
      if Replay(rules, base, first).None? && Stop(rules, base, first).2.lib <= Num(base.head) {
        BranchBack(first, |first|);
        BranchBack(second, |second| - 1);
        BranchBack(second, |second|);
        FloorLow(rules, base, first, Num(x.id) - |ys|, Num(base.head));
        OldDepth(rules, undo, index, x, xs, ys, c.head);
        PathItems(alive, ys);
      }
    }
    SettlesIff(rules, undo, first, second, depthNew, depthOld, last.prev != null && last.prev in index);
  }

  lemma NoneFound(forks: ForkDatabase.ForkDb, x: ForkDatabase.ForkItem, b: BlockId)
    requires forks.Valid() && forks.head == x
    requires forall u, v, xs, ys {:trigger ForkDatabase.Meet(forks.Alive(), u, v, xs, ys)} ::
      forks.Known(x.id, u) && forks.Known(b, v) ==> !ForkDatabase.Meet(forks.Alive(), u, v, xs, ys)
    ensures forall xs, ys {:trigger Found(forks.index, x, b, xs, ys)} :: !Found(forks.index, x, b, xs, ys)
  {
    hide ForkDatabase.Nearest, ForkDatabase.SameParent, ForkDatabase.Path, Num, ForkDatabase.Ordered;
    forall xs, ys
      ensures !Found(forks.index, x, b, xs, ys)
    {
      if Found(forks.index, x, b, xs, ys) {
        FoundMeets(forks, x, b, xs, ys);
      }
    }
  }

  lemma FoundMeets(forks: ForkDatabase.ForkDb, x: ForkDatabase.ForkItem, b: BlockId,
                   xs: seq<ForkDatabase.ForkItem>, ys: seq<ForkDatabase.ForkItem>)
    requires forks.head == x && Found(forks.index, x, b, xs, ys)
    ensures xs != [] && ys != [] && forks.Known(x.id, xs[0]) && forks.Known(b, ys[0])
    ensures ForkDatabase.Meet(forks.Alive(), xs[0], ys[0], xs, ys)
  {
    hide ForkDatabase.Nearest, ForkDatabase.SameParent, ForkDatabase.Path;
  }

  lemma Longer(xs: seq<ForkDatabase.ForkItem>, ys: seq<ForkDatabase.ForkItem>)
    requires Fork(Ids(xs), Ids(ys))
    ensures |xs| > |ys|
  {}
}
