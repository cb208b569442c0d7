/**
 Irreversible blocks go into the block log. The node finds them by number in the fork database, whose head is the
 block being applied, or an ancestor of it while the node switches forks.
 */
module IrreversibleLog {
  import opened ChainTypes
  import opened BlockIds
  import opened ForkDatabase
  import opened Irreversible
  import opened LogRuns

  // ----- what is found -----

  /** The ancestor of the head with number n is in the index, and linked to the head. */
  ghost predicate Retains(index: seq<ForkItem>, head: ForkItem, n: nat) {
    n <= Num(head.id) && Ancestor(AliveIn(index, head), head, n) in index
  }

  /** The head's ancestor with number n. */
  ghost predicate IsAncestor(head: BlockId, n: nat, id: BlockId) {
    n <= Num(head) && id == Back(head, Num(head) - n)
  }

  /** From index `first` on, the list holds the ancestors of the head, number i + 1 at index i. */
  ghost predicate OnBranch(head: BlockId, log: seq<BlockId>, first: nat) {
    forall i {:trigger log[i]} :: first <= i < |log| ==> IsAncestor(head, i + 1, log[i])
  }

  /** The fork database finds this block for number n. */
  ghost predicate Finds(index: seq<ForkItem>, head: ForkItem, n: nat, id: BlockId) {
    OnMain(index, head, n) != null && OnMain(index, head, n).id == id
  }

  /** From index `first` on, the list holds what the fork database finds for each number. */
  ghost predicate Found(index: seq<ForkItem>, head: ForkItem, log: seq<BlockId>, first: nat) {
    forall i {:trigger log[i]} :: first <= i < |log| ==> Finds(index, head, i + 1, log[i])
  }

  lemma FoundMore(index: seq<ForkItem>, head: ForkItem, log: seq<BlockId>, first: nat, id: BlockId)
    requires Found(index, head, log, first) && Finds(index, head, |log| + 1, id)
    ensures Found(index, head, log + [id], first)
  {
    hide Finds;
  }

  /** What is found for retained numbers are the head's ancestors. */
  lemma RetainedIsFound(index: seq<ForkItem>, head: ForkItem, n: nat)
    requires WellFormed(AliveIn(index, head)) && Retains(index, head, n)
    ensures OnMain(index, head, n) != null && IsAncestor(head.id, n, OnMain(index, head, n).id)
  {
    hide Num, Back;
    RetainedOnMain(index, head, n);
    ReachIds(AliveIn(index, head), head, Num(head.id) - n);
  }

  // ----- what the fork database keeps -----

  /** Every block that lies at least two numbers above the log is linked to a parent in the index. */
  ghost predicate Linking(index: seq<ForkItem>, logged: nat) {
    forall y {:trigger y in index} :: y in index && Num(y.id) > logged + 1 ==> y.prev in index
  }

  /** So all ancestors above the log are retained. */
  lemma {:induction false} LinkedReach(index: seq<ForkItem>, alive: Alive, x: ForkItem, logged: nat, k: nat)
    requires Linking(index, logged) && x in index
      && (forall y {:trigger y in index} :: y in index ==> Linked(y) && y in alive)
    requires logged + k < Num(x.id)
    ensures Reach(alive, x, k) in index
    decreases k
  {
    if k > 0 {
      assert x.prev in index;
      LinkedReach(index, alive, x.prev, logged, k - 1);
    }
  }

  lemma LinkedRetains(index: seq<ForkItem>, x: ForkItem, logged: nat, n: nat)
    requires Linking(index, logged) && x in index && WellFormed(AliveIn(index, x)) && logged < n <= Num(x.id)
    ensures Retains(index, x, n)
  {
    hide Num;
    var alive := AliveIn(index, x);
    assert forall y {:trigger y in index} :: y in index ==> y in alive;
    LinkedReach(index, alive, x, logged, Num(x.id) - n);
  }

  /** Pushing a block keeps this. */
  lemma LinkingGrows(index: seq<ForkItem>, more: seq<ForkItem>, id: BlockId, logged: nat)
    requires Linking(index, logged) && id.BlockId?
    requires forall y {:trigger y in index} :: y in index ==> y in more
    requires forall y {:trigger y in more} ::
      y in more ==> y in index || (y.id == id && (id.previous.BlockId? ==> y.prev in index))
    ensures Linking(more, logged)
  {}

  /** Trimming at most to the logged numbers keeps this. */
  lemma LinkingTrims(index: seq<ForkItem>, less: seq<ForkItem>, logged: nat, more: nat, bound: int)
    requires Linking(index, logged) && logged <= more && bound <= more + 1
    requires forall y {:trigger y in index} :: y in index ==> Linked(y)
    requires forall y {:trigger y in less} :: y in less <==> y in index && Num(y.id) >= bound
    ensures Linking(less, more)
  {
    forall y | y in less && Num(y.id) > more + 1
      ensures y.prev in less
    {
      assert y in index && y.prev in index;
      assert Num(y.id) == Num(y.prev.id) + 1;
    }
  }

  /** A log on the branch of a head is on the branch of every block on that head. */
  lemma LogStays(head: BlockId, log: seq<BlockId>, b: BlockId)
    requires b.BlockId? && b.previous == head && OnBranch(head, log, 0)
    ensures OnBranch(b, log, 0)
  {}

  /** With the head in the index nothing is missing, and what is written is on its branch. */
  lemma WrittenOnBranch(index: seq<ForkItem>, head: ForkItem, log: seq<BlockId>, written: seq<BlockId>, lib: nat,
                        ok: bool)
    requires WellFormed(AliveIn(index, head)) && Linking(index, |log|) && head in index && lib <= Num(head.id)
    requires OnBranch(head.id, log, 0) && |log| <= |written| && written[..|log|] == log
      && Found(index, head, written, |log|)
    requires |written| <= Greatest(|log|, lib)
    requires !ok ==> |written| < lib && OnMain(index, head, |written| + 1) == null
    ensures ok && OnBranch(head.id, written, 0)
  {
    hide Num, Back, Retains, IsAncestor, OnMain;
    if !ok {
      LinkedRetains(index, head, |log|, |written| + 1);
      RetainedIsFound(index, head, |written| + 1);
    }
    forall i | 0 <= i < |written|
      ensures IsAncestor(head.id, i + 1, written[i])
    {
      if i < |log| {
        assert log[i] == written[i];
      } else {
        LinkedRetains(index, head, |log|, i + 1);
        RetainedIsFound(index, head, i + 1);
      }
    }
  }

  // ----- while the node switches forks -----

  /**
   The new branch xs and the old branch ys, newest block first, on one parent; the fork database's head is the
   oldest block of the new branch. `logged` numbers are in the log.
   */
  ghost predicate Switching(index: seq<ForkItem>, xs: seq<ForkItem>, ys: seq<ForkItem>, logged: nat) {
    && ys != [] && |xs| == |ys| + 1 && Num(ys[0].id) + 1 == Num(xs[0].id)
    && (forall i {:trigger xs[i]} :: 0 <= i < |xs| ==>
          xs[i].id == Back(xs[0].id, i) && Num(xs[i].id) + i == Num(xs[0].id)
            && (Num(xs[i].id) > logged ==> xs[i] in index))
    && (forall i {:trigger ys[i]} :: 0 <= i < |ys| ==>
          Num(ys[i].id) + i == Num(ys[0].id) && (Num(ys[i].id) > logged ==> ys[i] in index))
    && (forall i, j {:trigger xs[i], ys[j]} :: 0 <= i < |xs| && 0 <= j < |ys| ==> xs[i] != ys[j])
    && xs[0] in index && Linking(index, logged)
    && (forall y {:trigger y in index} ::
      y in index ==> Num(y.id) <= Num(xs[0].id) && (y.id == xs[0].id || Num(y.id) < Num(xs[0].id)))
  }

  /** The ancestor of an ancestor. */
  lemma {:induction false} BackBack(id: BlockId, j: nat, k: nat)
    requires j + k <= Num(id)
    ensures Back(Back(id, j), k) == Back(id, j + k)
    decreases j
  {
    if j > 0 {
      BackBack(id.previous, j - 1, k);
    }
  }

  /** Numbers above the fork database's head that both branches have are not found. All others are found on the
      new branch. */
  lemma SwitchFinds(index: seq<ForkItem>, xs: seq<ForkItem>, ys: seq<ForkItem>, logged: nat, n: nat)
    requires Switching(index, xs, ys, logged) && WellFormed(AliveIn(index, Last(xs))) && Ordered(index)
    requires logged < n <= Num(xs[0].id)
    ensures var found := OnMain(index, Last(xs), n);
      if Num(Last(xs).id) < n <= Num(ys[0].id) then found == null
      else found != null && IsAncestor(xs[0].id, n, found.id)
  {
    hide Num, Back, Linking;
    var cursor := Last(xs);
    if n <= Num(cursor.id) {
      LinkedRetains(index, cursor, logged, n);
      RetainedIsFound(index, cursor, n);
      BackBack(xs[0].id, |xs| - 1, Num(cursor.id) - n);
    } else if n <= Num(ys[0].id) {
      var x, y := xs[Num(xs[0].id) - n], ys[Num(ys[0].id) - n];
      assert x in Candidates(index, n) && y in Candidates(index, n) - {x};
      Singleton(Candidates(index, n), x);
    } else {
      UniqueIds(index);
      assert Candidates(index, n) == {xs[0]};
      assert xs[0].id == Back(xs[0].id, 0);
    }
  }

  /**
   Writing the log during a switch throws exactly if the last irreversible number passes the fork database's
   head, unless the old branch is a single block. What is written is on the new branch.
   */
  lemma SwitchWritten(index: seq<ForkItem>, xs: seq<ForkItem>, ys: seq<ForkItem>, log: seq<BlockId>,
                      written: seq<BlockId>, lib: nat, ok: bool)
    requires Switching(index, xs, ys, |log|) && WellFormed(AliveIn(index, Last(xs))) && Ordered(index)
    requires OnBranch(xs[0].id, log, 0) && |log| <= |written| && written[..|log|] == log
    requires Found(index, Last(xs), written, |log|) && lib <= Num(xs[0].id) && |log| <= Num(xs[0].id)
    requires |ys| == 1 || |log| <= Num(Last(xs).id)
    requires if ok then |written| == Greatest(|log|, lib)
      else |written| < lib && OnMain(index, Last(xs), |written| + 1) == null
    ensures OnBranch(xs[0].id, written, 0)
    ensures ok <==> |ys| == 1 || lib <= Num(Last(xs).id)
    ensures !ok ==> |written| == Num(Last(xs).id)
  {
    hide Num, Back, Linking, IsAncestor, OnMain;
    var cursor := Num(Last(xs).id);
    CursorNumber(index, xs, ys, |log|);
    forall i | |log| <= i < |written|
      ensures IsAncestor(xs[0].id, i + 1, written[i]) && !(cursor < i + 1 <= Num(ys[0].id))
    {
      assert Finds(index, Last(xs), i + 1, written[i]);
      SwitchFinds(index, xs, ys, |log|, i + 1);
    }
    assert forall i {:trigger written[i]} :: 0 <= i < |log| ==> written[i] == log[i];
    assert |log| <= cursor < |written| ==> IsAncestor(xs[0].id, cursor + 1, written[cursor]) && Num(ys[0].id) <= cursor;
    if !ok {
      SwitchFinds(index, xs, ys, |log|, |written| + 1);
    }
  }

  lemma CursorNumber(index: seq<ForkItem>, xs: seq<ForkItem>, ys: seq<ForkItem>, logged: nat)
    requires Switching(index, xs, ys, logged)
    ensures Num(Last(xs).id) + |ys| == Num(xs[0].id) == Num(ys[0].id) + 1
  {}

  lemma SwitchTrims(index: seq<ForkItem>, less: seq<ForkItem>, xs: seq<ForkItem>, ys: seq<ForkItem>, logged: nat,
                    more: nat, bound: int)
    requires Switching(index, xs, ys, logged) && logged <= more <= Num(xs[0].id) && bound <= more
    requires forall y {:trigger y in index} :: y in index ==> Linked(y)
    requires forall y {:trigger y in less} :: y in less <==> y in index && Num(y.id) >= bound
    ensures Switching(less, xs, ys, more)
  {
    hide Num, Back, Linking;
    LinkingTrims(index, less, logged, more, bound);
  }

  /** The branches that were found for a new block one number above the chain's head, on another branch. */
  lemma SwitchStarts(index: seq<ForkItem>, x: ForkItem, tip: ForkItem, xs: seq<ForkItem>, ys: seq<ForkItem>,
                     logged: nat)
    requires Ordered(index) && x in index && tip in index && WellFormed(AliveIn(index, x)) && Linking(index, logged)
    requires Meet(AliveIn(index, x), x, tip, xs, ys) && Nearest(xs, ys)
    requires x.id.BlockId? && x.id.previous != tip.id && Num(x.id) == Num(tip.id) + 1
    requires forall y {:trigger y in index} :: y in index ==> y.id == x.id || Num(y.id) <= Num(tip.id)
    ensures Switching(index, xs, ys, logged)
  {
    hide Num, Back, Linking, Ordered, Nearest;
    var alive := AliveIn(index, x);
    SameNumber(Last(xs), Last(ys));
    PathIds(alive, xs, |xs| - 1);
    PathIds(alive, ys, |ys| - 1);
    forall i | 0 <= i < |xs|
      ensures xs[i].id == Back(xs[0].id, i) && Num(xs[i].id) + i == Num(xs[0].id) && xs[i] in index
    {
      PathIds(alive, xs, i);
      assert xs[i] in alive;
    }
    forall i | 0 <= i < |ys|
      ensures Num(ys[i].id) + i == Num(ys[0].id) && ys[i] in index
    {
      PathIds(alive, ys, i);
      assert ys[i] in alive;
    }
    forall i, j | 0 <= i < |xs| && 0 <= j < |ys|
      ensures xs[i] != ys[j]
    {
      if xs[i] == ys[j] {
        PathStep(alive, xs, 0);
        SharedBlockIsArgument(alive, x, tip, xs, ys, i, j);
      }
    }
  }

  lemma SameNumber(x: ForkItem, y: ForkItem)
    requires SameParent(x, y)
    ensures Num(x.id) == Num(y.id)
  {}

  /** A branch, newest block first. */
  ghost predicate Descends(xs: seq<ForkItem>) {
    && (forall i {:trigger xs[i]} ::
      0 <= i < |xs| ==> xs[i].id.BlockId? && xs[i].id == Back(xs[0].id, i) && Num(xs[i].id) + i == Num(xs[0].id))
    && forall i, j {:trigger xs[i], xs[j]} :: 0 <= i && j == i + 1 && j < |xs| ==> xs[i].id.previous == xs[j].id
  }

  lemma DescendsTo(xs: seq<ForkItem>)
    requires Descends(xs) && xs != []
    ensures Last(xs).id == Back(xs[0].id, |xs| - 1)
  {}

  lemma LengthsFit(index: seq<ForkItem>, xs: seq<ForkItem>, ys: seq<ForkItem>, logged: nat)
    requires Switching(index, xs, ys, logged)
    ensures |xs| == |ys| + 1 && Num(Last(xs).id) <= Num(xs[0].id)
  {}

  /** What is irreversible at a block of the branch is so at its end, and lies on it. */
  lemma NewBranchLib(c: Config, data: Data, schedule: seq<Name>, xs: seq<ForkItem>, i: nat)
    requires Scheduling(data, schedule) && Descends(xs) && i < |xs|
    ensures StateAt(c, data, schedule, xs[i].id).lib <= StateAt(c, data, schedule, xs[0].id).lib
    ensures StateAt(c, data, schedule, xs[i].id).lib <= Num(xs[i].id) <= Num(xs[0].id)
      && Num(Last(xs).id) <= Num(xs[i].id)
  {
    hide Num, Back, StateAt;
    StateSane(c, data, schedule, xs[i].id);
    StateRaises(c, data, schedule, xs[0].id, i);
  }

  /** A log that ends below the common ancestor is on both branches. */
  lemma OlderLog(head: BlockId, log: seq<BlockId>, b: BlockId, n: nat)
    requires OnBranch(head, log, 0) && n <= Num(head) && Num(b) == Num(head) + 1 && Back(head, n) == Back(b, n + 1)
    requires |log| + n <= Num(head)
    ensures OnBranch(b, log, 0)
  {
    hide Num, Back;
    forall i | 0 <= i < |log|
      ensures IsAncestor(b, i + 1, log[i])
    {
      assert IsAncestor(head, i + 1, log[i]);
      BackBack(head, n, Num(head) - n - (i + 1));
      BackBack(b, n + 1, Num(head) - n - (i + 1));
    }
  }

  lemma SwitchEnds(index: seq<ForkItem>, xs: seq<ForkItem>, ys: seq<ForkItem>, logged: nat)
    requires Switching(index, xs, ys, logged)
    ensures xs[0] in index && Linking(index, logged)
    ensures forall y {:trigger y in index} :: y in index ==> Num(y.id) <= Num(xs[0].id)
    ensures Num(Last(xs).id) <= Num(xs[0].id)
  {}

  /** Branches as the fork database finds them for a new block x one number above the chain's head. */
  ghost predicate AreBranches(index: seq<ForkItem>, xs: seq<ForkItem>, ys: seq<ForkItem>, x: ForkItem, head: BlockId,
                              logged: nat) {
    && Switching(index, xs, ys, logged) && Descends(xs) && xs != [] && xs[0] == x && |xs| == |ys| + 1
    && (forall i {:trigger xs[i]} :: 0 <= i < |xs| ==> xs[i] in index)
    && (forall i, j {:trigger xs[i], xs[j]} :: 0 <= i && j == i + 1 && j < |xs| ==> xs[i].prev == xs[j])
    && Last(xs).id.BlockId? && 0 < |ys| <= Num(head) && Num(Last(xs).id.previous) + |ys| == Num(head)
    && Last(xs).id.previous == Back(x.id, |ys| + 1) == Back(head, |ys|)
    && Parted(head, x.id, |ys|)
  }

  lemma BranchesPart(alive: Alive, x: ForkItem, tip: ForkItem, xs: seq<ForkItem>, ys: seq<ForkItem>)
    requires WellFormed(alive) && Meet(alive, x, tip, xs, ys) && Nearest(xs, ys) && |xs| == |ys| + 1
    requires x.id.BlockId? && x.id.previous != tip.id
    ensures Parted(tip.id, x.id, |ys|)
  {
    hide Num, Back, Nearest;
    forall k | 0 <= k < |ys|
      ensures Back(tip.id, k) != Back(x.id, k + 1)
    {
      PathIds(alive, xs, k + 1);
      PathIds(alive, ys, k);
      assert xs[k + 1] in alive && ys[k] in alive;
      if xs[k + 1].id == ys[k].id {
        PathStep(alive, xs, 0);
        SharedBlockIsArgument(alive, x, tip, xs, ys, k + 1, k);
      }
    }
  }

  lemma {:induction false} ReachPath(alive: Alive, x: ForkItem, k: nat)
    requires x in alive && Reach(alive, x, k) != null
    ensures exists xs :: Path(alive, xs) && |xs| == k + 1 && xs[0] == x && Last(xs) == Reach(alive, x, k)
    decreases k
  {
    if k == 0 {
      assert Path(alive, [x]) && Last([x]) == x;
    } else {
      ReachPath(alive, Lock(alive, x), k - 1);
      var xs :| Path(alive, xs) && |xs| == k && xs[0] == Lock(alive, x) && Last(xs) == Reach(alive, x, k);
      var ys := [x] + xs;
      assert Path(alive, ys) && ys[0] == x && Last(ys) == Last(xs);
    }
  }

  /** Blocks with a common ancestor at or above the log are found to meet. */
  lemma CommonMeets(index: seq<ForkItem>, x: ForkItem, tip: ForkItem, logged: nat, k: nat)
    requires x in index && tip in index && WellFormed(AliveIn(index, x)) && Linking(index, logged)
    requires x.id.BlockId? && Num(x.id) == Num(tip.id) + 1 && 0 < k && logged + k <= Num(tip.id)
      && Back(tip.id, k) == Back(x.id, k + 1)
    ensures exists xs, ys :: Meet(AliveIn(index, x), x, tip, xs, ys)
  {
    hide Num, Back, Linking;
    var alive := AliveIn(index, x);
    assert forall y {:trigger y in index} :: y in index ==> y in alive && Linked(y);
    LinkedReach(index, alive, x, logged, k);
    LinkedReach(index, alive, tip, logged, k - 1);
    ReachPath(alive, x, k);
    ReachPath(alive, tip, k - 1);
    ReachIds(alive, x, k);
    ReachIds(alive, tip, k - 1);
    BackNext(x.id, k);
    BackNext(tip.id, k - 1);
    var xs :| Path(alive, xs) && |xs| == k + 1 && xs[0] == x && Last(xs) == Reach(alive, x, k);
    var ys :| Path(alive, ys) && |ys| == k && ys[0] == tip && Last(ys) == Reach(alive, tip, k - 1);
    assert Meet(alive, x, tip, xs, ys);
  }

  /** So if none meet, there is no such ancestor. */
  lemma NoneMeet(index: seq<ForkItem>, x: ForkItem, tip: ForkItem, logged: nat)
    requires x in index && tip in index && WellFormed(AliveIn(index, x)) && Linking(index, logged)
    requires x.id.BlockId? && x.id.previous != tip.id && Num(x.id) == Num(tip.id) + 1
    requires forall xs, ys {:trigger Meet(AliveIn(index, x), x, tip, xs, ys)} ::
      !Meet(AliveIn(index, x), x, tip, xs, ys)
    ensures Parted(tip.id, x.id, Num(tip.id) - logged + 1)
  {
    hide Num, Linking, Meet;
    forall k | 0 <= k < Num(tip.id) - logged + 1
      ensures Back(tip.id, k) != Back(x.id, k + 1)
    {
      if k > 0 && Back(tip.id, k) == Back(x.id, k + 1) {
        CommonMeets(index, x, tip, logged, k);
      }
    }
  }

  lemma BranchesOf(index: seq<ForkItem>, x: ForkItem, tip: ForkItem, xs: seq<ForkItem>, ys: seq<ForkItem>, logged: nat)
    requires Ordered(index) && x in index && tip in index && WellFormed(AliveIn(index, x)) && Linking(index, logged)
    requires Meet(AliveIn(index, x), x, tip, xs, ys) && Nearest(xs, ys)
    requires x.id.BlockId? && x.id.previous != tip.id && Num(x.id) == Num(tip.id) + 1
    requires forall y {:trigger y in index} :: y in index ==> y.id == x.id || Num(y.id) <= Num(tip.id)
    ensures AreBranches(index, xs, ys, x, tip.id, logged)
  {
    hide Num, Back, Linking, Ordered, Switching, Nearest, Descends, Parted;
    var alive := AliveIn(index, x);
    SwitchStarts(index, x, tip, xs, ys, logged);
    LengthsFit(index, xs, ys, logged);
    BranchIds(alive, xs);
    BranchIds(alive, ys);
    BranchesPart(alive, x, tip, xs, ys);
    assert forall i {:trigger xs[i]} :: 0 <= i < |xs| ==> xs[i] in alive;
  }

  /** The fork database finds the branches of its own head and the chain's. */
  lemma BranchesFound(forks: ForkDb, tip: ForkItem, b: BlockId, xs: seq<ForkItem>, ys: seq<ForkItem>, logged: nat)
    requires forks.Valid() && forks.head != null && forks.head.id == b && forks.head in forks.index
      && Linking(forks.index, logged)
    requires tip in forks.index && b.BlockId? && b.previous != tip.id && Num(b) == Num(tip.id) + 1
    requires forall y {:trigger y in forks.index} :: y in forks.index ==> y.id == b || Num(y.id) <= Num(tip.id)
    requires exists x, y ::
      forks.Known(b, x) && forks.Known(tip.id, y) && Meet(forks.Alive(), x, y, xs, ys) && Nearest(xs, ys)
    ensures AreBranches(forks.index, xs, ys, forks.head, tip.id, logged)
  {
    hide Num, Back, Linking, Meet, Nearest, AreBranches;
    UniqueIds(forks.index);
    var x, y :| forks.Known(b, x) && forks.Known(tip.id, y) && Meet(forks.Alive(), x, y, xs, ys) && Nearest(xs, ys);
    assert x == forks.head && y == tip;
    BranchesOf(forks.index, x, tip, xs, ys, logged);
  }

  /** Where it finds none, the common ancestor is older than the log. */
  lemma NoBranches(forks: ForkDb, tip: ForkItem, b: BlockId, logged: nat)
    requires forks.Valid() && forks.head != null && forks.head.id == b && forks.head in forks.index
    requires Linking(forks.index, logged)
    requires tip in forks.index && b.BlockId? && b.previous != tip.id && Num(b) == Num(tip.id) + 1
    requires forall x, y, xs, ys {:trigger Meet(forks.Alive(), x, y, xs, ys)} ::
      forks.Known(b, x) && forks.Known(tip.id, y) ==> !Meet(forks.Alive(), x, y, xs, ys)
    ensures Num(tip.id) - Leaves(tip.id, b) < logged
  {
    hide Num, Back, Linking, Meet, Parted, Leaves, Ordered;
    assert forks.Known(b, forks.head) && forks.Known(tip.id, tip) && forks.Alive() == AliveIn(forks.index, forks.head);
    assert WellFormed(AliveIn(forks.index, forks.head));
    OlderAncestor(forks.index, forks.head, tip, logged);
  }

  lemma OlderAncestor(index: seq<ForkItem>, x: ForkItem, tip: ForkItem, logged: nat)
    requires x in index && tip in index && WellFormed(AliveIn(index, x)) && Linking(index, logged)
    requires x.id.BlockId? && x.id.previous != tip.id && Num(x.id) == Num(tip.id) + 1
    requires forall xs, ys {:trigger Meet(AliveIn(index, x), x, tip, xs, ys)} ::
      !Meet(AliveIn(index, x), x, tip, xs, ys)
    ensures Num(tip.id) - Leaves(tip.id, x.id) < logged
  {
    hide Num, Back, Linking, Meet, Parted, Leaves, WellFormed;
    NoneMeet(index, x, tip, logged);
    LeavesToNearest(tip.id, x.id);
    PartedUpTo(tip.id, x.id, Num(tip.id) - logged + 1, Leaves(tip.id, x.id));
  }

  lemma BranchIds(alive: Alive, xs: seq<ForkItem>)
    requires WellFormed(alive) && Path(alive, xs)
    ensures Descends(xs) && Last(xs).id.BlockId?
    ensures |xs| <= Num(xs[0].id) && Last(xs).id.previous == Back(xs[0].id, |xs|)
    ensures Num(Last(xs).id.previous) + |xs| == Num(xs[0].id)
  {
    hide Num, Back;
    forall i | 0 <= i < |xs|
      ensures xs[i].id.BlockId? && xs[i].id == Back(xs[0].id, i) && Num(xs[i].id) + i == Num(xs[0].id)
      ensures i + 1 < |xs| ==> xs[i].id.previous == xs[i + 1].id
    {
      assert xs[i] in alive;
      PathIds(alive, xs, i);
      if i + 1 < |xs| {
        PathStep(alive, xs, i);
      }
    }
    NextNumber(Last(xs).id);
    BackNext(xs[0].id, |xs| - 1);
  }

  // ----- the node -----

  function LibsOf(c: Config, data: Data, schedule: seq<Name>): Libs {
    id => StateAt(c, data, schedule, id).lib
  }

  lemma NextState(c: Config, data: Data, schedule: seq<Name>, b: BlockId)
    requires b.BlockId?
    ensures StateAt(c, data, schedule, b) == ApplyProduced(c, StateAt(c, data, schedule, b.previous), data(b))
  {}

  lemma LibsRise(c: Config, data: Data, schedule: seq<Name>)
    requires Scheduling(data, schedule)
    ensures Rising(LibsOf(c, data, schedule))
  {
    hide Num, StateAt;
    forall id
      ensures StateAt(c, data, schedule, id).lib <= Num(id)
      ensures id.BlockId? ==> StateAt(c, data, schedule, id.previous).lib <= StateAt(c, data, schedule, id).lib
    {
      StateSane(c, data, schedule, id);
    }
  }

  ghost function IdsIn(index: seq<ForkItem>): set<BlockId> {
    set y | y in index :: y.id
  }

  function IdOf(head: ForkItem?): BlockId {
    if head == null then NoBlock else head.id
  }

  lemma IdsAdd(index: seq<ForkItem>, more: seq<ForkItem>, b: BlockId)
    requires forall y {:trigger y in index} :: y in index ==> y in more
    requires forall y {:trigger y in more} :: y in more ==> y in index || y.id == b
    requires exists y :: y in more && y.id == b
    ensures IdsIn(more) == IdsIn(index) + {b}
  {}

  lemma IdsTrim(index: seq<ForkItem>, less: seq<ForkItem>, bound: int)
    requires forall y {:trigger y in less} :: y in less <==> y in index && Num(y.id) >= bound
    ensures IdsIn(less) == set id | id in IdsIn(index) && Num(id) >= bound
  {
    hide Num;
    forall id
      ensures id in IdsIn(less) <==> id in IdsIn(index) && Num(id) >= bound
    {
      if id in IdsIn(index) && Num(id) >= bound {
        var y :| y in index && y.id == id;
        assert y in less;
      }
    }
  }

  class Finality {
    const config: Config
    const data: Data
    const schedule: seq<Name>
    const forks: ForkDb
    /** The head of the chain. */
    var head: BlockId
    var progress: Progress
    var log: seq<BlockId>
    ghost var tip: ForkItem?

    function StateOf(id: BlockId): Progress {
      StateAt(config, data, schedule, id)
    }

    ghost function Libs(): Libs {
      LibsOf(config, data, schedule)
    }

    ghost function View(): Node
      reads this, forks
    {
      Node(head, IdOf(forks.head), |log|, IdsIn(forks.index), forks.maxSize)
    }

    /**
     What every run keeps: the log is the beginning of the chain's branch and reaches the last irreversible
     block; the chain's head is the highest block the fork database knows; blocks above the log are linked.
     */
    ghost predicate Kept()
      reads this, forks
    {
      && forks.Valid() && Scheduling(data, schedule) && Rising(Libs()) && progress == StateOf(head)
      && progress.lib <= |log| <= Num(head) && OnBranch(head, log, 0)
      && Linking(forks.index, |log|)
      && if tip == null then head == NoBlock && forks.index == [] && forks.head == null
         else
           && tip in forks.index && tip.id == head && forks.head != null && Num(forks.head.id) <= Num(head)
           && forall y {:trigger y in forks.index} :: y in forks.index ==> Num(y.id) <= Num(head)
    }

    /** A node without blocks. */
    constructor (c: Config, data: Data, schedule: seq<Name>, forks: ForkDb)
      requires forks.Valid() && forks.head == null && Scheduling(data, schedule)
      ensures Kept() && config == c && this.data == data && this.schedule == schedule && this.forks == forks
        && head == NoBlock
    {
      config, this.data, this.schedule, this.forks := c, data, schedule, forks;
      head, progress, log, tip := NoBlock, Progress(0, 0, map[], schedule), [], null;
      LibsRise(c, data, schedule);
    }

    /** Appends what the fork database finds for the next numbers, up to `lib` or to the first it does not find. */
    method WriteLog(lib: nat) returns (ok: bool)
      requires forks.Valid() && forks.head != null
      modifies this`log
      ensures old(|log|) <= |log| && log[..old(|log|)] == old(log) && Found(forks.index, forks.head, log, old(|log|))
      ensures ok ==> |log| == Greatest(old(|log|), lib)
      ensures !ok ==> |log| < lib && OnMain(forks.index, forks.head, |log| + 1) == null
    {
      while |log| < lib
        invariant old(|log|) <= |log| <= Greatest(old(|log|), lib) && log[..old(|log|)] == old(log)
        invariant Found(forks.index, forks.head, log, old(|log|))
      {
        var block := forks.FetchBlockOnMainBranchByNumber(|log| + 1);
        if block == null {
          return false;
        }
        FoundMore(forks.index, forks.head, log, old(|log|), block.id);
        log := log + [block.id];
      }
      return true;
    }

    /**
     Raises the last irreversible block, appends the blocks up to it to the log and trims the fork database.
     Throws exactly if the fork database does not find a block on the way; then the log ends before it.
     */
    method UpdateLastIrreversibleBlock() returns (ok: bool)
      requires forks.Valid() && forks.head != null
      requires progress.head >= config.startVoting ==> progress.scheduled != []
      requires Raised(config, progress) <= progress.head
      modifies this`progress, this`log, forks`index, forks`maxSize
      ensures forks.Valid() && progress == old(progress).(lib := old(Raised(config, progress)))
      ensures progress.head >= config.startVoting ==>
        forall v: nat {:trigger Confirmers(progress.confirmed, progress.scheduled, v)} ::
          v <= progress.lib <==>
            v <= old(progress.lib)
            || 4 * |Confirmers(progress.confirmed, progress.scheduled, v)| >= 3 * |progress.scheduled|
      ensures old(|log|) <= |log| && log[..old(|log|)] == old(log)
        && Found(old(forks.index), forks.head, log, old(|log|))
      ensures ok ==> |log| == Greatest(old(|log|), progress.lib) && forks.maxSize == progress.head - progress.lib + 1
      ensures ok ==> forall y {:trigger y in forks.index} :: y in forks.index <==>
        y in old(forks.index) && Num(y.id) >= Greatest(0, Num(forks.head.id) - (progress.head - progress.lib + 1))
      ensures ok ==>
        View() == TrimmedTo(old(View()).(logged := Greatest(old(|log|), progress.lib)),
          progress.head - progress.lib + 1)
      ensures !ok ==> |log| < progress.lib && OnMain(forks.index, forks.head, |log| + 1) == null
      ensures !ok ==> forks.index == old(forks.index)
    {
      hide OnMain, Num, Found, Ordered, IdsIn, Confirmers;
      if progress.head < config.startVoting {
        if progress.head > config.maxWitnesses {
          progress := progress.(lib := progress.head - config.maxWitnesses);
        }
      } else {
        forall v: nat
          ensures v <= Raised(config, progress) <==>
            v <= progress.lib
            || 4 * |Confirmers(progress.confirmed, progress.scheduled, v)| >= 3 * |progress.scheduled|
        {
          RaisedByQuorum(config, progress, v);
        }
        var confirmed := Confirmed(progress);
        var candidate := Ascending(confirmed)[Offset(|confirmed|)];
        if candidate > progress.lib {
          progress := progress.(lib := candidate);
        }
      }
      ok := WriteLog(progress.lib);
      if !ok {
        return false;
      }
      ghost var index := forks.index;
      forks.SetMaxSize(progress.head - progress.lib + 1);
      IdsTrim(index, forks.index, Greatest(0, Num(forks.head.id) - forks.maxSize));
      return true;
    }

    /** Applies a block on its parent's state. */
    method ApplyBlock(b: BlockId) returns (ok: bool)
      requires forks.Valid() && forks.head != null && Scheduling(data, schedule)
      requires b.BlockId? && progress == StateOf(b.previous) && Rising(Libs())
      modifies this`progress, this`log, forks`index, forks`maxSize
      ensures forks.Valid() && (ok ==> progress == StateOf(b))
      ensures old(|log|) <= |log| && log[..old(|log|)] == old(log)
        && Found(old(forks.index), forks.head, log, old(|log|))
      ensures ok ==> |log| == Greatest(old(|log|), StateOf(b).lib)
      ensures ok ==> forall y {:trigger y in forks.index} :: y in forks.index <==>
        y in old(forks.index) && Num(y.id) >= Greatest(0, Num(forks.head.id) - (Num(b) - StateOf(b).lib + 1))
      ensures ok ==> View() == Applied(Libs(), old(View()), b)
      ensures !ok ==> |log| < StateOf(b).lib && OnMain(forks.index, forks.head, |log| + 1) == null
      ensures !ok ==> forks.index == old(forks.index)
    {
      hide OnMain, Raised, Found, Num, IdsIn, TrimmedTo, Ordered, StateAt;
      NextState(config, data, schedule, b);
      StateSane(config, data, schedule, b.previous);
      StateSane(config, data, schedule, b);
      progress := progress.(head := progress.head + 1,
        confirmed := progress.confirmed[data(b).producer := progress.head + 1]);
      ok := UpdateLastIrreversibleBlock();
      progress := progress.(scheduled := data(b).schedule);
    }

    /** The fork database stores or refuses a block. */
    method Store(b: BlockId) returns (x: ForkItem?)
      requires Kept() && b.BlockId?
      modifies forks`index, forks`head
      ensures forks.Valid() && (x == null <==> Refuses(old(View()), b))
      ensures x == null ==> Kept() && View() == old(View())
      ensures x != null ==> x == forks.head && View() == Pushed(old(View()), b)
      ensures x != null && Num(b) <= Num(head) ==> Kept() && Num(x.id) <= Num(head)
      ensures x != null && Num(b) > Num(head) ==> x.id == b && x in forks.index
      ensures x != null && Num(b) > Num(head) ==> forall y {:trigger y in forks.index} ::
        y in forks.index ==> y.id == b || Num(y.id) <= Num(head)
      ensures x != null && (tip != null || b.previous.NoBlock?) ==>
        Linking(forks.index, |log|) && Num(b) <= Num(head) + 1
      ensures x != null && tip != null ==> tip in forks.index
    {
      hide StateAt, OnBranch, Ordered;
      x := forks.PushBlock(b);
      if x != null {
        IdsAdd(old(forks.index), forks.index, b);
        if tip != null || b.previous.NoBlock? {
          LinkingGrows(old(forks.index), forks.index, b, |log|);
        }
      }
    }

    /**
     Takes a block. The fork database stores or refuses it, and its head then decides whether the chain is extended,
     left alone or switched. A block on the head never throws for want of a block. Where a switch throws while
     it applies the new branch, the log ends at the first block of that branch.
     */
    method PushBlock(b: BlockId) returns (r: Outcome)
      requires Kept() && b.BlockId?
      modifies this, forks`index, forks`head, forks`maxSize
      ensures r == Fate(Libs(), old(View()), b)
      ensures !GivesUp(Libs(), old(View()), b) ==> Kept() && View() == Next(Libs(), old(View()), b)
      ensures r.Missing? ==> |log| == Num(b) - Leaves(old(head), b) && OnBranch(b, log, 0)
    {
      hide Num, Back, StateAt, OnBranch, Linking, Ordered, AreBranches, Nearest, Meet, Parted, IdsIn, Refuses,
        Leaves, Applied, AppliedUpTo, Pushed, Descends, Switching;
      var x := Store(b);
      if x == null {
        return Refused;
      }
      NextNumber(b);
      NextNumber(x.id);
      if x.id.previous != head {
        if Num(x.id) > Num(head) {
          var branches := forks.FetchBranchFrom(x.id, head);
          if branches.None? {
            if tip != null {
              NoBranches(forks, tip, b, |log|);
            }
            return Unreachable;
          }
          BranchesFound(forks, tip, b, branches.value.0, branches.value.1, |log|);
          r := Switch(b, branches.value.0, branches.value.1);
          return r;
        }
        return Stored;
      }
      Extend(b);
      return Extended;
    }

    /** A block on the head, stored in the fork database, is applied: this never throws for want of a block, and
        afterwards the log is again the beginning of the chain's branch. */
    method Extend(b: BlockId)
      requires forks.Valid() && Scheduling(data, schedule) && Rising(Libs()) && b.BlockId? && b.previous == head
      requires progress == StateOf(head) && progress.lib <= |log| <= Num(head) && OnBranch(head, log, 0)
      requires forks.head != null && forks.head.id == b && forks.head in forks.index && Linking(forks.index, |log|)
      requires forall y {:trigger y in forks.index} :: y in forks.index ==> Num(y.id) <= Num(b)
      modifies this, forks`index, forks`maxSize
      ensures Kept() && View() == Applied(Libs(), old(View()), b).(head := b)
    {
      hide Num, StateAt, OnBranch, Found, Ordered, OnMain, Linking, IdsIn;
      StateSane(config, data, schedule, b);
      LogStays(head, log, b);
      NextNumber(b);
      ghost var index := forks.index;
      var ok := ApplyBlock(b);
      WrittenOnBranch(index, forks.head, old(log), log, StateOf(b).lib, ok);
      LinkingTrims(index, forks.index, old(|log|), |log|, Greatest(0, StateOf(b).lib - 1));
      head, tip := b, forks.head;
    }

    /**
     The switch to a block one number above the head, along the branches that were found: the fork database's head
     goes back to the oldest block of the new branch, and the new branch is applied.
     */
    method Switch(b: BlockId, xs: seq<ForkItem>, ys: seq<ForkItem>) returns (r: Outcome)
      requires forks.Valid() && forks.head != null && forks.head.id == b && Scheduling(data, schedule) && Rising(Libs())
      requires progress == StateOf(head) && progress.lib <= |log| && OnBranch(head, log, 0) && Num(b) == Num(head) + 1
      requires AreBranches(forks.index, xs, ys, forks.head, head, |log|)
      modifies this, forks`index, forks`head, forks`maxSize
      ensures var n := Leaves(old(head), b);
        && 0 < n <= Num(old(head)) && (r == Unreachable || r == Missing || r == Switched)
        && (r == Unreachable <==> Num(old(head)) - n < old(|log|))
        && (r != Unreachable ==> (r == Missing <==> n > 1 && StateOf(b).lib > Num(b) - n))
        && (r == Switched ==>
              Kept() && View() == AppliedUpTo(Libs(), old(View()).(cursor := Back(b, n)), b, n + 1).(head := b))
        && (r == Missing ==> |log| == Num(b) - n && OnBranch(b, log, 0))
    {
      hide Num, Back, StateAt, OnBranch, Linking, Ordered, Switching, Descends, Parted, Applied, AppliedUpTo, IdsIn;
      var ancestor := xs[|xs| - 1].id.previous;
      CursorNumber(forks.index, xs, ys, |log|);
      LeavesIs(head, b, |ys|);
      if Num(ancestor) < |log| {
        return Unreachable;
      }
      OlderLog(head, log, b, |ys|);
      StateRaises(config, data, schedule, head, |ys|);
      DescendsTo(xs);
      PopBlocks(xs, ys);
      progress := StateOf(ancestor);
      var ok := ApplyNew(xs, ys);
      if !ok {
        return Missing;
      }
      SwitchEnds(forks.index, xs, ys, |log|);
      head, tip := b, xs[0];
      return Switched;
    }

    /** Moves the fork database's head back by as many blocks as are left. */
    method PopBlocks(xs: seq<ForkItem>, ys: seq<ForkItem>)
      requires forks.Valid() && |xs| == |ys| + 1 && forks.head == xs[0]
      requires forall i {:trigger xs[i]} :: 0 <= i < |xs| ==> xs[i] in forks.index
      requires forall i, j {:trigger xs[i], xs[j]} :: 0 <= i && j == i + 1 && j < |xs| ==> xs[i].prev == xs[j]
      modifies forks`head
      ensures forks.Valid() && forks.head == Last(xs)
    {
      hide Num, Ordered;
      var i := 0;
      while i < |ys|
        invariant 0 <= i <= |ys| && forks.Valid() && forks.head == xs[i]
      {
        assert xs[i].prev == xs[i + 1] && xs[i + 1] in forks.index;
        var popped := forks.PopBlock();
        i := i + 1;
      }
    }

    /** Applies the new branch, oldest block first. */
    method ApplyNew(xs: seq<ForkItem>, ys: seq<ForkItem>) returns (ok: bool)
      requires forks.Valid() && Scheduling(data, schedule) && xs != [] && forks.head == Last(xs)
      requires Switching(forks.index, xs, ys, |log|) && OnBranch(xs[0].id, log, 0) && Descends(xs)
      requires progress == StateOf(Last(xs).id.previous) && progress.lib <= |log| <= Num(Last(xs).id.previous)
      requires Rising(Libs())
      modifies this`progress, this`log, forks`index, forks`maxSize
      ensures forks.Valid() && OnBranch(xs[0].id, log, 0)
      ensures ok <==> |ys| == 1 || StateOf(xs[0].id).lib <= Num(Last(xs).id)
      ensures ok ==>
        progress == StateOf(xs[0].id) && progress.lib <= |log| <= Num(xs[0].id) && Switching(forks.index, xs, ys, |log|)
      ensures ok ==> View() == AppliedUpTo(Libs(), old(View()), xs[0].id, |xs|)
      ensures !ok ==> |log| == Num(Last(xs).id)
    {
      hide Num, StateAt, OnBranch, Linking, Ordered, Switching, Found, OnMain, Applied, IdsIn;
      var j := |xs|;
      ghost var cursor := Num(Last(xs).id);
      NextNumber(Last(xs).id);
      LengthsFit(forks.index, xs, ys, |log|);
      while j > 0
        invariant 0 <= j <= |xs| && forks.Valid() && forks.head == Last(xs)
        invariant Switching(forks.index, xs, ys, |log|) && OnBranch(xs[0].id, log, 0)
        invariant progress == StateOf(if j == |xs| then Last(xs).id.previous else xs[j].id)
        invariant progress.lib <= |log| <= Num(xs[0].id)
        invariant |ys| == 1 || (|log| <= cursor && progress.lib <= cursor)
        invariant j == |xs| ==> View() == old(View())
        invariant j < |xs| ==> View() == AppliedUpTo(Libs(), old(View()), xs[j].id, |xs| - j)
      {
        ghost var index, logged := forks.index, log;
        var b := xs[j - 1].id;
        StateSane(config, data, schedule, b);
        NewBranchLib(config, data, schedule, xs, j - 1);
        ok := ApplyBlock(b);
        SwitchWritten(index, xs, ys, logged, log, StateOf(b).lib, ok);
        if !ok {
          return false;
        }
        SwitchTrims(index, forks.index, xs, ys, |logged|, |log|, Greatest(0, cursor - (Num(b) - StateOf(b).lib + 1)));
        j := j - 1;
      }
      return true;
    }

    /** Takes blocks in any order, until it gives up on one. */
    method PushBlocks(blocks: seq<BlockId>) returns (taken: nat)
      requires Kept() && Blocks(blocks)
      modifies this, forks`index, forks`head, forks`maxSize
      ensures taken <= |blocks| && Run(Libs(), old(View()), blocks[..taken]).Some?
      ensures taken == |blocks| ==> Kept() && Run(Libs(), old(View()), blocks) == Some(View())
      ensures taken < |blocks| ==> GivesUp(Libs(), Run(Libs(), old(View()), blocks[..taken]).value, blocks[taken])
    {
      hide StateAt, OnBranch, Linking, Ordered, IdsIn, Fate, Next;
      taken := 0;
      while taken < |blocks|
        invariant taken <= |blocks| && Kept() && Run(Libs(), old(View()), blocks[..taken]) == Some(View())
      {
        assert blocks[..taken + 1][..taken] == blocks[..taken];
        var r := PushBlock(blocks[taken]);
        if r == Unreachable || r == Missing {
          return;
        }
        taken := taken + 1;
      }
      assert blocks[..taken] == blocks;
    }
  }

  lemma NextNumber(b: BlockId)
    requires b.BlockId?
    ensures Num(b) == Num(b.previous) + 1
  {}
}
