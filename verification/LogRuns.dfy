/** Runs of a node as far as its block log is concerned, on values. */
module LogRuns {
  import opened ChainTypes
  import opened BlockIds
  import opened ForkDatabase

  /** The last irreversible number at a block. */
  type Libs = BlockId -> nat

  ghost predicate Rising(libs: Libs) {
    forall id {:trigger libs(id)} :: libs(id) <= Num(id) && (id.BlockId? ==> libs(id.previous) <= libs(id))
  }

  /** The chain's head, the fork database's head, how many blocks are in the log, the blocks that the fork database
      holds and how far behind its head it accepts blocks. */
  datatype Node = Node(head: BlockId, cursor: BlockId, logged: nat, ids: set<BlockId>, span: nat)

  /** What becomes of a block. In the last two cases the node throws in the middle of a switch. */
  datatype Outcome = Refused | Stored | Extended | Switched | Unreachable | Missing

  /** Too old for the fork database, or without its parent there. */
  predicate Refuses(n: Node, b: BlockId)
    requires b.BlockId?
  {
    n.cursor.BlockId? && (Num(b) <= Greatest(0, Num(n.cursor) - n.span)
      || (b.previous.BlockId? && b.previous !in n.ids))
  }

  /** How many blocks of the head's branch are not on the branch of a block one number above it. */
  function Leaves(head: BlockId, b: BlockId): nat {
    if head.NoBlock? || b.NoBlock? || b.previous == head then 0 else 1 + Leaves(head.previous, b.previous)
  }

  /** What becomes of a block. A block above the head on another branch is switched to, unless the common ancestor is
      older than the log, or more than one block is left and the new branch makes more irreversible than
      its first block. */
  function Fate(libs: Libs, n: Node, b: BlockId): Outcome
    requires b.BlockId?
  {
    if Refuses(n, b) then Refused
    else if b.previous == n.head then Extended
    else if Num(b) <= Num(n.head) then Stored
    else if n.head.NoBlock? || Num(n.head) - Leaves(n.head, b) < n.logged then Unreachable
    else if Leaves(n.head, b) > 1 && libs(b) > Num(b) - Leaves(n.head, b) then Missing
    else Switched
  }

  function Pushed(n: Node, b: BlockId): Node {
    n.(ids := n.ids + {b}, cursor := if n.cursor.NoBlock? || Num(b) > Num(n.cursor) then b else n.cursor)
  }

  /** The fork database is trimmed to s numbers behind its head. */
  function TrimmedTo(n: Node, s: nat): Node {
    n.(ids := (set id | id in n.ids && Num(id) >= Greatest(0, Num(n.cursor) - s)), span := s)
  }

  /** A block that is applied writes the log up to its last irreversible number and trims the fork database. */
  ghost function Applied(libs: Libs, n: Node, b: BlockId): Node
    requires Rising(libs)
  {
    TrimmedTo(n.(logged := Greatest(n.logged, libs(b))), Num(b) - libs(b) + 1)
  }

  /** The last k blocks up to b, oldest first. */
  ghost function AppliedUpTo(libs: Libs, n: Node, b: BlockId, k: nat): Node
    requires Rising(libs)
  {
    if k == 0 || b.NoBlock? then n else Applied(libs, AppliedUpTo(libs, n, b.previous, k - 1), b)
  }

  /** The node after a block on which it does not give up. In a switch the fork database's head goes back to the first
      block of the new branch, and stays there. */
  ghost function Next(libs: Libs, n: Node, b: BlockId): Node
    requires Rising(libs) && b.BlockId?
  {
    var m := Pushed(n, b);
    match Fate(libs, n, b)
    case Stored => m
    case Extended => Applied(libs, m, b).(head := b)
    case Switched =>
      var k := Leaves(n.head, b);
      AppliedUpTo(libs, m.(cursor := Back(b, k)), b, k + 1).(head := b)
    case _ => n
  }

  predicate GivesUp(libs: Libs, n: Node, b: BlockId)
    requires b.BlockId?
  {
    Fate(libs, n, b).Unreachable? || Fate(libs, n, b).Missing?
  }

  predicate Blocks(bs: seq<BlockId>) {
    forall i {:trigger bs[i]} :: 0 <= i < |bs| ==> bs[i].BlockId?
  }

  /** The node after a run of blocks, None if it gives up on one of them. */
  ghost function Run(libs: Libs, n: Node, bs: seq<BlockId>): Option<Node>
    requires Rising(libs) && Blocks(bs)
    decreases |bs|
  {
    if bs == [] then Some(n)
    else
      var m :- Run(libs, n, bs[..|bs| - 1]);
      var b := bs[|bs| - 1];
      if GivesUp(libs, m, b) then None else Some(Next(libs, m, b))
  }

  // ----- what is in the log -----

  lemma {:induction false} LoggedUpTo(libs: Libs, n: Node, b: BlockId, k: nat)
    requires Rising(libs)
    ensures AppliedUpTo(libs, n, b, k).logged == if k == 0 || b.NoBlock? then n.logged else Greatest(n.logged, libs(b))
    ensures AppliedUpTo(libs, n, b, k).cursor == n.cursor
    decreases k
  {
    if k > 0 && b.BlockId? {
      assert libs(b.previous) <= libs(b);
      LoggedUpTo(libs, n, b.previous, k - 1);
    }
  }

  /** The log ends at the highest number that was irreversible at any head of the chain. */
  lemma LoggedIsHighest(libs: Libs, n: Node, b: BlockId)
    requires Rising(libs) && b.BlockId? && !GivesUp(libs, n, b) && libs(n.head) <= n.logged
    ensures var m := Next(libs, n, b);
      && m.logged == Greatest(n.logged, libs(m.head))
      && m.head == if Fate(libs, n, b).Extended? || Fate(libs, n, b).Switched? then b else n.head
  {
    hide Num, Leaves, Refuses;
    if Fate(libs, n, b).Switched? {
      var k := Leaves(n.head, b);
      LoggedUpTo(libs, Pushed(n, b).(cursor := Back(b, k)), b, k + 1);
    }
  }

  /** After a block on the head the fork database holds this block and, of what it held, the numbers from one below the
      last irreversible one on. It accepts blocks from the last irreversible number on whose parents it holds. */
  lemma HeldAfterExtension(libs: Libs, n: Node, b: BlockId, id: BlockId)
    requires Rising(libs) && b.BlockId? && Fate(libs, n, b).Extended? && Num(n.cursor) <= Num(n.head)
    ensures var m := Next(libs, n, b);
      && m.head == b && m.cursor == b && m.span == Num(b) - libs(b) + 1
      && (id in m.ids <==> (id == b || id in n.ids) && Num(id) + 1 >= libs(b))
      && (id.BlockId? ==>
            (Refuses(m, id) <==> Num(id) < libs(b) || (id.previous.BlockId? && id.previous !in m.ids)))
  {
    NumberOnHead(b, n.head);
    if id.BlockId? {
      NumberOnHead(id, id.previous);
    }
  }

  lemma NumberOnHead(b: BlockId, head: BlockId)
    requires b.BlockId? && b.previous == head
    ensures Num(b) == Num(head) + 1
  {}

  // ----- what a switch leaves -----

  /** The branches of a block and of a block one number above it have no common ancestor less than n below. */
  ghost predicate Parted(head: BlockId, b: BlockId, n: int) {
    forall k {:trigger Back(head, k)} :: 0 <= k < n ==> Back(head, k) != Back(b, k + 1)
  }

  /** What is left are the blocks above the nearest common ancestor. */
  lemma {:induction false} LeavesToNearest(head: BlockId, b: BlockId)
    requires Num(b) == Num(head) + 1
    ensures var n := Leaves(head, b); n <= Num(head) && Back(head, n) == Back(b, n + 1) && Parted(head, b, n)
    decreases head
  {
    if b.previous == head {
      assert Back(b, 1) == Back(b.previous, 0);
    } else {
      LeavesToNearest(head.previous, b.previous);
      var n := Leaves(head, b);
      assert Back(b, n + 1) == Back(b.previous, n);
      forall k | 0 <= k < n
        ensures Back(head, k) != Back(b, k + 1)
      {
        assert Back(b, k + 1) == Back(b.previous, k);
        if k > 0 {
          assert Back(head, k) == Back(head.previous, k - 1);
        }
      }
    }
  }

  /** And the nearest is the only one with these properties. */
  lemma LeavesIs(head: BlockId, b: BlockId, n: nat)
    requires Num(b) == Num(head) + 1 && Back(head, n) == Back(b, n + 1) && Parted(head, b, n)
    ensures Leaves(head, b) == n
  {
    hide Num, Back;
    LeavesToNearest(head, b);
    PartedUpTo(head, b, n, Leaves(head, b));
    PartedUpTo(head, b, Leaves(head, b), n);
  }

  lemma PartedUpTo(head: BlockId, b: BlockId, n: int, m: nat)
    requires Parted(head, b, n) && Back(head, m) == Back(b, m + 1)
    ensures n <= m
  {}
}
