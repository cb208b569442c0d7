/** Block ids. Hashing is taken to be free of collisions, so an id stands for all that its block contains. */
module BlockIds {
  datatype BlockId = NoBlock | BlockId(previous: BlockId, content: nat)

  function Num(id: BlockId): nat {
    if id.NoBlock? then 0 else Num(id.previous) + 1
  }

  /** The k-th ancestor; the zeroth is the block itself. */
  function Back(id: BlockId, k: nat): (r: BlockId)
    ensures Num(r) == if k <= Num(id) then Num(id) - k else 0
  {
    if k == 0 || id.NoBlock? then id else Back(id.previous, k - 1)
  }

  lemma {:induction false} BackNext(id: BlockId, k: nat)
    requires k < Num(id)
    ensures Back(id, k).BlockId? && Back(id, k + 1) == Back(id, k).previous
    decreases k
  {
    if k > 0 {
      BackNext(id.previous, k - 1);
    }
  }
}

/**
 The fork database: recent blocks of all branches, ordered by number, each with a weak pointer to its parent.
 The pointer is dead once the parent object has left the index, unless that object is the head.
 */
module ForkDatabase {
  import opened ChainTypes
  import opened BlockIds

  class ForkItem {
    const id: BlockId
    const prev: ForkItem?

    constructor (id: BlockId, prev: ForkItem?)
      ensures this.id == id && this.prev == prev
    {
      this.id, this.prev := id, prev;
    }
  }

  /** Objects that weak pointers still reach. */
  type Alive = set<ForkItem>

  function AliveIn(index: seq<ForkItem>, head: ForkItem?): Alive {
    (set x | x in index) + if head == null then {} else {head}
  }

  function Lock(alive: Alive, x: ForkItem): ForkItem? {
    if x.prev != null && x.prev in alive then x.prev else null
  }

  ghost predicate Linked(x: ForkItem) {
    x.id.BlockId? && (x.prev != null ==> x.prev.id == x.id.previous)
  }

  ghost predicate WellFormed(alive: Alive) {
    forall x {:trigger x in alive} :: x in alive ==> Linked(x)
  }

  // ----- paths along parent pointers -----

  ghost predicate Path(alive: Alive, xs: seq<ForkItem>) {
    && xs != [] && (forall i {:trigger xs[i]} :: 0 <= i < |xs| ==> xs[i] in alive)
    && forall i, j {:trigger xs[i], xs[j]} :: 0 <= i && j == i + 1 && j < |xs| ==> xs[i].prev == xs[j]
  }

  lemma {:induction false} PathIds(alive: Alive, xs: seq<ForkItem>, k: nat)
    requires WellFormed(alive) && Path(alive, xs) && k < |xs|
    ensures Num(xs[k].id) + k == Num(xs[0].id)
    ensures xs[k].id == Back(xs[0].id, k)
    decreases k
  {
    if k > 0 {
      PathIds(alive, xs, k - 1);
      assert xs[k - 1].prev == xs[k];
      assert xs[k - 1] in alive;
      BackNext(xs[0].id, k - 1);
    }
  }

  lemma PathStep(alive: Alive, xs: seq<ForkItem>, k: nat)
    requires WellFormed(alive) && Path(alive, xs) && k + 1 < |xs|
    ensures xs[k].id.BlockId? && xs[k].id.previous == xs[k + 1].id
  {
    assert xs[k] in alive && xs[k].prev == xs[k + 1];
  }

  lemma {:induction false} PathsAgree(alive: Alive, xs: seq<ForkItem>, ys: seq<ForkItem>, k: nat)
    requires Path(alive, xs) && Path(alive, ys) && xs[0] == ys[0] && k < |xs| && k < |ys|
    ensures xs[k] == ys[k]
    decreases k
  {
    if k > 0 {
      PathsAgree(alive, xs, ys, k - 1);
      assert xs[k - 1].prev == xs[k] && ys[k - 1].prev == ys[k];
    }
  }

  function Last(xs: seq<ForkItem>): ForkItem
    requires xs != []
  {
    xs[|xs| - 1]
  }

  predicate SameParent(x: ForkItem, y: ForkItem) {
    x.id.BlockId? && y.id.BlockId? && x.id.previous == y.id.previous
  }

  /** Two branches whose oldest blocks have the same parent. */
  ghost predicate Meet(alive: Alive, x: ForkItem, y: ForkItem, xs: seq<ForkItem>, ys: seq<ForkItem>) {
    && Path(alive, xs) && Path(alive, ys) && xs[0] == x && ys[0] == y
    && SameParent(Last(xs), Last(ys))
  }

  /** No other two blocks of the branches have the same parent. */
  ghost predicate Nearest(xs: seq<ForkItem>, ys: seq<ForkItem>) {
    forall i, j {:trigger xs[i], ys[j]} :: 0 <= i < |xs| && 0 <= j < |ys| && SameParent(xs[i], ys[j]) ==>
      i == |xs| - 1 && j == |ys| - 1
  }

  /** Branches share at most one block: the oldest of both, which is then all there is of one of them. */
  lemma SharedBlockIsArgument(alive: Alive, x: ForkItem, y: ForkItem, xs: seq<ForkItem>, ys: seq<ForkItem>, i: nat,
                              j: nat)
    requires WellFormed(alive) && Meet(alive, x, y, xs, ys) && Nearest(xs, ys)
    requires i < |xs| && j < |ys| && xs[i].id == ys[j].id
    ensures i == |xs| - 1 && j == |ys| - 1 && (|xs| == 1 || |ys| == 1)
  {
    assert xs[i] in alive && ys[j] in alive;
    if |xs| > 1 && |ys| > 1 {
      PathStep(alive, xs, |xs| - 2);
      PathStep(alive, ys, |ys| - 2);
    }
  }

  /** If one argument is an ancestor of the other, the branches share exactly that ancestor. */
  lemma AncestorIsShared(alive: Alive, x: ForkItem, y: ForkItem, xs: seq<ForkItem>, ys: seq<ForkItem>,
                         zs: seq<ForkItem>)
    requires WellFormed(alive) && Meet(alive, x, y, xs, ys) && Nearest(xs, ys)
    requires Path(alive, zs) && zs[0] == x && Last(zs) == y
    ensures xs == zs && ys == [y]
  {
    PathIds(alive, zs, |zs| - 1);
    PathIds(alive, xs, |xs| - 1);
    PathIds(alive, ys, |ys| - 1);
    forall k | 0 <= k < |xs| && k < |zs|
      ensures xs[k] == zs[k]
    {
      PathsAgree(alive, xs, zs, k);
    }
    assert |zs| <= |xs|;
    assert xs[|zs| - 1] == ys[0];
    assert y in alive;
    assert xs[|zs| - 1].id.previous == ys[0].id.previous;
  }

  // ----- the database -----

  ghost predicate Ordered(index: seq<ForkItem>) {
    && (forall i, j {:trigger index[i], index[j]} :: 0 <= i < j < |index| ==> Num(index[i].id) <= Num(index[j].id))
    && (forall i, j {:trigger index[i], index[j]} :: 0 <= i < j < |index| ==> index[i].id != index[j].id)
  }

  /** No two blocks of the branches have the same parent. */
  ghost predicate Apart(xs: seq<ForkItem>, ys: seq<ForkItem>) {
    forall i, j {:trigger xs[i], ys[j]} :: 0 <= i < |xs| && 0 <= j < |ys| ==> !SameParent(xs[i], ys[j])
  }

  /** Going back on both branches from blocks of one number keeps the branches apart. */
  lemma BranchesGrow(alive: Alive, xs: seq<ForkItem>, ys: seq<ForkItem>)
    requires WellFormed(alive) && Path(alive, xs) && Path(alive, ys) && Num(Last(xs).id) == Num(Last(ys).id)
    requires Apart(xs[..|xs| - 1], ys[..|ys| - 1])
    ensures if SameParent(Last(xs), Last(ys)) then Nearest(xs, ys) else Apart(xs, ys)
  {
    hide Back;
    forall i, j | 0 <= i < |xs| && 0 <= j < |ys| && SameParent(xs[i], ys[j])
      ensures i == |xs| - 1 && j == |ys| - 1
    {
      PathIds(alive, xs, i);
      PathIds(alive, ys, j);
      PathIds(alive, xs, |xs| - 1);
      PathIds(alive, ys, |ys| - 1);
      if i < |xs| - 1 && j < |ys| - 1 {
        ApartAt(xs[..|xs| - 1], ys[..|ys| - 1], i, j);
      }
    }
  }

  /** While one branch is above the other, no blocks on them have the same parent. */
  lemma HigherIsApart(alive: Alive, xs: seq<ForkItem>, y: ForkItem)
    requires WellFormed(alive) && Path(alive, xs) && Num(Last(xs).id) > Num(y.id)
    ensures Apart(xs, [y]) && Apart([y], xs)
  {
    hide Back;
    forall i | 0 <= i < |xs|
      ensures !SameParent(xs[i], y) && !SameParent(y, xs[i])
    {
      PathIds(alive, xs, i);
      PathIds(alive, xs, |xs| - 1);
    }
  }

  /** Where the higher of two branches that are apart ends, no longer branches can meet. */
  lemma NoMeeting(alive: Alive, xs: seq<ForkItem>, ys: seq<ForkItem>, us: seq<ForkItem>, vs: seq<ForkItem>)
    requires WellFormed(alive) && Path(alive, xs) && Path(alive, ys) && Apart(xs, ys)
    requires Lock(alive, Last(xs)) == null && Num(Last(xs).id) >= Num(Last(ys).id)
    requires Path(alive, us) && us[0] == xs[0] && Path(alive, vs) && vs[0] == ys[0]
    ensures !SameParent(Last(us), Last(vs))
  {
    hide Back, Apart;
    NoLongerPath(alive, xs, us);
    PathIds(alive, xs, |xs| - 1);
    PathIds(alive, ys, |ys| - 1);
    PathIds(alive, us, |us| - 1);
    PathIds(alive, vs, |vs| - 1);
    if SameParent(Last(us), Last(vs)) {
      PathsAgree(alive, us, xs, |us| - 1);
      PathsAgree(alive, vs, ys, |vs| - 1);
      ApartAt(xs, ys, |us| - 1, |vs| - 1);
    }
  }

  lemma ApartAt(xs: seq<ForkItem>, ys: seq<ForkItem>, i: nat, j: nat)
    requires Apart(xs, ys) && i < |xs| && j < |ys|
    ensures !SameParent(xs[i], ys[j])
  {}

  ghost predicate Fresh(index: seq<ForkItem>, x: ForkItem) {
    forall y {:trigger y in index} :: y in index ==> y.id != x.id
  }

  lemma InsertKeepsOrder(index: seq<ForkItem>, x: ForkItem, i: nat)
    requires Ordered(index) && Fresh(index, x) && i <= |index|
    requires forall j {:trigger index[j]} :: i <= j < |index| ==> Num(index[j].id) > Num(x.id)
    requires i > 0 ==> Num(index[i - 1].id) <= Num(x.id)
    ensures Ordered(index[..i] + [x] + index[i..])
  {
    hide Num;
    var r := index[..i] + [x] + index[i..];
    forall j, k | 0 <= j < k < |r|
      ensures Num(r[j].id) <= Num(r[k].id) && r[j].id != r[k].id
    {
      if j < i && k == i {
        assert r[j] == index[j] && index[j] in index;
      } else if j == i {
        assert r[k] == index[k - 1] && index[k - 1] in index;
      } else {
        assert r[j] == index[if j < i then j else j - 1] && r[k] == index[if k < i then k else k - 1];
      }
    }
  }

  function Greatest(a: int, b: int): int {
    if a >= b then a else b
  }

  /** The end of a path cannot be followed further back, or is at the wanted number. */
  lemma NoLongerPath(alive: Alive, xs: seq<ForkItem>, ys: seq<ForkItem>)
    requires Path(alive, xs) && Path(alive, ys) && xs[0] == ys[0] && Lock(alive, Last(xs)) == null
    ensures |ys| <= |xs|
  {
    if |ys| > |xs| {
      assert ys[|xs| - 1].prev == ys[|xs|] && ys[|xs|] in alive;
      PathsAgree(alive, xs, ys, |xs| - 1);
    }
  }

  lemma RemovedOne(index: seq<ForkItem>, i: nat)
    requires Ordered(index) && i < |index|
    ensures forall y {:trigger y in index} {:trigger y in index[..i] + index[i + 1..]} ::
      y in index[..i] + index[i + 1..] <==> y in index && y.id != index[i].id
  {
    var r := index[..i] + index[i + 1..];
    forall y
      ensures y in r <==> y in index && y.id != index[i].id
    {
      if y in index && y.id != index[i].id {
        var k :| 0 <= k < |index| && index[k] == y;
        assert r[if k < i then k else k - 1] == y;
      }
    }
  }

  lemma Trimmed(index: seq<ForkItem>, k: nat, bound: int)
    requires Ordered(index) && k <= |index| && (k < |index| ==> Num(index[k].id) >= bound)
    requires forall j {:trigger index[j]} :: 0 <= j < k ==> Num(index[j].id) < bound
    ensures forall y {:trigger y in index} {:trigger y in index[k..]} ::
      y in index[k..] <==> y in index && Num(y.id) >= bound
  {
    hide Num;
    forall y | y in index && Num(y.id) >= bound
      ensures y in index[k..]
    {
      var j :| 0 <= j < |index| && index[j] == y;
      assert index[k..][j - k] == y;
    }
  }

  lemma SliceKeepsOrder(index: seq<ForkItem>, i: nat, j: nat)
    requires Ordered(index) && i <= j <= |index|
    ensures Ordered(index[..i] + index[j..])
  {
    var r := index[..i] + index[j..];
    forall a, b | 0 <= a < b < |r|
      ensures Num(r[a].id) <= Num(r[b].id) && r[a].id != r[b].id
    {
      assert r[a] == index[if a < i then a else a - i + j] && r[b] == index[if b < i then b else b - i + j];
    }
  }

  lemma TrimmedOrder(index: seq<ForkItem>, k: nat)
    requires Ordered(index) && k <= |index|
    ensures Ordered(index[k..])
  {
    SliceKeepsOrder(index, 0, k);
    assert index[..0] + index[k..] == index[k..];
  }

  lemma UniqueIds(index: seq<ForkItem>)
    requires Ordered(index)
    ensures forall x, y {:trigger x in index, y in index} :: x in index && y in index && x.id == y.id ==> x == y
  {}

  /** A walk from x has passed xs and stands at a. */
  ghost predicate Walked(alive: Alive, x: ForkItem, xs: seq<ForkItem>, a: ForkItem) {
    Path(alive, xs + [a]) && (xs + [a])[0] == x
  }

  lemma WalkStarts(alive: Alive, x: ForkItem)
    requires x in alive
    ensures Walked(alive, x, [], x)
  {
    assert [] + [x] == [x];
  }

  lemma WalkGoesOn(alive: Alive, x: ForkItem, xs: seq<ForkItem>, a: ForkItem)
    requires WellFormed(alive) && Walked(alive, x, xs, a) && Lock(alive, a) != null
    ensures var b := Lock(alive, a); Walked(alive, x, xs + [a], b) && Num(b.id) + 1 == Num(a.id)
  {
    assert (xs + [a])[|xs|] == a;
  }

  /** A walk that is stuck above y cannot meet one from y. */
  lemma StuckAbove(alive: Alive, x: ForkItem, xs: seq<ForkItem>, a: ForkItem, y: ForkItem)
    requires WellFormed(alive) && Walked(alive, x, xs, a) && y in alive && Num(a.id) > Num(y.id)
      && Lock(alive, a) == null
    ensures forall us, vs {:trigger Meet(alive, x, y, us, vs)} :: !Meet(alive, x, y, us, vs)
    ensures forall us, vs {:trigger Meet(alive, y, x, us, vs)} :: !Meet(alive, y, x, us, vs)
  {
    hide Lock, Apart, Num;
    assert [y] == [] + [y];
    HigherIsApart(alive, xs + [a], y);
    StuckApart(alive, x, xs, a, y, [], y);
  }

  /** Walks that are apart and of which the higher is stuck cannot meet. */
  lemma StuckApart(alive: Alive, x: ForkItem, xs: seq<ForkItem>, a: ForkItem, y: ForkItem, ys: seq<ForkItem>,
                   b: ForkItem)
    requires WellFormed(alive) && Walked(alive, x, xs, a) && Walked(alive, y, ys, b) && Apart(xs + [a], ys + [b])
    requires Lock(alive, a) == null && Num(a.id) >= Num(b.id)
    ensures forall us, vs {:trigger Meet(alive, x, y, us, vs)} :: !Meet(alive, x, y, us, vs)
    ensures forall us, vs {:trigger Meet(alive, y, x, us, vs)} :: !Meet(alive, y, x, us, vs)
  {
    hide Lock, Apart, Num, SameParent;
    forall us, vs | Path(alive, us) && Path(alive, vs) && us[0] == x && vs[0] == y
      ensures !SameParent(Last(us), Last(vs)) && !SameParent(Last(vs), Last(us))
    {
      NoMeeting(alive, xs + [a], ys + [b], us, vs);
      ParentsCommute(Last(us), Last(vs));
    }
  }

  lemma ParentsCommute(x: ForkItem, y: ForkItem)
    ensures SameParent(x, y) <==> SameParent(y, x)
  {}

  lemma ApartCommutes(xs: seq<ForkItem>, ys: seq<ForkItem>)
    requires Apart(xs, ys)
    ensures Apart(ys, xs)
  {}

  lemma WalksGrow(alive: Alive, x: ForkItem, xs: seq<ForkItem>, a: ForkItem, y: ForkItem, ys: seq<ForkItem>,
                  b: ForkItem)
    requires WellFormed(alive) && Walked(alive, x, xs, a) && Walked(alive, y, ys, b) && Num(a.id) == Num(b.id)
      && Apart(xs, ys)
    ensures if SameParent(a, b) then Meet(alive, x, y, xs + [a], ys + [b]) && Nearest(xs + [a], ys + [b])
            else Apart(xs + [a], ys + [b])
  {
    hide Num, Apart, Nearest, SameParent;
    assert (xs + [a])[..|xs|] == xs && (ys + [b])[..|ys|] == ys;
    BranchesGrow(alive, xs + [a], ys + [b]);
  }

  lemma NoneApart(xs: seq<ForkItem>)
    ensures Apart(xs, []) && Apart([], xs)
  {}

  lemma WalkIsPath(alive: Alive, x: ForkItem, xs: seq<ForkItem>, a: ForkItem)
    requires Walked(alive, x, xs, a)
    ensures exists ys :: Path(alive, ys) && ys[0] == x && Last(ys) == a
  {
    assert Last(xs + [a]) == a;
  }

  lemma NotAbove(alive: Alive, x: ForkItem, n: nat)
    requires WellFormed(alive) && n > Num(x.id)
    ensures forall ys {:trigger Path(alive, ys)} :: Path(alive, ys) && ys[0] == x ==> Num(Last(ys).id) != n
  {
    hide Num, Back;
    forall ys | Path(alive, ys) && ys[0] == x
      ensures Num(Last(ys).id) <= Num(x.id)
    {
      PathIds(alive, ys, |ys| - 1);
    }
  }

  lemma NotBelow(alive: Alive, x: ForkItem, xs: seq<ForkItem>, a: ForkItem, n: nat)
    requires WellFormed(alive) && Walked(alive, x, xs, a) && Lock(alive, a) == null && n < Num(a.id)
    ensures forall ys {:trigger Path(alive, ys)} :: Path(alive, ys) && ys[0] == x ==> Num(Last(ys).id) != n
  {
    hide Num, Back, Lock;
    PathIds(alive, xs + [a], |xs|);
    forall ys | Path(alive, ys) && ys[0] == x
      ensures Num(Last(ys).id) > n
    {
      NoLongerPath(alive, xs + [a], ys);
      PathIds(alive, ys, |ys| - 1);
    }
  }

  // ----- what lookups by number find -----

  /** The k-th parent of an item, as far as the pointers reach. */
  function Reach(alive: Alive, x: ForkItem, k: nat): ForkItem? {
    if k == 0 then x
    else if Lock(alive, x) == null then null
    else Reach(alive, Lock(alive, x), k - 1)
  }

  /** The ancestor of the head with a number, as far as it is retained. */
  function Ancestor(alive: Alive, head: ForkItem, n: nat): ForkItem? {
    if n > Num(head.id) then null else Reach(alive, head, Num(head.id) - n)
  }

  function Candidates(index: seq<ForkItem>, n: nat): set<ForkItem> {
    set x | x in index && Num(x.id) == n
  }

  /** A lone candidate, whatever branch it is on; among several, the head's ancestor. */
  ghost function OnMain(index: seq<ForkItem>, head: ForkItem, n: nat): ForkItem? {
    var cs := Candidates(index, n);
    if cs == {} then null
    else if |cs| == 1 then (var x :| x in cs; x)
    else Ancestor(AliveIn(index, head), head, n)
  }

  /** An ancestor of the head that is retained in the index is what is found. */
  lemma RetainedOnMain(index: seq<ForkItem>, head: ForkItem, n: nat)
    requires var alive := AliveIn(index, head);
      WellFormed(alive) && n <= Num(head.id) && Ancestor(alive, head, n) in index
    ensures OnMain(index, head, n) == Ancestor(AliveIn(index, head), head, n)
  {
    var alive := AliveIn(index, head);
    ReachIds(alive, head, Num(head.id) - n);
    var x := Ancestor(alive, head, n);
    assert x in Candidates(index, n);
    if |Candidates(index, n)| == 1 {
      Singleton(Candidates(index, n), x);
    }
  }

  lemma Singleton(s: set<ForkItem>, x: ForkItem)
    requires x in s
    ensures |s| == 1 ==> s == {x}
  {
    if |s| == 1 {
      assert |s - {x}| == 0;
    }
  }

  lemma {:induction false} ReachIds(alive: Alive, x: ForkItem, k: nat)
    requires WellFormed(alive) && x in alive && Reach(alive, x, k) != null
    ensures k < Num(x.id) && Reach(alive, x, k).id == Back(x.id, k) && Num(Reach(alive, x, k).id) + k == Num(x.id)
    decreases k
  {
    if k > 0 {
      ReachIds(alive, Lock(alive, x), k - 1);
    }
  }

  /** What a push leaves that is not refused: the items before, the block with its parent, and the highest head. */
  ghost predicate Grown(index: seq<ForkItem>, head: ForkItem?, id: BlockId, more: seq<ForkItem>, newHead: ForkItem)
    requires id.BlockId?
  {
    && (forall y {:trigger y in index} :: y in index ==> y in more) && (exists x :: x in more && x.id == id)
    && (forall y {:trigger y in more} :: y in more ==>
          || y in index
          || (y.id == id && if head != null && id.previous.BlockId? then y.prev in index else y.prev == null))
    && if head != null && Num(id) <= Num(head.id) then newHead == head
       else newHead.id == id && (Fresh(index, newHead) ==> newHead in more)
  }

  // ----- how far the head can be popped -----

  function Held(index: seq<ForkItem>): set<ForkItem> {
    set y | y in index
  }

  /** How many parents are held one behind the other, at most n. */
  function Up(held: set<ForkItem>, x: ForkItem, n: nat): nat {
    if n == 0 || x.prev == null || x.prev !in held then 0 else 1 + Up(held, x.prev, n - 1)
  }

  function Depth(held: set<ForkItem>, x: ForkItem): nat {
    Up(held, x, Num(x.id))
  }

  /** The head can be popped if its parent is held; the depth is then one less. */
  lemma DepthPops(index: seq<ForkItem>, x: ForkItem)
    requires WellFormed(AliveIn(index, x))
    ensures Lock(AliveIn(index, x), x) != null <==> Depth(Held(index), x) > 0
    ensures Depth(Held(index), x) > 0 ==>
      x.prev != null && x.prev in index && Depth(Held(index), x.prev) == Depth(Held(index), x) - 1
  {
    assert x in AliveIn(index, x) && Linked(x);
    if x.prev != null && x.prev in index {
      assert x.prev in AliveIn(index, x) && Linked(x.prev);
    }
  }

  /** Along a path of held items the depth is at least the length that is left, and more exactly if the path goes on. */
  lemma {:induction false} DepthAlong(held: set<ForkItem>, xs: seq<ForkItem>)
    requires xs != [] && (forall i {:trigger xs[i]} :: 0 <= i < |xs| ==> Linked(xs[i]) && (i > 0 ==> xs[i] in held))
    requires forall i, j {:trigger xs[i], xs[j]} :: 0 <= i && j == i + 1 && j < |xs| ==> xs[i].prev == xs[j]
    requires forall y {:trigger y in held} :: y in held ==> Linked(y)
    ensures Depth(held, xs[0]) >= |xs| - 1
    ensures Depth(held, xs[0]) >= |xs| <==> Last(xs).prev != null && Last(xs).prev in held
    decreases |xs|
  {
    if |xs| > 1 {
      assert xs[0].prev == xs[1] && xs[1] in held && Num(xs[0].id) == Num(xs[1].id) + 1;
      assert forall i {:trigger xs[1..][i]} :: 0 <= i < |xs| - 1 ==> xs[1..][i] == xs[i + 1];
      DepthAlong(held, xs[1..]);
    } else if xs[0].prev != null && xs[0].prev in held {
      assert Linked(xs[0].prev);
    }
  }

  class ForkDb {
    var index: seq<ForkItem>
    var head: ForkItem?
    var maxSize: nat

    /** Objects in the index, and the head. */
    function Alive(): Alive
      reads this
    {
      AliveIn(index, head)
    }

    ghost predicate Valid()
      reads this
    {
      && (forall x {:trigger x in index} :: x in index ==> Linked(x)) && (head != null ==> Linked(head))
      && Ordered(index) && (head == null ==> index == [])
    }

    constructor ()
      ensures Valid() && index == [] && head == null && maxSize == 1024
    {
      index, head, maxSize := [], null, 1024;
    }

    method Find(id: BlockId) returns (x: ForkItem?)
      ensures x == null ==> forall y {:trigger y in index} :: y in index ==> y.id != id
      ensures x != null ==> x in index && x.id == id
    {
      var i := 0;
      while i < |index|
        invariant i <= |index| && forall j :: 0 <= j < i ==> index[j].id != id
      {
        if index[i].id == id {
          return index[i];
        }
        i := i + 1;
      }
      return null;
    }

    /** Inserts behind all items with the same or a lower number, unless the id is known. */
    method Insert(x: ForkItem)
      requires Ordered(index)
      modifies this`index
      ensures Ordered(index)
      ensures !Fresh(old(index), x) ==> index == old(index)
      ensures Fresh(old(index), x) ==> forall y {:trigger y in index} :: y in index <==> y in old(index) || y == x
    {
      var known := Find(x.id);
      if known != null {
        return;
      }
      var i := |index|;
      while i > 0 && Num(index[i - 1].id) > Num(x.id)
        invariant 0 <= i <= |index|
        invariant forall j {:trigger index[j]} :: i <= j < |index| ==> Num(index[j].id) > Num(x.id)
      {
        i := i - 1;
      }
      InsertKeepsOrder(index, x, i);
      index := index[..i] + [x] + index[i..];
    }

    ghost predicate Known(id: BlockId, x: ForkItem)
      reads this
    {
      x in index && x.id == id
    }

    /** Whether a block is refused: too old for the database, or its parent is not there. */
    ghost predicate Refuses(id: BlockId)
      requires id.BlockId?
      reads this
    {
      && head != null
      && (Num(id) <= Greatest(0, Num(head.id) - maxSize)
          || (id.previous.BlockId? && forall y {:trigger y in index} :: y in index ==> y.id != id.previous))
    }

    /** Adds a block and returns the highest block. */
    method PushBlock(id: BlockId) returns (r: ForkItem?)
      requires Valid() && id.BlockId?
      modifies this`index, this`head
      ensures Valid()
      ensures r == null <==> old(Refuses(id))
      ensures r == null ==> index == old(index) && head == old(head)
      ensures r != null ==>
        r == head && Num(head.id) == if old(head) == null then Num(id) else Greatest(old(Num(head.id)), Num(id))
      ensures r != null ==> exists x :: x in index && x.id == id
      ensures r != null && old(head) != null && Num(id) <= old(Num(head.id)) ==> head == old(head)
      ensures r != null && (old(head) == null || Num(id) > old(Num(head.id))) ==>
        && head.id == id && (old(head) != null && id.previous.BlockId? ==> head.prev in old(index))
        && ((forall y {:trigger y in old(index)} :: y in old(index) ==> y.id != id) ==> head in index)
      ensures forall y {:trigger y in old(index)} :: y in old(index) ==> y in index
      ensures forall y {:trigger y in index} :: y in index ==>
        || y in old(index)
        || (y.id == id && if old(head) != null && id.previous.BlockId? then y.prev in old(index) else y.prev == null)
    {
      if head != null && Num(id) <= Greatest(0, Num(head.id) - maxSize) {
        return null;
      }
      var parent: ForkItem? := null;
      if head != null && id.previous.BlockId? {
        parent := Find(id.previous);
        if parent == null {
          return null;
        }
      }
      var x := new ForkItem(id, parent);
      Insert(x);
      if head == null || Num(id) > Num(head.id) {
        head := x;
      }
      return head;
    }

    /** Moves the head to its parent; fails if that is no longer there. */
    method PopBlock() returns (ok: bool)
      requires Valid()
      modifies this`head
      ensures ok <==> old(head) != null && Lock(old(Alive()), old(head)) != null
      ensures head == if ok then old(head.prev) else old(head)
      ensures ok ==> Valid() && head.id == old(head.id.previous)
    {
      if head == null || Lock(Alive(), head) == null {
        return false;
      }
      assert head in Alive();
      head := head.prev;
      return true;
    }

    method SetHead(h: ForkItem)
      requires Valid() && Linked(h)
      modifies this`head
      ensures Valid() && head == h
    {
      head := h;
    }

    method Remove(id: BlockId)
      requires Valid()
      modifies this`index
      ensures Valid()
      ensures forall y {:trigger y in index} :: y in index <==> y in old(index) && y.id != id
    {
      var i := 0;
      while i < |index| && index[i].id != id
        invariant i <= |index| && forall j {:trigger index[j]} :: 0 <= j < i ==> index[j].id != id
      {
        i := i + 1;
      }
      if i < |index| {
        SliceKeepsOrder(index, i, i + 1);
        RemovedOne(index, i);
        index := index[..i] + index[i + 1..];
      }
    }

    /** Forgets the blocks that lie more than s numbers behind the head, and no others. */
    method SetMaxSize(s: nat)
      requires Valid()
      modifies this`index, this`maxSize
      ensures Valid() && maxSize == s
      ensures head == null ==> index == old(index)
      ensures head != null ==> forall y {:trigger y in index} ::
        y in index <==> y in old(index) && Num(y.id) >= Greatest(0, Num(head.id) - s)
    {
      hide Num, Ordered;
      maxSize := s;
      if head == null {
        return;
      }
      ghost var k := 0;
      while index != [] && Num(index[0].id) < Greatest(0, Num(head.id) - maxSize)
        invariant k <= |old(index)| && index == old(index)[k..] && maxSize == s
        invariant forall j {:trigger old(index)[j]} ::
          0 <= j < k ==> Num(old(index)[j].id) < Greatest(0, Num(head.id) - s)
      {
        index := index[1..];
        k := k + 1;
      }
      Trimmed(old(index), k, Greatest(0, Num(head.id) - s));
      TrimmedOrder(old(index), k);
    }

    /** All blocks with this number. */
    method FetchBlockByNumber(n: nat) returns (xs: seq<ForkItem>)
      requires Valid()
      ensures forall y {:trigger y in xs} {:trigger y in index} :: y in xs <==> y in index && Num(y.id) == n
      ensures forall i, j {:trigger xs[i], xs[j]} :: 0 <= i < j < |xs| ==> xs[i] != xs[j]
    {
      var i := 0;
      while i < |index| && Num(index[i].id) < n
        invariant i <= |index| && forall j {:trigger index[j]} :: 0 <= j < i ==> Num(index[j].id) < n
      {
        i := i + 1;
      }
      ghost var first := i;
      xs := [];
      while i < |index| && Num(index[i].id) == n
        invariant first <= i <= |index| && xs == index[first..i]
        invariant forall j {:trigger index[j]} :: first <= j < i ==> Num(index[j].id) == n
      {
        xs := xs + [index[i]];
        i := i + 1;
      }
    }

    /**
     Walks back from two blocks until their parents are the same block. Succeeds if and only if both blocks
     are known and some retained ancestors of them have the same parent; it then finds the first such pair.
     */
    method FetchBranchFrom(first: BlockId, second: BlockId) returns (r: Option<(seq<ForkItem>, seq<ForkItem>)>)
      requires Valid()
      ensures r.Some? ==> exists x, y ::
        Known(first, x) && Known(second, y) && Meet(Alive(), x, y, r.value.0, r.value.1)
          && Nearest(r.value.0, r.value.1)
      ensures r.None? ==> forall x, y, xs, ys {:trigger Meet(Alive(), x, y, xs, ys)} ::
        Known(first, x) && Known(second, y) ==> !Meet(Alive(), x, y, xs, ys)
    {
      hide Num, Back, Nearest, Apart, Walked, Meet, Lock, Linked, SameParent;
      var x := Find(first);
      var y := Find(second);
      if x == null || y == null {
        return None;
      }
      UniqueIds(index);
      var xs, ys, a: ForkItem, b: ForkItem := [], [], x, y;
      WalkStarts(Alive(), x);
      WalkStarts(Alive(), y);
      while Num(a.id) > Num(b.id)
        invariant Walked(Alive(), x, xs, a) && ((xs == [] && a == x) || Num(a.id) >= Num(y.id))
        decreases Num(a.id)
      {
        var parent := Lock(Alive(), a);
        if parent == null {
          StuckAbove(Alive(), x, xs, a, y);
          return None;
        }
        WalkGoesOn(Alive(), x, xs, a);
        xs, a := xs + [a], parent;
      }
      while Num(b.id) > Num(a.id)
        invariant Walked(Alive(), y, ys, b) && Num(a.id) <= Num(b.id)
        invariant (xs == [] && a == x) || (ys == [] && Num(a.id) == Num(b.id))
        decreases Num(b.id)
      {
        var parent := Lock(Alive(), b);
        if parent == null {
          StuckAbove(Alive(), y, ys, b, x);
          return None;
        }
        WalkGoesOn(Alive(), y, ys, b);
        ys, b := ys + [b], parent;
      }
      NoneApart(xs);
      NoneApart(ys);
      WalksGrow(Alive(), x, xs, a, y, ys, b);
      while !SameParent(a, b)
        invariant Walked(Alive(), x, xs, a) && Walked(Alive(), y, ys, b) && Num(a.id) == Num(b.id) && Apart(xs, ys)
        invariant if SameParent(a, b) then Meet(Alive(), x, y, xs + [a], ys + [b]) && Nearest(xs + [a], ys + [b])
                  else Apart(xs + [a], ys + [b])
        decreases Num(a.id)
      {
        var first', second' := Lock(Alive(), a), Lock(Alive(), b);
        if first' == null {
          StuckApart(Alive(), x, xs, a, y, ys, b);
          return None;
        }
        if second' == null {
          ApartCommutes(xs + [a], ys + [b]);
          StuckApart(Alive(), y, ys, b, x, xs, a);
          return None;
        }
        WalkGoesOn(Alive(), x, xs, a);
        WalkGoesOn(Alive(), y, ys, b);
        xs, ys, a, b := xs + [a], ys + [b], first', second';
        WalksGrow(Alive(), x, xs, a, y, ys, b);
      }
      return Some((xs + [a], ys + [b]));
    }

    /** Goes back from the head to the block with this number. */
    method WalkMainBranchToNum(n: nat) returns (r: ForkItem?)
      requires Valid() && head != null
      ensures r != null ==> exists xs :: Path(Alive(), xs) && xs[0] == head && Last(xs) == r && Num(r.id) == n
      ensures r == null ==> forall xs {:trigger Path(Alive(), xs)} ::
        Path(Alive(), xs) && xs[0] == head ==> Num(Last(xs).id) != n
      ensures r == Ancestor(Alive(), head, n)
    {
      hide Num, Back, Walked, Lock, Linked;
      if n > Num(head.id) {
        NotAbove(Alive(), head, n);
        return null;
      }
      ghost var xs := [];
      var x: ForkItem := head;
      WalkStarts(Alive(), head);
      while Num(x.id) > n
        invariant Walked(Alive(), head, xs, x) && Num(x.id) >= n
        invariant Ancestor(Alive(), head, n) == Reach(Alive(), x, Num(x.id) - n)
        decreases Num(x.id)
      {
        var parent := Lock(Alive(), x);
        if parent == null {
          NotBelow(Alive(), head, xs, x, n);
          return null;
        }
        WalkGoesOn(Alive(), head, xs, x);
        xs, x := xs + [x], parent;
      }
      WalkIsPath(Alive(), head, xs, x);
      return x;
    }

    /** One candidate is returned without a walk, whatever branch it is on. So the result is the head's own
        ancestor whenever that is retained in the index. */
    method FetchBlockOnMainBranchByNumber(n: nat) returns (r: ForkItem?)
      requires Valid() && head != null
      ensures r == OnMain(index, head, n)
      ensures n <= Num(head.id) && Ancestor(Alive(), head, n) in index ==> r == Ancestor(Alive(), head, n)
      ensures (forall x {:trigger x in index} :: x in index ==> Num(x.id) != n) ==> r == null
      ensures forall x :: Only(n, x) ==> r == x
    {
      hide Num, Back, Path, Ancestor;
      if n <= Num(head.id) && Ancestor(Alive(), head, n) in index {
        RetainedOnMain(index, head, n);
      }
      var candidates := FetchBlockByNumber(n);
      if |candidates| == 1 {
        assert candidates[0] in candidates && Candidates(index, n) == {candidates[0]};
        return candidates[0];
      }
      if |candidates| == 0 {
        assert Candidates(index, n) == {};
        return null;
      }
      assert candidates[0] in candidates && candidates[1] in candidates;
      assert candidates[0] in Candidates(index, n) && candidates[1] in Candidates(index, n) - {candidates[0]};
      Singleton(Candidates(index, n), candidates[0]);
      r := WalkMainBranchToNum(n);
    }

    ghost predicate Only(n: nat, x: ForkItem)
      reads this
    {
      x in index && Num(x.id) == n && forall y {:trigger y in index} :: y in index && Num(y.id) == n ==> y == x
    }
  }
}
