/** Finite sums over the id-ordered list of objects, with the few laws the ledgers need. */
module Sums {

  ghost function Sum(ids: seq<nat>, f: nat -> int): int {
    if ids == [] then 0 else f(ids[0]) + Sum(ids[1..], f)
  }

  ghost predicate Distinct<T>(ids: seq<T>) {
    forall i, j :: 0 <= i < j < |ids| ==> ids[i] != ids[j]
  }

  lemma {:induction false} SumEqual(ids: seq<nat>, f: nat -> int, g: nat -> int)
    requires forall a :: a in ids ==> f(a) == g(a)
    ensures Sum(ids, f) == Sum(ids, g)
  {
    if ids != [] {
      assert ids[0] in ids;
      SumEqual(ids[1..], f, g);
    }
  }

  /** Changing the summand at one listed id changes the sum by the same amount. */
  lemma {:induction false} SumChangedAt(ids: seq<nat>, f: nat -> int, g: nat -> int, x: nat, delta: int)
    requires Distinct(ids) && x in ids
    requires forall a :: a in ids && a != x ==> g(a) == f(a)
    requires g(x) == f(x) + delta
    ensures Sum(ids, g) == Sum(ids, f) + delta
  {
    var rest := ids[1..];
    assert forall a :: a in rest ==> a in ids;
    if ids[0] == x {
      assert forall a :: a in rest ==> a != x;
      SumEqual(rest, f, g);
    } else {
      assert ids[0] in ids;
      SumChangedAt(rest, f, g, x, delta);
    }
  }

  lemma {:induction false} SumAdd(ids: seq<nat>, f: nat -> int, g: nat -> int, h: nat -> int)
    requires forall a :: a in ids ==> h(a) == f(a) + g(a)
    ensures Sum(ids, h) == Sum(ids, f) + Sum(ids, g)
  {
    if ids != [] {
      assert ids[0] in ids;
      SumAdd(ids[1..], f, g, h);
    }
  }

  lemma {:induction false} SumZero(ids: seq<nat>, f: nat -> int)
    requires forall a :: a in ids ==> f(a) == 0
    ensures Sum(ids, f) == 0
  {
    if ids != [] {
      assert ids[0] in ids;
      SumZero(ids[1..], f);
    }
  }

  lemma {:induction false} SumMonotone(ids: seq<nat>, f: nat -> int, g: nat -> int)
    requires forall a :: a in ids ==> f(a) <= g(a)
    ensures Sum(ids, f) <= Sum(ids, g)
  {
    if ids != [] {
      assert ids[0] in ids;
      SumMonotone(ids[1..], f, g);
    }
  }

  lemma {:induction false} SumAppend(ids: seq<nat>, x: nat, f: nat -> int)
    ensures Sum(ids + [x], f) == Sum(ids, f) + f(x)
  {
    if ids != [] {
      assert (ids + [x])[1..] == ids[1..] + [x];
      SumAppend(ids[1..], x, f);
    }
  }
}
