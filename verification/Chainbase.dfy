/**
 One index of the object database with its undo stack. An undo state records what a session changed: previous
 values of modified objects, removed objects, and ids of new objects.
 */
module Chainbase {
  type Id = nat
  type Value = nat
  type Objects = map<Id, Value>

  datatype UndoState = UndoState(previous: Objects, removed: Objects, created: set<Id>, nextId: Id, revision: int)

  /** What undoing has to restore. */
  datatype Snapshot = Snapshot(objects: Objects, nextId: Id)

  /** The objects before the changes that u records. */
  function Undone(objects: Objects, u: UndoState): Objects {
    map id | id in (objects.Keys - u.created) + u.removed.Keys ::
      if id in u.removed then u.removed[id] else if id in u.previous then u.previous[id] else objects[id]
  }

  ghost predicate Records(objects: Objects, next: Id, u: UndoState) {
    && u.nextId <= next
    && u.created <= objects.Keys && u.previous.Keys <= objects.Keys && u.removed.Keys !! objects.Keys
    && (forall id {:trigger id in objects} :: id in objects ==> id < next && (id in u.created <==> id >= u.nextId))
    && (forall id {:trigger id in u.previous} :: id in u.previous ==> id < u.nextId)
    && (forall id {:trigger id in u.removed} :: id in u.removed ==> id < u.nextId)
  }

  ghost predicate StackOk(objects: Objects, next: Id, stack: seq<UndoState>)
    decreases |stack|
  {
    if stack == [] then forall id {:trigger id in objects} :: id in objects ==> id < next
    else
      var u := stack[|stack| - 1];
      Records(objects, next, u) && StackOk(Undone(objects, u), u.nextId, stack[..|stack| - 1])
  }

  /** The states at the start of each open session, oldest first. */
  ghost function Starts(objects: Objects, stack: seq<UndoState>): (r: seq<Snapshot>)
    ensures |r| == |stack|
    decreases |stack|
  {
    if stack == [] then []
    else
      var u := stack[|stack| - 1];
      var before := Undone(objects, u);
      Starts(before, stack[..|stack| - 1]) + [Snapshot(before, u.nextId)]
  }

  /** The order in which undoing restores. */
  lemma UndoneInSteps(objects: Objects, next: Id, u: UndoState)
    requires Records(objects, next, u)
    ensures Undone(objects, u) == ((objects + u.previous) - u.created) + u.removed
  {}

  // ----- what one change adds to the record -----

  function Modifying(objects: Objects, u: UndoState, id: Id): UndoState
    requires id in objects
  {
    if id in u.created || id in u.previous then u else u.(previous := u.previous[id := objects[id]])
  }

  function Removing(objects: Objects, u: UndoState, id: Id): UndoState
    requires id in objects
  {
    if id in u.created then u.(created := u.created - {id})
    else if id in u.previous then u.(removed := u.removed[id := u.previous[id]], previous := u.previous - {id})
    else if id in u.removed then u
    else u.(removed := u.removed[id := objects[id]])
  }

  /** Recording a modification keeps what undoing restores. */
  lemma ModifyKeeps(objects: Objects, next: Id, u: UndoState, id: Id, v: Value)
    requires Records(objects, next, u) && id in objects
    ensures var w := Modifying(objects, u, id);
      Records(objects[id := v], next, w) && Undone(objects[id := v], w) == Undone(objects, u) && w.nextId == u.nextId
  {
    assert Undone(objects[id := v], Modifying(objects, u, id)) == Undone(objects, u);
  }

  lemma RemoveKeeps(objects: Objects, next: Id, u: UndoState, id: Id)
    requires Records(objects, next, u) && id in objects
    ensures var w := Removing(objects, u, id);
      Records(objects - {id}, next, w) && Undone(objects - {id}, w) == Undone(objects, u) && w.nextId == u.nextId
  {
    assert Undone(objects - {id}, Removing(objects, u, id)) == Undone(objects, u);
  }

  lemma CreateKeeps(objects: Objects, next: Id, u: UndoState, v: Value)
    requires Records(objects, next, u)
    ensures var w := u.(created := u.created + {next});
      Records(objects[next := v], next + 1, w) && Undone(objects[next := v], w) == Undone(objects, u)
  {
    assert next !in objects;
    assert Undone(objects[next := v], u.(created := u.created + {next})) == Undone(objects, u);
  }

  // ----- merging two records -----

  /** The record of a session that contains the changes of p and then those of u. */
  function Merged(p: UndoState, u: UndoState): UndoState {
    p.(previous := MergedPrevious(p, u), created := MergedCreated(p, u), removed := MergedRemoved(p, u))
  }

  function MergedPrevious(p: UndoState, u: UndoState): Objects {
    map id | id in (p.previous.Keys + (u.previous.Keys - p.created)) - u.removed.Keys ::
      if id in p.previous then p.previous[id] else u.previous[id]
  }

  function MergedCreated(p: UndoState, u: UndoState): set<Id> {
    (p.created + u.created) - u.removed.Keys
  }

  function MergedRemoved(p: UndoState, u: UndoState): Objects {
    map id | id in p.removed.Keys + (u.removed.Keys - (p.created + u.created)) ::
      if id in p.removed then p.removed[id] else if id in p.previous then p.previous[id] else u.removed[id]
  }

  /** Undoing the merged record is undoing the later record and then the earlier. */
  lemma MergeComposes(objects: Objects, next: Id, p: UndoState, u: UndoState)
    requires Records(objects, next, u) && Records(Undone(objects, u), u.nextId, p)
    ensures Records(objects, next, Merged(p, u))
    ensures Undone(objects, Merged(p, u)) == Undone(Undone(objects, u), p)
  {
    hide Undone, Merged, Records;
    var m := Merged(p, u);
    MergeRecords(objects, next, p, u);
    forall id
      ensures id in Undone(objects, m) <==> id in Undone(Undone(objects, u), p)
      ensures id in Undone(objects, m) ==> Undone(objects, m)[id] == Undone(Undone(objects, u), p)[id]
    {
      MergeAt(objects, next, p, u, id);
    }
  }

  // the merge, one removed object after the other

  ghost predicate Mergeable(p: UndoState, u: UndoState) {
    && u.created !! u.removed.Keys && u.previous.Keys !! u.removed.Keys
    && p.created !! p.previous.Keys && p.removed.Keys !! u.removed.Keys && u.created !! p.previous.Keys
  }

  function BothPrevious(p: UndoState, u: UndoState): Objects {
    map id | id in p.previous.Keys + (u.previous.Keys - p.created) ::
      if id in p.previous then p.previous[id] else u.previous[id]
  }

  function RemovedUpTo(p: UndoState, u: UndoState, done: set<Id>): Objects
    requires done <= u.removed.Keys
  {
    map id | id in p.removed.Keys + (done - (p.created + u.created)) ::
      if id in p.removed then p.removed[id] else if id in p.previous then p.previous[id] else u.removed[id]
  }

  function UpTo(p: UndoState, u: UndoState, done: set<Id>): UndoState
    requires done <= u.removed.Keys
  {
    p.(previous := BothPrevious(p, u) - done, created := (p.created + u.created) - done,
      removed := RemovedUpTo(p, u, done))
  }

  lemma NoneRemoved(p: UndoState, u: UndoState)
    requires Mergeable(p, u)
    ensures UpTo(p, u, {}) == p.(previous := BothPrevious(p, u), created := p.created + u.created)
  {
    assert RemovedUpTo(p, u, {}) == p.removed;
    assert BothPrevious(p, u) - {} == BothPrevious(p, u);
  }

  lemma AllRemoved(p: UndoState, u: UndoState)
    requires Mergeable(p, u)
    ensures UpTo(p, u, u.removed.Keys) == Merged(p, u)
  {
    assert BothPrevious(p, u) - u.removed.Keys == MergedPrevious(p, u);
    assert RemovedUpTo(p, u, u.removed.Keys) == MergedRemoved(p, u);
  }

  lemma UpToNext(p: UndoState, u: UndoState, done: set<Id>, id: Id)
    requires Mergeable(p, u) && done <= u.removed.Keys && id in u.removed && id !in done
    ensures var m, n := UpTo(p, u, done), UpTo(p, u, done + {id});
      n == if id in m.created then m.(created := m.created - {id})
           else if id in m.previous then m.(removed := m.removed[id := m.previous[id]], previous := m.previous - {id})
           else m.(removed := m.removed[id := u.removed[id]])
  {
    var m := UpTo(p, u, done);
    assert BothPrevious(p, u) - (done + {id}) == m.previous - {id};
    RemovedNext(p, u, done, id);
    if id in m.created || id !in m.previous {
      assert m.previous - {id} == m.previous;
    }
  }

  lemma RemovedNext(p: UndoState, u: UndoState, done: set<Id>, id: Id)
    requires Mergeable(p, u) && done <= u.removed.Keys && id in u.removed && id !in done
    ensures RemovedUpTo(p, u, done + {id})
         == if id in p.created + u.created then RemovedUpTo(p, u, done)
            else RemovedUpTo(p, u, done)[id := if id in p.previous then p.previous[id] else u.removed[id]]
  {}

  lemma MergeRecords(objects: Objects, next: Id, p: UndoState, u: UndoState)
    requires Records(objects, next, u) && Records(Undone(objects, u), u.nextId, p)
    ensures Records(objects, next, Merged(p, u))
  {
    var before := Undone(objects, u);
    forall id | id in objects
      ensures id in Merged(p, u).created <==> id >= p.nextId
    {
      assert id in before <==> id !in u.created;
    }
    forall id | id in Merged(p, u).removed
      ensures id < p.nextId
    {
      assert id in u.removed ==> id in before;
    }
  }

  lemma MergeAt(objects: Objects, next: Id, p: UndoState, u: UndoState, id: Id)
    requires Records(objects, next, u) && Records(Undone(objects, u), u.nextId, p)
    ensures id in Undone(objects, Merged(p, u)) <==> id in Undone(Undone(objects, u), p)
    ensures id in Undone(objects, Merged(p, u)) ==>
      Undone(objects, Merged(p, u))[id] == Undone(Undone(objects, u), p)[id]
  {
    var before := Undone(objects, u);
    assert id in before <==> (id in objects && id !in u.created) || id in u.removed;
  }

  // ----- the index -----

  class Index {
    var objects: Objects
    var nextId: Id
    var stack: seq<UndoState>
    var revision: int

    ghost predicate Valid()
      reads this
    {
      StackOk(objects, nextId, stack)
    }

    /** The states to which the open sessions would return. */
    ghost function History(): seq<Snapshot>
      reads this
    {
      Starts(objects, stack)
    }

    constructor ()
      ensures Valid() && objects == map[] && nextId == 0 && stack == [] && revision == 0
    {
      objects, nextId, stack, revision := map[], 0, [], 0;
    }

    method Emplace(v: Value) returns (id: Id)
      requires Valid()
      modifies this`objects, this`nextId, this`stack
      ensures Valid() && id == old(nextId) && id !in old(objects)
      ensures objects == old(objects)[id := v] && nextId == id + 1 && History() == old(History())
    {
      id := nextId;
      objects, nextId := objects[id := v], id + 1;
      if stack != [] {
        var u := stack[|stack| - 1];
        CreateKeeps(old(objects), id, u, v);
        stack := stack[..|stack| - 1] + [u.(created := u.created + {id})];
      }
    }

    method Modify(id: Id, v: Value)
      requires Valid() && id in objects
      modifies this`objects, this`stack
      ensures Valid() && objects == old(objects)[id := v] && History() == old(History())
    {
      if stack != [] {
        var u := stack[|stack| - 1];
        ModifyKeeps(objects, nextId, u, id, v);
        stack := stack[..|stack| - 1] + [Modifying(objects, u, id)];
      }
      objects := objects[id := v];
    }

    method Remove(id: Id)
      requires Valid() && id in objects
      modifies this`objects, this`stack
      ensures Valid() && objects == old(objects) - {id} && History() == old(History())
    {
      if stack != [] {
        var u := stack[|stack| - 1];
        RemoveKeeps(objects, nextId, u, id);
        stack := stack[..|stack| - 1] + [Removing(objects, u, id)];
      }
      objects := objects - {id};
    }

    method StartUndoSession()
      requires Valid()
      modifies this`stack, this`revision
      ensures Valid() && revision == old(revision) + 1 && |stack| == old(|stack|) + 1
      ensures History() == old(History()) + [Snapshot(objects, nextId)]
    {
      revision := revision + 1;
      stack := stack + [UndoState(map[], map[], {}, nextId, revision)];
      NothingRecorded(objects, nextId, revision);
      assert stack[..|stack| - 1] == old(stack);
      ValidIds(objects, nextId, old(stack));
    }

    method PutAll(values: Objects)
      modifies this`objects
      ensures objects == old(objects) + values
    {
      var todo := values.Keys;
      while todo != {}
        invariant todo <= values.Keys && objects == old(objects) + (values - todo)
      {
        var id :| id in todo;
        objects := objects[id := values[id]];
        todo := todo - {id};
      }
      assert values - {} == values;
    }

    method EraseAll(ids: set<Id>)
      modifies this`objects
      ensures objects == old(objects) - ids
    {
      var todo := ids;
      while todo != {}
        invariant todo <= ids && objects == old(objects) - (ids - todo)
      {
        var id :| id in todo;
        objects := objects - {id};
        todo := todo - {id};
      }
    }

    /** Restores exactly the objects and the next id that the last session started with. */
    method Undo()
      requires Valid()
      modifies this`objects, this`nextId, this`stack, this`revision
      ensures Valid()
      ensures old(stack) == [] ==>
        objects == old(objects) && nextId == old(nextId) && stack == [] && revision == old(revision)
      ensures old(stack) != [] ==>
        && Snapshot(objects, nextId) == old(History())[|old(stack)| - 1]
        && stack == old(stack)[..|old(stack)| - 1] && History() == old(History())[..|old(stack)| - 1]
        && revision == old(revision) - 1
    {
      if stack == [] {
        return;
      }
      var u := stack[|stack| - 1];
      UndoneInSteps(objects, nextId, u);
      PutAll(u.previous);
      EraseAll(u.created);
      nextId := u.nextId;
      PutAll(u.removed);
      stack := stack[..|stack| - 1];
      revision := revision - 1;
    }

    /** Merges the last session into the one before it: undoing that one now undoes both. The last session of
        all is dropped without lowering the revision. */
    method Squash()
      requires Valid()
      modifies this`stack, this`revision
      ensures Valid()
      ensures old(stack) == [] ==> stack == [] && revision == old(revision)
      ensures old(stack) != [] ==> History() == old(History())[..old(|stack|) - 1]
      ensures revision == if old(|stack|) > 1 then old(revision) - 1 else old(revision)
    {
      if stack == [] {
        return;
      }
      if |stack| == 1 {
        stack := [];
        ValidIds(objects, nextId, old(stack));
        return;
      }
      var n := |stack|;
      var u, p := stack[n - 1], stack[n - 2];
      SquashKeeps(objects, nextId, stack);
      var m := MergeStates(p, u);
      stack := stack[..n - 2] + [m];
      revision := revision - 1;
    }

    method MergeStates(p: UndoState, u: UndoState) returns (m: UndoState)
      requires Mergeable(p, u)
      ensures m == Merged(p, u)
    {
      hide Mergeable, RemovedUpTo, MergedPrevious;
      var previous := MergePrevious(p, u);
      m := p.(previous := previous, created := p.created + u.created);
      NoneRemoved(p, u);
      var todo := u.removed.Keys;
      assert u.removed.Keys - todo == {};
      while todo != {}
        invariant todo <= u.removed.Keys && m == UpTo(p, u, u.removed.Keys - todo)
      {
        var id :| id in todo;
        UpToNext(p, u, u.removed.Keys - todo, id);
        if id in m.created {
          m := m.(created := m.created - {id});
        } else if id in m.previous {
          m := m.(removed := m.removed[id := m.previous[id]], previous := m.previous - {id});
        } else {
          m := m.(removed := m.removed[id := u.removed[id]]);
        }
        assert u.removed.Keys - todo + {id} == u.removed.Keys - (todo - {id});
        todo := todo - {id};
      }
      assert u.removed.Keys - todo == u.removed.Keys;
      AllRemoved(p, u);
    }

    method MergePrevious(p: UndoState, u: UndoState) returns (previous: Objects)
      ensures previous == BothPrevious(p, u)
    {
      previous := p.previous;
      var todo := u.previous.Keys;
      while todo != {}
        invariant todo <= u.previous.Keys
        invariant previous == map id | id in p.previous.Keys + ((u.previous.Keys - todo) - p.created) ::
          if id in p.previous then p.previous[id] else u.previous[id]
      {
        var id :| id in todo;
        if id !in p.created && id !in previous {
          previous := previous[id := u.previous[id]];
        }
        todo := todo - {id};
      }
    }

    /** Drops the states of sessions up to a revision; the later sessions can still be undone. */
    method Commit(upTo: int)
      requires Valid()
      modifies this`stack
      ensures Valid() && |stack| <= old(|stack|) && stack == old(stack)[old(|stack|) - |stack|..]
      ensures History() == old(History())[old(|stack|) - |stack|..]
      ensures stack != [] ==> stack[0].revision > upTo
      ensures forall i {:trigger old(stack)[i]} :: 0 <= i < old(|stack|) - |stack| ==> old(stack)[i].revision <= upTo
    {
      ghost var d := 0;
      while stack != [] && stack[0].revision <= upTo
        invariant Valid() && d + |stack| == old(|stack|) && stack == old(stack)[d..]
        invariant History() == old(History())[d..]
        invariant forall i {:trigger old(stack)[i]} :: 0 <= i < d ==> old(stack)[i].revision <= upTo
      {
        FirstForgotten(objects, nextId, stack);
        stack := stack[1..];
        d := d + 1;
      }
    }
  }

  /** Squashing the two last records forgets the start of the last session and no other. */
  lemma SquashKeeps(objects: Objects, next: Id, stack: seq<UndoState>)
    requires StackOk(objects, next, stack) && |stack| >= 2
    ensures var n := |stack|;
      var p, u := stack[n - 2], stack[n - 1];
      var merged := stack[..n - 2] + [Merged(p, u)];
      && Mergeable(p, u)
      && StackOk(objects, next, merged) && Starts(objects, merged) == Starts(objects, stack)[..n - 1]
  {
    hide Merged, Undone;
    var n := |stack|;
    var p, u, rest := stack[n - 2], stack[n - 1], stack[..n - 1];
    var merged := stack[..n - 2] + [Merged(p, u)];
    assert rest[n - 2] == p && rest[..n - 2] == stack[..n - 2];
    AreMergeable(objects, next, p, u);
    MergeComposes(objects, next, p, u);
    assert merged[..n - 2] == stack[..n - 2] && merged[n - 2] == Merged(p, u);
    MergedNext(p, u);
  }

  lemma MergedNext(p: UndoState, u: UndoState)
    ensures Merged(p, u).nextId == p.nextId
  {}

  lemma AreMergeable(objects: Objects, next: Id, p: UndoState, u: UndoState)
    requires Records(objects, next, u) && Records(Undone(objects, u), u.nextId, p)
    ensures Mergeable(p, u)
  {}

  lemma NothingRecorded(objects: Objects, next: Id, revision: int)
    ensures Undone(objects, UndoState(map[], map[], {}, next, revision)) == objects
  {}

  lemma ValidIds(objects: Objects, next: Id, stack: seq<UndoState>)
    requires StackOk(objects, next, stack)
    ensures forall id {:trigger id in objects} :: id in objects ==> id < next
  {}

  lemma {:induction false} FirstForgotten(objects: Objects, next: Id, stack: seq<UndoState>)
    requires StackOk(objects, next, stack) && stack != []
    ensures StackOk(objects, next, stack[1..]) && Starts(objects, stack[1..]) == Starts(objects, stack)[1..]
    decreases |stack|
  {
    hide Undone;
    if |stack| > 1 {
      var u, rest := stack[|stack| - 1], stack[..|stack| - 1];
      FirstForgotten(Undone(objects, u), u.nextId, rest);
      assert stack[1..][..|stack| - 2] == rest[1..];
    }
  }
}
