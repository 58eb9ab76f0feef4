/**
 * The in-memory task store of models/tasks.js: an ordered array of task records and a
 * closure-held counter that issues ids by pre-increment.
 */
module Tasks {
  import opened Wrappers

  /** A stored task. The store itself does not validate name or priority. */
  datatype Task = Task(id: int, name: string, priority: string)

  /** The store's invariant: ids strictly increase along the array and lie in 1..counter. */
  predicate WellFormed(ts: seq<Task>, counter: nat) {
    (forall i, j :: 0 <= i < j < |ts| ==> ts[i].id < ts[j].id) &&
    (forall i :: 0 <= i < |ts| ==> 1 <= ts[i].id <= counter)
  }

  /** What `findIndex` with `task.id == id` yields: the first matching position, or -1. */
  function IndexOf(ts: seq<Task>, id: int): (r: int)
    ensures -1 <= r < |ts|
    ensures r == -1 <==> forall j :: 0 <= j < |ts| ==> ts[j].id != id
    ensures 0 <= r ==> ts[r].id == id && forall j :: 0 <= j < r ==> ts[j].id != id
  {
    if ts == [] then -1
    else if ts[0].id == id then 0
    else
      var k := IndexOf(ts[1..], id);
      if k == -1 then -1 else k + 1
  }

  /** What `find` with `task.id == id` yields: the first matching record, or absent. */
  function Lookup(ts: seq<Task>, id: int): (r: Option<Task>)
    ensures r.Some? ==> r.value in ts && r.value.id == id
    ensures r.None? ==> forall t :: t in ts ==> t.id != id
  {
    if ts == [] then None
    else if ts[0].id == id then Some(ts[0])
    else Lookup(ts[1..], id)
  }

  /** `find` and `findIndex` agree: absent exactly when the index is -1, else the record there. */
  lemma {:induction false} LookupAgreesWithIndexOf(ts: seq<Task>, id: int)
    ensures Lookup(ts, id) == if IndexOf(ts, id) == -1 then None else Some(ts[IndexOf(ts, id)])
  {
    if ts != [] && ts[0].id != id {
      LookupAgreesWithIndexOf(ts[1..], id);
    }
  }

  /** Appending a record never changes an earlier hit, and is found only when nothing earlier matches. */
  lemma {:induction false} LookupAppend(ts: seq<Task>, t: Task, id: int)
    ensures Lookup(ts + [t], id) ==
      if Lookup(ts, id).Some? then Lookup(ts, id) else if t.id == id then Some(t) else None
  {
    if ts == [] {
      assert ts + [t] == [t];
    } else {
      assert (ts + [t])[1..] == ts[1..] + [t];
      if ts[0].id != id {
        LookupAppend(ts[1..], t, id);
      }
    }
  }

  /** In a well-formed store ids are unique, so a record is found by its own id. */
  lemma LookupFindsMember(ts: seq<Task>, counter: nat, t: Task)
    requires WellFormed(ts, counter)
    requires t in ts
    ensures Lookup(ts, t.id) == Some(t)
  {
    var u := Lookup(ts, t.id).value;
    var i :| 0 <= i < |ts| && ts[i] == t;
    var j :| 0 <= j < |ts| && ts[j] == u;
  }

  /** The record a new id is issued for is the only one found under that id. */
  lemma NewRecordFound(ts: seq<Task>, counter: nat, name: string, priority: string)
    requires WellFormed(ts, counter)
    ensures WellFormed(ts + [Task(counter + 1, name, priority)], counter + 1)
    ensures Lookup(ts + [Task(counter + 1, name, priority)], counter + 1) == Some(Task(counter + 1, name, priority))
    ensures forall id :: id != counter + 1 ==> Lookup(ts + [Task(counter + 1, name, priority)], id) == Lookup(ts, id)
  {
    var t := Task(counter + 1, name, priority);
    LookupAppend(ts, t, counter + 1);
    forall id | id != counter + 1
      ensures Lookup(ts + [t], id) == Lookup(ts, id)
    {
      LookupAppend(ts, t, id);
    }
  }

  /** Rewriting name and priority at an index keeps every id, and with them the invariant. */
  lemma RenamePreservesWellFormed(ts: seq<Task>, counter: nat, i: nat, name: string, priority: string)
    requires WellFormed(ts, counter) && i < |ts|
    ensures WellFormed(ts[i := ts[i].(name := name, priority := priority)], counter)
  {
  }

  /** After updating the record at the first match of `id`, that id finds the new record and
    * every other id finds what it found before. */
  lemma LookupAfterRename(ts: seq<Task>, counter: nat, id: int, name: string, priority: string)
    requires WellFormed(ts, counter)
    requires IndexOf(ts, id) != -1
    ensures var i := IndexOf(ts, id);
      var ts' := ts[i := ts[i].(name := name, priority := priority)];
      Lookup(ts', id) == Some(Task(id, name, priority)) &&
      forall other :: other != id ==> Lookup(ts', other) == Lookup(ts, other)
  {
    var i := IndexOf(ts, id);
    var ts' := ts[i := ts[i].(name := name, priority := priority)];
    RenamePreservesWellFormed(ts, counter, i, name, priority);
    LookupFindsMember(ts', counter, ts'[i]);
    forall other | other != id
      ensures Lookup(ts', other) == Lookup(ts, other)
    {
      match Lookup(ts, other)
      case Some(t) =>
        var k :| 0 <= k < |ts| && ts[k] == t;
        assert ts'[k] == t;
        LookupFindsMember(ts', counter, t);
      case None =>
    }
  }

  /** Removing one entry keeps the remaining entries in order, and with them the invariant. */
  lemma RemovePreservesWellFormed(ts: seq<Task>, counter: nat, i: nat)
    requires WellFormed(ts, counter) && i < |ts|
    ensures WellFormed(ts[..i] + ts[i + 1..], counter)
  {
    var ts' := ts[..i] + ts[i + 1..];
    assert forall k :: 0 <= k < |ts'| ==> ts'[k] == if k < i then ts[k] else ts[k + 1];
  }

  /** With unique ids, the records left after removing position i are the others, exactly. */
  lemma MembersAfterRemove(ts: seq<Task>, counter: nat, i: nat)
    requires WellFormed(ts, counter) && i < |ts|
    ensures forall t :: t in ts[..i] + ts[i + 1..] <==> t in ts && t != ts[i]
  {
    var ts' := ts[..i] + ts[i + 1..];
    assert forall k :: 0 <= k < |ts'| ==> ts'[k] == if k < i then ts[k] else ts[k + 1];
    forall t | t in ts && t != ts[i]
      ensures t in ts'
    {
      var k :| 0 <= k < |ts| && ts[k] == t;
      assert t == ts'[if k < i then k else k - 1];
    }
  }

  /** After removing the entry at the first match of `id`, that id is gone and every other id
    * finds what it found before. */
  lemma LookupAfterRemove(ts: seq<Task>, counter: nat, id: int)
    requires WellFormed(ts, counter)
    requires IndexOf(ts, id) != -1
    ensures var i := IndexOf(ts, id);
      var ts' := ts[..i] + ts[i + 1..];
      Lookup(ts', id) == None &&
      forall other :: other != id ==> Lookup(ts', other) == Lookup(ts, other)
  {
    var i := IndexOf(ts, id);
    var ts' := ts[..i] + ts[i + 1..];
    MembersAfterRemove(ts, counter, i);
    RemovePreservesWellFormed(ts, counter, i);
    LookupFindsMember(ts, counter, ts[i]);
    if Lookup(ts', id).Some? {
      LookupFindsMember(ts, counter, Lookup(ts', id).value);
    }
    forall other | other != id
      ensures Lookup(ts', other) == Lookup(ts, other)
    {
      if Lookup(ts, other).Some? {
        LookupFindsMember(ts', counter, Lookup(ts, other).value);
      }
    }
  }

  /**
   * The module-level store: the `tasks` array and the counter `id` held by the closure around
   * `__createTask`. `issued` is the ghost record of every id handed out so far.
   */
  class TaskStore {
    var tasks: seq<Task>
    var counter: nat
    ghost var issued: set<int>

    ghost predicate Valid()
      reads this
    {
      WellFormed(tasks, counter) && forall k :: k in issued <==> 1 <= k <= counter
    }

    /** A fresh store: no tasks and a counter at 0, so the first id issued is 1. */
    constructor ()
      ensures Valid()
      ensures tasks == [] && counter == 0 && issued == {}
    {
      tasks := [];
      counter := 0;
      issued := {};
    }

    /** `__createTask`: pre-increments the counter and builds a record carrying the new value. */
    method CreateTask(name: string, priority: string) returns (t: Task)
      requires Valid()
      modifies this`counter, this`issued
      ensures Valid()
      ensures counter == old(counter) + 1
      ensures t == Task(counter, name, priority)
      ensures t.id !in old(issued) && issued == old(issued) + {t.id}
    {
      counter := counter + 1;
      issued := issued + {counter};
      t := Task(counter, name, priority);
    }

    /** `getTasks`: the stored records in insertion order, their ids strictly increasing. */
    method GetTasks() returns (r: seq<Task>)
      requires Valid()
      ensures r == tasks
      ensures forall i, j :: 0 <= i < j < |r| ==> r[i].id < r[j].id
    {
      r := tasks;
    }

    /** `getTaskById`: a linear scan for the first record with the given id. */
    method GetTaskById(id: int) returns (r: Option<Task>)
      ensures r == Lookup(tasks, id)
    {
      var i := 0;
      while i < |tasks| && tasks[i].id != id
        invariant 0 <= i <= |tasks|
        invariant Lookup(tasks[i..], id) == Lookup(tasks, id)
      {
        assert tasks[i..][1..] == tasks[i + 1..];
        i := i + 1;
      }
      r := if i < |tasks| then Some(tasks[i]) else None;
    }

    /** `getTaskIndexById`: a linear scan for the position of the first record with the id, or -1. */
    method GetTaskIndexById(id: int) returns (r: int)
      ensures r == IndexOf(tasks, id)
    {
      var i := 0;
      while i < |tasks| && tasks[i].id != id
        invariant 0 <= i <= |tasks|
        invariant forall j :: 0 <= j < i ==> tasks[j].id != id
      {
        i := i + 1;
      }
      r := if i < |tasks| then i else -1;
    }

    /** `newTask`: issues the next id and appends the new record at the end. */
    method NewTask(name: string, priority: string) returns (t: Task)
      requires Valid()
      modifies this
      ensures Valid()
      ensures counter == old(counter) + 1
      ensures t == Task(counter, name, priority)
      ensures tasks == old(tasks) + [t]
      ensures t.id !in old(issued) && issued == old(issued) + {t.id}
    {
      t := CreateTask(name, priority);
      tasks := tasks + [t];
    }

    /**
     * `updateTask`: sets name and priority of the record `getTaskById` finds. That record is
     * the one at the first-match index (LookupAgreesWithIndexOf), so the assignment through the
     * reference becomes a replacement of that element.
     */
    method UpdateTask(id: int, name: string, priority: string) returns (r: Option<Task>)
      requires Valid()
      modifies this`tasks
      ensures Valid()
      ensures counter == old(counter)
      ensures Lookup(old(tasks), id).None? ==> r == None && tasks == old(tasks)
      ensures Lookup(old(tasks), id).Some? ==>
        r == Some(Lookup(old(tasks), id).value.(name := name, priority := priority)) &&
        tasks == old(tasks)[IndexOf(old(tasks), id) := r.value]
    {
      LookupAgreesWithIndexOf(tasks, id);
      var i := GetTaskIndexById(id);
      if i == -1 {
        r := None;
      } else {
        RenamePreservesWellFormed(tasks, counter, i, name, priority);
        var t := tasks[i].(name := name, priority := priority);
        tasks := tasks[i := t];
        r := Some(t);
      }
    }

    /** `deleteTask`: splices out the record at the first-match index and returns it. */
    method DeleteTask(id: int) returns (r: Option<Task>)
      requires Valid()
      modifies this`tasks
      ensures Valid()
      ensures counter == old(counter) && issued == old(issued)
      ensures r == Lookup(old(tasks), id)
      ensures r.None? ==> tasks == old(tasks)
      ensures r.Some? ==>
        var i := IndexOf(old(tasks), id);
        tasks == old(tasks)[..i] + old(tasks)[i + 1..]
    {
      LookupAgreesWithIndexOf(tasks, id);
      var index := GetTaskIndexById(id);
      if index == -1 {
        return None;
      }
      RemovePreservesWellFormed(tasks, counter, index);
      r := Some(tasks[index]);
      tasks := tasks[..index] + tasks[index + 1..];
    }
  }
}
