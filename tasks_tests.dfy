/**
 * The sequence of calls tests/tasks.test.js makes on one store, with the results it expects.
 */
module TasksTests {
  import opened Wrappers
  import opened Tasks

  const Added: seq<Task> := [Task(1, "taskOne", "low"), Task(2, "taskTwo", "normal"), Task(3, "taskThree", "high")]
  const Renamed: seq<Task> :=
    [Task(1, "newName", "newPriority"), Task(2, "newName", "newPriority"), Task(3, "newName", "newPriority")]

  /** A fresh store lists nothing and finds nothing. */
  method InitialTasks() returns (all: seq<Task>, found: Option<Task>, index: int)
    ensures all == [] && found == None && index == -1
  {
    var store := new TaskStore();
    all := store.GetTasks();
    found := store.GetTaskById(0);
    index := store.GetTaskIndexById(0);
  }

  /** Three tasks added to a fresh store get ids 1, 2 and 3, in order. */
  method AddingTasks() returns (store: TaskStore, created: seq<Task>)
    ensures fresh(store) && store.Valid()
    ensures created == Added && store.tasks == Added
  {
    store := new TaskStore();
    var t1 := store.NewTask("taskOne", "low");
    var t2 := store.NewTask("taskTwo", "normal");
    var t3 := store.NewTask("taskThree", "high");
    created := [t1, t2, t3];
  }

  /** With the three tasks stored, ids 1 to 3 find them and 0 and 4 find nothing. */
  method LookupsAfterAdding(store: TaskStore) returns (found: seq<Option<Task>>, indices: seq<int>)
    requires store.Valid() && store.tasks == Added
    ensures found == [None, Some(Added[0]), Some(Added[1]), Some(Added[2]), None]
    ensures indices == [-1, 0, 1, 2, -1]
  {
    LookupFindsMember(Added, store.counter, Added[0]);
    LookupFindsMember(Added, store.counter, Added[1]);
    LookupFindsMember(Added, store.counter, Added[2]);
    var miss0 := store.GetTaskById(0);
    var hit1 := store.GetTaskById(1);
    var hit2 := store.GetTaskById(2);
    var hit3 := store.GetTaskById(3);
    var miss4 := store.GetTaskById(4);
    found := [miss0, hit1, hit2, hit3, miss4];

    var i0 := store.GetTaskIndexById(0);
    var i1 := store.GetTaskIndexById(1);
    var i2 := store.GetTaskIndexById(2);
    var i3 := store.GetTaskIndexById(3);
    var i4 := store.GetTaskIndexById(4);
    indices := [i0, i1, i2, i3, i4];
  }

  /** Updating missing ids changes nothing; updating 1, 2 and 3 rewrites each of them. */
  method UpdatingTasks(store: TaskStore)
    requires store.Valid() && store.tasks == Added
    modifies store
    ensures store.Valid() && store.tasks == Renamed
  {
    var u0 := store.UpdateTask(0, "newName", "newPriority");
    var u4 := store.UpdateTask(4, "newName", "newPriority");
    assert u0 == None && u4 == None;
    LookupFindsMember(store.tasks, store.counter, store.tasks[0]);
    var u1 := store.UpdateTask(1, "newName", "newPriority");
    assert u1 == Some(Renamed[0]) && store.tasks == [Renamed[0], Added[1], Added[2]];
    LookupFindsMember(store.tasks, store.counter, store.tasks[1]);
    var u2 := store.UpdateTask(2, "newName", "newPriority");
    assert u2 == Some(Renamed[1]) && store.tasks == [Renamed[0], Renamed[1], Added[2]];
    LookupFindsMember(store.tasks, store.counter, store.tasks[2]);
    var u3 := store.UpdateTask(3, "newName", "newPriority");
    assert u3 == Some(Renamed[2]);
  }

  /** Deleting missing ids returns absent; deleting 1, 2 and 3 returns each and empties the store. */
  method DeletingTasks(store: TaskStore) returns (deleted: seq<Option<Task>>)
    requires store.Valid() && store.tasks == Renamed
    modifies store
    ensures store.Valid() && store.tasks == []
    ensures deleted == [None, None, Some(Renamed[0]), Some(Renamed[1]), Some(Renamed[2]), None]
  {
    var d0 := store.DeleteTask(0);
    var d4 := store.DeleteTask(4);
    var d1 := store.DeleteTask(1);
    var d2 := store.DeleteTask(2);
    var d3 := store.DeleteTask(3);
    var dEmpty := store.DeleteTask(0);
    deleted := [d0, d4, d1, d2, d3, dEmpty];
  }

  /** The whole file, in the order its describe blocks run against the one store. */
  method TaskLifecycle() returns (created: seq<Task>, deleted: seq<Option<Task>>, remaining: seq<Task>)
    ensures created == Added
    ensures deleted == [None, None, Some(Renamed[0]), Some(Renamed[1]), Some(Renamed[2]), None]
    ensures remaining == []
  {
    var store;
    store, created := AddingTasks();
    var found, indices := LookupsAfterAdding(store);
    UpdatingTasks(store);
    deleted := DeletingTasks(store);
    remaining := store.GetTasks();
  }
}
