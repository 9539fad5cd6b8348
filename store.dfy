/** The module-level state of script.js, `tasks` and `taskToDelete`, as one
    object whose methods make the same changes as `addTask`, `toggleComplete`,
    `openConfirmModal`, `closeConfirmModal`, `confirmDelete` and the reorder
    handler. Saving to `localStorage` and re-rendering are not part of it. */
module Store {
  import opened Tasks
  import opened Progress

  class TaskStore {
    /** The `tasks` array, in stored order. */
    var tasks: seq<Task>
    /** `taskToDelete`: the id the confirmation dialog asks about, if it is open. */
    var pendingDelete: Option<int>

    /** The state before `loadTasks` finds anything saved. */
    constructor ()
      ensures tasks == [] && pendingDelete == None
    {
      tasks := [];
      pendingDelete := None;
    }

    /** `addTask`: append the new task, or leave the list alone and report the
        blank text. */
    method AddTask(textInput: string, dueInput: Option<int>, categoryInput: string,
                   priority: Priority, id: int, now: int) returns (r: Result<Task, AddError>)
      modifies this`tasks
      ensures r == NewTask(textInput, dueInput, categoryInput, priority, id, now)
      ensures r.Failure? ==> tasks == old(tasks)
      ensures r.Success? ==> tasks == old(tasks) + [r.value]
    {
      r := NewTask(textInput, dueInput, categoryInput, priority, id, now);
      if r.Success? {
        tasks := tasks + [r.value];
      }
    }

    /** `toggleComplete(id)`. */
    method ToggleComplete(id: int)
      modifies this`tasks
      ensures tasks == Toggled(old(tasks), id)
    {
      tasks := Toggled(tasks, id);
    }

    /** `openConfirmModal(id)`: remember which task the dialog asks about. */
    method OpenConfirm(id: int)
      modifies this`pendingDelete
      ensures pendingDelete == Some(id)
    {
      pendingDelete := Some(id);
    }

    /** `closeConfirmModal`: forget the pending id. */
    method CloseConfirm()
      modifies this`pendingDelete
      ensures pendingDelete == None
    {
      pendingDelete := None;
    }

    /** `confirmDelete`: with no pending id nothing happens; otherwise the tasks
        with that id go and the dialog closes. */
    method ConfirmDelete()
      modifies this
      ensures old(pendingDelete).None? ==> tasks == old(tasks)
      ensures old(pendingDelete).Some? ==> tasks == Removed(old(tasks), old(pendingDelete).value)
      ensures pendingDelete == None
    {
      if pendingDelete.None? {
        return;
      }
      tasks := Removed(tasks, pendingDelete.value);
      CloseConfirm();
    }

    /** The `onEnd` handler's `tasks.sort` by position in `orderedIds`. */
    method Reorder(orderedIds: seq<int>)
      modifies this`tasks
      ensures tasks == Reordered(old(tasks), orderedIds)
    {
      tasks := Reordered(tasks, orderedIds);
    }

    /** The percentage `updateProgress` shows. */
    function Percent(): (p: nat)
      reads this
      ensures p <= 100
      ensures tasks == [] ==> p == 0
    {
      ProgressPercent(tasks)
    }
  }

  /** Confirming a deletion twice removes the task once: the second confirmation
      finds no pending id, and even with the id pending again nothing changes. */
  method DeleteTwice(store: TaskStore, id: int)
    modifies store
    ensures store.tasks == Removed(old(store.tasks), id)
    ensures store.pendingDelete == None
  {
    store.OpenConfirm(id);
    store.ConfirmDelete();
    var once := store.tasks;
    store.ConfirmDelete();
    assert store.tasks == once;
    store.OpenConfirm(id);
    store.ConfirmDelete();
    RemovedTwice(old(store.tasks), id);
  }

  /** Toggling twice leaves the store as it was. */
  method ToggleTwice(store: TaskStore, id: int)
    modifies store`tasks
    ensures store.tasks == old(store.tasks)
    ensures store.pendingDelete == old(store.pendingDelete)
  {
    store.ToggleComplete(id);
    store.ToggleComplete(id);
    ToggledTwice(old(store.tasks), id);
  }
}
