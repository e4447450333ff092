/** The task hook's state: the current task list, whether the startup load
    has run, and the browser storage the list is mirrored into. Every
    operation replaces the list by the matching `TaskOps` transformation
    and then, once loaded, writes the encoded list under the storage key. */
module TaskStore {
  import opened Wrappers
  import opened TaskTypes
  import TaskOps
  import opened BrowserStorage

  const StorageKey: string := "openclaw-tasks"

  class Store {
    var tasks: seq<Task>
    var loaded: bool
    const storage: LocalStorage
    /** `JSON.stringify` on task lists. */
    const encode: seq<Task> -> string

    /** The first render: an empty list, not yet loaded. */
    constructor (storage: LocalStorage, encode: seq<Task> -> string)
      ensures tasks == [] && !loaded
      ensures this.storage == storage && this.encode == encode
    {
      tasks := [];
      loaded := false;
      this.storage := storage;
      this.encode := encode;
    }

    /** Storage holds the encoding of the current list. */
    ghost predicate Synced()
      reads this, storage
    {
      StorageKey in storage.items && storage.items[StorageKey] == encode(tasks)
    }

    /** `items` after the write-back effect has seen the current state. */
    ghost function WrittenBack(items: map<string, string>): map<string, string>
      reads this
    {
      if loaded then items[StorageKey := encode(tasks)] else items
    }

    /** The write-back effect: once loaded, the list is stored under the key. */
    method WriteBack()
      modifies storage
      ensures storage.items == WrittenBack(old(storage.items))
      ensures loaded ==> Synced()
    {
      if loaded {
        storage.SetItem(StorageKey, encode(tasks));
      }
    }

    /** The startup effect: read the stored value, take the parsed list or the
        seed, mark the store loaded, and let the write-back effect run. */
    method Load(parse: string -> Option<seq<Task>>)
      modifies this, storage
      ensures tasks == TaskOps.LoadTasks(old(storage.GetItem(StorageKey)), parse)
      ensures loaded && Synced()
      ensures storage.items == old(storage.items)[StorageKey := encode(tasks)]
    {
      var stored := storage.GetItem(StorageKey);
      tasks := TaskOps.LoadTasks(stored, parse);
      loaded := true;
      WriteBack();
    }

    method AddTask(id: string, entryId: string, title: string, description: string,
                   priority: Priority, deadline: string, now: string)
      modifies this`tasks, storage
      ensures tasks == TaskOps.AddTask(old(tasks), id, entryId, title, description, priority, deadline, now)
      ensures storage.items == WrittenBack(old(storage.items))
      ensures loaded ==> Synced()
      ensures UniqueTaskIds(old(tasks)) && (forall i :: 0 <= i < |old(tasks)| ==> old(tasks)[i].id != id)
              ==> UniqueTaskIds(tasks)
    {
      ghost var freshId := UniqueTaskIds(tasks) && forall i :: 0 <= i < |tasks| ==> tasks[i].id != id;
      if freshId {
        TaskOps.AddTaskKeepsIdsUnique(tasks, id, entryId, title, description, priority, deadline, now);
      }
      tasks := TaskOps.AddTask(tasks, id, entryId, title, description, priority, deadline, now);
      WriteBack();
    }

    method UpdateTask(id: string, patch: TaskOps.TaskPatch)
      modifies this`tasks, storage
      ensures tasks == TaskOps.UpdateTask(old(tasks), id, patch)
      ensures storage.items == WrittenBack(old(storage.items))
      ensures loaded ==> Synced()
    {
      tasks := TaskOps.UpdateTask(tasks, id, patch);
      WriteBack();
    }

    method MoveTask(id: string, newStatus: Status, entryId: string, at: string)
      modifies this`tasks, storage
      ensures tasks == TaskOps.MoveTask(old(tasks), id, newStatus, entryId, at)
      ensures TaskOps.LogsExtended(old(tasks), tasks)
      ensures storage.items == WrittenBack(old(storage.items))
      ensures loaded ==> Synced()
    {
      TaskOps.EditsOnlyAppendToLogs(tasks, id, newStatus, TaskOps.NoChanges, entryId, at, "", "", "");
      tasks := TaskOps.MoveTask(tasks, id, newStatus, entryId, at);
      WriteBack();
    }

    method DeleteTask(id: string)
      modifies this`tasks, storage
      ensures tasks == TaskOps.DeleteTask(old(tasks), id)
      ensures forall i :: 0 <= i < |tasks| ==> tasks[i].id != id
      ensures storage.items == WrittenBack(old(storage.items))
      ensures loaded ==> Synced()
    {
      tasks := TaskOps.DeleteTask(tasks, id);
      WriteBack();
    }

    method AddSubtask(taskId: string, subtaskId: string, title: string)
      modifies this`tasks, storage
      ensures tasks == TaskOps.AddSubtask(old(tasks), taskId, subtaskId, title)
      ensures storage.items == WrittenBack(old(storage.items))
      ensures loaded ==> Synced()
    {
      tasks := TaskOps.AddSubtask(tasks, taskId, subtaskId, title);
      WriteBack();
    }

    method ToggleSubtask(taskId: string, subtaskId: string)
      modifies this`tasks, storage
      ensures tasks == TaskOps.ToggleSubtask(old(tasks), taskId, subtaskId)
      ensures storage.items == WrittenBack(old(storage.items))
      ensures loaded ==> Synced()
    {
      tasks := TaskOps.ToggleSubtask(tasks, taskId, subtaskId);
      WriteBack();
    }

    method AddComment(taskId: string, commentId: string, text: string, commentAt: string,
                      entryId: string, entryAt: string)
      modifies this`tasks, storage
      ensures tasks == TaskOps.AddComment(old(tasks), taskId, commentId, text, commentAt, entryId, entryAt)
      ensures TaskOps.LogsExtended(old(tasks), tasks)
      ensures storage.items == WrittenBack(old(storage.items))
      ensures loaded ==> Synced()
    {
      TaskOps.EditsOnlyAppendToLogs(tasks, taskId, Pending, TaskOps.NoChanges, commentId, text, commentAt, entryId, entryAt);
      tasks := TaskOps.AddComment(tasks, taskId, commentId, text, commentAt, entryId, entryAt);
      WriteBack();
    }
  }

  /** A synced store reloads to the same list, whenever `parse` undoes the
      store's `encode`. */
  lemma ReloadRestores(st: Store, parse: string -> Option<seq<Task>>)
    requires st.Synced()
    requires st.encode(st.tasks) != "" && parse(st.encode(st.tasks)) == Some(st.tasks)
    ensures TaskOps.LoadTasks(st.storage.GetItem(StorageKey), parse) == st.tasks
  {
    TaskOps.LoadAfterSave(st.tasks, st.encode, parse);
  }
}
