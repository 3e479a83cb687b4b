/** The list controller of src/components/wrapper/TodoWrapper.jsx: the
    component's `todos` state and the browser's local store, with the five
    operations it hands to its views and the load step it runs on mount. */
module Wrapper {
  import opened TodoList

  /** The object `persistData` serialises under the storage key: `{ todos: newList }`.
      Serialisation is taken to be the identity. */
  datatype Blob = Blob(todos: seq<Todo>)

  /** The one key the controller uses in the local store. */
  const StorageKey: string := "todos"

  /** The store after `persistData(list)`. */
  function Persisted(store: map<string, Blob>, list: seq<Todo>): map<string, Blob>
  {
    store[StorageKey := Blob(list)]
  }

  /** The list the mount effect leaves in state when the state was `current`. */
  function Loaded(store: map<string, Blob>, current: seq<Todo>): seq<Todo>
  {
    if StorageKey in store then store[StorageKey].todos else current
  }

  /** `persistData` overwrites the storage key and no other. */
  lemma PersistedSpec(store: map<string, Blob>, list: seq<Todo>)
    ensures StorageKey in Persisted(store, list)
    ensures Persisted(store, list)[StorageKey].todos == list
    ensures Persisted(store, list).Keys == store.Keys + {StorageKey}
    ensures forall k :: k in store && k != StorageKey ==> Persisted(store, list)[k] == store[k]
  {
  }

  /** Loading what `persistData(list)` wrote yields `list`, whatever the
      state was; with the key absent, the state is left as it was. */
  lemma LoadRoundTrip(store: map<string, Blob>, list: seq<Todo>, current: seq<Todo>)
    ensures Loaded(Persisted(store, list), current) == list
    ensures StorageKey !in store ==> Loaded(store, current) == current
  {
  }

  class TodoWrapper {
    /** The component's `todos` state. */
    var todos: seq<Todo>
    /** The browser's local store, shared with earlier sessions. */
    var store: map<string, Blob>

    /** Mounting the component: `useState([])` against whatever store
        earlier sessions left behind. */
    constructor (store: map<string, Blob>)
      ensures todos == [] && this.store == store
    {
      todos := [];
      this.store := store;
    }

    /** Writes `{ todos: newList }` under the storage key. */
    method PersistData(newList: seq<Todo>)
      modifies this`store
      ensures store == Persisted(old(store), newList)
      ensures store[StorageKey].todos == newList
      ensures forall k :: k in old(store) && k != StorageKey ==> k in store && store[k] == old(store)[k]
    {
      store := Persisted(store, newList);
    }

    /** Persists the old list plus a record with one fresh id, then shows the
        old list plus a record with a second fresh id: the two copies agree
        on everything but the new record's id. */
    method AddTodo(task: string, persistedId: string, shownId: string)
      modifies this
      ensures todos == old(todos) + [NewTodo(shownId, task)]
      ensures store == Persisted(old(store), old(todos) + [NewTodo(persistedId, task)])
      ensures |store[StorageKey].todos| == |todos| == |old(todos)| + 1
      ensures store[StorageKey].todos[..|old(todos)|] == todos[..|old(todos)|] == old(todos)
      ensures store[StorageKey].todos[|old(todos)|] == todos[|old(todos)|].(id := persistedId)
    {
      PersistData(todos + [NewTodo(persistedId, task)]);
      todos := todos + [NewTodo(shownId, task)];
    }

    /** Flips `completed` on the records carrying `id`; the store is not written. */
    method ToggleComplete(id: string)
      modifies this`todos
      ensures todos == Toggled(old(todos), id)
      ensures store == old(store)
    {
      todos := Toggled(todos, id);
    }

    /** Drops the records carrying `id`; the store is not written. */
    method DeleteTodo(id: string)
      modifies this`todos
      ensures todos == Deleted(old(todos), id)
      ensures store == old(store)
    {
      todos := Deleted(todos, id);
    }

    /** Flips `isEditing` on the records carrying `id`; the store is not written. */
    method EditTodo(id: string)
      modifies this`todos
      ensures todos == EditToggled(old(todos), id)
      ensures store == old(store)
    {
      todos := EditToggled(todos, id);
    }

    /** Replaces the task and flips `isEditing` on the records carrying `id`;
        the store is not written. */
    method EditTask(task: string, id: string)
      modifies this`todos
      ensures todos == TaskEdited(old(todos), task, id)
      ensures store == old(store)
    {
      todos := TaskEdited(todos, task, id);
    }

    /** The mount effect: with no stored list the state is left as it is,
        otherwise it becomes the `todos` field of the stored blob. */
    method Load()
      modifies this`todos
      ensures todos == Loaded(store, old(todos))
      ensures StorageKey !in store ==> todos == old(todos)
      ensures StorageKey in store ==> todos == store[StorageKey].todos
      ensures store == old(store)
    {
      todos := Loaded(store, todos);
    }
  }

  /** Adding "milk" to an empty list and reloading in a fresh component from
      the same store: the reloaded record is the persisted one, whose id is
      the first generated id, not the one shown before the restart. */
  method RestartAfterAdd(persistedId: string, shownId: string)
    returns (before: seq<Todo>, after: seq<Todo>)
    ensures before == [Todo(shownId, "milk", false, false)]
    ensures after == [Todo(persistedId, "milk", false, false)]
    ensures persistedId != shownId ==> before != after
  {
    var session := new TodoWrapper(map[]);
    session.AddTodo("milk", persistedId, shownId);
    before := session.todos;
    var restarted := new TodoWrapper(session.store);
    restarted.Load();
    after := restarted.todos;
  }

  /** A session on one item: add, complete, open the editor, commit a new
      task, delete. The id the views pass back is the one shown. */
  method MilkSession(persistedId: string, shownId: string)
    returns (added: seq<Todo>, committed: seq<Todo>, deleted: seq<Todo>, stored: seq<Todo>)
    ensures added == [Todo(shownId, "milk", false, false)]
    ensures committed == [Todo(shownId, "almond milk", true, false)]
    ensures deleted == []
    ensures stored == [Todo(persistedId, "milk", false, false)]
  {
    var session := new TodoWrapper(map[]);
    session.AddTodo("milk", persistedId, shownId);
    added := session.todos;
    session.ToggleComplete(shownId);
    ToggledSpec(added, shownId);
    var completed := session.todos;
    session.EditTodo(shownId);
    EditToggledSpec(completed, shownId);
    var editing := session.todos;
    session.EditTask("almond milk", shownId);
    TaskEditedSpec(editing, "almond milk", shownId);
    committed := session.todos;
    session.DeleteTodo(shownId);
    DeletedMembers(committed, shownId);
    deleted := session.todos;
    stored := session.store[StorageKey].todos;
  }
}
