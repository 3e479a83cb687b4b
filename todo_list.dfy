/** The records of the shopping list and the pure list transformations the
    list controller (src/components/wrapper/TodoWrapper.jsx) computes before
    handing the new list to its state. */
module TodoList {

  /** One list entry, with the field names of its persisted form. */
  datatype Todo = Todo(id: string, task: string, completed: bool, isEditing: bool)

  /** The record `addTodo` builds: not completed, not being edited. */
  function NewTodo(id: string, task: string): Todo
  {
    Todo(id, task, false, false)
  }

  /** Some record of `ts` carries `id`. */
  predicate HasId(ts: seq<Todo>, id: string)
  {
    exists i :: 0 <= i < |ts| && ts[i].id == id
  }

  /** No two records of `ts` share an id. */
  predicate UniqueIds(ts: seq<Todo>)
  {
    forall i, j :: 0 <= i < j < |ts| ==> ts[i].id != ts[j].id
  }

  /** The record update applied by one of the controller's `map` callbacks. */
  datatype Change =
    | FlipCompleted          // toggleComplete: flip `completed`
    | FlipEditing            // editTodo: flip `isEditing`
    | SetTask(task: string)  // editTask: set the task and flip `isEditing`

  function Apply(c: Change, t: Todo): Todo
  {
    match c
    case FlipCompleted => t.(completed := !t.completed)
    case FlipEditing => t.(isEditing := !t.isEditing)
    case SetTask(task) => t.(task := task, isEditing := !t.isEditing)
  }

  /** The list with `c` applied to every record whose id is `id` and every
      other record kept, in the same order. */
  function MapMatching(ts: seq<Todo>, id: string, c: Change): seq<Todo>
  {
    if ts == [] then []
    else [if ts[0].id == id then Apply(c, ts[0]) else ts[0]] + MapMatching(ts[1..], id, c)
  }

  /** The list `toggleComplete(id)` installs. */
  function Toggled(ts: seq<Todo>, id: string): seq<Todo>
  {
    MapMatching(ts, id, FlipCompleted)
  }

  /** The list `editTodo(id)` installs. */
  function EditToggled(ts: seq<Todo>, id: string): seq<Todo>
  {
    MapMatching(ts, id, FlipEditing)
  }

  /** The list `editTask(task, id)` installs. */
  function TaskEdited(ts: seq<Todo>, task: string, id: string): seq<Todo>
  {
    MapMatching(ts, id, SetTask(task))
  }

  /** The records whose id differs from `id`, in their original order. */
  function Deleted(ts: seq<Todo>, id: string): seq<Todo>
  {
    if ts == [] then []
    else (if ts[0].id != id then [ts[0]] else []) + Deleted(ts[1..], id)
  }

  // ---------------------------------------------------------------------
  // The mapping operations

  /** `map` keeps length and order: record i of the result is record i of
      the input, changed exactly when its id matches. */
  lemma {:induction false} MapMatchingAt(ts: seq<Todo>, id: string, c: Change)
    ensures |MapMatching(ts, id, c)| == |ts|
    ensures forall i :: 0 <= i < |ts| ==>
      MapMatching(ts, id, c)[i] == if ts[i].id == id then Apply(c, ts[i]) else ts[i]
  {
    if ts != [] {
      MapMatchingAt(ts[1..], id, c);
      forall i | 1 <= i < |ts|
        ensures MapMatching(ts, id, c)[i] == MapMatching(ts[1..], id, c)[i - 1]
      {
      }
    }
  }

  /** A lookup miss leaves the list as it was. */
  lemma {:induction false} MapMatchingMiss(ts: seq<Todo>, id: string, c: Change)
    requires !HasId(ts, id)
    ensures MapMatching(ts, id, c) == ts
  {
    MapMatchingAt(ts, id, c);
  }

  /** No change alters an id, so the ids (and their uniqueness) survive. */
  lemma {:induction false} MapMatchingKeepsIds(ts: seq<Todo>, id: string, c: Change)
    ensures |MapMatching(ts, id, c)| == |ts|
    ensures forall i :: 0 <= i < |ts| ==> MapMatching(ts, id, c)[i].id == ts[i].id
    ensures UniqueIds(ts) ==> UniqueIds(MapMatching(ts, id, c))
    ensures HasId(MapMatching(ts, id, c), id) <==> HasId(ts, id)
  {
    MapMatchingAt(ts, id, c);
    var r := MapMatching(ts, id, c);
    if HasId(r, id) {
      var i :| 0 <= i < |r| && r[i].id == id;
      assert ts[i].id == id;
    }
    if HasId(ts, id) {
      var i :| 0 <= i < |ts| && ts[i].id == id;
      assert r[i].id == id;
    }
  }

  /** Applying a flip twice to the same id gives back the original list. */
  lemma {:induction false} MapMatchingTwice(ts: seq<Todo>, id: string, c: Change)
    requires c.FlipCompleted? || c.FlipEditing?
    ensures MapMatching(MapMatching(ts, id, c), id, c) == ts
  {
    var r := MapMatching(ts, id, c);
    MapMatchingAt(ts, id, c);
    MapMatchingAt(r, id, c);
  }

  /** toggleComplete keeps length and order, flips `completed` on the
      matching records and on nothing else, and misses are identities. */
  lemma ToggledSpec(ts: seq<Todo>, id: string)
    ensures |Toggled(ts, id)| == |ts|
    ensures forall i :: 0 <= i < |ts| && ts[i].id == id ==>
      Toggled(ts, id)[i] == Todo(ts[i].id, ts[i].task, !ts[i].completed, ts[i].isEditing)
    ensures forall i :: 0 <= i < |ts| && ts[i].id != id ==> Toggled(ts, id)[i] == ts[i]
    ensures !HasId(ts, id) ==> Toggled(ts, id) == ts
  {
    MapMatchingAt(ts, id, FlipCompleted);
    if !HasId(ts, id) {
      MapMatchingMiss(ts, id, FlipCompleted);
    }
  }

  /** toggleComplete is an involution. */
  lemma ToggledTwice(ts: seq<Todo>, id: string)
    ensures Toggled(Toggled(ts, id), id) == ts
  {
    MapMatchingTwice(ts, id, FlipCompleted);
  }

  /** editTodo keeps length and order, flips `isEditing` on the matching
      records and on nothing else, and misses are identities. */
  lemma EditToggledSpec(ts: seq<Todo>, id: string)
    ensures |EditToggled(ts, id)| == |ts|
    ensures forall i :: 0 <= i < |ts| && ts[i].id == id ==>
      EditToggled(ts, id)[i] == Todo(ts[i].id, ts[i].task, ts[i].completed, !ts[i].isEditing)
    ensures forall i :: 0 <= i < |ts| && ts[i].id != id ==> EditToggled(ts, id)[i] == ts[i]
    ensures !HasId(ts, id) ==> EditToggled(ts, id) == ts
  {
    MapMatchingAt(ts, id, FlipEditing);
    if !HasId(ts, id) {
      MapMatchingMiss(ts, id, FlipEditing);
    }
  }

  /** editTodo is an involution: a second click cancels edit mode. */
  lemma EditToggledTwice(ts: seq<Todo>, id: string)
    ensures EditToggled(EditToggled(ts, id), id) == ts
  {
    MapMatchingTwice(ts, id, FlipEditing);
  }

  /** editTask sets the task and negates `isEditing` on the matching
      records, keeps their `id` and `completed`, leaves the other records
      alone, and commits out of edit mode a record that was in it. */
  lemma TaskEditedSpec(ts: seq<Todo>, task: string, id: string)
    ensures |TaskEdited(ts, task, id)| == |ts|
    ensures forall i :: 0 <= i < |ts| && ts[i].id == id ==>
      TaskEdited(ts, task, id)[i] == Todo(ts[i].id, task, ts[i].completed, !ts[i].isEditing)
    ensures forall i :: 0 <= i < |ts| && ts[i].id != id ==> TaskEdited(ts, task, id)[i] == ts[i]
    ensures forall i :: 0 <= i < |ts| && ts[i].id == id && ts[i].isEditing ==>
      !TaskEdited(ts, task, id)[i].isEditing
    ensures !HasId(ts, id) ==> TaskEdited(ts, task, id) == ts
  {
    MapMatchingAt(ts, id, SetTask(task));
    if !HasId(ts, id) {
      MapMatchingMiss(ts, id, SetTask(task));
    }
  }

  // ---------------------------------------------------------------------
  // The filtering operation

  /** deleteTodo keeps exactly the records whose id differs, never grows
      the list, shrinks it when the id is present and is an identity when
      it is not. */
  lemma {:induction false} DeletedMembers(ts: seq<Todo>, id: string)
    ensures forall t :: t in Deleted(ts, id) <==> t in ts && t.id != id
    ensures |Deleted(ts, id)| <= |ts|
    ensures HasId(ts, id) ==> |Deleted(ts, id)| < |ts|
    ensures !HasId(ts, id) ==> Deleted(ts, id) == ts
  {
    if ts != [] {
      var rest := ts[1..];
      DeletedMembers(rest, id);
      assert ts == [ts[0]] + rest;
      forall t
        ensures t in Deleted(ts, id) <==> t in ts && t.id != id
      {
        assert t in ts <==> t == ts[0] || t in rest;
      }
      if HasId(ts, id) && ts[0].id != id {
        var i :| 0 <= i < |ts| && ts[i].id == id;
        assert rest[i - 1].id == id;
      }
      if !HasId(ts, id) {
        assert ts[0].id != id;
      }
    }
  }

  /** Filtering distributes over concatenation: the survivors keep their
      original relative order. */
  lemma {:induction false} DeletedConcat(a: seq<Todo>, b: seq<Todo>, id: string)
    ensures Deleted(a + b, id) == Deleted(a, id) + Deleted(b, id)
  {
    if a != [] {
      DeletedConcat(a[1..], b, id);
      assert (a + b)[1..] == a[1..] + b;
    } else {
      assert a + b == b;
    }
  }

  /** With unique ids, deleting a present id removes exactly that one
      record and leaves the others, in order. */
  lemma DeletedUnique(ts: seq<Todo>, k: nat, id: string)
    requires UniqueIds(ts)
    requires k < |ts| && ts[k].id == id
    ensures Deleted(ts, id) == ts[..k] + ts[k + 1..]
  {
    var before, after := ts[..k], ts[k + 1..];
    NoIdOutside(ts, k);
    var kept := Deleted(before, id);
    var tail := Deleted([ts[k]] + after, id);
    assert kept == before by {
      DeletedMembers(before, id);
    }
    assert tail == after by {
      assert ([ts[k]] + after)[1..] == after;
      DeletedMembers(after, id);
    }
    assert ts == before + ([ts[k]] + after);
    DeletedConcat(before, [ts[k]] + after, id);
  }

  /** With unique ids, the id of record k occurs nowhere else. */
  lemma NoIdOutside(ts: seq<Todo>, k: nat)
    requires UniqueIds(ts) && k < |ts|
    ensures !HasId(ts[..k], ts[k].id) && !HasId(ts[k + 1..], ts[k].id)
  {
  }

  /** The survivors of a filter are a subsequence, so unique ids stay unique. */
  lemma {:induction false} DeletedKeepsUniqueIds(ts: seq<Todo>, id: string)
    requires UniqueIds(ts)
    ensures UniqueIds(Deleted(ts, id))
  {
    if ts != [] {
      var rest := ts[1..];
      DeletedKeepsUniqueIds(rest, id);
      DeletedMembers(rest, id);
      var r := Deleted(ts, id);
      if ts[0].id != id {
        assert r == [ts[0]] + Deleted(rest, id);
        forall j | 0 < j < |r|
          ensures r[0].id != r[j].id
        {
          assert r[j] in Deleted(rest, id);
          var m :| 0 <= m < |rest| && rest[m] == r[j];
          assert ts[m + 1] == r[j];
        }
      }
    }
  }

  // ---------------------------------------------------------------------
  // The append operation

  /** addTodo grows the list by one record at the end and keeps the old
      records unchanged and in order. */
  lemma AppendSpec(ts: seq<Todo>, id: string, task: string)
    ensures |ts + [NewTodo(id, task)]| == |ts| + 1
    ensures (ts + [NewTodo(id, task)])[..|ts|] == ts
    ensures (ts + [NewTodo(id, task)])[|ts|] == Todo(id, task, false, false)
  {
  }

  /** Appending a record with a fresh id keeps ids unique. */
  lemma AppendKeepsUniqueIds(ts: seq<Todo>, id: string, task: string)
    requires UniqueIds(ts) && !HasId(ts, id)
    ensures UniqueIds(ts + [NewTodo(id, task)])
  {
    var r := ts + [NewTodo(id, task)];
    forall i, j | 0 <= i < j < |r|
      ensures r[i].id != r[j].id
    {
      if j == |ts| {
        assert r[i] == ts[i];
      }
    }
  }
}
