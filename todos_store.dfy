/** The todo store: an in-memory mirror of the backend's todo collection with
    a loading flag and the last error message. Each action is one atomic
    step that takes the backend's answer as a parameter; the list is changed
    only after the backend succeeded, except by the optimistic reorder. */
module Store {
  import opened Wrappers
  import opened Types
  import opened ListMove
  import opened TodoList
  import TodosApi
  import opened Celebrations

  const LoadError := "Failed to load todos"
  const AddError := "Failed to add todo"
  const UpdateError := "Failed to update todo"
  const DeleteError := "Failed to delete todo"
  const ReorderError := "Failed to reorder todos"

  /** The fields `addTodo` fills in before creating a todo: an unchecked
      `completed`, medium priority and no tags unless given, and the
      current list length as its order. */
  function AddPayload(data: TodoPatch, length: nat): (r: TodosApi.NewTodo)
    ensures !r.completed && r.order == length
    ensures r.text == data.text.GetOr("") && r.dueDate == data.dueDate
    ensures data.priority.None? ==> r.priority == Medium
    ensures data.priority.Some? ==> r.priority == data.priority.value
    ensures data.tags.None? ==> r.tags == []
    ensures data.tags.Some? ==> r.tags == data.tags.value
  {
    TodosApi.NewTodo(
      data.text.GetOr(""), false, data.priority.GetOr(Medium), data.dueDate,
      data.tags.GetOr([]), length)
  }

  /** The celebrations `toggleCompletion` triggers once `updated` is stored
      and the list is `s`: one for the task when it is now completed, then
      one for the whole list when nothing in a non-empty list is active. */
  function CompletionSignals(updated: Todo, s: seq<Todo>): (r: seq<CelebrationType>)
    ensures r == [] <==> !updated.completed
    ensures |r| <= 2 && (r != [] ==> r[0] == TaskCompleted)
    ensures |r| == 2 <==> updated.completed && |s| > 0 && ActiveCount(s) == 0
    ensures |r| == 2 ==> r[1] == AllCompleted
  {
    if !updated.completed then []
    else if ActiveCount(s) == 0 && |s| > 0 then [TaskCompleted, AllCompleted]
    else [TaskCompleted]
  }

  /** Completing the last active todo of a list without duplicate ids
      triggers the task celebration and then the all-completed one. */
  lemma LastToggleCelebratesAll(s: seq<Todo>, updated: Todo)
    requires UniqueIds(s) && ContainsId(s, updated.id) && updated.completed
    requires forall j :: 0 <= j < |s| && s[j].id != updated.id ==> s[j].completed
    ensures CompletionSignals(updated, ReplaceFirst(s, updated.id, updated)) == [TaskCompleted, AllCompleted]
  {
    var r := ReplaceFirst(s, updated.id, updated);
    var i := FindIndex(s, updated.id).value;
    forall j | 0 <= j < |r| ensures r[j].completed {
      if j != i {
        assert s[j].id != updated.id;
      }
    }
  }

  /** `addTodo` does not look for the created id in the list, so a realtime
      `create` for the same record that lands first leaves it listed twice. */
  lemma RealtimeCreateThenAddDuplicates(s: seq<Todo>, created: Todo)
    ensures !UniqueIds([created] + ApplyRealtime(s, "create", created))
  {
    var r := ApplyRealtime(s, "create", created);
    RealtimeCreate(s, created);
    var k :| 0 <= k < |r| && r[k].id == created.id;
    var t := [created] + r;
    assert t[0].id == t[k + 1].id;
  }

  /** A created record whose id is new keeps the list free of duplicates. */
  lemma AddKeepsUnique(s: seq<Todo>, created: Todo)
    requires UniqueIds(s) && !ContainsId(s, created.id)
    ensures UniqueIds([created] + s)
  {
    var r := [created] + s;
    forall i, j | 0 <= i < j < |r| ensures r[i].id != r[j].id {
      assert r[j] == s[j - 1];
      if i > 0 {
        assert r[i] == s[i - 1];
      }
    }
  }

  /** Reorder indices the action acts on: distinct and both inside the list. */
  predicate ValidMove(length: nat, fromIndex: int, toIndex: int) {
    fromIndex != toIndex && 0 <= fromIndex < length && 0 <= toIndex < length
  }

  class TodosStore {
    var todos: seq<Todo>
    var isLoading: bool
    var error: Option<string>

    constructor ()
      ensures todos == [] && !isLoading && error == None
    {
      todos := [];
      isLoading := false;
      error := None;
    }

    /** `loadTodos()`: fetch the whole collection (newest first) and replace
        the list with it. A failure is recorded and swallowed, leaving the
        list as it was. The loading flag is down again afterwards. */
    method LoadTodos(fetched: Outcome<seq<Todo>>) returns (request: TodosApi.FullListRequest)
      modifies this
      ensures request == TodosApi.FetchRequest(TodosApi.NoOptions) && request.sort == TodosApi.DefaultSort
      ensures !isLoading
      ensures fetched.Success? ==> todos == fetched.value && error == None
      ensures fetched.Failure? ==> todos == old(todos) && error == Some(LoadError)
    {
      isLoading := true;
      error := None;
      request := TodosApi.FetchRequest(TodosApi.NoOptions);
      match fetched {
        case Success(result) => todos := result;
        case Failure => error := Some(LoadError);
      }
      isLoading := false;
    }

    /** `addTodo(data)`: create the todo with its defaults, owned by the
        signed-in user, then put the backend's record at the front of the
        list. A failure leaves the list alone, records the error and is
        rethrown. */
    method AddTodo(data: TodoPatch, authModelId: Option<string>, created: Outcome<Todo>)
      returns (request: TodosApi.CreateRequest, r: Outcome<Todo>)
      modifies this
      ensures request == TodosApi.CreatePayload(AddPayload(data, |old(todos)|), authModelId)
      ensures r == created && isLoading == old(isLoading)
      ensures created.Success? ==> todos == [created.value] + old(todos) && error == old(error)
      ensures created.Failure? ==> todos == old(todos) && error == Some(AddError)
    {
      request := TodosApi.CreatePayload(AddPayload(data, |todos|), authModelId);
      r := created;
      match created {
        case Success(t) => todos := [t] + todos;
        case Failure => error := Some(AddError);
      }
    }

    /** `toggleCompletion(id)`: nothing at all for an id the list does not
        hold. Otherwise toggle it on the backend, put the returned record in
        place of the first entry with the id, and report the celebrations
        that triggers. A failure leaves the list alone, records the error
        and is rethrown. */
    method ToggleCompletion(id: string, current: Outcome<Todo>, now: string, updated: Outcome<Todo>)
      returns (call: Option<TodosApi.ToggleCall>, signals: seq<CelebrationType>, r: Outcome<Option<Todo>>)
      modifies this
      ensures isLoading == old(isLoading)
      ensures !ContainsId(old(todos), id) ==>
        call.None? && signals == [] && r == Success(None) && todos == old(todos) && error == old(error)
      ensures ContainsId(old(todos), id) ==>
        call == Some(TodosApi.ToggleCompletion(current, now, updated))
      ensures ContainsId(old(todos), id) && call.value.result.Failure? ==>
        r.Failure? && signals == [] && todos == old(todos) && error == Some(UpdateError)
      ensures ContainsId(old(todos), id) && call.value.result.Success? ==>
        var u := call.value.result.value;
        r == Success(Some(u)) && error == old(error) &&
        todos == ReplaceFirst(old(todos), id, u) &&
        signals == CompletionSignals(u, todos)
    {
      signals := [];
      if !ContainsId(todos, id) {
        call := None;
        r := Success(None);
        return;
      }
      var c := TodosApi.ToggleCompletion(current, now, updated);
      call := Some(c);
      match c.result {
        case Failure =>
          error := Some(UpdateError);
          r := Failure;
        case Success(u) =>
          var index := FindIndex(todos, id);
          if index.Some? {
            todos := todos[index.value := u];
          }
          if u.completed {
            signals := signals + [TaskCompleted];
            if ActiveCount(todos) == 0 && |todos| > 0 {
              signals := signals + [AllCompleted];
            }
          }
          r := Success(Some(u));
      }
    }

    /** `updateTodo(id, updates)`: send the updates, then shallow-merge the
        returned record into the first entry with the id, if there is one.
        A failure leaves the list alone, records the error and is rethrown. */
    method UpdateTodo(id: string, updates: TodoPatch, updated: Outcome<Todo>) returns (r: Outcome<Todo>)
      modifies this
      ensures r == updated && isLoading == old(isLoading)
      ensures updated.Success? ==> todos == MergeAt(old(todos), id, updated.value) && error == old(error)
      ensures updated.Failure? ==> todos == old(todos) && error == Some(UpdateError)
    {
      r := updated;
      match updated {
        case Success(u) =>
          var index := FindIndex(todos, id);
          if index.Some? {
            todos := todos[index.value := Merge(todos[index.value], u)];
          }
        case Failure =>
          error := Some(UpdateError);
      }
    }

    /** `deleteTodo(id)`: delete on the backend, and only then drop every
        entry with the id. A failure leaves the entry listed, records the
        error and is rethrown. */
    method DeleteTodo(id: string, remote: Outcome<()>) returns (r: Outcome<bool>)
      modifies this
      ensures r == TodosApi.DeleteTodo(remote) && isLoading == old(isLoading)
      ensures remote.Success? ==> todos == WithoutId(old(todos), id) && error == old(error) && r == Success(true)
      ensures remote.Failure? ==> todos == old(todos) && error == Some(DeleteError) && r.Failure?
    {
      r := TodosApi.DeleteTodo(remote);
      match r {
        case Success(_) => todos := WithoutId(todos, id);
        case Failure => error := Some(DeleteError);
      }
    }

    /** `reorderTodos(fromIndex, toIndex)`: equal or out-of-range indices do
        nothing and call nothing. Otherwise the moved list replaces the
        local one at once (the records' own `order` fields are left as they
        were) and the list pairing each id with its new index is handed to
        `api.reorderTodos`. If that call fails, the error is recorded, the list is reloaded once and the
        failure is rethrown; the reload clears the reorder message first,
        and if the reload fails too the moved list stays. */
    method ReorderTodos(fromIndex: int, toIndex: int, remote: Outcome<()>, reload: Outcome<seq<Todo>>)
      returns (updates: Option<seq<OrderUpdate>>, reloaded: bool, r: Outcome<()>)
      modifies this
      ensures !ValidMove(|old(todos)|, fromIndex, toIndex) ==>
        updates.None? && !reloaded && r.Success? &&
        todos == old(todos) && error == old(error) && isLoading == old(isLoading)
      ensures ValidMove(|old(todos)|, fromIndex, toIndex) ==>
        var moved := Move(old(todos), fromIndex, toIndex);
        updates == Some(OrderUpdates(moved)) &&
        reloaded == remote.Failure? &&
        (remote.Success? ==> r.Success? && todos == moved && error == old(error) && isLoading == old(isLoading)) &&
        (remote.Failure? ==>
          r.Failure? && !isLoading &&
          todos == (if reload.Success? then reload.value else moved) &&
          error == (if reload.Success? then None else Some(LoadError)))
    {
      reloaded := false;
      if !ValidMove(|todos|, fromIndex, toIndex) {
        updates := None;
        r := Success(());
        return;
      }
      var newOrder := Move(todos, fromIndex, toIndex);
      updates := Some(OrderUpdates(newOrder));
      todos := newOrder;
      match remote {
        case Success(_) =>
          r := Success(());
        case Failure =>
          error := Some(ReorderError);
          var _ := LoadTodos(reload);
          reloaded := true;
          r := Failure;
      }
    }

    /** The callback `subscribeToRealtime` registers: one push event from
        the backend merged into the list. */
    method OnRealtimeEvent(action: string, record: Todo)
      modifies this
      ensures todos == ApplyRealtime(old(todos), action, record)
      ensures error == old(error) && isLoading == old(isLoading)
    {
      if action == "create" {
        if !ContainsId(todos, record.id) {
          todos := [record] + todos;
        }
      } else if action == "update" {
        var index := FindIndex(todos, record.id);
        if index.Some? {
          todos := todos[index.value := record];
        }
      } else if action == "delete" {
        todos := WithoutId(todos, record.id);
      }
    }
  }

  /** A valid reorder keeps the same todos, each once, with the moved one at
      its target and the rest in their old relative order; the updates pair
      each todo's id with its new index. */
  lemma ReorderIsPermutation(s: seq<Todo>, fromIndex: nat, toIndex: nat)
    requires ValidMove(|s|, fromIndex, toIndex)
    ensures multiset(Move(s, fromIndex, toIndex)) == multiset(s)
    ensures Move(s, fromIndex, toIndex)[toIndex] == s[fromIndex]
    ensures RemoveAt(Move(s, fromIndex, toIndex), toIndex) == RemoveAt(s, fromIndex)
    ensures UniqueIds(s) ==> UniqueIds(Move(s, fromIndex, toIndex))
    ensures forall i :: 0 <= i < |s| ==>
      OrderUpdates(Move(s, fromIndex, toIndex))[i] == OrderUpdate(Move(s, fromIndex, toIndex)[i].id, i)
  {
    MovePermutes(s, fromIndex, toIndex);
    MoveKeepsRelativeOrder(s, fromIndex, toIndex);
    if UniqueIds(s) {
      MoveKeepsUnique(s, fromIndex, toIndex);
    }
  }
}
