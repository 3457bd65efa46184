/** The payloads the todo API layer builds before calling the backend, and
    how it passes results on: a rejected backend call is reported and
    rethrown, so an `Outcome` reaches the caller unchanged. */
module TodosApi {
  import opened Wrappers
  import opened Types

  datatype FetchOptions = FetchOptions(filter: Option<string>, sort: Option<string>, expand: Option<string>)

  const NoOptions := FetchOptions(None, None, None)

  /** The arguments of the backend's full-list request. */
  datatype FullListRequest = FullListRequest(filter: Option<string>, sort: string, expand: Option<string>)

  const DefaultSort := "-created"

  /** `sort: options?.sort || '-created'`: a missing or empty sort falls back
      to newest first; filter and expand are passed through. */
  function FetchRequest(options: FetchOptions): (r: FullListRequest)
    ensures r.filter == options.filter && r.expand == options.expand
    ensures options.sort.None? || options.sort.value == "" ==> r.sort == DefaultSort
    ensures options.sort.Some? && options.sort.value != "" ==> r.sort == options.sort.value
    ensures r.sort != ""
  {
    var sort := if options.sort.Some? && options.sort.value != "" then options.sort.value else DefaultSort;
    FullListRequest(options.filter, sort, options.expand)
  }

  /** The fields the store fills in for a new todo. */
  datatype NewTodo = NewTodo(
    text: string,
    completed: bool,
    priority: Priority,
    dueDate: Option<string>,
    tags: seq<string>,
    order: int)

  /** The body of the create request: the data, stamped with its owner. */
  datatype CreateRequest = CreateRequest(data: NewTodo, user: Option<string>)

  /** `{ ...data, user: pb.authStore.model?.id }`: the owner is the signed-in
      user's id, or absent when nobody is signed in. */
  function CreatePayload(data: NewTodo, authModelId: Option<string>): (r: CreateRequest)
    ensures r.data == data
    ensures r.user == authModelId
  {
    CreateRequest(data, authModelId)
  }

  /** The update sent to toggle a todo fetched as `current`: `completed`
      flipped, `completedAt` the time `now` when it becomes completed and
      null when it becomes active; no other field is sent. */
  function TogglePayload(current: Todo, now: string): (p: TodoPatch)
    ensures p.completed == Some(!current.completed)
    ensures p.completedAt.Some?
    ensures p.completedAt.value.Some? <==> p.completed == Some(true)
    ensures p.completedAt.value.Some? ==> p.completedAt.value.value == now
    ensures p.text.None? && p.priority.None? && p.order.None? && p.dueDate.None? && p.tags.None?
  {
    EmptyPatch.(
      completed := Some(!current.completed),
      completedAt := Some(if !current.completed then Some(now) else None))
  }

  /** The record the backend holds after storing the fields a patch sets.
      It is the backend's behaviour, used only to state what a payload means. */
  function ApplyPatch(t: Todo, p: TodoPatch): Todo {
    t.(
      text := p.text.GetOr(t.text),
      completed := p.completed.GetOr(t.completed),
      completedAt := p.completedAt.GetOr(t.completedAt),
      priority := p.priority.GetOr(t.priority),
      order := p.order.GetOr(t.order),
      dueDate := if p.dueDate.Some? then p.dueDate else t.dueDate,
      tags := if p.tags.Some? then p.tags else t.tags)
  }

  /** A todo carries a completion time exactly when it is completed. */
  predicate StampConsistent(t: Todo) {
    t.completed <==> t.completedAt.Some?
  }

  /** Storing a toggle payload always leaves the record stamp-consistent,
      whatever it held before, and changes nothing but the two fields. */
  lemma ToggleStampsCompletion(t: Todo, now: string)
    ensures StampConsistent(ApplyPatch(t, TogglePayload(t, now)))
    ensures ApplyPatch(t, TogglePayload(t, now)).completed == !t.completed
    ensures ApplyPatch(t, TogglePayload(t, now)) == t.(completed := !t.completed,
                                                       completedAt := if t.completed then None else Some(now))
  {
  }

  /** Toggling twice restores the completion state and, for a
      stamp-consistent active todo, the whole record. */
  lemma ToggleTwice(t: Todo, now1: string, now2: string)
    ensures var once := ApplyPatch(t, TogglePayload(t, now1));
            ApplyPatch(once, TogglePayload(once, now2)).completed == t.completed
    ensures !t.completed && StampConsistent(t) ==>
            var once := ApplyPatch(t, TogglePayload(t, now1));
            ApplyPatch(once, TogglePayload(once, now2)) == t
  {
    var once := ApplyPatch(t, TogglePayload(t, now1));
    ToggleStampsCompletion(t, now1);
    ToggleStampsCompletion(once, now2);
  }

  /** What `toggleCompletion` did: the payload it sent, if it got that far,
      and the outcome its caller sees. */
  datatype ToggleCall = ToggleCall(sent: Option<TodoPatch>, result: Outcome<Todo>)

  /** `toggleCompletion(id)`: fetch the record, then send the toggle payload
      built from it. A rejected fetch sends nothing; either rejection is
      rethrown; otherwise the caller gets the updated record. */
  function ToggleCompletion(current: Outcome<Todo>, now: string, updated: Outcome<Todo>): (call: ToggleCall)
    ensures call.sent.Some? <==> current.Success?
    ensures current.Success? ==> call.sent.value == TogglePayload(current.value, now)
    ensures call.result.Success? <==> current.Success? && updated.Success?
    ensures call.result.Success? ==> call.result.value == updated.value
  {
    match current
    case Failure => ToggleCall(None, Failure)
    case Success(t) => ToggleCall(Some(TogglePayload(t, now)), updated)
  }

  /** `deleteTodo(id)`: `true` once the backend deleted the record; a
      rejection is rethrown. */
  function DeleteTodo(remote: Outcome<()>): (r: Outcome<bool>)
    ensures r.Success? <==> remote.Success?
    ensures r.Success? ==> r.value
  {
    match remote
    case Success(_) => Success(true)
    case Failure => Failure
  }
}
