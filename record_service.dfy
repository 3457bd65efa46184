/** The record service: a second, self-contained client for the todo
    collection whose calls report a failure by returning null (or false)
    instead of throwing, and which turns filter and sort names into the
    backend's query strings. */
module Records {
  import opened Wrappers
  import opened Types

  /** A name the filter switch knows. */
  predicate IsFilterName(name: string) {
    exists f: TodoFilter :: FilterName(f) == name
  }

  /** A name the sort switch knows. */
  predicate IsSortName(name: string) {
    exists o: TodoSortOption :: SortName(o) == name
  }

  /** `getFilterQuery(filter)`: the query for a filter name, given today's
      date as `YYYY-MM-DD`; any other name throws (`Failure`). */
  function FilterQuery(filter: string, today: string): (r: Outcome<string>)
    ensures r.Success? <==> IsFilterName(filter)
  {
    assert FilterName(All) == "all" && FilterName(Active) == "active";
    assert FilterName(Completed) == "completed" && FilterName(Today) == "today";
    if filter == "all" then Success("")
    else if filter == "active" then Success("completed = false")
    else if filter == "completed" then Success("completed = true")
    else if filter == "today" then Success("dueDate = '" + today + "'")
    else Failure
  }

  /** `getSortQuery(sort)`: the ordering clause for a sort name; any other
      name throws (`Failure`). */
  function SortQuery(sort: string): (r: Outcome<string>)
    ensures r.Success? <==> IsSortName(sort)
  {
    assert SortName(DateDesc) == "date-desc" && SortName(DateAsc) == "date-asc";
    assert SortName(PriorityDesc) == "priority-desc" && SortName(PriorityAsc) == "priority-asc";
    if sort == "date-desc" then Success("created DESC")
    else if sort == "date-asc" then Success("created ASC")
    else if sort == "priority-desc" then Success("priority DESC")
    else if sort == "priority-asc" then Success("priority ASC")
    else Failure
  }

  /** Every filter value maps to its query, and distinct filters select
      differently: no two values share a query. */
  lemma FilterQueryMap(today: string)
    ensures FilterQuery("all", today) == Success("")
    ensures FilterQuery("active", today) == Success("completed = false")
    ensures FilterQuery("completed", today) == Success("completed = true")
    ensures FilterQuery("today", today) == Success("dueDate = '" + today + "'")
    ensures forall f, g: TodoFilter :: f != g ==>
      FilterQuery(FilterName(f), today) != FilterQuery(FilterName(g), today)
  {
    var q := "dueDate = '" + today + "'";
    assert q[0] == 'd';
  }

  /** Every sort option maps to its clause, and distinct options order
      differently. */
  lemma SortQueryMap()
    ensures SortQuery("date-desc") == Success("created DESC")
    ensures SortQuery("date-asc") == Success("created ASC")
    ensures SortQuery("priority-desc") == Success("priority DESC")
    ensures SortQuery("priority-asc") == Success("priority ASC")
    ensures forall o, p: TodoSortOption :: o != p ==> SortQuery(SortName(o)) != SortQuery(SortName(p))
  {
  }

  /** The page request `fetchTodos` sends. */
  datatype ListRequest = ListRequest(collection: string, page: nat, perPage: nat, filter: string, sort: string)

  /** The single-record request `fetchTodo` sends: the id, with the users the
      todo is shared with expanded into the record. */
  datatype GetOneRequest = GetOneRequest(collection: string, id: string, expand: string)

  const SharedWithExpand := "sharedWith"

  class RecordService {
    const pocketBaseUrl: string
    const collectionName: string
    const pageSize: nat

    /** Fixes the configuration once: the backend address, the `todos`
        collection and pages of 100 records. */
    constructor (url: string)
      ensures pocketBaseUrl == url && collectionName == "todos" && pageSize == 100
    {
      pocketBaseUrl := url;
      collectionName := "todos";
      pageSize := 100;
    }

    /** `fetchTodos(filter = 'all', sort = 'date-desc')`: the first page of
        the filtered, sorted collection. An unknown name throws inside the
        try block before any request, and like a rejected request yields
        null: the call never throws. */
    method FetchTodos(filter: Option<string>, sort: Option<string>, today: string, remote: Outcome<seq<Todo>>)
      returns (request: Option<ListRequest>, r: Option<seq<Todo>>)
      ensures request.Some? <==> IsFilterName(filter.GetOr("all")) && IsSortName(sort.GetOr("date-desc"))
      ensures request.Some? ==>
        request.value == ListRequest(collectionName, 1, pageSize,
                                     FilterQuery(filter.GetOr("all"), today).value,
                                     SortQuery(sort.GetOr("date-desc")).value)
      ensures r.Some? <==> request.Some? && remote.Success?
      ensures r.Some? ==> r.value == remote.value
    {
      request, r := None, None;
      var f := FilterQuery(filter.GetOr("all"), today);
      if f.Failure? {
        return;
      }
      var s := SortQuery(sort.GetOr("date-desc"));
      if s.Failure? {
        return;
      }
      request := Some(ListRequest(collectionName, 1, pageSize, f.value, s.value));
      if remote.Success? {
        r := Some(remote.value);
      }
    }

    /** `fetchTodo(id)`: asks for the record with its `sharedWith` users
        expanded; the record, or null when the request fails. */
    method FetchTodo(id: string, remote: Outcome<Todo>) returns (request: GetOneRequest, r: Option<Todo>)
      ensures request.collection == collectionName && request.id == id
      ensures request.expand == SharedWithExpand
      ensures r.Some? <==> remote.Success?
      ensures r.Some? ==> r.value == remote.value
    {
      request := GetOneRequest(collectionName, id, SharedWithExpand);
      r := if remote.Success? then Some(remote.value) else None;
    }

    /** `createTodo(todo)`: the created record, or null when the request
        fails. */
    method CreateTodo<P>(todo: P, remote: Outcome<Todo>) returns (r: Option<Todo>)
      ensures r.Some? <==> remote.Success?
      ensures r.Some? ==> r.value == remote.value
    {
      r := if remote.Success? then Some(remote.value) else None;
    }

    /** `updateTodo(id, todo)`: the updated record, or null when the request
        fails. */
    method UpdateTodo<P>(id: string, todo: P, remote: Outcome<Todo>) returns (r: Option<Todo>)
      ensures r.Some? <==> remote.Success?
      ensures r.Some? ==> r.value == remote.value
    {
      r := if remote.Success? then Some(remote.value) else None;
    }

    /** `deleteTodo(id)`: whether the backend deleted the record. */
    method DeleteTodo(id: string, remote: Outcome<()>) returns (deleted: bool)
      ensures deleted <==> remote.Success?
    {
      deleted := remote.Success?;
    }

    /** `getCurrentUser()`: null, without asking the backend, unless the
        session is valid and names a user id; otherwise that user, or null
        when the lookup fails. Returns the id looked up, if any. */
    method GetCurrentUser(authValid: bool, modelId: Option<string>, remote: Outcome<User>)
      returns (lookedUp: Option<string>, r: Option<User>)
      ensures lookedUp.Some? <==> authValid && modelId.Some? && modelId.value != ""
      ensures lookedUp.Some? ==> lookedUp == modelId
      ensures r.Some? <==> lookedUp.Some? && remote.Success?
      ensures r.Some? ==> r.value == remote.value
    {
      lookedUp, r := None, None;
      if !authValid {
        return;
      }
      if modelId.None? || modelId.value == "" {
        return;
      }
      lookedUp := modelId;
      if remote.Success? {
        r := Some(remote.value);
      }
    }

    /** `getTodoId()`: the id of the first todo of the default listing, or
        null when there is none or the listing failed. */
    method GetTodoId(remote: Outcome<seq<Todo>>) returns (r: Option<string>)
      ensures r.Some? <==> remote.Success? && |remote.value| > 0
      ensures r.Some? ==> r.value == remote.value[0].id
    {
      assert IsFilterName(FilterName(All)) && IsSortName(SortName(DateDesc));
      var _, todos := FetchTodos(None, None, "", remote);
      if todos.Some? && |todos.value| > 0 {
        r := Some(todos.value[0].id);
      } else {
        r := None;
      }
    }
  }
}
