/** The records shared by every part of the application: a todo as the
    backend stores it, a user, and the closed sets of filter and sort names. */
module Types {
  import opened Wrappers

  datatype Priority = Low | Medium | High

  datatype User = User(id: string, email: string, name: Option<string>, avatar: Option<string>)

  /** The optional `expand` object the backend attaches when asked to
      resolve the `sharedWith` relation. */
  datatype Expand = Expand(sharedWith: Option<seq<User>>)

  /** A todo record. `completedAt` is a required field whose value may be
      null; the fields marked optional in the record type are `Option`s. */
  datatype Todo = Todo(
    id: string,
    collectionId: string,
    collectionName: string,
    created: string,
    updated: string,
    text: string,
    completed: bool,
    completedAt: Option<string>,
    priority: Priority,
    user: string,
    order: int,
    dueDate: Option<string>,
    tags: Option<seq<string>>,
    sharedWith: Option<seq<string>>,
    expand: Option<Expand>)

  /** A partial todo: the fields a caller may set when creating or updating.
      `completedAt` is doubly optional: absent, or present with a null or a
      timestamp value. */
  datatype TodoPatch = TodoPatch(
    text: Option<string>,
    completed: Option<bool>,
    completedAt: Option<Option<string>>,
    priority: Option<Priority>,
    order: Option<int>,
    dueDate: Option<string>,
    tags: Option<seq<string>>)

  const EmptyPatch := TodoPatch(None, None, None, None, None, None, None)

  datatype TodoFilter = All | Active | Completed | Today

  datatype TodoSortOption = DateDesc | DateAsc | PriorityDesc | PriorityAsc

  /** The string each filter value has at run time. */
  function FilterName(f: TodoFilter): string {
    match f
    case All => "all"
    case Active => "active"
    case Completed => "completed"
    case Today => "today"
  }

  /** The string each sort option has at run time. */
  function SortName(o: TodoSortOption): string {
    match o
    case DateDesc => "date-desc"
    case DateAsc => "date-asc"
    case PriorityDesc => "priority-desc"
    case PriorityAsc => "priority-asc"
  }
}
