/** Pure operations on the store's ordered list of todos: the derived counts,
    lookup by id, and the list surgery the store's actions and its realtime
    handler perform (replace the first entry with an id, drop every entry
    with an id, prepend a record whose id is absent). */
module TodoList {
  import opened Wrappers
  import opened Types
  import opened ListMove

  /** Number of completed todos (`filter(t => t.completed).length`). */
  function CompletedCount(s: seq<Todo>): (n: nat)
    ensures n <= |s|
    ensures n == 0 <==> forall i :: 0 <= i < |s| ==> !s[i].completed
  {
    if s == [] then 0
    else
      var n := (if s[0].completed then 1 else 0) + CompletedCount(s[1..]);
      assert forall i :: 1 <= i < |s| ==> s[i] == s[1..][i - 1];
      n
  }

  /** Number of todos not yet completed (`filter(t => !t.completed).length`). */
  function ActiveCount(s: seq<Todo>): (n: nat)
    ensures n <= |s|
    ensures n == 0 <==> forall i :: 0 <= i < |s| ==> s[i].completed
  {
    if s == [] then 0
    else
      var n := (if s[0].completed then 0 else 1) + ActiveCount(s[1..]);
      assert forall i :: 1 <= i < |s| ==> s[i] == s[1..][i - 1];
      n
  }

  /** Every todo is either completed or active, never both. */
  lemma {:induction false} CountsPartition(s: seq<Todo>)
    ensures CompletedCount(s) + ActiveCount(s) == |s|
  {
    if s != [] {
      CountsPartition(s[1..]);
    }
  }

  /** `Math.round(completed / total * 100)`, or 0 for an empty list. */
  function ProgressPercentage(s: seq<Todo>): (p: int)
    ensures 0 <= p <= 100
    ensures |s| == 0 ==> p == 0
  {
    if |s| == 0 then 0 else RoundedPercent(CompletedCount(s), |s|)
  }

  /** `Math.round(c / n * 100)` in exact integer arithmetic,
      floor((200c + n) / 2n): the whole percentage nearest to c out of n,
      rounding a half up. */
  function RoundedPercent(c: nat, n: nat): (p: int)
    requires 0 < n && c <= n
    ensures 0 <= p <= 100
    ensures n * (2 * p - 1) <= 200 * c < n * (2 * p + 1)
  {
    var p := (200 * c + n) / (2 * n);
    RoundingBounds(c, n, p);
    p
  }

  lemma RoundingBounds(c: nat, n: nat, p: int)
    requires 0 < n && c <= n && p == (200 * c + n) / (2 * n)
    ensures 0 <= p <= 100
    ensures n * (2 * p - 1) <= 200 * c < n * (2 * p + 1)
  {
    var q := 200 * c + n;
    assert 2 * n * p <= q < 2 * n * p + 2 * n;
    assert p <= 100 by {
      if p > 100 {
        MulAtLeast(2 * n, p - 100);
      }
    }
  }

  /** `d * t >= d` for positive `d` and `t`. */
  lemma {:induction false} MulAtLeast(d: int, t: int)
    requires d > 0 && t > 0
    ensures d * t >= d
    decreases t
  {
    if t > 1 {
      MulAtLeast(d, t - 1);
      assert d * t == d * (t - 1) + d;
    }
  }

  /** `q / d == k` whenever `q` lies in `[d * k, d * k + d)`. */
  lemma DivExact(q: int, d: int, k: int)
    requires d > 0 && d * k <= q < d * k + d
    ensures q / d == k
  {
    var r := q / d;
    var t := r - k;
    assert d * r <= q < d * r + d;
    assert d * t == d * r - d * k;
    assert t <= 0 by {
      if t > 0 {
        MulAtLeast(d, t);
      }
    }
    assert t >= 0 by {
      if t < 0 {
        MulAtLeast(d, -t);
      }
    }
  }

  /** A non-empty list with nothing left to do is at 100 percent. */
  lemma ProgressAllCompleted(s: seq<Todo>)
    requires |s| > 0 && ActiveCount(s) == 0
    ensures ProgressPercentage(s) == 100
  {
    var n := |s|;
    CountsPartition(s);
    WholeIsHundred(n);
  }

  lemma WholeIsHundred(n: nat)
    requires n > 0
    ensures RoundedPercent(n, n) == 100
  {
    assert 2 * n * 100 <= 200 * n + n < 2 * n * 100 + 2 * n;
    DivExact(200 * n + n, 2 * n, 100);
  }

  /** A list with nothing done is at 0 percent. */
  lemma ProgressNoneCompleted(s: seq<Todo>)
    requires CompletedCount(s) == 0
    ensures ProgressPercentage(s) == 0
  {
    if |s| > 0 {
      DivExact(|s|, 2 * |s|, 0);
      assert RoundedPercent(0, |s|) == 0;
    }
  }

  /** Some entry of `s` has the id (`some(t => t.id === id)`). */
  predicate ContainsId(s: seq<Todo>, id: string) {
    exists i :: 0 <= i < |s| && s[i].id == id
  }

  /** No two entries share an id. */
  predicate UniqueIds(s: seq<Todo>) {
    forall i, j :: 0 <= i < j < |s| ==> s[i].id != s[j].id
  }

  /** The index of the first entry with the id (`findIndex`), None for -1. */
  function FindIndex(s: seq<Todo>, id: string): (r: Option<nat>)
    ensures r.None? <==> !ContainsId(s, id)
    ensures r.Some? ==> r.value < |s| && s[r.value].id == id
    ensures r.Some? ==> forall j :: 0 <= j < r.value ==> s[j].id != id
  {
    if s == [] then None
    else if s[0].id == id then Some(0)
    else
      match FindIndex(s[1..], id)
      case None =>
        assert forall i :: 1 <= i < |s| ==> s[i] == s[1..][i - 1];
        None
      case Some(k) =>
        assert forall j :: 1 <= j < k + 1 ==> s[j] == s[1..][j - 1];
        Some(k + 1)
  }

  /** The list with the first entry carrying `id` replaced by `t`
      (`todos[index] = t` when `findIndex` found one); unchanged otherwise. */
  function ReplaceFirst(s: seq<Todo>, id: string, t: Todo): (r: seq<Todo>)
    ensures |r| == |s|
    ensures FindIndex(s, id).Some? ==> r[FindIndex(s, id).value] == t
    ensures forall j :: 0 <= j < |s| && (FindIndex(s, id).None? || j != FindIndex(s, id).value) ==> r[j] == s[j]
  {
    match FindIndex(s, id)
    case None => s
    case Some(i) => s[i := t]
  }

  /** `{ ...local, ...server }`: every field of the server record wins, except
      an optional field the server record leaves out. */
  function Merge(local: Todo, server: Todo): (r: Todo)
    ensures r.id == server.id && r.text == server.text && r.completed == server.completed
    ensures r.completedAt == server.completedAt && r.order == server.order
    ensures r.priority == server.priority && r.user == server.user
    ensures server.dueDate.Some? ==> r.dueDate == server.dueDate
    ensures server.dueDate.None? ==> r.dueDate == local.dueDate
    ensures server.tags.Some? ==> r.tags == server.tags
    ensures server.tags.None? ==> r.tags == local.tags
    ensures server.sharedWith.Some? ==> r.sharedWith == server.sharedWith
    ensures server.sharedWith.None? ==> r.sharedWith == local.sharedWith
    ensures server.expand.Some? ==> r.expand == server.expand
    ensures server.expand.None? ==> r.expand == local.expand
    ensures r.(dueDate := server.dueDate, tags := server.tags,
               sharedWith := server.sharedWith, expand := server.expand) == server
  {
    server.(
      dueDate := if server.dueDate.Some? then server.dueDate else local.dueDate,
      tags := if server.tags.Some? then server.tags else local.tags,
      sharedWith := if server.sharedWith.Some? then server.sharedWith else local.sharedWith,
      expand := if server.expand.Some? then server.expand else local.expand)
  }

  /** A server record that carries every optional field replaces the local
      entry outright, and merging the same record twice changes nothing. */
  lemma MergeProperties(local: Todo, server: Todo)
    ensures server.dueDate.Some? && server.tags.Some? && server.sharedWith.Some? && server.expand.Some?
            ==> Merge(local, server) == server
    ensures Merge(Merge(local, server), server) == Merge(local, server)
  {
  }

  /** The list with the first entry carrying `id` shallow-merged with the
      server record; unchanged when no entry has the id. */
  function MergeAt(s: seq<Todo>, id: string, server: Todo): (r: seq<Todo>)
    ensures |r| == |s|
    ensures FindIndex(s, id).Some? ==>
      var i := FindIndex(s, id).value; r[i] == Merge(s[i], server)
    ensures forall j :: 0 <= j < |s| && (FindIndex(s, id).None? || j != FindIndex(s, id).value) ==> r[j] == s[j]
  {
    match FindIndex(s, id)
    case None => s
    case Some(i) => s[i := Merge(s[i], server)]
  }

  /** The list without any entry carrying `id` (`filter(t => t.id !== id)`). */
  function WithoutId(s: seq<Todo>, id: string): (r: seq<Todo>)
    ensures |r| <= |s|
    ensures !ContainsId(r, id)
    ensures forall t :: t in r ==> t in s
    ensures forall t :: t in s && t.id != id ==> t in r
  {
    if s == [] then []
    else
      var rest := WithoutId(s[1..], id);
      assert forall t :: t in s ==> t == s[0] || t in s[1..];
      if s[0].id == id then rest else [s[0]] + rest
  }

  /** The filter distributes over concatenation and keeps exactly the
      entries with another id: so it keeps their order and drops nothing else. */
  lemma {:induction false} WithoutIdConcat(a: seq<Todo>, b: seq<Todo>, id: string)
    ensures WithoutId(a + b, id) == WithoutId(a, id) + WithoutId(b, id)
  {
    if a == [] {
      assert a + b == b;
    } else {
      assert (a + b)[1..] == a[1..] + b;
      WithoutIdConcat(a[1..], b, id);
    }
  }

  lemma WithoutIdSingle(t: Todo, id: string)
    ensures WithoutId([t], id) == if t.id == id then [] else [t]
  {
    assert [t][1..] == [];
  }

  /** Removing an id that no entry has changes nothing; so removal is
      idempotent. */
  lemma {:induction false} WithoutIdAbsent(s: seq<Todo>, id: string)
    requires !ContainsId(s, id)
    ensures WithoutId(s, id) == s
  {
    if s != [] {
      assert s[0].id != id;
      assert !ContainsId(s[1..], id) by {
        forall i | 0 <= i < |s[1..]| ensures s[1..][i].id != id {
          assert s[1..][i] == s[i + 1];
        }
      }
      WithoutIdAbsent(s[1..], id);
    }
  }

  lemma WithoutIdIdempotent(s: seq<Todo>, id: string)
    ensures WithoutId(WithoutId(s, id), id) == WithoutId(s, id)
  {
    WithoutIdAbsent(WithoutId(s, id), id);
  }

  /** Removal never introduces a duplicate id. */
  lemma {:induction false} WithoutIdKeepsUnique(s: seq<Todo>, id: string)
    requires UniqueIds(s)
    ensures UniqueIds(WithoutId(s, id))
  {
    if s != [] {
      assert UniqueIds(s[1..]) by {
        forall i, j | 0 <= i < j < |s[1..]| ensures s[1..][i].id != s[1..][j].id {
          assert s[1..][i] == s[i + 1] && s[1..][j] == s[j + 1];
        }
      }
      WithoutIdKeepsUnique(s[1..], id);
      var rest := WithoutId(s[1..], id);
      if s[0].id != id {
        forall t | t in rest ensures t.id != s[0].id {
          assert t in s[1..];
        }
        var r := [s[0]] + rest;
        forall i, j | 0 <= i < j < |r| ensures r[i].id != r[j].id {
          if i == 0 {
            assert r[j] in rest;
          } else {
            assert r[i] == rest[i - 1] && r[j] == rest[j - 1];
          }
        }
      }
    }
  }

  /** Replacing an entry by a record with the same id keeps the ids as
      they were. */
  lemma ReplaceFirstKeepsIds(s: seq<Todo>, id: string, t: Todo)
    requires t.id == id
    ensures forall i :: 0 <= i < |s| ==> ReplaceFirst(s, id, t)[i].id == s[i].id
    ensures UniqueIds(s) ==> UniqueIds(ReplaceFirst(s, id, t))
  {
  }

  /** A realtime push event from the backend, applied to the list: `create`
      prepends a record whose id is absent, `update` replaces the first
      entry with the record's id, `delete` drops every entry with it; any
      other action is ignored. */
  function ApplyRealtime(s: seq<Todo>, action: string, record: Todo): (r: seq<Todo>)
    ensures action != "create" && action != "update" && action != "delete" ==> r == s
    ensures forall t :: t in r ==> t in s || t == record
    ensures action != "delete" ==> |s| <= |r|
    ensures |r| <= |s| + 1
  {
    if action == "create" then
      if ContainsId(s, record.id) then s else [record] + s
    else if action == "update" then ReplaceFirst(s, record.id, record)
    else if action == "delete" then WithoutId(s, record.id)
    else s
  }

  /** A `create` never introduces a duplicate: afterwards the id is present,
      and if it was present before, nothing changed. */
  lemma RealtimeCreate(s: seq<Todo>, record: Todo)
    ensures ContainsId(ApplyRealtime(s, "create", record), record.id)
    ensures ContainsId(s, record.id) ==> ApplyRealtime(s, "create", record) == s
    ensures !ContainsId(s, record.id) ==> ApplyRealtime(s, "create", record) == [record] + s
    ensures UniqueIds(s) ==> UniqueIds(ApplyRealtime(s, "create", record))
  {
    var r := ApplyRealtime(s, "create", record);
    assert r[0].id == record.id || ContainsId(s, record.id);
    if !ContainsId(s, record.id) {
      assert r[0] == record;
      assert forall i :: 1 <= i < |r| ==> r[i] == s[i - 1];
    }
  }

  /** An `update` inserts nothing: for an unknown id the list is unchanged;
      otherwise only the first entry with the id is replaced. */
  lemma RealtimeUpdate(s: seq<Todo>, record: Todo)
    ensures |ApplyRealtime(s, "update", record)| == |s|
    ensures !ContainsId(s, record.id) ==> ApplyRealtime(s, "update", record) == s
    ensures ContainsId(s, record.id) ==>
      var i := FindIndex(s, record.id).value;
      ApplyRealtime(s, "update", record)[i] == record &&
      forall j :: 0 <= j < |s| && j != i ==> ApplyRealtime(s, "update", record)[j] == s[j]
    ensures UniqueIds(s) ==> UniqueIds(ApplyRealtime(s, "update", record))
  {
    ReplaceFirstKeepsIds(s, record.id, record);
  }

  /** A `delete` leaves no entry with the id and is idempotent. */
  lemma RealtimeDelete(s: seq<Todo>, record: Todo)
    ensures !ContainsId(ApplyRealtime(s, "delete", record), record.id)
    ensures ApplyRealtime(ApplyRealtime(s, "delete", record), "delete", record)
            == ApplyRealtime(s, "delete", record)
    ensures UniqueIds(s) ==> UniqueIds(ApplyRealtime(s, "delete", record))
  {
    WithoutIdIdempotent(s, record.id);
    if UniqueIds(s) {
      WithoutIdKeepsUnique(s, record.id);
    }
  }

  /** Whatever the event, a list without duplicate ids stays without them. */
  lemma RealtimeKeepsUnique(s: seq<Todo>, action: string, record: Todo)
    requires UniqueIds(s)
    ensures UniqueIds(ApplyRealtime(s, action, record))
  {
    if action == "create" {
      RealtimeCreate(s, record);
    } else if action == "update" {
      RealtimeUpdate(s, record);
    } else if action == "delete" {
      RealtimeDelete(s, record);
    }
  }

  /** Reordering keeps the ids unique. */
  lemma MoveKeepsUnique(s: seq<Todo>, from: nat, to: nat)
    requires from < |s| && to < |s| && UniqueIds(s)
    ensures UniqueIds(Move(s, from, to))
  {
    var r := Move(s, from, to);
    forall i, j | 0 <= i < j < |r| ensures r[i].id != r[j].id {
      MoveAt(s, from, to, i);
      MoveAt(s, from, to, j);
      MoveSourceInjective(from, to, i, j);
    }
  }

  /** One `{id, order}` pair the reorder action sends to the backend. */
  datatype OrderUpdate = OrderUpdate(id: string, order: int)

  /** `newOrder.map((todo, index) => ({ id: todo.id, order: index }))`. */
  function OrderUpdates(s: seq<Todo>): (r: seq<OrderUpdate>)
    ensures |r| == |s|
    ensures forall i :: 0 <= i < |s| ==> r[i].id == s[i].id && r[i].order == i
  {
    seq(|s|, i requires 0 <= i < |s| => OrderUpdate(s[i].id, i))
  }
}
