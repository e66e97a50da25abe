/** The task slice of the store: its initial state, the three reducers
    `addTask`, `removeTask` and `updateTask` (the form's `editTask`), the
    three cases of the `fetchTasks` lifecycle, and the normalisation of
    fetched records. */
module TasksSlice {
  import opened Interfaces

  const SomethingWentWrong: string := "Something went wrong"
  const FailedToFetch: string := "Failed to fetch"

  const InitialState: TasksState := TasksState([], false, NullError, All)

  /** The initial state is well typed, has unique ids (trivially) and no
      truthy error; with the render gate, the list view then shows the
      empty list. */
  lemma InitialStateSound()
    ensures WellTypedStoreStatus(InitialState.status)
    ensures UniqueIds(InitialState.tasks) && !InitialState.loading && !Truthy(InitialState.error)
  {
  }

  /** The ids of a task list, position by position. */
  function Ids(ts: seq<Task>): (r: seq<string>)
    ensures |r| == |ts|
    ensures forall i :: 0 <= i < |ts| ==> r[i] == ts[i].id
  {
    if ts == [] then [] else [ts[0].id] + Ids(ts[1..])
  }

  /** No two positions carry the same id. */
  predicate UniqueIds(ts: seq<Task>)
  {
    forall i, j :: 0 <= i < j < |ts| ==> ts[i].id != ts[j].id
  }

  /** `findIndex` on the id: the first position holding `id`, or -1. */
  function FirstIndex(ts: seq<Task>, id: string): (r: int)
    ensures -1 <= r < |ts|
    ensures r == -1 <==> id !in Ids(ts)
    ensures 0 <= r ==> ts[r].id == id
    ensures forall j :: 0 <= j < r || (r == -1 && 0 <= j < |ts|) ==> ts[j].id != id
  {
    if ts == [] then -1
    else if ts[0].id == id then 0
    else
      var k := FirstIndex(ts[1..], id);
      if k == -1 then -1 else k + 1
  }

  /** The reference meaning of `removeTask`: the tasks whose id differs, in order. */
  function Without(ts: seq<Task>, id: string): (r: seq<Task>)
    ensures |r| <= |ts|
    ensures forall i :: 0 <= i < |r| ==> r[i].id != id
  {
    if ts == [] then []
    else if ts[0].id == id then Without(ts[1..], id)
    else [ts[0]] + Without(ts[1..], id)
  }

  /** The reference meaning of `updateTask`: the first task carrying `t.id`
      is replaced by `t`; nothing happens when no task carries it. */
  function Updated(ts: seq<Task>, t: Task): (r: seq<Task>)
    ensures |r| == |ts|
    ensures forall i :: 0 <= i < |r| ==> r[i] == ts[i] || r[i] == t
  {
    if ts == [] then []
    else if ts[0].id == t.id then [t] + ts[1..]
    else [ts[0]] + Updated(ts[1..], t)
  }

  /** One fetched record mapped into the local task shape. */
  function Normalize(t: Task): (r: Task)
    ensures r.id == t.id && r.title == t.title && r.description == t.description
    ensures r.status == t.status && r.date == t.date
    ensures r.completed == Some(false)
  {
    Task(t.id, t.title, t.description, t.status, t.date, Some(false))
  }

  /** The `map` over the fetched array. */
  function MapFetched(data: seq<Task>): (r: seq<Task>)
    ensures |r| == |data|
    ensures forall i :: 0 <= i < |data| ==> r[i] == Normalize(data[i])
  {
    if data == [] then [] else [Normalize(data[0])] + MapFetched(data[1..])
  }

  /** What the network gives the fetch thunk: a thrown error (with its
      message, if any), a non-ok response, or an ok response with its records. */
  datatype FetchOutcome =
    | FetchThrew(message: Option<string>)
    | FetchResponse(ok: bool, data: seq<Task>)

  /** The settled thunk: fulfilled with the mapped records, or rejected. */
  datatype FetchResult = Fulfilled(payload: seq<Task>) | Rejected(message: Option<string>)

  function FetchTasks(o: FetchOutcome): (r: FetchResult)
    ensures o.FetchThrew? ==> r == Rejected(o.message)
    ensures o.FetchResponse? && !o.ok ==> r == Rejected(Some(FailedToFetch))
    ensures o.FetchResponse? && o.ok ==> r == Fulfilled(MapFetched(o.data))
    ensures o.FetchResponse? && o.ok ==> r.Fulfilled? && Ids(r.payload) == Ids(o.data)
  {
    match o
    case FetchThrew(m) => Rejected(m)
    case FetchResponse(ok, data) =>
      if !ok then Rejected(Some(FailedToFetch)) else Fulfilled(MapFetched(data))
  }

  /** `action.error.message || 'Something went wrong'`. */
  function RejectedError(message: Option<string>): (e: ErrorValue)
    ensures Truthy(e)
    ensures message.Some? && message.value != "" ==> e == ErrorText(message.value)
    ensures message.None? || message.value == "" ==> e == ErrorText(SomethingWentWrong)
  {
    if message.Some? && message.value != "" then ErrorText(message.value)
    else ErrorText(SomethingWentWrong)
  }

  /** The slice state, updated in place by its reducers. */
  class TaskStore {
    var tasks: seq<Task>
    var loading: bool
    var error: ErrorValue
    var status: StoreStatus

    function State(): TasksState
      reads this
    {
      TasksState(tasks, loading, error, status)
    }

    constructor ()
      ensures State() == InitialState
    {
      tasks := [];
      loading := false;
      error := NullError;
      status := All;
    }

    /** `state.tasks.push(action.payload)`. */
    method AddTask(t: Task)
      modifies this
      ensures tasks == old(tasks) + [t]
      ensures loading == old(loading) && error == old(error) && status == old(status)
    {
      tasks := tasks + [t];
    }

    /** The reducer returns the filtered array, which replaces the slice
        state; only the filtering of `tasks` is stated. */
    method RemoveTask(id: string)
      modifies this
      ensures tasks == Without(old(tasks), id)
    {
      tasks := Without(tasks, id);
    }

    /** `findIndex` on the id, then an indexed write when found. */
    method UpdateTask(t: Task)
      modifies this
      ensures tasks == Updated(old(tasks), t)
      ensures loading == old(loading) && error == old(error) && status == old(status)
    {
      var index := FindIndex(tasks, t.id);
      if index != -1 {
        UpdatedAt(tasks, t, index);
        tasks := tasks[index := t];
      } else {
        UpdatedAbsent(tasks, t);
      }
    }

    method FetchPending()
      modifies this
      ensures loading && error == NullError
      ensures tasks == old(tasks) && status == old(status)
    {
      loading := true;
      error := NullError;
    }

    method FetchFulfilled(payload: seq<Task>)
      modifies this
      ensures !loading && tasks == payload
      ensures error == old(error) && status == old(status)
    {
      loading := false;
      tasks := payload;
    }

    method FetchRejected(message: Option<string>)
      modifies this
      ensures !loading && error == RejectedError(message)
      ensures tasks == old(tasks) && status == old(status)
    {
      loading := false;
      error := RejectedError(message);
    }

    /** One complete fetch, with no other action in between: the pending
        case, then the case the settled thunk selects. */
    method Fetch(o: FetchOutcome)
      modifies this
      ensures !loading && status == old(status)
      ensures FetchTasks(o).Fulfilled? ==> tasks == FetchTasks(o).payload && error == NullError
      ensures FetchTasks(o).Rejected? ==>
        tasks == old(tasks) && error == RejectedError(FetchTasks(o).message)
    {
      FetchPending();
      var result := FetchTasks(o);
      match result
      case Fulfilled(payload) => FetchFulfilled(payload);
      case Rejected(message) => FetchRejected(message);
    }
  }

  /** `Array.prototype.findIndex` on the id, as a loop. */
  method FindIndex(ts: seq<Task>, id: string) returns (index: int)
    ensures -1 <= index < |ts|
    ensures index == -1 <==> forall j :: 0 <= j < |ts| ==> ts[j].id != id
    ensures 0 <= index ==> ts[index].id == id && forall j :: 0 <= j < index ==> ts[j].id != id
    ensures index == FirstIndex(ts, id)
  {
    var i := 0;
    while i < |ts|
      invariant 0 <= i <= |ts|
      invariant forall j :: 0 <= j < i ==> ts[j].id != id
    {
      if ts[i].id == id {
        return i;
      }
      i := i + 1;
    }
    return -1;
  }

  // ---------------------------------------------------------------------
  // removeTask

  /** The result of `removeTask` holds exactly the tasks of other ids. */
  lemma {:induction false} WithoutMembers(ts: seq<Task>, id: string)
    ensures forall x :: x in Without(ts, id) <==> x in ts && x.id != id
    ensures |Without(ts, id)| <= |ts|
    ensures id !in Ids(Without(ts, id))
  {
    if ts != [] {
      WithoutMembers(ts[1..], id);
      assert ts == [ts[0]] + ts[1..];
    }
  }

  /** `s` can be obtained from `t` by deleting elements. */
  predicate IsSubsequence(s: seq<Task>, t: seq<Task>)
    decreases |t|
  {
    if s == [] then true
    else if t == [] then false
    else if s[0] == t[0] then IsSubsequence(s[1..], t[1..])
    else IsSubsequence(s, t[1..])
  }

  /** `removeTask` keeps the surviving tasks in their original relative order. */
  lemma {:induction false} WithoutKeepsOrder(ts: seq<Task>, id: string)
    ensures IsSubsequence(Without(ts, id), ts)
  {
    if ts != [] {
      WithoutKeepsOrder(ts[1..], id);
      var w := Without(ts[1..], id);
      if ts[0].id != id {
        assert ([ts[0]] + w)[1..] == w;
      } else if w != [] {
        WithoutMembers(ts[1..], id);
        assert w[0] in w;
      }
    }
  }

  /** `removeTask` with an id no task carries leaves the list unchanged. */
  lemma {:induction false} WithoutAbsent(ts: seq<Task>, id: string)
    requires id !in Ids(ts)
    ensures Without(ts, id) == ts
  {
    if ts != [] {
      assert Ids(ts) == [ts[0].id] + Ids(ts[1..]);
      WithoutAbsent(ts[1..], id);
      assert ts == [ts[0]] + ts[1..];
    }
  }

  /** Removing twice is removing once. */
  lemma WithoutIdempotent(ts: seq<Task>, id: string)
    ensures Without(Without(ts, id), id) == Without(ts, id)
  {
    WithoutMembers(ts, id);
    WithoutAbsent(Without(ts, id), id);
  }

  lemma {:induction false} WithoutConcat(a: seq<Task>, b: seq<Task>, id: string)
    ensures Without(a + b, id) == Without(a, id) + Without(b, id)
  {
    if a != [] {
      assert (a + b)[1..] == a[1..] + b;
      WithoutConcat(a[1..], b, id);
    } else {
      assert a + b == b;
    }
  }

  /** Round trip: adding a task whose id is new, then removing that id,
      gives back the original list. */
  lemma AddThenRemove(ts: seq<Task>, t: Task)
    requires t.id !in Ids(ts)
    ensures Without(ts + [t], t.id) == ts
  {
    WithoutConcat(ts, [t], t.id);
    WithoutAbsent(ts, t.id);
    assert Without([t], t.id) == [];
  }

  // ---------------------------------------------------------------------
  // updateTask

  lemma {:induction false} UpdatedAt(ts: seq<Task>, t: Task, i: int)
    requires 0 <= i < |ts| && ts[i].id == t.id
    requires forall j :: 0 <= j < i ==> ts[j].id != t.id
    ensures Updated(ts, t) == ts[i := t]
  {
    if i > 0 {
      UpdatedAt(ts[1..], t, i - 1);
      assert ts[i := t] == [ts[0]] + ts[1..][i - 1 := t];
    }
  }

  lemma {:induction false} UpdatedAbsent(ts: seq<Task>, t: Task)
    requires forall j :: 0 <= j < |ts| ==> ts[j].id != t.id
    ensures Updated(ts, t) == ts
  {
    if ts != [] {
      UpdatedAbsent(ts[1..], t);
      assert ts == [ts[0]] + ts[1..];
    }
  }

  /** `updateTask` replaces exactly the first task carrying the payload's
      id, keeps the length and every other position, and never inserts. */
  lemma UpdatedShape(ts: seq<Task>, t: Task)
    ensures |Updated(ts, t)| == |ts|
    ensures FirstIndex(ts, t.id) == -1 ==> Updated(ts, t) == ts
    ensures FirstIndex(ts, t.id) >= 0 ==>
      Updated(ts, t)[FirstIndex(ts, t.id)] == t &&
      forall j :: 0 <= j < |ts| && j != FirstIndex(ts, t.id) ==> Updated(ts, t)[j] == ts[j]
  {
    var k := FirstIndex(ts, t.id);
    if k == -1 { UpdatedAbsent(ts, t); } else { UpdatedAt(ts, t, k); }
  }

  /** `updateTask` leaves the sequence of ids unchanged. */
  lemma UpdatedIds(ts: seq<Task>, t: Task)
    ensures Ids(Updated(ts, t)) == Ids(ts)
  {
    UpdatedShape(ts, t);
  }

  /** Dispatching the same `updateTask` twice equals dispatching it once. */
  lemma UpdatedIdempotent(ts: seq<Task>, t: Task)
    ensures Updated(Updated(ts, t), t) == Updated(ts, t)
  {
    var k := FirstIndex(ts, t.id);
    UpdatedShape(ts, t);
    if k == -1 {
    } else {
      var u := Updated(ts, t);
      UpdatedAt(u, t, k);
      assert u[k := t] == u;
    }
  }

  /** Round trip: updating with `t` and then with `p`, the task previously
      first with that id, restores the list. */
  lemma UpdateThenRestore(ts: seq<Task>, t: Task, p: Task)
    requires p.id == t.id
    requires FirstIndex(ts, t.id) >= 0 ==> ts[FirstIndex(ts, t.id)] == p
    ensures Updated(Updated(ts, t), p) == ts
  {
    var k := FirstIndex(ts, t.id);
    UpdatedShape(ts, t);
    if k == -1 {
      UpdatedAbsent(ts, p);
    } else {
      var u := Updated(ts, t);
      UpdatedAt(u, p, k);
      assert u[k := p] == ts;
    }
  }

  // ---------------------------------------------------------------------
  // The id invariant

  /** Every reducer keeps ids unique, adding provided the new id is fresh. */
  lemma UniqueIdsPreserved(ts: seq<Task>, t: Task, id: string)
    requires UniqueIds(ts)
    ensures t.id !in Ids(ts) ==> UniqueIds(ts + [t])
    ensures UniqueIds(Without(ts, id))
    ensures UniqueIds(Updated(ts, t))
  {
    if t.id !in Ids(ts) {
      var s := ts + [t];
      forall i, j | 0 <= i < j < |s| ensures s[i].id != s[j].id {
        if j == |ts| { assert Ids(ts)[i] == ts[i].id; }
      }
    }
    WithoutUnique(ts, id);
    UpdatedShape(ts, t);
  }

  lemma {:induction false} WithoutUnique(ts: seq<Task>, id: string)
    requires UniqueIds(ts)
    ensures UniqueIds(Without(ts, id))
  {
    if ts != [] {
      WithoutUnique(ts[1..], id);
      if ts[0].id != id {
        WithoutMembers(ts[1..], id);
        var w := Without(ts[1..], id);
        forall k | 0 <= k < |w| ensures w[k].id != ts[0].id {
          assert w[k] in ts[1..];
        }
      }
    }
  }

  // ---------------------------------------------------------------------
  // Fetch mapping

  /** The mapping is a normal form: mapping mapped records changes nothing. */
  lemma MapFetchedIdempotent(data: seq<Task>)
    ensures MapFetched(MapFetched(data)) == MapFetched(data)
  {
  }
}
