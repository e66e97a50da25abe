/** The create/edit form: its validation schema, its default values, and
    the optimistic submit protocol (build the task, dispatch it to the
    store, send it, roll back and report errors on a failed response). */
module TaskForm {
  import opened Interfaces
  import opened TasksSlice

  // ---------------------------------------------------------------------
  // Form values and validation

  /** The values the form holds: a task whose fields may all be absent. */
  datatype FormValues = FormValues(
    id: Option<string>,
    title: Option<string>,
    description: Option<string>,
    status: Option<string>,
    date: Option<string>,
    completed: Option<bool>)

  function FormOf(t: Task): FormValues
  {
    FormValues(Some(t.id), t.title, t.description, t.status, t.date, t.completed)
  }

  const TitleField: string := "title"
  const DescriptionField: string := "description"
  const StatusField: string := "status"

  const TitleMin: nat := 3
  const TitleMax: nat := 100
  const DescriptionMax: nat := 500

  /** The rule a field breaks first. */
  datatype Rule = Required | MinLength(min: nat) | MaxLength(max: nat)

  /** A field error: from the schema, or set from the server's response. */
  datatype FieldError = ClientError(rule: Rule) | ServerError(message: string)

  /** `string().required().min(3).max(100)`. */
  function TitleRule(title: Option<string>): (r: Option<Rule>)
    ensures r.None? <==> title.Some? && TitleMin <= |title.value| <= TitleMax
  {
    if title.None? || title.value == "" then Some(Required)
    else if |title.value| < TitleMin then Some(MinLength(TitleMin))
    else if |title.value| > TitleMax then Some(MaxLength(TitleMax))
    else None
  }

  /** `string().max(500)`: an absent description passes. */
  function DescriptionRule(description: Option<string>): (r: Option<Rule>)
    ensures r.None? <==> description.None? || |description.value| <= DescriptionMax
  {
    if description.Some? && |description.value| > DescriptionMax then Some(MaxLength(DescriptionMax))
    else None
  }

  /** `string().required()`. */
  function StatusRule(status: Option<string>): (r: Option<Rule>)
    ensures r.None? <==> status.Some? && status.value != ""
  {
    if status.None? || status.value == "" then Some(Required) else None
  }

  /** The input the schema accepts. */
  predicate Valid(v: FormValues)
    ensures Valid(v) <==>
      TitleRule(v.title).None? && DescriptionRule(v.description).None? && StatusRule(v.status).None?
  {
    && v.title.Some? && TitleMin <= |v.title.value| <= TitleMax
    && (v.description.None? || |v.description.value| <= DescriptionMax)
    && v.status.Some? && v.status.value != ""
  }

  function ErrorEntry(field: string, r: Option<Rule>): map<string, FieldError>
  {
    if r.Some? then map[field := ClientError(r.value)] else map[]
  }

  /** The errors the schema reports, one per failing field. */
  function ValidationErrors(v: FormValues): (m: map<string, FieldError>)
    ensures m.Keys <= {TitleField, DescriptionField, StatusField}
    ensures TitleField in m <==> TitleRule(v.title).Some?
    ensures DescriptionField in m <==> DescriptionRule(v.description).Some?
    ensures StatusField in m <==> StatusRule(v.status).Some?
  {
    ErrorEntry(TitleField, TitleRule(v.title))
      + ErrorEntry(DescriptionField, DescriptionRule(v.description))
      + ErrorEntry(StatusField, StatusRule(v.status))
  }

  /** The schema reports no error exactly on the input `Valid` accepts. */
  lemma ValidationErrorsEmptyIffValid(v: FormValues)
    ensures ValidationErrors(v) == map[] <==> Valid(v)
  {
    if ValidationErrors(v) == map[] {
      assert TitleField !in ValidationErrors(v);
      assert DescriptionField !in ValidationErrors(v);
      assert StatusField !in ValidationErrors(v);
    }
  }

  /** A two-character title is refused with a minimum-length error on `title`. */
  lemma ShortTitleRefused(v: FormValues)
    requires v.title == Some("ab")
    ensures !Valid(v)
    ensures TitleField in ValidationErrors(v)
    ensures ValidationErrors(v)[TitleField] == ClientError(MinLength(3))
  {
  }

  // ---------------------------------------------------------------------
  // Default values and the task that is sent

  /** `initialData || { title: '', description: '', status: 'To Do' }`. */
  function DefaultValues(initialData: Option<Task>): (v: FormValues)
    ensures initialData.Some? ==> v == FormOf(initialData.value)
    ensures initialData.None? ==>
      v.title == Some("") && v.description == Some("") && v.status == Some(ToDo) &&
      v.id.None? && v.date.None? && v.completed.None?
  {
    if initialData.Some? then FormOf(initialData.value)
    else FormValues(None, Some(""), Some(""), Some(ToDo), None, None)
  }

  /** The empty add form cannot be submitted: its only error is the missing title. */
  lemma AddDefaultsNeedTitle()
    ensures ValidationErrors(DefaultValues(None)) == map[TitleField := ClientError(Required)]
  {
    assert DescriptionRule(Some("")).None?;
  }

  predicate TruthyString(s: Option<string>)
  {
    s.Some? && s.value != ""
  }

  /** `{...data, id: initialData?.id || freshId, date: initialData?.date || today}`. */
  function BuildTaskData(data: FormValues, initialData: Option<Task>, freshId: string, today: string): (t: Task)
    ensures t.title == data.title && t.description == data.description
    ensures t.status == data.status && t.completed == data.completed
    ensures initialData.None? ==> t.id == freshId && t.date == Some(today)
    ensures initialData.Some? ==>
      t.id == (if initialData.value.id != "" then initialData.value.id else freshId)
    ensures initialData.Some? ==>
      t.date == (if TruthyString(initialData.value.date) then initialData.value.date else Some(today))
  {
    var id := if initialData.Some? && initialData.value.id != "" then initialData.value.id else freshId;
    var date := if initialData.Some? && TruthyString(initialData.value.date) then initialData.value.date.value else today;
    Task(id, data.title, data.description, data.status, Some(date), data.completed)
  }

  /** Saving an edit form left at its defaults sends back the task being
      edited, whenever that task has an id and a date. */
  lemma UnchangedEditSendsInitial(t: Task, freshId: string, today: string)
    requires t.id != "" && TruthyString(t.date)
    ensures BuildTaskData(DefaultValues(Some(t)), Some(t), freshId, today) == t
  {
  }

  // ---------------------------------------------------------------------
  // The request

  const ApiBase: string := "http://localhost:3001"
  const TasksUrl: string := ApiBase + "/tasks"

  datatype HttpMethod = Put | Post

  datatype Request = Request(verb: HttpMethod, url: string, body: Task)

  /** PUT to the task's own URL in edit mode, POST to the collection otherwise. */
  function RequestFor(editMode: bool, taskData: Task): (r: Request)
    ensures r.body == taskData
    ensures r.verb == Put <==> editMode
    ensures editMode ==> r.url == TasksUrl + "/" + taskData.id
    ensures !editMode ==> r.url == TasksUrl
    ensures editMode ==> r.url != TasksUrl
  {
    if editMode then Request(Put, TasksUrl + "/" + taskData.id, taskData)
    else Request(Post, TasksUrl, taskData)
  }

  // ---------------------------------------------------------------------
  // The store's task list before the request and after a failed one

  /** The optimistic dispatch: `editTask(taskData)` in edit mode, `addTask(taskData)` otherwise. */
  function OptimisticTasks(ts: seq<Task>, initialData: Option<Task>, taskData: Task): (r: seq<Task>)
    ensures initialData.None? ==> |r| == |ts| + 1 && r[..|ts|] == ts && r[|ts|] == taskData
    ensures initialData.Some? ==> Ids(r) == Ids(ts)
  {
    UpdatedIds(ts, taskData);
    if initialData.Some? then Updated(ts, taskData) else ts + [taskData]
  }

  /** The rollback: `editTask(initialData)` in edit mode, `removeTask(taskData.id)` otherwise. */
  function RolledBackTasks(ts: seq<Task>, initialData: Option<Task>, taskData: Task): (r: seq<Task>)
    ensures initialData.Some? ==> Ids(r) == Ids(ts)
    ensures initialData.None? ==> forall t :: t in r <==> t in ts && t.id != taskData.id
  {
    if initialData.Some? then (UpdatedIds(ts, initialData.value); Updated(ts, initialData.value))
    else (WithoutMembers(ts, taskData.id); Without(ts, taskData.id))
  }

  /** The task being edited is what the store holds first under its id (or
      the store holds no task with that id). */
  predicate AgreesWithStore(ts: seq<Task>, p: Task)
  {
    FirstIndex(ts, p.id) >= 0 ==> ts[FirstIndex(ts, p.id)] == p
  }

  /** After a failed response the store's list is what it was before the
      submit: for an add, when the fresh id is new; for an edit, when the
      edited task agrees with the store (and, should it lack an id, when
      the fresh id is new). */
  lemma RollbackRestoresTasks(ts: seq<Task>, data: FormValues, initialData: Option<Task>, freshId: string, today: string)
    requires initialData.None? ==> freshId !in Ids(ts)
    requires initialData.Some? ==> AgreesWithStore(ts, initialData.value)
    requires initialData.Some? && initialData.value.id == "" ==> freshId !in Ids(ts)
    ensures var taskData := BuildTaskData(data, initialData, freshId, today);
      RolledBackTasks(OptimisticTasks(ts, initialData, taskData), initialData, taskData) == ts
  {
    var taskData := BuildTaskData(data, initialData, freshId, today);
    if initialData.None? {
      AddThenRemove(ts, taskData);
    } else {
      var p := initialData.value;
      if p.id != "" {
        UpdateThenRestore(ts, taskData, p);
      } else {
        UpdatedShape(ts, taskData);
        UpdateThenRestore(ts, p, p);
        UpdatedIdempotent(ts, p);
      }
    }
  }

  /** A successful add with a fresh id keeps ids unique and leaves exactly
      one task with that id. */
  lemma AddKeepsIdsUnique(ts: seq<Task>, taskData: Task)
    requires UniqueIds(ts) && taskData.id !in Ids(ts)
    ensures UniqueIds(OptimisticTasks(ts, None, taskData))
    ensures forall i :: 0 <= i < |ts| + 1 && OptimisticTasks(ts, None, taskData)[i].id == taskData.id ==> i == |ts|
  {
    UniqueIdsPreserved(ts, taskData, taskData.id);
    forall i | 0 <= i < |ts| ensures ts[i].id != taskData.id {
      assert Ids(ts)[i] == ts[i].id;
    }
  }

  // ---------------------------------------------------------------------
  // The network outcome and the messages

  /** Something thrown: an `Error` with its message, or any other value. */
  datatype Thrown = ErrorInstance(message: string) | OtherValue

  /** A failed response's parsed body: an optional `errors` object, given
      as its entries in order, and an optional `message`. */
  datatype ErrorBody = ErrorBody(errors: Option<seq<(string, string)>>, message: Option<string>)

  /** The result of reading a failed response's body with `response.json()`. */
  datatype Body = Parsed(data: ErrorBody) | Unparsable(thrown: Thrown)

  /** What `fetch` gives: it throws, or a response arrives (its body is read
      only when it is not ok). */
  datatype NetworkResult = Threw(thrown: Thrown) | Responded(ok: bool, body: Body)

  const FailedToAddTask: string := "Failed to add task"
  const SubmissionFailed: string := "Submission failed"

  /** The catch block's message. */
  function CaughtMessage(e: Thrown): (m: string)
    ensures e.ErrorInstance? ==> m == e.message
    ensures e.OtherValue? ==> m == FailedToAddTask
  {
    match e
    case ErrorInstance(message) => message
    case OtherValue => FailedToAddTask
  }

  /** `errorData.message || 'Submission failed'`. */
  function SubmissionMessage(message: Option<string>): (m: string)
    ensures m != ""
    ensures TruthyString(message) ==> m == message.value
    ensures !TruthyString(message) ==> m == SubmissionFailed
  {
    if TruthyString(message) then message.value else SubmissionFailed
  }

  /** `setError` applied to each entry in turn; a later entry for a field
      overrides an earlier one. */
  function WithServerErrors(m: map<string, FieldError>, entries: seq<(string, string)>): (r: map<string, FieldError>)
    ensures m.Keys <= r.Keys
    ensures forall i :: 0 <= i < |entries| ==> entries[i].0 in r
  {
    if entries == [] then m
    else
      var last := entries[|entries| - 1];
      WithServerErrors(m, entries[..|entries| - 1])[last.0 := ServerError(last.1)]
  }

  /** Field names that occur once each. */
  predicate DistinctFields(entries: seq<(string, string)>)
  {
    forall i, j :: 0 <= i < j < |entries| ==> entries[i].0 != entries[j].0
  }

  /** Each entry of `errors` becomes one field error; other fields keep theirs. */
  lemma {:induction false} ServerErrorsSet(m: map<string, FieldError>, entries: seq<(string, string)>)
    requires DistinctFields(entries)
    ensures forall i :: 0 <= i < |entries| ==>
      entries[i].0 in WithServerErrors(m, entries) &&
      WithServerErrors(m, entries)[entries[i].0] == ServerError(entries[i].1)
    ensures forall f :: f in m && (forall i :: 0 <= i < |entries| ==> entries[i].0 != f) ==>
      f in WithServerErrors(m, entries) && WithServerErrors(m, entries)[f] == m[f]
    ensures forall f :: f in WithServerErrors(m, entries) ==>
      f in m || exists i :: 0 <= i < |entries| && entries[i].0 == f
  {
    if entries != [] {
      var init := entries[..|entries| - 1];
      assert DistinctFields(init) by {
        forall i, j | 0 <= i < j < |init| ensures init[i].0 != init[j].0 {
          assert init[i] == entries[i] && init[j] == entries[j];
        }
      }
      ServerErrorsSet(m, init);
      forall f | f in WithServerErrors(m, entries)
        ensures f in m || exists i :: 0 <= i < |entries| && entries[i].0 == f
      {
        if f != entries[|entries| - 1].0 {
          assert f in WithServerErrors(m, init);
          if f !in m {
            var i :| 0 <= i < |init| && init[i].0 == f;
            assert entries[i].0 == f;
          }
        }
      }
      forall i | 0 <= i < |init| ensures init[i] == entries[i] { }
    }
  }

  /** A callback the form calls after a successful response. */
  datatype Effect = OnSubmitCalled(task: Task) | ResetCalled | OnSuccessCalled

  /** On success: `onSubmit(taskData)`, `reset()`, then `onSuccess` if given. */
  function SuccessEffects(taskData: Task, hasOnSuccess: bool): (e: seq<Effect>)
    ensures |e| == (if hasOnSuccess then 3 else 2)
    ensures e[0] == OnSubmitCalled(taskData) && e[1] == ResetCalled
    ensures hasOnSuccess ==> e[2] == OnSuccessCalled
  {
    [OnSubmitCalled(taskData), ResetCalled] + (if hasOnSuccess then [OnSuccessCalled] else [])
  }

  // ---------------------------------------------------------------------
  // The form component's state and its submit handler

  class TaskFormState {
    const initialData: Option<Task>
    const hasOnSuccess: bool
    var submitError: Option<string>
    var fieldErrors: map<string, FieldError>
    var effects: seq<Effect>

    /** `!!initialData`: an object is always truthy, so the form edits
        exactly when it was given a task. */
    predicate IsEditMode()
      ensures IsEditMode() <==> initialData.Some?
    {
      initialData.Some?
    }

    constructor (initialData: Option<Task>, hasOnSuccess: bool)
      ensures this.initialData == initialData && this.hasOnSuccess == hasOnSuccess
      ensures submitError.None? && fieldErrors == map[] && effects == []
    {
      this.initialData := initialData;
      this.hasOnSuccess := hasOnSuccess;
      submitError := None;
      fieldErrors := map[];
      effects := [];
    }

    /** The `forEach` over the entries of `errors`, calling `setError`. */
    method SetServerErrors(entries: seq<(string, string)>)
      modifies this
      ensures fieldErrors == WithServerErrors(old(fieldErrors), entries)
      ensures submitError == old(submitError) && effects == old(effects)
    {
      var i := 0;
      while i < |entries|
        invariant 0 <= i <= |entries|
        invariant fieldErrors == WithServerErrors(old(fieldErrors), entries[..i])
        invariant submitError == old(submitError) && effects == old(effects)
      {
        assert entries[..i + 1][..i] == entries[..i];
        fieldErrors := fieldErrors[entries[i].0 := ServerError(entries[i].1)];
        i := i + 1;
      }
      assert entries[..|entries|] == entries;
    }

    /** `handleFormSubmit(data)`: clear the submit error, build the task,
        dispatch it optimistically, send it, then either roll back and
        report, or call the success callbacks. A throw from `fetch` skips
        the rollback; a throw while reading a failed response's body comes
        after it. */
    method HandleFormSubmit(store: TaskStore, data: FormValues, freshId: string, today: string, network: NetworkResult)
      returns (request: Request)
      modifies this, store
      ensures var taskData := BuildTaskData(data, initialData, freshId, today);
        request == RequestFor(IsEditMode(), taskData)
      ensures var taskData := BuildTaskData(data, initialData, freshId, today);
        network.Threw? ==>
          && store.tasks == OptimisticTasks(old(store.tasks), initialData, taskData)
          && submitError == Some(CaughtMessage(network.thrown))
          && fieldErrors == old(fieldErrors) && effects == old(effects)
          && store.loading == old(store.loading) && store.error == old(store.error)
          && store.status == old(store.status)
      ensures var taskData := BuildTaskData(data, initialData, freshId, today);
        network.Responded? && !network.ok ==>
          && store.tasks == RolledBackTasks(OptimisticTasks(old(store.tasks), initialData, taskData), initialData, taskData)
          && effects == old(effects)
          && (IsEditMode() ==>
                store.loading == old(store.loading) && store.error == old(store.error)
                && store.status == old(store.status))
          && (network.body.Unparsable? ==>
                submitError == Some(CaughtMessage(network.body.thrown)) && fieldErrors == old(fieldErrors))
          && (network.body.Parsed? && network.body.data.errors.Some? ==>
                submitError.None? && fieldErrors == WithServerErrors(old(fieldErrors), network.body.data.errors.value))
          && (network.body.Parsed? && network.body.data.errors.None? ==>
                submitError == Some(SubmissionMessage(network.body.data.message)) && fieldErrors == old(fieldErrors))
      ensures var taskData := BuildTaskData(data, initialData, freshId, today);
        network.Responded? && network.ok ==>
          && store.tasks == OptimisticTasks(old(store.tasks), initialData, taskData)
          && store.loading == old(store.loading) && store.error == old(store.error)
          && store.status == old(store.status)
          && submitError.None? && fieldErrors == map[]
          && effects == old(effects) + SuccessEffects(taskData, hasOnSuccess)
    {
      submitError := None;
      var taskData := BuildTaskData(data, initialData, freshId, today);
      if IsEditMode() {
        store.UpdateTask(taskData);
      } else {
        store.AddTask(taskData);
      }
      request := RequestFor(IsEditMode(), taskData);
      match network
      case Threw(e) =>
        submitError := Some(CaughtMessage(e));
      case Responded(ok, body) =>
        if !ok {
          if IsEditMode() {
            store.UpdateTask(initialData.value);
          } else {
            store.RemoveTask(taskData.id);
          }
          match body {
            case Unparsable(e) =>
              submitError := Some(CaughtMessage(e));
            case Parsed(errorData) =>
              if errorData.errors.Some? {
                SetServerErrors(errorData.errors.value);
              } else {
                submitError := Some(SubmissionMessage(errorData.message));
              }
          }
          return;
        }
        effects := effects + [OnSubmitCalled(taskData)];
        effects := effects + [ResetCalled];
        fieldErrors := map[];
        if hasOnSuccess {
          effects := effects + [OnSuccessCalled];
        }
    }

    /** `handleSubmit(handleFormSubmit)`: the schema's errors replace the
        field errors, and only input without errors reaches the handler. */
    method HandleSubmit(store: TaskStore, data: FormValues, freshId: string, today: string, network: NetworkResult)
      returns (request: Option<Request>)
      modifies this, store
      ensures !Valid(data) ==>
        && request.None? && unchanged(store)
        && fieldErrors == ValidationErrors(data)
        && submitError == old(submitError) && effects == old(effects)
      ensures Valid(data) ==>
        request == Some(RequestFor(IsEditMode(), BuildTaskData(data, initialData, freshId, today)))
      ensures var taskData := BuildTaskData(data, initialData, freshId, today);
        Valid(data) && network.Threw? ==>
          && store.tasks == OptimisticTasks(old(store.tasks), initialData, taskData)
          && submitError == Some(CaughtMessage(network.thrown))
          && fieldErrors == map[] && effects == old(effects)
      ensures var taskData := BuildTaskData(data, initialData, freshId, today);
        Valid(data) && network.Responded? && !network.ok ==>
          && store.tasks == RolledBackTasks(OptimisticTasks(old(store.tasks), initialData, taskData), initialData, taskData)
          && effects == old(effects)
      ensures var taskData := BuildTaskData(data, initialData, freshId, today);
        Valid(data) && network.Responded? && network.ok ==>
          && store.tasks == OptimisticTasks(old(store.tasks), initialData, taskData)
          && submitError.None? && fieldErrors == map[]
          && effects == old(effects) + SuccessEffects(taskData, hasOnSuccess)
      ensures Valid(data) && network.Responded? && !network.ok ==>
        && (network.body.Unparsable? ==>
              submitError == Some(CaughtMessage(network.body.thrown)) && fieldErrors == map[])
        && (network.body.Parsed? && network.body.data.errors.Some? ==>
              submitError.None? && fieldErrors == WithServerErrors(map[], network.body.data.errors.value))
        && (network.body.Parsed? && network.body.data.errors.None? ==>
              submitError == Some(SubmissionMessage(network.body.data.message)) && fieldErrors == map[])
      ensures Valid(data) && (IsEditMode() || !(network.Responded? && !network.ok)) ==>
        store.loading == old(store.loading) && store.error == old(store.error) && store.status == old(store.status)
    {
      ValidationErrorsEmptyIffValid(data);
      var errors := ValidationErrors(data);
      if errors != map[] {
        fieldErrors := errors;
        return None;
      }
      fieldErrors := map[];
      var r := HandleFormSubmit(store, data, freshId, today, network);
      return Some(r);
    }
  }

  /** A submit whose response is not ok leaves the store's task list as it
      was before the submit, under the conditions of `RollbackRestoresTasks`. */
  method FailedSubmitRestoresTasks(form: TaskFormState, store: TaskStore, data: FormValues,
                                   freshId: string, today: string, body: Body)
    requires form.initialData.None? ==> freshId !in Ids(store.tasks)
    requires form.initialData.Some? ==> AgreesWithStore(store.tasks, form.initialData.value)
    requires form.initialData.Some? && form.initialData.value.id == "" ==> freshId !in Ids(store.tasks)
    modifies form, store
    ensures store.tasks == old(store.tasks)
  {
    RollbackRestoresTasks(store.tasks, data, form.initialData, freshId, today);
    var _ := form.HandleFormSubmit(store, data, freshId, today, Responded(false, body));
  }
}
