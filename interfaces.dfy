/** The record shapes shared by the store, the list view and the form:
    a task (`iTask`) and the state of the task slice (`iTasksState`). */
module Interfaces {

  datatype Option<+T> = None | Some(value: T)

  /** A task. Only `id` is required; every other field may be absent. */
  datatype Task = Task(
    id: string,
    title: Option<string>,
    description: Option<string>,
    status: Option<string>,
    date: Option<string>,
    completed: Option<bool>)

  /** The three status literals the task type admits. */
  const ToDo: string := "To Do"
  const InProcess: string := "In process"
  const Completed: string := "Completed"

  predicate IsTaskStatus(s: string)
  {
    s == ToDo || s == InProcess || s == Completed
  }

  /** A task whose optional status, when present, is one of the three literals. */
  predicate WellTypedTask(t: Task)
  {
    t.status.Some? ==> IsTaskStatus(t.status.value)
  }

  /** The store-level filter status: 'All' or one of the task statuses. */
  datatype StoreStatus = All | OnlyStatus(status: string)

  predicate WellTypedStoreStatus(s: StoreStatus)
  {
    s.OnlyStatus? ==> IsTaskStatus(s.status)
  }

  /** The slice's `error`: a string, `null` or `undefined`. */
  datatype ErrorValue = NullError | UndefinedError | ErrorText(text: string)

  /** JavaScript truthiness of an `error` value: only a non-empty string is truthy. */
  predicate Truthy(e: ErrorValue)
  {
    e.ErrorText? && e.text != ""
  }

  datatype TasksState = TasksState(
    tasks: seq<Task>,
    loading: bool,
    error: ErrorValue,
    status: StoreStatus)

  /** The status literal the form's select offers for work in progress. */
  const FormInProgress: string := "In Progress"

  /** The form's "In Progress" option is not one of the task type's literals:
      a task saved from that option does not satisfy `WellTypedTask`. */
  lemma FormInProgressIsNotTaskStatus()
    ensures !IsTaskStatus(FormInProgress)
    ensures forall t: Task :: t.status == Some(FormInProgress) ==> !WellTypedTask(t)
  {
    assert FormInProgress[1] != ToDo[1];
    assert FormInProgress[3] != InProcess[3];
    assert FormInProgress[0] != Completed[0];
  }
}
