/** The task list view: rows of (id, name, status label, selector options), newest
    first, a task counter kept beside the rows, the table's visibility, the status
    vocabulary offered in new rows and the two callbacks the rows' controls invoke. */
module TaskListComponent {
  import opened Shared

  /** Value of every row selector's first option, the "<Modify>" entry meaning "no change". */
  const Placeholder := "0"

  /** One table row: its data-id, the name cell, the status cell and the values of its
      selector's options. */
  datatype Row = Row(id: int, name: string, statusLabel: string, options: seq<string>)

  /** The options a row's selector is built with: the placeholder, then each status. */
  function SelectorOptions(statuses: seq<string>): seq<string> {
    [Placeholder] + statuses
  }

  /** The row showTask builds for a task while `statuses` is the current vocabulary. */
  function NewRow(task: Task, statuses: seq<string>): Row {
    Row(task.id, task.title, task.status, SelectorOptions(statuses))
  }

  /** Builds a row's selector: the placeholder followed by one option per status, in order. */
  method BuildOptions(statuses: seq<string>) returns (options: seq<string>)
    ensures |options| == |statuses| + 1 && options[0] == Placeholder
    ensures forall k :: 0 <= k < |statuses| ==> options[k + 1] == statuses[k]
    ensures options == SelectorOptions(statuses)
  {
    options := [Placeholder];
    var i := 0;
    while i < |statuses|
      invariant 0 <= i <= |statuses|
      invariant options == [Placeholder] + statuses[..i]
    {
      options := options + [statuses[i]];
      i := i + 1;
    }
    assert statuses[..i] == statuses;
  }

  /** The row a lookup by data-id finds: the first one in table order, that is the most
      recently shown row with that id; None when no row has it. */
  function FindRow(rows: seq<Row>, id: int): (r: Option<nat>)
    ensures r.Some? ==> r.value < |rows| && rows[r.value].id == id
    ensures r.Some? ==> forall k :: 0 <= k < r.value ==> rows[k].id != id
    ensures r.None? ==> forall k :: 0 <= k < |rows| ==> rows[k].id != id
  {
    if rows == [] then None
    else if rows[0].id == id then Some(0)
    else match FindRow(rows[1..], id)
      case None => None
      case Some(k) => Some(k + 1)
  }

  /** Two row sequences with the same ids in the same order find the same row. */
  lemma {:induction false} FindRowSameIds(a: seq<Row>, b: seq<Row>, id: int)
    requires |a| == |b| && forall k :: 0 <= k < |a| ==> a[k].id == b[k].id
    ensures FindRow(a, id) == FindRow(b, id)
  {
    if a != [] {
      FindRowSameIds(a[1..], b[1..], id);
    }
  }

  /** updateTask on the rows: the found row's status label becomes `status`; no other
      row changes, no row moves, and nothing changes when no row has the id. */
  function UpdateRows(rows: seq<Row>, id: int, status: string): (r: seq<Row>)
    ensures |r| == |rows|
    ensures forall k :: 0 <= k < |rows| ==>
      r[k].id == rows[k].id && r[k].name == rows[k].name && r[k].options == rows[k].options
    ensures FindRow(rows, id).None? ==> r == rows
    ensures FindRow(rows, id).Some? ==>
      var i := FindRow(rows, id).value;
      r[i].statusLabel == status && forall k :: 0 <= k < |rows| && k != i ==> r[k] == rows[k]
  {
    match FindRow(rows, id)
    case None => rows
    case Some(i) => rows[i := rows[i].(statusLabel := status)]
  }

  /** removeTask on the rows: the found row goes and the others keep their order;
      nothing changes when no row has the id. */
  function RemoveRows(rows: seq<Row>, id: int): (r: seq<Row>)
    ensures FindRow(rows, id).None? ==> r == rows
    ensures FindRow(rows, id).Some? ==>
      var i := FindRow(rows, id).value;
      |r| == |rows| - 1
      && (forall k :: 0 <= k < i ==> r[k] == rows[k])
      && (forall k :: i <= k < |r| ==> r[k] == rows[k + 1])
  {
    match FindRow(rows, id)
    case None => rows
    case Some(i) => rows[..i] + rows[i + 1..]
  }

  /** The list's rows together with its task counter. */
  datatype ListState = ListState(rows: seq<Row>, count: int)

  /** The freshly constructed list. */
  const Initial := ListState([], 0)

  /** Calls that change the rows or the counter. */
  datatype ListOp =
    | ShowOp(task: Task, statuses: seq<string>)
    | UpdateOp(id: int, status: string)
    | RemoveOp(id: int)

  /** showTask adds one to the counter and puts the new row on top; updateTask changes
      one status label; removeTask takes one from the counter whether or not a row goes. */
  function Step(s: ListState, op: ListOp): ListState {
    match op
    case ShowOp(task, statuses) => ListState([NewRow(task, statuses)] + s.rows, s.count + 1)
    case UpdateOp(id, status) => ListState(UpdateRows(s.rows, id, status), s.count)
    case RemoveOp(id) => ListState(RemoveRows(s.rows, id), s.count - 1)
  }

  /** The state after a sequence of calls. */
  function Run(s: ListState, ops: seq<ListOp>): ListState
    decreases |ops|
  {
    if ops == [] then s else Run(Step(s, ops[0]), ops[1..])
  }

  /** How many removeTask calls in `ops` name an id no row has at that moment. */
  function MissedRemovals(s: ListState, ops: seq<ListOp>): nat
    decreases |ops|
  {
    if ops == [] then 0
    else
      (if ops[0].RemoveOp? && FindRow(s.rows, ops[0].id).None? then 1 else 0)
      + MissedRemovals(Step(s, ops[0]), ops[1..])
  }

  /** The counter drifts below the number of rows by exactly one per removal of an
      absent id. */
  lemma {:induction false} CountDrift(s: ListState, ops: seq<ListOp>)
    ensures Run(s, ops).count - |Run(s, ops).rows| == s.count - |s.rows| - MissedRemovals(s, ops)
    decreases |ops|
  {
    if ops != [] {
      CountDrift(Step(s, ops[0]), ops[1..]);
    }
  }

  /** From a fresh list, the counter equals the number of rows exactly when every
      removeTask named an id that was on display. */
  lemma CounterMatchesRows(ops: seq<ListOp>)
    ensures Run(Initial, ops).count == |Run(Initial, ops).rows| <==> MissedRemovals(Initial, ops) == 0
  {
    CountDrift(Initial, ops);
  }

  /** Rows shown one after another, in the given order, end up newest first: the list
      reads the tasks in reverse. */
  function NewestFirst(tasks: seq<Task>, statuses: seq<string>): (r: seq<Row>)
    ensures |r| == |tasks|
    ensures forall k :: 0 <= k < |tasks| ==> r[k] == NewRow(tasks[|tasks| - 1 - k], statuses)
  {
    if tasks == [] then []
    else [NewRow(tasks[|tasks| - 1], statuses)] + NewestFirst(tasks[..|tasks| - 1], statuses)
  }

  /** Showing each task of `tasks` in turn puts NewestFirst(tasks) on top of the rows
      and adds |tasks| to the counter. */
  lemma {:induction false} ShowEachTask(s: ListState, tasks: seq<Task>, statuses: seq<string>)
    ensures Run(s, ShowOps(tasks, statuses))
      == ListState(NewestFirst(tasks, statuses) + s.rows, s.count + |tasks|)
    decreases |tasks|
  {
    if tasks != [] {
      var ops := ShowOps(tasks, statuses);
      assert ops[1..] == ShowOps(tasks[1..], statuses);
      var s1 := Step(s, ops[0]);
      assert s1 == ListState([NewRow(tasks[0], statuses)] + s.rows, s.count + 1);
      ShowEachTask(s1, tasks[1..], statuses);
      NewestFirstSplit(tasks, statuses);
      assert NewestFirst(tasks[1..], statuses) + s1.rows == NewestFirst(tasks, statuses) + s.rows;
    }
  }

  /** The first task of a batch ends up below all the others. */
  lemma NewestFirstSplit(tasks: seq<Task>, statuses: seq<string>)
    requires tasks != []
    ensures NewestFirst(tasks, statuses) == NewestFirst(tasks[1..], statuses) + [NewRow(tasks[0], statuses)]
  {
    var a := NewestFirst(tasks, statuses);
    var b := NewestFirst(tasks[1..], statuses) + [NewRow(tasks[0], statuses)];
    assert |a| == |b|;
    forall k | 0 <= k < |a| ensures a[k] == b[k] {
      if k < |tasks| - 1 {
        assert tasks[1..][|tasks| - 2 - k] == tasks[|tasks| - 1 - k];
      }
    }
  }

  /** Showing one more task of a batch puts its row above the rows of those before it. */
  lemma NewestFirstExtend(tasks: seq<Task>, i: nat, statuses: seq<string>)
    requires i < |tasks|
    ensures NewestFirst(tasks[..i + 1], statuses) == [NewRow(tasks[i], statuses)] + NewestFirst(tasks[..i], statuses)
  {
    assert tasks[..i + 1][..i] == tasks[..i];
  }

  /** One showTask call per task, in the given order. */
  function ShowOps(tasks: seq<Task>, statuses: seq<string>): (ops: seq<ListOp>)
    ensures |ops| == |tasks|
    ensures forall k :: 0 <= k < |tasks| ==> ops[k] == ShowOp(tasks[k], statuses)
  {
    seq(|tasks|, k requires 0 <= k < |tasks| => ShowOp(tasks[k], statuses))
  }

  /** A status-change request passed to the registered change callback. */
  datatype ChangeRequest = ChangeRequest(callback: CallbackId, id: int, status: string)

  /** What the row selector's change handler does: the confirmation text it shows (if
      any), the request it passes on (if any) and the value the selector is left on. */
  datatype ChangeOutcome = ChangeOutcome(prompt: Option<string>, fired: Option<ChangeRequest>, selectorAfter: string)

  /** The change handler of `row` once option `choice` is selected, given the callback
      registered at that moment and the answer to the confirmation. */
  function StatusSelected(row: Row, choice: nat, callback: Option<CallbackId>, confirmed: bool): (r: ChangeOutcome)
    requires choice < |row.options|
    ensures r.prompt.Some? <==> row.options[choice] != Placeholder && callback.Some?
    ensures r.fired.Some? <==> row.options[choice] != Placeholder && callback.Some? && confirmed
    ensures r.fired.Some? ==> r.fired.value == ChangeRequest(callback.value, row.id, row.options[choice])
    ensures r.selectorAfter == Placeholder
  {
    var newStatus := row.options[choice];
    if newStatus != Placeholder && callback.Some? then
      var request := if confirmed then Some(ChangeRequest(callback.value, row.id, newStatus)) else None;
      ChangeOutcome(Some("set '" + row.name + "' to " + newStatus), request, Placeholder)
    else
      ChangeOutcome(None, None, Placeholder)
  }

  /** A delete request passed to the registered delete callback. */
  datatype DeleteRequest = DeleteRequest(callback: CallbackId, id: int)

  /** What the row's Remove button handler does: the confirmation text it shows (if any)
      and the request it passes on (if any). */
  datatype DeleteOutcome = DeleteOutcome(prompt: Option<string>, fired: Option<DeleteRequest>)

  function RemoveClicked(row: Row, callback: Option<CallbackId>, confirmed: bool): (r: DeleteOutcome)
    ensures r.prompt.Some? <==> callback.Some?
    ensures r.fired.Some? <==> callback.Some? && confirmed
    ensures r.fired.Some? ==> r.fired.value == DeleteRequest(callback.value, row.id)
  {
    if callback.Some? then
      var request := if confirmed then Some(DeleteRequest(callback.value, row.id)) else None;
      DeleteOutcome(Some("delete task '" + row.name + "'?"), request)
    else
      DeleteOutcome(None, None)
  }

  /** The task-list element. */
  class TaskList {
    var rows: seq<Row>
    var taskCount: int
    var tableVisible: bool
    var allStatuses: seq<string>
    var changeCallback: Option<CallbackId>
    var deleteCallback: Option<CallbackId>

    /** The table is shown exactly when the counter is not zero, negative included. */
    ghost predicate Valid()
      reads this
    {
      tableVisible == (taskCount != 0)
    }

    function State(): ListState
      reads this
    {
      ListState(rows, taskCount)
    }

    constructor ()
      ensures Valid() && State() == Initial && !tableVisible
      ensures allStatuses == [] && changeCallback.None? && deleteCallback.None?
    {
      rows := [];
      taskCount := 0;
      tableVisible := false;
      allStatuses := [];
      changeCallback := None;
      deleteCallback := None;
      new;
      ToggleTable();
    }

    /** Shows the table exactly when the counter is not zero. */
    method ToggleTable()
      modifies this`tableVisible
      ensures Valid()
    {
      var n := GetNumTasks();
      tableVisible := n != 0;
    }

    method SetStatusesList(list: seq<string>)
      modifies this`allStatuses
      ensures allStatuses == list
    {
      allStatuses := list;
    }

    method ChangeStatusCallback(callback: CallbackId)
      modifies this`changeCallback
      ensures changeCallback == Some(callback)
    {
      changeCallback := Some(callback);
    }

    method DeleteTaskCallback(callback: CallbackId)
      modifies this`deleteCallback
      ensures deleteCallback == Some(callback)
    {
      deleteCallback := Some(callback);
    }

    /** Adds one to the counter and puts the task's row above all others. */
    method ShowTask(task: Task)
      modifies this`rows, this`taskCount, this`tableVisible
      ensures Valid()
      ensures State() == Step(old(State()), ShowOp(task, allStatuses))
      ensures taskCount == old(taskCount) + 1
      ensures rows == [NewRow(task, allStatuses)] + old(rows)
    {
      taskCount := taskCount + 1;
      var options := BuildOptions(allStatuses);
      rows := [Row(task.id, task.title, task.status, options)] + rows;
      ToggleTable();
    }

    /** Overwrites the status label of the row with this id, if there is one. */
    method UpdateTask(id: int, status: string)
      modifies this`rows
      ensures State() == Step(old(State()), UpdateOp(id, status))
      ensures rows == UpdateRows(old(rows), id, status)
    {
      var found := FindRow(rows, id);
      if found.Some? {
        var i := found.value;
        rows := rows[i := rows[i].(statusLabel := status)];
      }
    }

    /** Takes one from the counter, then removes the row with this id if there is one. */
    method RemoveTask(id: int)
      modifies this`rows, this`taskCount, this`tableVisible
      ensures Valid()
      ensures State() == Step(old(State()), RemoveOp(id))
      ensures taskCount == old(taskCount) - 1
      ensures rows == RemoveRows(old(rows), id)
    {
      taskCount := taskCount - 1;
      var found := FindRow(rows, id);
      if found.Some? {
        var i := found.value;
        rows := rows[..i] + rows[i + 1..];
      }
      ToggleTable();
    }

    method GetNumTasks() returns (n: int)
      ensures n == taskCount
    {
      n := taskCount;
    }

    /** The change handler of row i after option `choice` is picked. */
    method SelectStatus(i: nat, choice: nat, confirmed: bool) returns (outcome: ChangeOutcome)
      requires i < |rows| && choice < |rows[i].options|
      ensures outcome == StatusSelected(rows[i], choice, changeCallback, confirmed)
      ensures outcome.fired.Some? ==> outcome.fired.value.id == rows[i].id
    {
      outcome := StatusSelected(rows[i], choice, changeCallback, confirmed);
    }

    /** The click handler of row i's Remove button. */
    method ClickRemove(i: nat, confirmed: bool) returns (outcome: DeleteOutcome)
      requires i < |rows|
      ensures outcome == RemoveClicked(rows[i], deleteCallback, confirmed)
      ensures outcome.fired.Some? ==> outcome.fired.value.id == rows[i].id
    {
      outcome := RemoveClicked(rows[i], deleteCallback, confirmed);
    }
  }
}
