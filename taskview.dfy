/** The task view: the coordinator that owns the service URL, fetches the status
    vocabulary and then the tasks at start-up, and turns the dialog's and the rows'
    requests into calls on the service and the replies into list updates and messages.
    Every call on the service is recorded in `requests`; each reply is an input. */
module TaskViewComponent {
  import opened Shared
  import opened Text
  import L = TaskListComponent
  import B = TaskBoxComponent

  const ConfigError := "data-serviceurl is a required prop"

  const WaitingMessage := "Waiting for server data."
  const StatusesErrorMessage := "Error fetching statuses."
  const TasksErrorMessage := "Error fetching tasks."
  const NoTasksMessage := "No tasks found."
  const AddedMessage := "Added 1 task"
  const ChangedMessage := "Changed 1 task"
  const RemovedMessage := "Removed 1 task"

  /** The three handlers the view registers with the dialog and the list. */
  const CreateHandler: CallbackId := 0
  const ChangeHandler: CallbackId := 1
  const DeleteHandler: CallbackId := 2

  /** Reading the data-serviceurl attribute: construction fails when it is absent or
      empty, and otherwise the attribute is the base of every request URL. */
  function ReadConfig(attribute: Option<string>): (r: Result<string, string>)
    ensures r.Ok? <==> attribute.Some? && attribute.value != ""
    ensures r.Ok? ==> r.value == attribute.value
    ensures r.Err? ==> r.error == ConfigError
  {
    if attribute.Some? && attribute.value != "" then Ok(attribute.value) else Err(ConfigError)
  }

  datatype HttpMethod = GET | POST | PUT | DELETE

  /** The objects sent as JSON bodies. */
  datatype Payload = NewTaskBody(title: string, status: string) | StatusBody(status: string)

  datatype Request = Request(url: string, verb: HttpMethod, contentType: string, body: Option<Payload>)

  const JsonContentType := "application/json; charset=utf-8"

  const StatusesPath := "/allstatuses"
  const TaskListPath := "/tasklist"
  const TaskPath := "/task"

  /** The path of one task's resource. */
  function TaskPathFor(id: int): string {
    TaskPath + "/" + IntToString(id)
  }

  /** The request #fetch sends: the configured base followed by the path, the JSON
      content type, and a body only when there is a payload. */
  function BuildRequest(config: string, path: string, verb: HttpMethod, payload: Option<Payload>): (r: Request)
    ensures |r.url| == |config| + |path| && r.url[..|config|] == config && r.url[|config|..] == path
    ensures r.verb == verb && r.contentType == JsonContentType
    ensures r.body.Some? <==> payload.Some?
    ensures r.body.Some? ==> r.body.value == payload.value
  {
    Request(config + path, verb, JsonContentType, payload)
  }

  /** Requests for different tasks go to different URLs. */
  lemma TaskUrlsDistinct(config: string, a: int, b: int, m: HttpMethod, p: Option<Payload>, q: Option<Payload>)
    requires BuildRequest(config, TaskPathFor(a), m, p).url == BuildRequest(config, TaskPathFor(b), m, q).url
    ensures a == b
  {
    var u := BuildRequest(config, TaskPathFor(a), m, p).url;
    assert TaskPathFor(a) == u[|config|..] == TaskPathFor(b);
    assert IntToString(a) == TaskPathFor(a)[|TaskPath| + 1..];
    assert IntToString(b) == TaskPathFor(b)[|TaskPath| + 1..];
    IntToStringInjective(a, b);
  }

  /** A decoded reply body. `responseStatus` is the truthiness of that field; `tasks` is
      None when the field is not an array. */
  datatype Reply = Reply(responseStatus: bool, task: Task, tasks: Option<seq<Task>>, allstatuses: seq<string>)

  /** What the network gives back: no response at all, or a status code and a body that
      parses as JSON or does not. */
  datatype ServerResponse = NetworkFailure | Response(status: int, json: Option<Reply>)

  /** Response.ok: a 2xx status. */
  predicate IsOk(status: int) {
    200 <= status <= 299
  }

  datatype FetchError = NetworkError | HttpError(status: int, url: string) | SyntaxError

  /** How #fetch turns a response into a value or an exception: a failed fetch
      propagates, a non-2xx status raises an HTTP error naming the status and URL, and
      a body that does not parse raises a syntax error. */
  function Classify(response: ServerResponse, url: string): (r: Result<Reply, FetchError>)
    ensures r.Ok? <==> response.Response? && IsOk(response.status) && response.json.Some?
    ensures r.Ok? ==> r.value == response.json.value
    ensures response.NetworkFailure? ==> r == Err(NetworkError)
    ensures response.Response? && !IsOk(response.status) ==> r == Err(HttpError(response.status, url))
    ensures response.Response? && IsOk(response.status) && response.json.None? ==> r == Err(SyntaxError)
  {
    match response
    case NetworkFailure => Err(NetworkError)
    case Response(status, json) =>
      if !IsOk(status) then Err(HttpError(status, url))
      else if json.None? then Err(SyntaxError)
      else Ok(json.value)
  }

  /** The task list a reply carries; anything other than an array counts as empty. */
  function ListedTasks(reply: Reply): seq<Task> {
    if reply.tasks.Some? then reply.tasks.value else []
  }

  /** What #fetchTasks leaves: the message and the tasks it shows, in server order. */
  datatype TasksLoad = TasksLoad(message: string, shown: seq<Task>)

  function LoadTasks(config: string, response: ServerResponse): (r: TasksLoad)
    ensures Classify(response, config + TaskListPath).Err? ==> r == TasksLoad(TasksErrorMessage, [])
    ensures Classify(response, config + TaskListPath).Ok? ==>
      r.shown == ListedTasks(Classify(response, config + TaskListPath).value)
    ensures r.shown == [] <==> r.message in {TasksErrorMessage, NoTasksMessage}
    ensures Classify(response, config + TaskListPath).Ok? && r.shown == [] ==> r.message == NoTasksMessage
    ensures r.shown != [] ==> r.message == "Found " + NatToString(|r.shown|) + " tasks."
  {
    match Classify(response, config + TaskListPath)
    case Err(_) => TasksLoad(TasksErrorMessage, [])
    case Ok(data) =>
      var tasks := ListedTasks(data);
      if |tasks| == 0 then TasksLoad(NoTasksMessage, [])
      else
        var found := "Found " + NatToString(|tasks|) + " tasks.";
        assert found[0] == 'F' != TasksErrorMessage[0] && found[0] != NoTasksMessage[0];
        TasksLoad(found, tasks)
  }

  /** What start-up leaves: the requests sent, the vocabulary handed to both leaves (if
      any), the tasks shown, the message and whether the new-task button is enabled. */
  datatype Startup = Startup(requests: seq<Request>, statuses: Option<seq<string>>, shown: seq<Task>, message: string, enabled: bool)

  function StatusesRequest(config: string): Request {
    BuildRequest(config, StatusesPath, GET, None)
  }

  function TasksRequest(config: string): Request {
    BuildRequest(config, TaskListPath, GET, None)
  }

  /** Start-up: the vocabulary is fetched first; only when that succeeds is it handed to
      both leaves, the task list fetched and the button enabled (also when the task
      fetch fails). When it fails, nothing else is requested or shown. */
  function RunStartup(config: string, statusesReply: ServerResponse, tasksReply: ServerResponse): (r: Startup)
    ensures 1 <= |r.requests| <= 2 && r.requests[0] == StatusesRequest(config)
    ensures var statusesOk := Classify(statusesReply, config + StatusesPath).Ok?;
      (|r.requests| == 2 <==> statusesOk)
      && (r.enabled <==> statusesOk)
      && (r.statuses.Some? <==> statusesOk)
      && (!statusesOk ==> r.message == StatusesErrorMessage && r.shown == [])
    ensures |r.requests| == 2 ==> r.requests[1] == TasksRequest(config)
    ensures r.statuses.Some? ==> r.statuses.value == Classify(statusesReply, config + StatusesPath).value.allstatuses
    ensures Classify(statusesReply, config + StatusesPath).Ok? ==>
      r.shown == LoadTasks(config, tasksReply).shown && r.message == LoadTasks(config, tasksReply).message
    ensures r.statuses.Some? && Classify(tasksReply, config + TaskListPath).Err? ==>
      r.enabled && r.message == TasksErrorMessage && r.shown == []
  {
    match Classify(statusesReply, config + StatusesPath)
    case Err(_) =>
      Startup([StatusesRequest(config)], None, [], StatusesErrorMessage, false)
    case Ok(data) =>
      var load := LoadTasks(config, tasksReply);
      Startup([StatusesRequest(config), TasksRequest(config)], Some(data.allstatuses), load.shown, load.message, true)
  }

  /** Start-up with the vocabulary ["todo", "done"] and one task gives one row for that
      task, whose selector offers the placeholder and both statuses, and enables the
      new-task button. */
  lemma StartupWithOneTask(config: string, anyTask: Task)
    ensures var todo := Task(1, "A", "todo");
      var st := RunStartup(config,
        Response(200, Some(Reply(true, anyTask, None, ["todo", "done"]))),
        Response(200, Some(Reply(true, anyTask, Some([todo]), []))));
      st.enabled && st.statuses == Some(["todo", "done"]) && st.shown == [todo]
      && st.message == "Found 1 tasks."
      && L.NewestFirst(st.shown, st.statuses.value) == [L.Row(1, "A", "todo", ["0", "todo", "done"])]
  {
    assert L.SelectorOptions(["todo", "done"]) == ["0", "todo", "done"];
  }

  /** The part of the view the service replies change: the message and the list. */
  datatype Screen = Screen(message: string, list: L.ListState)

  /** A reply the handlers act on: it arrived, parsed, and has a truthy responseStatus. */
  predicate Accepted(reply: Result<Reply, FetchError>) {
    reply.Ok? && reply.value.responseStatus
  }

  function AfterCreate(screen: Screen, reply: Result<Reply, FetchError>, statuses: seq<string>): Screen {
    if Accepted(reply) then Screen(AddedMessage, L.Step(screen.list, L.ShowOp(reply.value.task, statuses)))
    else screen
  }

  function AfterChange(screen: Screen, reply: Result<Reply, FetchError>, id: int, newStatus: string): Screen {
    if Accepted(reply) then Screen(ChangedMessage, L.Step(screen.list, L.UpdateOp(id, newStatus)))
    else screen
  }

  function AfterDelete(screen: Screen, reply: Result<Reply, FetchError>, id: int): Screen {
    if Accepted(reply) then Screen(RemovedMessage, L.Step(screen.list, L.RemoveOp(id)))
    else screen
  }

  /** An accepted create puts the returned task on top and counts it; the newest row
      with that id is the new one. */
  lemma CreateShowsTaskOnTop(screen: Screen, reply: Result<Reply, FetchError>, statuses: seq<string>)
    requires Accepted(reply)
    ensures var after := AfterCreate(screen, reply, statuses);
      after.message == AddedMessage
      && after.list.count == screen.list.count + 1
      && after.list.rows[0] == L.NewRow(reply.value.task, statuses)
      && after.list.rows[1..] == screen.list.rows
      && L.FindRow(after.list.rows, reply.value.task.id) == Some(0)
  {
  }

  /** After an accepted status change the row found by the id shows the new status, the
      same row is found as before, and the counter is unchanged; a rejected or failed
      change leaves the screen as it was. */
  lemma ChangeShowsNewStatus(screen: Screen, reply: Result<Reply, FetchError>, id: int, newStatus: string)
    ensures !Accepted(reply) ==> AfterChange(screen, reply, id, newStatus) == screen
    ensures var after := AfterChange(screen, reply, id, newStatus);
      Accepted(reply) && L.FindRow(screen.list.rows, id).Some? ==>
        var i := L.FindRow(screen.list.rows, id).value;
        L.FindRow(after.list.rows, id) == Some(i)
        && after.list.rows[i].statusLabel == newStatus
        && after.list.count == screen.list.count
        && after.message == ChangedMessage
  {
    if Accepted(reply) && L.FindRow(screen.list.rows, id).Some? {
      var after := AfterChange(screen, reply, id, newStatus);
      L.FindRowSameIds(screen.list.rows, after.list.rows, id);
    }
  }

  /** An accepted delete of the only row, with the counter at one, leaves no rows and a
      zero counter. The table flag is not part of ListState: TaskList.Valid ties it to the
      counter, and DeleteTask keeps Valid, so the table is then hidden. */
  lemma DeleteLastRowHidesTable(screen: Screen, reply: Result<Reply, FetchError>, id: int)
    requires Accepted(reply)
    requires |screen.list.rows| == 1 && screen.list.rows[0].id == id && screen.list.count == 1
    ensures var after := AfterDelete(screen, reply, id);
      after.list.rows == [] && after.list.count == 0 && after.message == RemovedMessage
  {
  }

  /** The task-view element. */
  class TaskView {
    const config: string
    const list: L.TaskList
    const box: B.TaskBox
    var message: string
    var buttonEnabled: bool
    /** Every request sent to the service, oldest first. */
    var requests: seq<Request>

    /** Both leaves are consistent, the view's handlers are the registered callbacks, and
      both leaves hold the same status vocabulary. */
    ghost predicate Valid()
      reads this, list, box
    {
      config != "" && list.Valid() && box.Valid()
      && list.changeCallback == Some(ChangeHandler) && list.deleteCallback == Some(DeleteHandler)
      && (box.callback.None? || box.callback == Some(CreateHandler))
      && box.statusList == list.allStatuses
    }

    function Shown(): Screen
      reads this, list
    {
      Screen(message, list.State())
    }

    /** Construction with a valid base URL (see ReadConfig) registers the list's
      handlers and runs start-up to completion with the two given replies. */
    constructor (config: string, statusesReply: ServerResponse, tasksReply: ServerResponse)
      requires config != ""
      ensures Valid() && fresh(list) && fresh(box) && this.config == config
      ensures var st := RunStartup(config, statusesReply, tasksReply);
        requests == st.requests && message == st.message && buttonEnabled == st.enabled
        && list.allStatuses == (if st.statuses.Some? then st.statuses.value else [])
        && list.State() == L.ListState(L.NewestFirst(st.shown, list.allStatuses), |st.shown|)
        && box.State() == B.Initial.(statusList := list.allStatuses)
    {
      this.config := config;
      list := new L.TaskList();
      box := new B.TaskBox();
      message := WaitingMessage;
      buttonEnabled := false;
      requests := [];
      new;
      list.ChangeStatusCallback(ChangeHandler);
      list.DeleteTaskCallback(DeleteHandler);
      FetchStatuses(statusesReply, tasksReply);
    }

    /** Sends one request and classifies the response. */
    method Fetch(path: string, verb: HttpMethod, payload: Option<Payload>, response: ServerResponse)
      returns (result: Result<Reply, FetchError>)
      modifies this`requests
      ensures requests == old(requests) + [BuildRequest(config, path, verb, payload)]
      ensures result == Classify(response, config + path)
    {
      var request := BuildRequest(config, path, verb, payload);
      requests := requests + [request];
      result := Classify(response, request.url);
    }

    /** Fetches the vocabulary; on success hands it to both leaves, fetches the tasks
      and then enables the new-task button. */
    method FetchStatuses(statusesReply: ServerResponse, tasksReply: ServerResponse)
      requires Valid()
      modifies this`requests, this`message, this`buttonEnabled, list, box`statusList
      ensures Valid()
      ensures var st := RunStartup(config, statusesReply, tasksReply);
        requests == old(requests) + st.requests && message == st.message
        && buttonEnabled == (st.enabled || old(buttonEnabled))
        && list.allStatuses == (if st.statuses.Some? then st.statuses.value else old(list.allStatuses))
        && list.State() == L.ListState(L.NewestFirst(st.shown, list.allStatuses) + old(list.rows), old(list.taskCount) + |st.shown|)
      ensures list.changeCallback == old(list.changeCallback) && list.deleteCallback == old(list.deleteCallback)
    {
      var result := Fetch(StatusesPath, GET, None, statusesReply);
      if result.Err? {
        message := StatusesErrorMessage;
        return;
      }
      var allStatuses := result.value.allstatuses;
      list.SetStatusesList(allStatuses);
      box.SetStatusesList(allStatuses);
      FetchTasks(tasksReply);
      buttonEnabled := true;
    }

    /** Fetches the tasks and shows each in server order, so the newest-first list
      reads them in reverse; a failure leaves the list alone and says so. */
    method FetchTasks(tasksReply: ServerResponse)
      requires Valid()
      modifies this`requests, this`message, list`rows, list`taskCount, list`tableVisible
      ensures Valid()
      ensures var load := LoadTasks(config, tasksReply);
        requests == old(requests) + [TasksRequest(config)] && message == load.message
        && list.rows == L.NewestFirst(load.shown, list.allStatuses) + old(list.rows)
        && list.taskCount == old(list.taskCount) + |load.shown|
    {
      var result := Fetch(TaskListPath, GET, None, tasksReply);
      ghost var load := LoadTasks(config, tasksReply);
      if result.Err? {
        message := TasksErrorMessage;
        assert load.shown == [];
        return;
      }
      var tasks := ListedTasks(result.value);
      assert load.shown == tasks;
      if |tasks| == 0 {
        message := NoTasksMessage;
      } else {
        ShowEach(tasks);
        message := "Found " + NatToString(|tasks|) + " tasks.";
      }
    }

    /** tasks.forEach(showTask): each task in server order, so each lands above the
      ones before it. */
    method ShowEach(tasks: seq<Task>)
      requires list.Valid()
      modifies list`rows, list`taskCount, list`tableVisible
      ensures list.Valid()
      ensures list.State() == L.Run(old(list.State()), L.ShowOps(tasks, list.allStatuses))
      ensures list.rows == L.NewestFirst(tasks, list.allStatuses) + old(list.rows)
      ensures list.taskCount == old(list.taskCount) + |tasks|
    {
      var i := 0;
      while i < |tasks|
        invariant 0 <= i <= |tasks|
        invariant list.Valid()
        invariant list.rows == L.NewestFirst(tasks[..i], list.allStatuses) + old(list.rows)
        invariant list.taskCount == old(list.taskCount) + i
      {
        L.NewestFirstExtend(tasks, i, list.allStatuses);
        list.ShowTask(tasks[i]);
        i := i + 1;
      }
      assert tasks[..i] == tasks;
      L.ShowEachTask(old(list.State()), tasks, list.allStatuses);
    }

    /** The new-task button: when enabled, registers the create handler with the
      dialog, replacing any earlier one, and opens it. */
    method ClickNewTask()
      requires Valid()
      modifies box
      ensures Valid()
      ensures buttonEnabled ==> box.State() == B.ShowBox(old(box.State()).(callback := Some(CreateHandler)))
      ensures !buttonEnabled ==> box.State() == old(box.State())
    {
      if buttonEnabled {
        box.NewTaskCallback(CreateHandler);
        box.Show();
      }
    }

    /** The create handler: POSTs the new task; an accepted reply shows the returned
      task and says one was added. */
    method CreateTask(title: string, status: string, reply: ServerResponse)
      requires Valid()
      modifies this`requests, this`message, list`rows, list`taskCount, list`tableVisible
      ensures Valid()
      ensures requests == old(requests) + [BuildRequest(config, TaskPath, POST, Some(NewTaskBody(title, status)))]
      ensures Shown() == AfterCreate(old(Shown()), Classify(reply, config + TaskPath), list.allStatuses)
    {
      var response := Fetch(TaskPath, POST, Some(NewTaskBody(title, status)), reply);
      if response.Ok? && response.value.responseStatus {
        list.ShowTask(response.value.task);
        message := AddedMessage;
      }
    }

    /** The change handler: PUTs the new status; an accepted reply relabels the row and
      says one was changed. */
    method ChangeStatus(id: int, newStatus: string, reply: ServerResponse)
      requires Valid()
      modifies this`requests, this`message, list`rows
      ensures Valid()
      ensures requests == old(requests) + [BuildRequest(config, TaskPathFor(id), PUT, Some(StatusBody(newStatus)))]
      ensures Shown() == AfterChange(old(Shown()), Classify(reply, config + TaskPathFor(id)), id, newStatus)
    {
      var response := Fetch(TaskPathFor(id), PUT, Some(StatusBody(newStatus)), reply);
      if response.Ok? && response.value.responseStatus {
        message := ChangedMessage;
        list.UpdateTask(id, newStatus);
      }
    }

    /** The delete handler: sends DELETE; an accepted reply removes the row and says one
      was removed. */
    method DeleteTask(id: int, reply: ServerResponse)
      requires Valid()
      modifies this`requests, this`message, list`rows, list`taskCount, list`tableVisible
      ensures Valid()
      ensures requests == old(requests) + [BuildRequest(config, TaskPathFor(id), DELETE, None)]
      ensures Shown() == AfterDelete(old(Shown()), Classify(reply, config + TaskPathFor(id)), id)
    {
      var response := Fetch(TaskPathFor(id), DELETE, None, reply);
      if response.Ok? && response.value.responseStatus {
        message := RemovedMessage;
        list.RemoveTask(id);
      }
    }

    /** "Add task" clicked in the dialog with option `choice` selected: a valid submit
      closes the dialog and runs the create handler with the given reply. */
    method SubmitNewTask(choice: nat, reply: ServerResponse) returns (fired: Option<B.NewTaskRequest>)
      requires Valid() && B.ValidChoice(box.options, choice)
      modifies this`requests, this`message, list`rows, list`taskCount, list`tableVisible, box`open, box`title
      ensures Valid()
      ensures (box.State(), fired) == B.SubmitBox(old(box.State()), choice)
      ensures fired.None? ==> requests == old(requests) && Shown() == old(Shown())
      ensures fired.Some? ==>
        fired.value.callback == CreateHandler
        && requests == old(requests) + [BuildRequest(config, TaskPath, POST, Some(NewTaskBody(fired.value.title, fired.value.status)))]
        && Shown() == AfterCreate(old(Shown()), Classify(reply, config + TaskPath), list.allStatuses)
    {
      fired := box.Submit(choice);
      if fired.Some? {
        CreateTask(fired.value.title, fired.value.status, reply);
      }
    }

    /** Option `choice` picked in row i's selector: a confirmed change runs the change
      handler with the given reply. */
    method SelectRowStatus(i: nat, choice: nat, confirmed: bool, reply: ServerResponse)
      returns (outcome: L.ChangeOutcome)
      requires Valid() && i < |list.rows| && choice < |list.rows[i].options|
      modifies this`requests, this`message, list`rows
      ensures Valid()
      ensures outcome == L.StatusSelected(old(list.rows[i]), choice, Some(ChangeHandler), confirmed)
      ensures outcome.fired.None? ==> requests == old(requests) && Shown() == old(Shown())
      ensures outcome.fired.Some? ==>
        var request := outcome.fired.value;
        requests == old(requests) + [BuildRequest(config, TaskPathFor(request.id), PUT, Some(StatusBody(request.status)))]
        && Shown() == AfterChange(old(Shown()), Classify(reply, config + TaskPathFor(request.id)), request.id, request.status)
    {
      outcome := list.SelectStatus(i, choice, confirmed);
      if outcome.fired.Some? {
        ChangeStatus(outcome.fired.value.id, outcome.fired.value.status, reply);
      }
    }

    /** Row i's Remove button clicked: a confirmed delete runs the delete handler with
      the given reply. */
    method ClickRowRemove(i: nat, confirmed: bool, reply: ServerResponse)
      returns (outcome: L.DeleteOutcome)
      requires Valid() && i < |list.rows|
      modifies this`requests, this`message, list`rows, list`taskCount, list`tableVisible
      ensures Valid()
      ensures outcome == L.RemoveClicked(old(list.rows[i]), Some(DeleteHandler), confirmed)
      ensures outcome.fired.None? ==> requests == old(requests) && Shown() == old(Shown())
      ensures outcome.fired.Some? ==>
        var id := outcome.fired.value.id;
        requests == old(requests) + [BuildRequest(config, TaskPathFor(id), DELETE, None)]
        && Shown() == AfterDelete(old(Shown()), Classify(reply, config + TaskPathFor(id)), id)
    {
      outcome := list.ClickRemove(i, confirmed);
      if outcome.fired.Some? {
        DeleteTask(outcome.fired.value.id, reply);
      }
    }
  }
}
