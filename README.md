# Task organizer components — a Dafny model

This project models the client side of the task organizer: three browser components
that manage a list of tasks kept on a remote service.

- **TaskList** (`task-list`) shows the tasks as table rows, newest first. It keeps a task
  counter beside the rows, and that counter decides whether the table is shown. It also
  holds the status vocabulary offered by each new row's selector and two callbacks. One
  fires on a status change that the user confirms, the other on a delete that the user
  confirms.
- **TaskBox** (`task-box`) is the new-task dialog. Its submit rule trims the title. When
  the title is not blank and a callback is registered, it calls the callback once with
  the trimmed title and the selected status, then clears the title and closes.
- **TaskView** (`task-view`) is the coordinator. It reads the service's base URL from
  `data-serviceurl`. At start-up it fetches the status vocabulary, then the tasks, then
  enables the new-task button. It turns the dialog's and the rows' requests into service
  calls, and turns accepted replies into list updates and messages.

The model leaves the DOM out. Each component is a class whose fields hold what the
source keeps in private fields and DOM elements:

- rows as `seq<Row>`;
- the counter;
- the table-visible flag;
- the dialog's open flag, title text and selector options;
- the number of live submit listeners;
- the view's message text and button flag.

The methods that change rows, the counter or the dialog are proved against a pure state
value and step function: TaskList's `ShowTask`, `UpdateTask` and `RemoveTask` against
`ListState`/`Step`, every TaskBox method against `BoxState`/`BoxStep`/`SubmitBox`, and the
view's handlers against `Screen`/`AfterCreate`/`AfterChange`/`AfterDelete`. TaskList's
setters and `GetNumTasks` are specified directly by the field they write or read. The
lemmas about the source's promises are stated over those functions and over traces of
calls (`Run`, `BoxRun`).

The service is not modelled. Every request the view sends is appended to
`TaskView.requests`. Each reply is an input: no response at all, or a status code and a
body that does or does not parse as JSON. The user's choices are inputs too: the
selected option, the answer to a confirmation prompt and the typed title.

Files: `shared.dfy` holds Option, Result, Task and callback identities. `text.dfy` holds
`trim` and the decimal rendering of integers. `tasklist.dfy`, `taskbox.dfy` and
`taskview.dfy` hold one module per component.

These behaviours of the source are kept as written, even where they look unintended:

- `removeTask` takes one from the counter even when no row has the id. The lemmas
  `CountDrift` and `CounterMatchesRows` state exactly when the counter and the rows agree.
- `show` does not clear the title. Only `close` does, and a submit clears it through
  `close`.
- After a valid submit the dialog is closed before the create request's reply arrives.
  A failed create leaves the dialog closed and the list unchanged.
- A create, change or delete reply that fails (no response, non-2xx, or a body that is
  not JSON) changes neither the list nor the message. The source raises an exception
  there that nothing catches. No error message is shown.

## Model

| member | source | states |
|---|---|---|
| Text.TrimStart | src/main/resources/static/components/taskbox/taskbox.js:69 | the result is a suffix of the input, everything dropped is whitespace, and it does not start with whitespace |
| Text.TrimEnd | src/main/resources/static/components/taskbox/taskbox.js:69 | the result is a prefix of the input, everything dropped is whitespace, and it does not end with whitespace |
| Text.Trim | src/main/resources/static/components/taskbox/taskbox.js:69 | `trim()` yields a string no longer than its input that neither starts nor ends with ECMAScript whitespace |
| Text.TrimCutsSurroundingWhitespace | src/main/resources/static/components/taskbox/taskbox.js:69 | the trimmed title is exactly the input between its leading and trailing whitespace runs, and everything cut off is whitespace |
| Text.TrimEmptyIffBlank | src/main/resources/static/components/taskbox/taskbox.js:69-72 | the trimmed title is empty exactly when the title is whitespace only |
| Text.TrimOfTrimmed | src/main/resources/static/components/taskbox/taskbox.js:69 | a string with no surrounding whitespace is left unchanged by trim |
| Text.TrimIdempotent | src/main/resources/static/components/taskbox/taskbox.js:69 | trimming twice equals trimming once |
| Text.NatToString | src/main/resources/static/components/taskview/taskview.js:118 | `${tasks.length}` renders digits only, is never empty, and starts with '0' only for zero |
| Text.NatToStringRoundTrip | src/main/resources/static/components/taskview/taskview.js:118 | reading the rendered digits back gives the number |
| Text.IntToString | src/main/resources/static/components/taskview/taskview.js:71 | `${id}` starts with '-' exactly for negative ids; the digits after the sign are canonical (no leading zero except for 0 itself) and read back as the id's absolute value |
| Text.IntToStringInjective | src/main/resources/static/components/taskview/taskview.js:80 | different ids render to different strings |
| TaskListComponent.BuildOptions | src/main/resources/static/components/tasklist/tasklist.js:130-138 | a new row's selector holds the placeholder "0" followed by every status of the current vocabulary, in order |
| TaskListComponent.FindRow | src/main/resources/static/components/tasklist/tasklist.js:201-203 | the lookup finds the first row in table order with the id (the most recently shown), or reports that no row has it |
| TaskListComponent.FindRowSameIds | src/main/resources/static/components/tasklist/tasklist.js:201-203 | relabelling rows does not change which row a lookup finds |
| TaskListComponent.UpdateRows | src/main/resources/static/components/tasklist/tasklist.js:168-173 | only the found row's status label changes, to the new status; ids, names, options and order stay; nothing changes when the id is absent |
| TaskListComponent.RemoveRows | src/main/resources/static/components/tasklist/tasklist.js:179-186 | the found row, and only it, goes; the others keep their order; nothing changes when the id is absent |
| TaskListComponent.CountDrift | src/main/resources/static/components/tasklist/tasklist.js:179-186 | over any sequence of show/update/remove calls, the counter falls behind the row count by exactly the number of removals of absent ids |
| TaskListComponent.CounterMatchesRows | src/main/resources/static/components/tasklist/tasklist.js:192-194 | from a fresh list, the counter equals the number of rows if and only if every removeTask named a displayed id |
| TaskListComponent.NewestFirst | src/main/resources/static/components/tasklist/tasklist.js:160 | rows shown one after another read in reverse order: position k holds the row of task n-1-k |
| TaskListComponent.NewestFirstSplit | src/main/resources/static/components/tasklist/tasklist.js:160 | the first task of a batch ends up below all the later ones |
| TaskListComponent.NewestFirstExtend | src/main/resources/static/components/tasklist/tasklist.js:160 | showing one more task puts its row above those of the tasks before it |
| TaskListComponent.ShowOps | src/main/resources/static/components/taskview/taskview.js:117 | one showTask call per task, in server order |
| TaskListComponent.ShowEachTask | src/main/resources/static/components/taskview/taskview.js:117 | showing a batch of tasks in turn puts them newest first on top of the old rows and adds the batch size to the counter |
| TaskListComponent.StatusSelected | src/main/resources/static/components/tasklist/tasklist.js:139-147 | a prompt appears iff a real status was picked and a change callback is registered; the callback gets (row id, new status) iff moreover the user confirms; the selector always returns to the placeholder |
| TaskListComponent.RemoveClicked | src/main/resources/static/components/tasklist/tasklist.js:150-157 | a prompt appears iff a delete callback is registered; the callback gets the row id iff the user also confirms; otherwise nothing happens |
| TaskListComponent.TaskList.constructor | src/main/resources/static/components/tasklist/tasklist.js:59-75 | a new list has no rows, counter 0, hidden table, empty vocabulary and no callbacks |
| TaskListComponent.TaskList.ToggleTable | src/main/resources/static/components/tasklist/tasklist.js:77-86 | the table is shown exactly when the counter is not zero, a negative counter included |
| TaskListComponent.TaskList.SetStatusesList | src/main/resources/static/components/tasklist/tasklist.js:92-94 | the vocabulary for future rows is replaced |
| TaskListComponent.TaskList.ChangeStatusCallback | src/main/resources/static/components/tasklist/tasklist.js:101-103 | the change callback is replaced |
| TaskListComponent.TaskList.DeleteTaskCallback | src/main/resources/static/components/tasklist/tasklist.js:110-112 | the delete callback is replaced |
| TaskListComponent.TaskList.ShowTask | src/main/resources/static/components/tasklist/tasklist.js:119-162 | the counter grows by exactly one, the task's row (id, title, status, options) goes above all existing rows, and the table-visibility invariant holds |
| TaskListComponent.TaskList.UpdateTask | src/main/resources/static/components/tasklist/tasklist.js:168-173 | the rows become UpdateRows of the old rows; the counter is unchanged |
| TaskListComponent.TaskList.RemoveTask | src/main/resources/static/components/tasklist/tasklist.js:179-186 | the counter drops by one whether or not a row matches, the rows become RemoveRows of the old rows, and the table-visibility invariant holds |
| TaskListComponent.TaskList.GetNumTasks | src/main/resources/static/components/tasklist/tasklist.js:192-194 | returns the counter, not the number of rows |
| TaskListComponent.TaskList.SelectStatus | src/main/resources/static/components/tasklist/tasklist.js:139-147 | the row's change handler behaves as StatusSelected with the callback registered at that moment, and any request carries the row's id |
| TaskListComponent.TaskList.ClickRemove | src/main/resources/static/components/tasklist/tasklist.js:150-157 | the row's Remove handler behaves as RemoveClicked with the callback registered at that moment, and any request carries the row's id |
| TaskBoxComponent.SelectedValue | src/main/resources/static/components/taskbox/taskbox.js:73 | select.value is the value of the option the user chose, and "" when the selector has no options |
| TaskBoxComponent.SubmitDecision | src/main/resources/static/components/taskbox/taskbox.js:68-77 | the callback fires iff one is registered and the trimmed title is non-empty, and then with exactly (trimmed title, selected status) and that callback |
| TaskBoxComponent.BlankTitleRejected | src/main/resources/static/components/taskbox/taskbox.js:71-72 | a whitespace-only title never reaches the callback |
| TaskBoxComponent.SubmittedTitleIsTrimmed | src/main/resources/static/components/taskbox/taskbox.js:69-73 | a submitted title is not blank, has no surrounding whitespace, and is unchanged by trimming again |
| TaskBoxComponent.OneListenerAfterShow | src/main/resources/static/components/taskbox/taskbox.js:63-82 | over any sequence of show, close, setStatusesList, newTaskCallback, typing and submit clicks, the button never holds more than the remembered listener, and after any show it holds exactly one |
| TaskBoxComponent.LastRegistrationWins | src/main/resources/static/components/taskbox/taskbox.js:101-103 | after newTaskCallback(cb), whatever follows short of another registration (submit clicks included), cb is the callback a submit uses |
| TaskBoxComponent.KeepsCallback | src/main/resources/static/components/taskbox/taskbox.js:72-73 | calls and submit clicks other than newTaskCallback leave the callback that a submit reads at click time |
| TaskBoxComponent.OnlyTypingAndCloseTouchTitle | src/main/resources/static/components/taskbox/taskbox.js:50-85 | show, setStatusesList and newTaskCallback never change the title; only typing, close and a submit (which closes) do |
| TaskBoxComponent.CloseIdempotent | src/main/resources/static/components/taskbox/taskbox.js:109-113 | close leaves the dialog closed with an empty title, and closing twice equals closing once |
| TaskBoxComponent.TaskBox.constructor | src/main/resources/static/components/taskbox/taskbox.js:35-44 | a new dialog is closed, with empty title, no options, empty vocabulary, no callback and no listener |
| TaskBoxComponent.TaskBox.Show | src/main/resources/static/components/taskbox/taskbox.js:50-85 | opens the dialog, makes the options exactly the vocabulary in order, leaves exactly one submit listener, and keeps the title, vocabulary and callback |
| TaskBoxComponent.TaskBox.SetStatusesList | src/main/resources/static/components/taskbox/taskbox.js:92-94 | the state is BoxStep of the old one for SetStatusesCall: the vocabulary is replaced and nothing else changes |
| TaskBoxComponent.TaskBox.NewTaskCallback | src/main/resources/static/components/taskbox/taskbox.js:101-103 | the state is BoxStep of the old one for RegisterCall, so the callback is replaced and the trace lemmas LastRegistrationWins and KeepsCallback apply to the class |
| TaskBoxComponent.TaskBox.Close | src/main/resources/static/components/taskbox/taskbox.js:109-113 | the title becomes empty and the dialog closed; nothing else changes |
| TaskBoxComponent.TaskBox.EnterTitle | src/main/resources/static/components/taskbox/taskbox.js:15 | typed text is kept up to the input's maxlength of 80 characters |
| TaskBoxComponent.TaskBox.Submit | src/main/resources/static/components/taskbox/taskbox.js:68-77 | the state is BoxStep of the old one for SubmitCall; with a live listener, a registered callback and a non-blank trimmed title, fires once with (trimmed title, chosen status), then the title is empty and the dialog closed; otherwise nothing fires and the open flag and title stay |
| TaskViewComponent.ReadConfig | src/main/resources/static/components/taskview/taskview.js:34-38 | construction fails with "data-serviceurl is a required prop" exactly when the attribute is missing or empty |
| TaskViewComponent.BuildRequest | src/main/resources/static/components/taskview/taskview.js:126-132 | the URL is the configured base followed by the path, the content type is JSON, and a body is attached exactly when there is a payload |
| TaskViewComponent.TaskUrlsDistinct | src/main/resources/static/components/taskview/taskview.js:71 | requests about different task ids go to different URLs |
| TaskViewComponent.Classify | src/main/resources/static/components/taskview/taskview.js:134-144 | a response is a value exactly when its status is 2xx and its body parses; no response propagates as a network error, a non-2xx status becomes an HTTP error naming status and URL, and an unparsable body a syntax error |
| TaskViewComponent.LoadTasks | src/main/resources/static/components/taskview/taskview.js:108-124 | a failed task fetch shows nothing with "Error fetching tasks."; an accepted one shows the listed tasks (a non-array as none), with "No tasks found." when there are none and "Found n tasks." otherwise |
| TaskViewComponent.RunStartup | src/main/resources/static/components/taskview/taskview.js:90-106 | the statuses request goes first; the task request, the vocabulary hand-over and the button enabling happen iff it succeeded, and then the shown tasks and the message are those of LoadTasks; a failure there gives "Error fetching statuses." and nothing shown; a failed task fetch after it still enables the button, with "Error fetching tasks." |
| TaskViewComponent.StartupWithOneTask | src/main/resources/static/components/taskview/taskview.js:90-124 | start-up with vocabulary ["todo","done"] and task {1,"A","todo"} shows that one row and enables the button |
| TaskViewComponent.CreateShowsTaskOnTop | src/main/resources/static/components/taskview/taskview.js:61-64 | an accepted create shows the returned task as the top row, counts it, and says "Added 1 task" |
| TaskViewComponent.ChangeShowsNewStatus | src/main/resources/static/components/taskview/taskview.js:70-77 | an accepted change makes the row found by the id show the requested status, with "Changed 1 task"; a failed or unaccepted change leaves list and message as they were |
| TaskViewComponent.DeleteLastRowHidesTable | src/main/resources/static/components/taskview/taskview.js:83-86 | an accepted delete of the only row with the counter at one leaves no rows, counter 0 and "Removed 1 task"; TaskList.Valid, kept by DeleteTask, then makes the table hidden |
| TaskViewComponent.TaskView.constructor | src/main/resources/static/components/taskview/taskview.js:31-51 | with a valid base URL, registers the list's handlers and leaves requests, message, button, vocabulary and rows exactly as RunStartup says |
| TaskViewComponent.TaskView.Fetch | src/main/resources/static/components/taskview/taskview.js:126-145 | sends the request BuildRequest describes and returns Classify of the response |
| TaskViewComponent.TaskView.FetchStatuses | src/main/resources/static/components/taskview/taskview.js:90-106 | sends RunStartup's requests, hands the vocabulary to both list and dialog only on success, and sets message, button and rows as RunStartup says |
| TaskViewComponent.TaskView.FetchTasks | src/main/resources/static/components/taskview/taskview.js:108-124 | sends the task-list request, sets LoadTasks' message and puts its tasks newest first on top of the rows, adding their number to the counter |
| TaskViewComponent.TaskView.ShowEach | src/main/resources/static/components/taskview/taskview.js:117 | showing the tasks in server order equals the trace of one showTask per task, and leaves them in reverse order on top |
| TaskViewComponent.TaskView.ClickNewTask | src/main/resources/static/components/taskview/taskview.js:55-68 | when the button is enabled, registers the create handler with the dialog (replacing any earlier one) and shows it; when disabled, nothing changes |
| TaskViewComponent.TaskView.CreateTask | src/main/resources/static/components/taskview/taskview.js:56-65 | POSTs {title, status} to base+"/task"; an accepted reply shows response.task with "Added 1 task", anything else changes neither list nor message |
| TaskViewComponent.TaskView.ChangeStatus | src/main/resources/static/components/taskview/taskview.js:70-77 | PUTs {status} to base+"/task/id"; an accepted reply sets that row's status with "Changed 1 task", anything else changes neither list nor message |
| TaskViewComponent.TaskView.DeleteTask | src/main/resources/static/components/taskview/taskview.js:79-87 | sends DELETE without a body to base+"/task/id"; an accepted reply runs removeTask(id) with "Removed 1 task", anything else changes neither list nor message |
| TaskViewComponent.TaskView.SubmitNewTask | src/main/resources/static/components/taskview/taskview.js:56-66 | a dialog submit that fires closes the dialog and runs the create handler with the submitted title and status; one that does not fire sends nothing and changes nothing on screen |
| TaskViewComponent.TaskView.SelectRowStatus | src/main/resources/static/components/taskview/taskview.js:70-77 | a confirmed pick in a row's selector sends the PUT for that row's id and applies the reply as ChangeStatus; otherwise nothing is sent and nothing on screen changes |
| TaskViewComponent.TaskView.ClickRowRemove | src/main/resources/static/components/taskview/taskview.js:79-87 | a confirmed Remove sends the DELETE for that row's id and applies the reply as DeleteTask; otherwise nothing is sent and nothing on screen changes |

## Left out

- The DOM is not modelled: templates, `cloneNode`, shadow roots, style sheets and
  `customElements.define`. Rows, options and flags stand in for the elements.
- The close (×) span's click listener is added again on every `show` and is not modelled.
  Each copy only calls `close`, which is idempotent (`CloseIdempotent`), so the extra
  copies have no effect on the state.
- The network, HTTP and JSON parsing are not modelled. A reply is an abstract value.
  `Reply.responseStatus` stands for the truthiness of that field. Replies whose `task`
  or `allstatuses` field is missing or not of the expected shape are not modelled. In
  the source such replies make `showTask` throw part-way.
- Request bodies are kept as the payload objects. `JSON.stringify` is not modelled.
- The text of the thrown errors and `console.log`/`console.error` are not modelled. That
  output only goes to the console.
- Concurrency between requests in flight is not modelled. Each handler runs as one
  atomic step with its reply given. Start-up runs to completion inside the constructor.
  In the source nothing the user can reach interleaves with it: the button stays
  disabled until the end, and rows appear within the same task. Races between two
  replies for the same id (last reply wins) are therefore not represented.
- `confirm()` is not modelled. Its answer is a boolean input, and the model returns the
  prompt text it would show.
- The browser's choice of `select.value` is not modelled. The selected option is an
  index input. `ValidChoice` requires it to name an option, or to be anything when the
  selector is empty.
- TaskListComponent.StatusSelected compares the picked value with the placeholder
  constant "0" rather than re-reading the first option. Every row is built with "0"
  there (`BuildOptions`), so the two are the same.
- Text.Trim: whitespace is the ECMAScript WhiteSpace and LineTerminator set as code
  points. The `maxlength` limit in `EnterTitle` counts code points; browsers count
  UTF-16 code units.
- Text.IntToString covers integer ids only. The exponent notation JavaScript uses for
  numbers of 10^21 and more is not modelled.
