/** The new-task dialog: whether it is open, the text of its title input, the options of
    its status selector, the status vocabulary, the completion callback and the click
    listeners on its "Add task" button. */
module TaskBoxComponent {
  import opened Shared
  import opened Text

  /** The title input's maxlength attribute. */
  const MaxTitleLength := 80

  /** The call the dialog makes to its completion callback on a valid submit. */
  datatype NewTaskRequest = NewTaskRequest(callback: CallbackId, title: string, status: string)

  /** A selection the selector can be in: an option's index, or nothing when it is empty. */
  predicate ValidChoice(options: seq<string>, choice: nat) {
    choice < |options| || options == []
  }

  /** select.value: the chosen option's value, or "" when the selector has no options. */
  function SelectedValue(options: seq<string>, choice: nat): (v: string)
    requires ValidChoice(options, choice)
    ensures options != [] ==> v == options[choice] && v in options
    ensures options == [] ==> v == ""
  {
    if options == [] then "" else options[choice]
  }

  /** The submit rule: with a callback registered and a title that is not blank once
      trimmed, the callback gets the trimmed title and the selected status; otherwise
      nothing is called. */
  function SubmitDecision(title: string, options: seq<string>, choice: nat, callback: Option<CallbackId>): (r: Option<NewTaskRequest>)
    requires ValidChoice(options, choice)
    ensures r.Some? <==> callback.Some? && Trim(title) != []
    ensures r.Some? ==> r.value.callback == callback.value && r.value.title == Trim(title)
    ensures r.Some? ==> r.value.status == SelectedValue(options, choice)
  {
    var trimmed := Trim(title);
    if callback.Some? && |trimmed| > 0 then
      Some(NewTaskRequest(callback.value, trimmed, SelectedValue(options, choice)))
    else
      None
  }

  /** A title made of whitespace only never reaches the callback. */
  lemma BlankTitleRejected(title: string, options: seq<string>, choice: nat, callback: Option<CallbackId>)
    requires ValidChoice(options, choice) && AllWhitespace(title)
    ensures SubmitDecision(title, options, choice, callback).None?
  {
    TrimEmptyIffBlank(title);
  }

  /** A title that reaches the callback is not blank, has no surrounding whitespace,
      and trimming it again changes nothing. */
  lemma SubmittedTitleIsTrimmed(title: string, options: seq<string>, choice: nat, callback: Option<CallbackId>)
    requires ValidChoice(options, choice)
    requires SubmitDecision(title, options, choice, callback).Some?
    ensures var t := SubmitDecision(title, options, choice, callback).value.title;
      !AllWhitespace(t) && Trim(t) == t && !IsJsWhitespace(t[0]) && !IsJsWhitespace(t[|t| - 1])
  {
    var t := Trim(title);
    TrimEmptyIffBlank(t);
    TrimIdempotent(title);
  }

  /** The dialog's state: the flag of the dialog element, the input's text, the
      selector's options, the vocabulary, the callback, whether a submit listener was
      remembered as the previous one, and the number of live submit listeners. */
  datatype BoxState = BoxState(
    open: bool,
    title: string,
    options: seq<string>,
    statusList: seq<string>,
    callback: Option<CallbackId>,
    listenerInstalled: bool,
    submitListeners: nat)

  /** The freshly constructed dialog. */
  const Initial := BoxState(false, "", [], [], None, false, 0)

  /** The button has exactly the listener remembered as the previous one, or none. */
  predicate SingleListener(s: BoxState) {
    s.submitListeners == if s.listenerInstalled then 1 else 0
  }

  /** show: opens the dialog, rebuilds the selector from the vocabulary, removes the
      previous submit listener (when there is one on the button) and adds a new one. */
  function ShowBox(s: BoxState): BoxState {
    var kept := if s.listenerInstalled && s.submitListeners > 0 then s.submitListeners - 1 else s.submitListeners;
    s.(open := true, options := s.statusList, listenerInstalled := true, submitListeners := kept + 1)
  }

  /** close: empties the title input and closes the dialog. */
  function CloseBox(s: BoxState): BoxState {
    s.(open := false, title := "")
  }

  /** Typing into the title input, which keeps at most maxlength characters. */
  function TypeTitle(s: BoxState, text: string): BoxState {
    s.(title := if |text| <= MaxTitleLength then text else text[..MaxTitleLength])
  }

  /** A click on "Add task": each live listener applies the submit rule in turn; the
      first to fire closes the dialog, which leaves the rest a blank title. */
  function SubmitBox(s: BoxState, choice: nat): (BoxState, Option<NewTaskRequest>)
    requires ValidChoice(s.options, choice)
  {
    if s.submitListeners == 0 then (s, None)
    else match SubmitDecision(s.title, s.options, choice, s.callback)
      case None => (s, None)
      case Some(request) => (CloseBox(s), Some(request))
  }

  /** Calls on the dialog and clicks on its "Add task" button. */
  datatype BoxOp =
    | ShowCall
    | CloseCall
    | SetStatusesCall(list: seq<string>)
    | RegisterCall(callback: CallbackId)
    | TypeCall(text: string)
    | SubmitCall(choice: nat)

  function BoxStep(s: BoxState, op: BoxOp): BoxState {
    match op
    case ShowCall => ShowBox(s)
    case CloseCall => CloseBox(s)
    case SetStatusesCall(list) => s.(statusList := list)
    case RegisterCall(callback) => s.(callback := Some(callback))
    case TypeCall(text) => TypeTitle(s, text)
    // A selection that names no option cannot be made on the page; such a click is ignored.
    case SubmitCall(choice) => if ValidChoice(s.options, choice) then SubmitBox(s, choice).0 else s
  }

  function BoxRun(s: BoxState, ops: seq<BoxOp>): BoxState
    decreases |ops|
  {
    if ops == [] then s else BoxRun(BoxStep(s, ops[0]), ops[1..])
  }

  /** Repeated show calls never pile up submit listeners: from a dialog with at most the
      remembered listener, any calls keep it so, and once show has run there is
      exactly one. */
  lemma {:induction false} OneListenerAfterShow(s: BoxState, ops: seq<BoxOp>)
    requires SingleListener(s)
    ensures SingleListener(BoxRun(s, ops))
    ensures (s.listenerInstalled || ShowCall in ops) ==> BoxRun(s, ops).submitListeners == 1
    decreases |ops|
  {
    if ops != [] {
      var s1 := BoxStep(s, ops[0]);
      assert ShowCall in ops ==> ops[0] == ShowCall || ShowCall in ops[1..];
      assert ops[0] == ShowCall ==> s1.listenerInstalled;
      OneListenerAfterShow(s1, ops[1..]);
    }
  }

  /** The callback a submit uses is the last one registered, whatever else happens after. */
  lemma {:induction false} LastRegistrationWins(s: BoxState, callback: CallbackId, ops: seq<BoxOp>)
    requires forall k :: 0 <= k < |ops| ==> !ops[k].RegisterCall?
    ensures BoxRun(s, [RegisterCall(callback)] + ops).callback == Some(callback)
  {
    var s1 := BoxStep(s, RegisterCall(callback));
    assert ([RegisterCall(callback)] + ops)[1..] == ops;
    KeepsCallback(s1, ops);
  }

  lemma {:induction false} KeepsCallback(s: BoxState, ops: seq<BoxOp>)
    requires forall k :: 0 <= k < |ops| ==> !ops[k].RegisterCall?
    ensures BoxRun(s, ops).callback == s.callback
    decreases |ops|
  {
    if ops != [] {
      KeepsCallback(BoxStep(s, ops[0]), ops[1..]);
    }
  }

  /** The title is changed only by typing and by closing, directly or through a submit
      that fires; show leaves it as it is. */
  lemma {:induction false} OnlyTypingAndCloseTouchTitle(s: BoxState, ops: seq<BoxOp>)
    requires forall k :: 0 <= k < |ops| ==> !ops[k].TypeCall? && !ops[k].CloseCall? && !ops[k].SubmitCall?
    ensures BoxRun(s, ops).title == s.title
    decreases |ops|
  {
    if ops != [] {
      OnlyTypingAndCloseTouchTitle(BoxStep(s, ops[0]), ops[1..]);
    }
  }

  /** Closing twice is closing once. */
  lemma CloseIdempotent(s: BoxState)
    ensures CloseBox(CloseBox(s)) == CloseBox(s)
    ensures !CloseBox(s).open && CloseBox(s).title == ""
  {
  }

  /** The task-box element. */
  class TaskBox {
    var open: bool
    var title: string
    var options: seq<string>
    var statusList: seq<string>
    var callback: Option<CallbackId>
    var listenerInstalled: bool
    var submitListeners: nat

    ghost predicate Valid()
      reads this
    {
      SingleListener(State())
    }

    function State(): BoxState
      reads this
    {
      BoxState(open, title, options, statusList, callback, listenerInstalled, submitListeners)
    }

    constructor ()
      ensures Valid() && State() == Initial
    {
      open := false;
      title := "";
      options := [];
      statusList := [];
      callback := None;
      listenerInstalled := false;
      submitListeners := 0;
    }

    /** Opens the dialog, rebuilds the selector from the vocabulary, in order, and
      replaces the submit listener, leaving exactly one. The title is not touched. */
    method Show()
      requires Valid()
      modifies this
      ensures Valid() && State() == BoxStep(old(State()), ShowCall)
      ensures open && options == statusList && submitListeners == 1
      ensures title == old(title) && statusList == old(statusList) && callback == old(callback)
    {
      open := true;
      options := [];
      var i := 0;
      while i < |statusList|
        invariant 0 <= i <= |statusList|
        invariant options == statusList[..i]
        modifies this`options
      {
        options := options + [statusList[i]];
        i := i + 1;
      }
      assert statusList[..i] == statusList;
      if listenerInstalled && submitListeners > 0 {
        submitListeners := submitListeners - 1;
      }
      submitListeners := submitListeners + 1;
      listenerInstalled := true;
    }

    method SetStatusesList(list: seq<string>)
      modifies this`statusList
      ensures State() == BoxStep(old(State()), SetStatusesCall(list))
      ensures statusList == list
    {
      statusList := list;
    }

    /** Registers the completion callback, replacing any earlier one. */
    method NewTaskCallback(cb: CallbackId)
      modifies this`callback
      ensures State() == BoxStep(old(State()), RegisterCall(cb))
      ensures callback == Some(cb)
    {
      callback := Some(cb);
    }

    /** Empties the title input and closes the dialog. */
    method Close()
      modifies this`open, this`title
      ensures State() == BoxStep(old(State()), CloseCall)
      ensures !open && title == ""
    {
      title := "";
      open := false;
    }

    /** The user types into the title input. */
    method EnterTitle(text: string)
      modifies this`title
      ensures State() == BoxStep(old(State()), TypeCall(text))
      ensures |title| <= MaxTitleLength
    {
      title := if |text| <= MaxTitleLength then text else text[..MaxTitleLength];
    }

    /** A click on "Add task" with option `choice` selected. */
    method Submit(choice: nat) returns (fired: Option<NewTaskRequest>)
      requires ValidChoice(options, choice)
      modifies this`open, this`title
      ensures (State(), fired) == SubmitBox(old(State()), choice)
      ensures State() == BoxStep(old(State()), SubmitCall(choice))
      ensures fired.Some? <==> old(submitListeners) > 0 && old(callback).Some? && Trim(old(title)) != []
      ensures fired.Some? ==> fired.value == NewTaskRequest(old(callback).value, Trim(old(title)), SelectedValue(options, choice))
      ensures fired.Some? ==> !open && title == ""
      ensures fired.None? ==> open == old(open) && title == old(title)
    {
      fired := None;
      if submitListeners > 0 {
        fired := SubmitDecision(title, options, choice, callback);
        if fired.Some? {
          Close();
        }
      }
    }
  }
}
