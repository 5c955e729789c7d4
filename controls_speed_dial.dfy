/** The floating speed dial of the controls page: which basic commands it
    offers for the robot's status, and whether it shows nothing, a single
    button or the dial. */
module ControlsSpeedDial {
  import opened Wrappers
  import opened Seqs
  import opened RobotModel

  /** A dial entry: its label (also its list key) and the command it sends. */
  datatype Action = Action(name: string, command: Command)

  const ResumeAction := Action("Resume", Start)
  const StartAction := Action("Start", Start)
  const StopAction := Action("Stop", Stop)
  const PauseAction := Action("Pause", Pause)
  const HomeAction := Action("Home", Home)

  /** The offered actions, read declaratively: a first group chosen by the
      flag and state, then Pause while cleaning or returning, then Home
      when idle. */
  function DialActions(status: Option<Status>, basicControl: bool): seq<Action>
  {
    if status.None? || status.value.value == Error || !basicControl then []
    else
      var s := status.value;
      (if s.flag == Resumable then [ResumeAction, StopAction]
       else if s.value == Idle || s.value == Docked then [StartAction]
       else [StopAction])
      + (if s.value == Cleaning || s.value == Returning then [PauseAction] else [])
      + (if s.value == Idle then [HomeAction] else [])
  }

  /** The `actions` memo: an array grown by successive pushes. */
  method BuildActions(status: Option<Status>, basicControl: bool) returns (actions: seq<Action>)
    ensures actions == DialActions(status, basicControl)
  {
    if status.None? {
      return [];
    }
    actions := [];
    var state, flag := status.value.value, status.value.flag;
    if state == Error {
      return [];
    }
    if basicControl {
      if flag == Resumable {
        actions := actions + [ResumeAction, StopAction];
      } else if state == Idle || state == Docked {
        actions := actions + [StartAction];
      } else {
        actions := actions + [StopAction];
      }
      if state == Cleaning || state == Returning {
        actions := actions + [PauseAction];
      }
      if state == Idle {
        actions := actions + [HomeAction];
      }
    }
  }

  function Names(actions: seq<Action>): seq<string>
  {
    seq(|actions|, i requires 0 <= i < |actions| => actions[i].name)
  }

  /** What the promised orderings come to. */
  lemma DialActionsOrder(status: Option<Status>, basicControl: bool)
    ensures var a := DialActions(status, basicControl);
      && (status.None? || status.value.value == Error || !basicControl <==> a == [])
      && (a != [] && status.value.flag == Resumable ==> a[..2] == [ResumeAction, StopAction])
      && (a != [] && status.value.flag != Resumable && status.value.value in {Idle, Docked} ==> a[0] == StartAction)
      && (a != [] && status.value.flag != Resumable && status.value.value !in {Idle, Docked} ==> a[0] == StopAction)
      && (PauseAction in a <==> a != [] && status.value.value in {Cleaning, Returning})
      && (HomeAction in a <==> a != [] && status.value.value == Idle)
      && (a != [] && status.value.value == Idle ==> a[|a| - 1] == HomeAction)
  {
  }

  /** No two entries share a name, so the names are valid list keys and each
      command is offered at most once. */
  lemma DialNamesDistinct(status: Option<Status>, basicControl: bool)
    ensures NoDuplicates(Names(DialActions(status, basicControl)))
    ensures |DialActions(status, basicControl)| <= 4
  {
    var a := DialActions(status, basicControl);
    if a != [] {
      var s := status.value;
      var first := if s.flag == Resumable then [ResumeAction, StopAction]
                   else if s.value == Idle || s.value == Docked then [StartAction] else [StopAction];
      var pause := if s.value == Cleaning || s.value == Returning then [PauseAction] else [];
      var home := if s.value == Idle then [HomeAction] else [];
      assert a == first + pause + home;
      forall i, j | 0 <= i < j < |a| ensures Names(a)[i] != Names(a)[j] {
        assert Names(a)[i] == a[i].name && Names(a)[j] == a[j].name;
      }
    }
  }

  /** What is rendered: nothing, one button for the single action, or the
      dial. */
  datatype DialView = Nothing | SingleButton(action: Action) | Dial(actions: seq<Action>)

  function Render(actions: seq<Action>): (v: DialView)
    ensures v.Nothing? <==> |actions| == 0
    ensures v.SingleButton? <==> |actions| == 1
    ensures v.SingleButton? ==> v.action == actions[0]
    ensures v.Dial? ==> v.actions == actions && |actions| >= 2
  {
    if |actions| == 0 then Nothing
    else if |actions| == 1 then SingleButton(actions[0])
    else Dial(actions)
  }

  /** The dial's `open` state cell. */
  class DialState {
    var open: bool

    constructor ()
      ensures !open
    {
      open := false;
    }

    /** Whether the dial is shown open: never while a command is in flight. */
    function Shown(isLoading: bool): bool
      reads this
    {
      !isLoading && open
    }

    method HandleOpen()
      modifies this
      ensures open
    {
      open := true;
    }

    method HandleClose()
      modifies this
      ensures !open
    {
      open := false;
    }

    /** Choosing an entry sends its command and closes the dial. */
    method Choose(action: Action) returns (sent: Command)
      modifies this
      ensures sent == action.command && !open
    {
      sent := action.command;
      HandleClose();
    }
  }
}
