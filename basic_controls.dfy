/** The basic-controls panel: four buttons whose enablement follows the
    robot's status, all disabled while a command is in flight. */
module BasicControls {
  import opened Wrappers
  import opened RobotModel

  const StartStates: seq<StatusValue> := [Idle, Docked, Paused]
  const PauseStates: seq<StatusValue> := [Cleaning, Returning, Moving]

  datatype Button = Button(command: Command, caption: string, enabled: bool)

  /** What the panel shows: an error without a status, else the four
      buttons. */
  datatype Panel = LoadError | Buttons(buttons: seq<Button>)

  function StartLabel(flag: StatusFlag): string
  {
    if flag == Resumable then "Resume" else "Start"
  }

  function PanelFor(status: Option<Status>, isLoading: bool): (p: Panel)
    ensures p.LoadError? <==> status.None?
    ensures p.Buttons? ==>
      |p.buttons| == 4 &&
      p.buttons[0].command == Start && p.buttons[1].command == Pause &&
      p.buttons[2].command == Stop && p.buttons[3].command == Home
    ensures p.Buttons? ==> var s := status.value;
      && (p.buttons[0].enabled <==> !isLoading && s.value in {Idle, Docked, Paused})
      && (p.buttons[1].enabled <==> !isLoading && s.value in {Cleaning, Returning, Moving})
      && (p.buttons[2].enabled <==> !isLoading && (s.flag == Resumable || s.value !in {Idle, Docked}))
      && (p.buttons[3].enabled <==> !isLoading && s.value == Idle)
    ensures p.Buttons? ==> (p.buttons[0].caption == "Resume" <==> status.value.flag == Resumable)
  {
    match status
    case None => LoadError
    case Some(s) =>
      Buttons([
        Button(Start, StartLabel(s.flag), !isLoading && s.value in StartStates),
        Button(Pause, "Pause", !isLoading && s.value in PauseStates),
        Button(Stop, "Stop", !isLoading && !(!(s.flag == Resumable) && (s.value == Idle || s.value == Docked))),
        Button(Home, "Home", !isLoading && s.value == Idle)])
  }

  /** Start and Pause are never offered together, and when nothing is in
      flight some button is always enabled: Start in the idle and docked
      states, Stop in every other. */
  lemma ButtonsCoverStates(s: Status)
    ensures var b := PanelFor(Some(s), false).buttons;
      && !(b[0].enabled && b[1].enabled)
      && (s.value in {Idle, Docked} ==> b[0].enabled)
      && (s.value !in {Idle, Docked} ==> b[2].enabled)
      && exists i :: 0 <= i < 4 && b[i].enabled
  {
    var b := PanelFor(Some(s), false).buttons;
    if s.value in {Idle, Docked} { assert b[0].enabled; }
    else { assert b[2].enabled; }
  }
}
