/** The action button in the controls sheet's header: one command chosen by
    the robot's state. */
module ControlsBottomSheet {
  import opened Wrappers
  import opened RobotModel

  datatype ActionButton = NoButton | Spinner | CommandButton(command: Command, caption: string)

  /** `ActionButton`, shown only when basic control is supported. */
  function ActionButtonFor(basicControl: bool, state: Option<StatusValue>, isLoading: bool): (b: ActionButton)
    ensures b.NoButton? <==> !basicControl || state.None?
    ensures b.Spinner? <==> basicControl && state.Some? && isLoading
    ensures b.CommandButton? ==> (b.command == Start <==> state == Some(Docked))
    ensures b.CommandButton? ==> (b.command == Stop <==> state.value in {Cleaning, Moving, Returning})
    ensures b.CommandButton? ==> (b.command == Home <==> state.value !in {Docked, Cleaning, Moving, Returning})
    ensures b.CommandButton? ==> b.command != Pause
  {
    if !basicControl || state.None? then NoButton
    else if isLoading then Spinner
    else if state.value == Docked then CommandButton(Start, "Start")
    else if state.value == Cleaning || state.value == Moving || state.value == Returning then CommandButton(Stop, "Stop")
    else CommandButton(Home, "Home")
  }
}
