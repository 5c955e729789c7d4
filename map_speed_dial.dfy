/** The speed dial of the map page: the robot status is looked up among the
    state attributes and decides which basic commands are offered. */
module MapSpeedDial {
  import opened Wrappers
  import opened Seqs
  import opened RobotModel
  import opened ControlsSpeedDial

  predicate IsStatus(a: RobotAttribute) { a.StatusState? }

  /** The first `StatusState` attribute; undefined before the state loads or
      when there is none. */
  function StatusOf(attributes: Option<seq<RobotAttribute>>): (r: Option<Status>)
    ensures attributes.None? ==> r.None?
    ensures attributes.Some? ==> (r.None? <==> forall a :: a in attributes.value ==> !a.StatusState?)
    ensures r.Some? ==>
      exists i :: 0 <= i < |attributes.value| &&
        attributes.value[i] == StatusState(r.value.value, r.value.flag) &&
        forall j :: 0 <= j < i ==> !attributes.value[j].StatusState?
  {
    match attributes
    case None => None
    case Some(attrs) =>
      match Find(IsStatus, attrs)
      case None => None
      case Some(a) => Some(Status(a.statusValue, a.flag))
  }

  /** The offered actions, read declaratively: Resume or Start, then Pause
      and Stop while the robot works, then Home unless it is docked or on
      its way there. */
  function MapDialActions(status: Option<Status>, basicControl: bool): seq<Action>
  {
    if !basicControl || status.None? then []
    else
      var s := status.value;
      (if s.flag == Resumable then [ResumeAction]
       else if s.value == Idle || s.value == Docked then [StartAction]
       else [])
      + (if s.value in {Cleaning, Returning, Moving} then [PauseAction, StopAction] else [])
      + (if s.value != Docked && s.value != Returning then [HomeAction] else [])
  }

  /** The `actions` memo: an array grown by pushes in three `if` blocks. */
  method BuildActions(status: Option<Status>, basicControl: bool) returns (actions: seq<Action>)
    ensures actions == MapDialActions(status, basicControl)
  {
    actions := [];
    if basicControl && status.Some? {
      var s := status.value;
      if s.flag == Resumable {
        actions := actions + [ResumeAction];
      } else if s.value == Idle || s.value == Docked {
        actions := actions + [StartAction];
      }
      if s.value == Cleaning || s.value == Returning || s.value == Moving {
        actions := actions + [PauseAction, StopAction];
      }
      if s.value != Docked && s.value != Returning {
        actions := actions + [HomeAction];
      }
    }
  }

  /** An unfolding step, not a claim of its own: `MapDialActions` written as
      its three pushes, for the two lemmas that follow. */
  lemma MapDialParts(status: Option<Status>, basicControl: bool)
    requires basicControl && status.Some?
    ensures var s := status.value;
      MapDialActions(status, basicControl) ==
        (if s.flag == Resumable then [ResumeAction]
         else if s.value == Idle || s.value == Docked then [StartAction]
         else [])
        + (if s.value in {Cleaning, Returning, Moving} then [PauseAction, StopAction] else [])
        + (if s.value != Docked && s.value != Returning then [HomeAction] else [])
  {
  }

  /** When Resume, Start, Pause and Stop are offered. */
  lemma MapDialCommands(status: Option<Status>, basicControl: bool)
    ensures var a := MapDialActions(status, basicControl);
      && (ResumeAction in a <==> basicControl && status.Some? && status.value.flag == Resumable)
      && (StartAction in a <==> basicControl && status.Some? && status.value.flag != Resumable &&
                                status.value.value in {Idle, Docked})
      && (PauseAction in a <==> basicControl && status.Some? && status.value.value in {Cleaning, Returning, Moving})
      && (StopAction in a <==> PauseAction in a)
  {
    assert ResumeAction != StartAction by { assert |ResumeAction.name| != |StartAction.name|; }
    if basicControl && status.Some? {
      MapDialParts(status, basicControl);
    }
  }

  /** When Home is offered, and that it comes last. */
  lemma MapDialHome(status: Option<Status>, basicControl: bool)
    ensures var a := MapDialActions(status, basicControl);
      && (HomeAction in a <==> basicControl && status.Some? && status.value.value !in {Docked, Returning})
      && (HomeAction in a ==> a[|a| - 1] == HomeAction)
  {
    if basicControl && status.Some? {
      MapDialParts(status, basicControl);
    }
  }

  /** The promised shape of the list. */
  lemma MapDialActionsOrder(status: Option<Status>, basicControl: bool)
    ensures var a := MapDialActions(status, basicControl);
      && (!basicControl || status.None? ==> a == [])
      && (ResumeAction in a <==> basicControl && status.Some? && status.value.flag == Resumable)
      && (StartAction in a <==> basicControl && status.Some? && status.value.flag != Resumable &&
                                status.value.value in {Idle, Docked})
      && (PauseAction in a <==> basicControl && status.Some? && status.value.value in {Cleaning, Returning, Moving})
      && (StopAction in a <==> PauseAction in a)
      && (HomeAction in a <==> basicControl && status.Some? && status.value.value !in {Docked, Returning})
      && (HomeAction in a ==> a[|a| - 1] == HomeAction)
  {
    MapDialCommands(status, basicControl);
    MapDialHome(status, basicControl);
  }

  /** Names are distinct, so they are valid list keys. */
  lemma MapDialNamesDistinct(status: Option<Status>, basicControl: bool)
    ensures NoDuplicates(Names(MapDialActions(status, basicControl)))
  {
    var a := MapDialActions(status, basicControl);
    forall i, j | 0 <= i < j < |a| ensures Names(a)[i] != Names(a)[j] {
      assert Names(a)[i] == a[i].name && Names(a)[j] == a[j].name;
    }
  }

  /** The map dial renders nothing for an empty list and the dial
      otherwise, even for a single action. */
  function MapRender(actions: seq<Action>): (v: DialView)
    ensures v.Nothing? <==> |actions| == 0
    ensures v.Dial? <==> |actions| > 0
    ensures v.Dial? ==> v.actions == actions
  {
    if |actions| == 0 then Nothing else Dial(actions)
  }
}
