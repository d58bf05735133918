/**
 * The robot navigator of the virtual museum, as pure functions on a value of
 * the whole simulation state: the robot, the exhibit registry and the index of
 * the exhibit whose information popup is shown.
 *
 * Each function here is the specification of one imperative operation of the
 * class `Museum` (module Simulation): the per-frame update, the main loop's
 * update guard, and the robot-control commands of the user interface.
 */
module Navigator {
  import opened Geometry

  datatype Option<T> = None | Some(value: T)

  /** Below this distance the robot has arrived at its target point. */
  const ArrivalThreshold: real := 0.1
  /** Beyond this distance from its target the lowered arm swings back. */
  const ArmRelaxBand: real := 0.2
  /** The approach point lies this far from the exhibit towards -z. */
  const ApproachOffset: real := 1.5
  /** The scan gesture: 45 degrees in radians. */
  const ScanAngle: real := 0.7853981633974483
  /** The arm swings back at 90 degrees per second, in radians. */
  const ArmReturnRate: real := 1.5707963267948966
  /** The robot's yaw at start-up: 180 degrees in radians. */
  const InitialOrientation: real := 3.141592653589793
  const HomePosition: Vec3 := Vec3(0.0, 0.25, 6.0)
  const MoveSpeed: real := 2.0

  /** One exhibit of the registry. The mesh it is drawn with is not modelled. */
  datatype Exhibit = Exhibit(
    name: string,
    description: string,
    position: Vec3,
    scale: Vec3,
    color: Vec3,
    scanned: bool)

  /** The robot's record. A target of -1 means "no exhibit". */
  datatype RobotState = RobotState(
    position: Vec3,
    initialPosition: Vec3,
    orientation: real,
    armAngle: real,
    target: int,
    autoMode: bool,
    returningHome: bool,
    moveSpeed: real)

  /** The navigator's whole state; `shown` is the exhibit whose popup the
      interface displays, -1 for none. */
  datatype Scene = Scene(robot: RobotState, objects: seq<Exhibit>, shown: int)

  /** The navigator's modes, as a tagged variant over the loose flags. */
  datatype Mode = Idle | Seeking(index: nat) | ReturningHome

  /** The invariant every reachable state keeps. */
  predicate Valid(s: Scene) {
    && 0 < |s.objects|
    && -1 <= s.robot.target < |s.objects|
    && (s.robot.returningHome ==> s.robot.target == -1)
    && (s.robot.autoMode ==> s.robot.target >= 0 || s.robot.returningHome)
    && -1 <= s.shown < |s.objects|
    && (s.shown != -1 ==> s.objects[s.shown].scanned)
    && 0.0 <= s.robot.armAngle
  }

  /** The popup index may be looked up in the registry. */
  predicate ShownInRange(s: Scene) {
    s.shown == -1 || 0 <= s.shown < |s.objects|
  }

  /** `r` has the same exhibits as `s` up to their scanned flags, and the
      same home position and speed. */
  ghost predicate SameRegistry(s: Scene, r: Scene) {
    && |r.objects| == |s.objects|
    && (forall j :: 0 <= j < |s.objects| ==>
          r.objects[j].(scanned := s.objects[j].scanned) == s.objects[j])
    && r.robot.initialPosition == s.robot.initialPosition
    && r.robot.moveSpeed == s.robot.moveSpeed
  }

  /** Every exhibit other than `i` keeps its scanned flag. */
  ghost predicate FlagsAgreeExcept(s: Scene, r: Scene, i: int)
    requires |r.objects| == |s.objects|
  {
    forall j :: 0 <= j < |s.objects| && j != i ==> r.objects[j].scanned == s.objects[j].scanned
  }

  function ModeOf(s: Scene): (m: Mode)
    ensures Valid(s) ==>
      (m == Idle <==> !(s.robot.autoMode || s.robot.returningHome || s.robot.target != -1))
    ensures Valid(s) && m.Seeking? ==> m.index < |s.objects| && !s.robot.returningHome
    ensures Valid(s) && s.robot.autoMode ==> m != Idle
  {
    if s.robot.returningHome then ReturningHome
    else if s.robot.target >= 0 then Seeking(s.robot.target)
    else Idle
  }

  // ---------------------------------------------------------------------
  // Start-up

  function InitialObjects(): (objects: seq<Exhibit>)
    ensures |objects| == 5
    ensures forall j :: 0 <= j < |objects| ==> !objects[j].scanned
  {
    [ Exhibit("Statue of Hercules", "A famous Roman copy of a Greek original.",
              Vec3(-4.0, 0.5, -4.0), Vec3(1.0, 1.0, 1.0), Vec3(0.7, 0.7, 0.7), false),
      Exhibit("Ancient Vase", "A well-preserved vase from 500 BC.",
              Vec3(4.0, 0.5, -4.0), Vec3(0.5, 1.0, 0.5), Vec3(0.8, 0.5, 0.2), false),
      Exhibit("Sarcophagus Lid", "Detailed carvings depict scenes of mythology.",
              Vec3(-4.0, 0.25, 4.0), Vec3(2.0, 0.5, 1.0), Vec3(0.6, 0.6, 0.5), false),
      Exhibit("Mosaic Panel", "A colorful mosaic showing daily life.",
              Vec3(4.0, 1.0, 4.0), Vec3(1.5, 1.5, 0.2), Vec3(0.5, 0.7, 0.8), false),
      Exhibit("Gold Coin Hoard", "A collection of rare gold coins.",
              Vec3(0.0, 0.25, -6.0), Vec3(0.5, 0.5, 0.5), Vec3(0.9, 0.8, 0.2), false) ]
  }

  function InitialRobot(): (r: RobotState)
    ensures r.position == r.initialPosition == HomePosition
    ensures r.target == -1 && !r.autoMode && !r.returningHome && r.armAngle == 0.0
    ensures r.orientation == InitialOrientation && r.moveSpeed == MoveSpeed
  {
    RobotState(HomePosition, HomePosition, InitialOrientation, 0.0, -1, false, false, MoveSpeed)
  }

  function InitialScene(): (s: Scene)
    ensures Valid(s) && ModeOf(s) == Idle
    ensures forall j :: 0 <= j < |s.objects| ==> !s.objects[j].scanned
  {
    Scene(InitialRobot(), InitialObjects(), -1)
  }

  // ---------------------------------------------------------------------
  // The per-frame update

  /** The point the robot heads for, or None when the update does nothing:
      no target and not returning, or a target outside the registry. */
  function TargetPoint(s: Scene): (t: Option<Vec3>)
    ensures t.Some? <==> s.robot.returningHome || 0 <= s.robot.target < |s.objects|
    ensures s.robot.returningHome ==> t == Some(s.robot.initialPosition)
    ensures t.Some? && !s.robot.returningHome ==>
      var p := s.objects[s.robot.target].position;
      t.value == Vec3(p.x, s.robot.position.y, p.z - ApproachOffset)
  {
    if s.robot.target < 0 && !s.robot.returningHome then None
    else if s.robot.returningHome then Some(s.robot.initialPosition)
    else if s.robot.target < |s.objects| then
      var p := Sub(s.objects[s.robot.target].position, Vec3(0.0, 0.0, ApproachOffset));
      Some(p.(y := s.robot.position.y))
    else None
  }

  /** What happens on the frame the robot reaches its target point. */
  function Arrive(s: Scene): (r: Scene)
    requires s.robot.returningHome || 0 <= s.robot.target < |s.objects|
    ensures SameRegistry(s, r)
    ensures r.robot.position == s.robot.position && r.robot.orientation == s.robot.orientation
    ensures ShownInRange(s) ==> ShownInRange(r)
    ensures s.robot.returningHome ==>
      && !r.robot.returningHome && !r.robot.autoMode
      && r.robot.target == s.robot.target && r.robot.armAngle == s.robot.armAngle
      && r.objects == s.objects && r.shown == s.shown
    ensures !s.robot.returningHome ==>
      var i := s.robot.target;
      && r.objects[i].scanned
      && FlagsAgreeExcept(s, r, i)
      && (!s.objects[i].scanned ==> r.shown == i && r.robot.armAngle == ScanAngle)
      && (s.objects[i].scanned ==>
            r.objects == s.objects && r.shown == s.shown && r.robot.armAngle == s.robot.armAngle)
      && r.robot.autoMode == s.robot.autoMode
      && (s.robot.autoMode ==>
            if i + 1 < |s.objects| then r.robot.target == i + 1 && !r.robot.returningHome
            else r.robot.target == -1 && r.robot.returningHome)
      && (!s.robot.autoMode ==> r.robot.target == -1 && !r.robot.returningHome)
    ensures Valid(s) ==> Valid(r)
  {
    if s.robot.returningHome then
      s.(robot := s.robot.(returningHome := false, autoMode := false))
    else
      var i := s.robot.target;
      var scan :=
        if !s.objects[i].scanned then
          s.(objects := s.objects[i := s.objects[i].(scanned := true)],
             shown := i,
             robot := s.robot.(armAngle := ScanAngle))
        else s;
      if scan.robot.autoMode then
        var next := scan.robot.target + 1;
        if next >= |scan.objects| then
          scan.(robot := scan.robot.(target := -1, returningHome := true))
        else scan.(robot := scan.robot.(target := next))
      else scan.(robot := scan.robot.(target := -1))
  }

  /** The arm swings back towards rest when it is raised and the robot is
      away from its target point; it never goes below zero. */
  function RelaxArm(armAngle: real, distance: real, dt: real): (a: real)
    ensures 0.0 <= armAngle ==> 0.0 <= a
    ensures !(armAngle > 0.0 && distance > ArmRelaxBand) ==> a == armAngle
    ensures armAngle > 0.0 && distance > ArmRelaxBand ==>
      && (0.0 <= dt ==> a <= armAngle)
      && (a == 0.0 <==> armAngle <= ArmReturnRate * dt)
      && (armAngle > ArmReturnRate * dt ==> armAngle - a == ArmReturnRate * dt)
  {
    if armAngle > 0.0 && distance > ArmRelaxBand then
      var lowered := armAngle - ArmReturnRate * dt;
      if lowered < 0.0 then 0.0 else lowered
    else armAngle
  }

  /** The per-frame update of the robot, given the elapsed time `dt`. */
  function MoveRobot(s: Scene, dt: real, k: Kinematics): (r: Scene)
    ensures TargetPoint(s).None? ==> r == s
    ensures SameRegistry(s, r)
    ensures s.robot.target < 0 ==> r.objects == s.objects
    ensures s.robot.target >= 0 ==> FlagsAgreeExcept(s, r, s.robot.target)
    ensures 0.0 <= s.robot.armAngle ==> 0.0 <= r.robot.armAngle
    ensures ShownInRange(s) ==> ShownInRange(r)
    ensures Valid(s) ==> Valid(r)
  {
    match TargetPoint(s)
    case None => s
    case Some(target) =>
      var direction := k.normalize(Sub(target, s.robot.position));
      var distance := k.distance(s.robot.position, target);
      var moved :=
        if distance > ArrivalThreshold then
          s.(robot := s.robot.(
               orientation := k.atan2(direction.x, direction.z),
               position := Add(s.robot.position, Scale(Scale(direction, s.robot.moveSpeed), dt))))
        else Arrive(s);
      moved.(robot := moved.robot.(armAngle := RelaxArm(moved.robot.armAngle, distance, dt)))
  }

  /** The main loop's call: the update runs only when the robot has an
      objective. Under the invariant the guard adds nothing. */
  function Update(s: Scene, dt: real, k: Kinematics): (r: Scene)
    ensures !s.robot.autoMode && !s.robot.returningHome && s.robot.target == -1 ==> r == s
    ensures SameRegistry(s, r)
    ensures ShownInRange(s) ==> ShownInRange(r)
    ensures Valid(s) ==> r == MoveRobot(s, dt, k) && Valid(r)
  {
    if s.robot.autoMode || s.robot.returningHome || s.robot.target != -1 then MoveRobot(s, dt, k)
    else s
  }

  // ---------------------------------------------------------------------
  // The robot-control commands of the interface

  function ResetScanned(objects: seq<Exhibit>): (r: seq<Exhibit>)
    ensures |r| == |objects|
    ensures forall j :: 0 <= j < |r| ==> r[j] == objects[j].(scanned := false)
  {
    seq(|objects|, j requires 0 <= j < |objects| => objects[j].(scanned := false))
  }

  /** "Start Automatic Tour": seek exhibit 0 in auto mode with every flag
      cleared and the popup closed. */
  function StartTour(s: Scene): (r: Scene)
    ensures r.robot == s.robot.(autoMode := true, returningHome := false, target := 0)
    ensures SameRegistry(s, r) && r.shown == -1
    ensures forall j :: 0 <= j < |r.objects| ==> !r.objects[j].scanned
    ensures ModeOf(r) == Seeking(0)
    ensures Valid(s) ==> Valid(r)
  {
    Scene(s.robot.(autoMode := true, returningHome := false, target := 0), ResetScanned(s.objects), -1)
  }

  /** "Stop Robot / Return Home": drop the target and head home, whatever
      the robot was doing; the flags and the popup stay. */
  function Stop(s: Scene): (r: Scene)
    ensures r.robot == s.robot.(autoMode := false, returningHome := true, target := -1)
    ensures r.objects == s.objects && r.shown == s.shown
    ensures ModeOf(r) == ReturningHome
    ensures Valid(s) ==> Valid(r)
  {
    s.(robot := s.robot.(autoMode := false, returningHome := true, target := -1))
  }

  /** The button of exhibit `i`: seek it manually, allowing a re-scan. */
  function Select(s: Scene, i: int): (r: Scene)
    requires 0 <= i < |s.objects|
    ensures r.robot == s.robot.(autoMode := false, returningHome := false, target := i)
    ensures SameRegistry(s, r) && r.shown == -1
    ensures !r.objects[i].scanned && FlagsAgreeExcept(s, r, i)
    ensures ModeOf(r) == Seeking(i)
    ensures Valid(s) ==> Valid(r)
  {
    Scene(s.robot.(autoMode := false, returningHome := false, target := i),
          s.objects[i := s.objects[i].(scanned := false)],
          -1)
  }

  /** Whether the "Object Information" popup is displayed. Under the
      invariant the scanned test is implied by the index test. */
  function PopupVisible(s: Scene): (visible: bool)
    requires ShownInRange(s)
    ensures visible ==> 0 <= s.shown < |s.objects| && s.objects[s.shown].scanned
    ensures Valid(s) ==> (visible <==> s.shown != -1)
  {
    s.shown != -1 && s.objects[s.shown].scanned
  }

  /** The popup's "Close" button. */
  function ClosePopup(s: Scene): (r: Scene)
    ensures r.robot == s.robot && r.objects == s.objects && r.shown == -1
    ensures !PopupVisible(r)
    ensures Valid(s) ==> Valid(r)
  {
    s.(shown := -1)
  }

  /** The exhibit buttons, pressed or not, processed in registry order: the
      prefix `clicks` of the button row. */
  function SelectClicks(s: Scene, clicks: seq<bool>): (r: Scene)
    requires |clicks| <= |s.objects|
    ensures SameRegistry(s, r)
    ensures r.shown == s.shown || r.shown == -1
    ensures (forall j :: 0 <= j < |clicks| ==> !clicks[j]) ==> r == s
    ensures forall j :: 0 <= j < |clicks| && clicks[j] ==> !r.objects[j].scanned
    ensures forall j :: 0 <= j < |s.objects| && (j >= |clicks| || !clicks[j]) ==>
      r.objects[j].scanned == s.objects[j].scanned
    ensures forall j :: 0 <= j < |clicks| && clicks[j] ==>
      !r.robot.autoMode && !r.robot.returningHome && r.shown == -1 && j <= r.robot.target < |clicks|
    ensures (exists j :: 0 <= j < |clicks| && clicks[j]) ==>
      && 0 <= r.robot.target < |clicks| && clicks[r.robot.target]
      && forall j :: r.robot.target < j < |clicks| ==> !clicks[j]
    ensures r.robot.(autoMode := s.robot.autoMode, returningHome := s.robot.returningHome,
                     target := s.robot.target) == s.robot
    ensures Valid(s) ==> Valid(r)
    decreases |clicks|
  {
    if clicks == [] then s
    else
      var before := SelectClicks(s, clicks[..|clicks| - 1]);
      if clicks[|clicks| - 1] then Select(before, |clicks| - 1) else before
  }

  /** The buttons of one frame of the robot-control panel and the popup. */
  datatype ControlInput = ControlInput(
    startTour: bool,
    stop: bool,
    select: seq<bool>,
    closePopup: bool)

  /** One frame of the interface's robot controls: start, stop, the exhibit
      buttons in order, then the popup and its close button. */
  function ControlPanel(s: Scene, input: ControlInput): (r: Scene)
    requires |input.select| == |s.objects| && ShownInRange(s)
    ensures SameRegistry(s, r) && ShownInRange(r)
    ensures (&& !input.startTour && !input.stop && !input.closePopup
             && forall j :: 0 <= j < |input.select| ==> !input.select[j]) ==> r == s
    ensures Valid(s) ==> Valid(r)
  {
    var started := if input.startTour then StartTour(s) else s;
    var stopped := if input.stop then Stop(started) else started;
    var selected := SelectClicks(stopped, input.select);
    if PopupVisible(selected) && input.closePopup then ClosePopup(selected) else selected
  }

  /** One pass of the main loop over the navigator's state: the guarded
      update with the frame's elapsed time, then the interface. */
  function Frame(s: Scene, dt: real, k: Kinematics, input: ControlInput): (r: Scene)
    requires |input.select| == |s.objects| && ShownInRange(s)
    ensures SameRegistry(s, r) && ShownInRange(r)
    ensures Valid(s) ==> Valid(r)
  {
    ControlPanel(Update(s, dt, k), input)
  }
}
