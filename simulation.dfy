/**
 * The museum's mutable simulation state as objects: the robot record and
 * the scene that owns it, the exhibit registry and the popup index. Each
 * method performs the source's field updates one by one and is proved to
 * produce exactly the state its specification function in Navigator gives.
 */
module Simulation {
  import opened Geometry
  import opened Navigator

  class Robot {
    var position: Vec3
    var initialPosition: Vec3
    var orientation: real
    var armAngle: real
    var target: int
    var autoMode: bool
    var returningHome: bool
    var moveSpeed: real

    ghost function Value(): RobotState
      reads this
    {
      RobotState(position, initialPosition, orientation, armAngle, target, autoMode, returningHome, moveSpeed)
    }

    /** The robot at start-up: at home, facing -z, arm down, no target. */
    constructor ()
      ensures Value() == InitialRobot()
    {
      initialPosition := HomePosition;
      position := initialPosition;
      orientation := InitialOrientation;
      armAngle := 0.0;
      target := -1;
      autoMode := false;
      returningHome := false;
      moveSpeed := MoveSpeed;
    }
  }

  class Museum {
    var objects: seq<Exhibit>
    var shown: int
    const robot: Robot

    ghost function State(): Scene
      reads this, robot
    {
      Scene(robot.Value(), objects, shown)
    }

    ghost predicate Valid()
      reads this, robot
    {
      Navigator.Valid(State())
    }

    /** The registry of five exhibits and the robot at home. */
    constructor ()
      ensures State() == InitialScene() && Valid() && fresh(robot)
    {
      robot := new Robot();
      objects := InitialObjects();
      shown := -1;
    }

    /** The per-frame update of the robot. */
    method MoveRobot(dt: real, k: Kinematics)
      modifies this, robot
      ensures State() == Navigator.MoveRobot(old(State()), dt, k)
      ensures old(Valid()) ==> Valid()
    {
      if robot.target < 0 && !robot.returningHome {
        return;
      }
      var targetPos: Vec3;
      if robot.returningHome {
        targetPos := robot.initialPosition;
      } else if 0 <= robot.target < |objects| {
        targetPos := Sub(objects[robot.target].position, Vec3(0.0, 0.0, ApproachOffset));
        targetPos := targetPos.(y := robot.position.y);
      } else {
        return;
      }
      var direction := k.normalize(Sub(targetPos, robot.position));
      var distance := k.distance(robot.position, targetPos);
      if distance > ArrivalThreshold {
        robot.orientation := k.atan2(direction.x, direction.z);
        robot.position := Add(robot.position, Scale(Scale(direction, robot.moveSpeed), dt));
      } else if robot.returningHome {
        robot.returningHome := false;
        robot.autoMode := false;
      } else {
        var i := robot.target;
        if !objects[i].scanned {
          objects := objects[i := objects[i].(scanned := true)];
          shown := i;
          robot.armAngle := ScanAngle;
        }
        if robot.autoMode {
          robot.target := robot.target + 1;
          if robot.target >= |objects| {
            robot.target := -1;
            robot.returningHome := true;
          }
        } else {
          robot.target := -1;
        }
      }
      if robot.armAngle > 0.0 && distance > ArmRelaxBand {
        robot.armAngle := robot.armAngle - ArmReturnRate * dt;
        if robot.armAngle < 0.0 {
          robot.armAngle := 0.0;
        }
      }
    }

    /** The main loop's guarded call of the update. */
    method Update(dt: real, k: Kinematics)
      modifies this, robot
      ensures State() == Navigator.Update(old(State()), dt, k)
      ensures old(Valid()) ==> Valid()
    {
      if robot.autoMode || robot.returningHome || robot.target != -1 {
        MoveRobot(dt, k);
      }
    }

    /** "Start Automatic Tour": every exhibit's flag is cleared in turn. */
    method StartTour()
      modifies this, robot
      ensures State() == Navigator.StartTour(old(State()))
      ensures old(Valid()) ==> Valid()
    {
      robot.autoMode := true;
      robot.returningHome := false;
      robot.target := 0;
      var i := 0;
      while i < |objects|
        invariant 0 <= i <= |objects| == |old(objects)|
        invariant forall j :: 0 <= j < i ==> objects[j] == old(objects[j]).(scanned := false)
        invariant forall j :: i <= j < |objects| ==> objects[j] == old(objects[j])
        modifies this
      {
        objects := objects[i := objects[i].(scanned := false)];
        i := i + 1;
      }
      shown := -1;
      assert objects == ResetScanned(old(objects));
    }

    /** "Stop Robot / Return Home". */
    method StopRobot()
      modifies robot
      ensures State() == Navigator.Stop(old(State()))
      ensures old(Valid()) ==> Valid()
    {
      robot.autoMode := false;
      robot.returningHome := true;
      robot.target := -1;
    }

    /** The button of exhibit `i`. */
    method SelectExhibit(i: int)
      requires 0 <= i < |objects|
      modifies this, robot
      ensures State() == Navigator.Select(old(State()), i)
      ensures old(Valid()) ==> Valid()
    {
      robot.autoMode := false;
      robot.returningHome := false;
      robot.target := i;
      shown := -1;
      objects := objects[i := objects[i].(scanned := false)];
    }

    /** The information popup's visibility test; it changes nothing. */
    method PopupVisible() returns (visible: bool)
      requires ShownInRange(State())
      ensures visible == Navigator.PopupVisible(State())
      ensures Valid() ==> (visible <==> shown != -1)
    {
      visible := shown != -1 && objects[shown].scanned;
    }

    /** The popup's "Close" button. */
    method ClosePopup()
      modifies this
      ensures State() == Navigator.ClosePopup(old(State()))
      ensures old(Valid()) ==> Valid()
    {
      shown := -1;
    }

    /** The row of exhibit buttons, one per exhibit in registry order. */
    method SelectButtons(clicks: seq<bool>)
      requires |clicks| == |objects|
      modifies this, robot
      ensures State() == SelectClicks(old(State()), clicks)
    {
      var i := 0;
      while i < |objects|
        invariant 0 <= i <= |objects| == |clicks| == |old(objects)|
        invariant State() == SelectClicks(old(State()), clicks[..i])
      {
        if clicks[i] {
          SelectExhibit(i);
        }
        assert clicks[..i + 1][..i] == clicks[..i];
        i := i + 1;
      }
      assert clicks[..i] == clicks;
    }

    /** One frame of the robot-control panel and the popup: start, stop,
        the exhibit buttons in registry order, then close. */
    method ControlPanel(input: ControlInput)
      requires |input.select| == |objects| && ShownInRange(State())
      modifies this, robot
      ensures State() == Navigator.ControlPanel(old(State()), input)
      ensures old(Valid()) ==> Valid()
    {
      if input.startTour {
        StartTour();
      }
      if input.stop {
        StopRobot();
      }
      SelectButtons(input.select);
      var visible := PopupVisible();
      if visible && input.closePopup {
        ClosePopup();
      }
    }

    /** One pass of the main loop: the guarded update, then the interface. */
    method Frame(dt: real, k: Kinematics, input: ControlInput)
      requires |input.select| == |objects| && ShownInRange(State())
      modifies this, robot
      ensures State() == Navigator.Frame(old(State()), dt, k, input)
      ensures old(Valid()) ==> Valid()
    {
      Update(dt, k);
      ControlPanel(input);
    }
  }
}
