/**
 * Properties of the navigator that relate several frames or several
 * commands: what one travel or arrival frame changes, that an idle robot
 * stays put, that a tour scans the exhibits in registry order and then goes
 * home, and that a manual selection scans its exhibit at most once.
 */
module NavigatorLemmas {
  import opened Geometry
  import opened Navigator

  /** The state after one main-loop update per entry of `dts`. */
  ghost function Run(s: Scene, dts: seq<real>, k: Kinematics): (r: Scene)
    ensures SameRegistry(s, r)
    decreases |dts|
  {
    if dts == [] then s else Run(Update(s, dts[0], k), dts[1..], k)
  }

  /** The state after `n` frames that each end within arrival distance. */
  ghost function Arrivals(s: Scene, n: nat): Scene
    decreases n
  {
    if n == 0 || TargetPoint(s).None? then s else Arrivals(Arrive(s), n - 1)
  }

  /** A run is the run of its prefix continued by the run of its suffix. */
  lemma {:induction false} RunSplit(s: Scene, dts: seq<real>, m: nat, k: Kinematics)
    requires m <= |dts|
    ensures Run(s, dts, k) == Run(Run(s, dts[..m], k), dts[m..], k)
    decreases m
  {
    if m > 0 {
      assert dts[..m][0] == dts[0] && dts[..m][1..] == dts[1..][..m - 1];
      assert dts[m..] == dts[1..][m - 1..];
      RunSplit(Update(s, dts[0], k), dts[1..], m - 1, k);
    }
  }

  lemma {:induction false} RunKeepsValid(s: Scene, dts: seq<real>, k: Kinematics)
    requires Valid(s)
    ensures Valid(Run(s, dts, k))
    decreases |dts|
  {
    if dts != [] {
      RunKeepsValid(Update(s, dts[0], k), dts[1..], k);
    }
  }

  /** With no exhibit targeted and no way home to go, any number of updates
      with any elapsed times leave the whole state as it is. */
  lemma {:induction false} IdleIsStable(s: Scene, dts: seq<real>, k: Kinematics)
    requires s.robot.target < 0 && !s.robot.returningHome
    ensures Run(s, dts, k) == s
    decreases |dts|
  {
    if dts != [] {
      assert Update(s, dts[0], k) == s;
      IdleIsStable(s, dts[1..], k);
    }
  }

  /** A frame further than the arrival threshold from the target point moves
      the robot along the normalised direction and turns it to face that
      direction; only the arm may swing back. Target, modes, flags and popup
      are untouched, and towards an exhibit the height is kept. */
  lemma TravelFrame(s: Scene, dt: real, k: Kinematics)
    requires TargetPoint(s).Some?
    requires k.distance(s.robot.position, TargetPoint(s).value) > ArrivalThreshold
    ensures var r := MoveRobot(s, dt, k);
      var t := TargetPoint(s).value;
      var d := k.distance(s.robot.position, t);
      var direction := k.normalize(Sub(t, s.robot.position));
      && r.objects == s.objects && r.shown == s.shown
      && r.robot == s.robot.(position := r.robot.position,
                             orientation := r.robot.orientation,
                             armAngle := RelaxArm(s.robot.armAngle, d, dt))
      && r.robot.orientation == k.atan2(direction.x, direction.z)
      && Sub(r.robot.position, s.robot.position) == Scale(Scale(direction, s.robot.moveSpeed), dt)
      && (KeepsGroundPlane(k) && DistanceSeparates(k) && !s.robot.returningHome ==>
            r.robot.position.y == s.robot.position.y)
  {
  }

  /** A frame within the arrival threshold is exactly the arrival step: the
      arm does not swing back on that frame, so a fresh scan ends it at the
      scan angle. */
  lemma ArrivalFrame(s: Scene, dt: real, k: Kinematics)
    requires TargetPoint(s).Some?
    requires k.distance(s.robot.position, TargetPoint(s).value) <= ArrivalThreshold
    ensures MoveRobot(s, dt, k) == Arrive(s)
    ensures !s.robot.returningHome && !s.objects[s.robot.target].scanned ==>
      MoveRobot(s, dt, k).robot.armAngle == ScanAngle
  {
  }

  // ---------------------------------------------------------------------
  // The automatic tour

  /** Stage `k` of a tour over N exhibits: for k < N seeking exhibit k, at
      k == N returning home, at k == N + 1 finished; exhibits before k are
      scanned, the others not, and the popup shows the last one scanned. */
  ghost predicate TourPhase(s: Scene, k: nat) {
    var n := |s.objects|;
    && Valid(s)
    && k <= n + 1
    && (forall j :: 0 <= j < n ==> s.objects[j].scanned == (j < k))
    && s.shown == (if k <= n then k - 1 else n - 1)
    && (k < n ==> s.robot.autoMode && !s.robot.returningHome && s.robot.target == k)
    && (k == n ==> s.robot.autoMode && s.robot.returningHome && s.robot.target == -1)
    && (k == n + 1 ==> !s.robot.autoMode && !s.robot.returningHome && s.robot.target == -1)
  }

  lemma TourStart(s: Scene)
    requires Valid(s)
    ensures TourPhase(StartTour(s), 0)
  {
  }

  /** Arriving in stage k (k <= N) enters stage k + 1. */
  lemma TourArrival(s: Scene, k: nat)
    requires TourPhase(s, k) && k <= |s.objects|
    ensures TargetPoint(s).Some? && TourPhase(Arrive(s), k + 1)
  {
  }

  /** Any one update keeps a tour in its stage or advances it by one. */
  lemma TourStep(s: Scene, k: nat, dt: real, kin: Kinematics) returns (k': nat)
    requires TourPhase(s, k)
    ensures k' == k || k' == k + 1
    ensures TourPhase(Update(s, dt, kin), k')
  {
    var n := |s.objects|;
    if k == n + 1 {
      assert Update(s, dt, kin) == s;
      k' := k;
    } else {
      var t := TargetPoint(s).value;
      if kin.distance(s.robot.position, t) > ArrivalThreshold {
        TravelFrame(s, dt, kin);
        var r := Update(s, dt, kin);
        assert r.objects == s.objects;
        k' := k;
      } else {
        ArrivalFrame(s, dt, kin);
        TourArrival(s, k);
        k' := k + 1;
      }
    }
  }

  /** Whatever the frame times and the geometry, a tour only moves forward
      through its stages: the exhibits are scanned in registry order, then
      the robot returns home and stops. */
  lemma {:induction false} TourProgress(s: Scene, k: nat, dts: seq<real>, kin: Kinematics)
    returns (k': nat)
    requires TourPhase(s, k)
    ensures k <= k' <= |s.objects| + 1
    ensures TourPhase(Run(s, dts, kin), k')
    decreases |dts|
  {
    if dts == [] {
      k' := k;
    } else {
      var step := TourStep(s, k, dts[0], kin);
      k' := TourProgress(Update(s, dts[0], kin), step, dts[1..], kin);
    }
  }

  lemma {:induction false} TourArrivals(s: Scene, k: nat, m: nat)
    requires TourPhase(s, k) && k + m <= |s.objects| + 1
    ensures TourPhase(Arrivals(s, m), k + m) && |Arrivals(s, m).objects| == |s.objects|
    decreases m
  {
    if m > 0 {
      TourArrival(s, k);
      TourArrivals(Arrive(s), k + 1, m - 1);
    }
  }

  /** N + 1 arrivals complete a tour of N exhibits: every exhibit scanned,
      the robot home, auto mode off and nothing targeted. */
  lemma TourCompletes(s: Scene)
    requires Valid(s)
    ensures var r := Arrivals(StartTour(s), |s.objects| + 1);
      && ModeOf(r) == Idle && !r.robot.autoMode
      && (forall j :: 0 <= j < |r.objects| ==> r.objects[j].scanned)
      && r.shown == |r.objects| - 1
  {
    TourStart(s);
    TourArrivals(StartTour(s), 0, |s.objects| + 1);
  }

  /** Start on an empty registry targets exhibit 0, which the update
      treats as out of range: nothing happens afterwards. */
  lemma EmptyRegistryTourIsInert(s: Scene, dt: real, k: Kinematics)
    requires |s.objects| == 0
    ensures Update(StartTour(s), dt, k) == StartTour(s)
  {
  }

  // ---------------------------------------------------------------------
  // Manual selection

  /** After selecting exhibit i from `s0`: either still seeking i with its
      flag clear and no popup, or idle with i scanned, its popup shown and
      the arm raised or swinging back; the other flags are those of `s0`. */
  ghost predicate ManualPhase(s0: Scene, i: int, s: Scene) {
    && Valid(s)
    && 0 <= i < |s0.objects| == |s.objects|
    && FlagsAgreeExcept(s0, s, i)
    && !s.robot.autoMode && !s.robot.returningHome
    && (|| (s.robot.target == i && !s.objects[i].scanned && s.shown == -1)
        || (s.robot.target == -1 && s.objects[i].scanned && s.shown == i))
  }

  lemma ManualStep(s0: Scene, i: int, s: Scene, dt: real, k: Kinematics)
    requires ManualPhase(s0, i, s)
    ensures ManualPhase(s0, i, Update(s, dt, k))
  {
  }

  /** Selecting exhibit i and then running any frames scans i at most once:
      it is never cleared again and no other exhibit's flag changes. */
  lemma {:induction false} ManualRun(s: Scene, i: int, dts: seq<real>, k: Kinematics)
    requires Valid(s) && 0 <= i < |s.objects|
    ensures ManualPhase(s, i, Run(Select(s, i), dts, k))
  {
    ManualRunFrom(s, i, Select(s, i), dts, k);
  }

  lemma {:induction false} ManualRunFrom(s0: Scene, i: int, s: Scene, dts: seq<real>, k: Kinematics)
    requires ManualPhase(s0, i, s)
    ensures ManualPhase(s0, i, Run(s, dts, k))
    decreases |dts|
  {
    if dts != [] {
      ManualStep(s0, i, s, dts[0], k);
      ManualRunFrom(s0, i, Update(s, dts[0], k), dts[1..], k);
    }
  }

  /** Once the selected exhibit is scanned the robot is idle, so no later
      frame changes anything: the scan is final. */
  lemma ManualScanIsFinal(s0: Scene, i: int, s: Scene, dts: seq<real>, k: Kinematics)
    requires ManualPhase(s0, i, s) && s.objects[i].scanned
    ensures Run(s, dts, k) == s
  {
    IdleIsStable(s, dts, k);
  }

  /** After selecting exhibit i, once some prefix of a run has scanned i,
      the rest of the run changes nothing: i is scanned at most once and
      never cleared again by the navigator. */
  lemma ManualScanAtMostOnce(s: Scene, i: int, dts: seq<real>, m: nat, k: Kinematics)
    requires Valid(s) && 0 <= i < |s.objects| && m <= |dts|
    requires Run(Select(s, i), dts[..m], k).objects[i].scanned
    ensures Run(Select(s, i), dts, k) == Run(Select(s, i), dts[..m], k)
  {
    var mid := Run(Select(s, i), dts[..m], k);
    ManualRun(s, i, dts[..m], k);
    RunSplit(Select(s, i), dts, m, k);
    ManualScanIsFinal(s, i, mid, dts[m..], k);
  }

  /** Arriving after a manual selection scans the exhibit, shows its popup,
      raises the arm and leaves the robot idle. */
  lemma ManualArrival(s: Scene, i: int)
    requires Valid(s) && 0 <= i < |s.objects|
    ensures var r := Arrive(Select(s, i));
      && ModeOf(r) == Idle && !r.robot.autoMode
      && r.objects[i].scanned && r.shown == i && r.robot.armAngle == ScanAngle
      && FlagsAgreeExcept(s, r, i)
  {
  }

  // ---------------------------------------------------------------------
  // The exhibit buttons

  /** Pressing only the button of exhibit i is the manual selection of i. */
  lemma {:induction false} SingleClickSelects(s: Scene, clicks: seq<bool>, i: int)
    requires |clicks| <= |s.objects| && 0 <= i < |clicks|
    requires forall j :: 0 <= j < |clicks| ==> clicks[j] == (j == i)
    ensures SelectClicks(s, clicks) == Select(s, i)
    decreases |clicks|
  {
    var prefix := clicks[..|clicks| - 1];
    if |clicks| - 1 == i {
      assert forall j :: 0 <= j < |prefix| ==> !prefix[j];
    } else {
      SingleClickSelects(s, prefix, i);
    }
  }

  /** Start pressed alone is exactly the start command. */
  lemma StartButton(s: Scene, input: ControlInput)
    requires |input.select| == |s.objects| && ShownInRange(s)
    requires input.startTour && !input.stop && !input.closePopup
    requires forall j :: 0 <= j < |input.select| ==> !input.select[j]
    ensures ControlPanel(s, input) == StartTour(s)
  {
  }

  /** Close pressed alone closes the popup when it is displayed, and
      otherwise does nothing (the button is not on screen). */
  lemma CloseButton(s: Scene, input: ControlInput)
    requires |input.select| == |s.objects| && ShownInRange(s)
    requires !input.startTour && !input.stop && input.closePopup
    requires forall j :: 0 <= j < |input.select| ==> !input.select[j]
    ensures ControlPanel(s, input) == if PopupVisible(s) then ClosePopup(s) else s
  {
  }

  /** Stop pressed alone sends the robot home from wherever it was. */
  lemma StopButton(s: Scene, input: ControlInput)
    requires |input.select| == |s.objects| && ShownInRange(s)
    requires !input.startTour && input.stop && !input.closePopup
    requires forall j :: 0 <= j < |input.select| ==> !input.select[j]
    ensures ControlPanel(s, input) == Stop(s)
  {
  }
}
