# Virtual museum robot navigator

A Dafny model of the robot navigator of the OpenGL "virtual museum" in
`opengldeneme/Main.cpp`. A robot moves between the five exhibits of a fixed
registry. It "scans" each exhibit it reaches, which raises its arm and opens the
exhibit's information popup, and then returns to its home position. The robot
is driven either by an automatic tour or by manual selection from the
interface.

The model has four modules:

- `Geometry` (geometry.dfy): 3-vectors over `real`. It also defines
  `Kinematics`, the uninterpreted primitives `glm::normalize`,
  `glm::distance` and `atan2`, which every update receives as function values.
- `Navigator` (navigator.dfy): the state as a value. A `Scene` holds the robot
  record, the exhibit registry and the popup index `shown`
  (`currentScannedObjectIndex`). The file has:
  - the per-frame update `MoveRobot`, split into its target choice, its
    arrival step and its arm relaxation;
  - the main loop's guarded `Update`;
  - the interface commands: start tour, stop, select, the popup test and
    its close button, and the robot-control panel;
  - the invariant `Valid`;
  - `ModeOf`, the tagged view Idle / Seeking(i) / ReturningHome of the
    flags.
- `NavigatorLemmas` (navigator_lemmas.dfy): properties over several frames.
  A robot with no objective stays unchanged. A tour scans the exhibits in
  registry order, then goes home and stops, whatever the frame times. A
  manual selection scans its exhibit at most once, and after that no
  frame changes anything. Pressing one button alone is the same as its
  command.
- `Simulation` (simulation.dfy): the source's globals as objects. `Robot` is
  the robot record. `Museum` owns the registry, the popup index and the
  robot. Its methods do the source's field assignments and loops one by one,
  and each one's `ensures` equates the new `State()` with the Navigator
  function applied to the old one.

Floats are modelled as `real`. The thresholds 0.1 and 0.2, the 1.5 approach
offset and the speed 2 appear as written. The angles 45°, 90°/s and 180° are
radians to sixteen digits.

## Model

| member | source | states |
|---|---|---|
| Navigator.ModeOf | opengldeneme/Main.cpp:308 | under the invariant the main loop's guard (auto, returning or a target) holds exactly when the robot is not Idle; a Seeking index is in the registry; auto mode is never Idle |
| Navigator.InitialObjects | opengldeneme/Main.cpp:88-94 | the registry has five exhibits, none scanned |
| Navigator.InitialRobot | opengldeneme/Main.cpp:96-107 | the robot starts at home (0, 0.25, 6), facing 180°, at speed 2, with no target, both modes off and the arm at 0 |
| Navigator.InitialScene | opengldeneme/Main.cpp:285-290 | the start-up state satisfies the invariant, is Idle and has no exhibit scanned |
| Navigator.TargetPoint | opengldeneme/Main.cpp:111-124 | a target point exists iff returning home or the target indexes the registry; home when returning; otherwise the point 1.5 before the exhibit in -z at the robot's own height |
| Navigator.Arrive | opengldeneme/Main.cpp:134-163 | at home: both modes cleared, nothing else changes; at exhibit i: i is scanned afterwards, no other flag changes, a fresh scan sets the popup to i and the arm to 45°, a repeat scan changes none of these, auto mode moves the target to i+1 or to -1 with returning set after the last exhibit, manual mode clears the target; the invariant is kept |
| Navigator.RelaxArm | opengldeneme/Main.cpp:164-168 | the arm never goes negative; it moves only when raised and farther than 0.2 from the target; it then drops by 90°/s times dt, or to exactly 0 if that would overshoot |
| Navigator.MoveRobot | opengldeneme/Main.cpp:110-169 | no change at all without a target point; the registry, home and speed are kept; only the targeted exhibit's flag can change; the arm stays non-negative; the popup index stays in range; the invariant is kept |
| Navigator.Update | opengldeneme/Main.cpp:307-310 | without an objective nothing changes; under the invariant it is exactly the per-frame update and keeps the invariant |
| Navigator.ResetScanned | opengldeneme/Main.cpp:191 | every exhibit is kept with its flag cleared |
| Navigator.StartTour | opengldeneme/Main.cpp:187-193 | auto mode on, returning off, target 0, every flag cleared, popup closed, the rest of the robot unchanged; the mode is Seeking(0) and the invariant is kept |
| Navigator.Stop | opengldeneme/Main.cpp:194-198 | auto off, returning on, target cleared, flags and popup kept; the mode is ReturningHome from any state |
| Navigator.Select | opengldeneme/Main.cpp:202-208 | auto and returning off, target i, popup closed, flag i cleared and all other flags kept; the mode is Seeking(i) and the invariant is kept |
| Navigator.PopupVisible | opengldeneme/Main.cpp:223 | visible only for a scanned exhibit in the registry; under the invariant visible iff the popup index is set |
| Navigator.ClosePopup | opengldeneme/Main.cpp:228-230 | the popup is no longer visible; robot and registry unchanged |
| Navigator.SelectClicks | opengldeneme/Main.cpp:201-209 | no button pressed means no change; every pressed exhibit's flag is cleared and the others are kept; after any press both modes are off, the popup is closed and the target is the last pressed index; position, home, yaw, arm and speed are kept; the invariant is kept |
| Navigator.ControlPanel | opengldeneme/Main.cpp:186-232 | the registry is kept and the popup index stays in range; no pressed button means no change; the invariant is kept |
| Navigator.Frame | opengldeneme/Main.cpp:307-375 | the guarded update followed by the interface keeps the registry and the invariant |
| NavigatorLemmas.RunSplit | opengldeneme/Main.cpp:300-310 | a run of updates is the run of a prefix followed by the run of the rest |
| NavigatorLemmas.RunKeepsValid | opengldeneme/Main.cpp:300-310 | any number of main-loop updates keep the invariant |
| NavigatorLemmas.IdleIsStable | opengldeneme/Main.cpp:111 | with no target and not returning, any run of updates with any elapsed times leaves the whole state unchanged |
| NavigatorLemmas.TravelFrame | opengldeneme/Main.cpp:126-133 | a frame farther than 0.1 from the target changes only the position, the yaw (atan2 of the direction) and the arm's relaxation; the displacement is the unit direction times speed times dt; towards an exhibit the height is kept, given that normalising a non-zero vector with zero y keeps y zero and that a positive distance separates two points |
| NavigatorLemmas.ArrivalFrame | opengldeneme/Main.cpp:134-168 | a frame within 0.1 is exactly the arrival step; the arm does not relax on it, so a fresh scan leaves the arm at 45° |
| NavigatorLemmas.TourStart | opengldeneme/Main.cpp:187-193 | starting a tour enters stage 0: seeking exhibit 0 with nothing scanned |
| NavigatorLemmas.TourArrival | opengldeneme/Main.cpp:141-158 | arriving in stage k enters stage k+1: exhibit k is scanned and shown, then the next exhibit is sought, or home after the last one |
| NavigatorLemmas.TourStep | opengldeneme/Main.cpp:110-169 | any single update keeps a tour in its stage or advances it by exactly one |
| NavigatorLemmas.TourProgress | opengldeneme/Main.cpp:151-158 | along any run of updates a tour only moves forward through its stages, so the scanned exhibits are always a prefix of the registry |
| NavigatorLemmas.TourArrivals | opengldeneme/Main.cpp:151-158 | m arrivals from stage k reach stage k+m |
| NavigatorLemmas.TourCompletes | opengldeneme/Main.cpp:136-158 | N+1 arrivals after a start finish the tour: Idle, auto mode off, every exhibit scanned, the popup showing the last one |
| NavigatorLemmas.EmptyRegistryTourIsInert | opengldeneme/Main.cpp:117-124 | on an empty registry a started tour targets 0, which the update treats as invalid and ignores |
| NavigatorLemmas.ManualStep | opengldeneme/Main.cpp:141-161 | each update after a manual selection keeps the robot either seeking the exhibit, with its flag clear, or idle with it scanned and shown |
| NavigatorLemmas.ManualRunFrom | opengldeneme/Main.cpp:141-161 | the manual phase is kept along any run of updates |
| NavigatorLemmas.ManualRun | opengldeneme/Main.cpp:201-208 | after selecting i, every later state is either still seeking i with its flag clear or idle with i scanned and shown; no other exhibit's flag changes |
| NavigatorLemmas.ManualScanIsFinal | opengldeneme/Main.cpp:111 | once the selected exhibit is scanned, any further run of updates leaves the state unchanged |
| NavigatorLemmas.ManualScanAtMostOnce | opengldeneme/Main.cpp:143-161 | after selecting i, if some prefix of a run has scanned i then the whole run ends in that same state: i is scanned at most once and never cleared again |
| NavigatorLemmas.ManualArrival | opengldeneme/Main.cpp:143-161 | arriving after selecting i scans i, shows it, raises the arm to 45° and leaves the robot idle with auto mode off |
| NavigatorLemmas.SingleClickSelects | opengldeneme/Main.cpp:201-208 | pressing only the button of exhibit i is exactly the selection of i |
| NavigatorLemmas.StartButton | opengldeneme/Main.cpp:187-193 | start pressed alone is exactly the start command |
| NavigatorLemmas.CloseButton | opengldeneme/Main.cpp:223-230 | close pressed alone clears the popup when it is displayed and otherwise changes nothing |
| NavigatorLemmas.StopButton | opengldeneme/Main.cpp:194-198 | stop pressed alone is exactly the stop command, whatever the robot was doing |
| Simulation.Robot.constructor | opengldeneme/Main.cpp:96-107 | the robot's fields equal the start-up robot |
| Simulation.Museum.constructor | opengldeneme/Main.cpp:285-290 | the scene equals the start-up scene and satisfies the invariant |
| Simulation.Museum.MoveRobot | opengldeneme/Main.cpp:110-169 | the field-by-field update yields exactly the per-frame update of the old state and keeps the invariant |
| Simulation.Museum.Update | opengldeneme/Main.cpp:307-310 | the guarded call yields exactly the guarded update and keeps the invariant |
| Simulation.Museum.StartTour | opengldeneme/Main.cpp:187-193 | the flag-clearing loop and assignments yield exactly the start command's state |
| Simulation.Museum.StopRobot | opengldeneme/Main.cpp:194-198 | only the robot changes, and it then equals the stop command's state |
| Simulation.Museum.SelectExhibit | opengldeneme/Main.cpp:202-208 | the assignments yield exactly the selection of i |
| Simulation.Museum.PopupVisible | opengldeneme/Main.cpp:223 | returns the popup test of the current state; under the invariant, whether the popup index is set |
| Simulation.Museum.ClosePopup | opengldeneme/Main.cpp:228-230 | only the popup index changes, and it is cleared |
| Simulation.Museum.SelectButtons | opengldeneme/Main.cpp:201-209 | the loop over the exhibit buttons yields exactly the state of the buttons processed in registry order |
| Simulation.Museum.ControlPanel | opengldeneme/Main.cpp:186-232 | start, stop, the loop over the exhibit buttons and close yield exactly the panel's state |
| Simulation.Museum.Frame | opengldeneme/Main.cpp:300-379 | one pass of the main loop yields exactly the frame function's state and keeps the invariant |

## Notes on the source

- The tour ends when the incremented index reaches the exhibit count
  (`>=`, Main.cpp:153).
- The approach point is the exhibit's position minus 1.5 along world z
  (Main.cpp:119).
- The arm swings back based on the distance measured before the frame's
  transition (Main.cpp:127, 165). On an arrival frame that distance is at most
  0.1, so the 45° pose always survives that frame.
- Returning home clears `autoMode` only on arrival. During the last leg,
  auto mode is still on (Main.cpp:151-156).

The invariant `Valid` holds in every reachable state. One of its clauses is
that a set popup index always names a scanned exhibit. So the `scanned` test
in the popup condition (Main.cpp:223) never decides anything
(`PopupVisible`). `Valid` requires a non-empty registry. On an empty registry,
"start tour" would set target 0, which the update treats as invalid
(`EmptyRegistryTourIsInert`).

## Left out

- The trigonometry and square roots: `glm::normalize`, `glm::distance` and
  `atan2` are uninterpreted `Kinematics` parameters. Height preservation
  assumes that normalising a non-zero vector keeps a zero y component
  (`KeepsGroundPlane`) and that a positive distance separates two points
  (`DistanceSeparates`).
- Float rounding: every quantity is an exact `real`, and the constants are
  decimal approximations of the single-precision values.
- Convergence over time, such as "the robot eventually reaches its target"
  or "reaches within 0.1 of home". Both depend on float normalisation and
  step sizes. The tour and selection lemmas instead count arrival frames, or
  hold for any run.
- The debug arm slider (Main.cpp:211), the lighting controls and the
  spotlight toggle (Main.cpp:180-184). These are interface widgets. The
  arm bound `0 <= armAngle` of `Valid` is proved for the navigator and the
  commands only. The slider does not clamp typed-in values, so it can set
  the arm outside that bound.
- Spotlight position and direction (Main.cpp:312-315): trigonometry over the
  robot pose, with no stored state.
- Shader uniforms, matrix composition and draw calls (Main.cpp:318-371), the
  floor and the meshes. The `Mesh*` fields of exhibits and robot are not
  modelled.
- Window, context and loader setup, input callbacks, the camera, the
  clear/swap/poll calls, and frame timing (Main.cpp:239-305, 377-454). The
  elapsed time `dt` is a parameter.
- Console output (Main.cpp:139, 144, 156).
- `Mesh.cpp`, `Mesh.h` and `CubeVertices.h`: GPU buffer wrappers and static
  vertex data.
- The interface's button presses are the `ControlInput` parameter. ImGui
  reports at most one pressed button per frame, but the model allows any
  combination.
