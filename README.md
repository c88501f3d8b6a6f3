# XTDrone multirotor communication bridge: setpoint arbitration and flight-mode state machine

This project models the `Communication` class of XTDrone's multirotor bridge
(`communication/1.8/multirotor_communication.py`) with its ROS plumbing removed. The class
turns six kinds of motion command into a single mavros `PositionTarget` setpoint, which it
keeps in `target_motion`:

- a pose, velocity or acceleration command;
- expressed in the body frame (FLU) or the world frame (ENU).

It also runs a small state machine driven by text commands: `ARM`, `DISARM`, mission tags
and flight-mode names. A latch makes `HOVER` a local mode. Each loop tick checks for a
landed vehicle: in `LAND` mode below 0.15 m it sends a disarm request and, on a truthy
answer, marks the mode `DISARMED`. It leaves `arm_state` as it was, and the code's `is`
test may keep the check from ever firing (see below).

Files:

- `messages.dfy` (module `Messages`): the message fields the bridge uses. It also holds the
  mavros `PositionTarget.IGNORE_*` bits and the three MAVLink `MAV_FRAME` codes the bridge
  uses (1 `LOCAL_NED`, 8 `BODY_NED`, 9 `BODY_OFFSET_NED`). `type_mask` is a `uint16`, so
  it is modelled as `bv16`.
- `setpoint.dfy` (module `Setpoint`): `construct_target` and the meaning of the masks it
  writes.
- `flight_state.dfy` (module `FlightState`): the object's fields as a value `State`. Every
  callback, the dispatcher, the mode switch, `hover`, the landing check of the loop and
  `takeoff_detection` are pure step functions on it. A `Step` holds the new state, the
  autopilot requests issued, and whether a Python exception ended the step.
- `communication.dfy` (module `MultirotorCommunication`): the class `Communication`. Its
  fields are updated in place by methods that mirror the Python statements. Each method
  that changes the state-machine fields is proved to perform the corresponding step. Each
  of those except `Hover` is also proved to keep the invariant `Valid`. `Hover` runs inside
  the mode switch, between setting the latch and resetting the kind, so it needs only the
  setpoint part of the invariant, and it restores `Valid`. `Arm` and `Disarm` touch only the
  request log. `TakeoffDetection` changes nothing. `Valid` says the following. Before the
  first motion command sets a frame, the setpoint is the default record, whose mask is 0
  and ignores nothing. From that command on, the setpoint carries the current frame and
  has exactly one active control group. While the hover latch is set, the motion kind is
  position.
- `properties.dfy` (module `Properties`): properties that span several steps.
- `wrappers.dfy` (module `Wrappers`): `Option` and `Result`.

The autopilot services are modelled as follows:

- The answers of `armService` and `flightModeService` are boolean parameters. Each boolean
  is the truth value of the response object, which the code tests with `if`. It is not the
  response's `success` or `mode_sent` field. The contracts hold for either value.
- With rospy, a call that returns yields a generated response message, which defines no
  truth value of its own, so every returned response is truthy. On that reading, no
  returned response reaches the `false` branches: a negative arming answer still sets
  `arm_state` to true, a negative set-mode answer still clears the hover latch, and a
  negative landing disarm answer still marks the mode `DISARMED`. A failed call raises
  instead, and that is not modelled (see "## Left out").
- The requests are recorded in order in `serviceLog` (the methods) or in `Step.calls` (the
  step functions). This lets "no service is called" be stated exactly.

Python exceptions are modelled as `Outcome.Raised`. The assignments made before the
exception persist. Three exceptions are modelled:

- Reading `local_pose` while it is still `None` raises in three places: `hover`, the
  landing check of the loop when the mode is `LAND`, and `takeoff_detection`.
- `construct_target` reads `coordinate_frame`, which `__init__` never assigns. It is
  therefore an `Option`. It stays `None` until a pose command arrives, or a velocity or
  acceleration command arrives while the hover latch is clear. A velocity or acceleration
  command dropped by the latch leaves it unset, and so does every text command, HOVER
  included.
- The `DISARM` branch assigns to the undefined name `dself`. Python evaluates the right-hand
  side first, so the disarm request is sent, and then a `NameError` is raised.

Behaviour modelled as the code is written, including its quirks:

- `flight_mode` is assigned before the mode switch is attempted. A mode whose set-mode answer
  is falsy still keeps the new name, so sending the same name again is a no-op and cannot retry the switch
  (`RepeatedModeIsNoop`).
- No disarm path clears `arm_state`. `DISARM` fails at `dself`, and the loop's auto-disarm
  sets only `flight_mode`.
- `ARM` always writes `arm_state`: it becomes the truth value of the arming answer, so a
  falsy answer would make an armed vehicle read as disarmed. Because returned responses
  are truthy, `ARM` in practice sets `arm_state` to true even when the autopilot declines
  (`FlightState.CmdCallback`).
- The ENU acceleration callback takes all three acceleration axes from `linear.x`. The FLU
  callback copies the three axes as they are.
- Pose callbacks keep `motion_type`. The mask of a pose setpoint is whatever the previous
  command kind selected.
- A repeated mission tag is not recorded again. It falls through to the mode branch and is
  sent to the set-mode service as a mode name.
- `HOVER` before any motion command sets the latch and resets `motion_type`, then raises.
  Without a pose, the read of `local_pose` raises first. With a pose, the read of the
  unset frame raises. Either way the default setpoint remains.
- The call that would publish the setpoint is commented out (line 72), and
  `target_motion_pub` is never used. So `target_motion` is computed but never sent to the
  autopilot.
- The loop tests `self.flight_mode is "LAND"` with `is`, an identity test. The model reads
  it as string equality. With strings received over ROS the identity test is usually
  false, so the auto-disarm may never fire in practice.

## Model

| member | source | states |
|---|---|---|
| `Setpoint.ConstructTarget` | communication/1.8/multirotor_communication.py:99-131 | fails exactly when `coordinate_frame` was never assigned; otherwise the record carries that frame, the 11 numeric arguments verbatim and the mask of `motion_type`, and never sets IGNORE_YAW_RATE or the FORCE flag |
| `Setpoint.TypeMaskIgnores` | communication/1.8/multirotor_communication.py:118-129 | for motion kinds 0, 1, 2 a field is ignored iff it is the absolute yaw or belongs to one of the two motion groups other than the kind's own |
| `Setpoint.TypeMaskIgnoredSets` | communication/1.8/multirotor_communication.py:118-129 | kind 0 ignores exactly {VX,VY,VZ,AFX,AFY,AFZ,YAW}, kind 1 exactly {PX,PY,PZ,AFX,AFY,AFZ,YAW}, kind 2 exactly {PX,PY,PZ,VX,VY,VZ,YAW} |
| `Setpoint.YawRateKeptForceFlagClear` | communication/1.8/multirotor_communication.py:118-129 | no mask written, for any `motion_type`, sets IGNORE_YAW_RATE or the FORCE flag |
| `Setpoint.SingleGroupMaskMeaning` | communication/1.8/multirotor_communication.py:118-129 | a mask of one of the three kinds leaves exactly one of position, velocity, acceleration active and ignores the other two wholly |
| `FlightState.Init` | communication/1.8/multirotor_communication.py:19-34 | initial fields: no frame, no mode, no mission, no pose, latch clear, disarmed; the invariant holds |
| `FlightState.PoseUpdate` | communication/1.8/multirotor_communication.py:90-91 | the latest pose replaces the stored one and nothing else changes |
| `FlightState.OnCommand` | communication/1.8/multirotor_communication.py:133-163 | pose commands set frame 9 (FLU) or 1 (ENU) and rebuild the target from the position whatever the latch, keeping `motion_type`; with the latch set velocity/acceleration commands change nothing; otherwise they set frame 8 (FLU) or 1 (ENU), kind 1 or 2, the target's velocity or acceleration and yaw rate, ENU acceleration being (x, x, x); the invariant is preserved |
| `FlightState.Hover` | communication/1.8/multirotor_communication.py:209-211 | kind becomes 0; with a pose and a frame the target is the pose position with the position mask; a missing pose or frame raises and keeps the old target; no request |
| `FlightState.FlightModeSwitch` | communication/1.8/multirotor_communication.py:213-224 | HOVER sets the latch and captures hover without any request; any other name sends exactly one set-mode request, a truthy answer clears the latch, a falsy one changes nothing; the mode keeps the new name |
| `FlightState.CmdCallback` | communication/1.8/multirotor_communication.py:165-183 | empty text is a no-op; ARM sends one arm request and `arm_state` becomes its answer; DISARM sends one disarm request, raises and assigns nothing; a new mission tag is stored without requests; the current mode name is a no-op; a set-mode request happens only for a new non-HOVER mode name; a new mode name is stored before the switch |
| `FlightState.LandingCheck` | communication/1.8/multirotor_communication.py:74-76 | outside LAND nothing happens; in LAND without pose it raises; below 0.15 it sends one disarm request and moves to DISARMED only on a truthy answer; at or above 0.15 nothing happens; `arm_state` is never written |
| `FlightState.TakeoffDetection` | communication/1.8/multirotor_communication.py:226-230 | raises exactly when there is no pose; otherwise true iff altitude above 0.3 and armed |
| `MultirotorCommunication.Communication.constructor` | communication/1.8/multirotor_communication.py:19-34 | the fields equal `Init()`, no request has been sent |
| `MultirotorCommunication.Communication.LocalPoseCallback` | communication/1.8/multirotor_communication.py:90-91 | performs `PoseUpdate`; no request |
| `MultirotorCommunication.Communication.CmdPoseFluCallback` | communication/1.8/multirotor_communication.py:133-135 | performs `OnCommand` for a FLU pose; no request |
| `MultirotorCommunication.Communication.CmdPoseEnuCallback` | communication/1.8/multirotor_communication.py:137-139 | performs `OnCommand` for an ENU pose; no request |
| `MultirotorCommunication.Communication.CmdVelFluCallback` | communication/1.8/multirotor_communication.py:141-145 | performs `OnCommand` for a FLU velocity; with the latch set nothing changes |
| `MultirotorCommunication.Communication.CmdVelEnuCallback` | communication/1.8/multirotor_communication.py:147-151 | performs `OnCommand` for an ENU velocity; with the latch set nothing changes |
| `MultirotorCommunication.Communication.CmdAccelFluCallback` | communication/1.8/multirotor_communication.py:153-157 | performs `OnCommand` for a FLU acceleration; with the latch set nothing changes |
| `MultirotorCommunication.Communication.CmdAccelEnuCallback` | communication/1.8/multirotor_communication.py:159-163 | performs `OnCommand` for an ENU acceleration; with the latch clear the target acceleration is (linear.x, linear.x, linear.x) |
| `MultirotorCommunication.Communication.Arm` | communication/1.8/multirotor_communication.py:195-200 | sends one arm request and returns its answer |
| `MultirotorCommunication.Communication.Disarm` | communication/1.8/multirotor_communication.py:202-207 | sends one disarm request and returns its answer |
| `MultirotorCommunication.Communication.Hover` | communication/1.8/multirotor_communication.py:209-211 | performs the `Hover` step in place |
| `MultirotorCommunication.Communication.FlightModeSwitch` | communication/1.8/multirotor_communication.py:213-224 | performs the `FlightModeSwitch` step in place and logs its request |
| `MultirotorCommunication.Communication.CmdCallback` | communication/1.8/multirotor_communication.py:165-183 | performs the `CmdCallback` step in place and logs its requests in order |
| `MultirotorCommunication.Communication.LandingCheck` | communication/1.8/multirotor_communication.py:74-76 | performs the `LandingCheck` step in place and logs its request |
| `MultirotorCommunication.Communication.TakeoffDetection` | communication/1.8/multirotor_communication.py:226-230 | changes nothing; raises exactly without a pose, else true iff altitude above 0.3 and armed |
| `Properties.ReplayTouchesOnlySetpoint` | communication/1.8/multirotor_communication.py:133-163 | any stream of motion commands changes only frame, motion kind and target, and keeps the invariant |
| `Properties.HoverLatchDropsMotion` | communication/1.8/multirotor_communication.py:141-163 | with the latch set, any stream of velocity and acceleration commands leaves the state unchanged |
| `Properties.HoverLatchKeepsMotionKind` | communication/1.8/multirotor_communication.py:133-163 | with the latch set, no command stream changes the latch or the motion kind, and a final pose command yields that pose with the mask of the held kind, which in a valid state is the position mask |
| `Properties.FlyOutsideLandIsSilent` | communication/1.8/multirotor_communication.py:74-76 | outside LAND, any number of loop ticks sends no request and keeps the mode |
| `Properties.LandingDisarmsOnce` | communication/1.8/multirotor_communication.py:74-76 | in LAND with truthy disarm answers, the ticks before the first altitude below 0.15 send nothing and stay in LAND, that tick sends the one disarm request of the run, and the mode ends DISARMED with `arm_state` untouched |
| `Properties.ArmStateSurvivesFly` | communication/1.8/multirotor_communication.py:74-76 | loop ticks never change `arm_state` |
| `Properties.LandingRetriesOnFalsyAnswer` | communication/1.8/multirotor_communication.py:74-76 | in LAND with falsy disarm answers, the run sends only disarm requests, as many as there are ticks below 0.15; the mode stays LAND |
| `Properties.LandingScenario` | communication/1.8/multirotor_communication.py:74-76 | altitudes 0.5, 0.2, 0.1 in LAND give one disarm request and DISARMED |
| `Properties.RepeatedModeIsNoop` | communication/1.8/multirotor_communication.py:181-183 | after a new mode name, whatever the set-mode answer was, sending it again changes nothing and sends nothing |
| `Properties.LatchReleaseIff` | communication/1.8/multirotor_communication.py:213-221 | with the latch set, a text command clears it iff it is a new non-HOVER mode name and the set-mode answer is truthy |
| `Properties.RepeatedMissionTagRequestsMode` | communication/1.8/multirotor_communication.py:177-183 | a mission tag equal to the stored one is sent to the set-mode service as a mode name and becomes the flight mode |
| `Properties.MissionTagShape` | communication/1.8/multirotor_communication.py:177 | a mission tag is exactly "mission" followed by one character |
| `Properties.TakeoffExcludesLanding` | communication/1.8/multirotor_communication.py:226-230 | when takeoff is detected the landing check does nothing |
| `Properties.HoverBeforeFirstCommandRaises` | communication/1.8/multirotor_communication.py:209-216 | after a pose message, HOVER before any motion command raises on the unset frame after setting the latch and the mode; the default setpoint remains and no request is sent |
| `Properties.VelocityFromInitScenario` | communication/1.8/multirotor_communication.py:147-151 | from the initial state an ENU velocity (1, 0, 0) with yaw rate 0.2 gives frame 1, that velocity and yaw rate, and a mask ignoring exactly position, acceleration and yaw |

## Left out

- ROS subscribers, publishers and service proxies, `rospy.init_node` and the 100 Hz rate loop: these are transport and timing. Each callback and each loop tick is one atomic step.
- The Gazebo `get_model_state` query and the odometry republish in the loop: a foreign service call. Its error branch also refers to an undefined `e`.
- `imu_callback`, `q2yaw` and `current_heading`: the conversion belongs to the `pyquaternion` library, which is not part of this model.
- `mavros_state_callback`: it writes a field nothing reads.
- The fields `imu`, `current_state`, `global_target`, `offboard_state`, `transition_state` and `transition`: none of the modelled operations reads or writes them.
- Concurrency between ROS dispatch threads and the main loop, and `print` diagnostics.
- Text commands are modelled as sequences of characters. The code runs under Python 2,
  where `msg.data` is a byte string and `msg.data[:-1]` drops the last byte. A text made of
  "mission" and one non-ASCII character is therefore classified differently: the model
  stores it as a mission tag, while the code sends it to the set-mode service as a mode
  name. `IsMissionTag` and `MissionTagShape` describe the character reading only.
- Floating point: coordinates and altitudes are `real`. NaN, rounding and the message's float32 fields are not modelled.
- Message headers, and the orientation of the commanded and local poses: no modelled operation reads them.
- Exceptions raised by the service proxies themselves (`rospy.ServiceException`) are not modelled. A service answer is the boolean truth value of the returned response; the model does not fix that value to true, although every response a rospy call returns is truthy.
- An exception raised in the main loop would end `start`. The model reports it as the tick's outcome and does not model the loop stopping.
- MultirotorCommunication.Communication.FlightModeSwitch: does not return the `None`/`True`/`False` value of the Python method, because its only caller discards it.
