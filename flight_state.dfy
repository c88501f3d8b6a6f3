/**
 * The bridge's state machine as pure functions over a snapshot of the
 * `Communication` object's fields. Each function is one atomic step: a command
 * callback, the text-command dispatcher, the mode switch, the hover capture or the
 * landing check of one loop tick. The class in communication.dfy is proved to
 * perform exactly these steps.
 */
module FlightState {
  import opened Wrappers
  import opened Messages
  import opened Setpoint

  const HOVER_MODE: string := "HOVER"
  const LAND_MODE: string := "LAND"
  const DISARMED_MARKER: string := "DISARMED"
  const ARM_COMMAND: string := "ARM"
  const DISARM_COMMAND: string := "DISARM"
  const MISSION_PREFIX: string := "mission"

  /** Below this altitude a vehicle in LAND mode is considered on the ground. */
  const LANDED_ALTITUDE: real := 0.15
  /** Above this altitude an armed vehicle is considered airborne. */
  const TAKEOFF_ALTITUDE: real := 0.3

  /** The Python exceptions a step can raise; a raising step keeps the assignments made before it. */
  datatype Fault =
    | CoordinateFrameUnset   // AttributeError: `coordinate_frame` was never assigned
    | LocalPoseUnset         // AttributeError: `local_pose` is still None
    | UndefinedDself         // NameError: the DISARM branch assigns to `dself`

  datatype Outcome = Completed | Raised(fault: Fault)

  /** A request sent to the autopilot: mavros `cmd/arming` or `set_mode`. */
  datatype ServiceCall = Arming(value: bool) | SetMode(customMode: string)

  /** The fields the state machine reads and writes. */
  datatype State = State(
    hoverFlag: int,
    motionType: int,
    coordinateFrame: Option<int>,
    targetMotion: PositionTarget,
    flightMode: Option<string>,
    mission: Option<string>,
    armState: bool,
    localPose: Option<Vec3>)

  /** The new state, the service requests issued in order, and whether an exception ended the step. */
  datatype Step = Step(state: State, calls: seq<ServiceCall>, outcome: Outcome)

  /** The six motion-command channels. */
  datatype MotionCommand =
    | PoseFlu(pose: Pose)
    | PoseEnu(pose: Pose)
    | VelFlu(twist: Twist)
    | VelEnu(twist: Twist)
    | AccelFlu(twist: Twist)
    | AccelEnu(twist: Twist)

  predicate IsVelocityOrAcceleration(c: MotionCommand) {
    c.VelFlu? || c.VelEnu? || c.AccelFlu? || c.AccelEnu?
  }

  /**
   * The invariant on the flags and the setpoint: flags take their two or three values;
   * before any command the target is the default record, afterwards it carries the
   * current frame (one of the three codes the callbacks use) and a mask with exactly one
   * control group active.
   */
  predicate SetpointValid(s: State) {
    (s.hoverFlag == 0 || s.hoverFlag == 1) &&
    POSITION_MOTION <= s.motionType <= ACCELERATION_MOTION &&
    (s.coordinateFrame.None? ==> s.targetMotion == DefaultTarget) &&
    (s.coordinateFrame.Some? ==>
      (s.coordinateFrame.value == FRAME_LOCAL_NED || s.coordinateFrame.value == FRAME_BODY_NED ||
       s.coordinateFrame.value == FRAME_BODY_OFFSET_NED) &&
      s.targetMotion.coordinateFrame == s.coordinateFrame.value &&
      SingleGroupMask(s.targetMotion.typeMask))
  }

  /**
   * The object invariant: the setpoint invariant, and while the hover latch is set the
   * motion kind is position. Only inside `flight_mode_switch`, between setting the latch
   * and `hover` resetting the kind, does the second part lapse.
   */
  predicate Valid(s: State) {
    SetpointValid(s) && (s.hoverFlag == 1 ==> s.motionType == POSITION_MOTION)
  }

  /** The fields as `__init__` leaves them; `coordinate_frame` is not among them. */
  function Init(): (s: State)
    ensures Valid(s)
    ensures s.coordinateFrame.None? && s.flightMode.None? && s.mission.None? && s.localPose.None?
    ensures s.hoverFlag == 0 && !s.armState
  {
    State(0, POSITION_MOTION, None, DefaultTarget, None, None, false, None)
  }

  /** `local_pose_callback`: the latest pose replaces the previous one. */
  function PoseUpdate(s: State, position: Vec3): (r: State)
    ensures r.localPose == Some(position)
    ensures r.(localPose := s.localPose) == s
    ensures Valid(s) ==> Valid(r)
  {
    s.(localPose := Some(position))
  }

  /** Frame code and target arguments of a motion command. */
  function FrameOf(c: MotionCommand): int {
    match c
    case PoseFlu(_) => FRAME_BODY_OFFSET_NED
    case PoseEnu(_) => FRAME_LOCAL_NED
    case VelFlu(_) | AccelFlu(_) => FRAME_BODY_NED
    case VelEnu(_) | AccelEnu(_) => FRAME_LOCAL_NED
  }

  /**
   * The six `cmd_*_callback`s. Pose commands always replace the target and keep
   * `motion_type`; velocity and acceleration commands are dropped while the hover
   * latch is set and otherwise also select their motion kind.
   */
  function OnCommand(s: State, c: MotionCommand): (r: State)
    ensures c.PoseFlu? || c.PoseEnu? ==>
      r.coordinateFrame == Some(if c.PoseFlu? then FRAME_BODY_OFFSET_NED else FRAME_LOCAL_NED) &&
      r.motionType == s.motionType &&
      r.targetMotion == PositionTarget(r.coordinateFrame.value, TypeMask(s.motionType),
                                       c.pose.position, Zero, Zero, 0.0, 0.0) &&
      r.(coordinateFrame := s.coordinateFrame, targetMotion := s.targetMotion) == s
    ensures IsVelocityOrAcceleration(c) && s.hoverFlag != 0 ==> r == s
    ensures IsVelocityOrAcceleration(c) && s.hoverFlag == 0 ==>
      r.coordinateFrame == Some(if c.VelFlu? || c.AccelFlu? then FRAME_BODY_NED else FRAME_LOCAL_NED) &&
      r.motionType == (if c.VelFlu? || c.VelEnu? then VELOCITY_MOTION else ACCELERATION_MOTION) &&
      r.targetMotion.coordinateFrame == r.coordinateFrame.value &&
      r.targetMotion.typeMask == TypeMask(r.motionType) &&
      r.targetMotion.position == Zero && r.targetMotion.yaw == 0.0 &&
      r.targetMotion.yawRate == c.twist.angular.z &&
      r.(coordinateFrame := s.coordinateFrame, motionType := s.motionType, targetMotion := s.targetMotion) == s
    ensures (c.VelFlu? || c.VelEnu?) && s.hoverFlag == 0 ==>
      r.targetMotion.velocity == c.twist.linear && r.targetMotion.accelerationOrForce == Zero
    ensures c.AccelFlu? && s.hoverFlag == 0 ==>
      r.targetMotion.velocity == Zero && r.targetMotion.accelerationOrForce == c.twist.linear
    ensures c.AccelEnu? && s.hoverFlag == 0 ==>
      r.targetMotion.velocity == Zero &&
      r.targetMotion.accelerationOrForce == Vec3(c.twist.linear.x, c.twist.linear.x, c.twist.linear.x)
    ensures Valid(s) ==> Valid(r)
  {
    var frame := Some(FrameOf(c));
    match c
    case PoseFlu(msg) =>
      var t := ConstructTarget(frame, s.motionType, msg.position, Zero, Zero, 0.0, 0.0);
      s.(coordinateFrame := frame, targetMotion := t.value)
    case PoseEnu(msg) =>
      var t := ConstructTarget(frame, s.motionType, msg.position, Zero, Zero, 0.0, 0.0);
      s.(coordinateFrame := frame, targetMotion := t.value)
    case VelFlu(msg) =>
      if s.hoverFlag != 0 then s
      else
        var t := ConstructTarget(frame, VELOCITY_MOTION, Zero, msg.linear, Zero, 0.0, msg.angular.z);
        s.(coordinateFrame := frame, motionType := VELOCITY_MOTION, targetMotion := t.value)
    case VelEnu(msg) =>
      if s.hoverFlag != 0 then s
      else
        var t := ConstructTarget(frame, VELOCITY_MOTION, Zero, msg.linear, Zero, 0.0, msg.angular.z);
        s.(coordinateFrame := frame, motionType := VELOCITY_MOTION, targetMotion := t.value)
    case AccelFlu(msg) =>
      if s.hoverFlag != 0 then s
      else
        var t := ConstructTarget(frame, ACCELERATION_MOTION, Zero, Zero, msg.linear, 0.0, msg.angular.z);
        s.(coordinateFrame := frame, motionType := ACCELERATION_MOTION, targetMotion := t.value)
    case AccelEnu(msg) =>
      if s.hoverFlag != 0 then s
      else
        // All three acceleration axes come from linear.x.
        var a := Vec3(msg.linear.x, msg.linear.x, msg.linear.x);
        var t := ConstructTarget(frame, ACCELERATION_MOTION, Zero, Zero, a, 0.0, msg.angular.z);
        s.(coordinateFrame := frame, motionType := ACCELERATION_MOTION, targetMotion := t.value)
  }

  /** `msg.data[:-1] == "mission"`: the text with its last character dropped is "mission". */
  predicate IsMissionTag(data: string) {
    |data| > 0 && data[..|data| - 1] == MISSION_PREFIX
  }

  /** A mission tag differing from the stored one. */
  predicate IsNewMissionTag(s: State, data: string) {
    IsMissionTag(data) && s.mission != Some(data)
  }

  /** A text the dispatcher treats as a mode name: not empty, not ARM/DISARM, not a new mission tag. */
  predicate IsModeText(s: State, data: string) {
    data != "" && data != ARM_COMMAND && data != DISARM_COMMAND && !IsNewMissionTag(s, data)
  }

  /**
   * `hover`: the motion kind becomes position, then the target is rebuilt at the
   * current local position. Reading a missing pose or an unset frame raises and leaves
   * the target as it was.
   */
  function Hover(s: State): (r: Step)
    ensures r.calls == []
    ensures r.state.motionType == POSITION_MOTION
    ensures r.state.(motionType := s.motionType, targetMotion := s.targetMotion) == s
    ensures s.localPose.None? ==> r.outcome == Raised(LocalPoseUnset) && r.state.targetMotion == s.targetMotion
    ensures s.localPose.Some? && s.coordinateFrame.None? ==>
      r.outcome == Raised(CoordinateFrameUnset) && r.state.targetMotion == s.targetMotion
    ensures s.localPose.Some? && s.coordinateFrame.Some? ==>
      r.outcome == Completed &&
      r.state.targetMotion == PositionTarget(s.coordinateFrame.value, TypeMask(POSITION_MOTION),
                                             s.localPose.value, Zero, Zero, 0.0, 0.0)
    ensures SetpointValid(s) ==> Valid(r.state)
  {
    var s1 := s.(motionType := POSITION_MOTION);
    if s1.localPose.None? then Step(s1, [], Raised(LocalPoseUnset))
    else
      match ConstructTarget(s1.coordinateFrame, POSITION_MOTION, s1.localPose.value, Zero, Zero, 0.0, 0.0)
      case None => Step(s1, [], Raised(CoordinateFrameUnset))
      case Some(t) => Step(s1.(targetMotion := t), [], Completed)
  }

  /**
   * `flight_mode_switch`, entered after `flight_mode` has been assigned. HOVER is handled
   * locally by latching hover; any other name goes to the set-mode service, and a truthy
   * answer clears the latch. `flight_mode` keeps the new name either way.
   */
  function FlightModeSwitch(s: State, modeAnswer: bool): (r: Step)
    requires s.flightMode.Some?
    ensures r.state.flightMode == s.flightMode
    ensures s.flightMode == Some(HOVER_MODE) ==>
      r.calls == [] && r.state.hoverFlag == 1 && r == Hover(s.(hoverFlag := 1))
    ensures s.flightMode != Some(HOVER_MODE) ==>
      r.calls == [SetMode(s.flightMode.value)] && r.outcome == Completed &&
      r.state == (if modeAnswer then s.(hoverFlag := 0) else s)
    ensures Valid(s) ==> Valid(r.state)
  {
    if s.flightMode == Some(HOVER_MODE) then
      Hover(s.(hoverFlag := 1))
    else
      Step(if modeAnswer then s.(hoverFlag := 0) else s, [SetMode(s.flightMode.value)], Completed)
  }

  /**
   * `cmd_callback`: the text-command dispatcher. `armResult` and `modeAnswer` are the truth
   * values of what the arming and set-mode services answer if they are called.
   */
  function CmdCallback(s: State, data: string, armResult: bool, modeAnswer: bool): (r: Step)
    // The empty command is a no-op.
    ensures data == "" ==> r == Step(s, [], Completed)
    // ARM: one arming request; arm_state is exactly its answer.
    ensures data == ARM_COMMAND ==>
      r.calls == [Arming(true)] && r.outcome == Completed && r.state == s.(armState := armResult)
    // DISARM: one disarming request, then the NameError; nothing is assigned.
    ensures data == DISARM_COMMAND ==>
      r.calls == [Arming(false)] && r.outcome == Raised(UndefinedDself) && r.state == s
    // A new mission tag is recorded without any request.
    ensures data != ARM_COMMAND && data != DISARM_COMMAND && IsNewMissionTag(s, data) ==>
      r == Step(s.(mission := Some(data)), [], Completed)
    // Only a text naming a mode other than the current one and other than HOVER requests a mode.
    ensures (exists m :: SetMode(m) in r.calls) ==>
      IsModeText(s, data) && s.flightMode != Some(data) && data != HOVER_MODE && r.calls == [SetMode(data)]
    // Naming the current mode again is a no-op.
    ensures IsModeText(s, data) && s.flightMode == Some(data) ==> r == Step(s, [], Completed)
    // Naming another mode makes it the flight mode before the switch is attempted.
    ensures IsModeText(s, data) && s.flightMode != Some(data) ==>
      r == FlightModeSwitch(s.(flightMode := Some(data)), modeAnswer)
    ensures Valid(s) ==> Valid(r.state)
  {
    if data == "" then Step(s, [], Completed)
    else if data == ARM_COMMAND then Step(s.(armState := armResult), [Arming(true)], Completed)
    else if data == DISARM_COMMAND then Step(s, [Arming(false)], Raised(UndefinedDself))
    else if IsNewMissionTag(s, data) then Step(s.(mission := Some(data)), [], Completed)
    else if s.flightMode != Some(data) then FlightModeSwitch(s.(flightMode := Some(data)), modeAnswer)
    else Step(s, [], Completed)
  }

  /**
   * The landing check at the top of each loop tick: in LAND mode below the landed
   * altitude, disarm; only a truthy answer to the disarm request moves the mode to DISARMED. A missing pose
   * in LAND mode raises (and ends the loop).
   */
  function LandingCheck(s: State, disarmResult: bool): (r: Step)
    ensures s.flightMode != Some(LAND_MODE) ==> r == Step(s, [], Completed)
    ensures s.flightMode == Some(LAND_MODE) && s.localPose.None? ==> r == Step(s, [], Raised(LocalPoseUnset))
    ensures s.flightMode == Some(LAND_MODE) && s.localPose.Some? && s.localPose.value.z >= LANDED_ALTITUDE ==>
      r == Step(s, [], Completed)
    ensures s.flightMode == Some(LAND_MODE) && s.localPose.Some? && s.localPose.value.z < LANDED_ALTITUDE ==>
      r.calls == [Arming(false)] && r.outcome == Completed &&
      r.state == (if disarmResult then s.(flightMode := Some(DISARMED_MARKER)) else s)
    ensures r.state.armState == s.armState
    ensures Valid(s) ==> Valid(r.state)
  {
    if s.flightMode == Some(LAND_MODE) then
      if s.localPose.None? then Step(s, [], Raised(LocalPoseUnset))
      else if s.localPose.value.z < LANDED_ALTITUDE then
        Step(if disarmResult then s.(flightMode := Some(DISARMED_MARKER)) else s, [Arming(false)], Completed)
      else Step(s, [], Completed)
    else Step(s, [], Completed)
  }

  /** `takeoff_detection`: airborne iff above the takeoff altitude and armed; raises without a pose. */
  function TakeoffDetection(s: State): (r: Result<bool, Fault>)
    ensures s.localPose.None? <==> r == Err(LocalPoseUnset)
    ensures r.Ok? ==> (r.value <==> s.localPose.value.z > TAKEOFF_ALTITUDE && s.armState)
  {
    if s.localPose.None? then Err(LocalPoseUnset)
    else Ok(s.localPose.value.z > TAKEOFF_ALTITUDE && s.armState)
  }
}
