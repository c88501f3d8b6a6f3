/**
 * Properties of the bridge that span several steps: the hover latch over a stream of
 * motion commands, the landing check over a stream of loop ticks, and the behaviour
 * of repeated text commands.
 */
module Properties {
  import opened Wrappers
  import opened Messages
  import opened Setpoint
  import opened FlightState

  /** Motion commands delivered one after another. */
  function Replay(s: State, cmds: seq<MotionCommand>): State
    decreases |cmds|
  {
    if cmds == [] then s else Replay(OnCommand(s, cmds[0]), cmds[1..])
  }

  /** Motion commands only ever touch the frame, the motion kind and the target. */
  lemma {:induction false} ReplayTouchesOnlySetpoint(s: State, cmds: seq<MotionCommand>)
    ensures Replay(s, cmds).(coordinateFrame := s.coordinateFrame, motionType := s.motionType,
                             targetMotion := s.targetMotion) == s
    ensures Valid(s) ==> Valid(Replay(s, cmds))
    decreases |cmds|
  {
    if cmds != [] {
      ReplayTouchesOnlySetpoint(OnCommand(s, cmds[0]), cmds[1..]);
    }
  }

  /** While the hover latch is set, any stream of velocity and acceleration commands changes nothing. */
  lemma {:induction false} HoverLatchDropsMotion(s: State, cmds: seq<MotionCommand>)
    requires s.hoverFlag != 0
    requires forall i :: 0 <= i < |cmds| ==> IsVelocityOrAcceleration(cmds[i])
    ensures Replay(s, cmds) == s
    decreases |cmds|
  {
    if cmds != [] {
      HoverLatchDropsMotion(OnCommand(s, cmds[0]), cmds[1..]);
    }
  }

  /**
   * While the hover latch is set the motion kind never changes, so every pose command
   * accepted during hover is sent with the mask of that kind, which in a valid state is
   * the position mask.
   */
  lemma {:induction false} HoverLatchKeepsMotionKind(s: State, cmds: seq<MotionCommand>)
    requires s.hoverFlag != 0
    ensures Replay(s, cmds).motionType == s.motionType
    ensures Replay(s, cmds).hoverFlag == s.hoverFlag
    ensures cmds != [] && (cmds[|cmds| - 1].PoseFlu? || cmds[|cmds| - 1].PoseEnu?) ==>
      Replay(s, cmds).targetMotion.typeMask == TypeMask(s.motionType) &&
      Replay(s, cmds).targetMotion.position == cmds[|cmds| - 1].pose.position
    ensures Valid(s) && cmds != [] && (cmds[|cmds| - 1].PoseFlu? || cmds[|cmds| - 1].PoseEnu?) ==>
      Replay(s, cmds).targetMotion.typeMask == TypeMask(POSITION_MOTION)
    decreases |cmds|
  {
    if cmds != [] {
      var s1 := OnCommand(s, cmds[0]);
      HoverLatchKeepsMotionKind(s1, cmds[1..]);
      if |cmds| > 1 {
        assert cmds[1..][|cmds[1..]| - 1] == cmds[|cmds| - 1];
      }
    }
  }

  /** Loop ticks, each preceded by a local pose message; the disarm service answers `disarmAnswer`. */
  function Fly(s: State, poses: seq<Vec3>, disarmAnswer: bool): Step
    decreases |poses|
  {
    if poses == [] then Step(s, [], Completed)
    else
      var tick := LandingCheck(PoseUpdate(s, poses[0]), disarmAnswer);
      var rest := Fly(tick.state, poses[1..], disarmAnswer);
      Step(rest.state, tick.calls + rest.calls, rest.outcome)
  }

  /** Outside LAND mode the loop never calls a service nor changes the mode. */
  lemma {:induction false} FlyOutsideLandIsSilent(s: State, poses: seq<Vec3>, disarmAnswer: bool)
    requires s.flightMode != Some(LAND_MODE)
    ensures Fly(s, poses, disarmAnswer).calls == []
    ensures Fly(s, poses, disarmAnswer).state.flightMode == s.flightMode
    ensures Fly(s, poses, disarmAnswer).outcome == Completed
    decreases |poses|
  {
    if poses != [] {
      var tick := LandingCheck(PoseUpdate(s, poses[0]), disarmAnswer);
      FlyOutsideLandIsSilent(tick.state, poses[1..], disarmAnswer);
    }
  }

  /**
   * Landing: with a truthy answer to the disarm request, the loop requests disarming
   * exactly once, on tick k, the first with an altitude below the landed threshold: the
   * ticks before it send nothing and stay in LAND; tick k sends the request; the run ends
   * in DISARMED.
   */
  lemma {:induction false} LandingDisarmsOnce(s: State, poses: seq<Vec3>, k: nat)
    requires s.flightMode == Some(LAND_MODE)
    requires k < |poses| && poses[k].z < LANDED_ALTITUDE
    requires forall i :: 0 <= i < k ==> poses[i].z >= LANDED_ALTITUDE
    ensures Fly(s, poses[..k], true).calls == []
    ensures Fly(s, poses[..k], true).state.flightMode == Some(LAND_MODE)
    ensures Fly(s, poses[..k + 1], true).calls == [Arming(false)]
    ensures Fly(s, poses, true).calls == [Arming(false)]
    ensures Fly(s, poses, true).state.flightMode == Some(DISARMED_MARKER)
    ensures Fly(s, poses, true).state.armState == s.armState
    decreases k
  {
    var tick := LandingCheck(PoseUpdate(s, poses[0]), true);
    if k == 0 {
      assert poses[..1][1..] == [];
      FlyOutsideLandIsSilent(tick.state, poses[1..], true);
      ArmStateSurvivesFly(tick.state, poses[1..], true);
    } else {
      assert tick == Step(PoseUpdate(s, poses[0]), [], Completed);
      assert poses[..k][1..] == poses[1..][..k - 1];
      assert poses[..k + 1][1..] == poses[1..][..k];
      LandingDisarmsOnce(tick.state, poses[1..], k - 1);
    }
  }

  /** The loop never writes `arm_state`, even when its disarm request gets a truthy answer. */
  lemma {:induction false} ArmStateSurvivesFly(s: State, poses: seq<Vec3>, disarmAnswer: bool)
    ensures Fly(s, poses, disarmAnswer).state.armState == s.armState
    decreases |poses|
  {
    if poses != [] {
      var tick := LandingCheck(PoseUpdate(s, poses[0]), disarmAnswer);
      ArmStateSurvivesFly(tick.state, poses[1..], disarmAnswer);
    }
  }

  /** How many of the altitudes are below the landed threshold. */
  function CountLanded(poses: seq<Vec3>): nat
    decreases |poses|
  {
    if poses == [] then 0
    else (if poses[0].z < LANDED_ALTITUDE then 1 else 0) + CountLanded(poses[1..])
  }

  /**
   * Landing with a falsy answer to every disarm request: the mode stays LAND and the loop requests
   * disarming again on every tick below the threshold, and on no other.
   */
  lemma {:induction false} LandingRetriesOnFalsyAnswer(s: State, poses: seq<Vec3>)
    requires s.flightMode == Some(LAND_MODE)
    ensures |Fly(s, poses, false).calls| == CountLanded(poses)
    ensures forall i :: 0 <= i < |Fly(s, poses, false).calls| ==> Fly(s, poses, false).calls[i] == Arming(false)
    ensures Fly(s, poses, false).state.flightMode == Some(LAND_MODE)
    decreases |poses|
  {
    if poses != [] {
      var tick := LandingCheck(PoseUpdate(s, poses[0]), false);
      LandingRetriesOnFalsyAnswer(tick.state, poses[1..]);
    }
  }

  /** The altitude sequence 0.5, 0.2, 0.1 in LAND mode: one disarm request, then DISARMED. */
  lemma LandingScenario(s: State)
    requires s.flightMode == Some(LAND_MODE)
    ensures Fly(s, [Vec3(0.0, 0.0, 0.5), Vec3(0.0, 0.0, 0.2), Vec3(0.0, 0.0, 0.1)], true).calls == [Arming(false)]
    ensures Fly(s, [Vec3(0.0, 0.0, 0.5), Vec3(0.0, 0.0, 0.2), Vec3(0.0, 0.0, 0.1)], true).state.flightMode
            == Some(DISARMED_MARKER)
  {
    LandingDisarmsOnce(s, [Vec3(0.0, 0.0, 0.5), Vec3(0.0, 0.0, 0.2), Vec3(0.0, 0.0, 0.1)], 2);
  }

  /**
   * `flight_mode` takes the new name before the switch is attempted, so re-sending a mode
   * name is a no-op whatever the first attempt did: a mode change with a falsy answer (or a hover that
   * raised) cannot be retried by repeating the command.
   */
  lemma RepeatedModeIsNoop(s: State, data: string, armAnswer: bool, modeAnswer: bool, armAnswer2: bool, modeAnswer2: bool)
    requires IsModeText(s, data) && s.flightMode != Some(data)
    ensures CmdCallback(s, data, armAnswer, modeAnswer).state.flightMode == Some(data)
    ensures var s1 := CmdCallback(s, data, armAnswer, modeAnswer).state;
            CmdCallback(s1, data, armAnswer2, modeAnswer2) == Step(s1, [], Completed)
  {
  }

  /**
   * The hover latch is released by a text command exactly when it names a new mode other
   * than HOVER and the set-mode service's answer is truthy.
   */
  lemma LatchReleaseIff(s: State, data: string, armAnswer: bool, modeAnswer: bool)
    requires s.hoverFlag == 1
    ensures CmdCallback(s, data, armAnswer, modeAnswer).state.hoverFlag == 0 <==>
      IsModeText(s, data) && s.flightMode != Some(data) && data != HOVER_MODE && modeAnswer
  {
  }

  /** A repeated mission tag is not recorded again; it is sent to the set-mode service as a mode name. */
  lemma RepeatedMissionTagRequestsMode(s: State, tag: string, armAnswer: bool, modeAnswer: bool)
    requires IsMissionTag(tag) && s.mission == Some(tag) && s.flightMode != Some(tag)
    ensures CmdCallback(s, tag, armAnswer, modeAnswer).calls == [SetMode(tag)]
    ensures CmdCallback(s, tag, armAnswer, modeAnswer).state.flightMode == Some(tag)
  {
  }

  /** A mission tag is "mission" followed by exactly one character. */
  lemma MissionTagShape(data: string)
    ensures IsMissionTag(data) <==> |data| == |MISSION_PREFIX| + 1 && data[..|MISSION_PREFIX|] == MISSION_PREFIX
  {
  }

  /** A vehicle detected as airborne is never disarmed by the landing check. */
  lemma TakeoffExcludesLanding(s: State, disarmAnswer: bool)
    requires TakeoffDetection(s) == Ok(true)
    ensures LandingCheck(s, disarmAnswer) == Step(s, [], Completed)
  {
  }

  /**
   * Hover requested before any motion command: the latch is set and the motion kind
   * reset, but building the target reads the unassigned frame and raises, so the
   * setpoint stays the default record.
   */
  lemma HoverBeforeFirstCommandRaises(p: Vec3, armAnswer: bool, modeAnswer: bool)
    ensures var r := CmdCallback(PoseUpdate(Init(), p), HOVER_MODE, armAnswer, modeAnswer);
      r.outcome == Raised(CoordinateFrameUnset) && r.calls == [] &&
      r.state.hoverFlag == 1 && r.state.flightMode == Some(HOVER_MODE) &&
      r.state.targetMotion == DefaultTarget
  {
  }

  /**
   * A world-frame velocity command from the initial state: velocity (1, 0, 0) and yaw
   * rate 0.2 are active, position, acceleration and yaw are ignored.
   */
  lemma VelocityFromInitScenario(f: Field)
    ensures var t := OnCommand(Init(), VelEnu(Twist(Vec3(1.0, 0.0, 0.0), Vec3(0.0, 0.0, 0.2)))).targetMotion;
      t.coordinateFrame == FRAME_LOCAL_NED && t.velocity == Vec3(1.0, 0.0, 0.0) && t.yawRate == 0.2 &&
      (Ignores(t.typeMask, f) <==> GroupOf(f) in {Position, Acceleration, Heading})
  {
    TypeMaskIgnores(VELOCITY_MOTION, f);
  }
}
