/**
 * `Communication`, the bridge object: its fields and the callbacks, dispatcher, mode
 * switch and loop-tick landing check that update them in place. Each method is proved
 * to perform the corresponding step of FlightState; the autopilot's services are
 * represented by the answers passed in and by `serviceLog`, the requests sent so far.
 */
module MultirotorCommunication {
  import opened Wrappers
  import opened Messages
  import opened Setpoint
  import opened FlightState

  class Communication {
    var hoverFlag: int
    var motionType: int
    /**
     * Not assigned by `__init__`. It stays None until a pose command arrives, or a velocity
     * or acceleration command arrives while the hover latch is clear; text commands never set it.
     */
    var coordinateFrame: Option<int>
    var targetMotion: PositionTarget
    var flightMode: Option<string>
    var mission: Option<string>
    var armState: bool
    /** Position of the latest local pose message, None before the first one. */
    var localPose: Option<Vec3>
    /** Requests sent to the arming and set-mode services, oldest first. */
    var serviceLog: seq<ServiceCall>

    /** The state-machine fields as one value. */
    function Model(): State
      reads this
    {
      State(hoverFlag, motionType, coordinateFrame, targetMotion, flightMode, mission, armState, localPose)
    }

    ghost predicate Valid()
      reads this
    {
      FlightState.Valid(Model())
    }

    constructor ()
      ensures Valid()
      ensures Model() == Init() && serviceLog == []
    {
      hoverFlag := 0;
      targetMotion := DefaultTarget;
      armState := false;
      motionType := POSITION_MOTION;
      flightMode := None;
      mission := None;
      localPose := None;
      coordinateFrame := None;
      serviceLog := [];
    }

    method LocalPoseCallback(msg: Pose)
      requires Valid()
      modifies this
      ensures Valid()
      ensures Model() == PoseUpdate(old(Model()), msg.position)
      ensures serviceLog == old(serviceLog)
    {
      localPose := Some(msg.position);
    }

    method CmdPoseFluCallback(msg: Pose)
      requires Valid()
      modifies this
      ensures Valid()
      ensures Model() == OnCommand(old(Model()), PoseFlu(msg))
      ensures serviceLog == old(serviceLog)
    {
      coordinateFrame := Some(FRAME_BODY_OFFSET_NED);
      targetMotion := Setpoint.ConstructTarget(coordinateFrame, motionType, msg.position, Zero, Zero, 0.0, 0.0).value;
    }

    method CmdPoseEnuCallback(msg: Pose)
      requires Valid()
      modifies this
      ensures Valid()
      ensures Model() == OnCommand(old(Model()), PoseEnu(msg))
      ensures serviceLog == old(serviceLog)
    {
      coordinateFrame := Some(FRAME_LOCAL_NED);
      targetMotion := Setpoint.ConstructTarget(coordinateFrame, motionType, msg.position, Zero, Zero, 0.0, 0.0).value;
    }

    method CmdVelFluCallback(msg: Twist)
      requires Valid()
      modifies this
      ensures Valid()
      ensures Model() == OnCommand(old(Model()), VelFlu(msg))
      ensures old(hoverFlag) != 0 ==> Model() == old(Model())
      ensures serviceLog == old(serviceLog)
    {
      if hoverFlag == 0 {
        coordinateFrame := Some(FRAME_BODY_NED);
        motionType := VELOCITY_MOTION;
        targetMotion := Setpoint.ConstructTarget(coordinateFrame, motionType, Zero, msg.linear, Zero, 0.0, msg.angular.z).value;
      }
    }

    method CmdVelEnuCallback(msg: Twist)
      requires Valid()
      modifies this
      ensures Valid()
      ensures Model() == OnCommand(old(Model()), VelEnu(msg))
      ensures old(hoverFlag) != 0 ==> Model() == old(Model())
      ensures serviceLog == old(serviceLog)
    {
      if hoverFlag == 0 {
        coordinateFrame := Some(FRAME_LOCAL_NED);
        motionType := VELOCITY_MOTION;
        targetMotion := Setpoint.ConstructTarget(coordinateFrame, motionType, Zero, msg.linear, Zero, 0.0, msg.angular.z).value;
      }
    }

    method CmdAccelFluCallback(msg: Twist)
      requires Valid()
      modifies this
      ensures Valid()
      ensures Model() == OnCommand(old(Model()), AccelFlu(msg))
      ensures old(hoverFlag) != 0 ==> Model() == old(Model())
      ensures serviceLog == old(serviceLog)
    {
      if hoverFlag == 0 {
        coordinateFrame := Some(FRAME_BODY_NED);
        motionType := ACCELERATION_MOTION;
        targetMotion := Setpoint.ConstructTarget(coordinateFrame, motionType, Zero, Zero, msg.linear, 0.0, msg.angular.z).value;
      }
    }

    method CmdAccelEnuCallback(msg: Twist)
      requires Valid()
      modifies this
      ensures Valid()
      ensures Model() == OnCommand(old(Model()), AccelEnu(msg))
      ensures old(hoverFlag) != 0 ==> Model() == old(Model())
      ensures old(hoverFlag) == 0 ==>
        targetMotion.accelerationOrForce == Vec3(msg.linear.x, msg.linear.x, msg.linear.x)
      ensures serviceLog == old(serviceLog)
    {
      if hoverFlag == 0 {
        coordinateFrame := Some(FRAME_LOCAL_NED);
        motionType := ACCELERATION_MOTION;
        var acceleration := Vec3(msg.linear.x, msg.linear.x, msg.linear.x);
        targetMotion := Setpoint.ConstructTarget(coordinateFrame, motionType, Zero, Zero, acceleration, 0.0, msg.angular.z).value;
      }
    }

    /** `arm`: request arming; the answer of the service is the result. */
    method Arm(serviceAnswer: bool) returns (ok: bool)
      modifies this`serviceLog
      ensures ok == serviceAnswer
      ensures serviceLog == old(serviceLog) + [Arming(true)]
    {
      serviceLog := serviceLog + [Arming(true)];
      if serviceAnswer {
        ok := true;
      } else {
        ok := false;
      }
    }

    /** `disarm`: request disarming; the answer of the service is the result. */
    method Disarm(serviceAnswer: bool) returns (ok: bool)
      modifies this`serviceLog
      ensures ok == serviceAnswer
      ensures serviceLog == old(serviceLog) + [Arming(false)]
    {
      serviceLog := serviceLog + [Arming(false)];
      if serviceAnswer {
        ok := true;
      } else {
        ok := false;
      }
    }

    method Hover() returns (outcome: Outcome)
      requires FlightState.SetpointValid(Model())
      modifies this
      ensures Valid()
      ensures Model() == FlightState.Hover(old(Model())).state
      ensures outcome == FlightState.Hover(old(Model())).outcome
      ensures serviceLog == old(serviceLog)
    {
      motionType := POSITION_MOTION;
      if localPose.None? {
        return Raised(LocalPoseUnset);
      }
      var target := Setpoint.ConstructTarget(coordinateFrame, motionType, localPose.value, Zero, Zero, 0.0, 0.0);
      if target.None? {
        return Raised(CoordinateFrameUnset);
      }
      targetMotion := target.value;
      outcome := Completed;
    }

    method FlightModeSwitch(modeAnswer: bool) returns (outcome: Outcome)
      requires Valid() && flightMode.Some?
      modifies this
      ensures Valid()
      ensures Model() == FlightState.FlightModeSwitch(old(Model()), modeAnswer).state
      ensures outcome == FlightState.FlightModeSwitch(old(Model()), modeAnswer).outcome
      ensures serviceLog == old(serviceLog) + FlightState.FlightModeSwitch(old(Model()), modeAnswer).calls
    {
      if flightMode == Some(HOVER_MODE) {
        hoverFlag := 1;
        outcome := Hover();
      } else {
        serviceLog := serviceLog + [SetMode(flightMode.value)];
        if modeAnswer {
          hoverFlag := 0;
        }
        outcome := Completed;
      }
    }

    method CmdCallback(data: string, armAnswer: bool, modeAnswer: bool) returns (outcome: Outcome)
      requires Valid()
      modifies this
      ensures Valid()
      ensures Model() == FlightState.CmdCallback(old(Model()), data, armAnswer, modeAnswer).state
      ensures outcome == FlightState.CmdCallback(old(Model()), data, armAnswer, modeAnswer).outcome
      ensures serviceLog == old(serviceLog) + FlightState.CmdCallback(old(Model()), data, armAnswer, modeAnswer).calls
    {
      outcome := Completed;
      if data == "" {
        return;
      } else if data == ARM_COMMAND {
        armState := Arm(armAnswer);
      } else if data == DISARM_COMMAND {
        var disarmed := Disarm(armAnswer);
        // The assignment target `dself` is an undefined name: arm_state is never written.
        outcome := Raised(UndefinedDself);
      } else if IsMissionTag(data) && mission != Some(data) {
        mission := Some(data);
      } else if flightMode != Some(data) {
        flightMode := Some(data);
        outcome := FlightModeSwitch(modeAnswer);
      }
    }

    /** The landing check at the top of each iteration of the main loop. */
    method LandingCheck(disarmAnswer: bool) returns (outcome: Outcome)
      requires Valid()
      modifies this
      ensures Valid()
      ensures Model() == FlightState.LandingCheck(old(Model()), disarmAnswer).state
      ensures outcome == FlightState.LandingCheck(old(Model()), disarmAnswer).outcome
      ensures serviceLog == old(serviceLog) + FlightState.LandingCheck(old(Model()), disarmAnswer).calls
    {
      outcome := Completed;
      if flightMode == Some(LAND_MODE) {
        if localPose.None? {
          return Raised(LocalPoseUnset);
        }
        if localPose.value.z < LANDED_ALTITUDE {
          var disarmed := Disarm(disarmAnswer);
          if disarmed {
            flightMode := Some(DISARMED_MARKER);
          }
        }
      }
    }

    method TakeoffDetection() returns (r: Result<bool, Fault>)
      ensures localPose.None? ==> r == Err(LocalPoseUnset)
      ensures localPose.Some? ==> r == Ok(localPose.value.z > TAKEOFF_ALTITUDE && armState)
      ensures r == FlightState.TakeoffDetection(Model())
    {
      if localPose.None? {
        return Err(LocalPoseUnset);
      }
      if localPose.value.z > TAKEOFF_ALTITUDE && armState {
        r := Ok(true);
      } else {
        r := Ok(false);
      }
    }
  }
}
