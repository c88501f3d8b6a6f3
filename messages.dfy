/**
 * The ROS messages the bridge exchanges, reduced to the fields it reads or writes,
 * and the mavros `PositionTarget` constants: the ignore bits of MAVLink's
 * POSITION_TARGET_TYPEMASK and the MAV_FRAME codes.
 */
module Messages {

  /** geometry_msgs Point / Vector3. Floating point is modelled by `real`. */
  datatype Vec3 = Vec3(x: real, y: real, z: real)

  const Zero: Vec3 := Vec3(0.0, 0.0, 0.0)

  /** geometry_msgs/Pose; the orientation is never read by the commands. */
  datatype Pose = Pose(position: Vec3)

  /** geometry_msgs/Twist. */
  datatype Twist = Twist(linear: Vec3, angular: Vec3)

  /** mavros_msgs/PositionTarget (the header is not modelled). */
  datatype PositionTarget = PositionTarget(
    coordinateFrame: int,
    typeMask: bv16,
    position: Vec3,
    velocity: Vec3,
    accelerationOrForce: Vec3,
    yaw: real,
    yawRate: real)

  /** A freshly constructed `PositionTarget()`: every field zero. */
  const DefaultTarget: PositionTarget := PositionTarget(0, 0, Zero, Zero, Zero, 0.0, 0.0)

  // MAV_FRAME codes used by the bridge.
  const FRAME_LOCAL_NED: int := 1
  const FRAME_BODY_NED: int := 8
  const FRAME_BODY_OFFSET_NED: int := 9

  // PositionTarget.IGNORE_* bits (POSITION_TARGET_TYPEMASK); `type_mask` is a uint16.
  const IGNORE_PX: bv16 := 1
  const IGNORE_PY: bv16 := 2
  const IGNORE_PZ: bv16 := 4
  const IGNORE_VX: bv16 := 8
  const IGNORE_VY: bv16 := 16
  const IGNORE_VZ: bv16 := 32
  const IGNORE_AFX: bv16 := 64
  const IGNORE_AFY: bv16 := 128
  const IGNORE_AFZ: bv16 := 256
  const FORCE: bv16 := 512
  const IGNORE_YAW: bv16 := 1024
  const IGNORE_YAW_RATE: bv16 := 2048

  /**
   * The bits of a type mask, one per setpoint field it can switch off, plus `Force`: the
   * FORCE flag, which is not an ignore bit but marks the af vector as a force.
   */
  datatype Field = PX | PY | PZ | VX | VY | VZ | AFX | AFY | AFZ | Force | Yaw | YawRate

  /** The control groups; a well-formed setpoint leaves exactly one of the first three active. */
  datatype Group = Position | Velocity | Acceleration | ForceFlag | Heading | HeadingRate

  function GroupOf(f: Field): Group {
    match f
    case PX | PY | PZ => Position
    case VX | VY | VZ => Velocity
    case AFX | AFY | AFZ => Acceleration
    case Force => ForceFlag
    case Yaw => Heading
    case YawRate => HeadingRate
  }

  predicate IsMotionGroup(g: Group) {
    g == Position || g == Velocity || g == Acceleration
  }

  function Bit(f: Field): bv16 {
    match f
    case PX => IGNORE_PX
    case PY => IGNORE_PY
    case PZ => IGNORE_PZ
    case VX => IGNORE_VX
    case VY => IGNORE_VY
    case VZ => IGNORE_VZ
    case AFX => IGNORE_AFX
    case AFY => IGNORE_AFY
    case AFZ => IGNORE_AFZ
    case Force => FORCE
    case Yaw => IGNORE_YAW
    case YawRate => IGNORE_YAW_RATE
  }

  /**
   * True when `mask` has the bit of `f` set: the autopilot disregards `f`, or for `Force`,
   * reads the af vector as a force.
   */
  predicate Ignores(mask: bv16, f: Field) {
    mask & Bit(f) != 0
  }
}
