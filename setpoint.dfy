/**
 * The setpoint builder: `Communication.construct_target`. It copies its numeric
 * arguments into a fresh PositionTarget, stamps it with the current coordinate frame
 * and picks the ignore mask from the kind of the last motion command.
 */
module Setpoint {
  import opened Wrappers
  import opened Messages

  /** Motion kinds stored in `motion_type`: 0 position, 1 velocity, 2 acceleration. */
  const POSITION_MOTION: int := 0
  const VELOCITY_MOTION: int := 1
  const ACCELERATION_MOTION: int := 2

  /** The control group a motion kind leaves active. */
  function ActiveGroup(motionType: int): (g: Group)
    requires POSITION_MOTION <= motionType <= ACCELERATION_MOTION
    ensures IsMotionGroup(g)
  {
    if motionType == POSITION_MOTION then Position
    else if motionType == VELOCITY_MOTION then Velocity
    else Acceleration
  }

  /**
   * The type mask `construct_target` writes: the sum of the IGNORE_* bits chosen by
   * `motion_type`, or the untouched default 0 for any other motion kind.
   */
  function TypeMask(motionType: int): bv16 {
    if motionType == POSITION_MOTION then
      IGNORE_VX + IGNORE_VY + IGNORE_VZ + IGNORE_AFX + IGNORE_AFY + IGNORE_AFZ + IGNORE_YAW
    else if motionType == VELOCITY_MOTION then
      IGNORE_PX + IGNORE_PY + IGNORE_PZ + IGNORE_AFX + IGNORE_AFY + IGNORE_AFZ + IGNORE_YAW
    else if motionType == ACCELERATION_MOTION then
      IGNORE_PX + IGNORE_PY + IGNORE_PZ + IGNORE_VX + IGNORE_VY + IGNORE_VZ + IGNORE_YAW
    else
      0
  }

  /**
   * `construct_target`: `None` when `coordinate_frame` has never been assigned (the
   * attribute read raises); otherwise the numeric arguments copied verbatim.
   */
  function ConstructTarget(
    frame: Option<int>, motionType: int,
    position: Vec3, velocity: Vec3, acceleration: Vec3, yaw: real, yawRate: real): (r: Option<PositionTarget>)
    ensures r.None? <==> frame.None?
    ensures r.Some? ==>
      r.value.coordinateFrame == frame.value &&
      r.value.position == position && r.value.velocity == velocity &&
      r.value.accelerationOrForce == acceleration &&
      r.value.yaw == yaw && r.value.yawRate == yawRate &&
      r.value.typeMask == TypeMask(motionType)
    ensures r.Some? ==> !Ignores(r.value.typeMask, YawRate) && !Ignores(r.value.typeMask, Force)
  {
    if frame.None? then None
    else
      YawRateKeptForceFlagClear(motionType);
      Some(PositionTarget(frame.value, TypeMask(motionType), position, velocity, acceleration, yaw, yawRate))
  }

  /** A mask a motion kind can produce: one control group active, the other two ignored. */
  predicate SingleGroupMask(mask: bv16) {
    mask == TypeMask(POSITION_MOTION) || mask == TypeMask(VELOCITY_MOTION) || mask == TypeMask(ACCELERATION_MOTION)
  }

  predicate GroupActive(mask: bv16, g: Group) {
    forall f :: GroupOf(f) == g ==> !Ignores(mask, f)
  }

  predicate GroupIgnored(mask: bv16, g: Group) {
    forall f :: GroupOf(f) == g ==> Ignores(mask, f)
  }

  /**
   * For each motion kind the mask ignores exactly the two other motion groups and the
   * absolute yaw, and nothing else: the kind's own group and the yaw rate stay active,
   * and the FORCE flag stays clear.
   */
  lemma TypeMaskIgnores(motionType: int, f: Field)
    requires POSITION_MOTION <= motionType <= ACCELERATION_MOTION
    ensures Ignores(TypeMask(motionType), f) <==>
      f == Yaw || (IsMotionGroup(GroupOf(f)) && GroupOf(f) != ActiveGroup(motionType))
  {
  }

  /** The three masks written out as the field sets they ignore. */
  lemma TypeMaskIgnoredSets(f: Field)
    ensures Ignores(TypeMask(POSITION_MOTION), f) <==> f in {VX, VY, VZ, AFX, AFY, AFZ, Yaw}
    ensures Ignores(TypeMask(VELOCITY_MOTION), f) <==> f in {PX, PY, PZ, AFX, AFY, AFZ, Yaw}
    ensures Ignores(TypeMask(ACCELERATION_MOTION), f) <==> f in {PX, PY, PZ, VX, VY, VZ, Yaw}
  {
    TypeMaskIgnores(POSITION_MOTION, f);
    TypeMaskIgnores(VELOCITY_MOTION, f);
    TypeMaskIgnores(ACCELERATION_MOTION, f);
  }

  /** No mask `construct_target` writes ever sets IGNORE_YAW_RATE or the FORCE flag. */
  lemma YawRateKeptForceFlagClear(motionType: int)
    ensures !Ignores(TypeMask(motionType), YawRate)
    ensures !Ignores(TypeMask(motionType), Force)
  {
    if POSITION_MOTION <= motionType <= ACCELERATION_MOTION {
      TypeMaskIgnores(motionType, YawRate);
      TypeMaskIgnores(motionType, Force);
    }
  }

  /**
   * A single-group mask never mixes targets: exactly one of position, velocity and
   * acceleration is active and each of the other two is ignored as a whole.
   */
  lemma SingleGroupMaskMeaning(mask: bv16)
    requires SingleGroupMask(mask)
    ensures exists g :: IsMotionGroup(g) && GroupActive(mask, g) &&
                        (forall h :: IsMotionGroup(h) && h != g ==> GroupIgnored(mask, h))
  {
    var mt :| POSITION_MOTION <= mt <= ACCELERATION_MOTION && mask == TypeMask(mt);
    var g := ActiveGroup(mt);
    forall f ensures Ignores(mask, f) <==> f == Yaw || (IsMotionGroup(GroupOf(f)) && GroupOf(f) != g) {
      TypeMaskIgnores(mt, f);
    }
    assert GroupActive(mask, g);
  }
}
