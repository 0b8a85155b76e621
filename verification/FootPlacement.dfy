/** Where the swinging foot is put down. */
module FootPlacement {
  import opened Poses

  datatype Range = Range(lo: real, hi: real)

  /** The limits on the stance, as configured. */
  datatype Stance = Stance(x: Range, y: Range, a: Range, y2: real, footX: Range, footY: real)

  function Offset(c: Stance): Pose {
    Pose(0.0, c.footY, 0.0)
  }

  /** How far toe or heel of a foot reach in when it is turned. */
  function Overlap(c: Stance, turn: real): real {
    Max(Product(c.footX.lo, turn), Product(c.footX.hi, turn))
  }

  /** The least distance sideways at which toes and heels stay clear. */
  function Clearance(c: Stance, turn: real): real {
    Max(c.y.lo, c.y2 + Overlap(c, turn))
  }

  function LeftLimited(c: Stance, rel: Pose): Pose {
    Pose(Clamp(rel.x, c.x.lo, c.x.hi),
         Clamp(rel.y, Clearance(c, -rel.a), c.y.hi),
         Clamp(rel.a, c.a.lo, c.a.hi))
  }

  function RightLimited(c: Stance, rel: Pose): Pose {
    Pose(Clamp(rel.x, c.x.lo, c.x.hi),
         Clamp(rel.y, -c.y.hi, -Clearance(c, rel.a)),
         Clamp(rel.a, -c.a.hi, -c.a.lo))
  }

  /** The middle between the feet, one and a half steps from now. */
  function Ahead(m: Maths, vel: Pose, left: Pose, right: Pose): Pose
  {
    PoseGlobal(m, Scaled(0.5, vel), PoseGlobal(m, vel, Interpolate(m, 0.5, left, right)))
  }

  /** Where the left foot should go, read in the frame of the right one. */
  function LeftPredicted(m: Maths, c: Stance, vel: Pose, left: Pose, right: Pose): Pose
  {
    PoseRelative(m, PoseGlobal(m, Offset(c), Ahead(m, vel, left, right)), right)
  }

  function RightPredicted(m: Maths, c: Stance, vel: Pose, left: Pose, right: Pose): Pose
  {
    PoseRelative(m, PoseGlobal(m, Scaled(-1.0, Offset(c)), Ahead(m, vel, left, right)), left)
  }

  function StepLeftDestination(m: Maths, c: Stance, vel: Pose, left: Pose, right: Pose): Pose
  {
    PoseGlobal(m, LeftLimited(c, LeftPredicted(m, c, vel, left, right)), right)
  }

  function StepRightDestination(m: Maths, c: Stance, vel: Pose, left: Pose, right: Pose): Pose
  {
    PoseGlobal(m, RightLimited(c, RightPredicted(m, c, vel, left, right)), left)
  }

  // ----- The stance box -----

  predicate Within(v: real, r: Range) {
    r.lo <= v <= r.hi
  }

  /** A left foot as it reads from the right one, within the configured stance. */
  predicate LeftInBox(c: Stance, rel: Pose) {
    Within(rel.x, c.x) && Within(rel.y, c.y) && Within(rel.a, c.a)
  }

  predicate RightInBox(c: Stance, rel: Pose) {
    LeftInBox(c, Mirror(rel))
  }

  predicate Ordered(c: Stance) {
    c.x.lo <= c.x.hi && c.y.lo <= c.y.hi && c.a.lo <= c.a.hi
  }

  /** The headings allowed are less than half a turn. */
  predicate TurnsLittle(m: Maths, c: Stance) {
    -m.pi < c.a.lo && c.a.hi < m.pi
  }

  lemma LimitedHeadings(m: Maths, c: Stance, rel: Pose)
    requires TurnsLittle(m, c) && c.a.lo <= c.a.hi
    ensures -m.pi < LeftLimited(c, rel).a < m.pi && -m.pi < RightLimited(c, rel).a < m.pi
  {
  }

  /** Read back from the right foot, a left foot target is the limited pose it was placed at. */
  lemma LeftReadsBack(m: Maths, c: Stance, vel: Pose, left: Pose, right: Pose)
    requires TurnsLittle(m, c) && c.a.lo <= c.a.hi
    ensures PoseRelative(m, StepLeftDestination(m, c, vel, left, right), right)
            == LeftLimited(c, LeftPredicted(m, c, vel, left, right))
  {
    hide PoseRelative, PoseGlobal, LeftPredicted, LeftLimited;
    var rel := LeftPredicted(m, c, vel, left, right);
    LimitedHeadings(m, c, rel);
    RelativeUndoesGlobal(m, LeftLimited(c, rel), right);
  }

  lemma RightReadsBack(m: Maths, c: Stance, vel: Pose, left: Pose, right: Pose)
    requires TurnsLittle(m, c) && c.a.lo <= c.a.hi
    ensures PoseRelative(m, StepRightDestination(m, c, vel, left, right), left)
            == RightLimited(c, RightPredicted(m, c, vel, left, right))
  {
    hide PoseRelative, PoseGlobal, RightPredicted, RightLimited;
    var rel := RightPredicted(m, c, vel, left, right);
    LimitedHeadings(m, c, rel);
    RelativeUndoesGlobal(m, RightLimited(c, rel), left);
  }

  lemma LimitedIsInBox(c: Stance, rel: Pose)
    ensures LeftInBox(c, LeftLimited(c, rel)) <==> Ordered(c)
    ensures RightInBox(c, RightLimited(c, rel)) <==> Ordered(c) && Clearance(c, rel.a) <= c.y.hi
  {
    hide Overlap;
  }

  /** Every left foot target, read back from the right foot, lies in the stance box exactly when the
      limits are in order, whatever the velocity and the feet. */
  lemma LeftTargetInBox(m: Maths, c: Stance, vel: Pose, left: Pose, right: Pose)
    requires TurnsLittle(m, c)
    ensures LeftInBox(c, PoseRelative(m, StepLeftDestination(m, c, vel, left, right), right)) <==> Ordered(c)
  {
    hide PoseRelative, StepLeftDestination, LeftPredicted, LeftLimited;
    if c.a.lo <= c.a.hi {
      LeftReadsBack(m, c, vel, left, right);
      LimitedIsInBox(c, LeftPredicted(m, c, vel, left, right));
    }
  }

  /** The heading at which the right foot is to be put down, seen from the left one: half the turn
      between the feet and one and a half steps' turning. */
  function RightHeading(m: Maths, vel: Pose, left: Pose, right: Pose): real {
    ModAngle(0.5 * ModAngle(right.a - left.a, m.pi) + 1.5 * vel.a, m.pi)
  }

  lemma RightPredictedHeading(m: Maths, c: Stance, vel: Pose, left: Pose, right: Pose)
    ensures RightPredicted(m, c, vel, left, right).a == RightHeading(m, vel, left, right)
  {
    hide ModAngle, Combined;
    var ahead := Ahead(m, vel, left, right);
    assert ahead.a == left.a + 0.5 * ModAngle(right.a - left.a, m.pi) + vel.a + 0.5 * vel.a;
    assert Scaled(-1.0, Offset(c)).a == 0.0;
    assert PoseGlobal(m, Scaled(-1.0, Offset(c)), ahead).a - left.a
           == 0.5 * ModAngle(right.a - left.a, m.pi) + 1.5 * vel.a;
  }

  /** For the right foot the clearance limit has the last word, so its targets leave the box when, at
      the heading that feet and velocity lead to, toes or heels would reach further in than the box is
      wide. */
  lemma RightTargetInBox(m: Maths, c: Stance, vel: Pose, left: Pose, right: Pose)
    requires TurnsLittle(m, c)
    ensures RightInBox(c, PoseRelative(m, StepRightDestination(m, c, vel, left, right), left))
      <==> Ordered(c) && c.y2 + Overlap(c, RightHeading(m, vel, left, right)) <= c.y.hi
  {
    hide PoseRelative, StepRightDestination, RightPredicted, RightLimited, Overlap, RightHeading;
    RightPredictedHeading(m, c, vel, left, right);
    if c.a.lo <= c.a.hi {
      RightReadsBack(m, c, vel, left, right);
      LimitedIsInBox(c, RightPredicted(m, c, vel, left, right));
    }
  }

  // Feet longer than the stance is wide.
  const LONG_FEET := Stance(Range(-1.0, 1.0), Range(0.1, 0.2), Range(0.0, 0.5), 0.15, Range(-1.0, 1.0), 0.1)

  lemma TurningRight(m: Maths)
    requires m.pi >= 3.0
    ensures RightHeading(m, Pose(0.0, 0.0, 0.2), Pose(0.0, 0.0, 0.0), Pose(0.0, 0.0, 0.0)) == 0.3
  {
    hide ModAngle;
    ReducedStays(0.0, m.pi);
    ReducedStays(0.3, m.pi);
  }

  /** A robot with such feet that stands at the origin and turns puts its right foot outside the box. */
  lemma RightStepLeavesBox(m: Maths)
    requires m.pi >= 3.0
    ensures var o := Pose(0.0, 0.0, 0.0);
      && TurnsLittle(m, LONG_FEET) && Ordered(LONG_FEET)
      && !RightInBox(LONG_FEET, PoseRelative(m, StepRightDestination(m, LONG_FEET, Pose(0.0, 0.0, 0.2), o, o), o))
  {
    TurningRight(m);
    assert Overlap(LONG_FEET, 0.3) == 0.3;
    hide RightHeading, PoseRelative, StepRightDestination;
    RightTargetInBox(m, LONG_FEET, Pose(0.0, 0.0, 0.2), Pose(0.0, 0.0, 0.0), Pose(0.0, 0.0, 0.0));
  }

  // ----- Toes and heels -----

  lemma ScaledUp(k: real, less: real, more: real)
    requires k >= 0.0 && less <= more
    ensures k * less <= k * more
  {
    assert k * (more - less) >= 0.0;
  }

  lemma SignsTell(k: real, v: real)
    ensures k >= 0.0 && v >= 0.0 ==> k * v >= 0.0
    ensures k <= 0.0 && v >= 0.0 ==> k * v <= 0.0
  {
  }

  lemma TurningLessOneWay(c: Stance, turn: real, less: real)
    requires c.footX.lo <= 0.0 <= c.footX.hi && 0.0 <= less <= turn
    ensures Overlap(c, less) <= Overlap(c, turn)
  {
    ScaledUp(c.footX.hi, less, turn);
    SignsTell(c.footX.lo, less);
    SignsTell(c.footX.hi, less);
  }

  /** Turning the other way exchanges toe and heel. */
  lemma OverlapMirrored(c: Stance, turn: real)
    ensures Overlap(c.(footX := Range(-c.footX.hi, -c.footX.lo)), -turn) == Overlap(c, turn)
  {
    Negated(c.footX.lo, turn);
    Negated(c.footX.hi, turn);
  }

  /** A foot turned less the same way reaches in less. */
  lemma TurningLess(c: Stance, turn: real, less: real)
    requires c.footX.lo <= 0.0 <= c.footX.hi
    requires 0.0 <= less <= turn || turn <= less <= 0.0
    ensures Overlap(c, less) <= Overlap(c, turn)
  {
    hide Overlap;
    if 0.0 <= less <= turn {
      TurningLessOneWay(c, turn, less);
    } else {
      OverlapMirrored(c, less);
      OverlapMirrored(c, turn);
      TurningLessOneWay(c.(footX := Range(-c.footX.hi, -c.footX.lo)), -turn, -less);
    }
  }

  lemma Negated(k: real, v: real)
    ensures -k * -v == k * v && k * -v == -(k * v)
  {
  }

  /** A foot that may be turned either way. */
  predicate Usual(c: Stance) {
    c.footX.lo <= 0.0 <= c.footX.hi && c.a.lo <= 0.0 <= c.a.hi
  }

  /** The clearance is reckoned before the heading is limited, and still holds after: a left foot
      target keeps toes and heels clear, unless it is as far out as the stance allows. */
  lemma LeftKeepsClear(c: Stance, rel: Pose)
    requires Usual(c)
    ensures var r := LeftLimited(c, rel); r.y == c.y.hi || r.y >= Clearance(c, -r.a)
  {
    hide Overlap;
    TurningLess(c, -rel.a, -LeftLimited(c, rel).a);
  }

  /** A right foot target always keeps them clear. */
  lemma RightKeepsClear(c: Stance, rel: Pose)
    requires Usual(c)
    ensures var r := RightLimited(c, rel); -r.y >= Clearance(c, r.a)
  {
    hide Overlap;
    if -c.a.lo >= rel.a >= -c.a.hi {
    } else {
      TurningLess(c, rel.a, RightLimited(c, rel).a);
    }
  }

  /** No step crosses the feet or brings them closer than the stance allows, and none turns the feet
      or sets them apart lengthwise by more than it allows. */
  predicate Apart(c: Stance, rel: Pose) {
    Within(rel.x, c.x) && rel.y >= c.y.lo && Within(rel.a, c.a)
  }

  lemma StepsKeepApart(m: Maths, c: Stance, vel: Pose, left: Pose, right: Pose)
    requires TurnsLittle(m, c) && Ordered(c)
    ensures Apart(c, PoseRelative(m, StepLeftDestination(m, c, vel, left, right), right))
    ensures Apart(c, Mirror(PoseRelative(m, StepRightDestination(m, c, vel, left, right), left)))
  {
    hide PoseRelative, StepLeftDestination, LeftPredicted, StepRightDestination, RightPredicted, Overlap;
    LeftReadsBack(m, c, vel, left, right);
    RightReadsBack(m, c, vel, left, right);
  }

  // ----- The two feet are treated alike -----

  lemma MirrorScaled(k: real, p: Pose)
    ensures Scaled(k, Mirror(p)) == Mirror(Scaled(k, p))
  {
  }

  lemma MirrorAhead(m: Maths, vel: Pose, left: Pose, right: Pose)
    requires Odd(m) && -m.pi < right.a - left.a < m.pi
    ensures Ahead(m, Mirror(vel), Mirror(right), Mirror(left)) == Mirror(Ahead(m, vel, left, right))
  {
    hide PoseGlobal, Scaled, Interpolate;
    var middle := Interpolate(m, 0.5, left, right);
    HalfWay(m, right, left);
    MirrorGlobal(m, vel, middle);
    MirrorScaled(0.5, vel);
    MirrorGlobal(m, Scaled(0.5, vel), PoseGlobal(m, vel, middle));
  }

  lemma MirrorPredicted(m: Maths, c: Stance, vel: Pose, left: Pose, right: Pose)
    requires Odd(m) && -m.pi < right.a - left.a < m.pi
    requires RightPredicted(m, c, vel, left, right).a != m.pi
    ensures LeftPredicted(m, c, Mirror(vel), Mirror(right), Mirror(left))
            == Mirror(RightPredicted(m, c, vel, left, right))
  {
    hide PoseGlobal, Ahead, ModAngle;
    MirrorAhead(m, vel, left, right);
    var ahead := Ahead(m, vel, left, right);
    assert Scaled(-1.0, Offset(c)) == Mirror(Offset(c));
    assert Mirror(Mirror(Offset(c))) == Offset(c);
    MirrorGlobal(m, Mirror(Offset(c)), ahead);
    MirrorRelative(m, PoseGlobal(m, Mirror(Offset(c)), ahead), left);
    hide PoseRelative;
  }

  lemma MirrorLimited(c: Stance, rel: Pose)
    requires c.y.lo <= c.y.hi && c.x.lo <= c.x.hi && c.a.lo <= c.a.hi
    ensures LeftLimited(c, Mirror(rel)) == Mirror(RightLimited(c, rel)) <==> Clearance(c, rel.a) <= c.y.hi
  {
    hide Overlap;
  }

  /** The right foot's step is the mirror image of the step the left foot would take in the mirrored
      situation, exactly when at the heading it is to have the clearance it needs is within the stance
      box. */
  lemma RightStepMirrorsLeft(m: Maths, c: Stance, vel: Pose, left: Pose, right: Pose)
    requires Odd(m) && Ordered(c) && -m.pi < right.a - left.a < m.pi
    requires RightHeading(m, vel, left, right) != m.pi
    ensures StepLeftDestination(m, c, Mirror(vel), Mirror(right), Mirror(left))
            == Mirror(StepRightDestination(m, c, vel, left, right))
      <==> c.y2 + Overlap(c, RightHeading(m, vel, left, right)) <= c.y.hi
  {
    hide PoseGlobal, LeftPredicted, RightPredicted, LeftLimited, RightLimited, Overlap, ModAngle, RightHeading;
    RightPredictedHeading(m, c, vel, left, right);
    MirrorPredicted(m, c, vel, left, right);
    var rel := RightPredicted(m, c, vel, left, right);
    MirrorLimited(c, rel);
    MirrorGlobal(m, RightLimited(c, rel), left);
    if PoseGlobal(m, LeftLimited(c, Mirror(rel)), Mirror(left))
      == PoseGlobal(m, Mirror(RightLimited(c, rel)), Mirror(left)) {
      PlacedIsOneToOne(m, LeftLimited(c, Mirror(rel)), Mirror(RightLimited(c, rel)), Mirror(left));
    }
  }

  /** With feet longer than the stance is wide the two feet are not treated alike. */
  lemma FeetDiffer(m: Maths)
    requires m.pi >= 3.0 && Odd(m)
    ensures var o, vel := Pose(0.0, 0.0, 0.0), Pose(0.0, 0.0, 0.2);
      StepLeftDestination(m, LONG_FEET, Mirror(vel), Mirror(o), Mirror(o))
        != Mirror(StepRightDestination(m, LONG_FEET, vel, o, o))
  {
    TurningRight(m);
    assert Overlap(LONG_FEET, 0.3) == 0.3;
    hide RightHeading, StepLeftDestination, StepRightDestination, Odd;
    RightStepMirrorsLeft(m, LONG_FEET, Pose(0.0, 0.0, 0.2), Pose(0.0, 0.0, 0.0), Pose(0.0, 0.0, 0.0));
  }

  /** Different poses are placed differently. */
  lemma PlacedIsOneToOne(m: Maths, u: Pose, v: Pose, pose: Pose)
    requires PoseGlobal(m, u, pose) == PoseGlobal(m, v, pose)
    ensures u == v
  {
    hide ModAngle;
    assert u.a == v.a;
    RelativeUndoesGlobal(m, u, pose);
    RelativeUndoesGlobal(m, v, pose);
    hide PoseRelative;
  }
}
