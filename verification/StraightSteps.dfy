/** Where steps without turning lead, from feet that stand together. */
module StraightSteps {
  import opened Poses
  import opened FootPlacement
  import opened Velocities
  import opened Gaits
  import opened GaitSafety

  function Further(v: Pose, u: Pose): Pose {
    Pose(v.x + u.x, v.y + u.y, v.a + u.a)
  }

  lemma CombinedSum(k: real, x: real, x': real, l: real, y: real, y': real)
    ensures Combined(k, x + x', l, y + y') == Combined(k, x, l, y) + Combined(k, x', l, y')
  {
  }

  lemma PlacedTwice(c: real, s: real, v: Pose, u: Pose, pose: Pose)
    ensures Placed(c, s, u, Placed(c, s, v, pose)) == Placed(c, s, Further(v, u), pose)
  {
    hide Combined;
    CombinedSum(c, v.x, u.x, -s, v.y, u.y);
    CombinedSum(s, v.x, u.x, c, v.y, u.y);
  }

  /** Placing after placing without a turn is placing at the sum. */
  lemma GlobalTwice(m: Maths, v: Pose, u: Pose, pose: Pose)
    requires v.a == 0.0
    ensures PoseGlobal(m, u, PoseGlobal(m, v, pose)) == PoseGlobal(m, Further(v, u), pose)
  {
    var t := m.turn(pose.a);
    assert PoseGlobal(m, v, pose).a == pose.a;
    hide Placed;
    PlacedTwice(t.c, t.s, v, u, pose);
  }

  lemma HalfOf(c: real, s: real, w: real)
    ensures Combined(c, 0.0, -s, w) == 0.5 * Combined(c, 0.0, -s, 2.0 * w)
    ensures Combined(s, 0.0, c, w) == 0.5 * Combined(s, 0.0, c, 2.0 * w)
  {
  }

  lemma PlacedHalfWay(c: real, s: real, w: real, left: Pose, right: Pose)
    requires left == Placed(c, s, Pose(0.0, 2.0 * w, 0.0), right)
    ensures Placed(c, s, Pose(0.0, w, 0.0), right)
            == Pose(right.x + 0.5 * (left.x - right.x), right.y + 0.5 * (left.y - right.y), right.a)
  {
    hide Combined;
    HalfOf(c, s, w);
  }

  lemma SameHeading(m: Maths, u: Pose, v: Pose)
    requires u.a == v.a
    ensures Interpolate(m, 0.5, u, v) == Pose(u.x + 0.5 * (v.x - u.x), u.y + 0.5 * (v.y - u.y), u.a)
  {
    hide ModAngle;
    ReducedStays(0.0, m.pi);
  }

  /** The middle between feet that stand together, from either foot. */
  lemma MiddleOfFeet(m: Maths, c: Config, left: Pose, right: Pose)
    requires Together(m, c, left, right)
    ensures left.a == right.a
    ensures left == PoseGlobal(m, Pose(0.0, 2.0 * c.stance.footY, 0.0), right)
    ensures Interpolate(m, 0.5, left, right) == PoseGlobal(m, Pose(0.0, c.stance.footY, 0.0), right)
    ensures Interpolate(m, 0.5, left, right) == PoseGlobal(m, Pose(0.0, -c.stance.footY, 0.0), left)
  {
    assert left.a == right.a;
    var t, w := m.turn(right.a), c.stance.footY;
    hide Placed, ModAngle, Interpolate;
    PlacedBack(t.c, t.s, -2.0 * w, right, left);
    PlacedHalfWay(t.c, t.s, w, left, right);
    PlacedHalfWay(t.c, t.s, -w, right, left);
    SameHeading(m, left, right);
  }

  lemma AheadOf(m: Maths, vel: Pose, left: Pose, right: Pose, side: Pose, foot: Pose)
    requires vel.a == 0.0 && side.a == 0.0
    requires Interpolate(m, 0.5, left, right) == PoseGlobal(m, side, foot)
    ensures Ahead(m, vel, left, right) == PoseGlobal(m, Further(side, Scaled(1.5, vel)), foot)
  {
    hide PoseGlobal, Interpolate;
    GlobalTwice(m, side, vel, foot);
    GlobalTwice(m, Further(side, vel), Scaled(0.5, vel), foot);
    assert Further(Further(side, vel), Scaled(0.5, vel)) == Further(side, Scaled(1.5, vel));
  }

  lemma PlacedPlain(m: Maths, rel: Pose, pose: Pose)
    requires rel.a == 0.0
    ensures PoseRelative(m, PoseGlobal(m, rel, pose), pose) == rel
  {
    hide ModAngle, PoseGlobal, PoseRelative;
    RelativeUndoesGlobal(m, rel, pose);
  }

  /** From feet together, a velocity that does not turn takes the left foot one and a half steps ahead of
      where it would stand beside the right one. */
  lemma LeftStepsAhead(m: Maths, c: Config, vel: Pose, left: Pose, right: Pose)
    requires Together(m, c, left, right) && vel.a == 0.0
    ensures LeftPredicted(m, c.stance, vel, left, right) == Pose(1.5 * vel.x, 2.0 * c.stance.footY + 1.5 * vel.y, 0.0)
  {
    MiddleOfFeet(m, c, left, right);
    hide PoseGlobal, PoseRelative, Interpolate, Together, Ahead;
    var side := Pose(0.0, c.stance.footY, 0.0);
    AheadOf(m, vel, left, right, side, right);
    var ahead := Further(side, Scaled(1.5, vel));
    GlobalTwice(m, ahead, Offset(c.stance), right);
    assert Further(ahead, Offset(c.stance)) == Pose(1.5 * vel.x, 2.0 * c.stance.footY + 1.5 * vel.y, 0.0);
    PlacedPlain(m, Further(ahead, Offset(c.stance)), right);
  }

  /** And the right foot likewise. */
  lemma RightStepsAhead(m: Maths, c: Config, vel: Pose, left: Pose, right: Pose)
    requires Together(m, c, left, right) && vel.a == 0.0
    ensures RightPredicted(m, c.stance, vel, left, right) == Pose(1.5 * vel.x, 1.5 * vel.y - 2.0 * c.stance.footY, 0.0)
  {
    MiddleOfFeet(m, c, left, right);
    hide PoseGlobal, PoseRelative, Interpolate, Together, Ahead;
    var side, offset := Pose(0.0, -c.stance.footY, 0.0), Scaled(-1.0, Offset(c.stance));
    AheadOf(m, vel, left, right, side, left);
    var ahead := Further(side, Scaled(1.5, vel));
    GlobalTwice(m, ahead, offset, left);
    assert Further(ahead, offset) == Pose(1.5 * vel.x, 1.5 * vel.y - 2.0 * c.stance.footY, 0.0);
    PlacedPlain(m, Further(ahead, offset), left);
  }

  lemma LimitedStanding(c: Stance)
    requires Within(0.0, c.x) && Within(0.0, c.a)
    ensures LeftLimited(c, Pose(0.0, 2.0 * c.footY, 0.0)) == Pose(0.0, 2.0 * c.footY, 0.0)
      <==> Min(Clearance(c, 0.0), c.y.hi) <= 2.0 * c.footY <= c.y.hi
  {
    hide Overlap;
  }

  lemma StandingPredicted(m: Maths, c: Config, left: Pose, right: Pose)
    requires Together(m, c, left, right)
    ensures LeftPredicted(m, c.stance, STILL, left, right) == Pose(0.0, 2.0 * c.stance.footY, 0.0)
  {
    hide LeftPredicted, PoseGlobal;
    LeftStepsAhead(m, c, STILL, left, right);
  }

  /** Marking time with the feet together keeps them together, exactly when the standing width is within
      the stance box and clears toes and heels (or is the widest allowed). */
  lemma MarkingTime(m: Maths, c: Config, left: Pose, right: Pose)
    requires Together(m, c, left, right)
    requires Within(0.0, c.stance.x) && Within(0.0, c.stance.a)
    ensures StepLeftDestination(m, c.stance, STILL, left, right) == left
      <==> Min(Clearance(c.stance, 0.0), c.stance.y.hi) <= 2.0 * c.stance.footY <= c.stance.y.hi
  {
    hide PoseGlobal, Interpolate, Together, LeftLimited, LeftPredicted, Clearance, Within, Min;
    var rel := Pose(0.0, 2.0 * c.stance.footY, 0.0);
    StandingPredicted(m, c, left, right);
    MiddleOfFeet(m, c, left, right);
    LimitedStanding(c.stance);
    if StepLeftDestination(m, c.stance, STILL, left, right) == left {
      PlacedIsOneToOne(m, LeftLimited(c.stance, rel), rel, right);
    }
  }
}
