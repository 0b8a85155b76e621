/** When every step of every history lies within the stance box. */
module StanceBox {
  import opened Poses
  import opened FootPlacement
  import opened Velocities
  import opened Gaits
  import opened GaitSafety

  /** The foot that does not support the robot, as it reads from the one that does, is in the box. */
  ghost predicate FeetInBox(m: Maths, c: Config, support: Leg, left: Pose, right: Pose) {
    if support == LeftLeg then RightInBox(c.stance, PoseRelative(m, right, left))
    else LeftInBox(c.stance, PoseRelative(m, left, right))
  }

  function Widest(r: Range): real {
    Max(Abs(r.lo), Abs(r.hi))
  }

  /** The largest turn a foot can be about to make: half the turn between the feet, and one and a half
      steps' turning at full speed. */
  function LargestTurn(c: Config): real {
    0.5 * Widest(c.stance.a) + 1.5 * Widest(c.limits.a)
  }

  /** Even at that turn toes and heels reach no further in than the box is wide, and it holds the feet
      when they are together. */
  predicate Roomy(c: Config) {
    && c.stance.y2 + Product(Widest(c.stance.footX), LargestTurn(c)) <= c.stance.y.hi
    && 2.0 * c.stance.footY <= c.stance.y.hi
  }

  // ----- Headings -----

  lemma ReductionShrinks(v: real, pi: real)
    requires pi > 0.0
    ensures Abs(ModAngle(v, pi)) <= Abs(v)
  {
    hide ModAngle;
    ReducedStays(v, pi);
    var _ := ModAngleReduces(v, pi);
  }

  lemma ReachBounds(k: real, t: real, most: real, turn: real)
    requires Abs(k) <= most && Abs(t) <= turn
    ensures Product(k, t) <= Product(most, turn)
  {
    assert Product(most, turn) - Product(k, t) == Product(most - k, turn) + Product(k, turn - t);
    assert Product(most, turn) - Product(k, t) == Product(most + k, turn) - Product(k, turn + t);
    SignsAgree(most - k, turn);
    SignsAgree(most + k, turn);
    SignsAgree(k, turn - t);
    SignsAgree(k, turn + t);
    hide Product;
  }

  lemma OverlapIsBounded(c: Config, t: real)
    requires Abs(t) <= LargestTurn(c)
    ensures Overlap(c.stance, t) <= Product(Widest(c.stance.footX), LargestTurn(c))
  {
    hide Product, LargestTurn;
    ReachBounds(c.stance.footX.lo, t, Widest(c.stance.footX), LargestTurn(c));
    ReachBounds(c.stance.footX.hi, t, Widest(c.stance.footX), LargestTurn(c));
  }

  /** Feet in the box stand at no larger angle than its headings. */
  lemma FeetTurnLittle(m: Maths, c: Config, support: Leg, left: Pose, right: Pose)
    requires TurnsLittle(m, c.stance) && FeetInBox(m, c, support, left, right)
    ensures Abs(ModAngle(right.a - left.a, m.pi)) <= Widest(c.stance.a)
  {
    hide ModAngle, Combined;
    if support == RightLeg {
      ReducedIsOdd(left.a - right.a, m.pi);
      assert -(left.a - right.a) == right.a - left.a;
    }
  }

  lemma HeadingIsBounded(m: Maths, c: Config, vel: Pose, support: Leg, left: Pose, right: Pose)
    requires TurnsLittle(m, c.stance) && FeetInBox(m, c, support, left, right) && InLimits(c.limits, vel)
    ensures Abs(RightHeading(m, vel, left, right)) <= LargestTurn(c)
  {
    FeetTurnLittle(m, c, support, left, right);
    ReductionShrinks(0.5 * ModAngle(right.a - left.a, m.pi) + 1.5 * vel.a, m.pi);
    hide ModAngle, FeetInBox;
  }

  // ----- Steps -----

  lemma TogetherInBox(m: Maths, c: Config, support: Leg, left: Pose, right: Pose)
    requires SoundConfig(m, c) && Roomy(c) && Together(m, c, left, right)
    ensures FeetInBox(m, c, support, left, right)
  {
    hide PoseRelative, ModAngle, TakesRoots;
    ReducedStays(0.0, m.pi);
    var w := 2.0 * c.stance.footY;
    RelativeUndoesGlobal(m, Pose(0.0, -w, 0.0), left);
    if support == RightLeg {
      LeftOfTogether(m, c, left, right);
      RelativeUndoesGlobal(m, Pose(0.0, w, 0.0), right);
    }
    hide PoseGlobal;
  }

  lemma LeftOfTogether(m: Maths, c: Config, left: Pose, right: Pose)
    requires Together(m, c, left, right)
    ensures left == PoseGlobal(m, Pose(0.0, 2.0 * c.stance.footY, 0.0), right)
  {
    assert left.a == right.a;
    hide Placed;
    var t := m.turn(left.a);
    PlacedBack(t.c, t.s, -2.0 * c.stance.footY, right, left);
  }

  lemma NormalStepInBox(m: Maths, c: Config, b: Gait, support: Leg)
    requires SoundConfig(m, c) && Roomy(c) && InLimits(c.limits, b.velCurrent)
             && FeetInBox(m, c, support, b.left1, b.right1)
    requires b.left1 == b.left2 && b.right1 == b.right2
    ensures var r := NormalStep(m, c, b); FeetInBox(m, c, r.supportLeg, r.left2, r.right2)
  {
    hide PoseRelative, StepLeftDestination, StepRightDestination, RightHeading, Overlap, Product, LargestTurn,
         TakesRoots, InLimits;
    HeadingIsBounded(m, c, b.velCurrent, support, b.left1, b.right1);
    OverlapIsBounded(c, RightHeading(m, b.velCurrent, b.left1, b.right1));
    hide FeetInBox;
    StepsIntoBox(m, c, b);
  }

  lemma StepsIntoBox(m: Maths, c: Config, b: Gait)
    requires TurnsLittle(m, c.stance) && Ordered(c.stance) && b.left1 == b.left2 && b.right1 == b.right2
    requires c.stance.y2 + Overlap(c.stance, RightHeading(m, b.velCurrent, b.left1, b.right1)) <= c.stance.y.hi
    ensures var r := NormalStep(m, c, b); FeetInBox(m, c, r.supportLeg, r.left2, r.right2)
  {
    hide PoseRelative, StepLeftDestination, StepRightDestination, RightHeading, Overlap, RightInBox, LeftInBox;
    LeftTargetInBox(m, c.stance, b.velCurrent, b.left1, b.right1);
    RightTargetInBox(m, c.stance, b.velCurrent, b.left1, b.right1);
  }

  lemma NewStepInBox(m: Maths, c: Config, g: Gait)
    requires SoundConfig(m, c) && Roomy(c) && Inv(m, c, g) && FeetInBox(m, c, g.supportLeg, g.left2, g.right2)
    ensures var r := NewStep(m, c, g); FeetInBox(m, c, r.supportLeg, r.left2, r.right2)
  {
    BegunStep(m, c, g);
    hide StepBegun, LastStep, NormalStep, FeetInBox, Inv, SoundConfig, Roomy;
    var b := StepBegun(c, g);
    if g.stopRequest == 1 {
      LastStepTogether(m, c, b);
      var r := LastStep(m, c, b);
      TogetherInBox(m, c, r.supportLeg, r.left2, r.right2);
    } else {
      NormalStepInBox(m, c, b, g.supportLeg);
    }
  }

  lemma EventKeepsBox(m: Maths, c: Config, g: Gait, e: Event)
    requires SoundConfig(m, c) && Able(c) && Roomy(c) && Inv(m, c, g)
             && FeetInBox(m, c, g.supportLeg, g.left2, g.right2)
    ensures var r := Handled(m, c, g, e).0; FeetInBox(m, c, r.supportLeg, r.left2, r.right2)
  {
    match e
    case Reset(torso, now) =>
      hide FeetInBox, Together, PoseGlobal, Inv, SoundConfig, Roomy;
      ResetTogether(m, c, torso);
      var r := StanceReset(m, c, g, torso, now);
      TogetherInBox(m, c, r.supportLeg, r.left2, r.right2);
    case Update(time) =>
      ClockedKeepsInv(m, c, g, time);
      ClockedKeepsFeet(g, time);
      hide Clocked, NewStep, FeetInBox, Inv, SoundConfig, Roomy;
      NewStepInBox(m, c, Clocked(g, time));
    case _ =>
      hide FeetInBox, Commanded;
  }

  lemma ClockedKeepsFeet(g: Gait, time: real)
    requires g.tStep > 0.0
    ensures var r := Clocked(g, time); r.supportLeg == g.supportLeg && r.left2 == g.left2 && r.right2 == g.right2
  {
    hide Phase;
  }

  // ----- Whole runs -----

  lemma {:induction false} RunKeepsBox(m: Maths, c: Config, g: Gait, es: seq<Event>)
    requires SoundConfig(m, c) && Able(c) && Roomy(c) && Inv(m, c, g)
             && FeetInBox(m, c, g.supportLeg, g.left2, g.right2)
    ensures var r := Run(m, c, g, es).0; FeetInBox(m, c, r.supportLeg, r.left2, r.right2)
    decreases |es|
  {
    if es != [] {
      TimedOf(m, c, g);
      hide Handled, FeetInBox, Inv, SoundConfig, Roomy, Able;
      EventKeepsBox(m, c, g, es[0]);
      EventKeepsInv(m, c, g, es[0]);
      RunKeepsBox(m, c, Handled(m, c, g, es[0]).0, es[1..]);
    }
  }

  lemma TimedOf(m: Maths, c: Config, g: Gait)
    requires Inv(m, c, g)
    ensures g.tStep == c.tStep0
  {
  }

  /** From start-up, over every history, the swinging foot is put down within the stance box. */
  lemma EveryStepIsInBox(m: Maths, c: Config, now: real, es: seq<Event>)
    requires SoundConfig(m, c) && Able(c) && Roomy(c)
    ensures var g := Run(m, c, Initial(m, c, now), es).0; FeetInBox(m, c, g.supportLeg, g.left2, g.right2)
  {
    InitialInv(m, c, now);
    var g := Initial(m, c, now);
    assert Together(m, c, g.left2, g.right2);
    hide Initial, FeetInBox, Together, Inv, SoundConfig, Roomy, Run, Able;
    TogetherInBox(m, c, g.supportLeg, g.left2, g.right2);
    RunKeepsBox(m, c, g, es);
  }

  // ----- The settings shipped -----

  const SHIPPED := Config(
    Stance(Range(-0.10, 0.10), Range(0.07, 0.20), Range(0.0, 0.5236), 0.055, Range(-0.05, 0.05), 0.035),
    Limits(Range(-0.03, 0.035), Range(-0.03, 0.03), Range(-0.4, 0.4), Pose(0.02, 0.02, 0.15), 0.06, 0.01, 0.6),
    0.25, 0.02)

  /** The settings in the configuration file are in order and leave room. */
  lemma ShippedIsRoomy(m: Maths)
    requires m.pi >= 3.0 && TakesRoots(m)
    ensures SoundConfig(m, SHIPPED) && Able(SHIPPED) && Roomy(SHIPPED)
  {
    hide TakesRoots;
  }
}
