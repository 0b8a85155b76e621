/** What every run of the gait automaton keeps: velocities within their limits, the feet apart, and the
    feet together whenever the robot stands. */
module GaitSafety {
  import opened Poses
  import opened FootPlacement
  import opened Velocities
  import opened Gaits

  /** Settings in order: the limits contain standing still with the feet together. */
  ghost predicate SoundConfig(m: Maths, c: Config) {
    && TakesRoots(m) && c.tStep0 > 0.0 && SoundLimits(c.limits)
    && Ordered(c.stance) && TurnsLittle(m, c.stance)
    && Within(0.0, c.stance.x) && Within(0.0, c.stance.a) && c.stance.y.lo <= 2.0 * c.stance.footY
  }

  /** The right foot stands beside the left one, the standing width away and heading the same way. */
  ghost predicate Together(m: Maths, c: Config, left: Pose, right: Pose) {
    right == PoseGlobal(m, Pose(0.0, -2.0 * c.stance.footY, 0.0), left)
  }

  /** The foot that does not support the robot, as it reads from the one that does, keeps its distance. */
  ghost predicate FeetApart(m: Maths, c: Config, support: Leg, left: Pose, right: Pose)
  {
    if support == LeftLeg then Apart(c.stance, Mirror(PoseRelative(m, right, left)))
    else Apart(c.stance, PoseRelative(m, left, right))
  }

  ghost predicate Inv(m: Maths, c: Config, g: Gait)
  {
    && g.tStep == c.tStep0 && 0 <= g.stopRequest <= 2
    && InLimits(c.limits, g.velCurrent) && InLimits(c.limits, g.velCommand)
    && FeetApart(m, c, g.supportLeg, g.left2, g.right2)
    && (!g.active || g.stopRequest == 2 ==> Together(m, c, g.left2, g.right2))
  }

  // ----- Feet together -----

  lemma Beside(c: real, s: real, w: real)
    ensures Combined(c, 0.0, -s, -w) == -Combined(c, 0.0, -s, w)
    ensures Combined(s, 0.0, c, -w) == -Combined(s, 0.0, c, w)
  {
  }

  lemma PlacedBack(c: real, s: real, w: real, left: Pose, right: Pose)
    requires left == Placed(c, s, Pose(0.0, w, 0.0), right)
    ensures right == Placed(c, s, Pose(0.0, -w, 0.0), left)
  {
    hide Combined;
    Beside(c, s, w);
  }

  /** Placing the left foot beside the right one puts the right one beside the left. */
  lemma TogetherFromRight(m: Maths, c: Config, left: Pose, right: Pose)
    requires left == PoseGlobal(m, Pose(0.0, 2.0 * c.stance.footY, 0.0), right)
    ensures Together(m, c, left, right)
  {
    assert left.a == right.a;
    hide Placed;
    var t := m.turn(right.a);
    PlacedBack(t.c, t.s, 2.0 * c.stance.footY, left, right);
  }

  lemma Apiece(c: real, s: real, x: real, y: real)
    ensures Combined(c, x, -s, -y) == Combined(c, x, -s, y) + Combined(c, 0.0, -s, -2.0 * y)
    ensures Combined(s, x, c, -y) == Combined(s, x, c, y) + Combined(s, 0.0, c, -2.0 * y)
  {
  }

  lemma PlacedApiece(c: real, s: real, x: real, y: real, torso: Pose)
    ensures Placed(c, s, Pose(x, -y, 0.0), torso)
            == Placed(c, s, Pose(0.0, -2.0 * y, 0.0), Placed(c, s, Pose(x, y, 0.0), torso))
  {
    hide Combined;
    Apiece(c, s, x, y);
  }

  /** Feet placed on either side of the torso are together. */
  lemma ResetTogether(m: Maths, c: Config, torso: Pose)
    ensures Together(m, c, PoseGlobal(m, Pose(-c.supportX, c.stance.footY, 0.0), torso),
                           PoseGlobal(m, Pose(-c.supportX, -c.stance.footY, 0.0), torso))
  {
    var left := PoseGlobal(m, Pose(-c.supportX, c.stance.footY, 0.0), torso);
    assert left.a == torso.a;
    hide Placed;
    var t := m.turn(torso.a);
    PlacedApiece(t.c, t.s, -c.supportX, c.stance.footY, torso);
  }

  /** Feet together are far enough apart, from either foot. */
  lemma TogetherIsApart(m: Maths, c: Config, support: Leg, left: Pose, right: Pose)
    requires SoundConfig(m, c) && Together(m, c, left, right)
    ensures FeetApart(m, c, support, left, right)
  {
    hide PoseRelative, ModAngle, TakesRoots;
    ReducedStays(0.0, m.pi);
    var w := 2.0 * c.stance.footY;
    RelativeUndoesGlobal(m, Pose(0.0, -w, 0.0), left);
    if support == RightLeg {
      assert left == PoseGlobal(m, Pose(0.0, w, 0.0), right) by {
        assert left.a == right.a;
        hide Placed;
        var t := m.turn(left.a);
        PlacedBack(t.c, t.s, -w, right, left);
      }
      RelativeUndoesGlobal(m, Pose(0.0, w, 0.0), right);
    }
    hide PoseGlobal;
  }

  // ----- One event -----

  lemma BegunStep(m: Maths, c: Config, g: Gait)
    requires SoundConfig(m, c) && Inv(m, c, g)
    ensures var b := StepBegun(c, g);
      && InLimits(c.limits, b.velCurrent) && InLimits(c.limits, b.velCommand) && b.tStep == c.tStep0
      && b.left1 == b.left2 == g.left2 && b.right1 == b.right2 == g.right2
      && b.active == g.active && b.stopRequest == g.stopRequest
  {
    hide Diff, Sum, TakesRoots, FeetApart, Together, Eased, Ordered, TurnsLittle, LegOf;
    NextIsEased(c.limits, g.velCurrent, g.velCommand);
    EasedStaysInLimits(c.limits, g.velCurrent,
                       Sum(g.velCurrent, Diff(c.limits, g.velCurrent, g.velCommand)), g.velCommand);
  }

  lemma LastStepTogether(m: Maths, c: Config, g: Gait)
    requires g.left1 == g.left2 && g.right1 == g.right2
    ensures var r := LastStep(m, c, g); Together(m, c, r.left2, r.right2)
  {
    assert Scaled(-2.0, Offset(c.stance)) == Pose(0.0, -2.0 * c.stance.footY, 0.0);
    assert Scaled(2.0, Offset(c.stance)) == Pose(0.0, 2.0 * c.stance.footY, 0.0);
    hide PoseGlobal;
    if g.supportLeg == RightLeg {
      TogetherFromRight(m, c, LastStep(m, c, g).left2, g.right2);
    }
  }

  lemma NormalStepApart(m: Maths, c: Config, g: Gait)
    requires SoundConfig(m, c) && g.left1 == g.left2 && g.right1 == g.right2
    ensures var r := NormalStep(m, c, g); FeetApart(m, c, r.supportLeg, r.left2, r.right2)
  {
    hide PoseRelative, StepLeftDestination, StepRightDestination, Apart, Mirror, TakesRoots, Within, SoundLimits;
    StepsKeepApart(m, c.stance, g.velCurrent, g.left1, g.right1);
  }

  lemma LastStepKeepsInv(m: Maths, c: Config, b: Gait)
    requires SoundConfig(m, c) && b.tStep == c.tStep0 && b.left1 == b.left2 && b.right1 == b.right2
    ensures Inv(m, c, LastStep(m, c, b))
  {
    assert InLimits(c.limits, STILL);
    hide InLimits, FeetApart, Together, PoseGlobal, Scaled, Ordered, TurnsLittle, TakesRoots;
    var r := LastStep(m, c, b);
    LastStepTogether(m, c, b);
    TogetherIsApart(m, c, r.supportLeg, r.left2, r.right2);
  }

  lemma NormalStepKeepsInv(m: Maths, c: Config, b: Gait)
    requires SoundConfig(m, c) && b.active && 0 <= b.stopRequest < 2 && b.left1 == b.left2 && b.right1 == b.right2
    requires InLimits(c.limits, b.velCurrent) && InLimits(c.limits, b.velCommand)
    ensures Inv(m, c, NormalStep(m, c, b))
  {
    hide InLimits, FeetApart, Together, StepLeftDestination, StepRightDestination, Ordered, TurnsLittle, TakesRoots;
    NormalStepApart(m, c, b);
  }

  lemma NewStepKeepsInv(m: Maths, c: Config, g: Gait)
    requires SoundConfig(m, c) && Inv(m, c, g) && g.active && g.stopRequest != 2
    ensures Inv(m, c, NewStep(m, c, g))
  {
    BegunStep(m, c, g);
    hide StepBegun, LastStep, NormalStep, InLimits, FeetApart, Together, Ordered, TurnsLittle, TakesRoots;
    var b := StepBegun(c, g);
    if g.stopRequest == 1 {
      LastStepKeepsInv(m, c, b);
    } else {
      NormalStepKeepsInv(m, c, b);
    }
  }

  lemma ClockedKeepsInv(m: Maths, c: Config, g: Gait, time: real)
    requires SoundConfig(m, c) && Inv(m, c, g)
    ensures var r := Clocked(g, time); Inv(m, c, r) && r.active == g.active && r.stopRequest == g.stopRequest
  {
    hide FeetApart, Together, Phase, InLimits, TakesRoots;
  }

  lemma UpdateKeepsInv(m: Maths, c: Config, g: Gait, time: real)
    requires SoundConfig(m, c) && Inv(m, c, g)
    ensures Inv(m, c, Updated(m, c, g, time).0)
  {
    hide Clocked, NewStep, TakesRoots, FeetApart, Together, InLimits, SoundLimits;
    ClockedKeepsInv(m, c, g, time);
    var g' := Clocked(g, time);
    if g.active && g'.iStep > g'.iStep0 && g'.stopRequest != 2 {
      NewStepKeepsInv(m, c, g');
    }
  }

  lemma ResetKeepsInv(m: Maths, c: Config, g: Gait, torso: Pose, now: real)
    requires SoundConfig(m, c)
    requires g.tStep == c.tStep0 && 0 <= g.stopRequest <= 2 && InLimits(c.limits, g.velCurrent)
             && InLimits(c.limits, g.velCommand)
    ensures Inv(m, c, StanceReset(m, c, g, torso, now))
  {
    hide Together, FeetApart, PoseGlobal, InLimits, TakesRoots;
    ResetTogether(m, c, torso);
    var r := StanceReset(m, c, g, torso, now);
    TogetherIsApart(m, c, r.supportLeg, r.left2, r.right2);
  }

  lemma EventKeepsInv(m: Maths, c: Config, g: Gait, e: Event)
    requires SoundConfig(m, c) && Inv(m, c, g)
    ensures Inv(m, c, Handled(m, c, g, e).0)
  {
    match e
    case Start(now) =>
      hide Together, FeetApart, InLimits;
    case Stop =>
      hide Together, FeetApart, InLimits;
    case Reset(torso, now) =>
      hide StanceReset, Together, FeetApart, InLimits;
      ResetKeepsInv(m, c, g, torso, now);
    case SetVelocity(v) =>
      hide Together, FeetApart, Commanded, InLimits, TakesRoots, SoundLimits;
      CommandedIsInLimits(m, c.limits, v);
    case Update(time) =>
      hide Updated, Together, FeetApart, InLimits;
      UpdateKeepsInv(m, c, g, time);
  }

  // ----- Whole runs -----

  lemma {:induction false} RunKeepsInv(m: Maths, c: Config, g: Gait, es: seq<Event>)
    requires Able(c) && SoundConfig(m, c) && Inv(m, c, g)
    ensures Inv(m, c, Run(m, c, g, es).0)
    decreases |es|
  {
    assert Able(c);
    hide Handled, SoundLimits, TakesRoots, FeetApart, Together, Able;
    if es != [] {
      EventKeepsInv(m, c, g, es[0]);
      RunKeepsInv(m, c, Handled(m, c, g, es[0]).0, es[1..]);
    }
  }

  lemma InitialInv(m: Maths, c: Config, now: real)
    requires SoundConfig(m, c)
    ensures Inv(m, c, Initial(m, c, now))
  {
    hide StanceReset, Together, FeetApart;
    var g := Gait(false, false, 2, 0, -1, now, c.tStep0, 0.0, 2, STILL, STILL, STILL,
                  LeftLeg, STILL, STILL, STILL, STILL);
    ResetKeepsInv(m, c, g, Pose(c.supportX, 0.0, 0.0), now);
  }

  /** Whatever happens to the engine, its velocities stay within their limits, its feet never cross or
      come closer than the stance allows, and when it stands its feet are together. */
  lemma EveryRunIsSafe(m: Maths, c: Config, now: real, es: seq<Event>)
    requires SoundConfig(m, c)
    ensures var g := Run(m, c, Initial(m, c, now), es).0;
      && InLimits(c.limits, g.velCurrent) && InLimits(c.limits, g.velCommand)
      && FeetApart(m, c, g.supportLeg, g.left2, g.right2)
      && (!g.active ==> Together(m, c, g.left2, g.right2))
  {
    hide Run, Initial, InLimits, FeetApart, Together;
    InitialInv(m, c, now);
    RunKeepsInv(m, c, Initial(m, c, now), es);
  }

  /** However the robot came to walk, a stop takes exactly one more step, or none when the last step is
      under way, and then one halt, unless a start comes first; and it does so once two updates have come
      late, or one. */
  lemma EveryStopTakesOneStep(m: Maths, c: Config, now: real, before: seq<Event>, after: seq<Event>)
    requires SoundConfig(m, c) && NoStart(after)
    requires Run(m, c, Initial(m, c, now), before).0.active
    ensures var g := Run(m, c, Initial(m, c, now), before).0;
      var r := Run(m, c, g, [Stop] + after);
      var left := if g.stopRequest == 2 then 0 else 1;
      && Steps(r.1) <= left && Halts(r.1) <= 1
      && (!r.0.active <==> Halts(r.1) == 1)
      && (!r.0.active ==> Steps(r.1) == left)
      && (LateUpdates(after, g.tLastStep, c.tStep0) > left ==> !r.0.active)
  {
    assert Pacing(Initial(m, c, now)) by { hide PoseGlobal; }
    hide Run, Pacing, Initial, InLimits, FeetApart, Together;
    InitialInv(m, c, now);
    RunKeepsInv(m, c, Initial(m, c, now), before);
    RunKeepsPacing(m, c, Initial(m, c, now), before);
    StopTakesOneStep(m, c, Run(m, c, Initial(m, c, now), before).0, after);
  }

  /** While the legs are kept, the robot stands on its left leg first and on each leg in turn. */
  lemma EveryRunAlternates(m: Maths, c: Config, now: real, es: seq<Event>)
    requires SoundConfig(m, c) && NoReset(es)
    ensures var os := Run(m, c, Initial(m, c, now), es).1; Supports(os) == InTurn(LeftLeg, Steps(os))
  {
    hide Run, PoseGlobal, InLimits;
    StepsAlternate(m, c, Initial(m, c, now), es);
  }

  // ----- What one step changes -----

  lemma RampedOnce(l: Limits, v: Pose, command: Pose)
    ensures Ramped(l, v, command, 1) == Sum(v, Diff(l, v, command))
  {
    assert Ramped(l, v, command, 0) == v;
    hide Sum, Diff;
  }

  lemma BegunFollows(c: Config, g: Gait)
    ensures StepBegun(c, g).velCurrent
            == if g.initialStep > 0 then STILL else Ramped(c.limits, g.velCurrent, g.velCommand, 1)
  {
    hide Diff, Sum, Ramped;
    RampedOnce(c.limits, g.velCurrent, g.velCommand);
  }

  /** An event changes the current velocity only by beginning a step. A normal step that is not one of
      the first two moves it one update towards the command, easing every component; any other drops it
      to nothing. */
  lemma EventFollowsCommand(m: Maths, c: Config, g: Gait, e: Event)
    requires Able(c) && g.tStep == c.tStep0 && SoundLimits(c.limits)
    ensures var r := Handled(m, c, g, e);
      if !r.1.Stepped? then r.0.velCurrent == g.velCurrent
      else if g.stopRequest == 1 || g.initialStep > 0 then r.0.velCurrent == STILL
      else r.0.velCurrent == Ramped(c.limits, g.velCurrent, g.velCommand, 1)
           && Eased(c.limits, g.velCurrent, r.0.velCurrent, g.velCommand)
  {
    hide PoseGlobal, StepLeftDestination, StepRightDestination, Commanded, VelocityUpdated, Eased, Phase, SoundLimits,
         Ramped;
    if e.Update? && g.active {
      BegunFollows(c, Clocked(g, e.time));
      NextIsEased(c.limits, g.velCurrent, g.velCommand);
      RampedOnce(c.limits, g.velCurrent, g.velCommand);
      hide Diff, Sum;
    }
  }

  /** A step leaves the supporting foot where it stands. */
  lemma SupportFootStays(m: Maths, c: Config, g: Gait, time: real)
    requires Able(c) && g.tStep == c.tStep0
    ensures var r := Updated(m, c, g, time);
      && (r.1 == Stepped(LeftLeg) ==> r.0.left1 == r.0.left2 == g.left2 && r.0.right1 == g.right2)
      && (r.1 == Stepped(RightLeg) ==> r.0.right1 == r.0.right2 == g.right2 && r.0.left1 == g.left2)
      && (!r.1.Stepped? ==> r.0.left2 == g.left2 && r.0.right2 == g.right2)
  {
    hide PoseGlobal, StepLeftDestination, StepRightDestination, Diff, Sum, Phase;
  }
}
