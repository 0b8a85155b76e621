/** Where the steps of the gait automaton put the foot down, read from the other one. */
module StepTargets {
  import opened Poses
  import opened FootPlacement
  import opened Velocities
  import opened Gaits
  import opened GaitSafety
  import opened StraightSteps

  // ----- Limits -----

  /** The least width is the greatest of three: the stance's, and what keeps toes and what keeps heels clear. */
  ghost predicate IsLeastWidth(c: Stance, turn: real, width: real) {
    && c.y.lo <= width && c.y2 + Product(c.footX.lo, turn) <= width && c.y2 + Product(c.footX.hi, turn) <= width
    && (width == c.y.lo || width == c.y2 + Product(c.footX.lo, turn) || width == c.y2 + Product(c.footX.hi, turn))
  }

  /** A target is limited component by component, and left alone where it is within its limits. */
  lemma LimitedExactly(c: Stance, rel: Pose, left: real, right: real)
    requires IsLeastWidth(c, -rel.a, left) && IsLeastWidth(c, rel.a, right)
    ensures LeftLimited(c, rel)
         == Pose(Limit(rel.x, c.x.lo, c.x.hi), Limit(rel.y, left, c.y.hi), Limit(rel.a, c.a.lo, c.a.hi))
    ensures RightLimited(c, rel)
         == Pose(Limit(rel.x, c.x.lo, c.x.hi), Limit(rel.y, -c.y.hi, -right), Limit(rel.a, -c.a.hi, -c.a.lo))
  {
    hide Product;
  }

  lemma WidthOfNoTurn(c: Stance)
    ensures IsLeastWidth(c, 0.0, Max(c.y.lo, c.y2)) && IsLeastWidth(c, -0.0, Max(c.y.lo, c.y2))
  {
    assert Product(c.footX.lo, 0.0) == 0.0 && Product(c.footX.hi, 0.0) == 0.0;
  }

  // ----- Feet that head the same way -----

  lemma HalfPlaced(c: real, s: real, d: Pose, left: Pose, right: Pose)
    requires left == Placed(c, s, d, right) && d.a == 0.0
    ensures Placed(c, s, Scaled(0.5, d), right)
         == Pose(right.x + 0.5 * (left.x - right.x), right.y + 0.5 * (left.y - right.y), right.a)
  {
    HalfCombined(c, d.x, -s, d.y);
    HalfCombined(s, d.x, c, d.y);
    hide Combined;
  }

  lemma HalfCombined(k: real, x: real, l: real, y: real)
    ensures Combined(k, 0.5 * x, l, 0.5 * y) == 0.5 * Combined(k, x, l, y)
  {
  }

  lemma NegatedCombined(k: real, x: real, l: real, y: real)
    ensures Combined(k, -x, l, -y) == -Combined(k, x, l, y)
  {
  }

  /** The middle between such feet is half way from either. */
  lemma MiddleBetween(m: Maths, these: Pose, those: Pose)
    requires these.a == those.a
    ensures var d := PoseRelative(m, these, those);
      && d.a == 0.0 && Interpolate(m, 0.5, these, those) == PoseGlobal(m, Scaled(0.5, d), those)
      && Interpolate(m, 0.5, those, these) == PoseGlobal(m, Scaled(0.5, d), those)
  {
    hide ModAngle, Combined, Interpolate;
    var d := PoseRelative(m, these, those);
    ReducedStays(0.0, m.pi);
    GlobalUndoesRelative(m, these, those);
    HalfPlaced(m.turn(those.a).c, m.turn(those.a).s, d, these, those);
    SameHeading(m, these, those);
    SameHeading(m, those, these);
  }

  /** Each reads the other the other way round. */
  lemma ReadBack(m: Maths, these: Pose, those: Pose)
    requires these.a == those.a
    ensures var d := PoseRelative(m, these, those); PoseRelative(m, those, these) == Pose(-d.x, -d.y, 0.0)
  {
    hide ModAngle, Combined;
    ReducedStays(0.0, m.pi);
    var t, x, y := m.turn(those.a), these.x - those.x, these.y - those.y;
    NegatedCombined(t.c, x, t.s, y);
    NegatedCombined(-t.s, x, t.c, y);
    assert those.x - these.x == -x && those.y - these.y == -y;
  }

  /** A velocity that does not turn takes the left foot one and a half steps ahead of the place beside the
      middle between the feet. */
  lemma LeftGoesAhead(m: Maths, c: Stance, vel: Pose, left: Pose, right: Pose)
    requires left.a == right.a && vel.a == 0.0
    ensures var d := PoseRelative(m, left, right);
      LeftPredicted(m, c, vel, left, right) == Pose(0.5 * d.x + 1.5 * vel.x, 0.5 * d.y + c.footY + 1.5 * vel.y, 0.0)
  {
    hide PoseGlobal, PoseRelative, Interpolate, Ahead;
    MiddleBetween(m, left, right);
    var side := Scaled(0.5, PoseRelative(m, left, right));
    AheadOf(m, vel, left, right, side, right);
    var ahead := Further(side, Scaled(1.5, vel));
    GlobalTwice(m, ahead, Offset(c), right);
    PlacedPlain(m, Further(ahead, Offset(c)), right);
  }

  /** And the right foot likewise. */
  lemma RightGoesAhead(m: Maths, c: Stance, vel: Pose, left: Pose, right: Pose)
    requires left.a == right.a && vel.a == 0.0
    ensures var d := PoseRelative(m, right, left);
      RightPredicted(m, c, vel, left, right) == Pose(0.5 * d.x + 1.5 * vel.x, 0.5 * d.y - c.footY + 1.5 * vel.y, 0.0)
  {
    hide PoseGlobal, PoseRelative, Interpolate, Ahead;
    MiddleBetween(m, right, left);
    var side := Scaled(0.5, PoseRelative(m, right, left));
    AheadOf(m, vel, left, right, side, left);
    var ahead := Further(side, Scaled(1.5, vel));
    GlobalTwice(m, ahead, Scaled(-1.0, Offset(c)), left);
    PlacedPlain(m, Further(ahead, Scaled(-1.0, Offset(c))), left);
  }

  // ----- Steps of the automaton -----

  /** The swinging foot, as it reads from the supporting one. */
  ghost function Swung(m: Maths, support: Leg, left: Pose, right: Pose): Pose {
    if support == LeftLeg then PoseRelative(m, right, left) else PoseRelative(m, left, right)
  }

  /** Where a step without a turn puts it: one and a half steps on from half way, within the stance. */
  function StraightTarget(c: Stance, support: Leg, from: Pose, vel: Pose): Pose {
    var width := Max(c.y.lo, c.y2);
    Pose(Limit(0.5 * from.x + 1.5 * vel.x, c.x.lo, c.x.hi),
         if support == LeftLeg then Limit(0.5 * from.y - c.footY + 1.5 * vel.y, -c.y.hi, -width)
         else Limit(0.5 * from.y + c.footY + 1.5 * vel.y, width, c.y.hi),
         0.0)
  }

  lemma LeftStepGoesTo(m: Maths, c: Stance, vel: Pose, left: Pose, right: Pose)
    requires TurnsLittle(m, c) && Within(0.0, c.a) && left.a == right.a && vel.a == 0.0
    ensures var target := StepLeftDestination(m, c, vel, left, right);
      PoseRelative(m, target, right) == StraightTarget(c, RightLeg, PoseRelative(m, left, right), vel)
        && target.a == right.a
  {
    hide PoseRelative, LeftPredicted, LeftLimited;
    LeftReadsBack(m, c, vel, left, right);
    LeftGoesAhead(m, c, vel, left, right);
    WidthOfNoTurn(c);
    LimitedExactly(c, LeftPredicted(m, c, vel, left, right), Max(c.y.lo, c.y2), Max(c.y.lo, c.y2));
  }

  lemma RightStepGoesTo(m: Maths, c: Stance, vel: Pose, left: Pose, right: Pose)
    requires TurnsLittle(m, c) && Within(0.0, c.a) && left.a == right.a && vel.a == 0.0
    ensures var target := StepRightDestination(m, c, vel, left, right);
      PoseRelative(m, target, left) == StraightTarget(c, LeftLeg, PoseRelative(m, right, left), vel)
        && target.a == left.a
  {
    hide PoseRelative, RightPredicted, RightLimited;
    RightReadsBack(m, c, vel, left, right);
    RightGoesAhead(m, c, vel, left, right);
    WidthOfNoTurn(c);
    LimitedExactly(c, RightPredicted(m, c, vel, left, right), Max(c.y.lo, c.y2), Max(c.y.lo, c.y2));
  }

  /** A normal step is the one that begins when no stop is requested. */
  lemma NormalStepIs(m: Maths, c: Config, g: Gait, time: real)
    requires Able(c) && g.tStep == c.tStep0 && g.stopRequest != 1 && Updated(m, c, g, time).1.Stepped?
    ensures var r := Updated(m, c, g, time); var support := r.1.support;
      && r.0.supportLeg == support
      && if support == LeftLeg
         then r.0.left2 == g.left2
              && r.0.right2 == StepRightDestination(m, c.stance, r.0.velCurrent, g.left2, g.right2)
         else r.0.right2 == g.right2
              && r.0.left2 == StepLeftDestination(m, c.stance, r.0.velCurrent, g.left2, g.right2)
  {
    hide StepLeftDestination, StepRightDestination, Diff, Sum, Phase;
  }

  /** From feet that head the same way a normal step without a turn puts the foot down where its velocity
      after the update takes it, and the feet go on heading the same way. */
  lemma StraightStep(m: Maths, c: Config, g: Gait, time: real)
    requires Able(c) && g.tStep == c.tStep0 && g.stopRequest != 1 && Updated(m, c, g, time).1.Stepped?
    requires TurnsLittle(m, c.stance) && Within(0.0, c.stance.a)
    requires g.left2.a == g.right2.a && Updated(m, c, g, time).0.velCurrent.a == 0.0
    ensures var r := Updated(m, c, g, time); var support := r.1.support;
      && Swung(m, support, r.0.left2, r.0.right2)
         == StraightTarget(c.stance, support, Swung(m, support, g.left2, g.right2), r.0.velCurrent)
      && r.0.left2.a == r.0.right2.a && r.0.supportLeg == support
  {
    hide Updated, StepLeftDestination, StepRightDestination, PoseRelative, StraightTarget;
    NormalStepIs(m, c, g, time);
    var v := Updated(m, c, g, time).0.velCurrent;
    if Updated(m, c, g, time).1.support == LeftLeg {
      RightStepGoesTo(m, c.stance, v, g.left2, g.right2);
    } else {
      LeftStepGoesTo(m, c.stance, v, g.left2, g.right2);
    }
  }

  /** So from feet together the foot is put one and a half steps ahead and sideways, as far as the stance
      allows. */
  lemma StepFromTogether(m: Maths, c: Config, g: Gait, time: real)
    requires Able(c) && g.tStep == c.tStep0 && g.stopRequest != 1 && Updated(m, c, g, time).1.Stepped?
    requires TurnsLittle(m, c.stance) && Within(0.0, c.stance.a)
    requires Together(m, c, g.left2, g.right2) && Updated(m, c, g, time).0.velCurrent.a == 0.0
    ensures var r := Updated(m, c, g, time); var support, v, s := r.1.support, r.0.velCurrent, c.stance;
      var width := if s.y.lo <= s.y2 then s.y2 else s.y.lo;
      Swung(m, support, r.0.left2, r.0.right2)
        == Pose(Limit(1.5 * v.x, s.x.lo, s.x.hi),
                if support == LeftLeg then Limit(1.5 * v.y - 2.0 * s.footY, -s.y.hi, -width)
                else Limit(1.5 * v.y + 2.0 * s.footY, width, s.y.hi),
                0.0)
  {
    hide Updated, PoseRelative, PoseGlobal, Limit, TurnsLittle, Within;
    TogetherReads(m, c, g.left2, g.right2);
    StraightStep(m, c, g, time);
  }

  lemma TogetherReads(m: Maths, c: Config, left: Pose, right: Pose)
    requires Together(m, c, left, right)
    ensures left.a == right.a
    ensures PoseRelative(m, right, left) == Pose(0.0, -2.0 * c.stance.footY, 0.0)
    ensures PoseRelative(m, left, right) == Pose(0.0, 2.0 * c.stance.footY, 0.0)
  {
    assert left.a == right.a;
    hide PoseRelative, PoseGlobal;
    PlacedPlain(m, Pose(0.0, -2.0 * c.stance.footY, 0.0), left);
    ReadBack(m, right, left);
  }

  // ----- Walking forwards -----

  /** The robot is on its way forwards under a command that is kept: no foot is further ahead of the other
      than one and a half steps, and the one that swung last is not behind. */
  ghost predicate Forwards(m: Maths, c: Config, g: Gait, command: Pose) {
    && g.tStep == c.tStep0 && g.active && g.stopRequest == 0 && g.velCommand == command && g.initialStep >= 0
    && g.left2.a == g.right2.a && Settled(g)
    && (g.started ==> g.supportLeg == LegOf(g.iStep))
    && var ahead := Swung(m, g.supportLeg, g.left2, g.right2).x;
       if g.initialStep > 0 then ahead == 0.0
       else
         && g.started && 0.0 <= g.velCurrent.x <= command.x && g.velCurrent.a == 0.0
         && 0.0 <= ahead <= 1.5 * g.velCurrent.x
  }

  /** Settings with which a command to go forwards moves the robot. */
  ghost predicate Moves(m: Maths, c: Config, command: Pose) {
    && Able(c) && SoundConfig(m, c) && c.stance.x.hi > 0.0 && c.limits.delta.x > 0.0 && c.limits.deltaXHigh > 0.0
    && command.x > 0.0 && command.a == 0.0
  }

  lemma NextIsFaster(l: Limits, v: Pose, command: Pose)
    requires SoundLimits(l) && l.delta.x > 0.0 && l.deltaXHigh > 0.0
    requires 0.0 <= v.x <= command.x && 0.0 < command.x && v.a == command.a == 0.0
    ensures var w := Ramped(l, v, command, 1); v.x <= w.x <= command.x && 0.0 < w.x && w.a == 0.0
  {
    RampedOnce(l, v, command);
  }

  lemma TargetIsAhead(c: Stance, support: Leg, from: Pose, v: real, vel: Pose)
    requires Within(0.0, c.x) && c.x.hi > 0.0 && 0.0 <= v <= vel.x && -1.5 * v <= from.x <= 0.0
    ensures var x := StraightTarget(c, support, from, vel).x; 0.0 <= x <= 1.5 * vel.x && (vel.x > 0.0 ==> x > 0.0)
  {
  }

  /** What the automaton keeps beside the feet. */
  lemma UpdateKeepsOrder(m: Maths, c: Config, g: Gait, time: real)
    requires Able(c) && g.tStep == c.tStep0 && g.active && g.stopRequest == 0 && Settled(g)
    ensures var r := Updated(m, c, g, time);
      && r.0.tStep == c.tStep0 && r.0.active && r.0.started && r.0.stopRequest == 0 && r.0.velCommand == g.velCommand
      && Settled(r.0) && (r.1.Stepped? || r.1.Walked?)
      && if r.1.Stepped?
         then r.0.initialStep == (if g.initialStep > 0 then g.initialStep - 1 else g.initialStep)
              && r.0.supportLeg == r.1.support == LegOf(r.0.iStep) && (g.started ==> r.0.iStep == g.iStep + 1)
         else g.started && r.0.initialStep == g.initialStep && r.0.supportLeg == g.supportLeg && r.0.iStep == g.iStep
              && r.0.velCurrent == g.velCurrent && r.0.left2 == g.left2 && r.0.right2 == g.right2
  {
    hide PoseGlobal, StepLeftDestination, StepRightDestination, Diff, Sum, Ratio;
    if !g.started {
      NotStartedHasNoPhase(g, time);
    }
  }

  /** Each update keeps the robot on its way; after the first two steps, which are made on the spot, a step
      puts the foot ahead of the other. */
  lemma ForwardsGoesOn(m: Maths, c: Config, g: Gait, command: Pose, time: real)
    requires Moves(m, c, command) && Forwards(m, c, g, command)
    ensures var r := Updated(m, c, g, time);
      && Forwards(m, c, r.0, command)
      && (r.1.Stepped? ==> var ahead := Swung(m, r.1.support, r.0.left2, r.0.right2).x;
                           if g.initialStep > 0 then ahead == 0.0 else ahead > 0.0)
  {
    hide Updated, PoseRelative, StraightTarget, Ramped, TurnsLittle, SoundLimits, Ordered, Settled, LegOf;
    UpdateKeepsOrder(m, c, g, time);
    var r := Updated(m, c, g, time);
    if r.1.Stepped? {
      UpdateFollowsCommand(m, c, g, time);
      if g.initialStep == 0 {
        NextIsFaster(c.limits, g.velCurrent, command);
      }
      StraightStep(m, c, g, time);
      ReadBack(m, g.left2, g.right2);
      ReadBack(m, g.right2, g.left2);
      LegsAlternate(g.iStep);
      TargetIsAhead(c.stance, r.1.support, Swung(m, r.1.support, g.left2, g.right2),
                    if g.initialStep > 0 then 0.0 else g.velCurrent.x, r.0.velCurrent);
    }
  }

  lemma UpdateFollowsCommand(m: Maths, c: Config, g: Gait, time: real)
    requires Able(c) && g.tStep == c.tStep0 && SoundLimits(c.limits) && g.stopRequest == 0
    requires Updated(m, c, g, time).1.Stepped?
    ensures Updated(m, c, g, time).0.velCurrent
         == if g.initialStep > 0 then STILL else Ramped(c.limits, g.velCurrent, g.velCommand, 1)
  {
    hide Updated, Ramped, Eased;
    EventFollowsCommand(m, c, g, Update(time));
  }

  ghost predicate AllUpdates(es: seq<Event>) {
    forall k :: 0 <= k < |es| ==> es[k].Update?
  }

  lemma {:induction false} RunGoesForwards(m: Maths, c: Config, g: Gait, command: Pose, es: seq<Event>)
    requires Moves(m, c, command) && Forwards(m, c, g, command) && AllUpdates(es)
    ensures Forwards(m, c, Run(m, c, g, es).0, command)
    decreases |es|
  {
    hide Forwards, Updated, SoundConfig;
    if es != [] {
      ForwardsKeepsPeriod(m, c, g, command);
      ForwardsGoesOn(m, c, g, command, es[0].time);
      RunOn(m, c, g, es);
      RunGoesForwards(m, c, Handled(m, c, g, es[0]).0, command, es[1..]);
    }
  }

  lemma ForwardsKeepsPeriod(m: Maths, c: Config, g: Gait, command: Pose)
    requires Forwards(m, c, g, command)
    ensures g.tStep == c.tStep0
  {
  }

  /** The engine as a robot that stands is told to go and started. */
  ghost function SetOff(m: Maths, c: Config, g: Gait, v: Pose, now: real): (r: Gait)
    requires Able(c) && g.tStep == c.tStep0
    ensures r.tStep == c.tStep0
  {
    Handled(m, c, Handled(m, c, g, SetVelocity(v)).0, Start(now)).0
  }

  lemma SetOffIsForwards(m: Maths, c: Config, g: Gait, v: Pose, now: real)
    requires Able(c) && Moves(m, c, Commanded(m, c.limits, v)) && Inv(m, c, g) && Pacing(g) && !g.active
    ensures Forwards(m, c, SetOff(m, c, g, v, now), Commanded(m, c.limits, v))
  {
    hide PoseRelative, PoseGlobal, Commanded, SoundConfig, FeetApart, InLimits;
    TogetherReads(m, c, g.left2, g.right2);
  }

  /** Whatever came before, a standing robot that is told to go forwards and started marks time for two steps
      and then puts every foot down ahead of the other, while the command is kept. */
  lemma ToldToGoForwardsItDoes(m: Maths, c: Config, begun: real, before: seq<Event>, v: Pose, now: real,
                               es: seq<Event>, time: real)
    requires Able(c) && Moves(m, c, Commanded(m, c.limits, v)) && AllUpdates(es)
    requires !Run(m, c, Initial(m, c, begun), before).0.active
    ensures var g := Run(m, c, SetOff(m, c, Run(m, c, Initial(m, c, begun), before).0, v, now), es).0;
      var r := Updated(m, c, g, time);
      r.1.Stepped? ==>
        var ahead := Swung(m, r.1.support, r.0.left2, r.0.right2).x;
        if g.initialStep > 0 then ahead == 0.0 else ahead > 0.0
  {
    hide Run, Updated, Pacing, Forwards, Inv, SetOff, Commanded, SoundConfig, PoseGlobal, Swung;
    var start := Run(m, c, Initial(m, c, begun), before).0;
    InitialInv(m, c, begun);
    RunKeepsInv(m, c, Initial(m, c, begun), before);
    InitialPaces(m, c, begun);
    RunKeepsPacing(m, c, Initial(m, c, begun), before);
    SetOffIsForwards(m, c, start, v, now);
    RunGoesForwards(m, c, SetOff(m, c, start, v, now), Commanded(m, c.limits, v), es);
    ForwardsGoesOn(m, c, Run(m, c, SetOff(m, c, start, v, now), es).0, Commanded(m, c.limits, v), time);
  }

  lemma InitialPaces(m: Maths, c: Config, now: real)
    ensures Pacing(Initial(m, c, now))
  {
    hide PoseGlobal;
  }

  // ----- Turning -----

  /** Where the robot is to be one and a half steps from now: half way between the feet, on by the velocity, and
      on by half of it again as the heading will be then. */
  lemma AheadExactly(m: Maths, vel: Pose, left: Pose, right: Pose)
    ensures var heading := left.a + 0.5 * ModAngle(right.a - left.a, m.pi);
      var t, u := m.turn(heading), m.turn(heading + vel.a);
      Ahead(m, vel, left, right)
        == Pose(0.5 * (left.x + right.x) + Combined(t.c, vel.x, -t.s, vel.y) + 0.5 * Combined(u.c, vel.x, -u.s, vel.y),
                0.5 * (left.y + right.y) + Combined(t.s, vel.x, t.c, vel.y) + 0.5 * Combined(u.s, vel.x, u.c, vel.y),
                heading + 1.5 * vel.a)
  {
    hide ModAngle, Combined;
    var heading := left.a + 0.5 * ModAngle(right.a - left.a, m.pi);
    var u := m.turn(heading + vel.a);
    HalfCombined(u.c, vel.x, -u.s, vel.y);
    HalfCombined(u.s, vel.x, u.c, vel.y);
  }

  lemma Sideways(c: real, s: real, w: real)
    ensures Combined(c, 0.0, -s, w) == -Product(s, w) && Combined(s, 0.0, c, w) == Product(c, w)
  {
  }

  /** Before it is limited, a foot's target is beside that place, the left foot's to the left. */
  lemma TargetsExactly(m: Maths, c: Stance, vel: Pose, left: Pose, right: Pose)
    ensures var ahead := Ahead(m, vel, left, right); var t := m.turn(ahead.a);
      var l := PoseGlobal(m, LeftPredicted(m, c, vel, left, right), right);
      var r := PoseGlobal(m, RightPredicted(m, c, vel, left, right), left);
      && l == Pose(ahead.x - Product(t.s, c.footY), ahead.y + Product(t.c, c.footY),
                   right.a + ModAngle(ahead.a - right.a, m.pi))
      && r == Pose(ahead.x + Product(t.s, c.footY), ahead.y - Product(t.c, c.footY),
                   left.a + ModAngle(ahead.a - left.a, m.pi))
  {
    hide ModAngle, Ahead, PoseRelative, Combined, Product;
    var ahead := Ahead(m, vel, left, right);
    var t := m.turn(ahead.a);
    Sideways(t.c, t.s, c.footY);
    Sideways(t.c, t.s, -c.footY);
    NegatedProduct(t.s, c.footY);
    NegatedProduct(t.c, c.footY);
    assert Scaled(-1.0, Offset(c)) == Pose(0.0, -c.footY, 0.0);
    GlobalUndoesRelative(m, PoseGlobal(m, Offset(c), ahead), right);
    GlobalUndoesRelative(m, PoseGlobal(m, Scaled(-1.0, Offset(c)), ahead), left);
  }

  lemma NegatedProduct(v: real, w: real)
    ensures Product(v, -w) == -Product(v, w)
  {
  }

  // ----- Standing -----

  /** Given its legs anew the robot stands with the middle between its feet a little behind its torso. */
  lemma ResetStandsUnderTorso(m: Maths, c: Config, g: Gait, torso: Pose, now: real)
    ensures var r := StanceReset(m, c, g, torso, now);
      && r.left1 == r.left2 && r.right1 == r.right2
      && Interpolate(m, 0.5, r.left2, r.right2) == PoseGlobal(m, Pose(-c.supportX, 0.0, 0.0), torso)
  {
    hide PoseGlobal, Interpolate, Together;
    ResetTogether(m, c, torso);
    var r := StanceReset(m, c, g, torso, now);
    MiddleOfFeet(m, c, r.left2, r.right2);
    GlobalTwice(m, Pose(-c.supportX, c.stance.footY, 0.0), Pose(0.0, -c.stance.footY, 0.0), torso);
  }

  // ----- Starting and going on -----

  predicate NoStop(es: seq<Event>) {
    forall k :: 0 <= k < |es| ==> !es[k].Stop?
  }

  /** A walking robot that is not told to stop, or told to go on before its last step, walks on. */
  lemma {:induction false} WalksOn(m: Maths, c: Config, g: Gait, es: seq<Event>)
    requires Able(c) && g.tStep == c.tStep0 && g.active && g.stopRequest == 0 && NoStop(es)
    ensures var r := Run(m, c, g, es); r.0.active && r.0.stopRequest == 0 && Halts(r.1) == 0
    decreases |es|
  {
    if es != [] {
      hide Handled, Run, Halts;
      RunOn(m, c, g, es);
      EventWalksOn(m, c, g, es[0]);
      var first := Handled(m, c, g, es[0]);
      WalksOn(m, c, first.0, es[1..]);
      NoHaltFirst(first.1, Run(m, c, first.0, es[1..]).1);
    } else {
      hide Handled;
    }
  }

  lemma EventWalksOn(m: Maths, c: Config, g: Gait, e: Event)
    requires Able(c) && g.tStep == c.tStep0 && g.active && g.stopRequest == 0 && !e.Stop?
    ensures var r := Handled(m, c, g, e); r.0.active && r.0.stopRequest == 0 && !r.1.Halted?
  {
    hide PoseGlobal, StepLeftDestination, StepRightDestination, Commanded, Diff, Sum, Ratio;
  }

  lemma NoHaltFirst(o: Outcome, os: seq<Outcome>)
    requires !o.Halted?
    ensures Halts([o] + os) == Halts(os)
  {
    assert ([o] + os)[1..] == os;
  }

  /** A stop that is not yet being carried out is withdrawn by a start, which leaves everything else. */
  lemma StartWithdrawsStop(m: Maths, c: Config, g: Gait, now: real)
    requires Able(c) && g.tStep == c.tStep0 && g.active
    ensures Handled(m, c, g, Start(now)) == (g.(stopRequest := 0), Quiet)
  {
  }

  /** The last step before a halt forgets the command; a robot that is about to halt or stands has none left
      unless it is given one. */
  predicate Forgotten(g: Gait) {
    g.stopRequest == 2 || !g.active ==> g.velCommand == STILL
  }

  predicate NoCommand(es: seq<Event>) {
    forall k :: 0 <= k < |es| ==> !es[k].SetVelocity?
  }

  lemma EventForgets(m: Maths, c: Config, g: Gait, e: Event)
    requires Able(c) && g.tStep == c.tStep0 && Forgotten(g) && !e.SetVelocity?
    ensures Forgotten(Handled(m, c, g, e).0)
  {
    hide PoseGlobal, StepLeftDestination, StepRightDestination, Diff, Sum, Ratio;
  }

  /** So a robot that has been stopped stands without a command until it is given a new one. */
  lemma {:induction false} StoppedForgets(m: Maths, c: Config, g: Gait, es: seq<Event>)
    requires Able(c) && g.tStep == c.tStep0 && Forgotten(g) && NoCommand(es)
    ensures Forgotten(Run(m, c, g, es).0)
    decreases |es|
  {
    if es != [] {
      hide Handled, Forgotten;
      EventForgets(m, c, g, es[0]);
      RunOn(m, c, g, es);
      StoppedForgets(m, c, Handled(m, c, g, es[0]).0, es[1..]);
    }
  }

  /** The first two steps after a start are the ones that are counted down. */
  lemma {:induction false} FirstStepsCount(m: Maths, c: Config, g: Gait, es: seq<Event>)
    requires Able(c) && g.tStep == c.tStep0 && g.initialStep >= 0 && NoStart(es)
    ensures var r := Run(m, c, g, es);
      r.0.initialStep == if g.initialStep >= Steps(r.1) then g.initialStep - Steps(r.1) else 0
    decreases |es|
  {
    if es != [] {
      hide Handled, Run, Steps, Supports;
      RunOn(m, c, g, es);
      EventCounts(m, c, g, es[0]);
      var first := Handled(m, c, g, es[0]);
      FirstStepsCount(m, c, first.0, es[1..]);
      FirstOutcome(first.1, Run(m, c, first.0, es[1..]).1);
    } else {
      hide Handled;
    }
  }

  lemma EventCounts(m: Maths, c: Config, g: Gait, e: Event)
    requires Able(c) && g.tStep == c.tStep0 && g.initialStep >= 0 && !e.Start?
    ensures var r := Handled(m, c, g, e);
      r.0.initialStep == if r.1.Stepped? && g.initialStep > 0 then g.initialStep - 1 else g.initialStep
  {
    hide PoseGlobal, StepLeftDestination, StepRightDestination, Commanded, Diff, Sum, Ratio;
  }
}
