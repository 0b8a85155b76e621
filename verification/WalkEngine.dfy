/** The walk engine itself: the fields its handlers change in place. */
module WalkEngines {
  import opened Poses
  import opened FootPlacement
  import opened Velocities
  import opened Gaits

  lemma VelocityOnly(c: Config, g: Gait)
    ensures var r := VelocityUpdated(c, g); r.iStep == g.iStep && r.left2 == g.left2 && r.right2 == g.right2
  {
    hide Diff, Sum;
  }

  lemma KeepsRequest(c: Config, g: Gait)
    ensures StepBegun(c, g).stopRequest == g.stopRequest
  {
    hide Diff, Sum;
  }

  lemma StandsOn(m: Maths, c: Config, g: Gait)
    ensures NewStep(m, c, g).supportLeg == LegOf(g.iStep)
  {
    hide Diff, Sum, PoseGlobal, StepLeftDestination, StepRightDestination;
  }

  class WalkEngine {
    const m: Maths
    const c: Config

    var active: bool
    var started: bool
    var stopRequest: int
    var iStep: int
    var iStep0: int
    var tLastStep: real
    var tStep: real
    var ph: real
    var initialStep: int
    var velCurrent: Pose
    var velCommand: Pose
    var velDiff: Pose
    var supportLeg: Leg
    var uLeft1: Pose
    var uLeft2: Pose
    var uRight1: Pose
    var uRight2: Pose

    ghost predicate Valid()
      reads this
    {
      Able(c) && tStep == c.tStep0
    }

    ghost function Now(): Gait
      reads this
    {
      Gait(active, started, stopRequest, iStep, iStep0, tLastStep, tStep, ph, initialStep,
           velCurrent, velCommand, velDiff, supportLeg, uLeft1, uLeft2, uRight1, uRight2)
    }

    /** The engine after the Startup handler, which resets it and leaves the stop request at 2. */
    constructor (m: Maths, c: Config, now: real)
      requires Able(c)
      ensures Valid() && this.m == m && this.c == c && Now() == Initial(m, c, now)
    {
      this.m, this.c := m, c;
      active, started, stopRequest := false, false, 2;
      iStep0, iStep := -1, 0;
      tLastStep, tStep, ph := now, c.tStep0, 0.0;
      initialStep := 2;
      velCurrent, velCommand, velDiff := STILL, STILL, STILL;
      supportLeg := LeftLeg;
      uLeft1, uLeft2, uRight1, uRight2 := STILL, STILL, STILL, STILL;
      new;
      StanceReset(Pose(c.supportX, 0.0, 0.0), now);
    }

    method StanceReset(torso: Pose, now: real)
      requires Valid()
      modifies this
      ensures Valid() && Now() == Gaits.StanceReset(m, c, old(Now()), torso, now)
    {
      hide PoseGlobal;
      var uLeft := PoseGlobal(m, Pose(-c.supportX, c.stance.footY, 0.0), torso);
      var uRight := PoseGlobal(m, Pose(-c.supportX, -c.stance.footY, 0.0), torso);
      iStep0 := -1;
      iStep := 0;
      uLeft1 := uLeft;
      uLeft2 := uLeft;
      uRight1 := uRight;
      uRight2 := uRight;
      tLastStep := now;
    }

    method Start(now: real)
      requires Valid()
      modifies this
      ensures Valid() && Now() == Started(old(Now()), now)
    {
      stopRequest := 0;
      if !active {
        active := true;
        started := false;
        iStep0 := -1;
        tLastStep := now;
        initialStep := 2;
      }
    }

    method Stop()
      requires Valid()
      modifies this
      ensures Valid() && Now() == StopRequested(old(Now()))
    {
      if stopRequest < 1 {
        stopRequest := 1;
      }
    }

    method SetVelocity(vx: real, vy: real, va: real)
      requires Valid()
      modifies this
      ensures Valid() && Now() == old(Now()).(velCommand := Commanded(m, c.limits, Pose(vx, vy, va)))
    {
      hide Clamp, Product, MagFactor, Abs;
      var l := c.limits;
      var x, y, a := Clamp(vx, l.x.lo, l.x.hi), Clamp(vy, l.y.lo, l.y.hi), Clamp(va, l.a.lo, l.a.hi);
      var vFactor := 1.0 - Abs(a) / l.vaFactor;
      var stepMag := m.root(Product(x, x) + Product(y, y));
      var magFactor := MagFactor(Product(l.x.hi, vFactor), stepMag);
      velCommand := Pose(Product(x, magFactor), Product(y, magFactor), a);
      velCommand := Pose(Clamp(velCommand.x, l.x.lo, l.x.hi), Clamp(velCommand.y, l.y.lo, l.y.hi),
        Clamp(velCommand.a, l.a.lo, l.a.hi));
    }

    method UpdateVelocity()
      requires Valid()
      modifies this
      ensures Valid() && Now() == VelocityUpdated(c, old(Now()))
    {
      hide Clamp;
      var d := c.limits.delta;
      if velCurrent.x > c.limits.xHigh {
        velDiff := velDiff.(x := Clamp(velCommand.x - velCurrent.x, -d.x, c.limits.deltaXHigh));
      } else {
        velDiff := velDiff.(x := Clamp(velCommand.x - velCurrent.x, -d.x, d.x));
      }
      velDiff := velDiff.(y := Clamp(velCommand.y - velCurrent.y, -d.y, d.y));
      velDiff := velDiff.(a := Clamp(velCommand.a - velCurrent.a, -d.a, d.a));
      velCurrent := Pose(velCurrent.x + velDiff.x, velCurrent.y + velDiff.y, velCurrent.a + velDiff.a);
      if initialStep > 0 {
        velCurrent := STILL;
        initialStep := initialStep - 1;
      }
    }

    /** Reckons how far the step has come, and counts the next one when it is due. */
    method AdvancePhase(time: real)
      requires Valid()
      modifies this
      ensures Valid() && Now() == Clocked(old(Now()), time)
    {
      hide Ratio;
      if !started {
        started := true;
        tLastStep := time;
      }
      ph := Ratio(time - tLastStep, tStep);
      if ph > 1.0 {
        iStep := iStep + 1;
        ph := ph - ph.Floor as real;
        tLastStep := tLastStep + tStep;
      }
    }

    method AdvanceFeet()
      requires Valid()
      modifies this
      ensures Valid() && Now() == StepBegun(c, old(Now()))
    {
      VelocityOnly(c, Now());
      hide VelocityUpdated, Able;
      UpdateVelocity();
      iStep0 := iStep;
      supportLeg := if iStep % 2 == 0 then LeftLeg else RightLeg;
      uLeft1 := uLeft2;
      uRight1 := uRight2;
    }

    method StepTogether()
      requires Valid()
      modifies this
      ensures Valid() && Now() == LastStep(m, c, old(Now()))
    {
      hide PoseGlobal, Scaled, Able;
      stopRequest := 2;
      velCurrent := STILL;
      velCommand := STILL;
      if supportLeg == LeftLeg {
        uRight2 := PoseGlobal(m, Scaled(-2.0, Offset(c.stance)), uLeft1);
      } else {
        uLeft2 := PoseGlobal(m, Scaled(2.0, Offset(c.stance)), uRight1);
      }
    }

    method StepOn()
      requires Valid()
      modifies this
      ensures Valid() && Now() == NormalStep(m, c, old(Now()))
    {
      hide StepLeftDestination, StepRightDestination;
      tStep := c.tStep0;
      if supportLeg == LeftLeg {
        uRight2 := StepRightDestination(m, c.stance, velCurrent, uLeft1, uRight1);
      } else {
        uLeft2 := StepLeftDestination(m, c.stance, velCurrent, uLeft1, uRight1);
      }
    }

    method BeginStep()
      requires Valid()
      modifies this
      ensures Valid() && Now() == NewStep(m, c, old(Now()))
    {
      KeepsRequest(c, Now());
      hide StepBegun, LastStep, NormalStep, Able;
      AdvanceFeet();
      if stopRequest == 1 {
        StepTogether();
      } else {
        StepOn();
      }
    }

    /** One tick of the engine, as far as it decides on steps. */
    method Update(time: real) returns (outcome: Outcome)
      requires Valid()
      modifies this
      ensures Valid() && (Now(), outcome) == Updated(m, c, old(Now()), time)
    {
      hide Clocked, NewStep;
      if !active {
        return Quiet;
      }
      AdvancePhase(time);
      if iStep > iStep0 && stopRequest == 2 {
        stopRequest := 0;
        active := false;
        return Halted;
      }
      if iStep > iStep0 {
        StandsOn(m, c, Now());
        BeginStep();
        return Stepped(supportLeg);
      }
      return Walked;
    }

    /** Hands one event to the handler it is for. */
    method Handle(e: Event) returns (outcome: Outcome)
      requires Valid()
      modifies this
      ensures Valid() && (Now(), outcome) == Handled(m, c, old(Now()), e)
    {
      hide Updated, Started, StopRequested, Gaits.StanceReset, Commanded;
      outcome := Quiet;
      match e
      case Start(now) => Start(now);
      case Stop => Stop();
      case Reset(torso, now) => StanceReset(torso, now);
      case SetVelocity(v) => SetVelocity(v.x, v.y, v.a);
      case Update(time) => outcome := Update(time);
    }

    /** Whatever its handlers are called for, one after the other, the engine runs as the automaton does. */
    method Play(es: seq<Event>) returns (outcomes: seq<Outcome>)
      requires Valid()
      modifies this
      ensures Valid() && (Now(), outcomes) == Run(m, c, old(Now()), es)
      decreases |es|
    {
      hide Handled;
      if es == [] {
        return [];
      }
      var first := Handle(es[0]);
      var rest := Play(es[1..]);
      return [first] + rest;
    }
  }
}
