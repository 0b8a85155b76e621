/** The gait automaton of the walk engine: when it steps, with which foot and where to, and how it stops. */
module Gaits {
  import opened Poses
  import opened FootPlacement
  import opened Velocities

  datatype Leg = LeftLeg | RightLeg

  datatype Config = Config(stance: Stance, limits: Limits, tStep0: real, supportX: real)

  datatype Gait = Gait(
    active: bool, started: bool, stopRequest: int, iStep: int, iStep0: int,
    tLastStep: real, tStep: real, ph: real, initialStep: int,
    velCurrent: Pose, velCommand: Pose, velDiff: Pose,
    supportLeg: Leg, left1: Pose, left2: Pose, right1: Pose, right2: Pose)

  /** What may happen to the engine; times are readings of one clock. */
  datatype Event =
    | Start(now: real)
    | Stop
    | Reset(torso: Pose, now: real)
    | SetVelocity(v: Pose)
    | Update(time: real)

  /** What an event makes of the engine. */
  datatype Outcome = Quiet | Walked | Stepped(support: Leg) | Halted

  /** The settings with which every event can be handled. */
  ghost predicate Able(c: Config) {
    c.limits.vaFactor != 0.0 && c.tStep0 > 0.0
  }

  function LegOf(iStep: int): Leg {
    if iStep % 2 == 0 then LeftLeg else RightLeg
  }

  // ----- The handlers -----

  function Started(g: Gait, now: real): Gait {
    var g' := g.(stopRequest := 0);
    if g.active then g'
    else g'.(active := true, started := false, iStep0 := -1, tLastStep := now, initialStep := 2)
  }

  function StopRequested(g: Gait): Gait {
    g.(stopRequest := if g.stopRequest > 1 then g.stopRequest else 1)
  }

  /** The legs were given to the engine: both feet stand beside the torso. */
  function StanceReset(m: Maths, c: Config, g: Gait, torso: Pose, now: real): Gait {
    var left := PoseGlobal(m, Pose(-c.supportX, c.stance.footY, 0.0), torso);
    var right := PoseGlobal(m, Pose(-c.supportX, -c.stance.footY, 0.0), torso);
    g.(iStep0 := -1, iStep := 0, tLastStep := now, left1 := left, left2 := left, right1 := right, right2 := right)
  }

  function VelocityUpdated(c: Config, g: Gait): Gait {
    var diff := Diff(c.limits, g.velCurrent, g.velCommand);
    if g.initialStep > 0 then g.(velDiff := diff, velCurrent := STILL, initialStep := g.initialStep - 1)
    else g.(velDiff := diff, velCurrent := Sum(g.velCurrent, diff))
  }

  /** The step that brings the feet together. */
  function LastStep(m: Maths, c: Config, g: Gait): Gait {
    var g' := g.(stopRequest := 2, velCurrent := STILL, velCommand := STILL);
    if g.supportLeg == LeftLeg then g'.(right2 := PoseGlobal(m, Scaled(-2.0, Offset(c.stance)), g.left1))
    else g'.(left2 := PoseGlobal(m, Scaled(2.0, Offset(c.stance)), g.right1))
  }

  function NormalStep(m: Maths, c: Config, g: Gait): Gait
  {
    var g' := g.(tStep := c.tStep0);
    if g.supportLeg == LeftLeg then g'.(right2 := StepRightDestination(m, c.stance, g.velCurrent, g.left1, g.right1))
    else g'.(left2 := StepLeftDestination(m, c.stance, g.velCurrent, g.left1, g.right1))
  }

  function StepBegun(c: Config, g: Gait): Gait {
    VelocityUpdated(c, g).(iStep0 := g.iStep, supportLeg := LegOf(g.iStep), left1 := g.left2, right1 := g.right2)
  }

  function NewStep(m: Maths, c: Config, g: Gait): Gait
  {
    if g.stopRequest == 1 then LastStep(m, c, StepBegun(c, g)) else NormalStep(m, c, StepBegun(c, g))
  }

  function Ratio(a: real, b: real): real
    requires b > 0.0
  {
    a / b
  }

  /** How far the step has come, as a share of its duration. */
  function Phase(g: Gait, time: real): real
    requires g.tStep > 0.0
  {
    Ratio(time - g.tLastStep, g.tStep)
  }

  function Clocked(g: Gait, time: real): Gait
    requires g.tStep > 0.0
  {
    var g' := if g.started then g else g.(started := true, tLastStep := time);
    var ph := Phase(g', time);
    if ph > 1.0 then g'.(iStep := g.iStep + 1, ph := ph - ph.Floor as real, tLastStep := g'.tLastStep + g.tStep)
    else g'.(ph := ph)
  }

  function Updated(m: Maths, c: Config, g: Gait, time: real): (Gait, Outcome)
    requires g.tStep > 0.0
  {
    if !g.active then (g, Quiet)
    else
      var g' := Clocked(g, time);
      if g'.iStep <= g'.iStep0 then (g', Walked)
      else if g'.stopRequest == 2 then (g'.(stopRequest := 0, active := false), Halted)
      else (NewStep(m, c, g'), Stepped(LegOf(g'.iStep)))
  }

  function Handled(m: Maths, c: Config, g: Gait, e: Event): (r: (Gait, Outcome))
    requires Able(c) && g.tStep == c.tStep0
    ensures r.0.tStep == c.tStep0
  {
    match e
    case Start(now) => (Started(g, now), Quiet)
    case Stop => (StopRequested(g), Quiet)
    case Reset(torso, now) => (StanceReset(m, c, g, torso, now), Quiet)
    case SetVelocity(v) => (g.(velCommand := Commanded(m, c.limits, v)), Quiet)
    case Update(time) => Updated(m, c, g, time)
  }

  function Run(m: Maths, c: Config, g: Gait, es: seq<Event>): (r: (Gait, seq<Outcome>))
    requires Able(c) && g.tStep == c.tStep0
    ensures |r.1| == |es| && r.0.tStep == c.tStep0
    decreases |es|
  {
    if es == [] then (g, [])
    else
      var first := Handled(m, c, g, es[0]);
      var rest := Run(m, c, first.0, es[1..]);
      (rest.0, [first.1] + rest.1)
  }

  /** The engine as it starts up, its stop request left at 2. */
  function Initial(m: Maths, c: Config, now: real): Gait {
    var g := Gait(false, false, 2, 0, -1, now, c.tStep0, 0.0, 2, STILL, STILL, STILL,
                  LeftLeg, STILL, STILL, STILL, STILL);
    StanceReset(m, c, g, Pose(c.supportX, 0.0, 0.0), now)
  }

  // ----- Stopping -----

  function Steps(os: seq<Outcome>): nat {
    if os == [] then 0 else (if os[0].Stepped? then 1 else 0) + Steps(os[1..])
  }

  function Halts(os: seq<Outcome>): nat {
    if os == [] then 0 else (if os[0].Halted? then 1 else 0) + Halts(os[1..])
  }

  /** The steps still to be begun before a requested stop. */
  function Pending(g: Gait): nat {
    if g.active && g.stopRequest == 1 then 1 else 0
  }

  function Going(g: Gait): nat {
    if g.active then 1 else 0
  }

  predicate Stopping(g: Gait) {
    g.active ==> g.stopRequest == 1 || g.stopRequest == 2
  }

  predicate NoStart(es: seq<Event>) {
    forall k | 0 <= k < |es| :: !es[k].Start?
  }

  lemma StoppingGoesOn(m: Maths, c: Config, g: Gait, e: Event)
    requires Able(c) && g.tStep == c.tStep0 && Stopping(g) && !e.Start?
    ensures var r := Handled(m, c, g, e);
      && Stopping(r.0)
      && Pending(g) == Pending(r.0) + (if r.1.Stepped? then 1 else 0)
      && Going(g) == Going(r.0) + (if r.1.Halted? then 1 else 0)
  {
    hide PoseGlobal, StepLeftDestination, StepRightDestination, Commanded, Diff;
  }

  /** Once a stop is requested and no start follows, every step begun and every halt is one that was
      pending. */
  lemma {:induction false} StoppingRun(m: Maths, c: Config, g: Gait, es: seq<Event>)
    requires Able(c) && g.tStep == c.tStep0 && Stopping(g) && NoStart(es)
    ensures var r := Run(m, c, g, es);
      && Stopping(r.0)
      && Pending(g) == Pending(r.0) + Steps(r.1)
      && Going(g) == Going(r.0) + Halts(r.1)
    decreases |es|
  {
    if es != [] {
      hide Handled;
      StoppingGoesOn(m, c, g, es[0]);
      StoppingRun(m, c, Handled(m, c, g, es[0]).0, es[1..]);
    }
  }

  // ----- Keeping up -----

  /** A step that is due is begun at the next update: steps are counted one at a time, and an engine that
      was just started has one due. */
  predicate Pacing(g: Gait) {
    0 <= g.iStep && g.iStep0 <= g.iStep && (!g.started ==> g.iStep > g.iStep0)
  }

  /** How many updates come more than a period after the one counted before them. */
  function LateUpdates(es: seq<Event>, last: real, period: real): nat
    decreases |es|
  {
    if es == [] then 0 else
      match es[0]
      case Update(time) =>
        if time > last + period then 1 + LateUpdates(es[1..], time, period) else LateUpdates(es[1..], last, period)
      case Reset(_, now) => LateUpdates(es[1..], now, period)
      case _ => LateUpdates(es[1..], last, period)
  }

  lemma EventKeepsPacing(m: Maths, c: Config, g: Gait, e: Event)
    requires Able(c) && g.tStep == c.tStep0 && Pacing(g)
    ensures Pacing(Handled(m, c, g, e).0)
  {
    hide PoseGlobal, StepLeftDestination, StepRightDestination, Commanded, Diff, Phase;
    if e.Update? && !g.started {
      NotStartedHasNoPhase(g, e.time);
    }
  }

  lemma {:induction false} RunKeepsPacing(m: Maths, c: Config, g: Gait, es: seq<Event>)
    requires Able(c) && g.tStep == c.tStep0 && Pacing(g)
    ensures Pacing(Run(m, c, g, es).0)
    decreases |es|
  {
    if es != [] {
      hide Handled, Pacing;
      EventKeepsPacing(m, c, g, es[0]);
      RunKeepsPacing(m, c, Handled(m, c, g, es[0]).0, es[1..]);
    }
  }

  /** The clock of the steps is at most `credit` periods ahead of a time. */
  predicate InCredit(g: Gait, last: real, credit: nat) {
    g.tStep > 0.0 && g.tLastStep <= last + Product(credit as real, g.tStep)
  }

  lemma OneCreditMore(credit: nat, period: real)
    requires period > 0.0
    ensures Product((credit + 1) as real, period) == Product(credit as real, period) + period
    ensures Product(credit as real, period) >= 0.0
  {
  }

  lemma NoCredit(period: real)
    ensures Product(0.0, period) == 0.0
  {
  }

  lemma RatioTells(a: real, b: real)
    requires b > 0.0
    ensures Ratio(a, b) > 1.0 <==> a > b
  {
    var k := Ratio(a, b);
    QuotientOver(a, b, k);
    if a > b && k <= 1.0 {
      RatioTimes(a, b, k);
      Shorter(k, b);
    }
  }

  lemma RatioTimes(a: real, b: real, k: real)
    requires b > 0.0 && k == Ratio(a, b)
    ensures Product(k, b) == a
  {
    Quotient(a, b, k);
  }

  lemma Shorter(k: real, b: real)
    requires b > 0.0 && k <= 1.0
    ensures Product(k, b) <= b
  {
    ScaledUp(b, k, 1.0);
  }

  /** What the clock makes of an update. */
  lemma ClockTells(g: Gait, time: real)
    requires g.tStep > 0.0
    ensures var r := Clocked(g, time); r.tStep == g.tStep && r.started && r.active == g.active && r.iStep0 == g.iStep0
    ensures !g.started ==> Clocked(g, time).tLastStep == time && Clocked(g, time).iStep == g.iStep
    ensures g.started ==> Clocked(g, time).iStep == (if time - g.tLastStep > g.tStep then g.iStep + 1 else g.iStep)
    ensures g.started ==>
              Clocked(g, time).tLastStep == g.tLastStep + (if time - g.tLastStep > g.tStep then g.tStep else 0.0)
  {
    RatioTells(time - g.tLastStep, g.tStep);
    if !g.started {
      RatioTells(0.0, g.tStep);
    }
    hide Ratio;
  }

  /** An update earns a step, and with it a period's credit, or spends one when it comes late. */
  lemma UpdateKeepsUp(m: Maths, c: Config, g: Gait, time: real, last: real, credit: nat)
    requires Able(c) && g.tStep == c.tStep0 && g.active && Pacing(g) && InCredit(g, last, credit)
    ensures var r := Updated(m, c, g, time); var late := time > last + c.tStep0;
      var earned := credit + (if r.1.Stepped? then 1 else 0) - (if late then 1 else 0);
      r.0.active ==> earned >= 0 && InCredit(r.0, if late then time else last, earned)
  {
    hide Clocked, NewStep, Product;
    ClockTells(g, time);
    OneCreditMore(credit, g.tStep);
    if credit > 0 {
      OneCreditMore(credit - 1, g.tStep);
    } else {
      NoCredit(g.tStep);
    }
    StepKeepsClock(m, c, Clocked(g, time));
  }

  lemma StepKeepsClock(m: Maths, c: Config, g: Gait)
    requires g.tStep == c.tStep0
    ensures var r := NewStep(m, c, g); r.tLastStep == g.tLastStep && r.tStep == g.tStep
  {
    hide PoseGlobal, StepLeftDestination, StepRightDestination, Diff, Sum;
  }

  /** An engine that is still walking has begun at least as many steps as updates came late. */
  lemma {:induction false} StepsKeepUp(m: Maths, c: Config, g: Gait, es: seq<Event>, last: real, credit: nat)
    requires Able(c) && g.tStep == c.tStep0 && Pacing(g) && InCredit(g, last, credit) && NoStart(es)
    ensures Run(m, c, g, es).0.active ==> Steps(Run(m, c, g, es).1) + credit >= LateUpdates(es, last, c.tStep0)
    decreases |es|
  {
    if es == [] {
    } else if !g.active {
      HaltedStaysQuiet(m, c, g, es);
    } else {
      var first := Handled(m, c, g, es[0]);
      EventKeepsPacing(m, c, g, es[0]);
      RunOn(m, c, g, es);
      FirstOutcome(first.1, Run(m, c, first.0, es[1..]).1);
      if es[0].Update? {
        UpdateStepsKeepUp(m, c, g, es, last, credit);
      } else {
        OthersKeepClock(m, c, g, es[0]);
        OneCreditMore(credit, g.tStep);
        hide Handled, Run, Steps, Pacing, Supports, Product;
        StepsKeepUp(m, c, first.0, es[1..], match es[0] case Reset(_, now) => now case _ => last, credit);
      }
    }
  }

  lemma OthersKeepClock(m: Maths, c: Config, g: Gait, e: Event)
    requires Able(c) && g.tStep == c.tStep0 && !e.Update? && !e.Start?
    ensures var r := Handled(m, c, g, e);
      && r.1 == Quiet && r.0.active == g.active && r.0.tStep == g.tStep
      && r.0.tLastStep == match e case Reset(_, now) => now case _ => g.tLastStep
  {
    hide PoseGlobal, Commanded;
  }

  lemma UpdateStepsKeepUp(m: Maths, c: Config, g: Gait, es: seq<Event>, last: real, credit: nat)
    requires Able(c) && g.tStep == c.tStep0 && g.active && Pacing(g) && InCredit(g, last, credit) && NoStart(es)
    requires es != [] && es[0].Update?
    ensures Run(m, c, g, es).0.active ==> Steps(Run(m, c, g, es).1) + credit >= LateUpdates(es, last, c.tStep0)
    decreases |es|, 0
  {
    hide *;
    var time := es[0].time;
    var late := time > last + c.tStep0;
    var first := Handled(m, c, g, es[0]);
    RestHasNoStart(es);
    EventKeepsPacing(m, c, g, es[0]);
    EventKeepsUp(m, c, g, es[0], last, credit);
    FirstUpdate(es, last, c.tStep0);
    RunOn(m, c, g, es);
    FirstOutcome(first.1, Run(m, c, first.0, es[1..]).1);
    if first.0.active {
      StepsKeepUp(m, c, first.0, es[1..], if late then time else last,
                  credit + (if first.1.Stepped? then 1 else 0) - (if late then 1 else 0));
    } else {
      HaltedStaysQuiet(m, c, first.0, es[1..]);
    }
  }

  lemma RestHasNoStart(es: seq<Event>)
    requires es != [] && NoStart(es)
    ensures NoStart(es[1..])
  {
  }

  lemma EventKeepsUp(m: Maths, c: Config, g: Gait, e: Event, last: real, credit: nat)
    requires Able(c) && g.tStep == c.tStep0 && g.active && Pacing(g) && InCredit(g, last, credit) && e.Update?
    ensures var r := Handled(m, c, g, e); var late := e.time > last + c.tStep0;
      var earned := credit + (if r.1.Stepped? then 1 else 0) - (if late then 1 else 0);
      r.0.active ==> earned >= 0 && InCredit(r.0, if late then e.time else last, earned)
  {
    hide Updated, InCredit, Able, Pacing;
    UpdateKeepsUp(m, c, g, e.time, last, credit);
  }

  lemma FirstUpdate(es: seq<Event>, last: real, period: real)
    requires es != [] && es[0].Update?
    ensures var time := es[0].time; var late := time > last + period;
      LateUpdates(es, last, period)
      == (if late then 1 else 0) + LateUpdates(es[1..], if late then time else last, period)
  {
  }

  /** A stop requested while walking takes exactly one more step, the one that brings the feet
      together, and then halts once; a stop requested again during that step takes no other. Two updates
      that come late are enough to reach the halt. */
  lemma StopTakesOneStep(m: Maths, c: Config, g: Gait, es: seq<Event>)
    requires Able(c) && g.tStep == c.tStep0 && g.active && 0 <= g.stopRequest <= 2 && NoStart(es)
    ensures var r := Run(m, c, g, [Stop] + es); var left := if g.stopRequest == 2 then 0 else 1;
      && Steps(r.1) <= left && Halts(r.1) <= 1
      && (!r.0.active <==> Halts(r.1) == 1)
      && (!r.0.active ==> Steps(r.1) == left)
      && (Pacing(g) && LateUpdates(es, g.tLastStep, c.tStep0) > left ==> !r.0.active)
  {
    hide Run, Pacing, Product;
    StoppingRun(m, c, StopRequested(g), es);
    FirstOf(m, c, g, Stop, es);
    if Pacing(g) {
      EventKeepsPacing(m, c, g, Stop);
      NoCredit(g.tStep);
      StepsKeepUp(m, c, StopRequested(g), es, g.tLastStep, 0);
    }
  }

  lemma FirstOf(m: Maths, c: Config, g: Gait, e: Event, es: seq<Event>)
    requires Able(c) && g.tStep == c.tStep0
    ensures var first := Handled(m, c, g, e); var r := Run(m, c, first.0, es);
      && Run(m, c, g, [e] + es) == (r.0, [first.1] + r.1)
      && Steps([first.1] + r.1) == (if first.1.Stepped? then 1 else 0) + Steps(r.1)
      && Halts([first.1] + r.1) == (if first.1.Halted? then 1 else 0) + Halts(r.1)
  {
    assert ([e] + es)[1..] == es;
    var first := Handled(m, c, g, e);
    var r := Run(m, c, first.0, es);
    assert ([first.1] + r.1)[1..] == r.1;
    hide Handled;
  }

  /** After the halt nothing moves until the next start. */
  lemma {:induction false} HaltedStaysQuiet(m: Maths, c: Config, g: Gait, es: seq<Event>)
    requires Able(c) && g.tStep == c.tStep0 && !g.active && NoStart(es)
    ensures var r := Run(m, c, g, es); !r.0.active && forall k | 0 <= k < |es| :: r.1[k] == Quiet
    decreases |es|
  {
    if es != [] {
      hide PoseGlobal, Commanded;
      HaltedStaysQuiet(m, c, Handled(m, c, g, es[0]).0, es[1..]);
    }
  }

  // ----- Left and right -----

  function Supports(os: seq<Outcome>): seq<Leg> {
    if os == [] then []
    else (if os[0].Stepped? then [os[0].support] else []) + Supports(os[1..])
  }

  function Other(leg: Leg): Leg {
    if leg == LeftLeg then RightLeg else LeftLeg
  }

  /** n legs in turn, beginning with the one given. */
  function InTurn(leg: Leg, n: nat): seq<Leg>
    decreases n
  {
    if n == 0 then [] else [leg] + InTurn(Other(leg), n - 1)
  }

  /** The leg the next step will stand on. */
  function NextSupport(g: Gait): Leg {
    if g.iStep > g.iStep0 then LegOf(g.iStep) else LegOf(g.iStep + 1)
  }

  /** A step that is due has not been waiting since an earlier update. */
  predicate Settled(g: Gait) {
    && g.iStep >= 0
    && (g.active && g.started ==> g.iStep == g.iStep0)
    && (!g.active || !g.started ==> g.iStep > g.iStep0)
  }

  predicate NoReset(es: seq<Event>) {
    forall k | 0 <= k < |es| :: !es[k].Reset?
  }

  lemma LegsAlternate(i: int)
    ensures LegOf(i + 1) == Other(LegOf(i))
  {
  }

  lemma NotStartedHasNoPhase(g: Gait, time: real)
    requires g.tStep > 0.0 && !g.started
    ensures Clocked(g, time).iStep == g.iStep
  {
  }

  lemma NextStepAlternates(m: Maths, c: Config, g: Gait, e: Event)
    requires Able(c) && g.tStep == c.tStep0 && Settled(g) && !e.Reset?
    ensures var r := Handled(m, c, g, e);
      && Settled(r.0)
      && (r.1.Stepped? ==> r.1.support == NextSupport(g) && NextSupport(r.0) == Other(NextSupport(g)))
      && (!r.1.Stepped? ==> NextSupport(r.0) == NextSupport(g))
  {
    hide PoseGlobal, StepLeftDestination, StepRightDestination, Commanded, Diff, Phase;
    if e.Update? {
      if !g.started {
        NotStartedHasNoPhase(g, e.time);
      }
      LegsAlternate(g.iStep);
      LegsAlternate(g.iStep + 1);
    }
  }

  /** The feet step in turn, over stops and starts, until the legs are taken away and given again. */
  lemma {:induction false} StepsAlternate(m: Maths, c: Config, g: Gait, es: seq<Event>)
    requires Able(c) && g.tStep == c.tStep0 && Settled(g) && NoReset(es)
    ensures var r := Run(m, c, g, es);
      Settled(r.0) && Supports(r.1) == InTurn(NextSupport(g), Steps(r.1))
    decreases |es|
  {
    if es == [] {
      hide Handled;
    } else {
      hide Handled, NextSupport, Settled, InTurn, Run, Supports, Steps, LegOf;
      NextStepAlternates(m, c, g, es[0]);
      var first := Handled(m, c, g, es[0]);
      var rest := Run(m, c, first.0, es[1..]);
      RunOn(m, c, g, es);
      StepsAlternate(m, c, first.0, es[1..]);
      FirstOutcome(first.1, rest.1);
      InTurnOn(NextSupport(g), Steps(rest.1));
    }
  }

  lemma RunOn(m: Maths, c: Config, g: Gait, es: seq<Event>)
    requires Able(c) && g.tStep == c.tStep0 && es != []
    ensures var first := Handled(m, c, g, es[0]); var rest := Run(m, c, first.0, es[1..]);
      Run(m, c, g, es) == (rest.0, [first.1] + rest.1)
  {
    hide Handled;
  }

  lemma InTurnOn(leg: Leg, n: nat)
    ensures InTurn(leg, n + 1) == [leg] + InTurn(Other(leg), n)
  {
  }

  lemma FirstOutcome(o: Outcome, os: seq<Outcome>)
    ensures Steps([o] + os) == (if o.Stepped? then 1 else 0) + Steps(os)
    ensures Supports([o] + os) == (if o.Stepped? then [o.support] else []) + Supports(os)
  {
    assert ([o] + os)[1..] == os;
  }

  // ----- The phase -----

  predicate InOrder(es: seq<Event>, clock: real)
    decreases |es|
  {
    es == [] || match es[0]
      case Start(now) => clock <= now && InOrder(es[1..], now)
      case Reset(_, now) => clock <= now && InOrder(es[1..], now)
      case Update(time) => clock <= time && InOrder(es[1..], time)
      case _ => InOrder(es[1..], clock)
  }

  lemma QuotientOver(a: real, b: real, k: real)
    requires b > 0.0 && k == Ratio(a, b)
    ensures a >= 0.0 ==> k >= 0.0
    ensures k > 1.0 ==> a > b
  {
    Quotient(a, b, k);
    ScaledOrder(1.0, k, b);
    assert b * 1.0 == b;
  }

  lemma ClockedPhase(g: Gait, time: real)
    requires g.tStep > 0.0 && g.tLastStep <= time
    ensures 0.0 <= Clocked(g, time).ph <= 1.0 && Clocked(g, time).tLastStep <= time
  {
    var g' := if g.started then g else g.(started := true, tLastStep := time);
    hide Ratio;
    QuotientOver(time - g'.tLastStep, g'.tStep, Phase(g', time));
    hide Phase;
  }

  /** Along every run the phase of the step stays between 0 and 1. */
  lemma {:induction false} PhaseStaysInStep(m: Maths, c: Config, g: Gait, es: seq<Event>, clock: real)
    requires Able(c) && g.tStep == c.tStep0
    requires g.tLastStep <= clock && 0.0 <= g.ph <= 1.0 && InOrder(es, clock)
    ensures 0.0 <= Run(m, c, g, es).0.ph <= 1.0
    decreases |es|
  {
    if es != [] {
      hide PoseGlobal, StepLeftDestination, StepRightDestination, Commanded, Diff, Phase, Clocked;
      var clock' := match es[0]
        case Start(now) => now
        case Reset(_, now) => now
        case Update(time) => time
        case _ => clock;
      if es[0].Update? && g.active {
        ClockedPhase(g, es[0].time);
      }
      PhaseStaysInStep(m, c, Handled(m, c, g, es[0]).0, es[1..], clock');
    }
  }

  lemma OneLess(a: real, b: real, d: real, k: real, l: real)
    requires b > 0.0 && d == a - b && k == Ratio(a, b) && l == Ratio(d, b)
    ensures l == k - 1.0
  {
    Quotient(a, b, k);
    Quotient(d, b, l);
    OneTimeMore(b, l);
    hide Ratio;
    SameFactor(b, k, l + 1.0);
  }

  lemma OneTimeMore(b: real, l: real)
    ensures Product(l + 1.0, b) == Product(l, b) + b
  {
  }

  lemma SameFactor(b: real, k: real, l: real)
    requires b > 0.0 && Product(k, b) == Product(l, b)
    ensures k == l
  {
    ScaledOrder(k, l, b);
    ScaledOrder(l, k, b);
  }

  lemma OneStepLater(g: Gait, g': Gait, time: real)
    requires g.tStep > 0.0 && g'.tStep == g.tStep && g'.tLastStep == g.tLastStep + g.tStep
    ensures Phase(g', time) == Phase(g, time) - 1.0
  {
    hide Ratio;
    OneLess(time - g.tLastStep, g.tStep, time - g'.tLastStep, Phase(g, time), Phase(g', time));
  }

  lemma PhaseIsPositive(g: Gait, time: real)
    requires g.tStep > 0.0 && g.tLastStep <= time
    ensures Phase(g, time) >= 0.0
  {
    hide Ratio;
    QuotientOver(time - g.tLastStep, g.tStep, Phase(g, time));
  }

  lemma SamePhase(g: Gait, g': Gait, time: real)
    requires g.tStep > 0.0 && g'.tStep == g.tStep && g'.tLastStep == g.tLastStep
    ensures Phase(g', time) == Phase(g, time)
  {
    hide Ratio;
  }

  /** The phase is the time since the last step began exactly when the update came less than two
      durations after it; a later one drops whole durations from the phase but only one from the clock. */
  lemma PhaseIsElapsed(g: Gait, time: real)
    requires g.tStep > 0.0 && g.started && g.tLastStep <= time
    ensures Clocked(g, time).ph == Phase(Clocked(g, time), time) <==> Phase(g, time) < 2.0
  {
    hide Phase;
    var k, g' := Phase(g, time), Clocked(g, time);
    PhaseIsPositive(g, time);
    if k > 1.0 {
      OneStepLater(g, g', time);
      assert g'.ph == k - k.Floor as real;
      assert k < 2.0 ==> k.Floor == 1;
      assert k >= 2.0 ==> k.Floor >= 2;
    } else {
      SamePhase(g, g', time);
    }
  }
}
