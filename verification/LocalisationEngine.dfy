/** Feeding observed goals to the hypothesis set. */
module LocalisationEngine {
  import opened RobotModels
  import opened MultiModalRobotModels

  datatype EngineConfig = EngineConfig(angleBetweenGoalsObservationEnabled: bool, goalPairObservationEnabled: bool,
                                       allGoalsAreBlue: bool)

  datatype Goalposts = Goalposts(bl: Location, br: Location, yl: Location, yr: Location)

  /** The posts an observed goal may be. A goal whose side is none of the declared ones may be none. */
  function PossibleObjects(cfg: EngineConfig, posts: Goalposts, side: Side): seq<Location> {
    match side
    case LEFT => [posts.bl] + (if cfg.allGoalsAreBlue then [] else [posts.yl])
    case RIGHT => [posts.br] + (if cfg.allGoalsAreBlue then [] else [posts.yr])
    case UNKNOWN => [posts.bl, posts.br] + (if cfg.allGoalsAreBlue then [] else [posts.yl, posts.yr])
    case INVALID => []
  }

  /** Two goals seen at once, one on each side. */
  predicate GoalPairObserved(goals: seq<Goal>) {
    && |goals| == 2
    && ((goals[0].side == RIGHT && goals[1].side == LEFT) || (goals[0].side == LEFT && goals[1].side == RIGHT))
  }

  predicate TreatedAsPair(cfg: EngineConfig, goals: seq<Goal>) {
    (cfg.goalPairObservationEnabled || cfg.angleBetweenGoalsObservationEnabled) && GoalPairObserved(goals)
  }

  function PairMeasurements(goals: seq<Goal>): (ms: seq<seq<Measurement>>)
    requires |goals| == 2
    ensures |ms| == 2
  {
    if goals[0].side == LEFT then [goals[0].measurements, goals[1].measurements]
    else [goals[1].measurements, goals[0].measurements]
  }

  function PairSets(cfg: EngineConfig, posts: Goalposts): (sets: seq<seq<Location>>)
    ensures sets != [] && forall j :: 0 <= j < |sets| ==> |sets[j]| == 2
  {
    [[posts.bl, posts.br]] + (if cfg.allGoalsAreBlue then [] else [[posts.yl, posts.yr]])
  }

  function OneByOne(ukf: Ukf, cfg: EngineConfig, posts: Goalposts, hs: seq<Hypothesis>,
                    goals: seq<Goal>): seq<Hypothesis> {
    if goals == [] then hs else
      var goal := goals[|goals| - 1];
      Split(ukf, OneByOne(ukf, cfg, posts, hs, goals[..|goals| - 1]), [goal.measurements],
            Singletons(PossibleObjects(cfg, posts, goal.side)))
  }

  /** The hypotheses after all splits, before pruning. */
  function Ambiguated(ukf: Ukf, cfg: EngineConfig, posts: Goalposts, hs: seq<Hypothesis>,
                      goals: seq<Goal>): seq<Hypothesis> {
    if TreatedAsPair(cfg, goals) then
      if cfg.goalPairObservationEnabled then Split(ukf, hs, PairMeasurements(goals), PairSets(cfg, posts)) else hs
    else OneByOne(ukf, cfg, posts, hs, goals)
  }

  class MMKFRobotLocalisationEngine {
    const cfg: EngineConfig
    const posts: Goalposts
    const models: MultiModalRobotModel

    constructor (cfg: EngineConfig, posts: Goalposts, models: MultiModalRobotModel)
      ensures this.cfg == cfg && this.posts == posts && this.models == models
    {
      this.cfg := cfg;
      this.posts := posts;
      this.models := models;
    }

    method GetPossibleObjects(goal: Goal) returns (possible: seq<Location>)
      ensures possible == PossibleObjects(cfg, posts, goal.side)
    {
      possible := [];
      if goal.side == LEFT {
        possible := possible + [posts.bl];
        if !cfg.allGoalsAreBlue {
          possible := possible + [posts.yl];
        }
      } else if goal.side == RIGHT {
        possible := possible + [posts.br];
        if !cfg.allGoalsAreBlue {
          possible := possible + [posts.yr];
        }
      } else if goal.side == UNKNOWN {
        possible := possible + [posts.bl] + [posts.br];
        if !cfg.allGoalsAreBlue {
          possible := possible + [posts.yl] + [posts.yr];
        }
      }
    }

    method ProcessAmbiguousObjects(goals: seq<Goal>)
      requires -0x8000_0000 <= models.cfg.maxModelsAfterMerge < 0x8000_0000
      modifies models
      ensures var mid := Ambiguated(models.ukf, cfg, posts, old(models.robotModels), goals);
        NonNegative(mid) ==> IsPruned(models.cfg, mid, models.robotModels)
    {
      if (cfg.goalPairObservationEnabled || cfg.angleBetweenGoalsObservationEnabled) && GoalPairObserved(goals) {
        var sets := [[posts.bl, posts.br]];
        if !cfg.allGoalsAreBlue {
          sets := sets + [[posts.yl, posts.yr]];
        }
        assert sets == PairSets(cfg, posts);
        if cfg.goalPairObservationEnabled {
          models.AmbiguousMeasurementUpdate(PairMeasurements(goals), sets);
        }
      } else {
        for k := 0 to |goals|
          invariant models.robotModels == OneByOne(models.ukf, cfg, posts, old(models.robotModels), goals[..k])
        {
          assert goals[..k + 1][..k] == goals[..k];
          var possible := GetPossibleObjects(goals[k]);
          models.AmbiguousMeasurementUpdate([goals[k].measurements], Singletons(possible));
        }
        assert goals[..|goals|] == goals;
      }
      assert models.robotModels == Ambiguated(models.ukf, cfg, posts, old(models.robotModels), goals);
      models.PruneModels();
    }
  }

  // ----- What an observation does to the set -----

  /** All goals are on a declared side, or they are not looked at one by one. */
  predicate SidesDeclared(cfg: EngineConfig, goals: seq<Goal>) {
    TreatedAsPair(cfg, goals) || forall g :: g in goals ==> g.side != INVALID
  }

  lemma OneGoalIsPositive(ukf: Ukf, cfg: EngineConfig, posts: Goalposts, hs: seq<Hypothesis>, goal: Goal)
    requires GoodFilter(ukf) && Positive(hs)
    ensures var split := Split(ukf, hs, [goal.measurements], Singletons(PossibleObjects(cfg, posts, goal.side)));
      Positive(split) && (split != [] <==> hs != [] && goal.side != INVALID)
  {
    hide Split, Positive, GoodFilter;
    SplitIsPositive(ukf, hs, [goal.measurements], Singletons(PossibleObjects(cfg, posts, goal.side)));
  }

  lemma {:induction false} OneByOneIsPositive(ukf: Ukf, cfg: EngineConfig, posts: Goalposts, hs: seq<Hypothesis>,
                                              goals: seq<Goal>)
    requires GoodFilter(ukf) && Positive(hs)
    ensures Positive(OneByOne(ukf, cfg, posts, hs, goals))
    ensures OneByOne(ukf, cfg, posts, hs, goals) != [] <==> hs != [] && forall g :: g in goals ==> g.side != INVALID
    decreases |goals|
  {
    if goals != [] {
      hide Split, Singletons, PossibleObjects, Positive, GoodFilter;
      var front, goal := goals[..|goals| - 1], goals[|goals| - 1];
      assert goals == front + [goal];
      OneByOneIsPositive(ukf, cfg, posts, hs, front);
      OneGoalIsPositive(ukf, cfg, posts, OneByOne(ukf, cfg, posts, hs, front), goal);
    }
  }

  lemma AmbiguatedIsPositive(ukf: Ukf, cfg: EngineConfig, posts: Goalposts, hs: seq<Hypothesis>, goals: seq<Goal>)
    requires GoodFilter(ukf) && Positive(hs)
    ensures Positive(Ambiguated(ukf, cfg, posts, hs, goals))
    ensures Ambiguated(ukf, cfg, posts, hs, goals) != [] <==> hs != [] && SidesDeclared(cfg, goals)
  {
    if TreatedAsPair(cfg, goals) {
      SplitIsPositive(ukf, hs, PairMeasurements(goals), PairSets(cfg, posts));
    } else {
      OneByOneIsPositive(ukf, cfg, posts, hs, goals);
    }
  }

  ghost predicate Sound(hs: seq<Hypothesis>) {
    hs != [] && Positive(hs)
  }

  /** One observation, with observation qualities above zero and a maximum of at least one, takes
      a sound set to a set no larger than the maximum. The set is sound again, with weights that
      add up to one, exactly when no goal that is looked at singly has an undeclared side;
      otherwise every hypothesis is lost. Once lost they stay lost. */
  lemma ProcessingIsSound(mcfg: Config, ukf: Ukf, cfg: EngineConfig, posts: Goalposts,
                          before: seq<Hypothesis>, goals: seq<Goal>, after: seq<Hypothesis>)
    requires 1 <= mcfg.maxModelsAfterMerge < 0x8000_0000 && GoodFilter(ukf) && Positive(before)
    requires IsPruned(mcfg, Ambiguated(ukf, cfg, posts, before, goals), after)
    ensures |after| <= mcfg.maxModelsAfterMerge && Positive(after)
    ensures Sound(after) && Total(after) == 1.0 <==> before != [] && SidesDeclared(cfg, goals)
    ensures after == [] <==> before == [] || !SidesDeclared(cfg, goals)
  {
    AmbiguatedIsPositive(ukf, cfg, posts, before, goals);
    PruningIsSound(mcfg, Ambiguated(ukf, cfg, posts, before, goals), after);
  }

  /** One goal whose side is not a declared one costs a lone hypothesis, whatever the filter makes of it. */
  lemma UndeclaredSideLosesAll(mcfg: Config, ukf: Ukf, posts: Goalposts, filter: Filter,
                               measurements: seq<Measurement>, after: seq<Hypothesis>)
    requires 1 <= mcfg.maxModelsAfterMerge < 0x8000_0000 && GoodFilter(ukf)
    requires IsPruned(mcfg, Ambiguated(ukf, EngineConfig(false, false, false), posts, [Hypothesis(filter, 1.0, 0)],
                                       [Goal(INVALID, measurements)]), after)
    ensures Sound([Hypothesis(filter, 1.0, 0)]) && after == []
  {
    var cfg, goals := EngineConfig(false, false, false), [Goal(INVALID, measurements)];
    assert goals[0] in goals && !SidesDeclared(cfg, goals);
    assert Sound([Hypothesis(filter, 1.0, 0)]);
    hide Sound, SidesDeclared, Ambiguated, IsPruned, GoodFilter;
    ProcessingIsSound(mcfg, ukf, cfg, posts, [Hypothesis(filter, 1.0, 0)], goals, after);
  }

  /** A run of observations: each takes the set to what one round can leave of it. */
  ghost predicate IsRun(mcfg: Config, ukf: Ukf, cfg: EngineConfig, posts: Goalposts,
                        sets: seq<seq<Hypothesis>>, observations: seq<seq<Goal>>)
    requires -0x8000_0000 <= mcfg.maxModelsAfterMerge < 0x8000_0000
  {
    && |sets| == |observations| + 1
    && forall k :: 0 <= k < |observations| ==> IsRound(mcfg, ukf, cfg, posts, sets, observations, k)
  }

  ghost predicate IsRound(mcfg: Config, ukf: Ukf, cfg: EngineConfig, posts: Goalposts,
                          sets: seq<seq<Hypothesis>>, observations: seq<seq<Goal>>, k: nat)
    requires -0x8000_0000 <= mcfg.maxModelsAfterMerge < 0x8000_0000
    requires k < |observations| < |sets|
  {
    IsPruned(mcfg, Ambiguated(ukf, cfg, posts, sets[k], observations[k]), sets[k + 1])
  }

  /** The goals of the first n observations are on declared sides. */
  predicate DeclaredSoFar(cfg: EngineConfig, observations: seq<seq<Goal>>, n: nat)
    requires n <= |observations|
  {
    forall i :: 0 <= i < n ==> SidesDeclared(cfg, observations[i])
  }

  /** Over every run there are between one hypothesis and the maximum, with positive weights that add up to
      one, exactly as long as all goals were on declared sides; from the first that was not there is none. */
  lemma {:induction false} RunsAreSound(mcfg: Config, ukf: Ukf, cfg: EngineConfig, posts: Goalposts,
                                        sets: seq<seq<Hypothesis>>, observations: seq<seq<Goal>>, n: nat)
    requires 1 <= mcfg.maxModelsAfterMerge < 0x8000_0000 && GoodFilter(ukf)
    requires IsRun(mcfg, ukf, cfg, posts, sets, observations) && Sound(sets[0])
    requires 0 < n <= |observations|
    ensures |sets[n]| <= mcfg.maxModelsAfterMerge && Positive(sets[n])
    ensures Sound(sets[n]) && Total(sets[n]) == 1.0 <==> DeclaredSoFar(cfg, observations, n)
    ensures sets[n] == [] <==> !DeclaredSoFar(cfg, observations, n)
  {
    hide SidesDeclared, GoodFilter, Positive, Total, Ambiguated, IsPruned;
    if n > 1 {
      RunsAreSound(mcfg, ukf, cfg, posts, sets, observations, n - 1);
    }
    assert IsRound(mcfg, ukf, cfg, posts, sets, observations, n - 1);
    ProcessingIsSound(mcfg, ukf, cfg, posts, sets[n - 1], observations[n - 1], sets[n]);
    assert DeclaredSoFar(cfg, observations, n)
      <==> DeclaredSoFar(cfg, observations, n - 1) && SidesDeclared(cfg, observations[n - 1]);
  }
}
