/** How well an observation fits is what weights the hypotheses. */
module ObservationWeights {
  import opened RobotModels
  import opened MultiModalRobotModels
  import opened LocalisationEngine

  datatype Sighting = Sighting(measurement: Measurement, of: Location)

  function SightingsOf(measurements: seq<Measurement>, post: Location): (seen: seq<Sighting>)
    ensures |seen| == |measurements|
    ensures forall k :: 0 <= k < |seen| ==> seen[k] == Sighting(measurements[k], post)
  {
    seq(|measurements|, k requires 0 <= k < |measurements| => Sighting(measurements[k], post))
  }

  /** The measurements of the first n objects, one object after the other. */
  function Sightings(observed: seq<seq<Measurement>>, objects: seq<Location>, n: nat): seq<Sighting>
    requires n <= |objects| <= |observed|
  {
    if n == 0 then [] else Sightings(observed, objects, n - 1) + SightingsOf(observed[n - 1], objects[n - 1])
  }

  function Times(w: real, p: real): real {
    w * p
  }

  function ProductOf(qs: seq<real>): real {
    if qs == [] then 1.0 else ProductOf(qs[..|qs| - 1]) * qs[|qs| - 1]
  }

  /** The filters a filter goes through, and the qualities it meets with, in a series of sightings. */
  ghost predicate IsTrail(ukf: Ukf, seen: seq<Sighting>, fs: seq<Filter>, qs: seq<real>) {
    && |fs| == |seen| + 1 && |qs| == |seen|
    && forall k :: 0 <= k < |seen| ==> ukf(fs[k], seen[k].measurement, seen[k].of) == Reading(fs[k + 1], qs[k])
  }

  lemma ProductAppend(qs: seq<real>, q: real)
    ensures ProductOf(qs + [q]) == ProductOf(qs) * q
  {
    assert (qs + [q])[..|qs|] == qs;
  }

  lemma {:induction false} ProductConcat(a: seq<real>, b: seq<real>)
    ensures ProductOf(a + b) == ProductOf(a) * ProductOf(b)
    decreases |b|
  {
    if b == [] {
      assert a + b == a;
    } else {
      var front, q := b[..|b| - 1], b[|b| - 1];
      ProductConcat(a, front);
      assert a + b == (a + front) + [q];
      ProductAppend(a + front, q);
    }
  }

  lemma TrailOn(ukf: Ukf, seen: seq<Sighting>, fs: seq<Filter>, qs: seq<real>, s: Sighting)
    requires IsTrail(ukf, seen, fs, qs)
    ensures var r := ukf(fs[|seen|], s.measurement, s.of); IsTrail(ukf, seen + [s], fs + [r.filter], qs + [r.quality])
  {
  }

  lemma TrailsJoin(ukf: Ukf, a: seq<Sighting>, fs: seq<Filter>, qs: seq<real>, b: seq<Sighting>, gs: seq<Filter>,
                   rs: seq<real>)
    requires IsTrail(ukf, a, fs, qs) && IsTrail(ukf, b, gs, rs) && gs[0] == fs[|fs| - 1]
    ensures IsTrail(ukf, a + b, fs + gs[1..], qs + rs) && fs + gs[1..] != []
    ensures (fs + gs[1..])[0] == fs[0] && (fs + gs[1..])[|fs + gs[1..]| - 1] == gs[|gs| - 1]
    ensures ProductOf(qs + rs) == Times(ProductOf(qs), ProductOf(rs))
  {
    ProductConcat(qs, rs);
    var hs := fs + gs[1..];
    forall k | 0 <= k < |a + b|
      ensures ukf(hs[k], (a + b)[k].measurement, (a + b)[k].of) == Reading(hs[k + 1], (qs + rs)[k])
    {
      if k >= |a| {
        assert hs[k] == gs[k - |a|] && hs[k + 1] == gs[k - |a| + 1];
      }
    }
  }

  lemma {:induction false} ObservedOnTrail(ukf: Ukf, f: Filter, measurements: seq<Measurement>, post: Location)
    returns (fs: seq<Filter>, qs: seq<real>)
    ensures IsTrail(ukf, SightingsOf(measurements, post), fs, qs) && fs[0] == f
    ensures Observed(ukf, f, measurements, post) == Reading(fs[|measurements|], ProductOf(qs))
  {
    if measurements == [] {
      fs, qs := [f], [];
    } else {
      var front, m := measurements[..|measurements| - 1], measurements[|measurements| - 1];
      fs, qs := ObservedOnTrail(ukf, f, front, post);
      var r := ukf(fs[|front|], m, post);
      TrailOn(ukf, SightingsOf(front, post), fs, qs, Sighting(m, post));
      ProductAppend(qs, r.quality);
      assert SightingsOf(measurements, post) == SightingsOf(front, post) + [Sighting(m, post)];
      fs, qs := fs + [r.filter], qs + [r.quality];
    }
  }

  lemma TimesTwice(w: real, p: real, q: real)
    ensures Times(Times(w, p), q) == Times(w, Times(p, q))
  {
  }

  lemma TimesOne(w: real)
    ensures Times(w, ProductOf([])) == w
  {
  }

  lemma {:induction false} UpdatedOnTrail(ukf: Ukf, h: Hypothesis, observed: seq<seq<Measurement>>,
                                          objects: seq<Location>, n: nat)
    returns (fs: seq<Filter>, qs: seq<real>)
    requires n <= |objects| <= |observed|
    ensures IsTrail(ukf, Sightings(observed, objects, n), fs, qs) && fs[0] == h.filter
    ensures UpdatedBy(ukf, h, observed, objects, n)
         == Hypothesis(fs[|fs| - 1], Times(h.weight, ProductOf(qs)), h.obsCount + n)
    decreases n
  {
    hide Times;
    if n == 0 {
      fs, qs := [h.filter], [];
      TimesOne(h.weight);
    } else {
      hide UpdatedOnce, IsTrail, ProductOf, SightingsOf, Times;
      var h' := UpdatedBy(ukf, h, observed, objects, n - 1);
      fs, qs := UpdatedOnTrail(ukf, h, observed, objects, n - 1);
      TrailSize(ukf, Sightings(observed, objects, n - 1), fs, qs);
      var gs, rs := UpdatedOnceOnTrail(ukf, h', observed[n - 1], objects[n - 1]);
      TrailSize(ukf, SightingsOf(observed[n - 1], objects[n - 1]), gs, rs);
      TrailsJoin(ukf, Sightings(observed, objects, n - 1), fs, qs,
        SightingsOf(observed[n - 1], objects[n - 1]), gs, rs);
      TimesTwice(h.weight, ProductOf(qs), ProductOf(rs));
      fs, qs := fs + gs[1..], qs + rs;
    }
  }

  lemma UpdatedOnceOnTrail(ukf: Ukf, h: Hypothesis, measurements: seq<Measurement>, post: Location)
    returns (fs: seq<Filter>, qs: seq<real>)
    ensures IsTrail(ukf, SightingsOf(measurements, post), fs, qs) && fs[0] == h.filter
    ensures UpdatedOnce(ukf, h, measurements, post)
         == Hypothesis(fs[|fs| - 1], Times(h.weight, ProductOf(qs)), h.obsCount + 1)
  {
    hide Observed, ProductOf;
    fs, qs := ObservedOnTrail(ukf, h.filter, measurements, post);
  }

  lemma TrailSize(ukf: Ukf, seen: seq<Sighting>, fs: seq<Filter>, qs: seq<real>)
    requires IsTrail(ukf, seen, fs, qs)
    ensures |fs| == |seen| + 1 && |qs| == |seen|
  {
  }

  // ----- The law -----

  /** The copy of a hypothesis for a set of objects has the filter that all sightings of the set, one after
      the other, lead to, and its weight times every quality met with on the way. */
  lemma CopyIsWeighted(ukf: Ukf, hs: seq<Hypothesis>, observed: seq<seq<Measurement>>, sets: seq<seq<Location>>, i: nat,
                       j: nat)
    returns (fs: seq<Filter>, qs: seq<real>)
    requires Fitting(observed, sets) && i < |hs| && j < |sets|
    ensures IsTrail(ukf, Sightings(observed, sets[j], |sets[j]|), fs, qs) && fs[0] == hs[i].filter
    ensures Place(|hs|, |sets|, i, j) < |Split(ukf, hs, observed, sets)|
    ensures Split(ukf, hs, observed, sets)[Place(|hs|, |sets|, i, j)]
         == Hypothesis(fs[|fs| - 1], hs[i].weight * ProductOf(qs), hs[i].obsCount + |sets[j]|)
  {
    hide Split, UpdatedBy, Place, Sightings;
    fs, qs := UpdatedOnTrail(ukf, hs[i], observed, sets[j], |sets[j]|);
    SplitMeetsAll(ukf, hs, observed, sets, i, j);
  }

  /** So for one measurement of one object a copy is weighted by the quality of that measurement. */
  lemma OneSightingWeighs(ukf: Ukf, hs: seq<Hypothesis>, m: Measurement, objects: seq<Location>, i: nat, j: nat)
    requires i < |hs| && j < |objects|
    ensures Place(|hs|, |objects|, i, j) < |Split(ukf, hs, [[m]], Singletons(objects))|
    ensures var copy := Split(ukf, hs, [[m]], Singletons(objects))[Place(|hs|, |objects|, i, j)];
      && copy.weight == hs[i].weight * ukf(hs[i].filter, m, objects[j]).quality
      && copy.filter == ukf(hs[i].filter, m, objects[j]).filter
      && copy.obsCount == hs[i].obsCount + 1
  {
    hide Split, Place;
    var fs, qs := CopyIsWeighted(ukf, hs, [[m]], Singletons(objects), i, j);
    assert Sightings([[m]], [objects[j]], 0) == [];
    assert Sightings([[m]], [objects[j]], 1) == [Sighting(m, objects[j])];
    assert ProductOf(qs[..0]) == 1.0 && ProductOf(qs) == 1.0 * qs[0];
  }

  lemma CrossProduct(w: real, p: real, q: real)
    ensures (w * p) * q == (w * q) * p
  {
  }

  /** Two copies of one hypothesis have weights in the ratio of the products of the qualities they met with. */
  lemma WeightsInRatio(ukf: Ukf, hs: seq<Hypothesis>, observed: seq<seq<Measurement>>, sets: seq<seq<Location>>,
                       i: nat, j: nat, j': nat)
    returns (fs: seq<Filter>, qs: seq<real>, fs': seq<Filter>, qs': seq<real>)
    requires Fitting(observed, sets) && i < |hs| && j < |sets| && j' < |sets|
    ensures IsTrail(ukf, Sightings(observed, sets[j], |sets[j]|), fs, qs) && fs[0] == hs[i].filter
    ensures IsTrail(ukf, Sightings(observed, sets[j'], |sets[j']|), fs', qs') && fs'[0] == hs[i].filter
    ensures var split := Split(ukf, hs, observed, sets);
      && Place(|hs|, |sets|, i, j) < |split| && Place(|hs|, |sets|, i, j') < |split|
      && split[Place(|hs|, |sets|, i, j)].weight * ProductOf(qs')
         == split[Place(|hs|, |sets|, i, j')].weight * ProductOf(qs)
  {
    hide Split, Place, Sightings, ProductOf, IsTrail;
    fs, qs := CopyIsWeighted(ukf, hs, observed, sets, i, j);
    fs', qs' := CopyIsWeighted(ukf, hs, observed, sets, i, j');
    CrossProduct(hs[i].weight, ProductOf(qs), ProductOf(qs'));
  }

  // ----- Goals -----

  /** A goal seen on one side may be the posts of that side, and one whose side is not known any post; when
      all goals are blue none is yellow. Each is listed once. */
  lemma PostsSeen(cfg: EngineConfig, posts: Goalposts, side: Side, post: Location)
    ensures post in PossibleObjects(cfg, posts, side) <==>
      || (side in {LEFT, UNKNOWN} && (post == posts.bl || (!cfg.allGoalsAreBlue && post == posts.yl)))
      || (side in {RIGHT, UNKNOWN} && (post == posts.br || (!cfg.allGoalsAreBlue && post == posts.yr)))
    ensures |PossibleObjects(cfg, posts, side)|
         == (if side == UNKNOWN then 2 else if side == INVALID then 0 else 1) * (if cfg.allGoalsAreBlue then 1 else 2)
  {
  }

  /** A lone goal weights a hypothesis for every post it may be by how well it fits that post. */
  lemma LoneGoalWeighs(ukf: Ukf, cfg: EngineConfig, posts: Goalposts, hs: seq<Hypothesis>, goal: Goal, i: nat, j: nat)
    requires |goal.measurements| == 1 && i < |hs| && j < |PossibleObjects(cfg, posts, goal.side)|
    ensures var after, n := Ambiguated(ukf, cfg, posts, hs, [goal]), |PossibleObjects(cfg, posts, goal.side)|;
      var m, post := goal.measurements[0], PossibleObjects(cfg, posts, goal.side)[j];
      && |after| == |hs| * n && Place(|hs|, n, i, j) < |after|
      && after[Place(|hs|, n, i, j)].weight == hs[i].weight * ukf(hs[i].filter, m, post).quality
      && after[Place(|hs|, n, i, j)].filter == ukf(hs[i].filter, m, post).filter
  {
    hide Split, Place, PossibleObjects;
    var m, objects := goal.measurements[0], PossibleObjects(cfg, posts, goal.side);
    assert goal.measurements == [m];
    assert OneByOne(ukf, cfg, posts, hs, []) == hs;
    assert [goal][..0] == [];
    OneSightingWeighs(ukf, hs, m, objects, i, j);
    SplitSize(ukf, hs, [[m]], Singletons(objects));
  }

  /** Of a pair the goal seen on the left is taken to be a left post and the other the right post of the same
      colour. */
  lemma PairSightings(cfg: EngineConfig, posts: Goalposts, goals: seq<Goal>, left: Goal, right: Goal, j: nat)
    requires GoalPairObserved(goals) && left in goals && left.side == LEFT && right in goals && right.side == RIGHT
    requires j < |PairSets(cfg, posts)|
    ensures |PairSets(cfg, posts)| == if cfg.allGoalsAreBlue then 1 else 2
    ensures Sightings(PairMeasurements(goals), PairSets(cfg, posts)[j], 2)
         == SightingsOf(left.measurements, if j == 0 then posts.bl else posts.yl)
            + SightingsOf(right.measurements, if j == 0 then posts.br else posts.yr)
  {
    var observed, objects := PairMeasurements(goals), PairSets(cfg, posts)[j];
    assert observed == [left.measurements, right.measurements];
    assert Sightings(observed, objects, 1) == [] + SightingsOf(observed[0], objects[0]);
  }

  /** And weights a hypothesis by both together. */
  lemma PairWeighs(ukf: Ukf, cfg: EngineConfig, posts: Goalposts, hs: seq<Hypothesis>, goals: seq<Goal>,
                   left: Goal, right: Goal, i: nat, j: nat)
    returns (fs: seq<Filter>, qs: seq<real>)
    requires GoalPairObserved(goals) && cfg.goalPairObservationEnabled
    requires left in goals && left.side == LEFT && right in goals && right.side == RIGHT
    requires i < |hs| && j < (if cfg.allGoalsAreBlue then 1 else 2)
    ensures IsTrail(ukf, SightingsOf(left.measurements, if j == 0 then posts.bl else posts.yl)
                         + SightingsOf(right.measurements, if j == 0 then posts.br else posts.yr), fs, qs)
    ensures fs[0] == hs[i].filter
    ensures var after, n := Ambiguated(ukf, cfg, posts, hs, goals), if cfg.allGoalsAreBlue then 1 else 2;
      && |after| == |hs| * n && Place(|hs|, n, i, j) < |after|
      && after[Place(|hs|, n, i, j)] == Hypothesis(fs[|fs| - 1], hs[i].weight * ProductOf(qs), hs[i].obsCount + 2)
  {
    hide Split, Place, PairMeasurements, Sightings, SightingsOf;
    PairSightings(cfg, posts, goals, left, right, j);
    fs, qs := CopyIsWeighted(ukf, hs, PairMeasurements(goals), PairSets(cfg, posts), i, j);
    SplitSize(ukf, hs, PairMeasurements(goals), PairSets(cfg, posts));
  }

  /** A pair is looked at together only if that is enabled; if only the angle between goals is, it is not
      looked at at all. Everything else is looked at goal by goal. */
  lemma WhichWay(ukf: Ukf, cfg: EngineConfig, posts: Goalposts, hs: seq<Hypothesis>, goals: seq<Goal>)
    ensures Ambiguated(ukf, cfg, posts, hs, goals)
         == if GoalPairObserved(goals) && cfg.goalPairObservationEnabled
            then Split(ukf, hs, PairMeasurements(goals), PairSets(cfg, posts))
            else if GoalPairObserved(goals) && cfg.angleBetweenGoalsObservationEnabled then hs
            else OneByOne(ukf, cfg, posts, hs, goals)
    ensures GoalPairObserved(goals) <==>
      |goals| == 2 && exists k :: 0 <= k < 2 && goals[k].side == LEFT && goals[1 - k].side == RIGHT
  {
    if GoalPairObserved(goals) {
      var k := if goals[0].side == LEFT then 0 else 1;
      assert goals[k].side == LEFT && goals[1 - k].side == RIGHT;
    }
  }

  function MeasurementsOf(goals: seq<Goal>): (observed: seq<seq<Measurement>>)
    ensures |observed| == |goals| && forall k :: 0 <= k < |goals| ==> observed[k] == goals[k].measurements
  {
    seq(|goals|, k requires 0 <= k < |goals| => goals[k].measurements)
  }

  lemma {:induction false} SightingsOfFront(observed: seq<seq<Measurement>>, more: seq<seq<Measurement>>,
                                            objects: seq<Location>, more': seq<Location>, n: nat)
    requires n <= |objects| <= |observed| && |objects + more'| <= |observed + more|
    ensures Sightings(observed + more, objects + more', n) == Sightings(observed, objects, n)
  {
    if n > 0 {
      SightingsOfFront(observed, more, objects, more', n - 1);
    }
  }

  lemma OneByOneOn(ukf: Ukf, cfg: EngineConfig, posts: Goalposts, hs: seq<Hypothesis>, front: seq<Goal>, goal: Goal)
    ensures OneByOne(ukf, cfg, posts, hs, front + [goal])
         == Split(ukf, OneByOne(ukf, cfg, posts, hs, front), [goal.measurements],
           Singletons(PossibleObjects(cfg, posts, goal.side)))
  {
    assert (front + [goal])[..|front|] == front;
  }

  /** The copy of a hypothesis for a post a goal may be of. */
  lemma CopyForPost(ukf: Ukf, hs: seq<Hypothesis>, measurements: seq<Measurement>, objects: seq<Location>, k: nat)
    returns (i: nat, post: Location, fs: seq<Filter>, qs: seq<real>)
    requires k < |Split(ukf, hs, [measurements], Singletons(objects))|
    ensures i < |hs| && post in objects
    ensures IsTrail(ukf, SightingsOf(measurements, post), fs, qs) && fs[0] == hs[i].filter
    ensures Split(ukf, hs, [measurements], Singletons(objects))[k]
         == Hypothesis(fs[|fs| - 1], Times(hs[i].weight, ProductOf(qs)), hs[i].obsCount + 1)
  {
    hide Split, Place, UpdatedOnce, SightingsOf, ProductOf;
    var j;
    i, j := SplitMeetsOnly(ukf, hs, [measurements], Singletons(objects), k);
    post := objects[j];
    fs, qs := UpdatedOnceOnTrail(ukf, hs[i], measurements, post);
    assert UpdatedBy(ukf, hs[i], [measurements], [post], 0) == hs[i];
    assert UpdatedBy(ukf, hs[i], [measurements], [post], 1) == UpdatedOnce(ukf, hs[i], measurements, post);
  }

  lemma TrailGrows(ukf: Ukf, front: seq<Goal>, goal: Goal, taken: seq<Location>, post: Location,
                   fs: seq<Filter>, qs: seq<real>, gs: seq<Filter>, rs: seq<real>, w: real)
    requires |taken| == |front| && IsTrail(ukf, Sightings(MeasurementsOf(front), taken, |front|), fs, qs)
    requires IsTrail(ukf, SightingsOf(goal.measurements, post), gs, rs) && gs[0] == fs[|fs| - 1]
    ensures IsTrail(ukf, Sightings(MeasurementsOf(front + [goal]), taken + [post], |front| + 1), fs + gs[1..], qs + rs)
    ensures fs + gs[1..] != [] && (fs + gs[1..])[0] == fs[0] && (fs + gs[1..])[|fs + gs[1..]| - 1] == gs[|gs| - 1]
    ensures Times(Times(w, ProductOf(qs)), ProductOf(rs)) == Times(w, ProductOf(qs + rs))
  {
    hide SightingsOf, ProductOf, Times, MeasurementsOf;
    var seen := Sightings(MeasurementsOf(front), taken, |front|);
    TrailsJoin(ukf, seen, fs, qs, SightingsOf(goal.measurements, post), gs, rs);
    TimesTwice(w, ProductOf(qs), ProductOf(rs));
    assert MeasurementsOf(front + [goal]) == MeasurementsOf(front) + [goal.measurements];
    SightingsOfFront(MeasurementsOf(front), [goal.measurements], taken, [post], |front|);
  }

  lemma NoGoalWeighs(ukf: Ukf, cfg: EngineConfig, posts: Goalposts, hs: seq<Hypothesis>, k: nat)
    requires k < |OneByOne(ukf, cfg, posts, hs, [])|
    ensures OneByOne(ukf, cfg, posts, hs, []) == hs
    ensures IsTrail(ukf, Sightings(MeasurementsOf([]), [], 0), [hs[k].filter], [])
    ensures Times(hs[k].weight, ProductOf([])) == hs[k].weight
  {
    TimesOne(hs[k].weight);
  }

  /** Of goals looked at one by one, each hypothesis left comes from one there was: it takes every goal to be of
      one post it may be of, and is weighted by every quality met with on the way. */
  lemma {:induction false} GoalsWeigh(ukf: Ukf, cfg: EngineConfig, posts: Goalposts, hs: seq<Hypothesis>,
                                      goals: seq<Goal>, k: nat)
    returns (i: nat, taken: seq<Location>, fs: seq<Filter>, qs: seq<real>)
    requires k < |OneByOne(ukf, cfg, posts, hs, goals)|
    ensures i < |hs| && |taken| == |goals|
    ensures forall g :: 0 <= g < |goals| ==> taken[g] in PossibleObjects(cfg, posts, goals[g].side)
    ensures IsTrail(ukf, Sightings(MeasurementsOf(goals), taken, |goals|), fs, qs) && fs[0] == hs[i].filter
    ensures OneByOne(ukf, cfg, posts, hs, goals)[k]
         == Hypothesis(fs[|fs| - 1], Times(hs[i].weight, ProductOf(qs)), hs[i].obsCount + |goals|)
    decreases |goals|
  {
    hide Split, Singletons, PossibleObjects, IsTrail, ProductOf, Sightings, Times, MeasurementsOf, OneByOne;
    if goals == [] {
      NoGoalWeighs(ukf, cfg, posts, hs, k);
      i, taken, fs, qs := k, [], [hs[k].filter], [];
    } else {
      var front, goal := goals[..|goals| - 1], goals[|goals| - 1];
      assert goals == front + [goal];
      OneByOneOn(ukf, cfg, posts, hs, front, goal);
      var before := OneByOne(ukf, cfg, posts, hs, front);
      var i', post, gs, rs := CopyForPost(ukf, before, goal.measurements, PossibleObjects(cfg, posts, goal.side), k);
      i, taken, fs, qs := GoalsWeigh(ukf, cfg, posts, hs, front, i');
      TrailSize(ukf, SightingsOf(goal.measurements, post), gs, rs);
      TrailGrows(ukf, front, goal, taken, post, fs, qs, gs, rs, hs[i].weight);
      taken, fs, qs := taken + [post], fs + gs[1..], qs + rs;
    }
  }

  // ----- What is kept -----

  /** Of the hypotheses, merged if they are to be, the heaviest are kept, as many as allowed, and their weights
      keep their ratios. */
  lemma PrunedKeepsShares(mcfg: Config, before: seq<Hypothesis>, after: seq<Hypothesis>)
    returns (merged: seq<Hypothesis>, kept: seq<Hypothesis>, dropped: seq<Hypothesis>)
    requires 0 <= mcfg.maxModelsAfterMerge < 0x8000_0000 && IsPruned(mcfg, before, after)
    ensures if mcfg.mergingEnabled then IsMergeOf(mcfg, before, merged) else merged == before
    ensures |after| == |kept| == if |merged| <= mcfg.maxModelsAfterMerge then |merged| else mcfg.maxModelsAfterMerge
    ensures multiset(kept) + multiset(dropped) == multiset(merged)
    ensures forall h, d :: h in kept && d in dropped ==> d.weight <= h.weight
    ensures forall k :: 0 <= k < |after| ==> after[k] == kept[k].(weight := after[k].weight)
    ensures Total(kept) != 0.0 ==> forall k :: 0 <= k < |after| ==> after[k].weight * Total(kept) == kept[k].weight
  {
    hide *;
    merged, kept := KeptOf(mcfg, before, after);
    dropped := DroppedOf(merged, kept, mcfg.maxModelsAfterMerge);
    NormalisedKeepsShares(kept);
  }

  lemma KeptOf(mcfg: Config, before: seq<Hypothesis>, after: seq<Hypothesis>)
    returns (merged: seq<Hypothesis>, kept: seq<Hypothesis>)
    requires 0 <= mcfg.maxModelsAfterMerge < 0x8000_0000 && IsPruned(mcfg, before, after)
    ensures if mcfg.mergingEnabled then IsMergeOf(mcfg, before, merged) else merged == before
    ensures IsPrunedTo(merged, kept, mcfg.maxModelsAfterMerge) && after == Normalised(kept)
  {
    hide Normalised, IsPrunedTo, IsMergeOf;
    var merged', kept' :|
      && (if mcfg.mergingEnabled then IsMergeOf(mcfg, before, merged') else merged' == before)
      && IsPrunedTo(merged', kept', Order(mcfg)) && after == Normalised(kept');
    merged, kept := merged', kept';
    OrderIsMaximum(mcfg);
  }

  lemma DroppedOf(before: seq<Hypothesis>, kept: seq<Hypothesis>, order: nat) returns (dropped: seq<Hypothesis>)
    requires IsPrunedTo(before, kept, order)
    ensures |kept| == if |before| <= order then |before| else order
    ensures multiset(kept) + multiset(dropped) == multiset(before)
    ensures forall h, d :: h in kept && d in dropped ==> d.weight <= h.weight
  {
    dropped :| multiset(kept) + multiset(dropped) == multiset(before)
               && forall h, d :: h in kept && d in dropped ==> d.weight <= h.weight;
  }

  lemma OrderIsMaximum(mcfg: Config)
    requires 0 <= mcfg.maxModelsAfterMerge < 0x8000_0000
    ensures Order(mcfg) == mcfg.maxModelsAfterMerge
  {
  }

  lemma NormalisedKeepsShares(hs: seq<Hypothesis>)
    ensures |Normalised(hs)| == |hs|
    ensures forall k :: 0 <= k < |hs| ==> Normalised(hs)[k] == hs[k].(weight := Normalised(hs)[k].weight)
    ensures Total(hs) != 0.0 ==>
      forall k :: 0 <= k < |hs| ==> Normalised(hs)[k].weight * Total(hs) == hs[k].weight
  {
    hide Total;
    if Total(hs) != 0.0 {
      forall k | 0 <= k < |hs| ensures Normalised(hs)[k].weight * Total(hs) == hs[k].weight {
        DivideTimes(hs[k].weight, Total(hs));
      }
    }
  }
}
