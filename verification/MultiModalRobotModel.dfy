/** The hypothesis set as an object, and the engine that feeds it with observed goals. */
module MultiModalRobotModels {
  import opened RobotModels

  // ----- Splitting -----

  /** A filter after all measurements of one object, and the product of their qualities. */
  function Observed(ukf: Ukf, filter: Filter, measurements: seq<Measurement>, actual: Location): Reading {
    if measurements == [] then Reading(filter, 1.0) else
      var before := Observed(ukf, filter, measurements[..|measurements| - 1], actual);
      var reading := ukf(before.filter, measurements[|measurements| - 1], actual);
      Reading(reading.filter, before.quality * reading.quality)
  }

  function UpdatedOnce(ukf: Ukf, h: Hypothesis, measurements: seq<Measurement>, actual: Location): Hypothesis {
    var reading := Observed(ukf, h.filter, measurements, actual);
    Hypothesis(reading.filter, h.weight * reading.quality, h.obsCount + 1)
  }

  /** A hypothesis after the first n observations, taken to be of the first n objects of a set. */
  function UpdatedBy(ukf: Ukf, h: Hypothesis, observed: seq<seq<Measurement>>, objects: seq<Location>,
                     n: nat): Hypothesis
    requires n <= |objects| <= |observed|
  {
    if n == 0 then h
    else UpdatedOnce(ukf, UpdatedBy(ukf, h, observed, objects, n - 1), observed[n - 1], objects[n - 1])
  }

  ghost predicate Fitting(observed: seq<seq<Measurement>>, sets: seq<seq<Location>>) {
    forall j :: 0 <= j < |sets| ==> |sets[j]| <= |observed|
  }

  /** One copy of a hypothesis for each set of objects the observations may be of. */
  function SplitOne(ukf: Ukf, h: Hypothesis, observed: seq<seq<Measurement>>,
                    sets: seq<seq<Location>>): (hs: seq<Hypothesis>)
    requires Fitting(observed, sets)
    ensures |hs| == |sets|
    ensures forall j :: 0 <= j < |sets| ==> hs[j] == UpdatedBy(ukf, h, observed, sets[j], |sets[j]|)
  {
    seq(|sets|, j requires 0 <= j < |sets| => UpdatedBy(ukf, h, observed, sets[j], |sets[j]|))
  }

  /** The hypotheses are taken from the back. */
  function Split(ukf: Ukf, hs: seq<Hypothesis>, observed: seq<seq<Measurement>>,
                 sets: seq<seq<Location>>): seq<Hypothesis>
    requires Fitting(observed, sets)
  {
    if hs == [] then []
    else SplitOne(ukf, hs[|hs| - 1], observed, sets) + Split(ukf, hs[..|hs| - 1], observed, sets)
  }

  function Singletons(objects: seq<Location>): (sets: seq<seq<Location>>)
    ensures |sets| == |objects| && forall j :: 0 <= j < |sets| ==> sets[j] == [objects[j]]
  {
    seq(|objects|, j requires 0 <= j < |objects| => [objects[j]])
  }

  /** Where the copy of hypothesis i for set j goes: hypotheses are split from the last to the
      first of n, each for m sets. */
  function Place(n: nat, m: nat, i: nat, j: nat): nat
    requires i < n && j < m
  {
    ProductIsNat(n - 1 - i, m);
    (n - 1 - i) * m + j
  }

  lemma ProductIsNat(a: nat, b: nat)
    ensures a * b >= 0
  {
  }

  lemma PlaceStepsDown(n: nat, m: nat, i: nat, j: nat)
    requires i < n && j < m
    ensures i == n - 1 ==> Place(n, m, i, j) == j
    ensures i < n - 1 ==> Place(n, m, i, j) == m + Place(n - 1, m, i, j)
  {
    if i < n - 1 {
      assert (n - 1 - i) * m == m + (n - 2 - i) * m;
    }
  }

  /** Every place belongs to one hypothesis and one set. */
  lemma {:induction false} PlaceIsOfOne(n: nat, m: nat, k: nat) returns (i: nat, j: nat)
    requires k < n * m
    ensures i < n && j < m && Place(n, m, i, j) == k
  {
    if k < m {
      i, j := n - 1, k;
    } else {
      i, j := PlaceIsOfOne(n - 1, m, k - m);
    }
    PlaceStepsDown(n, m, i, j);
  }

  lemma {:induction false} SplitSize(ukf: Ukf, hs: seq<Hypothesis>, observed: seq<seq<Measurement>>,
                                     sets: seq<seq<Location>>)
    requires Fitting(observed, sets)
    ensures |Split(ukf, hs, observed, sets)| == |hs| * |sets|
  {
    if hs != [] {
      SplitSize(ukf, hs[..|hs| - 1], observed, sets);
      assert |hs| * |sets| == |sets| + (|hs| - 1) * |sets|;
    }
  }

  /** Every hypothesis meets every set of objects, each pair in a place of its own. */
  lemma {:induction false} SplitMeetsAll(ukf: Ukf, hs: seq<Hypothesis>, observed: seq<seq<Measurement>>,
                                         sets: seq<seq<Location>>, i: nat, j: nat)
    requires Fitting(observed, sets) && i < |hs| && j < |sets|
    ensures Place(|hs|, |sets|, i, j) < |Split(ukf, hs, observed, sets)| == |hs| * |sets|
    ensures Split(ukf, hs, observed, sets)[Place(|hs|, |sets|, i, j)]
            == UpdatedBy(ukf, hs[i], observed, sets[j], |sets[j]|)
    decreases |hs|
  {
    SplitSize(ukf, hs, observed, sets);
    PlaceStepsDown(|hs|, |sets|, i, j);
    if i < |hs| - 1 {
      SplitMeetsAll(ukf, hs[..|hs| - 1], observed, sets, i, j);
    }
  }

  /** And nothing else is in the result. */
  lemma SplitMeetsOnly(ukf: Ukf, hs: seq<Hypothesis>, observed: seq<seq<Measurement>>, sets: seq<seq<Location>>, k: nat)
    returns (i: nat, j: nat)
    requires Fitting(observed, sets) && k < |Split(ukf, hs, observed, sets)|
    ensures i < |hs| && j < |sets| && Place(|hs|, |sets|, i, j) == k
    ensures Split(ukf, hs, observed, sets)[k] == UpdatedBy(ukf, hs[i], observed, sets[j], |sets[j]|)
  {
    SplitSize(ukf, hs, observed, sets);
    i, j := PlaceIsOfOne(|hs|, |sets|, k);
    SplitMeetsAll(ukf, hs, observed, sets, i, j);
  }

  // ----- Positive weights -----

  ghost predicate GoodFilter(ukf: Ukf) {
    forall f, m, l :: ukf(f, m, l).quality > 0.0
  }

  lemma {:induction false} ObservedIsPositive(ukf: Ukf, filter: Filter, measurements: seq<Measurement>,
                                              actual: Location)
    requires GoodFilter(ukf)
    ensures Observed(ukf, filter, measurements, actual).quality > 0.0
  {
    if measurements != [] {
      var front := measurements[..|measurements| - 1];
      ObservedIsPositive(ukf, filter, front, actual);
      var before := Observed(ukf, filter, front, actual);
      ProductIsPositive(before.quality, ukf(before.filter, measurements[|measurements| - 1], actual).quality);
    }
  }

  lemma ProductIsPositive(a: real, b: real)
    requires a > 0.0 && b > 0.0
    ensures a * b > 0.0
  {
  }

  lemma {:induction false} UpdatedByIsPositive(ukf: Ukf, h: Hypothesis, observed: seq<seq<Measurement>>,
                                               objects: seq<Location>, n: nat)
    requires GoodFilter(ukf) && h.weight > 0.0 && n <= |objects| <= |observed|
    ensures UpdatedBy(ukf, h, observed, objects, n).weight > 0.0
  {
    if n > 0 {
      UpdatedByIsPositive(ukf, h, observed, objects, n - 1);
      var g := UpdatedBy(ukf, h, observed, objects, n - 1);
      ObservedIsPositive(ukf, g.filter, observed[n - 1], objects[n - 1]);
      ProductIsPositive(g.weight, Observed(ukf, g.filter, observed[n - 1], objects[n - 1]).quality);
    }
  }

  lemma {:induction false} SplitIsPositive(ukf: Ukf, hs: seq<Hypothesis>, observed: seq<seq<Measurement>>,
                                           sets: seq<seq<Location>>)
    requires GoodFilter(ukf) && Positive(hs) && Fitting(observed, sets)
    ensures Positive(Split(ukf, hs, observed, sets))
    ensures Split(ukf, hs, observed, sets) == [] <==> hs == [] || sets == []
    decreases |hs|
  {
    if hs != [] {
      var h := hs[|hs| - 1];
      assert h in hs;
      SplitIsPositive(ukf, hs[..|hs| - 1], observed, sets);
      forall j | 0 <= j < |sets|
        ensures SplitOne(ukf, h, observed, sets)[j].weight > 0.0
      {
        UpdatedByIsPositive(ukf, h, observed, sets[j], |sets[j]|);
      }
    }
  }

  // ----- Pruning -----

  function Order(cfg: Config): nat
    requires -0x8000_0000 <= cfg.maxModelsAfterMerge < 0x8000_0000
  {
    // a negative maximum becomes a huge unsigned one
    if cfg.maxModelsAfterMerge < 0 then cfg.maxModelsAfterMerge + 0x1_0000_0000 else cfg.maxModelsAfterMerge
  }

  /** `after` is what one round of pruning can leave of `before`. */
  ghost predicate IsPruned(cfg: Config, before: seq<Hypothesis>, after: seq<Hypothesis>)
    requires -0x8000_0000 <= cfg.maxModelsAfterMerge < 0x8000_0000
  {
    exists merged, kept ::
      && (if cfg.mergingEnabled then IsMergeOf(cfg, before, merged) else merged == before)
      && IsPrunedTo(merged, kept, Order(cfg))
      && after == Normalised(kept)
  }

  lemma {:induction false} MergedIsPositive(cfg: Config, hs: seq<Hypothesis>)
    requires Positive(hs)
    ensures Positive(Merged(cfg, hs)) && (Merged(cfg, hs) == [] <==> hs == [])
    decreases |hs|
  {
    if hs != [] {
      var a, rest := hs[|hs| - 1], hs[..|hs| - 1];
      assert a in hs;
      LikeMembers(cfg, a, rest, true);
      LikeMembers(cfg, a, rest, false);
      MergedUnfolds(cfg, hs);
      MergedIsPositive(cfg, Like(cfg, a, rest, false));
      TotalIsPositive(Like(cfg, a, rest, true));
    }
  }

  lemma PositiveInAnyOrder(a: seq<Hypothesis>, b: seq<Hypothesis>)
    requires Positive(a) && forall h :: h in multiset(b) ==> h in multiset(a)
    ensures Positive(b)
  {
    forall h | h in b ensures h.weight > 0.0 {
      assert h in multiset(b);
      assert h in multiset(a);
    }
  }

  lemma MergeIsPositive(cfg: Config, before: seq<Hypothesis>, after: seq<Hypothesis>)
    requires IsMergeOf(cfg, before, after) && Positive(before)
    ensures Positive(after) && (after == [] <==> before == [])
  {
    var sorted :| Ascends(sorted) && multiset(sorted) == multiset(before) && after == Merged(cfg, sorted);
    PositiveInAnyOrder(before, sorted);
    MergedIsPositive(cfg, sorted);
    assert |multiset(sorted)| == |sorted| && |multiset(before)| == |before|;
  }

  lemma PruneIsPositive(before: seq<Hypothesis>, after: seq<Hypothesis>, order: nat)
    requires IsPrunedTo(before, after, order) && Positive(before)
    ensures Positive(after)
  {
    var dropped: seq<Hypothesis> :| multiset(after) + multiset(dropped) == multiset(before);
    PositiveInAnyOrder(before, after);
  }

  lemma NormalisedIsPositive(hs: seq<Hypothesis>)
    requires Positive(hs) && hs != []
    ensures Positive(Normalised(hs)) && Total(Normalised(hs)) == 1.0
  {
    TotalIsPositive(hs);
    NormalisedTotal(hs);
    forall i | 0 <= i < |hs| ensures Normalised(hs)[i].weight > 0.0 {
      assert hs[i] in hs;
    }
  }

  /** From positive weights, a round of pruning with a maximum of at least one leaves between one
      hypothesis and the maximum, with positive weights that add up to one; and it empties the
      set only if the set was empty. */
  lemma PruningIsSound(cfg: Config, before: seq<Hypothesis>, after: seq<Hypothesis>)
    requires 1 <= cfg.maxModelsAfterMerge < 0x8000_0000
    requires IsPruned(cfg, before, after) && Positive(before)
    ensures |after| <= cfg.maxModelsAfterMerge && Positive(after)
    ensures after == [] <==> before == []
    ensures Total(after) == 1.0 <==> before != []
  {
    var merged, kept :|
      && (if cfg.mergingEnabled then IsMergeOf(cfg, before, merged) else merged == before)
      && IsPrunedTo(merged, kept, Order(cfg))
      && after == Normalised(kept);
    if cfg.mergingEnabled {
      MergeIsPositive(cfg, before, merged);
    }
    PruneIsPositive(merged, kept, Order(cfg));
    if kept != [] {
      NormalisedIsPositive(kept);
    }
  }

  class MultiModalRobotModel {
    var robotModels: seq<Hypothesis>
    const cfg: Config
    const ukf: Ukf

    constructor (cfg: Config, ukf: Ukf, initial: Filter)
      ensures this.cfg == cfg && this.ukf == ukf && robotModels == [Hypothesis(initial, 1.0, 0)]
    {
      this.cfg := cfg;
      this.ukf := ukf;
      robotModels := [Hypothesis(initial, 1.0, 0)];
    }

    method MeasurementUpdate(h: Hypothesis, measurements: seq<Measurement>, actual: Location)
      returns (h': Hypothesis, quality: real)
      ensures Reading(h'.filter, quality) == Observed(ukf, h.filter, measurements, actual)
      ensures h' == h.(filter := h'.filter)
    {
      h', quality := h, 1.0;
      for k := 0 to |measurements|
        invariant Reading(h'.filter, quality) == Observed(ukf, h.filter, measurements[..k], actual)
        invariant h' == h.(filter := h'.filter)
      {
        assert measurements[..k + 1][..k] == measurements[..k];
        var reading := ukf(h'.filter, measurements[k], actual);
        h', quality := h'.(filter := reading.filter), quality * reading.quality;
      }
      assert measurements[..|measurements|] == measurements;
    }

    method SplitModel(model: Hypothesis, observed: seq<seq<Measurement>>, objects: seq<Location>)
      returns (split: Hypothesis)
      requires |objects| <= |observed|
      ensures split == UpdatedBy(ukf, model, observed, objects, |objects|)
    {
      split := model;
      for i := 0 to |objects|
        invariant split == UpdatedBy(ukf, model, observed, objects, i)
      {
        split := split.(obsCount := split.obsCount + 1);
        var updated, quality := MeasurementUpdate(split, observed[i], objects[i]);
        split := updated.(weight := updated.weight * quality);
      }
    }

    /** Splits every hypothesis for every set of objects the observations may be of. */
    method AmbiguousMeasurementUpdate(observed: seq<seq<Measurement>>, sets: seq<seq<Location>>)
      requires Fitting(observed, sets)
      modifies this
      ensures robotModels == Split(ukf, old(robotModels), observed, sets)
    {
      var newModels := [];
      while robotModels != []
        invariant newModels + Split(ukf, robotModels, observed, sets) == Split(ukf, old(robotModels), observed, sets)
        decreases |robotModels|
      {
        ghost var done, left := newModels, robotModels;
        var model := robotModels[|robotModels| - 1];
        robotModels := robotModels[..|robotModels| - 1];
        for j := 0 to |sets|
          invariant robotModels == left[..|left| - 1]
          invariant newModels == done + SplitOne(ukf, model, observed, sets)[..j]
        {
          var split := SplitModel(model, observed, sets[j]);
          newModels := newModels + [split];
        }
        assert SplitOne(ukf, model, observed, sets)[..|sets|] == SplitOne(ukf, model, observed, sets);
        Regroup(done, SplitOne(ukf, model, observed, sets), Split(ukf, robotModels, observed, sets));
      }
      robotModels := newModels;
    }

    /** Compares hypothesis `ma` with every unmerged one before it and lets the heavier of two
        similar ones absorb the other. When the weights are not negative the hypotheses before
        `ma` are never the heavier ones: `ma` absorbs all those similar to it. */
    method AbsorbSimilar(slots: seq<Option<Hypothesis>>, merged: seq<bool>, ma: nat, ghost sorted: seq<Hypothesis>)
      returns (slots': seq<Option<Hypothesis>>, merged': seq<bool>)
      requires ma < |slots| <= |sorted| == |merged| && !merged[ma]
      requires forall i :: 0 <= i <= ma ==> slots[i].Some?
      requires InOrder(sorted) ==> Untouched(slots, sorted, ma + 1)
      ensures |slots'| == |slots| && |merged'| == |merged|
      ensures forall i :: 0 <= i <= ma ==> slots'[i].Some?
      ensures InOrder(sorted) ==>
        && Untouched(slots', sorted, ma)
        && slots'[ma] == Some(sorted[ma].(weight := sorted[ma].weight + ToAbsorb(cfg, sorted[ma], sorted, merged, ma)))
        && !merged'[ma]
        && forall i :: 0 <= i < ma ==> merged'[i] == (merged[i] || Similar(cfg, sorted[ma], sorted[i]))
    {
      hide Similar, ToAbsorb, Absorbing, InOrder, Untouched;
      slots', merged' := slots, merged;
      if InOrder(sorted) {
        AbsorbingStarts(cfg, slots, merged, ma, sorted);
      }
      for mb := ma downto 0
        invariant |slots'| == |slots| && |merged'| == |merged|
        invariant forall i :: 0 <= i <= ma ==> slots'[i].Some?
        invariant InOrder(sorted) ==> Absorbing(cfg, slots', merged', ma, mb, sorted, merged)
      {
        ghost var before, beforeMerged := slots', merged';
        if !merged'[mb] && Similar(cfg, slots'[ma].value, slots'[mb].value) {
          var wa, wb := slots'[ma].value.weight, slots'[mb].value.weight;
          if wa < wb {
            merged' := merged'[ma := true];
            slots' := slots'[mb := Some(slots'[mb].value.(weight := wa + wb))];
          } else {
            slots' := slots'[ma := Some(slots'[ma].value.(weight := wa + wb))];
            merged' := merged'[mb := true];
          }
        }
        if InOrder(sorted) {
          AbsorbsNext(cfg, before, beforeMerged, slots', merged', ma, mb, sorted, merged);
        }
      }
      if InOrder(sorted) {
        AbsorbingEnds(cfg, slots', merged', ma, sorted, merged);
      }
    }

    /** The loop over the sorted hypotheses, from the heaviest down. */
    method MergeSorted(sorted: seq<Hypothesis>) returns (newModels: seq<Hypothesis>)
      ensures InOrder(sorted) ==> newModels == Merged(cfg, sorted)
    {
      hide Similar, ToAbsorb, InOrder, Live, Merged;
      var n := |sorted|;
      // a pointer that has been moved from is null
      var slots := seq(n, i requires 0 <= i < n => Some(sorted[i]));
      var merged := seq(n, _ => false);
      newModels := [];
      NoneMergedYet(sorted, merged);
      for ma := n downto 0
        invariant ma <= |slots| <= n == |merged|
        invariant forall i :: 0 <= i < ma ==> slots[i].Some?
        invariant InOrder(sorted) ==> Untouched(slots, sorted, ma)
        invariant InOrder(sorted) ==> newModels + Merged(cfg, Live(sorted, merged, ma)) == Merged(cfg, sorted)
      {
        if !merged[ma] {
          ghost var was := merged;
          slots, merged := AbsorbSimilar(slots, merged, ma, sorted);
          if InOrder(sorted) {
            LeaderMoves(cfg, sorted, was, merged, ma, newModels, slots[ma].value);
          }
          if !merged[ma] {
            newModels := newModels + [slots[ma].value];
            slots := slots[ma := None];
            // Pop the last model, which is this one or one merged before
            slots := slots[..|slots| - 1];
          }
        } else {
          SkipMerged(sorted, merged, ma);
        }
      }
      NothingLeft(cfg, sorted, merged);
    }

    /** Reduces the number of hypotheses by merging similar ones. */
    method MergeSimilarModels()
      modifies this
      ensures NonNegative(old(robotModels)) ==> IsMergeOf(cfg, old(robotModels), robotModels)
    {
      var sorted := SortByWeight(robotModels);
      SameSigns(robotModels, sorted);
      robotModels := MergeSorted(sorted);
    }

    /** Keeps at most `order` hypotheses, the heaviest. */
    method PruneViterbi(order: nat)
      modifies this
      ensures IsPrunedTo(old(robotModels), robotModels, order)
    {
      if |robotModels| <= order {
        KeepAll(robotModels, order);
        return;
      }
      ghost var before := robotModels;
      var ascending := SortByWeight(robotModels);
      robotModels := Backwards(ascending);
      BackwardsKeepsAll(ascending);
      KeepFirst(before, robotModels, order);
      robotModels := robotModels[..order];
    }

    method NormaliseAlphas()
      modifies this
      ensures robotModels == Normalised(old(robotModels))
    {
      var sumAlpha := 0.0;
      for k := 0 to |robotModels|
        invariant robotModels == old(robotModels)
        invariant sumAlpha == Total(robotModels[..k])
      {
        assert robotModels[..k + 1][..k] == robotModels[..k];
        sumAlpha := sumAlpha + robotModels[k].weight;
      }
      assert robotModels[..|robotModels|] == robotModels;
      if sumAlpha == 0.0 {
        sumAlpha := 0.000000000001;
      }
      for k := 0 to |robotModels|
        invariant |robotModels| == |old(robotModels)|
        invariant forall i :: 0 <= i < k ==> robotModels[i] == Scaled(old(robotModels), sumAlpha)[i]
        invariant forall i :: k <= i < |robotModels| ==> robotModels[i] == old(robotModels)[i]
      {
        robotModels := robotModels[k := robotModels[k].(weight := robotModels[k].weight / sumAlpha)];
      }
    }

    method PruneModels()
      requires -0x8000_0000 <= cfg.maxModelsAfterMerge < 0x8000_0000
      modifies this
      ensures NonNegative(old(robotModels)) ==> IsPruned(cfg, old(robotModels), robotModels)
    {
      if cfg.mergingEnabled {
        MergeSimilarModels();
      }
      PruneViterbi(Order(cfg));
      NormaliseAlphas();
    }
  }

  lemma LeaderMoves(cfg: Config, sorted: seq<Hypothesis>, merged: seq<bool>, merged': seq<bool>, ma: nat,
                    newModels: seq<Hypothesis>, leader: Hypothesis)
    requires ma < |sorted| == |merged| == |merged'| && !merged[ma]
    requires forall i :: 0 <= i < ma ==> merged'[i] == (merged[i] || Similar(cfg, sorted[ma], sorted[i]))
    requires newModels + Merged(cfg, Live(sorted, merged, ma + 1)) == Merged(cfg, sorted)
    requires leader == sorted[ma].(weight := sorted[ma].weight + ToAbsorb(cfg, sorted[ma], sorted, merged, ma))
    ensures (newModels + [leader]) + Merged(cfg, Live(sorted, merged', ma)) == Merged(cfg, sorted)
  {
    LeaderLeaves(cfg, sorted, merged, merged', ma);
    Regroup(newModels, [leader], Merged(cfg, Live(sorted, merged', ma)));
  }

  lemma SkipMerged(sorted: seq<Hypothesis>, merged: seq<bool>, ma: nat)
    requires ma < |sorted| == |merged| && merged[ma]
    ensures Live(sorted, merged, ma + 1) == Live(sorted, merged, ma)
  {
  }

  lemma NoneMergedYet(sorted: seq<Hypothesis>, merged: seq<bool>)
    requires |merged| == |sorted| && forall i :: 0 <= i < |merged| ==> !merged[i]
    ensures Live(sorted, merged, |sorted|) == sorted
  {
    LiveAll(sorted, merged, |sorted|);
    assert sorted[..|sorted|] == sorted;
  }

  function Backwards(hs: seq<Hypothesis>): (r: seq<Hypothesis>)
    ensures |r| == |hs| && forall i :: 0 <= i < |hs| ==> r[i] == hs[|hs| - 1 - i]
  {
    if hs == [] then [] else [hs[|hs| - 1]] + Backwards(hs[..|hs| - 1])
  }

  lemma {:induction false} BackwardsKeepsAll(hs: seq<Hypothesis>)
    ensures multiset(Backwards(hs)) == multiset(hs)
  {
    if hs != [] {
      BackwardsKeepsAll(hs[..|hs| - 1]);
      assert hs == hs[..|hs| - 1] + [hs[|hs| - 1]];
    }
  }

  lemma KeepAll(hs: seq<Hypothesis>, order: nat)
    requires |hs| <= order
    ensures IsPrunedTo(hs, hs, order)
  {
    var none: seq<Hypothesis> := [];
    assert multiset(hs) + multiset(none) == multiset(hs);
  }

  lemma KeepFirst(before: seq<Hypothesis>, sorted: seq<Hypothesis>, order: nat)
    requires multiset(sorted) == multiset(before) && order < |before| == |sorted|
    requires forall i, j :: 0 <= i < j < |sorted| ==> sorted[j].weight <= sorted[i].weight
    ensures IsPrunedTo(before, sorted[..order], order)
  {
    assert sorted == sorted[..order] + sorted[order..];
    assert multiset(sorted[..order]) + multiset(sorted[order..]) == multiset(before);
  }

  ghost predicate InOrder(sorted: seq<Hypothesis>) {
    Ascends(sorted) && NonNegative(sorted)
  }

  ghost predicate Untouched(slots: seq<Option<Hypothesis>>, sorted: seq<Hypothesis>, n: nat)
    requires n <= |slots| <= |sorted|
  {
    forall i :: 0 <= i < n ==> slots[i] == Some(sorted[i])
  }

  lemma SameSigns(a: seq<Hypothesis>, b: seq<Hypothesis>)
    requires multiset(a) == multiset(b)
    ensures NonNegative(a) ==> NonNegative(b)
  {
    forall h | h in b && NonNegative(a) ensures h.weight >= 0.0 {
      assert h in multiset(b);
      assert h in multiset(a);
    }
  }

  /** While `ma` is compared with the hypotheses from the one before it down to `mb`: what it has
      gained and what it has yet to gain add up. */
  ghost predicate Absorbing(cfg: Config, slots: seq<Option<Hypothesis>>, merged: seq<bool>, ma: nat, mb: nat,
                            sorted: seq<Hypothesis>, merged0: seq<bool>)
    requires mb <= ma < |slots| <= |sorted| == |merged| == |merged0|
  {
    var a := sorted[ma];
    && Untouched(slots, sorted, ma)
    && slots[ma].Some? && slots[ma].value == a.(weight := slots[ma].value.weight)
    && a.weight <= slots[ma].value.weight
    && slots[ma].value.weight + ToAbsorb(cfg, a, sorted, merged0, mb)
      == a.weight + ToAbsorb(cfg, a, sorted, merged0, ma)
    && !merged[ma]
    && (forall i :: 0 <= i < mb ==> merged[i] == merged0[i])
    && (forall i :: mb <= i < ma ==> merged[i] == (merged0[i] || Similar(cfg, a, sorted[i])))
  }

  lemma NothingLeft(cfg: Config, sorted: seq<Hypothesis>, merged: seq<bool>)
    requires |merged| == |sorted|
    ensures Merged(cfg, Live(sorted, merged, 0)) == []
  {
  }

  lemma AbsorbingStarts(cfg: Config, slots: seq<Option<Hypothesis>>, merged: seq<bool>, ma: nat,
                        sorted: seq<Hypothesis>)
    requires ma < |slots| <= |sorted| == |merged| && !merged[ma] && Untouched(slots, sorted, ma + 1)
    ensures Absorbing(cfg, slots, merged, ma, ma, sorted, merged)
  {
    hide Similar, ToAbsorb;
  }

  lemma AbsorbingEnds(cfg: Config, slots: seq<Option<Hypothesis>>, merged: seq<bool>, ma: nat,
                      sorted: seq<Hypothesis>, merged0: seq<bool>)
    requires ma < |slots| <= |sorted| == |merged| == |merged0| && Absorbing(cfg, slots, merged, ma, 0, sorted, merged0)
    ensures Untouched(slots, sorted, ma)
    ensures slots[ma] == Some(sorted[ma].(weight := sorted[ma].weight + ToAbsorb(cfg, sorted[ma], sorted, merged0, ma)))
    ensures !merged[ma] && forall i :: 0 <= i < ma ==> merged[i] == (merged0[i] || Similar(cfg, sorted[ma], sorted[i]))
  {
    assert ToAbsorb(cfg, sorted[ma], sorted, merged0, 0) == 0.0;
    hide Similar, ToAbsorb;
  }

  lemma AbsorbsNext(cfg: Config, slots: seq<Option<Hypothesis>>, merged: seq<bool>,
                    slots': seq<Option<Hypothesis>>, merged': seq<bool>, ma: nat, mb: nat,
                    sorted: seq<Hypothesis>, merged0: seq<bool>)
    requires mb < ma < |slots| == |slots'| <= |sorted| == |merged| == |merged'| == |merged0|
    requires InOrder(sorted) && Absorbing(cfg, slots, merged, ma, mb + 1, sorted, merged0)
    requires if !merged[mb] && Similar(cfg, slots[ma].value, slots[mb].value) then
        var wa, wb := slots[ma].value.weight, slots[mb].value.weight;
        wb <= wa ==> slots' == slots[ma := Some(slots[ma].value.(weight := wa + wb))] && merged' == merged[mb := true]
      else slots' == slots && merged' == merged
    ensures Absorbing(cfg, slots', merged', ma, mb, sorted, merged0)
  {
    hide Similar, ToAbsorb;
    var a := sorted[ma];
    AbsorbOne(cfg, a, sorted, merged0, mb);
    SimilarIgnoresWeight(cfg, a, slots[ma].value.weight, sorted[mb]);
    assert sorted[mb] in sorted;
    assert sorted[mb].weight <= a.weight;
    hide InOrder;
  }

  /** When a leader has absorbed its cluster and is moved out, the clusters of the others remain. */
  lemma LeaderLeaves(cfg: Config, sorted: seq<Hypothesis>, merged: seq<bool>, merged': seq<bool>, ma: nat)
    requires ma < |sorted| == |merged| == |merged'| && !merged[ma]
    requires forall i :: 0 <= i < ma ==> merged'[i] == (merged[i] || Similar(cfg, sorted[ma], sorted[i]))
    ensures Merged(cfg, Live(sorted, merged, ma + 1))
         == [sorted[ma].(weight := sorted[ma].weight + ToAbsorb(cfg, sorted[ma], sorted, merged, ma))]
            + Merged(cfg, Live(sorted, merged', ma))
  {
    var live := Live(sorted, merged, ma + 1);
    LiveAfter(cfg, sorted[ma], sorted, merged, merged', ma);
    assert live == Live(sorted, merged, ma) + [sorted[ma]];
    assert live[..|live| - 1] == Live(sorted, merged, ma);
    MergedUnfolds(cfg, live);
  }

  lemma Regroup(a: seq<Hypothesis>, b: seq<Hypothesis>, c: seq<Hypothesis>)
    ensures (a + b) + c == a + (b + c)
  {
  }
}
