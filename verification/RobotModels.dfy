/** The set of weighted hypotheses about where the robot is: how it is split by an observation
    that may be of several objects, merged, pruned and normalised. */
module RobotModels {

  datatype Option<T> = None | Some(value: T)

  datatype Location = Location(x: real, y: real)

  datatype Measurement = Measurement(distance: real, bearing: real, elevation: real, error: seq<real>)

  datatype Side = LEFT | RIGHT | UNKNOWN | INVALID

  datatype Goal = Goal(side: Side, measurements: seq<Measurement>)

  // The part of a filter's state the merging looks at, and the rest of it.
  datatype Filter = Filter(x: real, y: real, imuOffset: real, rest: seq<real>)

  // What one measurement update of the unscented Kalman filter gives: the new filter state and
  // the quality of the observation.
  datatype Reading = Reading(filter: Filter, quality: real)

  type Ukf = (Filter, Measurement, Location) -> Reading

  // Hypotheses are held by unique pointers, so no two places ever share one.
  datatype Hypothesis = Hypothesis(filter: Filter, weight: real, obsCount: nat)

  datatype Config = Config(mergingEnabled: bool, maxModelsAfterMerge: int,
                           mergeMinTranslationDist: real, mergeMinHeadingDist: real)

  function Total(hs: seq<Hypothesis>): real {
    if hs == [] then 0.0 else Total(hs[..|hs| - 1]) + hs[|hs| - 1].weight
  }

  ghost predicate NonNegative(hs: seq<Hypothesis>) {
    forall h :: h in hs ==> h.weight >= 0.0
  }

  ghost predicate Positive(hs: seq<Hypothesis>) {
    forall h :: h in hs ==> h.weight > 0.0
  }

  lemma TotalAppend(hs: seq<Hypothesis>, h: Hypothesis)
    ensures Total(hs + [h]) == Total(hs) + h.weight
  {
    assert (hs + [h])[..|hs|] == hs;
  }

  lemma {:induction false} TotalConcat(a: seq<Hypothesis>, b: seq<Hypothesis>)
    ensures Total(a + b) == Total(a) + Total(b)
    decreases |b|
  {
    if b == [] {
      assert a + b == a;
    } else {
      var front, last := b[..|b| - 1], b[|b| - 1];
      TotalConcat(a, front);
      TotalAppend(a + front, last);
      assert a + b == (a + front) + [last];
    }
  }

  lemma Cancel(x: multiset<Hypothesis>, y: multiset<Hypothesis>, h: Hypothesis)
    requires x + multiset{h} == y + multiset{h}
    ensures x == y
  {
    assert x == (x + multiset{h}) - multiset{h};
    assert y == (y + multiset{h}) - multiset{h};
  }

  /** Rearranging does not change the total weight. */
  lemma {:induction false} TotalOfSame(a: seq<Hypothesis>, b: seq<Hypothesis>)
    requires multiset(a) == multiset(b)
    ensures Total(a) == Total(b)
    decreases |a|
  {
    if a == [] {
      assert |b| == |multiset(b)| == |multiset(a)| == 0;
    } else {
      var front, h := a[..|a| - 1], a[|a| - 1];
      assert a == front + [h];
      assert h in multiset(b);
      var i :| 0 <= i < |b| && b[i] == h;
      assert b == b[..i] + [h] + b[i + 1..];
      assert multiset(b) == multiset(b[..i] + b[i + 1..]) + multiset{h};
      assert multiset(a) == multiset(front) + multiset{h};
      Cancel(multiset(front), multiset(b[..i] + b[i + 1..]), h);
      TotalOfSame(front, b[..i] + b[i + 1..]);
      TotalConcat(b[..i], b[i + 1..]);
      TotalConcat(b[..i] + [h], b[i + 1..]);
      TotalAppend(b[..i], h);
    }
  }

  lemma {:induction false} TotalIsPositive(hs: seq<Hypothesis>)
    requires NonNegative(hs)
    ensures Total(hs) >= 0.0
    ensures Positive(hs) && hs != [] ==> Total(hs) > 0.0
  {
    if hs != [] {
      assert hs[|hs| - 1] in hs;
      TotalIsPositive(hs[..|hs| - 1]);
    }
  }

  // ----- Sorting -----

  ghost predicate Ascends(hs: seq<Hypothesis>) {
    forall i, j :: 0 <= i < j < |hs| ==> hs[i].weight <= hs[j].weight
  }

  function Inserted(hs: seq<Hypothesis>, i: nat, h: Hypothesis): seq<Hypothesis>
    requires i <= |hs|
  {
    hs[..i] + [h] + hs[i..]
  }

  lemma InsertedAddsOne(hs: seq<Hypothesis>, i: nat, h: Hypothesis)
    requires i <= |hs|
    ensures multiset(Inserted(hs, i, h)) == multiset(hs + [h])
  {
    assert hs == hs[..i] + hs[i..];
  }

  /** Inserts from the back, in ascending order; where among equals is not promised. */
  method InsertByWeight(sorted: seq<Hypothesis>, h: Hypothesis) returns (sorted': seq<Hypothesis>)
    requires Ascends(sorted)
    ensures Ascends(sorted') && multiset(sorted') == multiset(sorted + [h])
  {
    var i := |sorted|;
    while i > 0 && h.weight < sorted[i - 1].weight
      invariant 0 <= i <= |sorted|
      invariant forall j :: i <= j < |sorted| ==> h.weight <= sorted[j].weight
    {
      i := i - 1;
    }
    InsertedAddsOne(sorted, i, h);
    sorted' := Inserted(sorted, i, h);
  }

  /** Some arrangement in ascending order of weight; which of several is not promised. */
  method SortByWeight(hs: seq<Hypothesis>) returns (sorted: seq<Hypothesis>)
    ensures Ascends(sorted) && multiset(sorted) == multiset(hs)
  {
    sorted := [];
    for k := 0 to |hs|
      invariant Ascends(sorted) && multiset(sorted) == multiset(hs[..k])
    {
      assert hs[..k + 1] == hs[..k] + [hs[k]];
      sorted := InsertByWeight(sorted, hs[k]);
    }
    assert hs[..|hs|] == hs;
  }

  // ----- Merging -----

  /** Whether b is close enough to a to be merged with it. The heading difference is signed. */
  predicate Similar(cfg: Config, a: Hypothesis, b: Hypothesis) {
    var dx, dy := a.filter.x - b.filter.x, a.filter.y - b.filter.y;
    && 0.0 < cfg.mergeMinTranslationDist
    && dx * dx + dy * dy < cfg.mergeMinTranslationDist * cfg.mergeMinTranslationDist
    && a.filter.imuOffset - b.filter.imuOffset < cfg.mergeMinHeadingDist
  }

  lemma SquaresDiffer(v: real, w: real)
    requires 0.0 <= v < w
    ensures v * v < w * w
  {
    var a, b := w - v, w + v;
    assert a * b > 0.0;
    assert a * b == w * w - v * v;
  }

  lemma SquaresOrder(v: real, w: real)
    requires v >= 0.0
    ensures v < w <==> 0.0 < w && v * v < w * w
  {
    if v < w {
      SquaresDiffer(v, w);
    } else if 0.0 < w < v {
      SquaresDiffer(w, v);
    }
  }

  /** Similar are those less than the one limit apart whose heading is less than the other ahead. */
  lemma SimilarExactly(cfg: Config, a: Hypothesis, b: Hypothesis, distance: real)
    requires distance >= 0.0
    requires var dx, dy := a.filter.x - b.filter.x, a.filter.y - b.filter.y; distance * distance == dx * dx + dy * dy
    ensures Similar(cfg, a, b)
       <==> distance < cfg.mergeMinTranslationDist && a.filter.imuOffset - b.filter.imuOffset < cfg.mergeMinHeadingDist
  {
    SquaresOrder(distance, cfg.mergeMinTranslationDist);
  }

  /** The hypotheses similar to `a`, or those that are not, in order. */
  function Like(cfg: Config, a: Hypothesis, hs: seq<Hypothesis>, similar: bool): (kept: seq<Hypothesis>)
    ensures |kept| <= |hs|
  {
    if hs == [] then []
    else Like(cfg, a, hs[..|hs| - 1], similar)
         + (if Similar(cfg, a, hs[|hs| - 1]) == similar then [hs[|hs| - 1]] else [])
  }

  /** The last hypothesis leads: it and all those similar to it form a cluster; then the last of
      the others leads, and so on. */
  function Clusters(cfg: Config, hs: seq<Hypothesis>): seq<seq<Hypothesis>>
    decreases |hs|
  {
    if hs == [] then [] else
      var a, rest := hs[|hs| - 1], hs[..|hs| - 1];
      [[a] + Like(cfg, a, rest, true)] + Clusters(cfg, Like(cfg, a, rest, false))
  }

  /** A cluster's leader with the weight of the whole cluster. */
  function Collapse(cluster: seq<Hypothesis>): Hypothesis
    requires cluster != []
  {
    cluster[0].(weight := Total(cluster))
  }

  function CollapseAll(clusters: seq<seq<Hypothesis>>): (hs: seq<Hypothesis>)
    requires forall k :: 0 <= k < |clusters| ==> clusters[k] != []
    ensures |hs| == |clusters|
    ensures forall k :: 0 <= k < |hs| ==> hs[k] == Collapse(clusters[k])
  {
    seq(|clusters|, k requires 0 <= k < |clusters| => Collapse(clusters[k]))
  }

  lemma {:induction false} ClustersHaveLeaders(cfg: Config, hs: seq<Hypothesis>)
    ensures forall k :: 0 <= k < |Clusters(cfg, hs)| ==> Clusters(cfg, hs)[k] != []
    decreases |hs|
  {
    if hs != [] {
      ClustersHaveLeaders(cfg, Like(cfg, hs[|hs| - 1], hs[..|hs| - 1], false));
    }
  }

  function Merged(cfg: Config, hs: seq<Hypothesis>): seq<Hypothesis> {
    ClustersHaveLeaders(cfg, hs);
    CollapseAll(Clusters(cfg, hs))
  }

  lemma MergedUnfolds(cfg: Config, hs: seq<Hypothesis>)
    requires hs != []
    ensures var a, rest := hs[|hs| - 1], hs[..|hs| - 1];
      Merged(cfg, hs) == [a.(weight := a.weight + Total(Like(cfg, a, rest, true)))]
        + Merged(cfg, Like(cfg, a, rest, false))
  {
    var a, rest := hs[|hs| - 1], hs[..|hs| - 1];
    ClustersHaveLeaders(cfg, hs);
    ClustersHaveLeaders(cfg, Like(cfg, a, rest, false));
    TotalConcat([a], Like(cfg, a, rest, true));
    TotalOne(a);
  }

  /** `after` is what merging leaves of `before`, for some way of sorting it. */
  ghost predicate IsMergeOf(cfg: Config, before: seq<Hypothesis>, after: seq<Hypothesis>) {
    exists sorted :: Ascends(sorted) && multiset(sorted) == multiset(before) && after == Merged(cfg, sorted)
  }

  function Flatten(clusters: seq<seq<Hypothesis>>): seq<Hypothesis> {
    if clusters == [] then [] else clusters[0] + Flatten(clusters[1..])
  }

  lemma {:induction false} LikeSplits(cfg: Config, a: Hypothesis, hs: seq<Hypothesis>)
    ensures multiset(Like(cfg, a, hs, true)) + multiset(Like(cfg, a, hs, false)) == multiset(hs)
  {
    if hs != [] {
      var front, h := hs[..|hs| - 1], hs[|hs| - 1];
      assert hs == front + [h];
      LikeSplits(cfg, a, front);
      assert multiset(hs) == multiset(front) + multiset{h};
    }
  }

  lemma {:induction false} LikeMembers(cfg: Config, a: Hypothesis, hs: seq<Hypothesis>, similar: bool)
    ensures forall h :: h in Like(cfg, a, hs, similar) <==> h in hs && Similar(cfg, a, h) == similar
  {
    if hs != [] {
      assert hs == hs[..|hs| - 1] + [hs[|hs| - 1]];
      LikeMembers(cfg, a, hs[..|hs| - 1], similar);
    }
  }

  /** The clusters partition the hypotheses, none lost and none counted twice. */
  lemma {:induction false} ClustersPartition(cfg: Config, hs: seq<Hypothesis>)
    ensures multiset(Flatten(Clusters(cfg, hs))) == multiset(hs)
    decreases |hs|
  {
    if hs != [] {
      var a, rest := hs[|hs| - 1], hs[..|hs| - 1];
      var others := Like(cfg, a, rest, false);
      assert hs == rest + [a];
      LikeSplits(cfg, a, rest);
      ClustersPartition(cfg, others);
      assert Clusters(cfg, hs)[1..] == Clusters(cfg, others);
    }
  }

  lemma ClustersUnfold(cfg: Config, hs: seq<Hypothesis>, k: nat)
    requires hs != [] && k < |Clusters(cfg, hs)|
    ensures var a, rest := hs[|hs| - 1], hs[..|hs| - 1];
      var tail := Clusters(cfg, Like(cfg, a, rest, false));
      && |Clusters(cfg, hs)| == 1 + |tail|
      && Clusters(cfg, hs)[k] == if k == 0 then [a] + Like(cfg, a, rest, true) else tail[k - 1]
  {
  }

  /** Every member of a cluster is similar to its leader. */
  lemma {:induction false} MembersAreSimilar(cfg: Config, hs: seq<Hypothesis>, k: nat, h: Hypothesis)
    requires k < |Clusters(cfg, hs)| && h in Clusters(cfg, hs)[k]
    ensures Clusters(cfg, hs)[k] != [] && h in hs
    ensures h == Clusters(cfg, hs)[k][0] || Similar(cfg, Clusters(cfg, hs)[k][0], h)
    decreases |hs|
  {
    var a, rest := hs[|hs| - 1], hs[..|hs| - 1];
    ClustersUnfold(cfg, hs, k);
    LikeMembers(cfg, a, rest, true);
    LikeMembers(cfg, a, rest, false);
    if k > 0 {
      MembersAreSimilar(cfg, Like(cfg, a, rest, false), k - 1, h);
    }
  }

  /** No later cluster's leader is similar to an earlier one's. */
  lemma {:induction false} LeadersAreApart(cfg: Config, hs: seq<Hypothesis>, j: nat, k: nat)
    requires j < k < |Clusters(cfg, hs)|
    ensures Clusters(cfg, hs)[j] != [] && Clusters(cfg, hs)[k] != []
    ensures !Similar(cfg, Clusters(cfg, hs)[j][0], Clusters(cfg, hs)[k][0])
    decreases |hs|
  {
    var a, rest := hs[|hs| - 1], hs[..|hs| - 1];
    var others := Like(cfg, a, rest, false);
    ClustersHaveLeaders(cfg, hs);
    ClustersUnfold(cfg, hs, j);
    ClustersUnfold(cfg, hs, k);
    if j == 0 {
      MembersAreSimilar(cfg, others, k - 1, Clusters(cfg, others)[k - 1][0]);
      LikeMembers(cfg, a, rest, false);
    } else {
      LeadersAreApart(cfg, others, j - 1, k - 1);
    }
  }

  lemma {:induction false} LikeAscends(cfg: Config, a: Hypothesis, hs: seq<Hypothesis>, similar: bool)
    requires Ascends(hs)
    ensures Ascends(Like(cfg, a, hs, similar))
  {
    if hs != [] {
      var front, h := hs[..|hs| - 1], hs[|hs| - 1];
      LikeAscends(cfg, a, front, similar);
      LikeMembers(cfg, a, front, similar);
      var kept := Like(cfg, a, front, similar);
      forall i | 0 <= i < |kept|
        ensures kept[i].weight <= h.weight
      {
        assert kept[i] in front;
      }
    }
  }

  /** A cluster's leader is its heaviest member. */
  lemma {:induction false} LeadersAreHeaviest(cfg: Config, hs: seq<Hypothesis>, k: nat, h: Hypothesis)
    requires Ascends(hs) && k < |Clusters(cfg, hs)| && h in Clusters(cfg, hs)[k]
    ensures h.weight <= Clusters(cfg, hs)[k][0].weight
    decreases |hs|
  {
    var a, rest := hs[|hs| - 1], hs[..|hs| - 1];
    ClustersUnfold(cfg, hs, k);
    if k == 0 {
      LikeMembers(cfg, a, rest, true);
      assert h == a || h in rest;
    } else {
      LikeAscends(cfg, a, rest, false);
      LeadersAreHeaviest(cfg, Like(cfg, a, rest, false), k - 1, h);
    }
  }

  lemma TotalOne(h: Hypothesis)
    ensures Total([h]) == h.weight
  {
    TotalAppend([], h);
    assert [] + [h] == [h];
  }

  lemma TotalCons(h: Hypothesis, hs: seq<Hypothesis>)
    ensures Total([h] + hs) == h.weight + Total(hs)
  {
    TotalConcat([h], hs);
    TotalOne(h);
  }

  lemma LikeTotals(cfg: Config, a: Hypothesis, hs: seq<Hypothesis>)
    ensures Total(Like(cfg, a, hs, true)) + Total(Like(cfg, a, hs, false)) == Total(hs)
  {
    LikeSplits(cfg, a, hs);
    TotalConcat(Like(cfg, a, hs, true), Like(cfg, a, hs, false));
    TotalOfSame(Like(cfg, a, hs, true) + Like(cfg, a, hs, false), hs);
  }

  lemma FirstClusterTotal(cfg: Config, hs: seq<Hypothesis>)
    requires hs != []
    ensures var a, rest := hs[|hs| - 1], hs[..|hs| - 1];
      Total(Merged(cfg, hs))
        == a.weight + Total(Like(cfg, a, rest, true)) + Total(Merged(cfg, Like(cfg, a, rest, false)))
  {
    var a, rest := hs[|hs| - 1], hs[..|hs| - 1];
    var weight := a.weight + Total(Like(cfg, a, rest, true));
    var tail := Merged(cfg, Like(cfg, a, rest, false));
    assert Merged(cfg, hs) == [a.(weight := weight)] + tail by {
      MergedUnfolds(cfg, hs);
    }
    assert Total([a.(weight := weight)] + tail) == weight + Total(tail) by {
      TotalCons(a.(weight := weight), tail);
    }
  }

  lemma {:induction false} MergedKeepsTotal(cfg: Config, hs: seq<Hypothesis>)
    ensures Total(Merged(cfg, hs)) == Total(hs)
    decreases |hs|
  {
    if hs != [] {
      FirstClusterTotal(cfg, hs);
      LikeTotals(cfg, hs[|hs| - 1], hs[..|hs| - 1]);
      MergedKeepsTotal(cfg, Like(cfg, hs[|hs| - 1], hs[..|hs| - 1], false));
    } else {
      assert Merged(cfg, hs) == [];
    }
  }

  /** Merging conserves the total weight. */
  lemma MergeConserves(cfg: Config, before: seq<Hypothesis>, after: seq<Hypothesis>)
    requires IsMergeOf(cfg, before, after)
    ensures Total(after) == Total(before)
  {
    var sorted :| Ascends(sorted) && multiset(sorted) == multiset(before) && after == Merged(cfg, sorted);
    MergedKeepsTotal(cfg, sorted);
    TotalOfSame(sorted, before);
  }

  /** The hypotheses of a cluster are similar to its leader, the heaviest of them. */
  ghost predicate IsCluster(cfg: Config, cluster: seq<Hypothesis>) {
    && cluster != []
    && forall h :: h in cluster ==> h.weight <= cluster[0].weight && (h == cluster[0] || Similar(cfg, cluster[0], h))
  }

  lemma EachIsCluster(cfg: Config, sorted: seq<Hypothesis>, k: nat)
    requires Ascends(sorted) && k < |Clusters(cfg, sorted)|
    ensures IsCluster(cfg, Clusters(cfg, sorted)[k])
    ensures |Merged(cfg, sorted)| == |Clusters(cfg, sorted)|
    ensures Merged(cfg, sorted)[k] == Collapse(Clusters(cfg, sorted)[k])
  {
    var c := Clusters(cfg, sorted)[k];
    ClustersHaveLeaders(cfg, sorted);
    forall h | h in c
      ensures h.weight <= c[0].weight && (h == c[0] || Similar(cfg, c[0], h))
    {
      MembersAreSimilar(cfg, sorted, k, h);
      LeadersAreHeaviest(cfg, sorted, k, h);
    }
  }

  lemma CollapsedAreApart(cfg: Config, sorted: seq<Hypothesis>, j: nat, k: nat)
    requires j < k < |Merged(cfg, sorted)|
    ensures !Similar(cfg, Merged(cfg, sorted)[j], Merged(cfg, sorted)[k])
  {
    ClustersHaveLeaders(cfg, sorted);
    LeadersAreApart(cfg, sorted, j, k);
  }

  /** Merging partitions the hypotheses into clusters: none is lost or counted twice, and each
      one that is left is a cluster's leader with the weight of the whole cluster. No leader is
      similar to one after it. */
  lemma MergePartitions(cfg: Config, before: seq<Hypothesis>, after: seq<Hypothesis>)
    returns (clusters: seq<seq<Hypothesis>>)
    requires IsMergeOf(cfg, before, after)
    ensures multiset(Flatten(clusters)) == multiset(before)
    ensures |clusters| == |after|
    ensures forall k :: 0 <= k < |clusters| ==> IsCluster(cfg, clusters[k]) && after[k] == Collapse(clusters[k])
    ensures forall j, k :: 0 <= j < k < |after| ==> !Similar(cfg, after[j], after[k])
  {
    var sorted :| Ascends(sorted) && multiset(sorted) == multiset(before) && after == Merged(cfg, sorted);
    clusters := Clusters(cfg, sorted);
    ClustersPartition(cfg, sorted);
    forall k | 0 <= k < |clusters|
      ensures IsCluster(cfg, clusters[k]) && after[k] == Collapse(clusters[k])
    {
      EachIsCluster(cfg, sorted, k);
    }
    forall j, k | 0 <= j < k < |after|
      ensures !Similar(cfg, after[j], after[k])
    {
      CollapsedAreApart(cfg, sorted, j, k);
    }
  }

  // ----- The loop, in terms of what is not merged yet -----

  /** The first n hypotheses that have not been merged into another. */
  function Live(hs: seq<Hypothesis>, merged: seq<bool>, n: nat): (live: seq<Hypothesis>)
    requires n <= |hs| == |merged|
    ensures |live| <= n
  {
    if n == 0 then [] else Live(hs, merged, n - 1) + (if merged[n - 1] then [] else [hs[n - 1]])
  }

  lemma {:induction false} LiveAll(hs: seq<Hypothesis>, merged: seq<bool>, n: nat)
    requires n <= |hs| == |merged|
    requires forall i :: 0 <= i < n ==> !merged[i]
    ensures Live(hs, merged, n) == hs[..n]
  {
    if n > 0 {
      LiveAll(hs, merged, n - 1);
      assert hs[..n] == hs[..n - 1] + [hs[n - 1]];
    }
  }

  lemma LikeAppend(cfg: Config, a: Hypothesis, hs: seq<Hypothesis>, h: Hypothesis, similar: bool)
    ensures Like(cfg, a, hs + [h], similar)
            == Like(cfg, a, hs, similar) + (if Similar(cfg, a, h) == similar then [h] else [])
  {
    assert (hs + [h])[..|hs|] == hs;
  }

  /** Once all those similar to `a` are marked merged, the live ones are those not similar. */
  lemma {:induction false} LiveAfter(cfg: Config, a: Hypothesis, hs: seq<Hypothesis>, merged: seq<bool>,
                                     merged': seq<bool>, n: nat)
    requires n <= |hs| == |merged| == |merged'|
    requires forall i :: 0 <= i < n ==> merged'[i] == (merged[i] || Similar(cfg, a, hs[i]))
    ensures Live(hs, merged', n) == Like(cfg, a, Live(hs, merged, n), false)
  {
    if n > 0 {
      LiveAfter(cfg, a, hs, merged, merged', n - 1);
      var live := Live(hs, merged, n - 1);
      if !merged[n - 1] {
        LikeAppend(cfg, a, live, hs[n - 1], false);
      } else {
        assert Live(hs, merged, n) == live;
      }
    }
  }

  /** What `a` has yet to absorb from the first n hypotheses. */
  function ToAbsorb(cfg: Config, a: Hypothesis, hs: seq<Hypothesis>, merged: seq<bool>, n: nat): real
    requires n <= |hs| == |merged|
  {
    Total(Like(cfg, a, Live(hs, merged, n), true))
  }

  lemma AbsorbOne(cfg: Config, a: Hypothesis, hs: seq<Hypothesis>, merged: seq<bool>, n: nat)
    requires n < |hs| == |merged|
    ensures ToAbsorb(cfg, a, hs, merged, n + 1)
         == ToAbsorb(cfg, a, hs, merged, n) + (if !merged[n] && Similar(cfg, a, hs[n]) then hs[n].weight else 0.0)
  {
    var live := Live(hs, merged, n);
    if merged[n] {
      assert Live(hs, merged, n + 1) == live;
    } else {
      LikeAppend(cfg, a, live, hs[n], true);
      if Similar(cfg, a, hs[n]) {
        TotalAppend(Like(cfg, a, live, true), hs[n]);
      } else {
        assert Like(cfg, a, live + [hs[n]], true) == Like(cfg, a, live, true);
      }
    }
  }

  lemma SimilarIgnoresWeight(cfg: Config, a: Hypothesis, w: real, b: Hypothesis)
    ensures Similar(cfg, a.(weight := w), b) == Similar(cfg, a, b)
  {
  }

  // ----- Pruning and normalising -----

  /** Pruning keeps the given number of hypotheses, none of them lighter than any it drops. */
  ghost predicate IsPrunedTo(before: seq<Hypothesis>, after: seq<Hypothesis>, order: nat) {
    && (|before| <= order ==> after == before)
    && (|before| > order ==> |after| == order)
    && exists dropped: seq<Hypothesis> :: multiset(after) + multiset(dropped) == multiset(before)
         && forall h, d :: h in after && d in dropped ==> d.weight <= h.weight
  }

  function Divisor(total: real): (d: real)
    ensures d != 0.0
  {
    if total == 0.0 then 0.000000000001 else total
  }

  function Scaled(hs: seq<Hypothesis>, d: real): (scaled: seq<Hypothesis>)
    requires d != 0.0
    ensures |scaled| == |hs|
    ensures forall i :: 0 <= i < |hs| ==> scaled[i] == hs[i].(weight := hs[i].weight / d)
  {
    seq(|hs|, i requires 0 <= i < |hs| => hs[i].(weight := hs[i].weight / d))
  }

  function Normalised(hs: seq<Hypothesis>): seq<Hypothesis> {
    Scaled(hs, Divisor(Total(hs)))
  }

  lemma DivideTimes(a: real, d: real)
    requires d != 0.0
    ensures a / d * d == a
  {
  }

  lemma {:induction false} ScaledTotal(hs: seq<Hypothesis>, d: real)
    requires d != 0.0
    ensures Total(Scaled(hs, d)) * d == Total(hs)
  {
    if hs != [] {
      var front := hs[..|hs| - 1];
      ScaledTotal(front, d);
      assert Scaled(hs, d)[..|hs| - 1] == Scaled(front, d);
      DivideTimes(hs[|hs| - 1].weight, d);
      assert (Total(Scaled(front, d)) + hs[|hs| - 1].weight / d) * d
          == Total(Scaled(front, d)) * d + hs[|hs| - 1].weight / d * d;
    }
  }

  lemma QuotientIsOne(q: real, d: real, total: real)
    requires d != 0.0 && q * d == total && total == d
    ensures q == 1.0
  {
    assert (q - 1.0) * d == 0.0;
  }

  /** After normalising the weights add up to 1 exactly when they did not add up to 0 before. */
  lemma NormalisedTotal(hs: seq<Hypothesis>)
    ensures Total(Normalised(hs)) == 1.0 <==> Total(hs) != 0.0
  {
    var d := Divisor(Total(hs));
    ScaledTotal(hs, d);
    var q := Total(Normalised(hs));
    assert q * d == Total(hs);
    if Total(hs) != 0.0 {
      QuotientIsOne(q, d, Total(hs));
    }
  }
}
