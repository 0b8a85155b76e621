/** Sorted sequences of ids and of item references. */
module Ordering {
  import opened Requests

  ghost predicate IsLeast(m: nat, s: set<nat>) {
    m in s && forall x :: x in s ==> m <= x
  }

  lemma LeastOfMore(s: set<nat>, m: nat, k: nat)
    requires m in s && IsLeast(k, s - {m})
    ensures IsLeast(if k < m then k else m, s)
  {
    forall x | x in s
      ensures (if k < m then k else m) <= x
    {
      assert x == m || x in s - {m};
    }
  }

  lemma {:induction false} LeastExists(s: set<nat>)
    requires s != {}
    ensures exists m :: IsLeast(m, s)
    decreases |s|
  {
    var m :| m in s;
    if s == {m} {
      assert IsLeast(m, s);
    } else {
      LeastExists(s - {m});
      var k :| IsLeast(k, s - {m});
      LeastOfMore(s, m, k);
    }
  }

  function Least(s: set<nat>): (m: nat)
    requires s != {}
    ensures m in s && forall x :: x in s ==> m <= x
  {
    LeastExists(s);
    assert exists k :: k in s && forall x :: x in s ==> k <= x by {
      var k :| IsLeast(k, s);
    }
    var m :| m in s && forall x :: x in s ==> m <= x;
    m
  }

  /** The members of a set in ascending order. */
  function Ascending(s: set<nat>): (ids: seq<nat>)
    ensures forall x :: x in ids <==> x in s
    ensures forall i, j :: 0 <= i < j < |ids| ==> ids[i] < ids[j]
    decreases |s|
  {
    if s == {} then [] else
      var m := Least(s);
      [m] + Ascending(s - {m})
  }

  /** Items are ordered by group id, then by index. */
  predicate Before(a: Ref, b: Ref) {
    a.id < b.id || (a.id == b.id && a.index < b.index)
  }

  function InsertRef(rs: seq<Ref>, r: Ref): seq<Ref> {
    if rs == [] || Before(rs[|rs| - 1], r) then rs + [r]
    else InsertRef(rs[..|rs| - 1], r) + [rs[|rs| - 1]]
  }

  function SortRefs(rs: seq<Ref>): seq<Ref> {
    if rs == [] then [] else InsertRef(SortRefs(rs[..|rs| - 1]), rs[|rs| - 1])
  }

  ghost predicate Distinct(rs: seq<Ref>) {
    forall i, j :: 0 <= i < j < |rs| ==> rs[i] != rs[j]
  }

  ghost predicate SortedRefs(rs: seq<Ref>) {
    forall i, j :: 0 <= i < j < |rs| ==> Before(rs[i], rs[j])
  }

  lemma {:induction false} InsertRefSorts(rs: seq<Ref>, r: Ref)
    requires SortedRefs(rs) && r !in rs
    ensures SortedRefs(InsertRef(rs, r))
    ensures forall x :: x in InsertRef(rs, r) <==> x in rs || x == r
  {
    if rs == [] || Before(rs[|rs| - 1], r) {
    } else {
      var front, last := rs[..|rs| - 1], rs[|rs| - 1];
      assert rs == front + [last];
      InsertRefSorts(front, r);
      var sorted := InsertRef(front, r);
      forall i | 0 <= i < |sorted|
        ensures Before(sorted[i], last)
      {
        assert sorted[i] in sorted;
      }
    }
  }

  lemma {:induction false} SortRefsSorts(rs: seq<Ref>)
    requires Distinct(rs)
    ensures SortedRefs(SortRefs(rs))
    ensures forall x :: x in SortRefs(rs) <==> x in rs
  {
    if rs != [] {
      var front, last := rs[..|rs| - 1], rs[|rs| - 1];
      assert rs == front + [last];
      SortRefsSorts(front);
      InsertRefSorts(SortRefs(front), last);
    }
  }

  /** The items of `a` that are not in `b`, in the order of `a`. */
  function Difference(a: seq<Ref>, b: seq<Ref>): (d: seq<Ref>)
    ensures forall x :: x in d <==> x in a && x !in b
    ensures SortedRefs(a) ==> SortedRefs(d)
  {
    if a == [] then [] else
      var d, last := Difference(a[..|a| - 1], b), a[|a| - 1];
      assert forall i :: 0 <= i < |d| ==> d[i] in a[..|a| - 1];
      d + (if last in b then [] else [last])
  }
}
