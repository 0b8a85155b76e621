/** The order in which a selection attempts items: every limb has a list of the items that need
    it, the lists are sorted by descending priority, and the greatest head is attempted next. */
module Merge {
  import opened Requests
  import opened Selection
  import opened Ordering

  // ----- Sorting one list -----

  /** Inserts `r` after every item of at least its priority. */
  function Insert(R: Registry, rs: seq<Ref>, r: Ref): seq<Ref> {
    if rs == [] || Priority(R, r) <= Priority(R, rs[|rs| - 1]) then rs + [r]
    else Insert(R, rs[..|rs| - 1], r) + [rs[|rs| - 1]]
  }

  /** The list in descending order of priority, equals kept in their order. */
  function StableSort(R: Registry, rs: seq<Ref>): seq<Ref> {
    if rs == [] then [] else Insert(R, StableSort(R, rs[..|rs| - 1]), rs[|rs| - 1])
  }

  /** The items of one priority, in order. */
  function WithPriority(R: Registry, rs: seq<Ref>, p: real): seq<Ref> {
    if rs == [] then []
    else WithPriority(R, rs[..|rs| - 1], p) + (if Priority(R, rs[|rs| - 1]) == p then [rs[|rs| - 1]] else [])
  }

  lemma {:induction false} InsertAdds(R: Registry, rs: seq<Ref>, r: Ref)
    ensures multiset(Insert(R, rs, r)) == multiset(rs) + multiset{r}
  {
    if rs == [] || Priority(R, r) <= Priority(R, rs[|rs| - 1]) {
    } else {
      var front, last := rs[..|rs| - 1], rs[|rs| - 1];
      assert rs == front + [last];
      InsertAdds(R, front, r);
    }
  }

  lemma {:induction false} InsertDescends(R: Registry, rs: seq<Ref>, r: Ref)
    requires Descending(R, rs)
    ensures Descending(R, Insert(R, rs, r))
  {
    if rs == [] || Priority(R, r) <= Priority(R, rs[|rs| - 1]) {
    } else {
      var front, last := rs[..|rs| - 1], rs[|rs| - 1];
      InsertDescends(R, front, r);
      InsertAdds(R, front, r);
      forall x | x in Insert(R, front, r)
        ensures Priority(R, last) <= Priority(R, x)
      {
        assert x in multiset(Insert(R, front, r));
        assert x in front || x == r;
      }
    }
  }

  lemma WithPriorityAppend(R: Registry, rs: seq<Ref>, r: Ref, p: real)
    ensures WithPriority(R, rs + [r], p) == WithPriority(R, rs, p) + (if Priority(R, r) == p then [r] else [])
  {
    assert (rs + [r])[..|rs|] == rs;
  }

  lemma {:induction false} InsertGoesLast(R: Registry, rs: seq<Ref>, r: Ref, p: real)
    ensures WithPriority(R, Insert(R, rs, r), p) == WithPriority(R, rs + [r], p)
  {
    WithPriorityAppend(R, rs, r, p);
    if rs == [] || Priority(R, r) <= Priority(R, rs[|rs| - 1]) {
    } else {
      var front, last := rs[..|rs| - 1], rs[|rs| - 1];
      var inserted := Insert(R, front, r);
      InsertGoesLast(R, front, r, p);
      assert WithPriority(R, inserted, p) == WithPriority(R, front, p) + (if Priority(R, r) == p then [r] else []) by {
        WithPriorityAppend(R, front, r, p);
      }
      WithPriorityAppend(R, inserted, last, p);
    }
  }

  /** Sorting gives a descending rearrangement that keeps items of equal priority in their
      order; no other list does. */
  lemma {:induction false} StableSortSorts(R: Registry, rs: seq<Ref>, p: real)
    ensures Descending(R, StableSort(R, rs))
    ensures multiset(StableSort(R, rs)) == multiset(rs)
    ensures WithPriority(R, StableSort(R, rs), p) == WithPriority(R, rs, p)
  {
    if rs != [] {
      var front, last := rs[..|rs| - 1], rs[|rs| - 1];
      assert rs == front + [last];
      var sorted := StableSort(R, front);
      StableSortSorts(R, front, p);
      InsertAdds(R, sorted, last);
      InsertDescends(R, sorted, last);
      InsertGoesLast(R, sorted, last, p);
      WithPriorityAppend(R, sorted, last, p);
    }
  }

  lemma StableSortHasSameItems(R: Registry, rs: seq<Ref>)
    ensures forall r :: r in StableSort(R, rs) <==> r in rs
  {
    StableSortSorts(R, rs, 0.0);
    forall r ensures r in StableSort(R, rs) <==> r in rs {
      assert r in multiset(StableSort(R, rs)) <==> r in multiset(rs);
    }
  }

  // ----- Merging the lists -----

  /** The first of the lists 0, ..., n-1 whose head has the greatest priority, or -1 when they
      are all empty. */
  function Best(R: Registry, lists: seq<seq<Ref>>, n: nat): (b: int)
    requires n <= |lists|
    ensures -1 <= b < n
    ensures b == -1 <==> forall k :: 0 <= k < n ==> lists[k] == []
    ensures b >= 0 ==> lists[b] != []
    ensures b >= 0 ==> forall k :: 0 <= k < n && lists[k] != [] ==>
      && Priority(R, lists[k][0]) <= Priority(R, lists[b][0])
      && (k < b ==> Priority(R, lists[k][0]) < Priority(R, lists[b][0]))
  {
    if n == 0 then -1 else
      var b := Best(R, lists, n - 1);
      if lists[n - 1] == [] then b
      else if b == -1 || Priority(R, lists[b][0]) < Priority(R, lists[n - 1][0]) then n - 1
      else b
  }

  function Next(R: Registry, lists: seq<seq<Ref>>): int {
    Best(R, lists, |lists|)
  }

  function Remaining(lists: seq<seq<Ref>>): nat {
    if lists == [] then 0 else Remaining(lists[..|lists| - 1]) + |lists[|lists| - 1]|
  }

  function Advance(lists: seq<seq<Ref>>, l: nat): seq<seq<Ref>>
    requires l < |lists| && lists[l] != []
  {
    lists[l := lists[l][1..]]
  }

  lemma {:induction false} AdvanceShrinks(lists: seq<seq<Ref>>, l: nat)
    requires l < |lists| && lists[l] != []
    ensures Remaining(Advance(lists, l)) < Remaining(lists)
  {
    var n := |lists| - 1;
    if l == n {
      assert Advance(lists, l)[..n] == lists[..n];
    } else {
      AdvanceShrinks(lists[..n], l);
      assert Advance(lists, l)[..n] == Advance(lists[..n], l);
    }
  }

  /** All attempts, in the order a selection makes them while no list is dropped. */
  function Order(R: Registry, lists: seq<seq<Ref>>): seq<Ref>
    decreases Remaining(lists)
  {
    var b := Next(R, lists);
    if b == -1 then [] else
      AdvanceShrinks(lists, b);
      [lists[b][0]] + Order(R, Advance(lists, b))
  }

  /** The lists of the limbs in `taken` are dropped. */
  function Without(lists: seq<seq<Ref>>, taken: set<Limb>): (kept: seq<seq<Ref>>)
    ensures |kept| == |lists|
    ensures forall k :: 0 <= k < |lists| ==> kept[k] == if k in taken then [] else lists[k]
  {
    seq(|lists|, k requires 0 <= k < |lists| => if k in taken then [] else lists[k])
  }

  ghost predicate ListsNeed(R: Registry, lists: seq<seq<Ref>>) {
    forall l, r :: 0 <= l < |lists| && r in lists[l] ==> l in LimbsOf(R, r)
  }

  lemma AdvanceKeepsNeed(R: Registry, lists: seq<seq<Ref>>, b: nat)
    requires b < |lists| && lists[b] != [] && ListsNeed(R, lists)
    ensures ListsNeed(R, Advance(lists, b))
  {
    forall l, r | 0 <= l < |lists| && r in Advance(lists, b)[l]
      ensures l in LimbsOf(R, r)
    {
      assert r in lists[l];
    }
  }

  lemma DroppedStep(R: Registry, s: Choice, lists: seq<seq<Ref>>, taken: set<Limb>)
    requires taken !! s.free && ListsNeed(R, lists)
    requires Next(R, lists) >= 0 && Next(R, lists) in taken
    ensures Try(R, s, lists[Next(R, lists)][0]) == s
    ensures Without(Advance(lists, Next(R, lists)), taken) == Without(lists, taken)
  {
    assert lists[Next(R, lists)][0] in lists[Next(R, lists)];
  }

  lemma KeptStep(R: Registry, lists: seq<seq<Ref>>, taken: set<Limb>)
    requires Next(R, lists) >= 0 && Next(R, lists) !in taken
    ensures Next(R, Without(lists, taken)) == Next(R, lists)
    ensures Without(Advance(lists, Next(R, lists)), taken) == Advance(Without(lists, taken), Next(R, lists))
  {
    assert Without(lists, taken)[Next(R, lists)] != [];
  }

  lemma FirstAttempt(R: Registry, s: Choice, lists: seq<seq<Ref>>)
    requires Next(R, lists) >= 0
    ensures Pass(R, s, Order(R, lists))
         == Pass(R, Try(R, s, lists[Next(R, lists)][0]), Order(R, Advance(lists, Next(R, lists))))
  {
    var b := Next(R, lists);
    AdvanceShrinks(lists, b);
    assert Order(R, lists) == [lists[b][0]] + Order(R, Advance(lists, b));
    assert Order(R, lists)[1..] == Order(R, Advance(lists, b));
  }

  /** Dropping the lists of limbs that are no longer free does not change what is chosen. */
  lemma {:induction false} DroppedListsAreIdle(R: Registry, s: Choice, lists: seq<seq<Ref>>, taken: set<Limb>)
    requires taken !! s.free && ListsNeed(R, lists)
    ensures Pass(R, s, Order(R, lists)) == Pass(R, s, Order(R, Without(lists, taken)))
    decreases Remaining(lists)
  {
    var b := Next(R, lists);
    if b == -1 {
      assert Without(lists, taken) == lists;
    } else {
      AdvanceShrinks(lists, b);
      AdvanceKeepsNeed(R, lists, b);
      DroppedListsAreIdle(R, Try(R, s, lists[b][0]), Advance(lists, b), taken);
      FirstAttempt(R, s, lists);
      if b in taken {
        DroppedStep(R, s, lists, taken);
      } else {
        KeptStep(R, lists, taken);
        FirstAttempt(R, s, Without(lists, taken));
      }
    }
  }

  // ----- The order itself -----

  lemma {:induction false} OrderHasAllItems(R: Registry, lists: seq<seq<Ref>>, r: Ref)
    ensures r in Order(R, lists) <==> exists l :: 0 <= l < |lists| && r in lists[l]
    decreases Remaining(lists)
  {
    var b := Next(R, lists);
    if b != -1 {
      AdvanceShrinks(lists, b);
      var next := Advance(lists, b);
      OrderHasAllItems(R, next, r);
      if l :| 0 <= l < |lists| && r in lists[l] {
        if r != lists[b][0] {
          assert r in next[l];
        }
      }
      if l :| 0 <= l < |next| && r in next[l] {
        assert r in lists[l];
      }
      if r == lists[b][0] {
        assert r in lists[b];
      }
    }
  }

  ghost predicate AllDescending(R: Registry, lists: seq<seq<Ref>>) {
    forall l :: 0 <= l < |lists| ==> Descending(R, lists[l])
  }

  lemma NextIsGreatest(R: Registry, lists: seq<seq<Ref>>, l: nat, r: Ref)
    requires AllDescending(R, lists) && l < |lists| && r in lists[l]
    ensures Next(R, lists) >= 0 && Priority(R, r) <= Priority(R, lists[Next(R, lists)][0])
  {
    var i :| 0 <= i < |lists[l]| && lists[l][i] == r;
    assert Descending(R, lists[l]);
    assert Priority(R, lists[l][i]) <= Priority(R, lists[l][0]);
  }

  lemma AdvanceKeepsDescending(R: Registry, lists: seq<seq<Ref>>, b: nat)
    requires AllDescending(R, lists) && b < |lists| && lists[b] != []
    ensures AllDescending(R, Advance(lists, b))
  {
    assert Descending(R, lists[b]);
  }

  /** Merging descending lists gives a descending sequence of attempts. */
  lemma {:induction false} OrderIsDescending(R: Registry, lists: seq<seq<Ref>>)
    requires AllDescending(R, lists)
    ensures Descending(R, Order(R, lists))
    decreases Remaining(lists)
  {
    var b := Next(R, lists);
    if b != -1 {
      AdvanceShrinks(lists, b);
      AdvanceKeepsDescending(R, lists, b);
      var rest := Order(R, Advance(lists, b));
      OrderIsDescending(R, Advance(lists, b));
      forall i | 0 <= i < |rest|
        ensures Priority(R, rest[i]) <= Priority(R, lists[b][0])
      {
        OrderHasAllItems(R, Advance(lists, b), rest[i]);
        OrderHasAllItems(R, lists, rest[i]);
        var l :| 0 <= l < |lists| && rest[i] in lists[l];
        NextIsGreatest(R, lists, l, rest[i]);
      }
    }
  }

  // ----- Selecting -----

  function SortedLists(R: Registry, lists: seq<seq<Ref>>): (sorted: seq<seq<Ref>>)
    ensures |sorted| == |lists|
    ensures forall l :: 0 <= l < |lists| ==> sorted[l] == StableSort(R, lists[l])
  {
    seq(|lists|, l requires 0 <= l < |lists| => StableSort(R, lists[l]))
  }

  /** The items a selection accepts, in the order it accepts them, from sorted lists. */
  function Chosen(R: Registry, sorted: seq<seq<Ref>>): seq<Ref> {
    Pass(R, Fresh(|sorted|), Order(R, sorted)).chosen
  }

  /** Every registered item is in the list of each limb it needs, and in no other. */
  ghost predicate Indexed(R: Registry, lists: seq<seq<Ref>>) {
    forall l, r :: 0 <= l < |lists| ==> (r in lists[l] <==> Registered(R, r) && l in LimbsOf(R, r))
  }

  /** No list names an item twice. */
  ghost predicate ListedOnce(lists: seq<seq<Ref>>) {
    forall l :: 0 <= l < |lists| ==> Distinct(lists[l])
  }

  lemma SortingKeepsListedOnce(R: Registry, lists: seq<seq<Ref>>)
    requires ListedOnce(lists)
    ensures ListedOnce(SortedLists(R, lists))
  {
    forall l | 0 <= l < |lists| ensures Distinct(StableSort(R, lists[l])) {
      StableSortSorts(R, lists[l], 0.0);
      DistinctHasOne(lists[l]);
      OneIsDistinct(StableSort(R, lists[l]));
    }
  }

  lemma {:induction false} DistinctHasOne(rs: seq<Ref>)
    requires Distinct(rs)
    ensures forall r :: multiset(rs)[r] <= 1
  {
    if rs != [] {
      var front, last := rs[..|rs| - 1], rs[|rs| - 1];
      assert rs == front + [last];
      DistinctHasOne(front);
    }
  }

  lemma OneIsDistinct(rs: seq<Ref>)
    requires forall r :: multiset(rs)[r] <= 1
    ensures Distinct(rs)
  {
    forall i, j | 0 <= i < j < |rs| ensures rs[i] != rs[j] {
      assert rs == rs[..j] + rs[j..];
      assert rs[i] in rs[..j] && rs[j] in rs[j..];
      assert multiset(rs) == multiset(rs[..j]) + multiset(rs[j..]);
      assert rs[i] == rs[j] ==> multiset(rs)[rs[i]] >= 2;
    }
  }

  lemma SortingKeepsIndex(R: Registry, lists: seq<seq<Ref>>)
    requires Indexed(R, lists)
    ensures Indexed(R, SortedLists(R, lists)) && AllDescending(R, SortedLists(R, lists))
  {
    forall l | 0 <= l < |lists|
      ensures Descending(R, StableSort(R, lists[l]))
      ensures forall r :: r in StableSort(R, lists[l]) <==> r in lists[l]
    {
      StableSortSorts(R, lists[l], 0.0);
      StableSortHasSameItems(R, lists[l]);
    }
  }

  lemma AttemptsAreTheItems(R: Registry, sorted: seq<seq<Ref>>, r: Ref)
    requires Indexed(R, sorted) && LimbsBelow(R, |sorted|)
    ensures r in Order(R, sorted) <==> Registered(R, r) && LimbsOf(R, r) != {}
  {
    OrderHasAllItems(R, sorted, r);
    if Registered(R, r) && LimbsOf(R, r) != {} {
      var l :| l in LimbsOf(R, r);
      assert r in sorted[l];
    }
  }

  /** With or without ties: chosen items are registered, share no limb and come with their
      group's main item, and no unselected item envies the selection. */
  lemma ChosenIsEnvyFree(R: Registry, sorted: seq<seq<Ref>>)
    requires Indexed(R, sorted) && AllDescending(R, sorted) && LimbsBelow(R, |sorted|)
    ensures EnvyFree(R, Chosen(R, sorted))
  {
    forall r ensures r in Order(R, sorted) <==> Registered(R, r) && LimbsOf(R, r) != {} {
      AttemptsAreTheItems(R, sorted, r);
    }
    OrderIsDescending(R, sorted);
    NoEnvy(R, |sorted|, Order(R, sorted));
  }

  /** When the priorities settle the selection, the merge chooses it, and it is the one stable
      selection. */
  lemma ChosenIsStable(R: Registry, sorted: seq<seq<Ref>>)
    requires Indexed(R, sorted) && AllDescending(R, sorted) && LimbsBelow(R, |sorted|)
    requires MainIsTop(R) && Settled(R)
    ensures Settles(R, Chosen(R, sorted))
    ensures forall other :: Stable(R, R.Keys, other) ==> forall r :: r in Chosen(R, sorted) <==> r in other
  {
    var s :| Settles(R, s);
    ChosenIsEnvyFree(R, sorted);
    EnvyFreeIsSettled(R, s, Chosen(R, sorted));
    SettlesSameItems(R, s, Chosen(R, sorted));
    forall other | Stable(R, R.Keys, other)
      ensures forall r :: r in Chosen(R, sorted) <==> r in other
    {
      StableIsUnique(R, R.Keys, Chosen(R, sorted), other);
    }
  }

  /** And it chooses exactly what one greedy pass over all items in descending priority chooses,
      whichever of equals comes first in the pass. */
  lemma LazyMergeIsGreedy(R: Registry, sorted: seq<seq<Ref>>, items: seq<Ref>)
    requires Indexed(R, sorted) && AllDescending(R, sorted) && LimbsBelow(R, |sorted|)
    requires MainIsTop(R) && Settled(R)
    requires Descending(R, items) && forall r :: r in items <==> Registered(R, r)
    ensures forall r :: r in Chosen(R, sorted) <==> r in Pass(R, Fresh(|sorted|), items).chosen
  {
    var s :| Settles(R, s);
    NoEnvy(R, |sorted|, items);
    EnvyFreeIsSettled(R, s, Pass(R, Fresh(|sorted|), items).chosen);
    ChosenIsEnvyFree(R, sorted);
    EnvyFreeIsSettled(R, s, Chosen(R, sorted));
  }

  /** Priorities that are not contested settle the selection, whatever else ties. */
  lemma UncontestedIsSettled(R: Registry, sorted: seq<seq<Ref>>)
    requires Indexed(R, sorted) && AllDescending(R, sorted) && LimbsBelow(R, |sorted|)
    requires MainIsTop(R) && Uncontested(R)
    ensures Settles(R, Chosen(R, sorted)) && Settled(R)
  {
    ChosenIsEnvyFree(R, sorted);
    UncontestedSettles(R, Chosen(R, sorted));
  }
}
