/** When equal priorities change what a selection accepts, and when they do not. */
module Ties {
  import opened Requests
  import opened Selection
  import opened Merge
  import opened Ordering

  // ----- Passes that attempt every item once -----

  /** All registered items once, in descending priority, equals in whatever order. */
  ghost predicate Enumerates(R: Registry, items: seq<Ref>) {
    Descending(R, items) && Distinct(items) && forall r :: r in items <==> Registered(R, r)
  }

  ghost predicate SameRefs(a: seq<Ref>, b: seq<Ref>) {
    forall r :: r in a <==> r in b
  }

  /** What an attempt in the middle of a pass comes to. */
  lemma AttemptedInPass(R: Registry, n: nat, before: seq<Ref>, r: Ref, after: seq<Ref>)
    ensures var q, p := Pass(R, Fresh(n), before), Pass(R, Fresh(n), before + [r] + after);
      && (forall c :: c in q.chosen ==> c in p.chosen)
      && (forall c :: c in p.chosen && c !in after && c != r ==> c in q.chosen)
      && (Eligible(R, q, r) ==> r in p.chosen)
      && (!Eligible(R, q, r) && r !in before && r !in after ==> r !in p.chosen)
  {
    var q := Pass(R, Fresh(n), before);
    PassAppend(R, Fresh(n), before + [r], after);
    PassAppend(R, Fresh(n), before, [r]);
    assert Pass(R, q, [r]) == Pass(R, Try(R, q, r), []);
    PassChooses(R, Try(R, q, r), after);
    PassChooses(R, Fresh(n), before);
  }

  // ----- Putting one item first among its equals -----

  ghost function AllRefs(R: Registry): (rs: set<Ref>)
    ensures forall r :: r in rs <==> Registered(R, r)
  {
    set id, i | id in R && 0 <= i < |R[id].items| :: Ref(id, i)
  }

  lemma {:induction false} Listed(R: Registry, rs: set<Ref>) returns (items: seq<Ref>)
    ensures Descending(R, items) && Distinct(items) && forall r :: r in items <==> r in rs
    decreases |rs|
  {
    if rs == {} {
      items := [];
    } else {
      var m := GreatestOf(R, rs);
      var rest := Listed(R, rs - {m});
      items := [m] + rest;
      forall i | 0 <= i < |rest| ensures rest[i] in rs {
        assert rest[i] in rest;
      }
    }
  }

  /** The items before `r` in an enumeration that puts it first among its equals, or right after its
      group's main item. */
  ghost predicate Before(R: Registry, r: Ref, withMain: bool, c: Ref) {
    Registered(R, c) && (Priority(R, r) < Priority(R, c) || (withMain && c == Main(R, r.id)))
  }

  lemma PutFirst(R: Registry, r: Ref, withMain: bool) returns (before: seq<Ref>, after: seq<Ref>)
    requires Registered(R, r)
    requires withMain ==>
               Main(R, r.id) != r && Registered(R, Main(R, r.id)) && Priority(R, Main(R, r.id)) == Priority(R, r)
    ensures Enumerates(R, before + [r] + after)
    ensures forall c :: c in before <==> Before(R, r, withMain, c)
    ensures r !in before && r !in after && forall c :: c in before ==> c !in after
  {
    var above := set c | c in AllRefs(R) && Before(R, r, withMain, c);
    var below := AllRefs(R) - above - {r};
    before := Listed(R, above);
    after := Listed(R, below);
    Joins(R, before, r, after);
  }

  lemma Joins(R: Registry, before: seq<Ref>, r: Ref, after: seq<Ref>)
    requires Descending(R, before) && Descending(R, after) && Distinct(before) && Distinct(after)
    requires forall c :: c in before ==> Priority(R, r) <= Priority(R, c) && c !in after && c != r
    requires forall c :: c in after ==> Priority(R, c) <= Priority(R, r) && c != r
    requires forall c :: Registered(R, c) <==> c in before || c == r || c in after
    ensures Enumerates(R, before + [r] + after)
  {
    var items := before + [r] + after;
    forall i, j | 0 <= i < j < |items|
      ensures Priority(R, items[j]) <= Priority(R, items[i]) && items[i] != items[j]
    {
      assert i < |before| ==> items[i] in before && items[i] == before[i];
      assert j > |before| ==> items[j] in after && items[j] == after[j - |before| - 1];
      assert i > |before| ==> items[i] == after[i - |before| - 1];
      assert j < |before| ==> items[j] == before[j];
    }
  }

  // ----- What agreement of all passes means -----

  /** An item that deserves a place, attempted before all that do not outrank it, gets it. */
  lemma DeservingIsAccepted(R: Registry, n: nat, s: seq<Ref>, before: seq<Ref>, r: Ref, after: seq<Ref>)
    requires LimbsBelow(R, n) && Registered(R, r) && Deserves(R, s, r)
    requires SameRefs(Pass(R, Fresh(n), before + [r] + after).chosen, s)
    requires forall c :: c in before ==> Outranks(R, c, r)
    requires !IsMain(R, r) ==> Main(R, r.id) in before && Main(R, r.id) !in after
    ensures r in s
  {
    var q := Pass(R, Fresh(n), before);
    AttemptedInPass(R, n, before, r, after);
    FreshIsSound(R, n, before);
    forall c | c in q.chosen ensures LimbsOf(R, c) !! LimbsOf(R, r) {
      assert Outranks(R, c, r) && c in s;
    }
    UnusedAreFree(R, n, q, r);
    if !IsMain(R, r) {
      assert Main(R, r.id) in q.chosen;
      var k :| 0 <= k < |q.chosen| && q.chosen[k] == Main(R, r.id);
      assert q.chosen[k].id == r.id;
    }
  }

  lemma AgreedIsDeserved(R: Registry, n: nat, s: seq<Ref>, r: Ref)
    requires LimbsBelow(R, n) && MainIsTop(R) && Registered(R, r) && Deserves(R, s, r)
    requires forall items :: Enumerates(R, items) ==> SameRefs(Pass(R, Fresh(n), items).chosen, s)
    ensures r in s
  {
    var main := Main(R, r.id);
    var before, after := PutFirst(R, r, main != r && Priority(R, main) == Priority(R, r));
    DeservingIsAccepted(R, n, s, before, r, after);
  }

  /** A companion attempted before its main item is refused. */
  lemma CompanionIsBelow(R: Registry, n: nat, s: seq<Ref>, r: Ref)
    requires MainIsTop(R) && Registered(R, r) && !IsMain(R, r) && r in s
    requires forall items :: Enumerates(R, items) ==> SameRefs(Pass(R, Fresh(n), items).chosen, s)
    ensures Priority(R, r) < Priority(R, Main(R, r.id))
  {
    if Priority(R, Main(R, r.id)) == Priority(R, r) {
      var before, after := PutFirst(R, r, false);
      var q := Pass(R, Fresh(n), before);
      AttemptedInPass(R, n, before, r, after);
      FreshIsSound(R, n, before);
      if GroupActive(q.chosen, r.id) {
        ActiveHasMain(R, q.chosen, r.id);
        assert false;
      }
    }
  }

  lemma AgreedSettles(R: Registry, n: nat, s: seq<Ref>)
    requires LimbsBelow(R, n) && MainIsTop(R) && EnvyFree(R, s)
    requires forall items :: Enumerates(R, items) ==> SameRefs(Pass(R, Fresh(n), items).chosen, s)
    ensures Settles(R, s)
  {
    forall r | Registered(R, r)
      ensures r in s <==> Deserves(R, s, r)
    {
      if r in s {
        var k :| 0 <= k < |s| && s[k] == r;
        assert Main(R, s[k].id) in s;
        forall c | c in s && Outranks(R, c, r) ensures LimbsOf(R, c) !! LimbsOf(R, r) {
          ExclusiveApart(R, s, c, r);
        }
      } else if Deserves(R, s, r) {
        AgreedIsDeserved(R, n, s, r);
      }
    }
    forall r | r in s && !IsMain(R, r) ensures Priority(R, r) < Priority(R, Main(R, r.id)) {
      CompanionIsBelow(R, n, s, r);
    }
  }

  /** All greedy passes choose what the lazy merge chooses. */
  ghost predicate AllAgree(R: Registry, sorted: seq<seq<Ref>>) {
    forall items :: Enumerates(R, items) ==>
      SameRefs(Pass(R, Fresh(|sorted|), items).chosen, Chosen(R, sorted))
  }

  /** Every greedy pass over all items in descending priority, whichever of equals comes first in it,
      chooses what the lazy merge chooses, exactly when the priorities settle the selection. */
  lemma GreedyExactlyWhenSettled(R: Registry, sorted: seq<seq<Ref>>)
    requires Indexed(R, sorted) && AllDescending(R, sorted) && LimbsBelow(R, |sorted|) && MainIsTop(R)
    ensures AllAgree(R, sorted) <==> Settled(R)
  {
    if Settled(R) {
      forall items | Enumerates(R, items)
        ensures SameRefs(Pass(R, Fresh(|sorted|), items).chosen, Chosen(R, sorted))
      {
        LazyMergeIsGreedy(R, sorted, items);
      }
    } else if AllAgree(R, sorted) {
      ChosenIsEnvyFree(R, sorted);
      AgreedSettles(R, |sorted|, Chosen(R, sorted));
    }
  }

  // ----- Two groups that tie -----

  // Two groups of one item each, of the same priority; the first needs limb 1, the second 0 and 1.
  const TIED: Registry := map[
    1 := Request(false, 1.0, 0, [Item(false, 1.0, {1})]),
    2 := Request(false, 1.0, 0, [Item(false, 1.0, {0, 1})])]
  const TIED_LISTS: seq<seq<Ref>> := [[Ref(2, 0)], [Ref(1, 0), Ref(2, 0)]]
  const TIED_ITEMS: seq<Ref> := [Ref(1, 0), Ref(2, 0)]

  lemma TiedItem(r: Ref)
    ensures Registered(TIED, r) <==> r == Ref(1, 0) || r == Ref(2, 0)
    ensures Registered(TIED, r) ==> Priority(TIED, r) == 1.0 && IsMain(TIED, r)
    ensures LimbsOf(TIED, Ref(1, 0)) == {1} && LimbsOf(TIED, Ref(2, 0)) == {0, 1}
  {
    assert TIED[1].items == [Item(false, 1.0, {1})] && TIED[2].items == [Item(false, 1.0, {0, 1})];
    assert r.id in TIED <==> r.id == 1 || r.id == 2;
  }

  predicate IsTied(r: Ref) {
    r == Ref(1, 0) || r == Ref(2, 0)
  }

  /** Whichever of the two comes first keeps the other out. */
  lemma TiedPass(first: Ref, rest: seq<Ref>)
    requires IsTied(first) && forall r :: r in rest ==> IsTied(r)
    ensures Pass(TIED, Fresh(2), [first] + rest).chosen == [first]
  {
    TiedItem(first);
    assert AllLimbs(2) == {0, 1};
    assert Eligible(TIED, Fresh(2), first);
    assert ([first] + rest)[1..] == rest;
    TiedRest(first, Try(TIED, Fresh(2), first), rest);
  }

  lemma {:induction false} TiedRest(first: Ref, s: Choice, rest: seq<Ref>)
    requires s.chosen == [first] && 1 !in s.free
    requires forall r :: r in rest ==> IsTied(r)
    ensures Pass(TIED, s, rest).chosen == [first]
    decreases |rest|
  {
    if rest != [] {
      TiedItem(rest[0]);
      assert IsTied(rest[0]);
      assert 1 in LimbsOf(TIED, rest[0]);
      TiedRest(first, s, rest[1..]);
    }
  }

  lemma TiedInput()
    ensures Indexed(TIED, TIED_LISTS) && AllDescending(TIED, TIED_LISTS) && LimbsBelow(TIED, 2) && MainIsTop(TIED)
    ensures Descending(TIED, TIED_ITEMS) && forall r :: r in TIED_ITEMS <==> Registered(TIED, r)
  {
    hide Priority, LimbsOf, Registered, IsMain;
    forall r
      ensures Registered(TIED, r) <==> IsTied(r)
      ensures IsTied(r) ==> Priority(TIED, r) == 1.0 && Main(TIED, r.id) == r
      ensures LimbsOf(TIED, Ref(1, 0)) == {1} && LimbsOf(TIED, Ref(2, 0)) == {0, 1}
    {
      TiedMain(r);
    }
    assert forall r :: r in TIED_LISTS[0] <==> r == Ref(2, 0);
    assert forall r :: r in TIED_LISTS[1] <==> IsTied(r);
  }

  lemma TiedMain(r: Ref)
    ensures Registered(TIED, r) <==> IsTied(r)
    ensures IsTied(r) ==> Priority(TIED, r) == 1.0 && Main(TIED, r.id) == r
    ensures LimbsOf(TIED, Ref(1, 0)) == {1} && LimbsOf(TIED, Ref(2, 0)) == {0, 1}
  {
    TiedItem(r);
  }

  lemma TiedOrder(rest: seq<Ref>)
    requires rest == Order(TIED, [[], [Ref(1, 0), Ref(2, 0)]])
    ensures Order(TIED, TIED_LISTS) == [Ref(2, 0)] + rest
    ensures forall r :: r in rest ==> IsTied(r)
  {
    TiedItem(Ref(1, 0));
    TiedItem(Ref(2, 0));
    assert Best(TIED, TIED_LISTS, 1) == 0;
    assert Next(TIED, TIED_LISTS) == 0;
    AdvanceShrinks(TIED_LISTS, 0);
    var next := [[], [Ref(1, 0), Ref(2, 0)]];
    assert Advance(TIED_LISTS, 0) == next;
    forall r | r in rest ensures IsTied(r) {
      OrderHasAllItems(TIED, next, r);
      var l :| 0 <= l < |next| && r in next[l];
    }
  }

  /** With ties the merge may choose otherwise than a greedy pass: it begins with the first limb,
      the pass with the item registered first, and each takes what the other needs. */
  lemma TiesAreNotGreedy()
    ensures Indexed(TIED, TIED_LISTS) && AllDescending(TIED, TIED_LISTS) && LimbsBelow(TIED, 2) && MainIsTop(TIED)
    ensures Descending(TIED, TIED_ITEMS) && forall r :: r in TIED_ITEMS <==> Registered(TIED, r)
    ensures Chosen(TIED, TIED_LISTS) == [Ref(2, 0)]
    ensures Pass(TIED, Fresh(2), TIED_ITEMS).chosen == [Ref(1, 0)]
    ensures !Settled(TIED)
  {
    TiedInput();
    hide Indexed, AllDescending, LimbsBelow, MainIsTop, Descending, Registered, Pass, Order;
    assert TIED_ITEMS == [Ref(1, 0)] + [Ref(2, 0)];
    TiedPass(Ref(1, 0), [Ref(2, 0)]);
    var rest := Order(TIED, [[], [Ref(1, 0), Ref(2, 0)]]);
    TiedOrder(rest);
    TiedPass(Ref(2, 0), rest);
    assert Ref(2, 0) in Chosen(TIED, TIED_LISTS) && Ref(2, 0) !in Pass(TIED, Fresh(2), TIED_ITEMS).chosen;
    if Settled(TIED) {
      LazyMergeIsGreedy(TIED, TIED_LISTS, TIED_ITEMS);
    }
  }
}
