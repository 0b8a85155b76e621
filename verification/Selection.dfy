/** Which items a selection accepts. Accepting is a pass over a sequence of attempts; the
    controller's lazy merge of the limb lists is one such pass, and a plain greedy pass over
    the items in descending priority is another. */
module Selection {
  import opened Requests

  datatype Choice = Choice(free: set<Limb>, chosen: seq<Ref>)

  predicate GroupActive(chosen: seq<Ref>, id: nat) {
    exists k :: 0 <= k < |chosen| && chosen[k].id == id
  }

  predicate Eligible(R: Registry, s: Choice, r: Ref) {
    && (IsMain(R, r) || GroupActive(s.chosen, r.id))
    && LimbsOf(R, r) != {}
    && LimbsOf(R, r) <= s.free
  }

  function Try(R: Registry, s: Choice, r: Ref): Choice {
    if Eligible(R, s, r) then Choice(s.free - LimbsOf(R, r), s.chosen + [r]) else s
  }

  function Pass(R: Registry, s: Choice, rs: seq<Ref>): Choice
    decreases |rs|
  {
    if rs == [] then s else Pass(R, Try(R, s, rs[0]), rs[1..])
  }

  /** Nothing chosen yet and all n limbs free. */
  function Fresh(n: nat): Choice {
    Choice(AllLimbs(n), [])
  }

  // ----- What every selection guarantees -----

  /** Chosen items have limbs and share none. */
  ghost predicate Exclusive(R: Registry, chosen: seq<Ref>) {
    && (forall i :: 0 <= i < |chosen| ==> LimbsOf(R, chosen[i]) != {})
    && (forall i, j :: 0 <= i < j < |chosen| ==> LimbsOf(R, chosen[i]) !! LimbsOf(R, chosen[j]))
  }

  /** Moreover the main item of each chosen item's group is chosen. */
  ghost predicate Compatible(R: Registry, chosen: seq<Ref>) {
    && Exclusive(R, chosen)
    && (forall i :: 0 <= i < |chosen| ==> Main(R, chosen[i].id) in chosen)
  }

  /** The limbs that are not free are exactly those of the chosen items. */
  ghost predicate Accounted(R: Registry, n: nat, s: Choice) {
    && (forall l :: l in s.free ==> l < n)
    && (forall i :: 0 <= i < |s.chosen| ==> LimbsOf(R, s.chosen[i]) !! s.free)
    && (forall l: Limb :: l < n && l !in s.free ==>
          exists i :: 0 <= i < |s.chosen| && l in LimbsOf(R, s.chosen[i]))
  }

  /** An unselected item envies a selection when the item, or else its group's main item with a
      greater priority, makes it a candidate and no selected item of at least its own priority
      uses one of its limbs. */
  ghost predicate Envies(R: Registry, chosen: seq<Ref>, r: Ref) {
    && r !in chosen
    && LimbsOf(R, r) != {}
    && (IsMain(R, r)
        || (Main(R, r.id) in chosen && Priority(R, r) < Priority(R, Main(R, r.id))))
    && forall c :: c in chosen && Priority(R, r) <= Priority(R, c) ==> LimbsOf(R, c) !! LimbsOf(R, r)
  }

  lemma TryIsAccounted(R: Registry, n: nat, s: Choice, r: Ref)
    requires Accounted(R, n, s)
    ensures Accounted(R, n, Try(R, s, r))
  {
    var t := Try(R, s, r);
    if Eligible(R, s, r) {
      forall i | 0 <= i < |t.chosen|
        ensures LimbsOf(R, t.chosen[i]) !! t.free
      {
        assert i < |s.chosen| ==> t.chosen[i] == s.chosen[i];
      }
      forall l: Limb | l < n && l !in t.free
        ensures exists i :: 0 <= i < |t.chosen| && l in LimbsOf(R, t.chosen[i])
      {
        if l in s.free {
          assert l in LimbsOf(R, t.chosen[|s.chosen|]);
        } else {
          var i :| 0 <= i < |s.chosen| && l in LimbsOf(R, s.chosen[i]);
          assert l in LimbsOf(R, t.chosen[i]);
        }
      }
    }
  }

  lemma ActiveHasMain(R: Registry, chosen: seq<Ref>, id: nat)
    requires Compatible(R, chosen) && GroupActive(chosen, id)
    ensures Main(R, id) in chosen
  {
    var k :| 0 <= k < |chosen| && chosen[k].id == id;
    assert Main(R, chosen[k].id) in chosen;
  }

  lemma AppendIsCompatible(R: Registry, chosen: seq<Ref>, r: Ref)
    requires Compatible(R, chosen)
    requires LimbsOf(R, r) != {} && Main(R, r.id) in chosen + [r]
    requires forall i :: 0 <= i < |chosen| ==> LimbsOf(R, chosen[i]) !! LimbsOf(R, r)
    ensures Compatible(R, chosen + [r])
  {
    forall i | 0 <= i < |chosen + [r]|
      ensures Main(R, (chosen + [r])[i].id) in chosen + [r]
    {
      if i < |chosen| {
        assert Main(R, chosen[i].id) in chosen;
      }
    }
  }

  lemma TryKeeps(R: Registry, n: nat, s: Choice, r: Ref)
    requires Compatible(R, s.chosen) && Accounted(R, n, s)
    ensures Compatible(R, Try(R, s, r).chosen) && Accounted(R, n, Try(R, s, r))
  {
    TryIsAccounted(R, n, s, r);
    if Eligible(R, s, r) {
      if !IsMain(R, r) {
        ActiveHasMain(R, s.chosen, r.id);
      }
      AppendIsCompatible(R, s.chosen, r);
    }
  }

  lemma {:induction false} PassKeeps(R: Registry, n: nat, s: Choice, rs: seq<Ref>)
    requires Compatible(R, s.chosen) && Accounted(R, n, s)
    ensures Compatible(R, Pass(R, s, rs).chosen) && Accounted(R, n, Pass(R, s, rs))
    decreases |rs|
  {
    if rs != [] {
      TryKeeps(R, n, s, rs[0]);
      PassKeeps(R, n, Try(R, s, rs[0]), rs[1..]);
    }
  }

  lemma {:induction false} PassChooses(R: Registry, s: Choice, rs: seq<Ref>)
    ensures forall r :: r in Pass(R, s, rs).chosen ==> r in s.chosen || r in rs
    ensures forall r :: r in s.chosen ==> r in Pass(R, s, rs).chosen
    decreases |rs|
  {
    if rs != [] {
      PassChooses(R, Try(R, s, rs[0]), rs[1..]);
    }
  }

  lemma {:induction false} PassAppend(R: Registry, s: Choice, a: seq<Ref>, b: seq<Ref>)
    ensures Pass(R, s, a + b) == Pass(R, Pass(R, s, a), b)
    decreases |a|
  {
    if a == [] {
      assert a + b == b;
    } else {
      assert (a + b)[1..] == a[1..] + b;
      PassAppend(R, Try(R, s, a[0]), a[1..], b);
    }
  }

  lemma FreshIsSound(R: Registry, n: nat, rs: seq<Ref>)
    ensures Compatible(R, Pass(R, Fresh(n), rs).chosen) && Accounted(R, n, Pass(R, Fresh(n), rs))
    ensures forall r :: r in Pass(R, Fresh(n), rs).chosen ==> r in rs
  {
    PassKeeps(R, n, Fresh(n), rs);
    PassChooses(R, Fresh(n), rs);
  }

  lemma UnusedAreFree(R: Registry, n: nat, q: Choice, r: Ref)
    requires LimbsBelow(R, n) && Registered(R, r) && Accounted(R, n, q)
    requires forall c :: c in q.chosen ==> LimbsOf(R, c) !! LimbsOf(R, r)
    ensures LimbsOf(R, r) <= q.free
  {
    forall l | l in LimbsOf(R, r) ensures l in q.free {
      assert forall i :: 0 <= i < |q.chosen| ==> q.chosen[i] in q.chosen && l !in LimbsOf(R, q.chosen[i]);
    }
  }

  /** An item that is refused does not envy what is chosen so far. */
  lemma RefusedIsContent(R: Registry, n: nat, s: Choice, r: Ref)
    requires LimbsBelow(R, n) && Registered(R, r)
    requires Accounted(R, n, s)
    requires forall c :: c in s.chosen ==> Priority(R, r) <= Priority(R, c)
    requires !Eligible(R, s, r)
    ensures !Envies(R, s.chosen, r)
  {
    if LimbsOf(R, r) != {} {
      if !(LimbsOf(R, r) <= s.free) {
        var l :| l in LimbsOf(R, r) && l !in s.free;
        var i :| 0 <= i < |s.chosen| && l in LimbsOf(R, s.chosen[i]);
        assert s.chosen[i] in s.chosen;
      }
    }
  }

  /** Choosing one more item of no greater priority makes no content item envious. */
  lemma AppendKeepsContent(R: Registry, chosen: seq<Ref>, r: Ref, d: Ref)
    requires !Envies(R, chosen, d)
    requires Priority(R, r) <= Priority(R, d)
    ensures !Envies(R, chosen + [r], d)
  {
    assert forall c :: c in chosen ==> c in chosen + [r];
  }

  /** One attempt, made after the items of `done`, leaves none of them nor itself envious. */
  lemma TryLeavesNoEnvy(R: Registry, n: nat, s: Choice, done: seq<Ref>, r: Ref)
    requires LimbsBelow(R, n) && Registered(R, r)
    requires Accounted(R, n, s)
    requires forall c :: c in s.chosen ==> c in done
    requires forall d :: d in done ==> Priority(R, r) <= Priority(R, d)
    requires forall d :: d in done ==> !Envies(R, s.chosen, d)
    ensures forall d :: d in done + [r] ==> !Envies(R, Try(R, s, r).chosen, d)
  {
    if Eligible(R, s, r) {
      forall d | d in done
        ensures !Envies(R, s.chosen + [r], d)
      {
        AppendKeepsContent(R, s.chosen, r, d);
      }
    } else {
      RefusedIsContent(R, n, s, r);
    }
  }

  lemma FirstIsLeast(R: Registry, done: seq<Ref>, rs: seq<Ref>)
    requires rs != [] && Descending(R, done + rs)
    ensures forall d :: d in done ==> Priority(R, rs[0]) <= Priority(R, d)
  {
    assert (done + rs)[|done|] == rs[0];
    forall d | d in done
      ensures Priority(R, rs[0]) <= Priority(R, d)
    {
      var i :| 0 <= i < |done| && done[i] == d;
      assert (done + rs)[i] == d;
    }
  }

  lemma {:induction false} PassLeavesNoEnvy(R: Registry, n: nat, s: Choice, done: seq<Ref>, rs: seq<Ref>)
    requires LimbsBelow(R, n)
    requires forall r :: r in rs ==> Registered(R, r)
    requires Compatible(R, s.chosen) && Accounted(R, n, s)
    requires forall c :: c in s.chosen ==> c in done
    requires Descending(R, done + rs)
    requires forall d :: d in done ==> !Envies(R, s.chosen, d)
    ensures forall d :: d in done + rs ==> !Envies(R, Pass(R, s, rs).chosen, d)
    decreases |rs|
  {
    if rs != [] {
      var r := rs[0];
      FirstIsLeast(R, done, rs);
      TryKeeps(R, n, s, r);
      TryLeavesNoEnvy(R, n, s, done, r);
      assert done + rs == (done + [r]) + rs[1..];
      PassLeavesNoEnvy(R, n, Try(R, s, r), done + [r], rs[1..]);
    }
  }

  /** A pass over any descending sequence of registered items, from nothing chosen, gives
      compatible items that leave no item of the sequence envious, whatever the ties. */
  lemma NoEnvy(R: Registry, n: nat, rs: seq<Ref>)
    requires LimbsBelow(R, n)
    requires forall r :: r in rs ==> Registered(R, r)
    requires Descending(R, rs)
    ensures Compatible(R, Pass(R, Fresh(n), rs).chosen)
    ensures forall r :: r in Pass(R, Fresh(n), rs).chosen ==> r in rs
    ensures forall r :: r in rs ==> !Envies(R, Pass(R, Fresh(n), rs).chosen, r)
  {
    PassKeeps(R, n, Fresh(n), rs);
    PassChooses(R, Fresh(n), rs);
    assert [] + rs == rs;
    PassLeavesNoEnvy(R, n, Fresh(n), [], rs);
  }

  // ----- The stable selection -----

  /** An item deserves a place in a selection when it needs some limb, its group's main item is
      selected (or it is that item) and no selected item that outranks it uses one of its limbs. */
  ghost predicate Deserves(R: Registry, chosen: seq<Ref>, r: Ref) {
    && LimbsOf(R, r) != {}
    && (IsMain(R, r) || Main(R, r.id) in chosen)
    && forall c :: c in chosen && Outranks(R, c, r) ==> LimbsOf(R, c) !! LimbsOf(R, r)
  }

  /** A selection is stable for the groups `ids` when exactly the items that deserve it are selected. */
  ghost predicate Stable(R: Registry, ids: set<nat>, chosen: seq<Ref>) {
    && (forall r :: r in chosen ==> Registered(R, r) && r.id in ids)
    && forall r :: Registered(R, r) && r.id in ids ==> (r in chosen <==> Deserves(R, chosen, r))
  }

  lemma {:induction false} GreatestOf(R: Registry, rs: set<Ref>) returns (m: Ref)
    requires rs != {}
    ensures m in rs && forall r :: r in rs ==> Priority(R, r) <= Priority(R, m)
    decreases |rs|
  {
    m :| m in rs;
    if rs - {m} != {} {
      var k := GreatestOf(R, rs - {m});
      if Priority(R, m) < Priority(R, k) { m := k; }
    }
  }

  /** Of any items one is outranked by none of them. */
  lemma TopOf(R: Registry, rs: set<Ref>) returns (m: Ref)
    requires rs != {}
    ensures m in rs && forall r :: r in rs ==> !Outranks(R, r, m)
  {
    m := GreatestOf(R, rs);
    if Main(R, m.id) in rs && Outranks(R, Main(R, m.id), m) {
      m := Main(R, m.id);
    }
  }

  lemma StableAgreeAbove(R: Registry, ids: set<nat>, s: seq<Ref>, t: seq<Ref>, m: Ref)
    requires MainIsTop(R)
    requires Stable(R, ids, s) && Stable(R, ids, t)
    requires forall r :: Outranks(R, r, m) ==> (r in s <==> r in t)
    requires m in s
    ensures m in t
  {
    assert Registered(R, m) && m.id in ids && Deserves(R, s, m);
    if !IsMain(R, m) {
      assert Outranks(R, Main(R, m.id), m);
    }
    assert Deserves(R, t, m);
  }

  /** The items on which two selections differ. */
  ghost function Differing(s: seq<Ref>, t: seq<Ref>): (d: set<Ref>)
    ensures forall r :: r in d <==> ((r in s) != (r in t))
  {
    (set r | r in s && r !in t) + (set r | r in t && r !in s)
  }

  /** There is at most one stable selection. */
  lemma StableIsUnique(R: Registry, ids: set<nat>, s: seq<Ref>, t: seq<Ref>)
    requires MainIsTop(R)
    requires Stable(R, ids, s) && Stable(R, ids, t)
    ensures forall r :: r in s <==> r in t
  {
    var d := Differing(s, t);
    if d != {} {
      var m := TopOf(R, d);
      if m in s {
        StableAgreeAbove(R, ids, s, t, m);
      } else {
        StableAgreeAbove(R, ids, t, s, m);
      }
    }
  }

  // ----- When the priorities settle the selection -----

  /** No selected item is as great as the main item of its group, unless it is that item. */
  ghost predicate CompanionsBelow(R: Registry, chosen: seq<Ref>) {
    forall r :: r in chosen && !IsMain(R, r) ==> Priority(R, r) < Priority(R, Main(R, r.id))
  }

  /** A selection that the priorities settle: stable, without conflict, and whole whatever comes first
      among equals. */
  ghost predicate Settles(R: Registry, chosen: seq<Ref>) {
    Compatible(R, chosen) && Stable(R, R.Keys, chosen) && CompanionsBelow(R, chosen)
  }

  ghost predicate Settled(R: Registry) {
    exists s :: Settles(R, s)
  }

  /** What a pass over descending items guarantees, whatever the ties. */
  ghost predicate EnvyFree(R: Registry, chosen: seq<Ref>) {
    && Compatible(R, chosen)
    && (forall r :: r in chosen ==> Registered(R, r))
    && forall r :: Registered(R, r) ==> !Envies(R, chosen, r)
  }

  lemma ExclusiveApart(R: Registry, items: seq<Ref>, r: Ref, q: Ref)
    requires Exclusive(R, items) && r in items && q in items && r != q
    ensures LimbsOf(R, r) !! LimbsOf(R, q)
  {
    var i :| 0 <= i < |items| && items[i] == r;
    var j :| 0 <= j < |items| && items[j] == q;
    assert i != j;
  }

  /** Where two selections agree on everything of greater priority, what an envy-free one has, the
      settled one has too. */
  lemma FreeIsSettled(R: Registry, s: seq<Ref>, free: seq<Ref>, c: Ref)
    requires MainIsTop(R) && Settles(R, s) && EnvyFree(R, free) && c in free
    requires forall r :: Priority(R, c) < Priority(R, r) ==> (r in s <==> r in free)
    requires IsMain(R, c) || Main(R, c.id) in s
    ensures c in s
  {
    var k :| 0 <= k < |free| && free[k] == c;
    assert Main(R, free[k].id) in free;
    assert Registered(R, c);
    forall d | d in s && Outranks(R, d, c) ensures LimbsOf(R, d) !! LimbsOf(R, c) {
      assert d in free;
      ExclusiveApart(R, free, d, c);
    }
    assert Deserves(R, s, c);
  }

  lemma FreeIsSettledToo(R: Registry, s: seq<Ref>, free: seq<Ref>, c: Ref)
    requires MainIsTop(R) && Settles(R, s) && EnvyFree(R, free) && c in free
    requires forall r :: Priority(R, c) < Priority(R, r) ==> (r in s <==> r in free)
    ensures c in s
  {
    var k :| 0 <= k < |free| && free[k] == c;
    var main := Main(R, c.id);
    assert Main(R, free[k].id) in free;
    if !IsMain(R, c) && Priority(R, main) == Priority(R, c) {
      FreeIsSettled(R, s, free, main);
    }
    FreeIsSettled(R, s, free, c);
  }

  /** And what the settled one has, an envy-free one has. */
  lemma SettledIsFree(R: Registry, s: seq<Ref>, free: seq<Ref>, m: Ref)
    requires MainIsTop(R) && Settles(R, s) && EnvyFree(R, free) && m in s
    requires forall r :: Priority(R, m) < Priority(R, r) ==> (r in s <==> r in free)
    ensures m in free
  {
    if m !in free {
      assert Registered(R, m) && Deserves(R, s, m);
      assert !Envies(R, free, m);
      var c :| c in free && Priority(R, m) <= Priority(R, c) && !(LimbsOf(R, c) !! LimbsOf(R, m));
      FreeIsSettledToo(R, s, free, c);
      ExclusiveApart(R, s, c, m);
    }
  }

  /** When the priorities settle the selection, every envy-free selection is that one. */
  lemma EnvyFreeIsSettled(R: Registry, s: seq<Ref>, free: seq<Ref>)
    requires MainIsTop(R) && Settles(R, s) && EnvyFree(R, free)
    ensures forall r :: r in free <==> r in s
  {
    var d := Differing(s, free);
    if d != {} {
      var m := GreatestOf(R, d);
      if m in s {
        SettledIsFree(R, s, free, m);
      } else {
        FreeIsSettledToo(R, s, free, m);
      }
    }
  }

  lemma SettlesSameItems(R: Registry, s: seq<Ref>, chosen: seq<Ref>)
    requires Settles(R, s) && Compatible(R, chosen) && forall r :: r in chosen <==> r in s
    ensures Settles(R, chosen)
  {
    forall r | Registered(R, r)
      ensures Deserves(R, chosen, r) <==> Deserves(R, s, r)
    {
      DeservesSameItems(R, s, chosen, r);
    }
  }

  lemma DeservesSameItems(R: Registry, s: seq<Ref>, t: seq<Ref>, r: Ref)
    requires forall c :: c in s <==> c in t
    ensures Deserves(R, s, r) <==> Deserves(R, t, r)
  {
    if c :| c in s && Outranks(R, c, r) && !(LimbsOf(R, c) !! LimbsOf(R, r)) {
      assert c in t;
    }
    if c :| c in t && Outranks(R, c, r) && !(LimbsOf(R, c) !! LimbsOf(R, r)) {
      assert c in s;
    }
  }

  lemma UncontestedCompanions(R: Registry, chosen: seq<Ref>)
    requires MainIsTop(R) && Uncontested(R) && forall r :: r in chosen ==> Registered(R, r)
    ensures CompanionsBelow(R, chosen)
  {
  }

  /** Uncontested priorities settle the selection: an envy-free one is stable. */
  lemma UncontestedSettles(R: Registry, free: seq<Ref>)
    requires MainIsTop(R) && Uncontested(R) && EnvyFree(R, free)
    ensures Settles(R, free)
  {
    UncontestedCompanions(R, free);
    forall r | Registered(R, r)
      ensures r in free <==> Deserves(R, free, r)
    {
      if r in free {
        var k :| 0 <= k < |free| && free[k] == r;
        assert Main(R, free[k].id) in free;
        forall c | c in free && Outranks(R, c, r) ensures LimbsOf(R, c) !! LimbsOf(R, r) {
          ExclusiveApart(R, free, c, r);
        }
      } else {
        assert !Envies(R, free, r);
      }
    }
  }

  // ----- Priority updates -----

  /** `R'` is `R` with other priorities: the same groups, items, limbs and main items. */
  ghost predicate SameShape(R: Registry, R': Registry) {
    && (forall r :: Registered(R, r) <==> Registered(R', r))
    && (forall r :: LimbsOf(R, r) == LimbsOf(R', r) && Main(R, r.id) == Main(R', r.id))
  }

  /** Selected items did not fall and the others did not rise. */
  ghost predicate Favours(R: Registry, R': Registry, chosen: seq<Ref>) {
    forall r :: Registered(R, r) ==>
      if r in chosen then Priority(R, r) <= Priority(R', r) else Priority(R', r) <= Priority(R, r)
  }

  /** A priority update that favours the current selection keeps it stable: no new selection is
      needed. */
  lemma FavouringKeepsStable(R: Registry, R': Registry, ids: set<nat>, chosen: seq<Ref>)
    requires SameShape(R, R') && Favours(R, R', chosen)
    requires Stable(R, ids, chosen) && Compatible(R, chosen)
    ensures Stable(R', ids, chosen)
  {
    forall r | Registered(R', r) && r.id in ids
      ensures r in chosen <==> Deserves(R', chosen, r)
    {
      assert Registered(R, r);
      if r in chosen {
        assert Deserves(R, chosen, r);
        forall c | c in chosen && Outranks(R', c, r) ensures LimbsOf(R', c) !! LimbsOf(R', r) {
          ExclusiveApart(R, chosen, c, r);
        }
      } else if LimbsOf(R, r) != {} && (IsMain(R, r) || Main(R, r.id) in chosen) {
        var c :| c in chosen && Outranks(R, c, r) && !(LimbsOf(R, c) !! LimbsOf(R, r));
        assert Registered(R, c);
        assert Outranks(R', c, r);
      }
    }
  }

  /** Even with ties, such an update leaves no main item envious. */
  lemma FavouringKeepsMainsContent(R: Registry, R': Registry, chosen: seq<Ref>, r: Ref)
    requires SameShape(R, R') && Favours(R, R', chosen)
    requires forall c :: c in chosen ==> Registered(R, c)
    requires Registered(R, r) && IsMain(R, r) && !Envies(R, chosen, r)
    ensures !Envies(R', chosen, r)
  {
    if r !in chosen && LimbsOf(R, r) != {} {
      var c :| c in chosen && Priority(R, r) <= Priority(R, c) && !(LimbsOf(R, c) !! LimbsOf(R, r));
      assert Registered(R, c);
      assert Priority(R', r) <= Priority(R', c);
    }
  }
}
