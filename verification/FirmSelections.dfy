/** The selection that earns itself: the merge chooses it whatever the ties, it is the only one, and what
    an update that favours it can change. */
module FirmSelections {
  import opened Requests
  import opened Selection
  import opened Merge
  import opened Attempts

  // ----- Registries and lists that order attempts alike -----

  ghost predicate SameItem(R: Registry, R': Registry, r: Ref) {
    && (Registered(R, r) <==> Registered(R', r))
    && Priority(R, r) == Priority(R', r) && LimbsOf(R, r) == LimbsOf(R', r) && Main(R, r.id) == Main(R', r.id)
  }

  /** The items of the groups `ids` are the same, and attempted in the same order. */
  ghost predicate Alike(R: Registry, lists: seq<seq<Ref>>, R': Registry, lists': seq<seq<Ref>>, ids: set<nat>) {
    && (forall r: Ref :: r.id in ids ==> SameItem(R, R', r))
    && forall c: Ref, k: Limb, r: Ref, l: Limb :: c.id in ids && r.id in ids ==>
         (Sooner(R, lists, c, k, r, l) <==> Sooner(R', lists', c, k, r, l))
  }

  lemma InReachAlike(R: Registry, lists: seq<seq<Ref>>, R': Registry, lists': seq<seq<Ref>>, ids: set<nat>, r: Ref,
                     l: Limb)
    requires Alike(R, lists, R', lists', ids) && r.id in ids
    ensures InReach(R, lists, r, l) <==> InReach(R', lists', r, l)
  {
    hide Sooner, LimbsOf, Main;
    assert SameItem(R, R', r);
    var main := Main(R, r.id);
    MainIsInGroup(R, r.id);
    assert SameItem(R, R', main);
  }

  lemma MainIsInGroup(R: Registry, id: nat)
    ensures Main(R, id).id == id
  {
  }

  lemma BlocksAlike(R: Registry, lists: seq<seq<Ref>>, R': Registry, lists': seq<seq<Ref>>, ids: set<nat>, c: Ref,
                    r: Ref, l: Limb)
    requires Alike(R, lists, R', lists', ids) && c.id in ids && r.id in ids
    ensures Blocks(R, lists, c, r, l) <==> Blocks(R', lists', c, r, l)
  {
    assert SameItem(R, R', c) && SameItem(R, R', r);
    forall k ensures InReach(R, lists, c, k) <==> InReach(R', lists', c, k) {
      InReachAlike(R, lists, R', lists', ids, c, k);
    }
    hide Sooner, InReach, LimbsOf;
  }

  lemma EarnsAlike(R: Registry, lists: seq<seq<Ref>>, R': Registry, lists': seq<seq<Ref>>, ids: set<nat>,
                   chosen: seq<Ref>, chosen': seq<Ref>, r: Ref)
    requires Alike(R, lists, R', lists', ids) && r.id in ids
    requires forall c :: c in chosen <==> c in chosen'
    requires forall c :: c in chosen ==> c.id in ids
    ensures Earns(R, lists, chosen, r) <==> Earns(R', lists', chosen', r)
  {
    hide Sooner, InReach, LimbsOf, Blocks;
    assert SameItem(R, R', r);
    forall l
      ensures InReach(R, lists, r, l) <==> InReach(R', lists', r, l)
      ensures Blocked(R, lists, chosen, r, l) <==> Blocked(R', lists', chosen', r, l)
    {
      InReachAlike(R, lists, R', lists', ids, r, l);
      forall c | c in chosen ensures Blocks(R, lists, c, r, l) <==> Blocks(R', lists', c, r, l) {
        BlocksAlike(R, lists, R', lists', ids, c, r, l);
      }
    }
    hide Blocked;
  }

  lemma FirmAlike(R: Registry, lists: seq<seq<Ref>>, R': Registry, lists': seq<seq<Ref>>, chosen: seq<Ref>,
                  chosen': seq<Ref>)
    requires Alike(R, lists, R', lists', R.Keys) && R.Keys == R'.Keys
    requires forall c :: c in chosen <==> c in chosen'
    ensures Firm(R, lists, chosen) ==> Firm(R', lists', chosen')
  {
    if Firm(R, lists, chosen) {
      forall r | r in chosen ensures r.id in R.Keys {
        assert Registered(R, r);
      }
      hide Alike, Earns;
      forall r: Ref | r.id in R.Keys
        ensures Registered(R, r) <==> Registered(R', r)
        ensures Earns(R, lists, chosen, r) <==> Earns(R', lists', chosen', r)
      {
        EarnsAlike(R, lists, R', lists', R.Keys, chosen, chosen', r);
        SameByAlike(R, lists, R', lists', R.Keys, r);
      }
    }
  }

  lemma SameByAlike(R: Registry, lists: seq<seq<Ref>>, R': Registry, lists': seq<seq<Ref>>, ids: set<nat>, r: Ref)
    requires Alike(R, lists, R', lists', ids) && r.id in ids
    ensures SameItem(R, R', r)
  {
  }

  lemma SortingIsAlike(R: Registry, lists: seq<seq<Ref>>)
    ensures Alike(R, lists, R, SortedLists(R, lists), R.Keys)
    ensures Alike(R, SortedLists(R, lists), R, lists, R.Keys)
  {
    hide Sooner;
    forall c, k, r, l ensures Sooner(R, lists, c, k, r, l) <==> Sooner(R, SortedLists(R, lists), c, k, r, l) {
      SortingKeepsOrder(R, lists, c, k, r, l);
    }
  }

  // ----- The one firm selection -----

  lemma SortedIsMerged(R: Registry, lists: seq<seq<Ref>>)
    requires Indexed(R, lists) && ListedOnce(lists) && LimbsBelow(R, |lists|)
    ensures var sorted := SortedLists(R, lists); Merged(R, sorted, AttemptsOf(R, sorted), Order(R, sorted))
    ensures forall r :: r in Order(R, SortedLists(R, lists)) ==> Registered(R, r)
  {
    var sorted := SortedLists(R, lists);
    SortingKeepsIndex(R, lists);
    SortingKeepsListedOnce(R, lists);
    OrderIsMerged(R, sorted);
    forall r | r in Order(R, sorted) ensures Registered(R, r) {
      AttemptsAreTheItems(R, sorted, r);
    }
  }

  /** Whatever the ties, the lazy merge chooses a firm selection. */
  lemma ChosenIsFirm(R: Registry, lists: seq<seq<Ref>>)
    requires Indexed(R, lists) && ListedOnce(lists) && LimbsBelow(R, |lists|)
    ensures Firm(R, lists, Chosen(R, SortedLists(R, lists)))
  {
    var sorted := SortedLists(R, lists);
    var chosen := Chosen(R, sorted);
    SortedIsMerged(R, lists);
    hide Firm, FirmIn, Merged, Alike, Order, AttemptsOf;
    PassIsFirm(R, |sorted|, Order(R, sorted));
    FirmTold(R, sorted, AttemptsOf(R, sorted), Order(R, sorted), chosen);
    SortingIsAlike(R, lists);
    FirmAlike(R, sorted, R, lists, chosen, chosen);
  }

  /** And there is no other. */
  lemma FirmIsUnique(R: Registry, lists: seq<seq<Ref>>, a: seq<Ref>, b: seq<Ref>)
    requires Indexed(R, lists) && ListedOnce(lists) && LimbsBelow(R, |lists|)
    requires Firm(R, lists, a) && Firm(R, lists, b)
    ensures forall r :: r in a <==> r in b
  {
    var sorted := SortedLists(R, lists);
    hide Firm, FirmIn, Merged, Alike, Order, AttemptsOf;
    SortedIsMerged(R, lists);
    SortingIsAlike(R, lists);
    FirmAlike(R, lists, R, sorted, a, a);
    FirmAlike(R, lists, R, sorted, b, b);
    FirmTold(R, sorted, AttemptsOf(R, sorted), Order(R, sorted), a);
    FirmTold(R, sorted, AttemptsOf(R, sorted), Order(R, sorted), b);
    FirmInIsUnique(R, Order(R, sorted), a, b);
  }

  // ----- Updates that favour a selection -----

  /** A selected item keeps `r` out at limb l for good: it is r's main item, is greater, or is as great
      and attempted sooner. */
  ghost predicate Beats(R: Registry, lists: seq<seq<Ref>>, c: Ref, r: Ref, l: Limb) {
    || c == Main(R, r.id)
    || Priority(R, r) < Priority(R, c)
    || (Priority(R, r) == Priority(R, c) && exists k :: InReach(R, lists, c, k) && Sooner(R, lists, c, k, r, l))
  }

  ghost predicate BeatenAt(R: Registry, lists: seq<seq<Ref>>, chosen: seq<Ref>, r: Ref, l: Limb) {
    exists c :: c in chosen && Overlaps(R, c, r) && Beats(R, lists, c, r, l)
  }

  ghost predicate Outdone(R: Registry, lists: seq<seq<Ref>>, chosen: seq<Ref>, r: Ref) {
    forall l :: l in LimbsOf(R, r) ==> BeatenAt(R, lists, chosen, r, l)
  }

  lemma OutdoneAlike(R: Registry, lists: seq<seq<Ref>>, R': Registry, lists': seq<seq<Ref>>, ids: set<nat>,
                     chosen: seq<Ref>, r: Ref)
    requires Alike(R, lists, R', lists', ids) && r.id in ids && forall c :: c in chosen ==> c.id in ids
    requires Outdone(R, lists, chosen, r)
    ensures Outdone(R', lists', chosen, r)
  {
    hide Alike, Overlaps, Beats, LimbsOf;
    SameByAlike(R, lists, R', lists', ids, r);
    forall l | l in LimbsOf(R', r) ensures BeatenAt(R', lists', chosen, r, l) {
      assert BeatenAt(R, lists, chosen, r, l);
      var c :| c in chosen && Overlaps(R, c, r) && Beats(R, lists, c, r, l);
      BeatsAlike(R, lists, R', lists', ids, c, r, l);
    }
  }

  lemma BeatsAlike(R: Registry, lists: seq<seq<Ref>>, R': Registry, lists': seq<seq<Ref>>, ids: set<nat>,
                   c: Ref, r: Ref, l: Limb)
    requires Alike(R, lists, R', lists', ids) && r.id in ids && c.id in ids
    requires Overlaps(R, c, r) && Beats(R, lists, c, r, l)
    ensures Overlaps(R', c, r) && Beats(R', lists', c, r, l)
  {
    hide Sooner, InReach, LimbsOf, Main, Priority;
    assert SameItem(R, R', r) && SameItem(R, R', c);
    if k :| InReach(R, lists, c, k) && Sooner(R, lists, c, k, r, l) {
      InReachAlike(R, lists, R', lists', ids, c, k);
      assert Sooner(R', lists', c, k, r, l);
    }
  }

  /** Every selected item is attempted in reach of its main item. */
  ghost predicate AllInReach(R: Registry, lists: seq<seq<Ref>>, chosen: seq<Ref>) {
    forall r :: r in chosen ==> exists l :: InReach(R, lists, r, l)
  }

  /** Every companion left out beside its selected main item is below that item, or shares a limb with it
      or with a greater selected item. */
  ghost predicate Led(R: Registry, chosen: seq<Ref>) {
    forall r :: Registered(R, r) && LimbsOf(R, r) != {} && r !in chosen && !IsMain(R, r) && Main(R, r.id) in chosen ==>
      || Priority(R, r) < Priority(R, Main(R, r.id))
      || exists c :: c in chosen && Overlaps(R, c, r) && Outranks(R, c, r)
  }

  lemma BeatsBlocks(R: Registry, lists: seq<seq<Ref>>, c: Ref, r: Ref, l: Limb)
    requires Overlaps(R, c, r) && Beats(R, lists, c, r, l) && InReach(R, lists, r, l)
    requires exists k :: InReach(R, lists, c, k)
    ensures Blocks(R, lists, c, r, l)
  {
    hide LimbsOf;
    if c == Main(R, r.id) {
      var k :| k in LimbsOf(R, c) && Sooner(R, lists, c, k, r, l);
      assert InReach(R, lists, c, k);
    } else if Priority(R, r) < Priority(R, c) {
      var k :| InReach(R, lists, c, k);
      assert Sooner(R, lists, c, k, r, l);
    }
  }

  lemma OutdoneEarnsNot(R: Registry, lists: seq<seq<Ref>>, chosen: seq<Ref>, r: Ref)
    requires Outdone(R, lists, chosen, r) && AllInReach(R, lists, chosen)
    ensures !Earns(R, lists, chosen, r)
  {
    hide Overlaps, LimbsOf;
    forall l | InReach(R, lists, r, l) ensures Blocked(R, lists, chosen, r, l) {
      assert l in LimbsOf(R, r);
      var c :| c in chosen && Overlaps(R, c, r) && Beats(R, lists, c, r, l);
      BeatsBlocks(R, lists, c, r, l);
    }
  }

  lemma BlockedIsBeaten(R: Registry, lists: seq<seq<Ref>>, chosen: seq<Ref>, r: Ref, l: Limb)
    requires Blocked(R, lists, chosen, r, l)
    ensures BeatenAt(R, lists, chosen, r, l)
  {
    hide Overlaps, InReach;
    var c :| c in chosen && Blocks(R, lists, c, r, l);
    assert Beats(R, lists, c, r, l);
  }

  lemma FirmOutdoesMains(R: Registry, lists: seq<seq<Ref>>, chosen: seq<Ref>, r: Ref)
    requires Firm(R, lists, chosen) && Registered(R, r) && r !in chosen && IsMain(R, r)
    ensures Outdone(R, lists, chosen, r)
  {
    forall l | l in LimbsOf(R, r) ensures BeatenAt(R, lists, chosen, r, l) {
      assert InReach(R, lists, r, l);
      BlockedIsBeaten(R, lists, chosen, r, l);
    }
  }

  lemma FirmOutdoesLed(R: Registry, lists: seq<seq<Ref>>, chosen: seq<Ref>, r: Ref)
    requires Firm(R, lists, chosen) && Led(R, chosen)
    requires Registered(R, r) && r !in chosen && !IsMain(R, r) && Main(R, r.id) in chosen
    ensures Outdone(R, lists, chosen, r)
  {
    var main := Main(R, r.id);
    assert Earns(R, lists, chosen, main);
    var k :| InReach(R, lists, main, k);
    forall l | l in LimbsOf(R, r) ensures BeatenAt(R, lists, chosen, r, l) {
      if Priority(R, r) < Priority(R, main) {
        assert Sooner(R, lists, main, k, r, l);
        assert InReach(R, lists, r, l);
        BlockedIsBeaten(R, lists, chosen, r, l);
      } else {
        var c :| c in chosen && Overlaps(R, c, r) && Outranks(R, c, r);
        assert Beats(R, lists, c, r, l);
      }
    }
  }

  lemma ReachStays(R: Registry, R': Registry, lists: seq<seq<Ref>>, chosen: seq<Ref>, c: Ref, k: Limb)
    requires SameShape(R, R') && Favours(R, R', chosen) && MainIsTop(R)
    requires Registered(R, c) && Main(R, c.id) in chosen && Priority(R', c) == Priority(R, c)
    requires InReach(R, lists, c, k)
    ensures InReach(R', lists, c, k)
  {
    var main := Main(R, c.id);
    assert Registered(R, main);
    if !IsMain(R, c) {
      var m :| m in LimbsOf(R, main) && Sooner(R, lists, main, m, c, k);
      assert Priority(R, c) <= Priority(R, main) <= Priority(R', main);
      assert Sooner(R', lists, main, m, c, k);
    }
  }

  lemma BeatsStays(R: Registry, R': Registry, lists: seq<seq<Ref>>, chosen: seq<Ref>, c: Ref, r: Ref, l: Limb)
    requires SameShape(R, R') && Favours(R, R', chosen) && MainIsTop(R)
    requires Registered(R, c) && c in chosen && Main(R, c.id) in chosen && Registered(R, r) && r !in chosen
    requires Beats(R, lists, c, r, l)
    ensures Beats(R', lists, c, r, l)
  {
    assert Priority(R', r) <= Priority(R, r) && Priority(R, c) <= Priority(R', c);
    if c != Main(R, r.id) && Priority(R, r) == Priority(R, c) && Priority(R', r) == Priority(R', c) {
      var k :| InReach(R, lists, c, k) && Sooner(R, lists, c, k, r, l);
      ReachStays(R, R', lists, chosen, c, k);
      assert Sooner(R', lists, c, k, r, l);
    }
  }

  /** An update that favours a selection leaves every item outdone that was, ties or not. */
  lemma FavouringKeepsOutdone(R: Registry, R': Registry, lists: seq<seq<Ref>>, chosen: seq<Ref>, r: Ref)
    requires SameShape(R, R') && Favours(R, R', chosen) && MainIsTop(R)
    requires forall c :: c in chosen ==> Registered(R, c) && Main(R, c.id) in chosen
    requires Registered(R, r) && r !in chosen && Outdone(R, lists, chosen, r)
    ensures Outdone(R', lists, chosen, r)
  {
    hide Beats, Favours;
    assert LimbsOf(R', r) == LimbsOf(R, r);
    forall l | l in LimbsOf(R', r) ensures BeatenAt(R', lists, chosen, r, l) {
      assert BeatenAt(R, lists, chosen, r, l);
      var c :| c in chosen && Overlaps(R, c, r) && Beats(R, lists, c, r, l);
      BeatsStays(R, R', lists, chosen, c, r, l);
      assert Overlaps(R', c, r);
    }
  }

  lemma BelowIsInReach(R: Registry, lists: seq<seq<Ref>>, chosen: seq<Ref>)
    requires Compatible(R, chosen) && CompanionsBelow(R, chosen)
    ensures AllInReach(R, lists, chosen)
  {
    forall r | r in chosen ensures exists l :: InReach(R, lists, r, l) {
      var i :| 0 <= i < |chosen| && chosen[i] == r;
      var main := Main(R, chosen[i].id);
      var j :| 0 <= j < |chosen| && chosen[j] == main;
      var l :| l in LimbsOf(R, chosen[i]);
      var k :| k in LimbsOf(R, chosen[j]);
      assert IsMain(R, r) || Sooner(R, lists, main, k, r, l);
      assert InReach(R, lists, r, l);
    }
  }

  /** A selection settled by the priorities is led. */
  lemma SettledIsLed(R: Registry, chosen: seq<Ref>)
    requires Settles(R, chosen)
    ensures Led(R, chosen) && CompanionsBelow(R, chosen)
  {
    forall r | Registered(R, r) && r !in chosen && LimbsOf(R, r) != {} && !IsMain(R, r) && Main(R, r.id) in chosen
      ensures exists c :: c in chosen && Overlaps(R, c, r) && Outranks(R, c, r)
    {
      assert !Deserves(R, chosen, r);
      var c :| c in chosen && Outranks(R, c, r) && !(LimbsOf(R, c) !! LimbsOf(R, r));
      assert Overlaps(R, c, r);
    }
  }

  /** An item outside waits when it would be attempted without being kept out; only companions of selected
      items and items of groups outside `ids` are asked. */
  ghost predicate NoneWaits(R: Registry, lists: seq<seq<Ref>>, ids: set<nat>, chosen: seq<Ref>) {
    forall r :: Registered(R, r) && r !in chosen && (r.id !in ids || !IsMain(R, r)) ==> !Earns(R, lists, chosen, r)
  }

  lemma SelectedEarns(R: Registry, lists: seq<seq<Ref>>, chosen: seq<Ref>, r: Ref)
    requires Compatible(R, chosen) && r in chosen
    ensures Earns(R, lists, chosen, r) <==> exists l :: InReach(R, lists, r, l)
  {
    var i :| 0 <= i < |chosen| && chosen[i] == r;
    assert Main(R, chosen[i].id) in chosen;
    forall c, l | c in chosen ensures !Blocks(R, lists, c, r, l) {
      ChosenApart(R, chosen, c, r);
    }
  }

  /** Where the main items of the groups `ids` that are not selected are outdone, a selection is firm
      exactly when its items are in reach and none waits outside. */
  lemma FirmExactly(R: Registry, lists: seq<seq<Ref>>, ids: set<nat>, chosen: seq<Ref>)
    requires Compatible(R, chosen) && forall r :: r in chosen ==> Registered(R, r)
    requires forall r :: Registered(R, r) && r !in chosen && r.id in ids && IsMain(R, r) ==>
             Outdone(R, lists, chosen, r)
    ensures Firm(R, lists, chosen) <==> AllInReach(R, lists, chosen) && NoneWaits(R, lists, ids, chosen)
  {
    hide Compatible, Earns, Outdone, InReach;
    forall r | r in chosen ensures Earns(R, lists, chosen, r) <==> exists l :: InReach(R, lists, r, l) {
      SelectedEarns(R, lists, chosen, r);
    }
    if AllInReach(R, lists, chosen) {
      forall r | Registered(R, r) && r !in chosen && r.id in ids && IsMain(R, r) ensures !Earns(R, lists, chosen, r) {
        OutdoneEarnsNot(R, lists, chosen, r);
      }
    }
  }
}
