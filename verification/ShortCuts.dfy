/** The short cut of the priority update, which most of the time selects nothing: what selecting afresh
    would change, exactly. */
module ShortCuts {
  import opened Requests
  import opened Selection
  import opened Merge
  import opened Ordering
  import opened Attempts
  import opened FirmSelections
  import opened Servos
  import opened ControllerState
  import opened ControllerRuns
  import opened ControllerHandlers
  import opened ControllerTrace
  import opened ControllerHistory

  /** Of all events only such an update of priorities makes the controller select anew. */
  ghost predicate Selects(s: State, e: Event)
    requires Sized(s) && Allowed(s, e)
  {
    e.ActionPriorities? && MustReselect(s.requests[e.id], e.priorities)
  }

  /** The groups the last selection took into account. */
  ghost function Considered(s: State, e: Event, ids: set<nat>): set<nat>
    requires Sized(s) && Allowed(s, e)
  {
    if Selects(s, e) then s.requests.Keys else ids
  }

  ghost function ConsideredInRun(s: State, es: seq<Event>, ids: set<nat>): set<nat>
    requires CanRun(s, es)
    decreases |es|
  {
    if es == [] then ids else ConsideredInRun(Step(s, es[0]).state, es[1..], Considered(s, es[0], ids))
  }

  /** No main item of the groups `ids` envies the selection. */
  ghost predicate MainsContent(s: State, ids: set<nat>) {
    forall r :: Registered(s.requests, r) && r.id in ids && IsMain(s.requests, r) ==> !Envies(s.requests, s.current, r)
  }

  ghost predicate IsStable(s: State, ids: set<nat>) {
    Stable(s.requests, ids, s.current)
  }

  lemma StableSameItems(R: Registry, R': Registry, ids: set<nat>, chosen: seq<Ref>, chosen': seq<Ref>)
    requires SameItems(R, R') && Stable(R, ids, chosen)
    requires forall r :: r in chosen <==> r in chosen'
    ensures Stable(R', ids, chosen')
  {
    forall r | Registered(R', r) && r.id in ids
      ensures r in chosen' <==> Deserves(R', chosen', r)
    {
      assert Registered(R, r);
      DeservesSameItems(R, chosen, chosen', r);
      assert forall c :: Outranks(R, c, r) <==> Outranks(R', c, r);
    }
  }

  /** A selection made when the priorities settle it is stable for all groups. */
  lemma SelectIsStable(s: State)
    requires Ready(s) && Settled(s.requests)
    ensures Settles(s.requests, SelectedItems(s))
    ensures IsStable(Select(s).state, s.requests.Keys)
  {
    var t := Select(s).state;
    SoundMainIsTop(s.requests);
    SortingKeepsIndex(s.requests, s.actions);
    ChosenIsStable(s.requests, SortedLists(s.requests, s.actions));
    SelectionFacts(s);
    FlagsKeepItems(s.requests, Refs(t.current), Ids(t.current));
    StableSameItems(s.requests, t.requests, s.requests.Keys, SelectedItems(s), t.current);
  }

  lemma ContentSameItems(R: Registry, R': Registry, chosen: seq<Ref>, chosen': seq<Ref>, r: Ref)
    requires SameItems(R, R') && !Envies(R, chosen, r)
    requires forall c :: c in chosen <==> c in chosen'
    ensures !Envies(R', chosen', r)
  {
    if Envies(R', chosen', r) {
      forall c | c in chosen && Priority(R, r) <= Priority(R, c) ensures LimbsOf(R, c) !! LimbsOf(R, r) {
        assert c in chosen';
      }
    }
  }

  /** With ties too, after a selection no item at all is envious. */
  lemma SelectLeavesNoEnvy(s: State)
    requires Ready(s)
    ensures var t := Select(s).state;
      forall r :: Registered(t.requests, r) ==> !Envies(t.requests, t.current, r)
  {
    var t := Select(s).state;
    SelectionFacts(s);
    FlagsKeepItems(s.requests, Refs(t.current), Ids(t.current));
    forall r | Registered(t.requests, r)
      ensures !Envies(t.requests, t.current, r)
    {
      ContentSameItems(s.requests, t.requests, SelectedItems(s), t.current, r);
    }
  }

  lemma ActiveMeansSelected(R: Registry, current: seq<Ref>, r: Ref)
    requires R == WithActive(R, current) && Registered(R, r)
    ensures R[r.id].items[r.index].active <==> r in current
  {
    assert R[r.id] == WithActive(R, current)[r.id];
    assert R[r.id].items[r.index].active <==> r in Refs(current);
  }

  lemma SkippedUpdateMoves(s: State, id: nat, ps: seq<real>, r: Ref)
    requires SoundSelection(s.requests, s.current) && FitsRequest(s, id, ps) && !MustReselect(s.requests[id], ps)
    requires Registered(s.requests, r)
    ensures var R, R' := s.requests, Stored(s, id, ps).requests;
      if r in s.current then Priority(R, r) <= Priority(R', r) else Priority(R', r) <= Priority(R, r)
  {
    if r.id == id {
      ActiveMeansSelected(s.requests, s.current, r);
      hide SoundSelection, WithActive, FirstMax;
      assert !Adverse(s.requests[id], ps, r.index);
    }
  }

  lemma SkippedUpdateKeepsShape(s: State, id: nat, ps: seq<real>)
    requires FitsRequest(s, id, ps) && !MustReselect(s.requests[id], ps)
    ensures SameShape(s.requests, Stored(s, id, ps).requests)
  {
    StoredKeepsLimbs(s, id, ps);
    SkippedUpdateKeepsMains(s, id, ps);
    hide Stored, MustReselect, FitsRequest, LimbsOf, Registered, Main;
  }

  lemma SkippedUpdateKeepsMains(s: State, id: nat, ps: seq<real>)
    requires FitsRequest(s, id, ps) && !MustReselect(s.requests[id], ps)
    ensures forall i :: Main(s.requests, i) == Main(Stored(s, id, ps).requests, i)
  {
  }

  /** When the handler skips the selection, the update favours the current one. */
  lemma SkippedUpdateFavours(s: State, id: nat, ps: seq<real>)
    requires Inv(s) && FitsRequest(s, id, ps) && !MustReselect(s.requests[id], ps)
    ensures SameShape(s.requests, Stored(s, id, ps).requests)
    ensures Favours(s.requests, Stored(s, id, ps).requests, s.current)
  {
    assert SoundSelection(s.requests, s.current) && id in s.requests;
    hide Inv, SoundSelection, SameShape, Stored, MustReselect, Priority, Registered;
    SkippedUpdateKeepsShape(s, id, ps);
    forall r | Registered(s.requests, r)
      ensures if r in s.current then Priority(s.requests, r) <= Priority(Stored(s, id, ps).requests, r)
              else Priority(Stored(s, id, ps).requests, r) <= Priority(s.requests, r)
    {
      SkippedUpdateMoves(s, id, ps, r);
    }
  }

  lemma UpdateKeepsMainsContent(s: State, id: nat, ps: seq<real>, ids: set<nat>)
    requires Inv(s) && FitsRequest(s, id, ps) && MainsContent(s, ids)
    ensures MainsContent(Update(s, id, ps).state, if MustReselect(s.requests[id], ps) then s.requests.Keys else ids)
  {
    var t := Stored(s, id, ps);
    if MustReselect(s.requests[id], ps) {
      StoredIsReady(s, id, ps);
      SelectLeavesNoEnvy(t);
    } else {
      SkippedUpdateFavours(s, id, ps);
      forall r | Registered(t.requests, r) && r.id in ids && IsMain(t.requests, r)
        ensures !Envies(t.requests, s.current, r)
      {
        FavouringKeepsMainsContent(s.requests, t.requests, s.current, r);
      }
    }
  }

  /** A registry that agrees with another on some of its groups. */
  ghost predicate AgreeOn(R: Registry, R': Registry, ids: set<nat>) {
    forall r: Ref :: r.id in ids ==>
      && (Registered(R, r) <==> Registered(R', r))
      && Priority(R, r) == Priority(R', r) && LimbsOf(R, r) == LimbsOf(R', r) && Main(R, r.id) == Main(R', r.id)
  }

  lemma RegisterAgrees(s: State, id: nat, proposal: Proposal, ids: set<nat>)
    requires Sized(s) && proposal != [] && ids <= s.requests.Keys
    ensures AgreeOn(s.requests, Register(s, id, proposal).state.requests, ids)
  {
    if !Refused(s, id) {
      forall r: Ref | r.id in ids
        ensures Registered(s.requests, r) <==> Registered(Register(s, id, proposal).state.requests, r)
        ensures Priority(s.requests, r) == Priority(Register(s, id, proposal).state.requests, r)
        ensures LimbsOf(s.requests, r) == LimbsOf(Register(s, id, proposal).state.requests, r)
        ensures Main(s.requests, r.id) == Main(Register(s, id, proposal).state.requests, r.id)
      {
        RegisterKeepsOthers(s, id, proposal, r);
      }
    }
  }

  lemma MainsContentOnGroups(s: State, R': Registry, ids: set<nat>)
    requires AgreeOn(s.requests, R', ids) && MainsContent(s, ids)
    requires AgreeOn(s.requests, R', Ids(s.current))
    ensures MainsContent(s.(requests := R'), ids)
  {
    forall r | Registered(R', r) && r.id in ids && IsMain(R', r)
      ensures !Envies(R', s.current, r)
    {
      assert Registered(s.requests, r) && !Envies(s.requests, s.current, r);
      if Envies(R', s.current, r) {
        forall c | c in s.current && Priority(s.requests, r) <= Priority(s.requests, c)
          ensures LimbsOf(s.requests, c) !! LimbsOf(s.requests, r)
        {
          var k :| 0 <= k < |s.current| && s.current[k] == c;
          assert GroupActive(s.current, c.id);
        }
      }
    }
  }

  lemma StepKeepsMainsContent(s: State, e: Event, ids: set<nat>)
    requires Inv(s) && Allowed(s, e) && MainsContent(s, ids) && ids <= s.requests.Keys
    ensures MainsContent(Step(s, e).state, Considered(s, e, ids))
  {
    match e
    case RegisterAction(id, proposal) =>
      RegisterAgrees(s, id, proposal, ids);
      forall i | i in Ids(s.current) ensures i in s.requests {
        var k :| 0 <= k < |s.current| && s.current[k].id == i;
        assert s.current[k] in s.current;
      }
      RegisterAgrees(s, id, proposal, Ids(s.current));
      var R' := Register(s, id, proposal).state.requests;
      MainsContentOnGroups(s, R', ids);
      assert MainsContent(s.(requests := R'), ids);
    case ActionPriorities(id, ps) => UpdateKeepsMainsContent(s, id, ps, ids);
    case ServoCommands(commands) =>
    case Every(now) =>
  }

  lemma ConsideredAreKnown(s: State, e: Event, ids: set<nat>)
    requires Inv(s) && Allowed(s, e) && ids <= s.requests.Keys
    ensures Considered(s, e, ids) <= Step(s, e).state.requests.Keys
  {
    StepKeepsGroups(s, e);
  }

  /** Over every run with ties or without, no main item of a group the last selection considered
      envies the current selection, although most priority updates make no selection. */
  lemma {:induction false} RunLeavesMainsContent(s: State, es: seq<Event>, ids: set<nat>)
    requires Inv(s) && CanRun(s, es) && MainsContent(s, ids) && ids <= s.requests.Keys
    ensures MainsContent(Run(s, es).state, ConsideredInRun(s, es, ids))
    decreases |es|
  {
    if es != [] {
      StepKeepsInv(s, es[0]);
      StepKeepsMainsContent(s, es[0], ids);
      ConsideredAreKnown(s, es[0], ids);
      RunLeavesMainsContent(Step(s, es[0]).state, es[1..], Considered(s, es[0], ids));
    }
  }

  /** Whether something held right after the last selection of a run, or else at its start. */
  ghost predicate HeldAtLast(holds: State -> bool, s: State, es: seq<Event>, held: bool)
    requires CanRun(s, es)
    decreases |es|
  {
    if es == [] then held else
      var t := Step(s, es[0]).state;
      HeldAtLast(holds, t, es[1..], if Selects(s, es[0]) then holds(t) else held)
  }

  // ----- Runs whose last selection the priorities settled -----

  ghost predicate IsSettled(s: State) {
    Settled(s.requests)
  }

  lemma SettledSameItems(R: Registry, R': Registry)
    requires SameItems(R, R') && Settled(R)
    ensures Settled(R')
  {
    var chosen :| Settles(R, chosen);
    SettlesSameRegistry(R, R', chosen);
  }

  lemma SettlesSameRegistry(R: Registry, R': Registry, chosen: seq<Ref>)
    requires SameItems(R, R') && Settles(R, chosen)
    ensures Settles(R', chosen)
  {
    CompatibleSameShape(R, R', chosen);
    StableSameItems(R, R', R.Keys, chosen, chosen);
  }

  lemma ReselectionIsStable(s: State)
    requires Ready(s) && IsSettled(Select(s).state)
    ensures IsStable(Select(s).state, s.requests.Keys)
  {
    var t := Select(s).state;
    FlagsKeepItems(s.requests, Refs(t.current), Ids(t.current));
    SettledSameItems(t.requests, s.requests);
    SelectIsStable(s);
  }

  /** Such an update selects in the state with the new priorities. */
  lemma SelectingStepIsSelection(s: State, e: Event)
    requires Inv(s) && Allowed(s, e) && Selects(s, e)
    ensures var t := Stored(s, e.id, e.priorities);
      Ready(t) && |t.queues| == SERVO_COUNT && t.requests.Keys == s.requests.Keys && Step(s, e) == Select(t)
  {
    hide Select;
    StoredIsReady(s, e.id, e.priorities);
  }

  lemma SelectingStepIsStable(s: State, e: Event)
    requires Inv(s) && Allowed(s, e) && Selects(s, e) && IsSettled(Step(s, e).state)
    ensures IsStable(Step(s, e).state, s.requests.Keys)
  {
    hide Inv, Step, Select, Stored, IsSettled, IsStable, Ready;
    SelectingStepIsSelection(s, e);
    ReselectionIsStable(Stored(s, e.id, e.priorities));
  }

  lemma StableOnGroups(R: Registry, R': Registry, ids: set<nat>, chosen: seq<Ref>)
    requires AgreeOn(R, R', ids) && Stable(R, ids, chosen)
    ensures Stable(R', ids, chosen)
  {
    forall r | Registered(R', r) && r.id in ids
      ensures r in chosen <==> Deserves(R', chosen, r)
    {
      assert Registered(R, r);
      forall c | c in chosen
        ensures (Outranks(R, c, r) <==> Outranks(R', c, r)) && LimbsOf(R, c) == LimbsOf(R', c)
      {
      }
      assert Deserves(R, chosen, r) <==> Deserves(R', chosen, r);
    }
  }

  lemma OtherStepKeepsStable(s: State, e: Event, ids: set<nat>)
    requires Inv(s) && Allowed(s, e) && !Selects(s, e) && IsStable(s, ids) && ids <= s.requests.Keys
    ensures IsStable(Step(s, e).state, ids)
  {
    match e
    case RegisterAction(id, proposal) =>
      RegisterAgrees(s, id, proposal, ids);
      StableOnGroups(s.requests, Register(s, id, proposal).state.requests, ids, s.current);
    case ActionPriorities(id, ps) =>
      SkippedUpdateFavours(s, id, ps);
      FavouringKeepsStable(s.requests, Stored(s, id, ps).requests, ids, s.current);
    case ServoCommands(commands) =>
    case Every(now) =>
  }

  /** Over every run, if the priorities settled its last selection, that selection stays stable for the
      groups it considered. */
  lemma {:induction false} RunStaysStable(s: State, es: seq<Event>, ids: set<nat>, settled: bool)
    requires Inv(s) && CanRun(s, es) && ids <= s.requests.Keys
    requires settled ==> IsStable(s, ids)
    ensures HeldAtLast(IsSettled, s, es, settled) ==> IsStable(Run(s, es).state, ConsideredInRun(s, es, ids))
    decreases |es|
  {
    if es != [] {
      var e, t := es[0], Step(s, es[0]).state;
      StepKeepsInv(s, e);
      ConsideredAreKnown(s, e, ids);
      if Selects(s, e) {
        if IsSettled(t) {
          SelectingStepIsStable(s, e);
        }
        RunStaysStable(t, es[1..], s.requests.Keys, IsSettled(t));
      } else {
        if settled {
          OtherStepKeepsStable(s, e, ids);
        }
        RunStaysStable(t, es[1..], ids, settled);
      }
    }
  }

  // ----- Fresh selections -----

  lemma FlagsAreAlike(R: Registry, lists: seq<seq<Ref>>, R': Registry)
    requires SameItems(R, R')
    ensures Alike(R, lists, R', lists, R.Keys)
  {
    hide SameItems;
    forall r: Ref ensures SameItem(R, R', r) && Priority(R, r) == Priority(R', r) {
      SameByItems(R, R', r);
    }
  }

  lemma SameByItems(R: Registry, R': Registry, r: Ref)
    requires SameItems(R, R')
    ensures SameItem(R, R', r) && Priority(R, r) == Priority(R', r)
  {
  }

  /** After a selection, whatever the ties, the selected items are the one firm selection. */
  lemma SelectIsFirm(s: State)
    requires Ready(s)
    ensures Firm(Select(s).state.requests, Select(s).state.actions, Select(s).state.current)
  {
    var t := Select(s).state;
    assert t.actions == SortedLists(s.requests, s.actions);
    assert t.requests.Keys == s.requests.Keys;
    SelectionFacts(s);
    FlagsKeepItems(s.requests, Refs(t.current), Ids(t.current));
    hide Firm, Alike;
    ChosenIsFirm(s.requests, s.actions);
    SortingIsAlike(s.requests, s.actions);
    FirmAlike(s.requests, s.actions, s.requests, t.actions, SelectedItems(s), t.current);
    FlagsAreAlike(s.requests, t.actions, t.requests);
    FirmAlike(s.requests, t.actions, t.requests, t.actions, t.current, t.current);
  }

  lemma {:induction false} SortedRefsUnique(a: seq<Ref>, b: seq<Ref>)
    requires SortedRefs(a) && SortedRefs(b) && forall r :: r in a <==> r in b
    ensures a == b
    decreases |a|
  {
    assert a != [] ==> a[0] in b;
    assert b != [] ==> b[0] in a;
    if a != [] {
      var i :| 0 <= i < |b| && b[i] == a[0];
      var j :| 0 <= j < |a| && a[j] == b[0];
      assert a[0] == b[0];
      forall r ensures r in a[1..] <==> r in b[1..] {
        assert r in a <==> r == a[0] || r in a[1..];
        assert r in b <==> r == b[0] || r in b[1..];
        if r in a[1..] {
          var k :| 0 < k < |a| && a[k] == r;
        }
        if r in b[1..] {
          var k :| 0 < k < |b| && b[k] == r;
        }
      }
      SortedRefsUnique(a[1..], b[1..]);
    }
  }

  /** Selecting afresh changes nothing exactly when the selection is firm. */
  lemma FirmIsFresh(s: State)
    requires Inv(s)
    ensures Select(s).state.current == s.current <==> Firm(s.requests, s.actions, s.current)
    ensures Select(s).state.current == s.current ==> Select(s).state.limbAccess == s.limbAccess
  {
    SelectionFacts(s);
    SelectedHolders(s);
    hide Firm, Alike;
    ChosenIsFirm(s.requests, s.actions);
    if Firm(s.requests, s.actions, s.current) {
      FirmIsUnique(s.requests, s.actions, s.current, SelectedItems(s));
      SortedRefsUnique(s.current, SortRefs(SelectedItems(s)));
    }
    if Select(s).state.current == s.current {
      SelfAlike(s.requests, s.actions);
      FirmAlike(s.requests, s.actions, s.requests, s.actions, SelectedItems(s), s.current);
    }
  }

  lemma SelfAlike(R: Registry, lists: seq<seq<Ref>>)
    ensures Alike(R, lists, R, lists, R.Keys)
  {
    hide Sooner;
  }

  /** A selection made twice is made once. */
  lemma SelectIsIdempotent(s: State)
    requires Ready(s)
    ensures Select(Select(s).state).state.current == Select(s).state.current
    ensures Select(Select(s).state).state.limbAccess == Select(s).state.limbAccess
  {
    hide Firm, Select;
    SelectEstablishes(s);
    SelectIsFirm(s);
    FirmIsFresh(Select(s).state);
  }

  // ----- The short cut -----

  ghost predicate StaysOut(s: State, r: Ref) {
    Outdone(s.requests, s.actions, s.current, r)
  }

  /** The main items of the groups `ids` that are not selected are outdone. */
  ghost predicate MainsOutdone(s: State, ids: set<nat>) {
    && (forall r :: r in s.current ==> r.id in ids)
    && forall r :: Registered(s.requests, r) && r !in s.current && r.id in ids && IsMain(s.requests, r) ==>
      StaysOut(s, r)
  }

  /** So are the companions of selected main items that are not selected. */
  ghost predicate CompanionsOutdone(s: State) {
    forall r :: Registered(s.requests, r) && r !in s.current ==>
      !IsMain(s.requests, r) && Main(s.requests, r.id) in s.current ==> StaysOut(s, r)
  }

  ghost predicate IsLed(s: State) {
    Led(s.requests, s.current)
  }

  lemma SelectOutdoesMains(s: State)
    requires Ready(s)
    ensures MainsOutdone(Select(s).state, s.requests.Keys)
  {
    var t := Select(s).state;
    assert t.requests.Keys == s.requests.Keys;
    SelectIsFirm(s);
    hide Select, Earns, Outdone;
    forall r | Registered(t.requests, r) && r !in t.current && IsMain(t.requests, r) ensures StaysOut(t, r) {
      FirmOutdoesMains(t.requests, t.actions, t.current, r);
    }
    forall r | r in t.current ensures r.id in s.requests.Keys {
      assert Registered(t.requests, r);
    }
  }

  lemma SelectOutdoesLed(s: State)
    requires Ready(s) && IsLed(Select(s).state)
    ensures CompanionsOutdone(Select(s).state)
  {
    var t := Select(s).state;
    SelectIsFirm(s);
    hide Select, Firm, Outdone, Led;
    forall r | Registered(t.requests, r) && r !in t.current && !IsMain(t.requests, r)
      && Main(t.requests, r.id) in t.current
      ensures StaysOut(t, r)
    {
      FirmOutdoesLed(t.requests, t.actions, t.current, r);
    }
  }

  lemma SkippedUpdateKeepsOut(s: State, id: nat, ps: seq<real>, r: Ref)
    requires Inv(s) && FitsRequest(s, id, ps) && !MustReselect(s.requests[id], ps)
    requires Registered(s.requests, r) && r !in s.current && StaysOut(s, r)
    ensures StaysOut(Stored(s, id, ps), r)
  {
    hide Inv, SameShape, Favours, Outdone, MustReselect, MainIsTop, Stored;
    SkippedUpdateFavours(s, id, ps);
    InvHasMains(s);
    FavouringKeepsOutdone(s.requests, Stored(s, id, ps).requests, s.actions, s.current, r);
    StoredKeepsRest(s, id, ps);
  }

  lemma StoredKeepsRest(s: State, id: nat, ps: seq<real>)
    requires FitsRequest(s, id, ps)
    ensures Stored(s, id, ps).actions == s.actions && Stored(s, id, ps).current == s.current
  {
  }

  lemma InvHasMains(s: State)
    requires Inv(s)
    ensures MainIsTop(s.requests)
    ensures forall c :: c in s.current ==> Registered(s.requests, c) && Main(s.requests, c.id) in s.current
  {
    SoundMainIsTop(s.requests);
    forall c | c in s.current ensures Registered(s.requests, c) && Main(s.requests, c.id) in s.current {
      var i :| 0 <= i < |s.current| && s.current[i] == c;
      assert Main(s.requests, s.current[i].id) in s.current;
    }
  }

  lemma AppendKeepsEarlier(rs: seq<Ref>, more: seq<Ref>, c: Ref, r: Ref)
    requires c !in more && r !in more
    ensures Earlier(rs + more, c, r) <==> Earlier(rs, c, r)
  {
    var all := rs + more;
    if i, j :| 0 <= i < j < |all| && all[i] == c && all[j] == r {
      assert rs[i] == c && rs[j] == r;
    }
    if i, j :| 0 <= i < j < |rs| && rs[i] == c && rs[j] == r {
      assert all[i] == c && all[j] == r;
    }
  }

  lemma RegisterIsAlike(s: State, id: nat, proposal: Proposal)
    requires Sized(s) && proposal != []
    ensures var t := Register(s, id, proposal).state;
      Alike(s.requests, s.actions, t.requests, t.actions, s.requests.Keys)
  {
    var t := Register(s, id, proposal).state;
    if !Refused(s, id) {
      forall r: Ref | r.id in s.requests.Keys
        ensures SameItem(s.requests, t.requests, r) && Priority(s.requests, r) == Priority(t.requests, r)
      {
        RegisterKeepsOthers(s, id, proposal, r);
      }
      forall c: Ref, k: Limb, r: Ref, l: Limb | c.id in s.requests.Keys && r.id in s.requests.Keys
        ensures Sooner(s.requests, s.actions, c, k, r, l) <==> Sooner(t.requests, t.actions, c, k, r, l)
      {
        if k < |s.actions| {
          AppendKeepsEarlier(s.actions[k], Needing(proposal, id, k, |proposal|), c, r);
        }
      }
    }
  }

  lemma CurrentIsKnown(s: State)
    requires Inv(s)
    ensures forall c :: c in s.current ==> c.id in s.requests.Keys
  {
    InvHasMains(s);
  }

  /** What an event other than a selection leaves of the items registered. */
  lemma OtherStepKeepsItems(s: State, e: Event)
    requires Inv(s) && Allowed(s, e) && !Selects(s, e)
    ensures var t := Step(s, e).state; t.current == s.current && forall r: Ref :: r.id in s.requests.Keys ==>
      (Registered(s.requests, r) <==> Registered(t.requests, r)) && Main(s.requests, r.id) == Main(t.requests, r.id)
  {
    match e
    case RegisterAction(id, proposal) =>
      RegisterAgrees(s, id, proposal, s.requests.Keys);
    case ActionPriorities(id, ps) =>
      SkippedUpdateKeepsShape(s, id, ps);
    case ServoCommands(commands) =>
    case Every(now) =>
  }

  lemma OtherStepKeepsOut(s: State, e: Event, r: Ref)
    requires Inv(s) && Allowed(s, e) && !Selects(s, e)
    requires Registered(s.requests, r) && r !in s.current && StaysOut(s, r)
    ensures StaysOut(Step(s, e).state, r)
  {
    hide Outdone, Alike;
    match e
    case RegisterAction(id, proposal) =>
      var t := Register(s, id, proposal).state;
      RegisterIsAlike(s, id, proposal);
      CurrentIsKnown(s);
      OutdoneAlike(s.requests, s.actions, t.requests, t.actions, s.requests.Keys, s.current, r);
    case ActionPriorities(id, ps) =>
      SkippedUpdateKeepsOut(s, id, ps, r);
    case ServoCommands(commands) =>
    case Every(now) =>
  }

  lemma OtherStepKeepsOutdone(s: State, e: Event, ids: set<nat>)
    requires Inv(s) && Allowed(s, e) && !Selects(s, e) && ids <= s.requests.Keys
    ensures MainsOutdone(s, ids) ==> MainsOutdone(Step(s, e).state, ids)
    ensures CompanionsOutdone(s) ==> CompanionsOutdone(Step(s, e).state)
  {
    hide Step, Selects, Allowed, StaysOut, Registered, Main, Indexed, SoundQueues, SoundSelection, SoundRegistry;
    var t := Step(s, e).state;
    OtherStepKeepsItems(s, e);
    CurrentIsKnown(s);
    if MainsOutdone(s, ids) {
      forall r | Registered(t.requests, r) && r !in t.current && r.id in ids && IsMain(t.requests, r)
        ensures StaysOut(t, r)
      {
        OtherStepKeepsOut(s, e, r);
      }
    }
    if CompanionsOutdone(s) {
      forall r | Registered(t.requests, r) && r !in t.current && !IsMain(t.requests, r)
        && Main(t.requests, r.id) in t.current
        ensures StaysOut(t, r)
      {
        MainIsInGroup(t.requests, r.id);
        assert r.id in s.requests.Keys;
        OtherStepKeepsOut(s, e, r);
      }
    }
  }

  lemma SelectingStepOutdoes(s: State, e: Event)
    requires Inv(s) && Allowed(s, e) && Selects(s, e)
    ensures MainsOutdone(Step(s, e).state, s.requests.Keys)
    ensures IsLed(Step(s, e).state) ==> CompanionsOutdone(Step(s, e).state)
  {
    hide Step, Select, Stored, MainsOutdone, CompanionsOutdone, IsLed, Indexed, SoundQueues, SoundSelection,
         SoundRegistry;
    SelectingStepIsSelection(s, e);
    SelectOutdoesMains(Stored(s, e.id, e.priorities));
    if IsLed(Step(s, e).state) {
      SelectOutdoesLed(Stored(s, e.id, e.priorities));
    }
  }

  /** Over every run, ties or not, the main items considered by the last selection and left out stay
      outdone, and so do the companions of selected items if that selection was led. */
  lemma {:induction false} RunKeepsOutdone(s: State, es: seq<Event>, ids: set<nat>, led: bool)
    requires Inv(s) && CanRun(s, es) && ids <= s.requests.Keys
    requires MainsOutdone(s, ids) && (led ==> CompanionsOutdone(s))
    ensures var t := Run(s, es).state; Inv(t) && ConsideredInRun(s, es, ids) <= t.requests.Keys
    ensures MainsOutdone(Run(s, es).state, ConsideredInRun(s, es, ids))
    ensures HeldAtLast(IsLed, s, es, led) ==> CompanionsOutdone(Run(s, es).state)
    decreases |es|
  {
    if es != [] {
      var e, t := es[0], Step(s, es[0]).state;
      hide MainsOutdone, CompanionsOutdone, Inv, Step, Selects, IsLed;
      StepKeepsInv(s, e);
      ConsideredAreKnown(s, e, ids);
      if Selects(s, e) {
        SelectingStepOutdoes(s, e);
        RunKeepsOutdone(t, es[1..], s.requests.Keys, IsLed(t));
      } else {
        OtherStepKeepsOutdone(s, e, ids);
        RunKeepsOutdone(t, es[1..], ids, led);
      }
    }
  }

  /** The run from a selection on. */
  lemma RunFromSelection(s: State, es: seq<Event>)
    requires Ready(s) && CanRun(Select(s).state, es)
    ensures var start, t := Select(s).state, Run(Select(s).state, es).state;
      && Inv(t) && MainsOutdone(t, ConsideredInRun(start, es, s.requests.Keys))
      && (HeldAtLast(IsLed, start, es, IsLed(start)) ==> CompanionsOutdone(t))
  {
    var start := Select(s).state;
    assert start.requests.Keys == s.requests.Keys;
    hide Select, Inv, MainsOutdone, CompanionsOutdone, IsLed;
    SelectEstablishes(s);
    SelectOutdoesMains(s);
    if IsLed(start) {
      SelectOutdoesLed(s);
    }
    RunKeepsOutdone(start, es, s.requests.Keys, IsLed(start));
  }

  lemma OutdoneIsFirm(t: State, ids: set<nat>)
    requires Inv(t) && MainsOutdone(t, ids)
    ensures Firm(t.requests, t.actions, t.current) <==>
      AllInReach(t.requests, t.actions, t.current) && NoneWaits(t.requests, t.actions, ids, t.current)
  {
    hide Firm, AllInReach, NoneWaits, Outdone;
    InvHasMains(t);
    FirmExactly(t.requests, t.actions, ids, t.current);
  }

  /** The short cut, exactly: after a selection and any run whatever, with whatever ties, selecting afresh
      changes nothing exactly when every selected item is still in reach of its main item, and neither a
      companion of a selected item nor an item of a group registered since the last selection waits. */
  lemma ShortcutIsExact(s: State, es: seq<Event>)
    requires Ready(s) && CanRun(Select(s).state, es)
    ensures var t := Run(Select(s).state, es).state; var ids := ConsideredInRun(Select(s).state, es, s.requests.Keys);
      Select(t).state.current == t.current <==>
        AllInReach(t.requests, t.actions, t.current) && NoneWaits(t.requests, t.actions, ids, t.current)
  {
    hide Select, MainsOutdone, Firm, AllInReach, NoneWaits;
    RunFromSelection(s, es);
    var t, ids := Run(Select(s).state, es).state, ConsideredInRun(Select(s).state, es, s.requests.Keys);
    OutdoneIsFirm(t, ids);
    FirmIsFresh(t);
  }

  /** The main item of a group is kept out by selected items for every limb it needs. */
  ghost predicate ShutOut(s: State, id: nat) {
    var main := Main(s.requests, id);
    forall l :: l in LimbsOf(s.requests, main) ==> Blocked(s.requests, s.actions, s.current, main, l)
  }

  lemma ShutOutEarnsNot(t: State, id: nat)
    ensures ShutOut(t, id) <==> !Earns(t.requests, t.actions, t.current, Main(t.requests, id))
  {
    var main := Main(t.requests, id);
    forall l ensures InReach(t.requests, t.actions, main, l) <==> l in LimbsOf(t.requests, main) {
    }
    hide InReach, Blocked, LimbsOf;
  }

  lemma NewcomersWait(t: State, ids: set<nat>)
    requires Inv(t) && MainsOutdone(t, ids) && CompanionsOutdone(t) && AllInReach(t.requests, t.actions, t.current)
    ensures NoneWaits(t.requests, t.actions, ids, t.current) <==>
            forall id :: id in t.requests && id !in ids ==> ShutOut(t, id)
  {
    var R, L, X := t.requests, t.actions, t.current;
    hide Outdone, InReach, Blocked, ShutOut;
    forall id ensures ShutOut(t, id) <==> !Earns(R, L, X, Main(R, id)) {
      ShutOutEarnsNot(t, id);
    }
    if forall id :: id in R && id !in ids ==> ShutOut(t, id) {
      forall r | Registered(R, r) && r !in X && (r.id !in ids || !IsMain(R, r)) ensures !Earns(R, L, X, r) {
        if !IsMain(R, r) && Main(R, r.id) in X {
          OutdoneEarnsNot(R, L, X, r);
        } else {
          assert r.id in R;
        }
      }
    }
    if NoneWaits(R, L, ids, X) {
      forall id | id in R && id !in ids ensures ShutOut(t, id) {
        var main := Main(R, id);
        assert main !in X;
        assert !Earns(R, L, X, main) by {
          if Registered(R, main) {
          } else {
            assert LimbsOf(R, main) == {};
          }
        }
      }
    }
  }

  lemma InReachWhenBelow(t: State)
    requires Inv(t) && CompanionsBelow(t.requests, t.current)
    ensures AllInReach(t.requests, t.actions, t.current)
  {
    BelowIsInReach(t.requests, t.actions, t.current);
  }

  /** If the last selection was led and in the end the selected companions are below their main items, only
      groups registered since that selection can make a difference: selecting afresh changes nothing exactly
      when the selected items shut all of them out. */
  lemma LedShortcutIsExact(s: State, es: seq<Event>)
    requires Ready(s) && CanRun(Select(s).state, es)
    requires HeldAtLast(IsLed, Select(s).state, es, IsLed(Select(s).state))
    requires var t := Run(Select(s).state, es).state; CompanionsBelow(t.requests, t.current)
    ensures var t := Run(Select(s).state, es).state; var ids := ConsideredInRun(Select(s).state, es, s.requests.Keys);
      && (Select(t).state.current == t.current <==> forall id :: id in t.requests && id !in ids ==> ShutOut(t, id))
      && (Select(t).state.current == t.current ==> Select(t).state.limbAccess == t.limbAccess)
  {
    var t, ids := Run(Select(s).state, es).state, ConsideredInRun(Select(s).state, es, s.requests.Keys);
    hide Select, Inv, MainsOutdone, CompanionsOutdone, CompanionsBelow, Firm, AllInReach, NoneWaits, ShutOut, IsLed;
    RunFromSelection(s, es);
    InReachWhenBelow(t);
    NewcomersWait(t, ids);
    OutdoneIsFirm(t, ids);
    FirmIsFresh(t);
  }

  /** So when no group was registered since, neither the items selected nor the holders of the limbs
      would change. */
  lemma ShortcutIsSound(s: State, es: seq<Event>)
    requires Ready(s) && CanRun(Select(s).state, es)
    requires HeldAtLast(IsLed, Select(s).state, es, IsLed(Select(s).state))
    requires var t := Run(Select(s).state, es).state;
      CompanionsBelow(t.requests, t.current) && ConsideredInRun(Select(s).state, es, s.requests.Keys) == t.requests.Keys
    ensures var t := Run(Select(s).state, es).state;
      Select(t).state.current == t.current && Select(t).state.limbAccess == t.limbAccess
  {
    LedShortcutIsExact(s, es);
  }

  /** A selection that the priorities settled is led. */
  lemma SettledSelectionIsLed(s: State)
    requires Ready(s) && Settled(s.requests)
    ensures IsLed(Select(s).state) && CompanionsBelow(Select(s).state.requests, Select(s).state.current)
  {
    var t := Select(s).state;
    SelectIsStable(s);
    SelectEstablishes(s);
    SelectionFacts(s);
    FlagsKeepItems(s.requests, Refs(t.current), Ids(t.current));
    CompatibleSameItems(s.requests, SelectedItems(s), t.current);
    hide Select, Settles, Led, CompanionsBelow, Compatible;
    SettlesSameItems(s.requests, SelectedItems(s), t.current);
    SettlesSameRegistry(s.requests, t.requests, t.current);
    SettledIsLed(t.requests, t.current);
  }
}
