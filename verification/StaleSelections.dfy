/** Inputs that leave the selection stale: selecting afresh would change it. */
module StaleSelections {
  import opened Requests
  import opened Attempts
  import opened Servos
  import opened ControllerState
  import opened ControllerRuns
  import opened ControllerHandlers
  import opened ControllerHistory
  import opened ShortCuts

  /** A controller before start-up with one group registered. */
  function Asked(proposal: Proposal): (s: State)
    requires proposal != []
    ensures |s.queues| == SERVO_COUNT
  {
    RegisterAll(Initial([0, 0, 0, 0, 0]), [(1, proposal)])
  }

  /** And after start-up. */
  function Held(proposal: Proposal): State
    requires proposal != []
  {
    Select(Asked(proposal)).state
  }

  lemma RegisterOne(s: State, id: nat, proposal: Proposal)
    requires proposal != []
    ensures RegisterAll(s, [(id, proposal)]) == Register(s, id, proposal).state
  {
    hide Register;
    assert [(id, proposal)][1..] == [];
    assert RegisterAll(Register(s, id, proposal).state, []) == Register(s, id, proposal).state;
  }

  lemma AskedIsReady(proposal: Proposal)
    requires proposal != [] && LimbsExist(proposal)
    ensures Ready(Asked(proposal)) && Asked(proposal).requests == map[1 := NewRequest(proposal)]
  {
    var before := Initial([0, 0, 0, 0, 0]);
    assert before.requests == map[];
    assert Boots([0, 0, 0, 0, 0], [(1, proposal)]);
    hide Ready, Inv, Initial, RegisterAll, Select;
    RegisterOne(before, 1, proposal);
    BootIsReady([0, 0, 0, 0, 0], [(1, proposal)]);
  }

  lemma FirmOfHeld(proposal: Proposal)
    requires proposal != [] && LimbsExist(proposal)
    ensures var t := Held(proposal); Inv(t) && Firm(t.requests, t.actions, t.current)
  {
    hide Asked, Select, Firm, LimbsExist;
    AskedIsReady(proposal);
    SelectEstablishes(Asked(proposal));
    SelectIsFirm(Asked(proposal));
  }

  lemma StaleUnlessFirm(t: State)
    requires Inv(t) && !Firm(t.requests, t.actions, t.current)
    ensures Select(t).state.current != t.current
  {
    hide Firm, Select;
    FirmIsFresh(t);
  }

  lemma HeldHasFlags(proposal: Proposal)
    requires proposal != [] && LimbsExist(proposal)
    ensures Held(proposal).requests == WithActive(Asked(proposal).requests, Held(proposal).current)
  {
    hide Asked;
  }

  // ----- A group registered later -----

  const HEAD_ONLY: Proposal := [(1.0, {HEAD})]
  const HEAD_RATHER: Proposal := [(2.0, {HEAD})]

  /** A group holds the head when a group of greater priority that needs it too is registered. */
  function HeadWanted(): State {
    Register(Held(HEAD_ONLY), 2, HEAD_RATHER).state
  }

  /** The group has one item, of priority p, that needs the head. */
  ghost predicate WantsHead(R: Registry, id: nat, p: real) {
    && id in R && |R[id].items| == 1 && R[id].mainElement == 0
    && R[id].items[0].priority == p && R[id].items[0].limbs == {HEAD}
  }

  lemma FlagsKeepWantsHead(R: Registry, current: seq<Ref>)
    requires R.Keys == {1} && WantsHead(R, 1, 1.0)
    ensures WithActive(R, current).Keys == {1} && WantsHead(WithActive(R, current), 1, 1.0)
  {
  }

  lemma HeldWantsHead()
    ensures Held(HEAD_ONLY).requests.Keys == {1} && WantsHead(Held(HEAD_ONLY).requests, 1, 1.0)
  {
    hide Asked, Held, Ready, WithActive;
    AskedIsReady(HEAD_ONLY);
    HeldHasFlags(HEAD_ONLY);
    FlagsKeepWantsHead(Asked(HEAD_ONLY).requests, Held(HEAD_ONLY).current);
  }

  lemma OnlyOne(s: State)
    requires Inv(s) && s.requests.Keys == {1}
    ensures forall c :: c in s.current ==> c.id == 1
  {
    forall c | c in s.current ensures c.id == 1 {
      assert Registered(s.requests, c);
    }
  }

  lemma Registering(s: State)
    requires s.requests.Keys == {1} && WantsHead(s.requests, 1, 1.0)
    ensures var R := Register(s, 2, HEAD_RATHER).state.requests;
      R.Keys == {1, 2} && WantsHead(R, 1, 1.0) && WantsHead(R, 2, 2.0)
    ensures Register(s, 2, HEAD_RATHER).state.current == s.current
  {
  }

  lemma GreaterEarns(t: State)
    requires t.requests.Keys == {1, 2} && WantsHead(t.requests, 1, 1.0) && WantsHead(t.requests, 2, 2.0)
    requires forall c :: c in t.current ==> c.id == 1
    ensures !Firm(t.requests, t.actions, t.current)
  {
    var r := Ref(2, 0);
    forall c | c in t.current ensures Priority(t.requests, c) <= 1.0 {
      assert c.id == 1;
    }
    assert Registered(t.requests, r) && Priority(t.requests, r) == 2.0 && IsMain(t.requests, r);
    assert InReach(t.requests, t.actions, r, HEAD);
    assert !Blocked(t.requests, t.actions, t.current, r, HEAD) by {
      hide Registered, InReach;
    }
    assert Earns(t.requests, t.actions, t.current, r);
  }

  /** Registering it selects nothing, so the head stays with the lesser group, and a selection made now
      would change that. */
  lemma RegistrationLeavesStale()
    ensures Inv(HeadWanted()) && Select(HeadWanted()).state.current != HeadWanted().current
  {
    hide Held, Select, Firm, WantsHead, Register, Inv, Ready;
    var s := Held(HEAD_ONLY);
    FirmOfHeld(HEAD_ONLY);
    HeldWantsHead();
    OnlyOne(s);
    InvIsReady(s);
    RegisterKeepsReady(s, 2, HEAD_RATHER);
    Registering(s);
    GreaterEarns(HeadWanted());
    StaleUnlessFirm(HeadWanted());
  }

  lemma InvIsReady(s: State)
    requires Inv(s)
    ensures Ready(s) && |s.queues| == SERVO_COUNT
  {
  }

  // ----- Companions as great as their main items -----

  /** One group: a main item of priority p for the right leg and a companion of priority q for the left. */
  function Pair(p: real, q: real): Proposal {
    [(p, {RIGHT_LEG}), (q, {LEFT_LEG})]
  }

  const MAIN: Ref := Ref(1, 0)
  const COMPANION: Ref := Ref(1, 1)

  ghost predicate IsPair(R: Registry, p: real, q: real) {
    && R.Keys == {1} && |R[1].items| == 2 && R[1].mainElement == 0
    && R[1].items[0].priority == p && R[1].items[0].limbs == {RIGHT_LEG}
    && R[1].items[1].priority == q && R[1].items[1].limbs == {LEFT_LEG}
  }

  lemma NewPair(p: real, q: real)
    requires q <= p
    ensures IsPair(map[1 := NewRequest(Pair(p, q))], p, q) && LimbsExist(Pair(p, q))
  {
    var proposal := Pair(p, q);
    assert Priorities(proposal)[0] == p && Priorities(proposal)[1] == q;
    assert FirstMax(Priorities(proposal)) == 0;
  }

  lemma FlagsKeepPair(R: Registry, current: seq<Ref>, p: real, q: real)
    requires IsPair(R, p, q)
    ensures IsPair(WithActive(R, current), p, q)
  {
  }

  lemma PairHeld(p: real, q: real)
    requires q <= p
    ensures var t := Held(Pair(p, q)); Inv(t) && IsPair(t.requests, p, q) && Firm(t.requests, t.actions, t.current)
  {
    hide Asked, Held, Firm, Inv, Ready, IsPair, WithActive, NewRequest, LimbsExist;
    var proposal := Pair(p, q);
    NewPair(p, q);
    FirmOfHeld(proposal);
    AskedIsReady(proposal);
    HeldHasFlags(proposal);
    FlagsKeepPair(Asked(proposal).requests, Held(proposal).current, p, q);
  }

  /** The main item is selected, and the companion exactly if it is less. */
  lemma FirmPair(t: State, p: real, q: real)
    requires q <= p && IsPair(t.requests, p, q) && Firm(t.requests, t.actions, t.current)
    ensures MAIN in t.current && (COMPANION in t.current <==> q < p)
  {
    var R := t.requests;
    assert Registered(R, MAIN) && IsMain(R, MAIN) && LimbsOf(R, MAIN) == {RIGHT_LEG} && Priority(R, MAIN) == p;
    assert Registered(R, COMPANION) && !IsMain(R, COMPANION)
           && LimbsOf(R, COMPANION) == {LEFT_LEG} && Priority(R, COMPANION) == q;
    assert forall c :: c in t.current ==> c == MAIN || c == COMPANION;
    assert InReach(R, t.actions, MAIN, RIGHT_LEG) && !Blocked(R, t.actions, t.current, MAIN, RIGHT_LEG);
    assert Earns(R, t.actions, t.current, MAIN);
    assert InReach(R, t.actions, COMPANION, LEFT_LEG) <==> q < p;
    assert !Blocked(R, t.actions, t.current, COMPANION, LEFT_LEG);
    assert forall l :: InReach(R, t.actions, COMPANION, l) ==> l == LEFT_LEG;
  }

  /** New priorities that neither move the main item below nor a selected companion down, nor one that is
      not selected up, select nothing. */
  lemma PairIsStored(s: State, p: real, q: real, p': real, q': real)
    requires Inv(s) && IsPair(s.requests, p, q) && MAIN in s.current && p <= p' && q' <= p'
    requires if COMPANION in s.current then q <= q' else q' <= q
    ensures FitsRequest(s, 1, [p', q']) && Update(s, 1, [p', q']) == Outcome(Stored(s, 1, [p', q']), [])
    ensures var t := Stored(s, 1, [p', q']); Inv(t) && IsPair(t.requests, p', q') && t.current == s.current
  {
    hide Inv, Update, Stored;
    InvIsReady(s);
    PairIsActive(s, p, q);
    PairIsSkipped(s.requests[1], p', q');
    SkippedIsStored(s, 1, [p', q']);
    UpdateKeepsInv(s, 1, [p', q']);
    PairAfter(s, p, q, p', q');
  }

  lemma PairIsActive(s: State, p: real, q: real)
    requires Inv(s) && IsPair(s.requests, p, q)
    ensures s.requests[1].items[0].active <==> MAIN in s.current
    ensures s.requests[1].items[1].active <==> COMPANION in s.current
  {
    hide WithActive;
    ActiveMeansSelected(s.requests, s.current, MAIN);
    ActiveMeansSelected(s.requests, s.current, COMPANION);
  }

  lemma PairIsSkipped(r: Request, p': real, q': real)
    requires |r.items| == 2 && r.mainElement == 0 && r.items[0].active && q' <= p' && r.items[0].priority <= p'
    requires if r.items[1].active then r.items[1].priority <= q' else q' <= r.items[1].priority
    ensures !MustReselect(r, [p', q'])
  {
    assert FirstMax([p', q']) == 0;
  }

  lemma SkippedIsStored(s: State, id: nat, ps: seq<real>)
    requires |s.queues| == SERVO_COUNT && FitsRequest(s, id, ps) && !MustReselect(s.requests[id], ps)
    ensures Update(s, id, ps) == Outcome(Stored(s, id, ps), [])
  {
  }

  lemma PairAfter(s: State, p: real, q: real, p': real, q': real)
    requires IsPair(s.requests, p, q) && q' <= p'
    ensures var t := Stored(s, 1, [p', q']); IsPair(t.requests, p', q') && t.current == s.current
  {
    assert FirstMax([p', q']) == 0;
  }

  /** A companion as great as its main item is attempted too soon and left out; when the main item rises
      nothing is selected, although the companion would be now. */
  lemma TiedCompanionWaits()
    ensures var s := Held(Pair(1.0, 1.0)); var t := Update(s, 1, [2.0, 1.0]).state;
      Inv(t) && Select(t).state.current != t.current
  {
    var s := Held(Pair(1.0, 1.0));
    hide Held, Firm, Inv, Update, Stored, Select, IsPair;
    PairHeld(1.0, 1.0);
    FirmPair(s, 1.0, 1.0);
    PairIsStored(s, 1.0, 1.0, 2.0, 1.0);
    var t := Stored(s, 1, [2.0, 1.0]);
    if Firm(t.requests, t.actions, t.current) {
      FirmPair(t, 2.0, 1.0);
    }
    StaleUnlessFirm(t);
  }

  /** A selected companion that rises to its main item's priority keeps its place, although it would lose
      it in a selection. */
  lemma RisenCompanionStays()
    ensures var s := Held(Pair(2.0, 1.0)); var t := Update(s, 1, [2.0, 2.0]).state;
      Inv(t) && Select(t).state.current != t.current
  {
    var s := Held(Pair(2.0, 1.0));
    hide Held, Firm, Inv, Update, Stored, Select, IsPair;
    PairHeld(2.0, 1.0);
    FirmPair(s, 2.0, 1.0);
    PairIsStored(s, 2.0, 1.0, 2.0, 2.0);
    var t := Stored(s, 1, [2.0, 2.0]);
    if Firm(t.requests, t.actions, t.current) {
      FirmPair(t, 2.0, 2.0);
    }
    StaleUnlessFirm(t);
  }
}
