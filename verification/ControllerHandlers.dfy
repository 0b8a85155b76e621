/** Every other handler keeps the controller's invariant. */
module ControllerHandlers {
  import opened Requests
  import opened Selection
  import opened Merge
  import opened Ordering
  import opened Servos
  import opened ControllerState
  import opened ControllerRuns

  // ----- Registration -----

  ghost predicate LimbsExist(proposal: Proposal) {
    forall i, l :: 0 <= i < |proposal| && l in proposal[i].1 ==> l < LIMB_COUNT
  }

  /** A registry with one more group: the items of the other groups are the same. */
  lemma RegisterKeepsOthers(s: State, id: nat, proposal: Proposal, r: Ref)
    requires proposal != [] && !Refused(s, id) && r.id != id
    ensures var R, R' := s.requests, Register(s, id, proposal).state.requests;
      && (Registered(R, r) <==> Registered(R', r))
      && Priority(R, r) == Priority(R', r) && LimbsOf(R, r) == LimbsOf(R', r) && Main(R, r.id) == Main(R', r.id)
  {
  }

  lemma RegisterKeepsRegistry(s: State, id: nat, proposal: Proposal)
    requires SoundRegistry(s.requests)
    requires proposal != [] && LimbsExist(proposal) && !Refused(s, id)
    ensures SoundRegistry(Register(s, id, proposal).state.requests)
  {
    var R, R' := s.requests, Register(s, id, proposal).state.requests;
    assert ItemPriorities(NewRequest(proposal)) == Priorities(proposal);
    forall i | i in R'
      ensures SoundRequest(R'[i])
    {
      assert i != id ==> SoundRequest(R[i]);
    }
    forall r, l | Registered(R', r) && l in LimbsOf(R', r)
      ensures l < LIMB_COUNT
    {
      if r.id != id {
        RegisterKeepsOthers(s, id, proposal, r);
      }
    }
  }

  lemma NewItemsNeed(s: State, id: nat, proposal: Proposal, r: Ref, l: Limb)
    requires proposal != [] && !Refused(s, id) && r.id == id
    ensures var R' := Register(s, id, proposal).state.requests;
      Registered(R', r) && l in LimbsOf(R', r) <==> r in Needing(proposal, id, l, |proposal|)
  {
  }

  lemma RegisterKeepsIndex(s: State, id: nat, proposal: Proposal)
    requires Indexed(s.requests, s.actions)
    requires proposal != [] && !Refused(s, id)
    ensures Indexed(Register(s, id, proposal).state.requests, Register(s, id, proposal).state.actions)
  {
    var t := Register(s, id, proposal).state;
    forall l, r | 0 <= l < |t.actions|
      ensures r in t.actions[l] <==> Registered(t.requests, r) && l in LimbsOf(t.requests, r)
    {
      assert r in t.actions[l] <==> r in s.actions[l] || r in Needing(proposal, id, l, |proposal|);
      assert r in s.actions[l] <==> Registered(s.requests, r) && l in LimbsOf(s.requests, r);
      if r.id != id {
        RegisterKeepsOthers(s, id, proposal, r);
      } else {
        NewItemsNeed(s, id, proposal, r, l);
      }
    }
  }

  lemma {:induction false} NeedingIsDistinct(proposal: Proposal, id: nat, l: Limb, n: nat)
    requires n <= |proposal|
    ensures Distinct(Needing(proposal, id, l, n))
  {
    if n > 0 {
      NeedingIsDistinct(proposal, id, l, n - 1);
    }
  }

  lemma RegisterKeepsListedOnce(s: State, id: nat, proposal: Proposal)
    requires Indexed(s.requests, s.actions) && ListedOnce(s.actions)
    requires proposal != [] && !Refused(s, id)
    ensures ListedOnce(Register(s, id, proposal).state.actions)
  {
    forall l | 0 <= l < |s.actions| ensures Distinct(s.actions[l] + Needing(proposal, id, l, |proposal|)) {
      var old', more := s.actions[l], Needing(proposal, id, l, |proposal|);
      NeedingIsDistinct(proposal, id, l, |proposal|);
      forall i, j | 0 <= i < |old'| && 0 <= j < |more| ensures old'[i] != more[j] {
        assert old'[i] in s.actions[l] && more[j] in more;
        assert Registered(s.requests, old'[i]);
      }
    }
  }

  lemma RegisterKeepsSelection(s: State, id: nat, proposal: Proposal)
    requires SoundSelection(s.requests, s.current)
    requires proposal != [] && !Refused(s, id)
    ensures SoundSelection(Register(s, id, proposal).state.requests, s.current)
    ensures forall r :: r in s.current ==> r.id != id
  {
    var R, R' := s.requests, Register(s, id, proposal).state.requests;
    forall r | r in s.current
      ensures r.id != id && Registered(R', r) && LimbsOf(R, r) == LimbsOf(R', r)
    {
      assert Registered(R, r);
      RegisterKeepsOthers(s, id, proposal, r);
    }
    forall i | i in R'
      ensures R'[i] == WithActive(R', s.current)[i]
    {
      if i == id {
        assert !GroupActive(s.current, id);
        assert R'[i].items == WithActive(R', s.current)[i].items;
      } else {
        assert R[i] == WithActive(R, s.current)[i];
      }
    }
    assert R' == WithActive(R', s.current);
  }

  lemma RegisterKeepsReady(s: State, id: nat, proposal: Proposal)
    requires Ready(s) && proposal != [] && LimbsExist(proposal)
    ensures Ready(Register(s, id, proposal).state)
    ensures Inv(s) ==> Inv(Register(s, id, proposal).state)
  {
    if !Refused(s, id) {
      var t := Register(s, id, proposal).state;
      RegisterKeepsRegistry(s, id, proposal);
      RegisterKeepsIndex(s, id, proposal);
      RegisterKeepsListedOnce(s, id, proposal);
      RegisterKeepsSelection(s, id, proposal);
      forall r | r in s.current
        ensures LimbsOf(s.requests, r) == LimbsOf(t.requests, r) && Main(s.requests, r.id) == Main(t.requests, r.id)
      {
        RegisterKeepsOthers(s, id, proposal, r);
      }
      QueuesSameLimbs(s.requests, t.requests, s.current, s.queues);
      if Inv(s) {
        HoldersSameLimbs(s.requests, t.requests, s.current, LIMB_COUNT);
        forall i | 0 <= i < |s.current|
          ensures Main(t.requests, s.current[i].id) in s.current
        {
          assert s.current[i] in s.current;
        }
      }
    }
  }

  // ----- Priority update -----

  ghost predicate FitsRequest(s: State, id: nat, ps: seq<real>) {
    id in s.requests && |ps| == |s.requests[id].items| && ps != []
  }

  /** The state right after the new priorities are stored, before any selection. */
  function Stored(s: State, id: nat, ps: seq<real>): State
    requires id in s.requests && |ps| == |s.requests[id].items| && ps != []
  {
    s.(requests := s.requests[id := Reprioritised(s.requests[id], ps)])
  }

  lemma StoredKeepsLimbs(s: State, id: nat, ps: seq<real>)
    requires FitsRequest(s, id, ps)
    ensures var R, R' := s.requests, Stored(s, id, ps).requests;
      forall r :: (Registered(R, r) <==> Registered(R', r)) && LimbsOf(R, r) == LimbsOf(R', r)
  {
  }

  lemma StoredKeepsRegistry(s: State, id: nat, ps: seq<real>)
    requires SoundRegistry(s.requests) && FitsRequest(s, id, ps)
    ensures SoundRegistry(Stored(s, id, ps).requests)
  {
    var R, R' := s.requests, Stored(s, id, ps).requests;
    StoredKeepsLimbs(s, id, ps);
    assert ItemPriorities(R'[id]) == ps;
    forall i | i in R'
      ensures SoundRequest(R'[i])
    {
      assert SoundRequest(R[i]);
    }
  }

  lemma StoredKeepsSelection(s: State, id: nat, ps: seq<real>)
    requires SoundSelection(s.requests, s.current) && FitsRequest(s, id, ps)
    ensures SoundSelection(Stored(s, id, ps).requests, s.current)
  {
    var R, R' := s.requests, Stored(s, id, ps).requests;
    StoredKeepsLimbs(s, id, ps);
    forall i | i in R'
      ensures R'[i] == WithActive(R', s.current)[i]
    {
      assert R[i] == WithActive(R, s.current)[i];
      assert R'[i].items == WithActive(R', s.current)[i].items;
    }
    assert R' == WithActive(R', s.current);
  }

  lemma StoredIsReady(s: State, id: nat, ps: seq<real>)
    requires Ready(s) && FitsRequest(s, id, ps)
    ensures Ready(Stored(s, id, ps))
  {
    var t := Stored(s, id, ps);
    StoredKeepsLimbs(s, id, ps);
    StoredKeepsRegistry(s, id, ps);
    StoredKeepsSelection(s, id, ps);
    QueuesSameLimbs(s.requests, t.requests, s.current, s.queues);
  }

  lemma UpdateKeepsInv(s: State, id: nat, ps: seq<real>)
    requires Inv(s) && FitsRequest(s, id, ps)
    ensures Inv(Update(s, id, ps).state)
  {
    var t := Stored(s, id, ps);
    StoredIsReady(s, id, ps);
    if MustReselect(s.requests[id], ps) {
      SelectEstablishes(t);
    } else {
      StoredKeepsLimbs(s, id, ps);
      HoldersSameLimbs(s.requests, t.requests, s.current, LIMB_COUNT);
    }
  }

  // ----- Command filter -----

  lemma {:induction false} PopLaterIsPrefix(q: seq<Command>, time: int)
    ensures PopLater(q, time) <= q
    ensures PopLater(q, time) != [] ==> PopLater(q, time)[|PopLater(q, time)| - 1].time <= time
    ensures |PopLater(q, time)| < |q| ==> time < q[|PopLater(q, time)|].time
  {
    if q != [] && time < q[|q| - 1].time {
      PopLaterIsPrefix(q[..|q| - 1], time);
    }
  }

  lemma PushIsSound(q: seq<Command>, c: Command, holder: nat)
    requires SoundQueue(q, c.id, holder) && c.source == holder != 0
    ensures SoundQueue(Push(q, c), c.id, holder)
  {
    PopLaterIsPrefix(q, c.time);
  }

  /** A servo some accepted command was for ends up with commands. */
  lemma {:induction false} FilterFills(s: State, commands: seq<Command>, c: Command)
    requires Sized(s) && c in commands && HasAccess(s, c)
    ensures Filter(s, commands).queues[c.id] != []
    decreases |commands|
  {
    var front, last := commands[..|commands| - 1], commands[|commands| - 1];
    assert commands == front + [last];
    if c in front {
      FilterFills(s, front, c);
    }
  }

  lemma {:induction false} FilterKeepsSound(s: State, commands: seq<Command>)
    requires Inv(s)
    requires forall c :: c in commands && HasAccess(s, c) ==> c.source != 0
    ensures SoundQueues(s.requests, s.current, Filter(s, commands).queues)
    decreases |commands|
  {
    if commands != [] {
      var front, c := commands[..|commands| - 1], commands[|commands| - 1];
      FilterKeepsSound(s, front);
      var q := Filter(s, front).queues[c.id];
      TablesAreInverse(c.id, LimbForServo(c.id));
      if HasAccess(s, c) {
        assert c in commands;
        PushIsSound(q, c, HolderOf(s.requests, s.current, LimbForServo(c.id)));
      }
    }
  }

  /** The filter keeps every queue sound exactly when none of the commands it lets through has
      source 0, that is, when none is sent by "nobody" to a limb that nobody holds. */
  lemma FilterIsSound(s: State, commands: seq<Command>)
    requires Inv(s)
    ensures SoundQueues(s.requests, s.current, Filter(s, commands).queues)
       <==> forall c :: c in commands && HasAccess(s, c) ==> c.source != 0
  {
    if c :| c in commands && HasAccess(s, c) && c.source == 0 {
      TablesAreInverse(c.id, LimbForServo(c.id));
      FilterFills(s, commands, c);
      assert !SoundQueue(Filter(s, commands).queues[c.id], c.id, HolderOf(s.requests, s.current, LimbForServo(c.id)));
    } else {
      FilterKeepsSound(s, commands);
    }
  }

  // ----- Dispatcher -----

  lemma ServedIsSound(q: seq<Command>, servo: nat, holder: nat, now: int)
    requires SoundQueue(q, servo, holder)
    ensures SoundQueue(MarkSent(Expire(q, now)), servo, holder)
  {
  }

  lemma DispatchKeepsInv(s: State, now: int)
    requires Inv(s)
    ensures Inv(Dispatch(s, now).state)
  {
    var t := Dispatch(s, now).state;
    forall i: Servo | i < |t.queues|
      ensures SoundQueue(t.queues[i], i, HolderOf(s.requests, s.current, LimbForServo(i)))
    {
      ServedIsSound(s.queues[i], i, HolderOf(s.requests, s.current, LimbForServo(i)), now);
    }
  }

  ghost predicate RunsEmpty(s: State, servo: Servo, now: int)
    requires Sized(s)
  {
    Expired(s.queues[servo], now) && |s.queues[servo]| == 1
  }

  ghost predicate FrontsOwn(s: State)
    requires Sized(s)
  {
    forall i: Servo :: s.queues[i] != [] ==> s.queues[i][0].id == i
  }

  lemma {:induction false} EmptiedRanEmpty(s: State, now: int, n: nat, servo: Servo)
    requires Sized(s) && n <= SERVO_COUNT
    requires FrontsOwn(s)
    ensures servo in Emptied(s.queues, now, n) <==> servo < n && RunsEmpty(s, servo, now)
  {
    if n > 0 {
      EmptiedRanEmpty(s, now, n - 1, servo);
      var i: Servo := n - 1;
      assert Expired(s.queues[i], now) && Expire(s.queues[i], now) == [] <==> RunsEmpty(s, i, now);
    }
  }

  lemma FrontsAreOwn(s: State)
    requires Inv(s)
    ensures FrontsOwn(s)
  {
    forall i: Servo | s.queues[i] != []
      ensures s.queues[i][0].id == i
    {
      assert SoundQueue(s.queues[i], i, HolderOf(s.requests, s.current, LimbForServo(i)));
    }
  }

  lemma {:induction false} ByHolderGroups(limbAccess: seq<nat>, servos: seq<Servo>)
    requires |limbAccess| == LIMB_COUNT
    ensures var m := ByHolder(limbAccess, servos);
      && (forall id, servo :: id in m ==>
            (servo in m[id] <==> servo in servos && limbAccess[LimbForServo(servo)] == id))
      && (forall servo :: servo in servos ==> limbAccess[LimbForServo(servo)] in m)
      && (forall id :: id in m ==> m[id] != {})
  {
    if servos != [] {
      var front, last := servos[..|servos| - 1], servos[|servos| - 1];
      assert servos == front + [last];
      ByHolderGroups(limbAccess, front);
    }
  }

  lemma {:induction false} CompletionsOf(m: map<nat, set<Servo>>, ids: seq<nat>, e: Effect)
    requires forall id :: id in ids ==> id in m
    ensures e in Completions(m, ids) <==> e.Completed? && e.id in ids && e.servos == m[e.id]
    decreases |ids|
  {
    if ids != [] {
      assert ids == ids[..|ids| - 1] + [ids[|ids| - 1]];
      CompletionsOf(m, ids[..|ids| - 1], e);
    }
  }

  lemma GroupExtent(limbAccess: seq<nat>, emptied: seq<Servo>, id: nat, servos: set<Servo>)
    requires |limbAccess| == LIMB_COUNT
    ensures (id in ByHolder(limbAccess, emptied) && servos == ByHolder(limbAccess, emptied)[id]) <==>
      && servos != {}
      && forall servo: Servo :: servo in servos <==> servo in emptied && limbAccess[LimbForServo(servo)] == id
  {
    var m := ByHolder(limbAccess, emptied);
    ByHolderGroups(limbAccess, emptied);
    if servo :| servo in servos && servo in emptied && limbAccess[LimbForServo(servo)] == id {
      assert id in m;
      assert (forall x :: x in servos <==> x in m[id]) <==> servos == m[id];
    }
  }

  lemma CompletionsByHolder(s: State, now: int, id: nat, servos: set<Servo>)
    requires Sized(s)
    ensures var m := ByHolder(s.limbAccess, Emptied(s.queues, now, SERVO_COUNT));
      Completed(id, servos) in Dispatch(s, now).effects <==> id in m && servos == m[id]
  {
    var m := ByHolder(s.limbAccess, Emptied(s.queues, now, SERVO_COUNT));
    CompletionsOf(m, Ascending(m.Keys), Completed(id, servos));
  }

  /** The servos of the holder `id` that run out of commands at time `now`. */
  ghost predicate RanOutFor(s: State, now: int, id: nat, servos: set<Servo>)
    requires Sized(s)
  {
    forall servo: Servo :: servo in servos <==> RunsEmpty(s, servo, now) && s.limbAccess[LimbForServo(servo)] == id
  }

  lemma CompletionsNameServos(s: State, now: int, id: nat, servos: set<Servo>)
    requires Sized(s) && FrontsOwn(s)
    ensures Completed(id, servos) in Dispatch(s, now).effects <==> servos != {} && RanOutFor(s, now, id, servos)
  {
    forall servo: Servo ensures servo in Emptied(s.queues, now, SERVO_COUNT) <==> RunsEmpty(s, servo, now) {
      EmptiedRanEmpty(s, now, SERVO_COUNT, servo);
    }
    CompletionsByHolder(s, now, id, servos);
    GroupExtent(s.limbAccess, Emptied(s.queues, now, SERVO_COUNT), id, servos);
  }

  lemma RunsEmptyIsHeld(s: State, now: int, servo: Servo)
    requires Inv(s) && RunsEmpty(s, servo, now)
    ensures s.limbAccess[LimbForServo(servo)] in s.requests
  {
    TablesAreInverse(servo, LimbForServo(servo));
    assert SoundQueue(s.queues[servo], servo, HolderOf(s.requests, s.current, LimbForServo(servo)));
    HolderExists(s.requests, s.current, LimbForServo(servo));
  }

  /** The dispatcher reports a completion exactly for each holder some of whose servos have just
      run out of commands, naming exactly those servos; the holder it looks up is always a
      registered group. */
  lemma CompletionsAreForHolders(s: State, now: int, id: nat, servos: set<Servo>)
    requires Inv(s)
    ensures Completed(id, servos) in Dispatch(s, now).effects <==> servos != {} && RanOutFor(s, now, id, servos)
    ensures Completed(id, servos) in Dispatch(s, now).effects ==> id in s.requests
  {
    FrontsAreOwn(s);
    CompletionsNameServos(s, now, id, servos);
    if servos != {} && RanOutFor(s, now, id, servos) {
      var servo :| servo in servos;
      RunsEmptyIsHeld(s, now, servo);
    }
  }
}
