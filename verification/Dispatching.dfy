/** What a round of the dispatcher and a selection make of every queue, exactly. */
module Dispatching {
  import opened Requests
  import opened Selection
  import opened Merge
  import opened Ordering
  import opened Servos
  import opened ControllerState
  import opened ControllerRuns
  import opened ControllerHandlers
  import opened CommandFlow

  // ----- One round of the dispatcher -----

  /** The queue without its front, if that was due before now. */
  function Remaining(q: seq<Command>, now: int): seq<Command> {
    if q != [] && q[0].time < now then q[1..] else q
  }

  lemma ServedOne(q: seq<Command>, now: int)
    ensures var e := Remaining(q, now);
      if e != [] && e[0].source != 0
      then SentFrom(q, now) == [Target(e[0].time, e[0].id, e[0].position, e[0].gain)]
           && MarkSent(Expire(q, now)) == [e[0].(source := 0)] + e[1..]
      else SentFrom(q, now) == [] && MarkSent(Expire(q, now)) == e
  {
  }

  /** Of every queue a front due before now is dropped; the front that is left, if it has not been sent, is
      sent as it stands and marked; and nothing else changes. */
  lemma DispatchServes(s: State, now: int, servo: Servo)
    requires Inv(s)
    ensures var q, t := s.queues[servo], Dispatch(s, now);
      var e := if q != [] && q[0].time < now then q[1..] else q;
      && t.state == s.(queues := t.state.queues) && |t.state.queues| == SERVO_COUNT
      && if e != [] && e[0].source != 0
         then SentTo(t.effects, servo) == [Target(e[0].time, e[0].id, e[0].position, e[0].gain)]
              && t.state.queues[servo] == [e[0].(source := 0)] + e[1..]
         else SentTo(t.effects, servo) == [] && t.state.queues[servo] == e
  {
    DispatchSends(s, now, servo);
    ServedOne(s.queues[servo], now);
    hide SentTo, SentFrom, MarkSent, Expire, Sent, Emptied, ByHolder, Completions;
  }

  /** What is sent is sent at once, before anything is reported, and nothing is sent in vain. */
  lemma DispatchSendsOnce(s: State, now: int, i: nat)
    requires Sized(s) && i < |Dispatch(s, now).effects|
    ensures var e := Dispatch(s, now).effects[i];
      if e.Waypoints? then i == 0 && e.targets != [] else e.Completed?
  {
    hide Sent, Emptied, ByHolder, SentFrom;
    var sent := Sent(s.queues, now, SERVO_COUNT);
    var done := ByHolder(s.limbAccess, Emptied(s.queues, now, SERVO_COUNT));
    var completions := Completions(done, Ascending(done.Keys));
    var k := if sent == [] then i else i - 1;
    if k >= 0 {
      assert Dispatch(s, now).effects[i] == completions[k];
      assert completions[k] in completions;
      CompletionsOf(done, Ascending(done.Keys), completions[k]);
    }
  }

  // ----- What a selection takes away -----

  /** Group `id` has limb l by an item of the first selection that is not in the second. */
  ghost predicate HeldOnlyIn(R: Registry, these: seq<Ref>, those: seq<Ref>, id: nat, l: Limb) {
    exists r :: r in these && r !in those && r.id == id && l in LimbsOf(R, r)
  }

  /** Some group does. */
  ghost predicate TakenAway(R: Registry, these: seq<Ref>, those: seq<Ref>, l: Limb) {
    exists r :: r in these && r !in those && l in LimbsOf(R, r)
  }

  lemma ClearedExactly(R: Registry, these: seq<Ref>, those: seq<Ref>, queues: seq<seq<Command>>, servo: Servo)
    requires |queues| == SERVO_COUNT
    ensures Cleared(queues, Groups(R, Difference(these, those)))[servo]
         == if TakenAway(R, these, those, LimbForServo(servo)) then [] else queues[servo]
  {
    hide Groups, Difference, LimbsOf, LimbForServo;
    var l := LimbForServo(servo);
    var gone := Difference(these, those);
    var killed := Groups(R, gone);
    if id :| id in killed && l in killed[id] {
      GroupsMention(R, gone, id, l);
      assert TakenAway(R, these, those, l);
    }
    if TakenAway(R, these, those, l) {
      var r :| r in these && r !in those && l in LimbsOf(R, r);
      assert r in gone;
      GroupsMention(R, gone, r.id, l);
    }
  }

  /** A selection empties exactly the queues of the servos whose limb a selected item loses. */
  lemma SelectClears(s: State, servo: Servo)
    requires Ready(s)
    ensures var t := Select(s).state;
      && |t.queues| == SERVO_COUNT
      && t.queues[servo] == if TakenAway(s.requests, s.current, t.current, LimbForServo(servo)) then []
        else s.queues[servo]
  {
    hide Chosen, SortedLists, Holders, WithActive, Cleared, Callbacks, SortRefs;
    var t := Select(s).state;
    ClearedExactly(s.requests, s.current, t.current, s.queues, servo);
  }

  /** And so does a priority update, which when it selects nothing takes nothing away. */
  lemma UpdateClears(s: State, id: nat, ps: seq<real>, servo: Servo)
    requires Inv(s) && FitsRequest(s, id, ps)
    ensures var t := Update(s, id, ps).state;
      && |t.queues| == SERVO_COUNT
      && t.queues[servo] == if TakenAway(s.requests, s.current, t.current, LimbForServo(servo)) then []
        else s.queues[servo]
  {
    hide Select, TakenAway, FirstMax;
    StoredIsReady(s, id, ps);
    if MustReselect(s.requests[id], ps) {
      SelectClears(Stored(s, id, ps), servo);
      StoredTakesTheSame(s, id, ps, Update(s, id, ps).state.current, LimbForServo(servo));
    } else {
      NothingTaken(s.requests, s.current, LimbForServo(servo));
    }
  }

  lemma NothingTaken(R: Registry, current: seq<Ref>, l: Limb)
    ensures !TakenAway(R, current, current, l)
  {
  }

  lemma StoredTakesTheSame(s: State, id: nat, ps: seq<real>, those: seq<Ref>, l: Limb)
    requires FitsRequest(s, id, ps)
    ensures TakenAway(Stored(s, id, ps).requests, s.current, those, l) <==> TakenAway(s.requests, s.current, those, l)
  {
    StoredKeepsLimbs(s, id, ps);
    hide Stored, LimbsOf;
  }

  // ----- Its callbacks -----

  lemma {:induction false} CallsAre(m: map<nat, set<Limb>>, ids: seq<nat>, id: nat, limbs: set<Limb>)
    requires forall i :: i in ids ==> i in m
    ensures Kill(id, limbs) in Kills(m, ids) <==> id in ids && limbs == m[id]
    ensures Start(id, limbs) in Starts(m, ids) <==> id in ids && limbs == m[id]
    ensures Start(id, limbs) !in Kills(m, ids) && Kill(id, limbs) !in Starts(m, ids)
    decreases |ids|
  {
    if ids != [] {
      assert ids == ids[..|ids| - 1] + [ids[|ids| - 1]];
      CallsAre(m, ids[..|ids| - 1], id, limbs);
    }
  }

  /** The limbs are exactly those the group has in the first selection only, and there are some. */
  ghost predicate JustHeldIn(R: Registry, these: seq<Ref>, those: seq<Ref>, id: nat, limbs: set<Limb>) {
    limbs != {} && forall l: Limb :: l in limbs <==> HeldOnlyIn(R, these, those, id, l)
  }

  lemma GroupsExactly(R: Registry, these: seq<Ref>, those: seq<Ref>, id: nat, limbs: set<Limb>)
    requires Exclusive(R, these)
    ensures id in Groups(R, Difference(these, those)) && limbs == Groups(R, Difference(these, those))[id]
       <==> JustHeldIn(R, these, those, id, limbs)
  {
    hide Groups, Difference, LimbsOf;
    var gone := Difference(these, those);
    var m := Groups(R, gone);
    forall l: Limb ensures id in m && l in m[id] <==> HeldOnlyIn(R, these, those, id, l) {
      GroupsMention(R, gone, id, l);
    }
    if id in m {
      GroupsMention(R, gone, id, 0);
      var r :| r in gone && r.id == id;
      var i :| 0 <= i < |these| && these[i] == r;
      var l: Limb :| l in LimbsOf(R, these[i]);
      assert HeldOnlyIn(R, these, those, id, l);
    }
  }

  lemma CallbacksExactly(R: Registry, these: seq<Ref>, those: seq<Ref>, id: nat, limbs: set<Limb>)
    requires Exclusive(R, these) && Exclusive(R, those)
    ensures Kill(id, limbs) in Callbacks(R, these, those) <==> JustHeldIn(R, these, those, id, limbs)
    ensures Start(id, limbs) in Callbacks(R, these, those) <==> JustHeldIn(R, those, these, id, limbs)
  {
    hide Groups, Difference, Kills, Starts, JustHeldIn, Exclusive;
    var killed, started := Groups(R, Difference(these, those)), Groups(R, Difference(those, these));
    CallsAre(killed, Ascending(killed.Keys), id, limbs);
    CallsAre(started, Ascending(started.Keys), id, limbs);
    GroupsExactly(R, these, those, id, limbs);
    GroupsExactly(R, those, these, id, limbs);
  }

  /** A selection kills a group exactly for the limbs its items lose, all at once, and starts it exactly for
      those they gain; an item that stays is neither killed nor started. */
  lemma SelectCalls(s: State, id: nat, limbs: set<Limb>)
    requires Ready(s)
    ensures var t := Select(s);
      && (Kill(id, limbs) in t.effects <==> JustHeldIn(s.requests, s.current, t.state.current, id, limbs))
      && (Start(id, limbs) in t.effects <==> JustHeldIn(s.requests, t.state.current, s.current, id, limbs))
  {
    hide Chosen, SortedLists, Holders, WithActive, Cleared, Callbacks, SortRefs, Exclusive, JustHeldIn;
    SelectionIsApart(s);
    CallbacksExactly(s.requests, s.current, Select(s).state.current, id, limbs);
  }

  lemma SelectionIsApart(s: State)
    requires Ready(s)
    ensures Exclusive(s.requests, s.current) && Exclusive(s.requests, Select(s).state.current)
  {
    SelectionFacts(s);
    var current := SortRefs(SelectedItems(s));
    SortedIsDistinct(current);
    ExclusiveSameItems(s.requests, SelectedItems(s), current);
  }

  lemma {:induction false} CallAt(m: map<nat, set<Limb>>, ids: seq<nat>, i: nat)
    requires (forall id :: id in ids ==> id in m) && i < |ids|
    ensures |Kills(m, ids)| == |Starts(m, ids)| == |ids|
    ensures Kills(m, ids)[i] == Kill(ids[i], m[ids[i]]) && Starts(m, ids)[i] == Start(ids[i], m[ids[i]])
    decreases |ids|
  {
    var front := ids[..|ids| - 1];
    assert ids == front + [ids[|ids| - 1]];
    if |front| > 0 {
      CallAt(m, front, if i < |front| then i else 0);
    }
  }

  /** All kills come before all starts, and both by ascending group. */
  ghost predicate InTurn(a: Effect, b: Effect) {
    || (a.Kill? && b.Start?)
    || (a.Kill? && b.Kill? && a.id < b.id)
    || (a.Start? && b.Start? && a.id < b.id)
  }

  lemma CallIs(R: Registry, these: seq<Ref>, those: seq<Ref>, i: nat)
    requires i < |Callbacks(R, these, those)|
    ensures var killed, started := Groups(R, Difference(these, those)), Groups(R, Difference(those, these));
      var gone, come := Ascending(killed.Keys), Ascending(started.Keys);
      && |Callbacks(R, these, those)| == |gone| + |come|
      && Callbacks(R, these, those)[i]
         == if i < |gone| then Kill(gone[i], killed[gone[i]]) else Start(come[i - |gone|], started[come[i - |gone|]])
  {
    hide Groups, Difference, Kills, Starts;
    var killed, started := Groups(R, Difference(these, those)), Groups(R, Difference(those, these));
    var gone, come := Ascending(killed.Keys), Ascending(started.Keys);
    CallsSize(killed, gone);
    CallsSize(started, come);
    if i < |gone| {
      CallAt(killed, gone, i);
    } else {
      CallAt(started, come, i - |gone|);
    }
  }

  lemma CallsSize(m: map<nat, set<Limb>>, ids: seq<nat>)
    requires forall id :: id in ids ==> id in m
    ensures |Kills(m, ids)| == |Starts(m, ids)| == |ids|
  {
    if ids != [] {
      CallAt(m, ids, 0);
    }
  }

  lemma SelectCallsInTurn(s: State, i: nat, j: nat)
    requires |s.queues| == SERVO_COUNT && i < j < |Select(s).effects|
    ensures InTurn(Select(s).effects[i], Select(s).effects[j])
  {
    hide Chosen, SortedLists, Holders, WithActive, Cleared, Callbacks, SortRefs, Groups, Difference;
    var current := Select(s).state.current;
    assert Select(s).effects == Callbacks(s.requests, s.current, current);
    CallIs(s.requests, s.current, current, i);
    CallIs(s.requests, s.current, current, j);
  }
}
