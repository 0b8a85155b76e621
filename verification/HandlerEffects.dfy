/** What registrations, priority updates and commands change, exactly. */
module HandlerEffects {
  import opened Requests
  import opened Ordering
  import opened Servos
  import opened ControllerState
  import opened ControllerRuns
  import opened ControllerHandlers
  import opened CommandAccounts
  import opened ShortCuts

  // ----- Registration -----

  /** A group is registered with exactly the items proposed, unless its id is 0 or taken, when nothing
      changes; no other item is touched. */
  lemma RegisterAdds(s: State, id: nat, proposal: Proposal, r: Ref)
    requires proposal != []
    ensures var t := Register(s, id, proposal);
      && t.effects == []
      && t.state == s.(requests := t.state.requests, actions := t.state.actions)
      && if id == 0 || id in s.requests then t.state == s
         else if r.id == id then
           && (Registered(t.state.requests, r) <==> r.index < |proposal|)
           && (r.index < |proposal| ==>
                 (Priority(t.state.requests, r), LimbsOf(t.state.requests, r)) == proposal[r.index])
         else
           && (Registered(t.state.requests, r) <==> Registered(s.requests, r))
           && Priority(t.state.requests, r) == Priority(s.requests, r)
           && LimbsOf(t.state.requests, r) == LimbsOf(s.requests, r)
           && Main(t.state.requests, r.id) == Main(s.requests, r.id)
  {
  }

  lemma {:induction false} NeedingInTurn(proposal: Proposal, id: nat, l: Limb, n: nat)
    requires n <= |proposal|
    ensures SortedRefs(Needing(proposal, id, l, n))
    decreases n
  {
    if n > 0 {
      NeedingInTurn(proposal, id, l, n - 1);
      var before := Needing(proposal, id, l, n - 1);
      forall i | 0 <= i < |before| ensures before[i].id == id && before[i].index < n - 1 {
        assert before[i] in before;
      }
    }
  }

  /** Its items go to the ends of the lists of the limbs they need, in their order. */
  lemma RegisterLists(s: State, id: nat, proposal: Proposal, l: nat) returns (more: seq<Ref>)
    requires proposal != [] && id != 0 && id !in s.requests && l < |s.actions|
    ensures var t := Register(s, id, proposal).state;
      && |t.actions| == |s.actions| && t.actions[l] == s.actions[l] + more
      && SortedRefs(more)
      && forall r :: r in more <==> r.id == id && r.index < |proposal| && l in proposal[r.index].1
  {
    NeedingInTurn(proposal, id, l, |proposal|);
    more := Needing(proposal, id, l, |proposal|);
  }

  // ----- Priority updates -----

  /** The priorities given are stored for the group, whose main item is the first of the greatest. */
  lemma StoredIs(s: State, id: nat, ps: seq<real>, r: Ref)
    requires FitsRequest(s, id, ps)
    ensures var t := Stored(s, id, ps);
      && t == s.(requests := t.requests)
      && (Registered(t.requests, r) <==> Registered(s.requests, r))
      && LimbsOf(t.requests, r) == LimbsOf(s.requests, r)
      && Priority(t.requests, r)
        == (if r.id == id && Registered(s.requests, r) then ps[r.index] else Priority(s.requests, r))
      && (r.id != id ==> Main(t.requests, r.id) == Main(s.requests, r.id))
      && var main := Main(t.requests, id).index;
         main < |ps| && forall i :: 0 <= i < |ps| ==> ps[i] <= ps[main] && (i < main ==> ps[i] < ps[main])
  {
  }

  /** The update moves the main item, takes a selected item down or another one up. */
  ghost predicate Disturbs(s: State, id: nat, ps: seq<real>)
    requires FitsRequest(s, id, ps)
  {
    || Main(Stored(s, id, ps).requests, id) != Main(s.requests, id)
    || exists i :: 0 <= i < |ps| && Moves(s, id, ps, i)
  }

  ghost predicate Moves(s: State, id: nat, ps: seq<real>, i: nat)
    requires FitsRequest(s, id, ps) && i < |ps|
  {
    var r := Ref(id, i);
    if r in s.current then ps[i] < Priority(s.requests, r) else Priority(s.requests, r) < ps[i]
  }

  /** Exactly then it selects anew, with the new priorities. */
  lemma UpdateSelectsExactly(s: State, id: nat, ps: seq<real>)
    requires Inv(s) && FitsRequest(s, id, ps)
    ensures Update(s, id, ps)
            == if Disturbs(s, id, ps) then Select(Stored(s, id, ps)) else Outcome(Stored(s, id, ps), [])
  {
    hide Select, WithActive, FirstMax;
    forall i | 0 <= i < |ps| ensures Adverse(s.requests[id], ps, i) <==> Moves(s, id, ps, i) {
      ActiveMeansSelected(s.requests, s.current, Ref(id, i));
    }
    hide Adverse, Moves;
  }

  // ----- Commands -----

  lemma PopLaterKeeps(q: seq<Command>, time: int) returns (k: nat)
    ensures k <= |q| && PopLater(q, time) == q[..k]
    ensures k > 0 ==> q[k - 1].time <= time
    ensures forall i :: k <= i < |q| ==> time < q[i].time
  {
    PopLaterIsPrefix(q, time);
    k := |PopLater(q, time)|;
    forall i | k <= i < |q| ensures time < q[i].time {
      PoppedAreLater(q, time, i);
    }
  }

  /** A command is refused unless it comes from the holder of its servo's limb. Otherwise it goes behind the
      last command that is not later, and those behind that one, all later, make way for it. */
  lemma FilterOne(s: State, c: Command, servo: Servo) returns (k: nat)
    requires Sized(s)
    ensures var q, q' := s.queues[servo], Filter(s, [c]).queues[servo];
      if c.id == servo && s.limbAccess[LimbForServo(servo)] == c.source then
        && k <= |q| && q' == q[..k] + [c]
        && (k > 0 ==> q[k - 1].time <= c.time) && forall i :: k <= i < |q| ==> c.time < q[i].time
      else q' == q
  {
    hide PopLater;
    assert Filter(s, [c][..0]) == s;
    k := PopLaterKeeps(s.queues[servo], c.time);
  }

  /** Commands are filtered one after the other. */
  lemma {:induction false} FilterInTurn(s: State, a: seq<Command>, b: seq<Command>)
    requires Sized(s)
    ensures Filter(s, a + b) == Filter(Filter(s, a), b)
    decreases |b|
  {
    if b == [] {
      assert a + b == a;
    } else {
      assert (a + b)[..|a + b| - 1] == a + b[..|b| - 1];
      FilterInTurn(s, a, b[..|b| - 1]);
    }
  }
}
