/** The account of all commands: what becomes of every one that was accepted. */
module CommandAccounts {
  import opened Servos
  import opened ControllerState
  import opened ControllerRuns
  import opened ControllerHandlers
  import opened CommandFlow
  import opened Dispatching
  import opened ControllerHistory

  /** Why a command that waited is neither sent nor waits any longer. */
  datatype Loss =
    | Expired(target: Target, now: int)
    | Replaced(target: Target, instead: Command)
    | Killed(target: Target)

  /** It was due before a round of the dispatcher in which it stood in front; a command for an earlier time
      was accepted; or the group that sent it lost the limb. */
  ghost predicate Justified(s: State, e: Event, servo: Servo, loss: Loss)
    requires Inv(s) && Allowed(s, e)
  {
    match loss
    case Expired(t, now) =>
      && e == Every(now) && t.time < now
      && s.queues[servo] != []
        && s.queues[servo][0] == Command(s.queues[servo][0].source, t.time, t.id, t.position, t.gain)
    case Replaced(t, c) =>
      && e.ServoCommands? && c in e.commands && c.id == servo && c.time < t.time
      && s.limbAccess[LimbForServo(servo)] == c.source
    case Killed(t) =>
      e.ActionPriorities? && TakenAway(s.requests, s.current, Step(s, e).state.current, LimbForServo(servo))
  }

  function LostTargets(losses: seq<Loss>): (ts: seq<Target>)
    ensures |ts| == |losses| && forall i :: 0 <= i < |ts| ==> ts[i] == losses[i].target
  {
    seq(|losses|, i requires 0 <= i < |losses| => losses[i].target)
  }

  lemma LostTogether(a: seq<Loss>, b: seq<Loss>)
    ensures LostTargets(a + b) == LostTargets(a) + LostTargets(b)
  {
  }

  /** Everything that waited or was accepted was sent, waits still or was lost. */
  ghost predicate Balances(before: seq<Target>, accepted: seq<Target>, sent: seq<Target>, after: seq<Target>,
                           losses: seq<Loss>) {
    multiset(before) + multiset(accepted) == multiset(sent) + multiset(after) + multiset(LostTargets(losses))
  }

  lemma AccountsJoin(before: seq<Target>, accepted: seq<Target>, sent: seq<Target>, middle: seq<Target>,
                     losses: seq<Loss>,
                     accepted': seq<Target>, sent': seq<Target>, after: seq<Target>, losses': seq<Loss>)
    requires Balances(before, accepted, sent, middle, losses) && Balances(middle, accepted', sent', after, losses')
    ensures Balances(before, accepted + accepted', sent + sent', after, losses + losses')
  {
    hide LostTargets;
    LostTogether(losses, losses');
    MultisetsJoin(multiset(before), multiset(accepted), multiset(sent), multiset(middle), multiset(LostTargets(losses)),
                  multiset(accepted'), multiset(sent'), multiset(after), multiset(LostTargets(losses')));
    assert multiset(accepted + accepted') == multiset(accepted) + multiset(accepted');
    assert multiset(sent + sent') == multiset(sent) + multiset(sent');
    assert multiset(LostTargets(losses) + LostTargets(losses'))
           == multiset(LostTargets(losses)) + multiset(LostTargets(losses'));
  }

  lemma MultisetsJoin<T(!new)>(b: multiset<T>, a: multiset<T>, s: multiset<T>, m: multiset<T>, l: multiset<T>,
                               a': multiset<T>, s': multiset<T>, e: multiset<T>, l': multiset<T>)
    requires b + a == s + m + l && m + a' == s' + e + l'
    ensures b + (a + a') == (s + s') + e + (l + l')
  {
    forall t: T ensures (b + (a + a'))[t] == ((s + s') + e + (l + l'))[t] {
      assert (b + a)[t] == (s + m + l)[t] && (m + a')[t] == (s' + e + l')[t];
    }
  }

  // ----- One command pushed -----

  lemma {:induction false} PoppedAreLater(q: seq<Command>, time: int, i: nat)
    requires |PopLater(q, time)| <= i < |q|
    ensures time < q[i].time
  {
    if i < |q| - 1 {
      PoppedAreLater(q[..|q| - 1], time, i);
    }
  }

  function ReplacedBy(ts: seq<Target>, c: Command): (losses: seq<Loss>)
    ensures LostTargets(losses) == ts
    ensures forall x :: x in losses ==> x.Replaced? && x.instead == c && x.target in ts
  {
    seq(|ts|, i requires 0 <= i < |ts| => Replaced(ts[i], c))
  }

  lemma WaitingPoppedAreLater(q: seq<Command>, time: int, i: nat)
    requires |Waiting(PopLater(q, time))| <= i < |Waiting(q)|
    ensures PopLater(q, time) <= q && time < Waiting(q)[i].time
  {
    PopLaterIsPrefix(q, time);
    var k := if q[0].source == 0 then i + 1 else i;
    assert Waiting(q)[i] == TargetOf(q[k]);
    PoppedAreLater(q, time, k);
  }

  lemma PushAccounts(q: seq<Command>, c: Command) returns (losses: seq<Loss>)
    requires c.source != 0
    ensures Balances(Waiting(q), [TargetOf(c)], [], Waiting(Push(q, c)), losses)
    ensures forall x :: x in losses ==> x.Replaced? && x.instead == c && c.time < x.target.time
  {
    hide Waiting, PopLater, TargetOf;
    var kept := PopLater(q, c.time);
    PopLaterIsPrefix(q, c.time);
    WaitingOfPrefix(q, kept);
    WaitingOfPushed(kept, c);
    var popped := Waiting(q)[|Waiting(kept)|..];
    losses := ReplacedBy(popped, c);
    assert Waiting(q) == Waiting(kept) + popped;
    forall x | x in losses ensures c.time < x.target.time {
      var k :| 0 <= k < |popped| && popped[k] == x.target;
      WaitingPoppedAreLater(q, c.time, |Waiting(kept)| + k);
    }
  }

  // ----- One event -----

  lemma {:induction false} FilterAccounts(s: State, commands: seq<Command>, servo: Servo) returns (losses: seq<Loss>)
    requires Sized(s) && forall c :: c in commands && HasAccess(s, c) ==> c.source != 0
    ensures Balances(Waiting(s.queues[servo]), Accepted(s, commands, servo), [],
            Waiting(Filter(s, commands).queues[servo]), losses)
    ensures forall x :: x in losses ==>
      x.Replaced? && x.instead in commands && x.instead.id == servo
        && HasAccess(s, x.instead) && x.instead.time < x.target.time
    decreases |commands|
  {
    hide Waiting, Push, HasAccess, TargetOf, Balances;
    if commands == [] {
      losses := [];
      assert Accepted(s, commands, servo) == [] && Filter(s, commands) == s;
      NothingHappens(Waiting(s.queues[servo]));
    } else {
      var front, c := commands[..|commands| - 1], commands[|commands| - 1];
      assert commands == front + [c];
      losses := FilterAccounts(s, front, servo);
      if c.id == servo && HasAccess(s, c) {
        var q := Filter(s, front).queues[servo];
        var more := PushAccounts(q, c);
        AccountsJoin(Waiting(s.queues[servo]), Accepted(s, front, servo), [], Waiting(q), losses,
                     [TargetOf(c)], [], Waiting(Push(q, c)), more);
        losses := losses + more;
        var none: seq<Target> := [];
        assert none + none == none;
        assert Accepted(s, commands, servo) == Accepted(s, front, servo) + [TargetOf(c)];
        assert Filter(s, commands).queues[servo] == Push(q, c);
      } else {
        assert Accepted(s, commands, servo) == Accepted(s, front, servo) + [] == Accepted(s, front, servo);
        assert Filter(s, commands).queues[servo] == Filter(s, front).queues[servo];
      }
    }
  }

  lemma NothingHappens(waiting: seq<Target>)
    ensures Balances(waiting, [], [], waiting, [])
  {
  }

  /** What waits in a queue that is served: first what is dropped unsent, then what is sent, then the rest. */
  lemma ServedInOrder(q: seq<Command>, servo: nat, holder: nat, now: int)
    requires SoundQueue(q, servo, holder)
    ensures Waiting(q) == (if q != [] && q[0].time < now && q[0].source != 0 then [TargetOf(q[0])] else [])
                          + (SentFrom(q, now) + Waiting(MarkSent(Expire(q, now))))
  {
    var e := Expire(q, now);
    hide SoundQueue;
    OneMarked(e);
    OneExpired(q, servo, holder, now);
  }

  lemma OneMarked(e: seq<Command>)
    ensures Waiting(e) == (if FrontWaits(e) then [TargetOf(e[0])] else []) + Waiting(MarkSent(e))
  {
    if FrontWaits(e) {
      assert MarkSent(e)[1..] == e[1..];
      assert Targets(e) == [TargetOf(e[0])] + Targets(e[1..]);
    } else {
      assert Waiting(e) == [] + Waiting(e);
    }
  }

  lemma OneExpired(q: seq<Command>, servo: nat, holder: nat, now: int)
    requires SoundQueue(q, servo, holder)
    ensures Waiting(q) == (if q != [] && q[0].time < now && q[0].source != 0 then [TargetOf(q[0])] else [])
                          + Waiting(Expire(q, now))
  {
    if q != [] && q[0].time < now {
      assert Targets(q) == [TargetOf(q[0])] + Targets(q[1..]);
      assert q[1..] != [] ==> q[1..][0] == q[1];
    } else {
      assert Waiting(q) == [] + Waiting(q);
    }
  }

  lemma ServeAccounts(q: seq<Command>, servo: nat, holder: nat, now: int) returns (losses: seq<Loss>)
    requires SoundQueue(q, servo, holder)
    ensures Balances(Waiting(q), [], SentFrom(q, now), Waiting(MarkSent(Expire(q, now))), losses)
    ensures forall x :: x in losses ==>
      x.Expired? && x.now == now && q != [] && q[0].time < now && x.target == TargetOf(q[0])
  {
    hide Waiting, SentFrom, MarkSent, Expire, TargetOf, SoundQueue;
    ServedInOrder(q, servo, holder, now);
    if q != [] && q[0].time < now && q[0].source != 0 {
      losses := [Expired(TargetOf(q[0]), now)];
      assert LostTargets(losses) == [TargetOf(q[0])];
    } else {
      losses := [];
      assert LostTargets(losses) == [];
    }
    var sent, after := SentFrom(q, now), Waiting(MarkSent(Expire(q, now)));
    assert multiset(LostTargets(losses) + (sent + after))
        == multiset(LostTargets(losses)) + (multiset(sent) + multiset(after));
  }

  function AllKilled(ts: seq<Target>): (losses: seq<Loss>)
    ensures LostTargets(losses) == ts && forall x :: x in losses ==> x.Killed?
  {
    seq(|ts|, i requires 0 <= i < |ts| => Killed(ts[i]))
  }

  lemma AllAreKilled(waiting: seq<Target>) returns (losses: seq<Loss>)
    ensures Balances(waiting, [], [], [], losses) && forall x :: x in losses ==> x.Killed?
  {
    losses := AllKilled(waiting);
  }

  lemma UpdateAccounts(s: State, id: nat, ps: seq<real>, servo: Servo) returns (losses: seq<Loss>)
    requires Inv(s) && FitsRequest(s, id, ps)
    ensures var t := Update(s, id, ps);
      && |t.state.queues| == SERVO_COUNT
      && Balances(Waiting(s.queues[servo]), [], SentTo(t.effects, servo), Waiting(t.state.queues[servo]), losses)
      && forall x :: x in losses ==>
           x.Killed? && TakenAway(s.requests, s.current, t.state.current, LimbForServo(servo))
  {
    hide Update, TakenAway, Balances, MustReselect, LimbForServo, SentTo;
    UpdateClears(s, id, ps, servo);
    UpdateFlows(s, id, ps, servo);
    if TakenAway(s.requests, s.current, Update(s, id, ps).state.current, LimbForServo(servo)) {
      losses := AllAreKilled(Waiting(s.queues[servo]));
    } else {
      losses := [];
      NothingHappens(Waiting(s.queues[servo]));
    }
  }

  lemma DispatchAccounts(s: State, now: int, servo: Servo) returns (losses: seq<Loss>)
    requires Inv(s)
    ensures var t := Dispatch(s, now);
      && Balances(Waiting(s.queues[servo]), [], SentTo(t.effects, servo), Waiting(t.state.queues[servo]), losses)
      && forall x :: x in losses ==>
           x.Expired? && x.now == now && s.queues[servo] != [] && s.queues[servo][0].time < now
           && x.target == TargetOf(s.queues[servo][0])
  {
    hide Balances, SentFrom, MarkSent, Expire, Waiting, TargetOf, SentTo, LimbForServo, HolderOf;
    DispatchSends(s, now, servo);
    var q, holder := s.queues[servo], HolderOf(s.requests, s.current, LimbForServo(servo));
    assert SoundQueue(q, servo, holder);
    losses := ServeAccounts(q, servo, holder, now);
  }

  /** In one event everything that waited for a servo or was accepted for it is sent, waits still, or is
      lost for a reason. */
  lemma StepAccounts(s: State, e: Event, servo: Servo) returns (losses: seq<Loss>)
    requires Inv(s) && Allowed(s, e)
    ensures Balances(Waiting(s.queues[servo]), AcceptedBy(s, e, servo), SentTo(Step(s, e).effects, servo),
                     Waiting(Step(s, e).state.queues[servo]), losses)
    ensures forall x :: x in losses ==> Justified(s, e, servo, x)
  {
    hide Balances, Update, Dispatch, Filter, Accepted, Waiting, TakenAway, LimbForServo;
    match e
    case RegisterAction(id, proposal) =>
      losses := [];
      RegisterFlows(s, id, proposal, servo);
      NothingHappens(Waiting(s.queues[servo]));
    case ActionPriorities(id, ps) => losses := UpdateAccounts(s, id, ps, servo);
    case ServoCommands(commands) => losses := FilterAccounts(s, commands, servo);
    case Every(now) => losses := DispatchAccounts(s, now, servo);
  }

  // ----- Whole runs -----

  ghost predicate JustifiedInRun(s: State, es: seq<Event>, servo: Servo, loss: Loss)
    requires Inv(s) && CanRun(s, es)
    decreases |es|
  {
    es != [] &&
    (Justified(s, es[0], servo, loss)
     || (StepKeepsInv(s, es[0]); JustifiedInRun(Step(s, es[0]).state, es[1..], servo, loss)))
  }

  /** Over every run every command accepted for a servo is sent, waits still, or was lost for a reason; and
      none is in the account twice. */
  lemma {:induction false} RunAccounts(s: State, es: seq<Event>, servo: Servo) returns (losses: seq<Loss>)
    requires Inv(s) && CanRun(s, es)
    ensures Balances(Waiting(s.queues[servo]), AcceptedInRun(s, es, servo), SentTo(Run(s, es).effects, servo),
                     Waiting(Run(s, es).state.queues[servo]), losses)
    ensures forall x :: x in losses ==> JustifiedInRun(s, es, servo, x)
    decreases |es|
  {
    hide Balances, Justified, Waiting, SentTo, AcceptedBy, Step, Allowed;
    if es == [] {
      losses := [];
      NothingSent(servo);
      NothingHappens(Waiting(s.queues[servo]));
    } else {
      var first := Step(s, es[0]);
      var rest := Run(first.state, es[1..]);
      StepKeepsInv(s, es[0]);
      var now := StepAccounts(s, es[0], servo);
      var later := RunAccounts(first.state, es[1..], servo);
      SentToAppend(first.effects, rest.effects, servo);
      AccountsJoin(Waiting(s.queues[servo]), AcceptedBy(s, es[0], servo), SentTo(first.effects, servo),
                   Waiting(first.state.queues[servo]), now, AcceptedInRun(first.state, es[1..], servo),
                   SentTo(rest.effects, servo), Waiting(rest.state.queues[servo]), later);
      losses := now + later;
    }
  }

  lemma NothingSent(servo: Servo)
    ensures SentTo([], servo) == []
  {
  }
}
