/** Commands on their way through one servo's queue. */
module CommandFlow {
  import opened Requests
  import opened Ordering
  import opened Servos
  import opened ControllerState
  import opened ControllerRuns
  import opened ControllerHandlers

  // ----- Subsequences -----

  /** `a` is `b` with some elements left out, the rest in the same order. */
  ghost predicate Sub<T(!new)>(a: seq<T>, b: seq<T>)
    decreases |b|
  {
    a == [] || (b != [] &&
      (Sub(a, b[..|b| - 1]) || (a[|a| - 1] == b[|b| - 1] && Sub(a[..|a| - 1], b[..|b| - 1]))))
  }

  lemma SubOne<T(!new)>(a: seq<T>, b: seq<T>, x: T)
    requires Sub(a, b)
    ensures Sub(a, b + [x]) && Sub(a + [x], b + [x])
  {
    assert (a + [x])[..|a|] == a && (b + [x])[..|b|] == b;
  }

  lemma {:induction false} SubAppend<T(!new)>(a: seq<T>, b: seq<T>, c: seq<T>)
    requires Sub(a, b)
    ensures Sub(a + c, b + c) && Sub(a, b + c)
    decreases |c|
  {
    if c == [] {
      assert a + c == a && b + c == b;
    } else {
      var front, x := c[..|c| - 1], c[|c| - 1];
      SubAppend(a, b, front);
      SubOne(a + front, b + front, x);
      SubOne(a, b + front, x);
      assert (a + front) + [x] == a + c && (b + front) + [x] == b + c;
    }
  }

  lemma {:induction false} SubPrepend<T(!new)>(c: seq<T>, a: seq<T>, b: seq<T>)
    requires Sub(a, b)
    ensures Sub(c + a, c + b)
    decreases |b|
  {
    if a == [] {
      SubReflexive(c);
      SubAppend(c, c, b);
      assert c + a == c;
    } else {
      var bFront, x := b[..|b| - 1], b[|b| - 1];
      assert (c + b)[..|c + b| - 1] == c + bFront;
      if Sub(a, bFront) {
        SubPrepend(c, a, bFront);
      } else {
        SubPrepend(c, a[..|a| - 1], bFront);
        assert (c + a)[..|c + a| - 1] == c + a[..|a| - 1];
      }
    }
  }

  lemma {:induction false} SubReflexive<T(!new)>(a: seq<T>)
    ensures Sub(a, a)
  {
    if a != [] {
      SubReflexive(a[..|a| - 1]);
    }
  }

  lemma {:induction false} SubTransitive<T(!new)>(a: seq<T>, b: seq<T>, c: seq<T>)
    requires Sub(a, b) && Sub(b, c)
    ensures Sub(a, c)
    decreases |c|
  {
    if a != [] {
      var cFront := c[..|c| - 1];
      if Sub(b, cFront) {
        SubTransitive(a, b, cFront);
      } else if Sub(a, b[..|b| - 1]) {
        SubTransitive(a, b[..|b| - 1], cFront);
      } else {
        SubTransitive(a[..|a| - 1], b[..|b| - 1], cFront);
      }
    }
  }

  // ----- One servo's commands -----

  function Targets(q: seq<Command>): (ts: seq<Target>)
    ensures |ts| == |q|
    ensures forall i :: 0 <= i < |q| ==> ts[i] == TargetOf(q[i])
  {
    seq(|q|, i requires 0 <= i < |q| => TargetOf(q[i]))
  }

  /** The commands in a queue that have not been sent out. */
  function Waiting(q: seq<Command>): seq<Target> {
    if q != [] && q[0].source == 0 then Targets(q[1..]) else Targets(q)
  }

  /** The targets sent to a servo, in order. */
  function For(targets: seq<Target>, servo: Servo): seq<Target> {
    if targets == [] then [] else
      var front, last := targets[..|targets| - 1], targets[|targets| - 1];
      For(front, servo) + (if last.id == servo then [last] else [])
  }

  function SentTo(fx: seq<Effect>, servo: Servo): seq<Target> {
    if fx == [] then [] else
      SentTo(fx[..|fx| - 1], servo) +
      (if fx[|fx| - 1].Waypoints? then For(fx[|fx| - 1].targets, servo) else [])
  }

  /** The commands for a servo that the filter lets through, in order. */
  function Accepted(s: State, commands: seq<Command>, servo: Servo): seq<Target>
    requires |s.limbAccess| == LIMB_COUNT
  {
    if commands == [] then [] else
      var c := commands[|commands| - 1];
      Accepted(s, commands[..|commands| - 1], servo) +
      (if c.id == servo && HasAccess(s, c) then [TargetOf(c)] else [])
  }

  lemma WaitingOfPrefix(q: seq<Command>, kept: seq<Command>)
    requires kept <= q
    ensures Waiting(kept) <= Waiting(q)
  {
  }

  /** A command pushed waits, unless it counts as sent: on an empty queue one of source 0 does. */
  lemma WaitingOfPushed(kept: seq<Command>, c: Command)
    ensures Waiting(kept + [c]) == if kept == [] && c.source == 0 then [] else Waiting(kept) + [TargetOf(c)]
  {
  }

  lemma PushFlows(q: seq<Command>, c: Command)
    ensures Sub(Waiting(Push(q, c)), Waiting(q) + [TargetOf(c)])
  {
    hide Waiting, PopLater;
    var kept := PopLater(q, c.time);
    PopLaterIsPrefix(q, c.time);
    WaitingOfPrefix(q, kept);
    WaitingOfPushed(kept, c);
    assert Waiting(q) == Waiting(kept) + Waiting(q)[|Waiting(kept)|..];
    SubReflexive(Waiting(kept));
    SubAppend(Waiting(kept), Waiting(kept), Waiting(q)[|Waiting(kept)|..]);
    SubOne(Waiting(kept), Waiting(q), TargetOf(c));
  }

  lemma PushKeepsFlow(q: seq<Command>, c: Command, before: seq<Target>, accepted: seq<Target>)
    requires Sub(Waiting(q), before + accepted)
    ensures Sub(Waiting(Push(q, c)), before + (accepted + [TargetOf(c)]))
  {
    PushFlows(q, c);
    SubAppend(Waiting(q), before + accepted, [TargetOf(c)]);
    assert before + accepted + [TargetOf(c)] == before + (accepted + [TargetOf(c)]);
    SubTransitive(Waiting(Push(q, c)), Waiting(q) + [TargetOf(c)], before + (accepted + [TargetOf(c)]));
  }

  lemma {:induction false} FilterFlows(s: State, commands: seq<Command>, servo: Servo)
    requires Sized(s)
    ensures Sub(Waiting(Filter(s, commands).queues[servo]), Waiting(s.queues[servo]) + Accepted(s, commands, servo))
    decreases |commands|
  {
    var before := Waiting(s.queues[servo]);
    if commands == [] {
      SubReflexive(before);
      assert before + [] == before;
    } else {
      var front, c := commands[..|commands| - 1], commands[|commands| - 1];
      FilterFlows(s, front, servo);
      if c.id == servo && HasAccess(s, c) {
        PushKeepsFlow(Filter(s, front).queues[servo], c, before, Accepted(s, front, servo));
      } else {
        assert Accepted(s, commands, servo) == Accepted(s, front, servo);
      }
    }
  }

  lemma ServeFlows(q: seq<Command>, servo: nat, holder: nat, now: int)
    requires SoundQueue(q, servo, holder)
    ensures Sub(SentFrom(q, now) + Waiting(MarkSent(Expire(q, now))), Waiting(q))
  {
    var e := Expire(q, now);
    assert SentFrom(q, now) + Waiting(MarkSent(e)) == Waiting(e);
    SubReflexive(Waiting(e));
    if Waiting(e) == Waiting(q) {
    } else {
      assert Waiting(q) == [TargetOf(q[0])] + Waiting(e);
      SubPrependOne(TargetOf(q[0]), Waiting(e));
    }
  }

  lemma SubPrependOne<T(!new)>(x: T, a: seq<T>)
    ensures Sub(a, [x] + a)
  {
    assert Sub([], [x]);
    SubAppend([], [x], a);
    assert [] + a == a;
  }

  lemma ForOne(ts: seq<Target>, q: seq<Command>, i: nat, now: int, servo: Servo)
    requires forall k :: 0 <= k < |q| ==> q[k].id == i
    ensures For(ts + SentFrom(q, now), servo) == For(ts, servo) + (if i == servo then SentFrom(q, now) else [])
  {
    if FrontWaits(Expire(q, now)) {
      assert (ts + SentFrom(q, now))[..|ts|] == ts;
    } else {
      assert ts + SentFrom(q, now) == ts;
    }
  }

  ghost predicate OwnCommands(queues: seq<seq<Command>>) {
    forall i, k :: 0 <= i < |queues| && 0 <= k < |queues[i]| ==> queues[i][k].id == i
  }

  lemma {:induction false} SentForServo(queues: seq<seq<Command>>, now: int, n: nat, servo: Servo)
    requires OwnCommands(queues) && n <= |queues| == SERVO_COUNT
    ensures For(Sent(queues, now, n), servo) == if servo < n then SentFrom(queues[servo], now) else []
  {
    if n > 0 {
      SentForServo(queues, now, n - 1, servo);
      ForOne(Sent(queues, now, n - 1), queues[n - 1], n - 1, now, servo);
    }
  }

  lemma SoundQueuesAreOwn(s: State)
    requires Inv(s)
    ensures OwnCommands(s.queues)
  {
    forall i, k | 0 <= i < |s.queues| && 0 <= k < |s.queues[i]|
      ensures s.queues[i][k].id == i
    {
      var servo: Servo := i;
      assert SoundQueue(s.queues[servo], servo, HolderOf(s.requests, s.current, LimbForServo(servo)));
    }
  }

  lemma {:induction false} OthersSendNothing(fx: seq<Effect>, servo: Servo)
    requires forall e :: e in fx ==> !e.Waypoints?
    ensures SentTo(fx, servo) == []
  {
    if fx != [] {
      assert fx[|fx| - 1] in fx;
      OthersSendNothing(fx[..|fx| - 1], servo);
    }
  }

  lemma {:induction false} SentToAppend(a: seq<Effect>, b: seq<Effect>, servo: Servo)
    ensures SentTo(a + b, servo) == SentTo(a, servo) + SentTo(b, servo)
    decreases |b|
  {
    if b == [] {
      assert a + b == a;
    } else {
      SentToAppend(a, b[..|b| - 1], servo);
      assert (a + b)[..|a + b| - 1] == a + b[..|b| - 1];
    }
  }

  lemma DispatchSends(s: State, now: int, servo: Servo)
    requires Inv(s)
    ensures SentTo(Dispatch(s, now).effects, servo) == SentFrom(s.queues[servo], now)
  {
    var sent := Sent(s.queues, now, SERVO_COUNT);
    var done := ByHolder(s.limbAccess, Emptied(s.queues, now, SERVO_COUNT));
    var completions := Completions(done, Ascending(done.Keys));
    forall e | e in completions ensures !e.Waypoints? {
      CompletionsOf(done, Ascending(done.Keys), e);
    }
    OthersSendNothing(completions, servo);
    SentToAppend(if sent == [] then [] else [Waypoints(sent)], completions, servo);
    SoundQueuesAreOwn(s);
    SentForServo(s.queues, now, SERVO_COUNT, servo);
  }

  lemma DispatchFlows(s: State, now: int, servo: Servo)
    requires Inv(s)
    ensures Sub(SentTo(Dispatch(s, now).effects, servo) + Waiting(Dispatch(s, now).state.queues[servo]),
                Waiting(s.queues[servo]))
  {
    DispatchSends(s, now, servo);
    assert SoundQueue(s.queues[servo], servo, HolderOf(s.requests, s.current, LimbForServo(servo)));
    ServeFlows(s.queues[servo], servo, HolderOf(s.requests, s.current, LimbForServo(servo)), now);
  }

  lemma {:induction false} KillsAre(m: map<nat, set<Limb>>, ids: seq<nat>, e: Effect)
    requires forall id :: id in ids ==> id in m
    ensures e in Kills(m, ids) ==> e.Kill? && e.id in m
    ensures e in Starts(m, ids) ==> e.Start? && e.id in m
    decreases |ids|
  {
    if ids != [] {
      KillsAre(m, ids[..|ids| - 1], e);
    }
  }

  lemma SelectEffects(s: State, e: Effect)
    requires Ready(s)
    requires e in Select(s).effects
    ensures (e.Kill? || e.Start?) && e.id in s.requests
  {
    var current := SortRefs(SelectedItems(s));
    var gone, came := Difference(s.current, current), Difference(current, s.current);
    var killed, started := Groups(s.requests, gone), Groups(s.requests, came);
    SelectionFacts(s);
    KillsAre(killed, Ascending(killed.Keys), e);
    KillsAre(started, Ascending(started.Keys), e);
    GroupsMention(s.requests, gone, e.id, 0);
    GroupsMention(s.requests, came, e.id, 0);
  }

  lemma SelectFlows(s: State, servo: Servo)
    requires Ready(s)
    ensures SentTo(Select(s).effects, servo) == []
    ensures Sub(Waiting(Select(s).state.queues[servo]), Waiting(s.queues[servo]))
  {
    forall e | e in Select(s).effects ensures !e.Waypoints? {
      SelectEffects(s, e);
    }
    OthersSendNothing(Select(s).effects, servo);
    SubReflexive(Waiting(s.queues[servo]));
  }
}
