/** Whole runs of the controller, from the first selection on. */
module ControllerHistory {
  import opened Requests
  import opened Ordering
  import opened Servos
  import opened ControllerState
  import opened ControllerRuns
  import opened ControllerHandlers
  import opened ControllerTrace
  import opened CommandFlow

  datatype Event =
    | RegisterAction(id: nat, proposal: Proposal)
    | ActionPriorities(id: nat, priorities: seq<real>)
    | ServoCommands(commands: seq<Command>)
    | Every(now: int)

  /** What the controller expects of those who send it messages. */
  ghost predicate Allowed(s: State, e: Event)
    requires Sized(s)
  {
    match e
    case RegisterAction(_, proposal) => proposal != [] && LimbsExist(proposal)
    case ActionPriorities(id, ps) => FitsRequest(s, id, ps)
    case ServoCommands(commands) => forall c :: c in commands && HasAccess(s, c) ==> c.source != 0
    case Every(_) => true
  }

  ghost function Step(s: State, e: Event): Outcome
    requires Sized(s) && Allowed(s, e)
  {
    match e
    case RegisterAction(id, proposal) => Register(s, id, proposal)
    case ActionPriorities(id, ps) => Update(s, id, ps)
    case ServoCommands(commands) => Outcome(Filter(s, commands), [])
    case Every(now) => Dispatch(s, now)
  }

  /** The run in which the events `es` reach the controller one after the other. */
  ghost predicate CanRun(s: State, es: seq<Event>)
    decreases |es|
  {
    Sized(s) && (es == [] || (Allowed(s, es[0]) && CanRun(Step(s, es[0]).state, es[1..])))
  }

  ghost function Run(s: State, es: seq<Event>): (o: Outcome)
    requires CanRun(s, es)
    ensures Sized(o.state)
    decreases |es|
  {
    if es == [] then Outcome(s, []) else
      var first := Step(s, es[0]);
      var rest := Run(first.state, es[1..]);
      Outcome(rest.state, first.effects + rest.effects)
  }

  // ----- One step -----

  lemma FilterKeepsInv(s: State, commands: seq<Command>)
    requires Inv(s) && forall c :: c in commands && HasAccess(s, c) ==> c.source != 0
    ensures Inv(Filter(s, commands))
  {
    FilterIsSound(s, commands);
  }

  lemma StepKeepsInv(s: State, e: Event)
    requires Inv(s) && Allowed(s, e)
    ensures Inv(Step(s, e).state)
  {
    match e
    case RegisterAction(id, proposal) => RegisterKeepsReady(s, id, proposal);
    case ActionPriorities(id, ps) => UpdateKeepsInv(s, id, ps);
    case ServoCommands(commands) => FilterKeepsInv(s, commands);
    case Every(now) => DispatchKeepsInv(s, now);
  }

  lemma DispatchEffects(s: State, now: int, e: Effect)
    requires Inv(s) && e in Dispatch(s, now).effects
    ensures e.Waypoints? || (e.Completed? && e.id in s.requests)
  {
    var done := ByHolder(s.limbAccess, Emptied(s.queues, now, SERVO_COUNT));
    CompletionsOf(done, Ascending(done.Keys), e);
    if e.Completed? {
      CompletionsAreForHolders(s, now, e.id, e.servos);
    }
  }

  lemma UpdateReplays(s: State, id: nat, ps: seq<real>)
    requires Inv(s) && FitsRequest(s, id, ps)
    ensures Replay(s.limbAccess, Update(s, id, ps).effects) == Some(Update(s, id, ps).state.limbAccess)
  {
    if MustReselect(s.requests[id], ps) {
      StoredIsReady(s, id, ps);
      StoredKeepsLimbs(s, id, ps);
      HoldersSameLimbs(s.requests, Stored(s, id, ps).requests, s.current, LIMB_COUNT);
      SelectReplays(Stored(s, id, ps));
    }
  }

  lemma StepReplays(s: State, e: Event)
    requires Inv(s) && Allowed(s, e)
    ensures Replay(s.limbAccess, Step(s, e).effects) == Some(Step(s, e).state.limbAccess)
  {
    match e
    case RegisterAction(id, proposal) =>
    case ActionPriorities(id, ps) => UpdateReplays(s, id, ps);
    case ServoCommands(commands) =>
    case Every(now) =>
      forall x | x in Dispatch(s, now).effects ensures !x.Kill? && !x.Start? {
        DispatchEffects(s, now, x);
      }
      ReplayOthers(s.limbAccess, Dispatch(s, now).effects);
  }

  ghost predicate NamesKnown(R: Registry, e: Effect) {
    match e
    case Kill(id, _) => id in R
    case Start(id, _) => id in R
    case Completed(id, _) => id in R
    case Waypoints(_) => true
  }

  lemma StepNamesKnown(s: State, e: Event, x: Effect)
    requires Inv(s) && Allowed(s, e) && x in Step(s, e).effects
    ensures NamesKnown(s.requests, x)
  {
    match e
    case RegisterAction(id, proposal) =>
    case ActionPriorities(id, ps) =>
      StoredIsReady(s, id, ps);
      if MustReselect(s.requests[id], ps) {
        SelectEffects(Stored(s, id, ps), x);
      }
    case ServoCommands(commands) =>
    case Every(now) => DispatchEffects(s, now, x);
  }

  // ----- Holders -----

  /** Over every run, the kill and start callbacks are well formed limb by limb and replaying
      them gives exactly the limb access table; every callback goes to a registered group. */
  lemma {:induction false} RunReplays(s: State, es: seq<Event>)
    requires Inv(s) && CanRun(s, es)
    ensures Inv(Run(s, es).state)
    ensures Replay(s.limbAccess, Run(s, es).effects) == Some(Run(s, es).state.limbAccess)
    decreases |es|
  {
    if es != [] {
      var first := Step(s, es[0]);
      StepKeepsInv(s, es[0]);
      StepReplays(s, es[0]);
      RunReplays(first.state, es[1..]);
      ReplayAppend(s.limbAccess, first.effects, Run(first.state, es[1..]).effects);
    }
  }

  lemma StepKeepsGroups(s: State, e: Event)
    requires Inv(s) && Allowed(s, e)
    ensures s.requests.Keys <= Step(s, e).state.requests.Keys
  {
  }

  lemma {:induction false} RunNamesKnown(s: State, es: seq<Event>, x: Effect)
    requires Inv(s) && CanRun(s, es) && x in Run(s, es).effects
    ensures s.requests.Keys <= Run(s, es).state.requests.Keys
    ensures NamesKnown(Run(s, es).state.requests, x)
    decreases |es|
  {
    if es != [] {
      StepKeepsInv(s, es[0]);
      RunKeepsGroups(s, es);
      RunKeepsGroups(Step(s, es[0]).state, es[1..]);
      StepKeepsGroups(s, es[0]);
      if x in Step(s, es[0]).effects {
        StepNamesKnown(s, es[0], x);
      } else {
        RunNamesKnown(Step(s, es[0]).state, es[1..], x);
      }
    }
  }

  lemma {:induction false} RunKeepsGroups(s: State, es: seq<Event>)
    requires Inv(s) && CanRun(s, es)
    ensures s.requests.Keys <= Run(s, es).state.requests.Keys
    decreases |es|
  {
    if es != [] {
      StepKeepsInv(s, es[0]);
      StepKeepsGroups(s, es[0]);
      RunKeepsGroups(Step(s, es[0]).state, es[1..]);
    }
  }

  // ----- Commands -----

  ghost function AcceptedBy(s: State, e: Event, servo: Servo): seq<Target>
    requires Sized(s)
  {
    if e.ServoCommands? then Accepted(s, e.commands, servo) else []
  }

  ghost function AcceptedInRun(s: State, es: seq<Event>, servo: Servo): seq<Target>
    requires CanRun(s, es)
    decreases |es|
  {
    if es == [] then [] else AcceptedBy(s, es[0], servo) + AcceptedInRun(Step(s, es[0]).state, es[1..], servo)
  }

  lemma UpdateFlows(s: State, id: nat, ps: seq<real>, servo: Servo)
    requires Inv(s) && FitsRequest(s, id, ps)
    ensures SentTo(Update(s, id, ps).effects, servo) == []
    ensures Sub(Waiting(Update(s, id, ps).state.queues[servo]), Waiting(s.queues[servo]))
  {
    StoredIsReady(s, id, ps);
    if MustReselect(s.requests[id], ps) {
      SelectFlows(Stored(s, id, ps), servo);
    } else {
      SubReflexive(Waiting(s.queues[servo]));
    }
  }

  lemma RegisterFlows(s: State, id: nat, proposal: Proposal, servo: Servo)
    requires Sized(s) && proposal != []
    ensures SentTo(Register(s, id, proposal).effects, servo) == []
    ensures Waiting(Register(s, id, proposal).state.queues[servo]) == Waiting(s.queues[servo])
  {
    hide Waiting;
  }

  /** What an outcome sends and what it leaves waiting were waiting or accepted, some left out. */
  ghost predicate Flows(s: State, r: Outcome, accepted: seq<Target>, servo: Servo)
    requires |s.queues| == |r.state.queues| == SERVO_COUNT
  {
    Sub(SentTo(r.effects, servo) + Waiting(r.state.queues[servo]), Waiting(s.queues[servo]) + accepted)
  }

  lemma NothingSentFlows(s: State, r: Outcome, accepted: seq<Target>, servo: Servo)
    requires |s.queues| == |r.state.queues| == SERVO_COUNT
    requires SentTo(r.effects, servo) == []
    requires Sub(Waiting(r.state.queues[servo]), Waiting(s.queues[servo]) + accepted)
    ensures Flows(s, r, accepted, servo)
  {
    hide Sub, SentTo, Waiting;
    assert [] + Waiting(r.state.queues[servo]) == Waiting(r.state.queues[servo]);
  }

  lemma RegistrationFlows(s: State, id: nat, proposal: Proposal, servo: Servo)
    requires Sized(s) && proposal != []
    ensures Flows(s, Register(s, id, proposal), [], servo)
  {
    assert |Register(s, id, proposal).state.queues| == SERVO_COUNT;
    hide *;
    RegisterFlows(s, id, proposal, servo);
    SubReflexive(Waiting(s.queues[servo]));
    NoneAccepted(s, Register(s, id, proposal), servo);
  }

  lemma NoneAccepted(s: State, r: Outcome, servo: Servo)
    requires |s.queues| == |r.state.queues| == SERVO_COUNT
    requires SentTo(r.effects, servo) == [] && Sub(Waiting(r.state.queues[servo]), Waiting(s.queues[servo]))
    ensures Flows(s, r, [], servo)
  {
    hide Sub, SentTo, Waiting;
    assert Waiting(s.queues[servo]) + [] == Waiting(s.queues[servo]);
    NothingSentFlows(s, r, [], servo);
  }

  lemma PrioritiesFlow(s: State, id: nat, ps: seq<real>, servo: Servo)
    requires Inv(s) && FitsRequest(s, id, ps)
    ensures Flows(s, Update(s, id, ps), [], servo)
  {
    UpdateKeepsInv(s, id, ps);
    assert |Update(s, id, ps).state.queues| == SERVO_COUNT;
    hide *;
    UpdateFlows(s, id, ps, servo);
    NoneAccepted(s, Update(s, id, ps), servo);
  }

  lemma CommandsFlow(s: State, commands: seq<Command>, servo: Servo)
    requires Sized(s)
    ensures Flows(s, Outcome(Filter(s, commands), []), Accepted(s, commands, servo), servo)
  {
    hide Waiting, Filter, Sub, Accepted;
    FilterFlows(s, commands, servo);
    NothingSentFlows(s, Outcome(Filter(s, commands), []), Accepted(s, commands, servo), servo);
  }

  lemma AsFlow(s: State, r: Outcome, servo: Servo)
    requires |s.queues| == |r.state.queues| == SERVO_COUNT
    requires Sub(SentTo(r.effects, servo) + Waiting(r.state.queues[servo]), Waiting(s.queues[servo]))
    ensures Flows(s, r, [], servo)
  {
    hide Sub, SentTo, Waiting;
    assert Waiting(s.queues[servo]) + [] == Waiting(s.queues[servo]);
  }

  lemma DispatchingFlows(s: State, now: int, servo: Servo)
    requires Inv(s)
    ensures Flows(s, Dispatch(s, now), [], servo)
  {
    assert |Dispatch(s, now).state.queues| == SERVO_COUNT;
    hide *;
    DispatchFlows(s, now, servo);
    AsFlow(s, Dispatch(s, now), servo);
  }

  lemma StepFlows(s: State, e: Event, servo: Servo)
    requires Inv(s) && Allowed(s, e)
    ensures Flows(s, Step(s, e), AcceptedBy(s, e, servo), servo)
  {
    hide Flows, Register, Update, Filter, Dispatch, Accepted;
    match e
    case RegisterAction(id, proposal) => RegistrationFlows(s, id, proposal, servo);
    case ActionPriorities(id, ps) => PrioritiesFlow(s, id, ps, servo);
    case ServoCommands(commands) => CommandsFlow(s, commands, servo);
    case Every(now) => DispatchingFlows(s, now, servo);
  }

  lemma FlowAfter(c: seq<Target>, a: seq<Target>, w: seq<Target>, b: seq<Target>)
    requires Sub(a, w + b)
    ensures Sub(c + a, (c + w) + b)
  {
    SubPrepend(c, a, w + b);
    assert c + (w + b) == (c + w) + b;
  }

  lemma FlowBefore(a: seq<Target>, w: seq<Target>, b: seq<Target>, c: seq<Target>)
    requires Sub(a, w + b)
    ensures Sub(a + c, w + (b + c))
  {
    SubAppend(a, w + b, c);
    assert (w + b) + c == w + (b + c);
  }

  lemma FlowsCompose(sent: seq<Target>, sent': seq<Target>, w: seq<Target>, w': seq<Target>, w'': seq<Target>,
                     accepted: seq<Target>, accepted': seq<Target>)
    requires Sub(sent + w', w + accepted)
    requires Sub(sent' + w'', w' + accepted')
    ensures Sub((sent + sent') + w'', w + (accepted + accepted'))
  {
    FlowAfter(sent, sent' + w'', w', accepted');
    FlowBefore(sent + w', w, accepted, accepted');
    SubTransitive(sent + (sent' + w''), (sent + w') + accepted', w + (accepted + accepted'));
    assert sent + (sent' + w'') == (sent + sent') + w'';
  }

  /** Over every run, what is sent to a servo followed by what still waits in its queue is what
      waited at first followed by what was accepted, some left out: each accepted command is sent
      at most once, and commands are sent in the order they were accepted. */
  lemma {:induction false} RunSendsOnce(s: State, es: seq<Event>, servo: Servo)
    requires Inv(s) && CanRun(s, es)
    ensures Inv(Run(s, es).state)
    ensures Sub(SentTo(Run(s, es).effects, servo) + Waiting(Run(s, es).state.queues[servo]),
                Waiting(s.queues[servo]) + AcceptedInRun(s, es, servo))
    decreases |es|
  {
    if es == [] {
      var w := Waiting(s.queues[servo]);
      assert [] + w == w && w + [] == w;
      SubReflexive(w);
    } else {
      var first := Step(s, es[0]);
      var rest := Run(first.state, es[1..]);
      StepKeepsInv(s, es[0]);
      StepFlows(s, es[0], servo);
      RunSendsOnce(first.state, es[1..], servo);
      SentToAppend(first.effects, rest.effects, servo);
      FlowsCompose(SentTo(first.effects, servo), SentTo(rest.effects, servo), Waiting(s.queues[servo]),
                   Waiting(first.state.queues[servo]), Waiting(rest.state.queues[servo]),
                   AcceptedBy(s, es[0], servo), AcceptedInRun(first.state, es[1..], servo));
    }
  }

  // ----- From the start -----

  /** A controller before anything is registered; its limb access table holds arbitrary values. */
  function Initial(limbAccess: seq<nat>): State {
    State(map[], seq(LIMB_COUNT, _ => []), limbAccess, [], seq(SERVO_COUNT, _ => []))
  }

  function RegisterAll(s: State, registrations: seq<(nat, Proposal)>): (t: State)
    requires forall i :: 0 <= i < |registrations| ==> registrations[i].1 != []
    ensures t.queues == s.queues
    decreases |registrations|
  {
    if registrations == [] then s
    else RegisterAll(Register(s, registrations[0].0, registrations[0].1).state, registrations[1..])
  }

  lemma {:induction false} RegisterAllIsReady(s: State, registrations: seq<(nat, Proposal)>)
    requires Ready(s)
    requires forall i :: 0 <= i < |registrations| ==> registrations[i].1 != [] && LimbsExist(registrations[i].1)
    ensures Ready(RegisterAll(s, registrations))
    ensures RegisterAll(s, registrations).current == s.current
    decreases |registrations|
  {
    if registrations != [] {
      RegisterKeepsReady(s, registrations[0].0, registrations[0].1);
      RegisterAllIsReady(Register(s, registrations[0].0, registrations[0].1).state, registrations[1..]);
    }
  }

  lemma InitialIsReady(limbAccess: seq<nat>)
    requires |limbAccess| == LIMB_COUNT
    ensures Ready(Initial(limbAccess))
  {
    var s := Initial(limbAccess);
    assert s.requests == WithActive(s.requests, s.current);
  }

  ghost predicate Boots(limbAccess: seq<nat>, registrations: seq<(nat, Proposal)>) {
    && |limbAccess| == LIMB_COUNT
    && forall i :: 0 <= i < |registrations| ==> registrations[i].1 != [] && LimbsExist(registrations[i].1)
  }

  lemma NoHolders(R: Registry)
    ensures Holders(R, [], LIMB_COUNT) == [0, 0, 0, 0, 0]
  {
    assert forall l: Limb :: HolderOf(R, [], l) == 0;
  }

  lemma BootIsReady(limbAccess: seq<nat>, registrations: seq<(nat, Proposal)>)
    requires Boots(limbAccess, registrations)
    ensures var s := RegisterAll(Initial(limbAccess), registrations);
      && Ready(s)
      && Inv(Select(s).state)
      && Replay([0, 0, 0, 0, 0], Select(s).effects) == Some(Select(s).state.limbAccess)
  {
    var s := RegisterAll(Initial(limbAccess), registrations);
    assert Initial(limbAccess).current == [];
    hide Initial, RegisterAll, Register, Ready, Inv, Select, Replay, LimbsExist, Holders;
    InitialIsReady(limbAccess);
    RegisterAllIsReady(Initial(limbAccess), registrations);
    SelectEstablishes(s);
    SelectReplays(s);
    NoHolders(s.requests);
  }

  /** Whatever the limb access table held at first: after any registrations, the initial
      selection and any run, the whole trace of callbacks replays from free limbs to the present
      table, and every queued command comes from the present holder of its servo's limb. */
  lemma EveryRunIsSound(limbAccess: seq<nat>, registrations: seq<(nat, Proposal)>, es: seq<Event>)
    requires Boots(limbAccess, registrations)
    requires CanRun(Select(RegisterAll(Initial(limbAccess), registrations)).state, es)
    ensures var start := Select(RegisterAll(Initial(limbAccess), registrations));
      var end := Run(start.state, es);
      && Inv(end.state)
      && Replay([0, 0, 0, 0, 0], start.effects + end.effects) == Some(end.state.limbAccess)
      && forall x :: x in start.effects + end.effects ==> NamesKnown(end.state.requests, x)
  {
    var s := RegisterAll(Initial(limbAccess), registrations);
    var start := Select(s);
    var end := Run(start.state, es);
    BootIsReady(limbAccess, registrations);
    RunReplays(start.state, es);
    ReplayAppend([0, 0, 0, 0, 0], start.effects, end.effects);
    SelectKeepsGroups(s);
    RunKeepsGroups(start.state, es);
    hide Inv, Ready, Select, Run, RegisterAll, CanRun, Replay;
    forall x | x in start.effects + end.effects ensures NamesKnown(end.state.requests, x) {
      if x in start.effects {
        SelectEffects(s, x);
      } else {
        RunNamesKnown(start.state, es, x);
      }
    }
  }

  lemma SelectKeepsGroups(s: State)
    requires Ready(s)
    ensures Select(s).state.requests.Keys == s.requests.Keys
  {
  }

  /** With no group registered, every limb is free, and a command of source 0 passes the filter. */
  lemma SourceZeroIsAccepted()
    ensures var s := Select(Initial([0, 0, 0, 0, 0])).state;
      var t := Filter(s, [Command(0, 0, HEAD_YAW, 0.0, 0.0)]);
      Inv(s) && t.queues[HEAD_YAW] != [] && t.limbAccess[HEAD] == 0 && !Inv(t)
  {
    var s0 := Initial([0, 0, 0, 0, 0]);
    var c := Command(0, 0, HEAD_YAW, 0.0, 0.0);
    InitialIsReady([0, 0, 0, 0, 0]);
    SelectEstablishes(s0);
    SelectKeepsGroups(s0);
    assert s0.requests == map[];
    hide Initial, Ready, Select;
    SourceZeroBreaks(Select(s0).state, c);
  }

  lemma SourceZeroBreaks(s: State, c: Command)
    requires Inv(s) && s.requests.Keys == {} && c.source == 0
    ensures var t := Filter(s, [c]); t.queues[c.id] != [] && t.limbAccess[LimbForServo(c.id)] == 0 && !Inv(t)
  {
    TablesAreInverse(c.id, LimbForServo(c.id));
    HolderExists(s.requests, s.current, LimbForServo(c.id));
    assert c in [c] && HasAccess(s, c);
    FilterIsSound(s, [c]);
    FilterFills(s, [c], c);
    hide SoundQueues;
  }

  /** In every reachable state a queued command has source 0, and then has been sent, or the id
      of the registered group that holds the servo's limb. */
  lemma QueuedCommandsAreHeld(s: State, servo: Servo, i: nat)
    requires Sized(s) && Inv(s) && i < |s.queues[servo]|
    ensures s.limbAccess[LimbForServo(servo)] in s.requests
    ensures s.queues[servo][i].id == servo
    ensures s.queues[servo][i].source == s.limbAccess[LimbForServo(servo)] || (i == 0 && s.queues[servo][i].source == 0)
    ensures forall j :: 0 <= j < i ==> s.queues[servo][j].time <= s.queues[servo][i].time
  {
    TablesAreInverse(servo, LimbForServo(servo));
    assert SoundQueue(s.queues[servo], servo, HolderOf(s.requests, s.current, LimbForServo(servo)));
    HolderExists(s.requests, s.current, LimbForServo(servo));
  }
}
