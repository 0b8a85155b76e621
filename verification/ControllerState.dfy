/** The state of the behaviour controller and, handler by handler, the state it is left in and
    the callbacks and messages it sends out. Every handler runs under the controller's own
    synchronisation lock, so each is one atomic step. */
module ControllerState {
  import opened Requests
  import opened Selection
  import opened Merge
  import opened Ordering
  import opened Servos

  datatype State = State(
    requests: Registry,
    actions: seq<seq<Ref>>,       // for each limb, the items that need it
    limbAccess: seq<nat>,         // for each limb, the id of the group holding it, 0 for none
    current: seq<Ref>,            // the selected items, by id and index
    queues: seq<seq<Command>>     // for each servo, its commands
  )

  datatype Effect =
    | Kill(id: nat, limbs: set<Limb>)
    | Start(id: nat, limbs: set<Limb>)
    | Waypoints(targets: seq<Target>)
    | Completed(id: nat, servos: set<Servo>)

  datatype Outcome = Outcome(state: State, effects: seq<Effect>)

  // ----- Active flags -----

  /** The registry with exactly the given items and groups marked active. */
  function WithFlags(R: Registry, items: set<Ref>, groups: set<nat>): (R': Registry)
    ensures R'.Keys == R.Keys
  {
    map id | id in R :: R[id].(
      active := id in groups,
      items := seq(|R[id].items|, i requires 0 <= i < |R[id].items| => R[id].items[i].(active := Ref(id, i) in items)))
  }

  function Ids(rs: seq<Ref>): (ids: set<nat>)
    ensures forall id :: id in ids <==> GroupActive(rs, id)
  {
    if rs == [] then {} else Ids(rs[..|rs| - 1]) + {rs[|rs| - 1].id}
  }

  function Refs(rs: seq<Ref>): set<Ref> {
    set r | r in rs
  }

  function WithActive(R: Registry, current: seq<Ref>): Registry {
    WithFlags(R, Refs(current), Ids(current))
  }

  // ----- Selection -----

  /** The holder a limb gets when the items claim their limbs in order. */
  function HolderOf(R: Registry, items: seq<Ref>, l: Limb): nat {
    if items == [] then 0
    else if l in LimbsOf(R, items[|items| - 1]) then items[|items| - 1].id
    else HolderOf(R, items[..|items| - 1], l)
  }

  function Holders(R: Registry, items: seq<Ref>, n: nat): (h: seq<nat>)
    ensures |h| == n
    ensures forall l :: 0 <= l < n ==> h[l] == HolderOf(R, items, l)
  {
    seq(n, l requires 0 <= l < n => HolderOf(R, items, l))
  }

  /** The limbs of the given items, by group. */
  function Groups(R: Registry, items: seq<Ref>): map<nat, set<Limb>> {
    if items == [] then map[] else
      var m := Groups(R, items[..|items| - 1]);
      var r := items[|items| - 1];
      m[r.id := (if r.id in m then m[r.id] else {}) + LimbsOf(R, r)]
  }

  function Kills(m: map<nat, set<Limb>>, ids: seq<nat>): seq<Effect>
    requires forall id :: id in ids ==> id in m
  {
    if ids == [] then [] else Kills(m, ids[..|ids| - 1]) + [Kill(ids[|ids| - 1], m[ids[|ids| - 1]])]
  }

  function Starts(m: map<nat, set<Limb>>, ids: seq<nat>): seq<Effect>
    requires forall id :: id in ids ==> id in m
  {
    if ids == [] then [] else Starts(m, ids[..|ids| - 1]) + [Start(ids[|ids| - 1], m[ids[|ids| - 1]])]
  }

  /** All limbs in a map of groups. */
  predicate Mentions(m: map<nat, set<Limb>>, l: Limb) {
    exists id :: id in m && l in m[id]
  }

  function Cleared(queues: seq<seq<Command>>, killed: map<nat, set<Limb>>): (q: seq<seq<Command>>)
    requires |queues| == SERVO_COUNT
    ensures |q| == |queues|
  {
    seq(|queues|, s requires 0 <= s < |queues| => if Mentions(killed, LimbForServo(s)) then [] else queues[s])
  }

  /** The callbacks for the change from one selection to another: what only the old one has is
      killed, then what only the new one has is started, group by group. */
  function Callbacks(R: Registry, old': seq<Ref>, new': seq<Ref>): seq<Effect> {
    var killed, started := Groups(R, Difference(old', new')), Groups(R, Difference(new', old'));
    Kills(killed, Ascending(killed.Keys)) + Starts(started, Ascending(started.Keys))
  }

  function Select(s: State): Outcome
    requires |s.queues| == SERVO_COUNT
  {
    var sorted := SortedLists(s.requests, s.actions);
    var chosen := Chosen(s.requests, sorted);
    var current := SortRefs(chosen);
    Outcome(
      State(WithActive(s.requests, current), sorted, Holders(s.requests, chosen, |s.limbAccess|), current,
            Cleared(s.queues, Groups(s.requests, Difference(s.current, current)))),
      Callbacks(s.requests, s.current, current))
  }

  // ----- Registration -----

  type Proposal = seq<(real, set<Limb>)>

  /** The index of the first greatest priority. */
  function FirstMax(ps: seq<real>): (m: nat)
    requires ps != []
    ensures m < |ps|
    ensures forall i :: 0 <= i < |ps| ==> ps[i] <= ps[m] && (i < m ==> ps[i] < ps[m])
  {
    if |ps| == 1 then 0 else
      var m := FirstMax(ps[..|ps| - 1]);
      if ps[m] < ps[|ps| - 1] then |ps| - 1 else m
  }

  function Priorities(proposal: Proposal): (ps: seq<real>)
    ensures |ps| == |proposal|
    ensures forall i :: 0 <= i < |ps| ==> ps[i] == proposal[i].0
  {
    seq(|proposal|, i requires 0 <= i < |proposal| => proposal[i].0)
  }

  function NewRequest(proposal: Proposal): (q: Request)
    requires proposal != []
    ensures |q.items| == |proposal|
    ensures forall i :: 0 <= i < |proposal| ==> q.items[i] == Item(false, proposal[i].0, proposal[i].1)
  {
    var m := FirstMax(Priorities(proposal));
    Request(false, proposal[m].0, m,
            seq(|proposal|, i requires 0 <= i < |proposal| => Item(false, proposal[i].0, proposal[i].1)))
  }

  /** The indices below n of the items that need limb l. */
  function Needing(proposal: Proposal, id: nat, l: Limb, n: nat): (rs: seq<Ref>)
    requires n <= |proposal|
    ensures forall r :: r in rs <==> r.id == id && r.index < n && l in proposal[r.index].1
  {
    if n == 0 then []
    else Needing(proposal, id, l, n - 1) + (if l in proposal[n - 1].1 then [Ref(id, n - 1)] else [])
  }

  function WithItems(actions: seq<seq<Ref>>, proposal: Proposal, id: nat): (a: seq<seq<Ref>>)
    ensures |a| == |actions|
    ensures forall l :: 0 <= l < |actions| ==> a[l] == actions[l] + Needing(proposal, id, l, |proposal|)
  {
    seq(|actions|, l requires 0 <= l < |actions| => actions[l] + Needing(proposal, id, l, |proposal|))
  }

  /** An id that is 0 or already registered is refused with an exception and changes nothing. */
  predicate Refused(s: State, id: nat) {
    id == 0 || id in s.requests
  }

  function Register(s: State, id: nat, proposal: Proposal): Outcome
    requires proposal != []
  {
    if Refused(s, id) then Outcome(s, []) else
      Outcome(s.(requests := s.requests[id := NewRequest(proposal)], actions := WithItems(s.actions, proposal, id)), [])
  }

  // ----- Priority update -----

  function Reprioritised(q: Request, ps: seq<real>): (q': Request)
    requires |ps| == |q.items| && ps != []
    ensures |q'.items| == |q.items|
    ensures forall i :: 0 <= i < |ps| ==> q'.items[i] == q.items[i].(priority := ps[i])
  {
    var m := FirstMax(ps);
    q.(mainElement := m, maxPriority := ps[m],
       items := seq(|ps|, i requires 0 <= i < |ps| => q.items[i].(priority := ps[i])))
  }

  /** The update moved an item against its standing: a selected item fell or another one rose. */
  predicate Adverse(q: Request, ps: seq<real>, i: nat)
    requires i < |ps| == |q.items|
  {
    if q.items[i].active then ps[i] < q.items[i].priority else q.items[i].priority < ps[i]
  }

  predicate MustReselect(q: Request, ps: seq<real>)
    requires |ps| == |q.items| && ps != []
  {
    FirstMax(ps) != q.mainElement || exists i :: 0 <= i < |ps| && Adverse(q, ps, i)
  }

  function Update(s: State, id: nat, ps: seq<real>): Outcome
    requires |s.queues| == SERVO_COUNT
    requires id in s.requests && |ps| == |s.requests[id].items| && ps != []
  {
    var t := s.(requests := s.requests[id := Reprioritised(s.requests[id], ps)]);
    if MustReselect(s.requests[id], ps) then Select(t) else Outcome(t, [])
  }

  // ----- Command filter -----

  /** Commands later than `time` are popped from the back. */
  function PopLater(q: seq<Command>, time: int): seq<Command> {
    if q != [] && time < q[|q| - 1].time then PopLater(q[..|q| - 1], time) else q
  }

  function Push(q: seq<Command>, c: Command): seq<Command> {
    PopLater(q, c.time) + [c]
  }

  predicate HasAccess(s: State, c: Command)
    requires |s.limbAccess| == LIMB_COUNT
  {
    s.limbAccess[LimbForServo(c.id)] == c.source
  }

  function Filter(s: State, commands: seq<Command>): (t: State)
    requires |s.limbAccess| == LIMB_COUNT && |s.queues| == SERVO_COUNT
    ensures |t.queues| == SERVO_COUNT && t == s.(queues := t.queues)
  {
    if commands == [] then s else
      var t := Filter(s, commands[..|commands| - 1]);
      var c := commands[|commands| - 1];
      if HasAccess(s, c) then t.(queues := t.queues[c.id := Push(t.queues[c.id], c)]) else t
  }

  // ----- Dispatcher -----

  predicate Expired(q: seq<Command>, now: int) {
    q != [] && q[0].time < now
  }

  function Expire(q: seq<Command>, now: int): seq<Command> {
    if Expired(q, now) then q[1..] else q
  }

  /** A command waits until it has been sent out; then its source is 0. */
  predicate FrontWaits(q: seq<Command>) {
    q != [] && q[0].source != 0
  }

  function MarkSent(q: seq<Command>): seq<Command> {
    if FrontWaits(q) then q[0 := q[0].(source := 0)] else q
  }

  function TargetOf(c: Command): Target {
    Target(c.time, c.id, c.position, c.gain)
  }

  function Served(queues: seq<seq<Command>>, now: int): (q: seq<seq<Command>>)
    ensures |q| == |queues|
    ensures forall i :: 0 <= i < |q| ==> q[i] == MarkSent(Expire(queues[i], now))
  {
    seq(|queues|, i requires 0 <= i < |queues| => MarkSent(Expire(queues[i], now)))
  }

  /** What one queue sends out in one round. */
  function SentFrom(q: seq<Command>, now: int): seq<Target> {
    if FrontWaits(Expire(q, now)) then [TargetOf(Expire(q, now)[0])] else []
  }

  /** What is sent out for the first n servos. */
  function Sent(queues: seq<seq<Command>>, now: int, n: nat): seq<Target>
    requires n <= |queues|
  {
    if n == 0 then [] else Sent(queues, now, n - 1) + SentFrom(queues[n - 1], now)
  }

  /** The servos, among the first n queues, whose queue has just run empty. */
  function Emptied(queues: seq<seq<Command>>, now: int, n: nat): seq<Servo>
    requires n <= |queues|
  {
    if n == 0 then [] else
      var q := queues[n - 1];
      Emptied(queues, now, n - 1) + (if Expired(q, now) && Expire(q, now) == [] then [q[0].id] else [])
  }

  /** Those servos, by the holder of their limb. */
  function ByHolder(limbAccess: seq<nat>, servos: seq<Servo>): map<nat, set<Servo>>
    requires |limbAccess| == LIMB_COUNT
  {
    if servos == [] then map[] else
      var m := ByHolder(limbAccess, servos[..|servos| - 1]);
      var servo := servos[|servos| - 1];
      var id := limbAccess[LimbForServo(servo)];
      m[id := (if id in m then m[id] else {}) + {servo}]
  }

  function Completions(m: map<nat, set<Servo>>, ids: seq<nat>): seq<Effect>
    requires forall id :: id in ids ==> id in m
  {
    if ids == [] then [] else Completions(m, ids[..|ids| - 1]) + [Completed(ids[|ids| - 1], m[ids[|ids| - 1]])]
  }

  function Dispatch(s: State, now: int): Outcome
    requires |s.limbAccess| == LIMB_COUNT && |s.queues| == SERVO_COUNT
  {
    var sent := Sent(s.queues, now, SERVO_COUNT);
    var done := ByHolder(s.limbAccess, Emptied(s.queues, now, SERVO_COUNT));
    Outcome(s.(queues := Served(s.queues, now)),
            (if sent == [] then [] else [Waypoints(sent)]) + Completions(done, Ascending(done.Keys)))
  }
}
