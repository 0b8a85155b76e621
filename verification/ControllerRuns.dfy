/** What holds in every state the controller can reach. */
module ControllerRuns {
  import opened Requests
  import opened Selection
  import opened Merge
  import opened Ordering
  import opened Servos
  import opened ControllerState

  // ----- Registries that differ only in their active flags -----

  ghost predicate SameItems(R: Registry, R': Registry) {
    && (forall r :: Registered(R, r) <==> Registered(R', r))
    && (forall r :: Priority(R, r) == Priority(R', r) && LimbsOf(R, r) == LimbsOf(R', r))
    && (forall id :: Main(R, id) == Main(R', id))
  }

  lemma FlagsKeepItems(R: Registry, items: set<Ref>, groups: set<nat>)
    ensures SameItems(R, WithFlags(R, items, groups))
  {
  }

  // ----- Who holds a limb -----

  lemma {:induction false} HolderIsOwner(R: Registry, items: seq<Ref>, r: Ref, l: Limb)
    requires Exclusive(R, items) && r in items && l in LimbsOf(R, r)
    ensures HolderOf(R, items, l) == r.id
  {
    var front, last := items[..|items| - 1], items[|items| - 1];
    var i :| 0 <= i < |items| && items[i] == r;
    if i < |items| - 1 {
      assert front[i] == r;
      HolderIsOwner(R, front, r, l);
    }
  }

  lemma {:induction false} HolderExists(R: Registry, items: seq<Ref>, l: Limb)
    ensures HolderOf(R, items, l) == 0 || exists r :: r in items && l in LimbsOf(R, r) && r.id == HolderOf(R, items, l)
    ensures (forall r :: r in items ==> l !in LimbsOf(R, r)) ==> HolderOf(R, items, l) == 0
  {
    if items != [] {
      HolderExists(R, items[..|items| - 1], l);
    }
  }

  lemma ExclusiveIsDistinct(R: Registry, items: seq<Ref>)
    requires Exclusive(R, items)
    ensures Distinct(items)
  {
    forall i, j | 0 <= i < j < |items|
      ensures items[i] != items[j]
    {
      assert LimbsOf(R, items[i]) !! LimbsOf(R, items[j]);
      var l :| l in LimbsOf(R, items[i]);
    }
  }

  lemma ExclusiveSameItems(R: Registry, a: seq<Ref>, b: seq<Ref>)
    requires Exclusive(R, a) && Distinct(b)
    requires forall r :: r in b ==> r in a
    ensures Exclusive(R, b)
  {
    forall i | 0 <= i < |b|
      ensures LimbsOf(R, b[i]) != {}
    {
      assert b[i] in a;
    }
    forall i, j | 0 <= i < j < |b|
      ensures LimbsOf(R, b[i]) !! LimbsOf(R, b[j])
    {
      assert b[i] in a && b[j] in a;
      var k :| 0 <= k < |a| && a[k] == b[i];
      var m :| 0 <= m < |a| && a[m] == b[j];
    }
  }

  lemma HoldersOfSameItems(R: Registry, a: seq<Ref>, b: seq<Ref>, l: Limb)
    requires Exclusive(R, a) && Exclusive(R, b)
    requires forall r :: r in b <==> r in a
    ensures HolderOf(R, a, l) == HolderOf(R, b, l)
  {
    HolderExists(R, a, l);
    HolderExists(R, b, l);
    if r :| r in a && l in LimbsOf(R, r) {
      HolderIsOwner(R, a, r, l);
      HolderIsOwner(R, b, r, l);
    }
  }

  lemma {:induction false} HolderSameLimbs(R: Registry, R': Registry, items: seq<Ref>, l: Limb)
    requires forall r :: r in items ==> LimbsOf(R, r) == LimbsOf(R', r)
    ensures HolderOf(R, items, l) == HolderOf(R', items, l)
  {
    if items != [] {
      HolderSameLimbs(R, R', items[..|items| - 1], l);
    }
  }

  lemma HoldersSameLimbs(R: Registry, R': Registry, items: seq<Ref>, n: nat)
    requires forall r :: r in items ==> LimbsOf(R, r) == LimbsOf(R', r)
    ensures Holders(R, items, n) == Holders(R', items, n)
  {
    forall l: Limb ensures HolderOf(R, items, l) == HolderOf(R', items, l) {
      HolderSameLimbs(R, R', items, l);
    }
  }

  // ----- The invariant -----

  ghost predicate Sized(s: State) {
    |s.actions| == LIMB_COUNT && |s.limbAccess| == LIMB_COUNT && |s.queues| == SERVO_COUNT
  }

  function ItemPriorities(q: Request): (ps: seq<real>)
    ensures |ps| == |q.items|
    ensures forall i :: 0 <= i < |ps| ==> ps[i] == q.items[i].priority
  {
    seq(|q.items|, i requires 0 <= i < |q.items| => q.items[i].priority)
  }

  /** A request's main element is its first item of the greatest priority. */
  ghost predicate SoundRequest(q: Request) {
    && q.items != []
    && q.mainElement == FirstMax(ItemPriorities(q))
    && q.maxPriority == q.items[q.mainElement].priority
  }

  ghost predicate SoundRegistry(R: Registry) {
    && 0 !in R
    && (forall id :: id in R ==> SoundRequest(R[id]))
    && LimbsBelow(R, LIMB_COUNT)
  }

  ghost predicate SoundSelection(R: Registry, current: seq<Ref>) {
    && SortedRefs(current)
    && Exclusive(R, current)
    && (forall r :: r in current ==> Registered(R, r))
    && R == WithActive(R, current)
  }

  /** The commands queued for a servo, whose limb is held by `holder`, are that servo's, in order
      of time and all from the holder, except that the first may have been sent out already. */
  ghost predicate SoundQueue(q: seq<Command>, servo: nat, holder: nat) {
    && (q != [] ==> holder != 0)
    && (forall i :: 0 <= i < |q| ==> q[i].id == servo)
    && (forall i :: 0 <= i < |q| ==> q[i].source == holder || (i == 0 && q[i].source == 0))
    && (forall i, j :: 0 <= i < j < |q| ==> q[i].time <= q[j].time)
  }

  ghost predicate SoundQueues(R: Registry, current: seq<Ref>, queues: seq<seq<Command>>) {
    forall s: Servo :: s < |queues| ==> SoundQueue(queues[s], s, HolderOf(R, current, LimbForServo(s)))
  }

  /** Holds before every selection, the first one included. */
  ghost predicate Ready(s: State) {
    && Sized(s)
    && SoundRegistry(s.requests)
    && Indexed(s.requests, s.actions) && ListedOnce(s.actions)
    && SoundSelection(s.requests, s.current)
    && SoundQueues(s.requests, s.current, s.queues)
  }

  /** Holds in every state from the first selection on. */
  ghost predicate Inv(s: State) {
    && Ready(s)
    && Compatible(s.requests, s.current)
    && s.limbAccess == Holders(s.requests, s.current, LIMB_COUNT)
  }

  lemma SoundMainIsTop(R: Registry)
    requires SoundRegistry(R)
    ensures MainIsTop(R)
  {
    forall r | Registered(R, r)
      ensures Registered(R, Main(R, r.id)) && Priority(R, r) <= Priority(R, Main(R, r.id))
    {
      assert SoundRequest(R[r.id]);
      assert ItemPriorities(R[r.id])[r.index] <= ItemPriorities(R[r.id])[R[r.id].mainElement];
    }
  }

  // ----- Selection keeps the invariant -----

  ghost function SelectedItems(s: State): seq<Ref> {
    Chosen(s.requests, SortedLists(s.requests, s.actions))
  }

  /** The selection made in a ready state. */
  lemma SelectionFacts(s: State)
    requires Ready(s)
    ensures var chosen, current := SelectedItems(s), SortRefs(SelectedItems(s));
      && Compatible(s.requests, chosen)
      && SortedRefs(current)
      && (forall r :: r in current <==> r in chosen)
      && (forall r :: r in chosen ==> Registered(s.requests, r))
      && (forall r :: Registered(s.requests, r) ==> !Envies(s.requests, chosen, r))
  {
    SortingKeepsIndex(s.requests, s.actions);
    ChosenIsEnvyFree(s.requests, SortedLists(s.requests, s.actions));
    ExclusiveIsDistinct(s.requests, SelectedItems(s));
    SortRefsSorts(SelectedItems(s));
  }

  lemma SortedIsDistinct(rs: seq<Ref>)
    requires SortedRefs(rs)
    ensures Distinct(rs)
  {
  }

  lemma CompatibleSameItems(R: Registry, a: seq<Ref>, b: seq<Ref>)
    requires Compatible(R, a) && Distinct(b)
    requires forall r :: r in b <==> r in a
    ensures Compatible(R, b)
  {
    ExclusiveSameItems(R, a, b);
    forall i | 0 <= i < |b|
      ensures Main(R, b[i].id) in b
    {
      assert b[i] in a;
      var k :| 0 <= k < |a| && a[k] == b[i];
    }
  }

  lemma CompatibleSameShape(R: Registry, R': Registry, current: seq<Ref>)
    requires Compatible(R, current) && SameItems(R, R')
    ensures Compatible(R', current)
  {
  }

  lemma FlagsKeepRegistry(R: Registry, items: set<Ref>, groups: set<nat>)
    requires SoundRegistry(R)
    ensures SoundRegistry(WithFlags(R, items, groups))
  {
    var R' := WithFlags(R, items, groups);
    FlagsKeepItems(R, items, groups);
    forall id | id in R'
      ensures SoundRequest(R'[id])
    {
      assert SoundRequest(R[id]);
      assert ItemPriorities(R'[id]) == ItemPriorities(R[id]);
    }
  }

  lemma {:induction false} GroupsMention(R: Registry, items: seq<Ref>, id: nat, l: Limb)
    ensures id in Groups(R, items) && l in Groups(R, items)[id] <==>
            exists r :: r in items && r.id == id && l in LimbsOf(R, r)
    ensures id in Groups(R, items) ==> exists r :: r in items && r.id == id
  {
    if items != [] {
      var front, last := items[..|items| - 1], items[|items| - 1];
      assert items == front + [last];
      GroupsMention(R, front, id, l);
      if r :| r in items && r.id == id && l in LimbsOf(R, r) {
        assert r in front || r == last;
      }
    }
  }

  /** Clearing the queues of the killed limbs leaves every queue with its limb's new holder. */
  lemma ClearingIsSound(R: Registry, old': seq<Ref>, new': seq<Ref>, queues: seq<seq<Command>>)
    requires |queues| == SERVO_COUNT && SoundQueues(R, old', queues)
    requires Exclusive(R, old') && Exclusive(R, new')
    ensures SoundQueues(R, new', Cleared(queues, Groups(R, Difference(old', new'))))
  {
    var killed := Groups(R, Difference(old', new'));
    forall s: Servo | s < |queues|
      ensures SoundQueue(Cleared(queues, killed)[s], s, HolderOf(R, new', LimbForServo(s)))
    {
      var l := LimbForServo(s);
      HolderExists(R, old', l);
      if !Mentions(killed, l) && HolderOf(R, old', l) != 0 {
        var r :| r in old' && l in LimbsOf(R, r) && r.id == HolderOf(R, old', l);
        if r !in new' {
          assert r in Difference(old', new');
          GroupsMention(R, Difference(old', new'), r.id, l);
          assert false;
        }
        HolderIsOwner(R, new', r, l);
      }
    }
  }

  lemma IndexedSameItems(R: Registry, R': Registry, lists: seq<seq<Ref>>)
    requires SameItems(R, R') && Indexed(R, lists)
    ensures Indexed(R', lists)
  {
  }

  lemma QueuesSameLimbs(R: Registry, R': Registry, current: seq<Ref>, queues: seq<seq<Command>>)
    requires forall r :: r in current ==> LimbsOf(R, r) == LimbsOf(R', r)
    requires SoundQueues(R, current, queues)
    ensures SoundQueues(R', current, queues)
  {
    forall s: Servo | s < |queues|
      ensures SoundQueue(queues[s], s, HolderOf(R', current, LimbForServo(s)))
    {
      HolderSameLimbs(R, R', current, LimbForServo(s));
    }
  }

  lemma FlagsTwice(R: Registry, items: set<Ref>, groups: set<nat>)
    ensures WithFlags(WithFlags(R, items, groups), items, groups) == WithFlags(R, items, groups)
  {
    var R' := WithFlags(R, items, groups);
    forall id | id in R
      ensures WithFlags(R', items, groups)[id] == R'[id]
    {
      assert WithFlags(R', items, groups)[id].items == R'[id].items;
    }
  }

  lemma ActiveIsSound(R: Registry, current: seq<Ref>)
    requires SortedRefs(current) && Exclusive(R, current)
    requires forall r :: r in current ==> Registered(R, r)
    ensures SoundSelection(WithActive(R, current), current)
  {
    FlagsKeepItems(R, Refs(current), Ids(current));
    FlagsTwice(R, Refs(current), Ids(current));
    ExclusiveSameShape(R, WithActive(R, current), current);
  }

  lemma SelectionIsSound(s: State)
    requires Ready(s)
    ensures SoundSelection(Select(s).state.requests, Select(s).state.current)
  {
    var current := SortRefs(SelectedItems(s));
    SelectionFacts(s);
    SortedIsDistinct(current);
    ExclusiveSameItems(s.requests, SelectedItems(s), current);
    ActiveIsSound(s.requests, current);
  }

  lemma SelectKeepsReady(s: State)
    requires Ready(s)
    ensures Ready(Select(s).state)
  {
    var t := Select(s).state;
    var R := s.requests;
    SelectionIsSound(s);
    FlagsKeepItems(R, Refs(t.current), Ids(t.current));
    assert SoundRegistry(t.requests) by {
      FlagsKeepRegistry(R, Refs(t.current), Ids(t.current));
    }
    assert Indexed(t.requests, t.actions) by {
      SortingKeepsIndex(R, s.actions);
      IndexedSameItems(R, t.requests, t.actions);
    }
    SortingKeepsListedOnce(R, s.actions);
    assert SoundQueues(t.requests, t.current, t.queues) by {
      ExclusiveSameShape(t.requests, R, t.current);
      ClearingIsSound(R, s.current, t.current, s.queues);
      QueuesSameLimbs(R, t.requests, t.current, t.queues);
    }
  }

  lemma ExclusiveSameShape(R: Registry, R': Registry, current: seq<Ref>)
    requires Exclusive(R, current) && SameItems(R, R')
    ensures Exclusive(R', current)
  {
  }

  lemma SelectEstablishes(s: State)
    requires Ready(s)
    ensures Inv(Select(s).state)
  {
    hide Chosen, SortRefs, SortedLists, WithFlags, Cleared, Callbacks, SoundRegistry, SoundQueues, Indexed;
    var t := Select(s).state;
    var R := s.requests;
    SelectKeepsReady(s);
    SelectionFacts(s);
    FlagsKeepItems(R, Refs(t.current), Ids(t.current));
    SortedIsDistinct(t.current);
    CompatibleSameItems(R, SelectedItems(s), t.current);
    CompatibleSameShape(R, t.requests, t.current);
    forall l: Limb ensures HolderOf(R, SelectedItems(s), l) == HolderOf(t.requests, t.current, l) {
      HoldersOfSameItems(R, SelectedItems(s), t.current, l);
      HolderSameLimbs(R, t.requests, t.current, l);
    }
  }
}
