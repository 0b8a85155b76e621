/** The behaviour controller itself: its fields, updated in place by its handlers. */
module ControllerObject {
  import opened Requests
  import opened Selection
  import opened Merge
  import opened Ordering
  import opened Servos
  import opened ControllerState
  import opened ControllerRuns
  import opened ControllerHandlers
  import opened ControllerHistory

  // ----- Lists that are still in play -----

  function ListsOf(limbs: map<Limb, seq<Ref>>, n: nat): (lists: seq<seq<Ref>>)
    ensures |lists| == n
    ensures forall l :: 0 <= l < n ==> lists[l] == if l in limbs then limbs[l] else []
  {
    seq(n, l requires 0 <= l < n => if l in limbs then limbs[l] else [])
  }

  lemma {:induction false} WithoutShrinks(lists: seq<seq<Ref>>, taken: set<Limb>)
    ensures Remaining(Without(lists, taken)) <= Remaining(lists)
  {
    if lists != [] {
      var n := |lists| - 1;
      WithoutShrinks(lists[..n], taken);
      assert Without(lists, taken)[..n] == Without(lists[..n], taken);
    }
  }

  /** Both ranges are in ascending order and are walked in step; the request fits when each of
      its limbs is met among the available ones. */
  method HasLimbs(limbRequest: seq<Limb>, limbAvailable: seq<Limb>) returns (fits: bool)
    requires forall i, j :: 0 <= i < j < |limbRequest| ==> limbRequest[i] < limbRequest[j]
    requires forall i, j :: 0 <= i < j < |limbAvailable| ==> limbAvailable[i] < limbAvailable[j]
    ensures fits <==> forall l :: l in limbRequest ==> l in limbAvailable
  {
    var available, request := 0, 0;
    while request < |limbRequest|
      invariant 0 <= request <= |limbRequest| && 0 <= available <= |limbAvailable|
      invariant forall k :: 0 <= k < request ==> limbRequest[k] in limbAvailable
      invariant request < |limbRequest| ==> forall k :: 0 <= k < available ==> limbAvailable[k] < limbRequest[request]
      decreases |limbAvailable| - available
    {
      if available == |limbAvailable| || limbRequest[request] < limbAvailable[available] {
        assert limbRequest[request] in limbRequest;
        return false;
      }
      if limbRequest[request] <= limbAvailable[available] {
        assert limbRequest[request] == limbAvailable[available];
        request := request + 1;
      }
      available := available + 1;
    }
    return true;
  }

  // ----- Marking items active -----

  /** The registry with one item and its group marked active, or inactive. */
  function Marked(R: Registry, r: Ref, active: bool): Registry
    requires Registered(R, r)
  {
    R[r.id := R[r.id].(active := active, items := R[r.id].items[r.index := R[r.id].items[r.index].(active := active)])]
  }

  lemma MarkOff(R: Registry, items: set<Ref>, groups: set<nat>, r: Ref)
    requires Registered(R, r)
    ensures Marked(WithFlags(R, items, groups), r, false) == WithFlags(R, items - {r}, groups - {r.id})
  {
    var F, G := WithFlags(R, items, groups), WithFlags(R, items - {r}, groups - {r.id});
    assert Marked(F, r, false)[r.id].items == G[r.id].items;
    forall id | id in R && id != r.id
      ensures F[id] == G[id]
    {
      assert F[id].items == G[id].items;
    }
  }

  lemma MarkOn(R: Registry, current: seq<Ref>, r: Ref)
    requires Registered(R, r)
    ensures Marked(WithActive(R, current), r, true) == WithActive(R, current + [r])
  {
    IdsAppend(current, r);
    assert Refs(current + [r]) == Refs(current) + {r};
    var F, G := WithActive(R, current), WithActive(R, current + [r]);
    assert Marked(F, r, true)[r.id].items == G[r.id].items;
    forall id | id in R && id != r.id
      ensures F[id] == G[id]
    {
      assert F[id].items == G[id].items;
    }
  }

  lemma IdsAppend(rs: seq<Ref>, r: Ref)
    ensures Ids(rs + [r]) == Ids(rs) + {r.id}
  {
    assert (rs + [r])[..|rs|] == rs;
  }

  lemma MarkKeepsItems(R: Registry, r: Ref, active: bool)
    requires Registered(R, r)
    ensures SameItems(R, Marked(R, r, active))
  {
  }

  /** The registry after the first k current items have been marked inactive. */
  ghost function Unmarked(R: Registry, current: seq<Ref>, k: nat): (R': Registry)
    requires k <= |current| && forall r :: r in current ==> Registered(R, r)
    ensures SameItems(R, R')
  {
    if k == 0 then R else
      MarkKeepsItems(Unmarked(R, current, k - 1), current[k - 1], false);
      Marked(Unmarked(R, current, k - 1), current[k - 1], false)
  }

  lemma RefsAppend(rs: seq<Ref>, r: Ref)
    ensures Refs(rs + [r]) == Refs(rs) + {r}
  {
  }

  lemma UnmarkedUnfold(R: Registry, current: seq<Ref>, k: nat)
    requires 0 < k <= |current| && forall r :: r in current ==> Registered(R, r)
    ensures Registered(Unmarked(R, current, k - 1), current[k - 1])
    ensures Unmarked(R, current, k) == Marked(Unmarked(R, current, k - 1), current[k - 1], false)
  {
    assert current[k - 1] in current;
    hide Marked;
  }

  lemma TakenTwice<T>(a: set<T>, b: set<T>, x: T)
    ensures (a - b) - {x} == a - (b + {x})
  {
  }

  lemma {:induction false} UnmarkedFlags(R: Registry, current: seq<Ref>, k: nat)
    requires k <= |current| && forall r :: r in current ==> Registered(R, r)
    requires R == WithActive(R, current)
    ensures Unmarked(R, current, k)
            == WithFlags(R, Refs(current) - Refs(current[..k]), Ids(current) - Ids(current[..k]))
  {
    if k == 0 {
      assert current[..0] == [];
      assert Refs(current) - Refs([]) == Refs(current);
      assert Ids(current) - Ids([]) == Ids(current);
    } else {
      UnmarkedFlags(R, current, k - 1);
      OneMoreUnmarked(R, current, k);
    }
  }

  lemma OneMoreUnmarked(R: Registry, current: seq<Ref>, k: nat)
    requires 0 < k <= |current| && forall r :: r in current ==> Registered(R, r)
    requires Unmarked(R, current, k - 1)
          == WithFlags(R, Refs(current) - Refs(current[..k - 1]), Ids(current) - Ids(current[..k - 1]))
    ensures Unmarked(R, current, k)
            == WithFlags(R, Refs(current) - Refs(current[..k]), Ids(current) - Ids(current[..k]))
  {
    hide Marked, Unmarked, WithFlags, Refs, Ids, Registered;
    var front, r := current[..k - 1], current[k - 1];
    assert current[..k] == front + [r];
    assert r in current;
    UnmarkedUnfold(R, current, k);
    IdsAppend(front, r);
    RefsAppend(front, r);
    MarkOff(R, Refs(current) - Refs(front), Ids(current) - Ids(front), r);
    TakenTwice(Refs(current), Refs(front), r);
    TakenTwice(Ids(current), Ids(front), r.id);
  }

  lemma UnmarkAll(R: Registry, current: seq<Ref>)
    requires forall r :: r in current ==> Registered(R, r)
    requires R == WithActive(R, current)
    ensures Unmarked(R, current, |current|) == WithActive(R, [])
  {
    UnmarkedFlags(R, current, |current|);
    assert current[..|current|] == current;
    assert Refs(current) - Refs(current) == Refs([]);
    assert Ids(current) - Ids(current) == Ids([]);
  }

  // ----- The state of play while items are chosen -----

  /** What is left in `limbs` still leads from the present choice to the whole selection. */
  ghost predicate InPlay(R: Registry, sorted: seq<seq<Ref>>, limbs: map<Limb, seq<Ref>>, s: Choice) {
    && (forall l :: l in limbs ==> l < |sorted|)
    && ListsNeed(R, ListsOf(limbs, |sorted|))
    && Pass(R, s, Order(R, ListsOf(limbs, |sorted|))) == Pass(R, Fresh(|sorted|), Order(R, sorted))
    && (limbs.Keys == s.free || Next(R, ListsOf(limbs, |sorted|)) == -1)
  }

  lemma PlayStarts(R: Registry, sorted: seq<seq<Ref>>, limbs: map<Limb, seq<Ref>>)
    requires Indexed(R, sorted)
    requires limbs.Keys == AllLimbs(|sorted|) && forall l :: l in limbs ==> limbs[l] == sorted[l]
    ensures InPlay(R, sorted, limbs, Fresh(|sorted|))
  {
    assert ListsOf(limbs, |sorted|) == sorted;
  }

  /** What remains to be looked at. */
  ghost function Left(limbs: map<Limb, seq<Ref>>, n: nat): nat {
    Remaining(ListsOf(limbs, n)) + |limbs|
  }

  lemma FewerLimbs(limbs: map<Limb, seq<Ref>>, taken: set<Limb>)
    ensures |limbs - taken| <= |limbs|
    ensures forall l :: l in taken && l in limbs ==> |limbs - taken| < |limbs|
  {
    var kept := (limbs - taken).Keys;
    assert limbs.Keys == kept + (limbs.Keys * taken);
    assert |limbs.Keys| == |kept| + |limbs.Keys * taken|;
    if l :| l in taken && l in limbs {
      assert l in limbs.Keys * taken;
    }
  }

  lemma PlayDropsEmpty(R: Registry, sorted: seq<seq<Ref>>, limbs: map<Limb, seq<Ref>>, s: Choice, l: Limb)
    requires InPlay(R, sorted, limbs, s) && l in limbs && limbs[l] == []
    requires Next(R, ListsOf(limbs, |sorted|)) == -1
    ensures InPlay(R, sorted, limbs - {l}, s)
    ensures Left(limbs - {l}, |sorted|) < Left(limbs, |sorted|)
  {
    FewerLimbs(limbs, {l});
    assert ListsOf(limbs - {l}, |sorted|) == ListsOf(limbs, |sorted|);
  }

  /** In play, the head of the best list is eligible exactly when its group is entitled and the
      limbs it needs are all still in the map. */
  lemma PlayFits(R: Registry, sorted: seq<seq<Ref>>, limbs: map<Limb, seq<Ref>>, s: Choice)
    requires InPlay(R, sorted, limbs, s) && Next(R, ListsOf(limbs, |sorted|)) >= 0
    ensures Registered(R, limbs[Next(R, ListsOf(limbs, |sorted|))][0])
    ensures var r := limbs[Next(R, ListsOf(limbs, |sorted|))][0];
      Eligible(R, s, r) <==> (IsMain(R, r) || GroupActive(s.chosen, r.id)) && LimbsOf(R, r) <= limbs.Keys
  {
    var b := Next(R, ListsOf(limbs, |sorted|));
    assert limbs[b][0] in ListsOf(limbs, |sorted|)[b];
    assert b in LimbsOf(R, limbs[b][0]);
  }

  lemma PlaySkips(R: Registry, sorted: seq<seq<Ref>>, limbs: map<Limb, seq<Ref>>, s: Choice)
    requires InPlay(R, sorted, limbs, s) && Next(R, ListsOf(limbs, |sorted|)) >= 0
    requires !Eligible(R, s, limbs[Next(R, ListsOf(limbs, |sorted|))][0])
    ensures var b := Next(R, ListsOf(limbs, |sorted|));
      && InPlay(R, sorted, limbs[b := limbs[b][1..]], s)
      && Left(limbs[b := limbs[b][1..]], |sorted|) < Left(limbs, |sorted|)
  {
    var lists := ListsOf(limbs, |sorted|);
    var b := Next(R, lists);
    FirstAttempt(R, s, lists);
    AdvanceShrinks(lists, b);
    AdvanceKeepsNeed(R, lists, b);
    assert ListsOf(limbs[b := limbs[b][1..]], |sorted|) == Advance(lists, b);
    assert limbs[b := limbs[b][1..]].Keys == limbs.Keys;
  }

  lemma WithoutKeepsNeed(R: Registry, lists: seq<seq<Ref>>, taken: set<Limb>)
    requires ListsNeed(R, lists)
    ensures ListsNeed(R, Without(lists, taken))
  {
  }

  /** Accepting the best head of the lists amounts to passing over it and dropping the lists of
      its limbs. */
  lemma AcceptDropsLists(R: Registry, lists: seq<seq<Ref>>, s: Choice, r: Ref)
    requires Next(R, lists) >= 0 && r == lists[Next(R, lists)][0]
    requires ListsNeed(R, lists) && Eligible(R, s, r)
    ensures var kept := Without(Advance(lists, Next(R, lists)), LimbsOf(R, r));
      && Pass(R, s, Order(R, lists)) == Pass(R, Try(R, s, r), Order(R, kept))
      && ListsNeed(R, kept) && Remaining(kept) < Remaining(lists)
  {
    var b := Next(R, lists);
    var next := Advance(lists, b);
    FirstAttempt(R, s, lists);
    AdvanceShrinks(lists, b);
    AdvanceKeepsNeed(R, lists, b);
    DroppedListsAreIdle(R, Try(R, s, r), next, LimbsOf(R, r));
    WithoutShrinks(next, LimbsOf(R, r));
    WithoutKeepsNeed(R, next, LimbsOf(R, r));
  }

  lemma ListsWithout(limbs: map<Limb, seq<Ref>>, n: nat, b: Limb, taken: set<Limb>)
    requires b < n && b in taken && ListsOf(limbs, n)[b] != []
    ensures ListsOf(limbs - taken, n) == Without(Advance(ListsOf(limbs, n), b), taken)
  {
  }

  lemma PlayAccepts(R: Registry, sorted: seq<seq<Ref>>, limbs: map<Limb, seq<Ref>>, s: Choice)
    requires InPlay(R, sorted, limbs, s) && Next(R, ListsOf(limbs, |sorted|)) >= 0
    requires Eligible(R, s, limbs[Next(R, ListsOf(limbs, |sorted|))][0])
    ensures var r := limbs[Next(R, ListsOf(limbs, |sorted|))][0];
      && InPlay(R, sorted, limbs - LimbsOf(R, r), Try(R, s, r))
      && Left(limbs - LimbsOf(R, r), |sorted|) < Left(limbs, |sorted|)
  {
    var lists := ListsOf(limbs, |sorted|);
    var b := Next(R, lists);
    var r := lists[b][0];
    assert r in lists[b];
    AcceptDropsLists(R, lists, s, r);
    FewerLimbs(limbs, LimbsOf(R, r));
    ListsWithout(limbs, |sorted|, b, LimbsOf(R, r));
    assert (limbs - LimbsOf(R, r)).Keys == limbs.Keys - LimbsOf(R, r);
  }

  lemma PlayEnds(R: Registry, sorted: seq<seq<Ref>>, s: Choice)
    requires InPlay(R, sorted, map[], s)
    ensures s.chosen == Chosen(R, sorted)
  {
    assert Next(R, ListsOf(map[], |sorted|)) == -1;
  }

  lemma ActiveGroups(R: Registry, current: seq<Ref>, id: nat)
    requires id in R
    ensures WithActive(R, current)[id].active <==> GroupActive(current, id)
  {
  }

  // ----- Groups of limbs -----

  ghost function Union(m: map<nat, set<Limb>>, ids: seq<nat>): set<Limb>
    requires forall id :: id in ids ==> id in m
  {
    if ids == [] then {} else Union(m, ids[..|ids| - 1]) + m[ids[|ids| - 1]]
  }

  lemma {:induction false} UnionOf(m: map<nat, set<Limb>>, ids: seq<nat>, l: Limb)
    requires forall id :: id in ids ==> id in m
    ensures l in Union(m, ids) <==> exists id :: id in ids && l in m[id]
    decreases |ids|
  {
    if ids != [] {
      assert ids == ids[..|ids| - 1] + [ids[|ids| - 1]];
      UnionOf(m, ids[..|ids| - 1], l);
    }
  }

  lemma OneMoreKill(m: map<nat, set<Limb>>, ids: seq<nat>, k: nat)
    requires k < |ids| && forall id :: id in ids ==> id in m
    ensures forall id :: id in ids[..k + 1] ==> id in m
    ensures Kills(m, ids[..k + 1]) == Kills(m, ids[..k]) + [Kill(ids[k], m[ids[k]])]
    ensures Union(m, ids[..k + 1]) == Union(m, ids[..k]) + m[ids[k]]
  {
    assert ids[..k + 1][..k] == ids[..k];
  }

  /** A log extended by the first k completed callbacks. */
  ghost function WithCompletions(log: seq<Effect>, m: map<nat, set<Servo>>, ids: seq<nat>, k: nat): seq<Effect>
    requires k <= |ids| && forall id :: id in ids ==> id in m
  {
    log + Completions(m, ids[..k])
  }

  lemma OneMoreCompletion(log: seq<Effect>, m: map<nat, set<Servo>>, ids: seq<nat>, k: nat)
    requires k < |ids| && forall id :: id in ids ==> id in m
    ensures WithCompletions(log, m, ids, k + 1) == WithCompletions(log, m, ids, k) + [Completed(ids[k], m[ids[k]])]
  {
    assert ids[..k + 1][..k] == ids[..k];
  }

  lemma AllCompletions(log: seq<Effect>, m: map<nat, set<Servo>>, ids: seq<nat>)
    requires forall id :: id in ids ==> id in m
    ensures WithCompletions(log, m, ids, 0) == log
    ensures WithCompletions(log, m, ids, |ids|) == log + Completions(m, ids)
  {
    assert ids[..|ids|] == ids;
  }

  /** A log extended by the first k start callbacks. */
  ghost function WithStarts(log: seq<Effect>, m: map<nat, set<Limb>>, ids: seq<nat>, k: nat): seq<Effect>
    requires k <= |ids| && forall id :: id in ids ==> id in m
  {
    log + Starts(m, ids[..k])
  }

  lemma OneMoreStart(log: seq<Effect>, m: map<nat, set<Limb>>, ids: seq<nat>, k: nat)
    requires k < |ids| && forall id :: id in ids ==> id in m
    ensures WithStarts(log, m, ids, k + 1) == WithStarts(log, m, ids, k) + [Start(ids[k], m[ids[k]])]
  {
    assert ids[..k + 1][..k] == ids[..k];
  }

  lemma AllStarts(log: seq<Effect>, m: map<nat, set<Limb>>, ids: seq<nat>)
    requires forall id :: id in ids ==> id in m
    ensures WithStarts(log, m, ids, 0) == log
    ensures WithStarts(log, m, ids, |ids|) == log + Starts(m, ids)
  {
    assert ids[..|ids|] == ids;
  }

  lemma UnionIsMentioned(m: map<nat, set<Limb>>)
    ensures forall l :: l in Union(m, Ascending(m.Keys)) <==> Mentions(m, l)
  {
    forall l ensures l in Union(m, Ascending(m.Keys)) <==> Mentions(m, l) {
      UnionOf(m, Ascending(m.Keys), l);
    }
  }

  lemma GroupsKnown(R: Registry, items: seq<Ref>)
    requires forall r :: r in items ==> Registered(R, r)
    ensures forall id :: id in Groups(R, items) ==> id in R
  {
    forall id | id in Groups(R, items) ensures id in R {
      GroupsMention(R, items, id, 0);
    }
  }

  lemma Joined<T>(a: seq<T>, b: seq<T>, c: seq<T>)
    ensures (a + b) + c == a + (b + c)
  {
  }

  lemma {:induction false} GroupsSameItems(R: Registry, R': Registry, items: seq<Ref>)
    requires SameItems(R, R')
    ensures Groups(R, items) == Groups(R', items)
  {
    if items != [] {
      GroupsSameItems(R, R', items[..|items| - 1]);
    }
  }

  lemma ActiveInAnyOrder(R: Registry, a: seq<Ref>, b: seq<Ref>)
    requires forall r :: r in a <==> r in b
    ensures WithActive(R, a) == WithActive(R, b)
  {
    assert Refs(a) == Refs(b);
    forall id ensures id in Ids(a) <==> id in Ids(b) {
      if k :| 0 <= k < |a| && a[k].id == id {
        assert a[k] in b;
      }
      if k :| 0 <= k < |b| && b[k].id == id {
        assert b[k] in a;
      }
    }
    assert Ids(a) == Ids(b);
  }

  /** The pieces a selection is made of, put together. */
  lemma SelectInPieces(s: State, R': Registry, chosen: seq<Ref>)
    requires Ready(s) && chosen == SelectedItems(s) && R' == WithActive(s.requests, chosen)
    ensures var t := Select(s).state;
      && t.requests == R' && t.current == SortRefs(chosen)
      && t.limbAccess == Holders(R', chosen, LIMB_COUNT)
      && t.queues == Cleared(s.queues, Groups(R', Difference(s.current, SortRefs(chosen))))
      && Select(s).effects == Callbacks(R', s.current, SortRefs(chosen))
    ensures forall r :: r in SortRefs(chosen) || r in s.current ==> Registered(R', r)
  {
    var R, current := s.requests, SortRefs(chosen);
    SelectionFacts(s);
    FlagsKeepItems(R, Refs(chosen), Ids(chosen));
    ActiveInAnyOrder(R, chosen, current);
    HoldersSameLimbs(R, R', chosen, LIMB_COUNT);
    GroupsSameItems(R, R', Difference(s.current, current));
    GroupsSameItems(R, R', Difference(current, s.current));
  }

  lemma SelectedAre(s: State)
    requires Ready(s)
    ensures SelectedItems(s) == Chosen(s.requests, SortedLists(s.requests, s.actions))
    ensures Indexed(s.requests, s.actions) && |s.queues| == SERVO_COUNT
    ensures Select(s).state.actions == SortedLists(s.requests, s.actions)
  {
    hide Chosen, SortedLists;
  }

  lemma CurrentAreKnown(s: State)
    requires Ready(s)
    ensures forall r :: r in s.current ==> Registered(s.requests, r)
    ensures s.requests == WithActive(s.requests, s.current)
  {
  }

  lemma UpdateInPieces(s: State, id: nat, ps: seq<real>)
    requires |s.queues| == SERVO_COUNT && FitsRequest(s, id, ps)
    ensures Update(s, id, ps)
         == if MustReselect(s.requests[id], ps) then Select(Stored(s, id, ps)) else Outcome(Stored(s, id, ps), [])
  {
    hide Select, MustReselect, Reprioritised;
  }

  class Controller {
    const actions: array<seq<Ref>>
    const limbAccess: array<nat>
    var requests: Registry
    var currentActions: seq<Ref>
    const commandQueues: array<seq<Command>>
    var log: seq<Effect>          // callbacks made and messages sent out, in order

    ghost predicate Shaped()
      reads this
    {
      actions.Length == LIMB_COUNT && limbAccess.Length == LIMB_COUNT && commandQueues.Length == SERVO_COUNT
    }

    ghost function Now(): State
      reads this, actions, limbAccess, commandQueues
    {
      State(requests, actions[..], limbAccess[..], currentActions, commandQueues[..])
    }

    constructor ()
      ensures Shaped() && fresh(actions) && fresh(limbAccess) && fresh(commandQueues)
      ensures Ready(Now()) && requests == map[] && currentActions == [] && log == []
    {
      actions := new seq<Ref>[LIMB_COUNT](_ => []);
      limbAccess := new nat[LIMB_COUNT];
      commandQueues := new seq<Command>[SERVO_COUNT](_ => []);
      requests := map[];
      currentActions := [];
      log := [];
      new;
      assert requests == WithActive(requests, currentActions);
    }

    /** Marks an item and its group active, or inactive. */
    method SetActive(r: Ref, active: bool)
      requires Registered(requests, r)
      modifies this`requests
      ensures requests == Marked(old(requests), r, active)
    {
      var group := requests[r.id];
      var item := group.items[r.index].(active := active);
      requests := requests[r.id := group.(active := active, items := group.items[r.index := item])];
    }

    method SortActions()
      requires Shaped()
      modifies actions
      ensures actions[..] == SortedLists(requests, old(actions[..]))
    {
      for l := 0 to LIMB_COUNT
        invariant forall k :: 0 <= k < l ==> actions[k] == StableSort(requests, old(actions[k]))
        invariant forall k :: l <= k < LIMB_COUNT ==> actions[k] == old(actions[k])
      {
        actions[l] := StableSort(requests, actions[l]);
      }
    }

    method ClearActive()
      requires forall r :: r in currentActions ==> Registered(requests, r)
      requires requests == WithActive(requests, currentActions)
      modifies this`requests
      ensures requests == WithActive(old(requests), [])
    {
      ghost var R := requests;
      for k := 0 to |currentActions|
        invariant requests == Unmarked(R, currentActions, k)
      {
        assert currentActions[k] in currentActions;
        SetActive(currentActions[k], false);
      }
      UnmarkAll(R, currentActions);
    }

    /** The limb whose list has the greatest head; the first of equals; the last limb when every
        list is empty. */
    method LargestHead(limbs: map<Limb, seq<Ref>>, ghost R: Registry) returns (best: Limb)
      requires limbs != map[] && forall l :: l in limbs ==> l < LIMB_COUNT
      requires SameItems(R, requests)
      ensures best in limbs
      ensures var next := Next(R, ListsOf(limbs, LIMB_COUNT));
        if next == -1 then limbs[best] == [] else best == next
    {
      ghost var lists := ListsOf(limbs, LIMB_COUNT);
      var l :| l in limbs;
      var found := false;
      best := l;
      for k := 0 to LIMB_COUNT
        invariant !found ==> forall i :: 0 <= i < k ==> i !in limbs
        invariant found ==> best in limbs && best < k
        invariant found && Best(R, lists, k) == -1 ==> limbs[best] == []
        invariant found && Best(R, lists, k) != -1 ==> best == Best(R, lists, k)
      {
        if k in limbs {
          if !found || Loses(limbs[best], limbs[k]) {
            best := k;
          }
          found := true;
        }
      }
    }

    /** A list compares below another when it is empty, or when both have heads and its head has
        the smaller priority. */
    predicate Loses(a: seq<Ref>, b: seq<Ref>)
      reads this`requests
    {
      a == [] || (b != [] && Priority(requests, a[0]) < Priority(requests, b[0]))
    }

    /** Is the item its group's main item, or its group active already, and are its limbs left? */
    method Fits(action: Ref, limbs: map<Limb, seq<Ref>>) returns (fits: bool)
      requires Registered(requests, action)
      ensures fits <==>
              (IsMain(requests, action) || requests[action.id].active) && LimbsOf(requests, action) <= limbs.Keys
    {
      fits := IsMain(requests, action) || requests[action.id].active;
      if fits {
        fits := HasLimbs(Ascending(LimbsOf(requests, action)), Ascending(limbs.Keys));
      }
    }

    /** Looks at the greatest head among the lists: gives up an empty list, takes a suitable item
        together with its limbs, or passes over an unsuitable one. */
    method ConsiderNext(limbs: map<Limb, seq<Ref>>, newActions: seq<Ref>,
                        ghost R: Registry, ghost sorted: seq<seq<Ref>>, ghost s: Choice)
      returns (limbs': map<Limb, seq<Ref>>, newActions': seq<Ref>, ghost s': Choice)
      requires limbs != map[] && |sorted| == LIMB_COUNT
      requires requests == WithActive(R, newActions)
      requires InPlay(R, sorted, limbs, s) && s.chosen == newActions
      modifies this`requests
      ensures requests == WithActive(R, newActions')
      ensures InPlay(R, sorted, limbs', s') && s'.chosen == newActions'
      ensures Left(limbs', LIMB_COUNT) < Left(limbs, LIMB_COUNT)
    {
      limbs', newActions', s' := limbs, newActions, s;
      FlagsKeepItems(R, Refs(newActions), Ids(newActions));
      var maxIt := LargestHead(limbs, R);
      if limbs[maxIt] == [] {
        PlayDropsEmpty(R, sorted, limbs, s, maxIt);
        limbs' := limbs - {maxIt};
      } else {
        var action := limbs[maxIt][0];
        PlayFits(R, sorted, limbs, s);
        ActiveGroups(R, newActions, action.id);
        var fits := Fits(action, limbs);
        if fits {
          PlayAccepts(R, sorted, limbs, s);
          MarkOn(R, newActions, action);
          s' := Try(R, s, action);
          limbs' := limbs - LimbsOf(requests, action);
          SetActive(action, true);
          newActions' := newActions + [action];
        } else {
          PlaySkips(R, sorted, limbs, s);
          limbs' := limbs[maxIt := limbs[maxIt][1..]];
        }
      }
    }

    method AllLists() returns (limbs: map<Limb, seq<Ref>>)
      requires Shaped()
      ensures limbs.Keys == AllLimbs(LIMB_COUNT) && forall l :: l in limbs ==> limbs[l] == actions[..][l]
    {
      limbs := map l: Limb | l in AllLimbs(LIMB_COUNT) :: actions[l];
    }

    /** The selection proper. The lists are sorted and nothing is active; items are taken from
        the list with the greatest head until every list is used up or its limb is taken. */
    method ChooseItems(ghost R: Registry) returns (newActions: seq<Ref>)
      requires Shaped() && requests == WithActive(R, [])
      requires Indexed(R, actions[..])
      modifies this`requests
      ensures newActions == Chosen(R, actions[..])
      ensures requests == WithActive(R, newActions)
    {
      ghost var sorted := actions[..];
      newActions := [];
      var limbs := AllLists();
      ghost var s := Fresh(LIMB_COUNT);
      PlayStarts(R, sorted, limbs);
      while limbs != map[]
        invariant requests == WithActive(R, newActions)
        invariant InPlay(R, sorted, limbs, s) && s.chosen == newActions
        decreases Left(limbs, LIMB_COUNT)
      {
        limbs, newActions, s := ConsiderNext(limbs, newActions, R, sorted, s);
      }
      PlayEnds(R, sorted, s);
    }

    /** Gives every limb to the group of the item chosen for it, and takes back all others. */
    method GrantLimbs(chosen: seq<Ref>)
      requires Shaped()
      modifies limbAccess
      ensures limbAccess[..] == Holders(requests, chosen, LIMB_COUNT)
    {
      for l := 0 to LIMB_COUNT
        invariant forall i :: 0 <= i < l ==> limbAccess[i] == 0
      {
        limbAccess[l] := 0;
      }
      for k := 0 to |chosen|
        invariant forall i :: 0 <= i < LIMB_COUNT ==> limbAccess[i] == HolderOf(requests, chosen[..k], i)
      {
        assert chosen[..k + 1][..k] == chosen[..k];
        for l := 0 to LIMB_COUNT
          invariant forall i :: 0 <= i < l ==> limbAccess[i] == HolderOf(requests, chosen[..k + 1], i)
          invariant forall i :: l <= i < LIMB_COUNT ==> limbAccess[i] == HolderOf(requests, chosen[..k], i)
        {
          if l in LimbsOf(requests, chosen[k]) {
            limbAccess[l] := chosen[k].id;
          }
        }
      }
      assert chosen[..|chosen|] == chosen;
    }

    /** The limbs of the items, collected by group. */
    method CollectLimbs(items: seq<Ref>) returns (m: map<nat, set<Limb>>)
      ensures m == Groups(requests, items)
    {
      m := map[];
      for k := 0 to |items|
        invariant m == Groups(requests, items[..k])
      {
        assert items[..k + 1][..k] == items[..k];
        var r := items[k];
        m := m[r.id := (if r.id in m then m[r.id] else {}) + LimbsOf(requests, r)];
      }
      assert items[..|items|] == items;
    }

    method ClearLimb(limb: Limb)
      requires Shaped()
      modifies commandQueues
      ensures forall s: Servo :: s < SERVO_COUNT ==>
        commandQueues[s] == if LimbForServo(s) == limb then [] else old(commandQueues[s])
    {
      for servo := 0 to SERVO_COUNT
        invariant forall s: Servo ::
          commandQueues[s] == if s < servo && LimbForServo(s) == limb then [] else old(commandQueues[s])
      {
        TablesAreInverse(servo, limb);
        if servo in ServosForLimb(limb) {
          commandQueues[servo] := [];
        }
      }
    }

    method ClearLimbs(limbs: set<Limb>)
      requires Shaped()
      modifies commandQueues
      ensures forall s: Servo :: commandQueues[s] == if LimbForServo(s) in limbs then [] else old(commandQueues[s])
    {
      for limb := 0 to LIMB_COUNT
        invariant forall s: Servo ::
          commandQueues[s] == if LimbForServo(s) < limb && LimbForServo(s) in limbs then [] else old(commandQueues[s])
      {
        if limb in limbs {
          ClearLimb(limb);
        }
      }
      forall s: Servo ensures LimbForServo(s) < LIMB_COUNT {
        TablesAreInverse(s, 0);
      }
    }

    /** Tells each group in turn which of its limbs are killed, and clears the limbs' queues. */
    method KillEach(killMap: map<nat, set<Limb>>, ids: seq<nat>)
      requires Shaped()
      requires forall id :: id in ids ==> id in killMap && id in requests
      modifies this`log, commandQueues
      ensures log == old(log) + Kills(killMap, ids)
      ensures forall s: Servo ::
        commandQueues[s] == if LimbForServo(s) in Union(killMap, ids) then [] else old(commandQueues[s])
    {
      for k := 0 to |ids|
        invariant log == old(log) + Kills(killMap, ids[..k])
        invariant forall s: Servo ::
          commandQueues[s] == if LimbForServo(s) in Union(killMap, ids[..k]) then [] else old(commandQueues[s])
      {
        var id := ids[k];
        assert id in ids && id in requests;
        OneMoreKill(killMap, ids, k);
        Joined(old(log), Kills(killMap, ids[..k]), [Kill(id, killMap[id])]);
        log := log + [Kill(id, killMap[id])];
        ClearLimbs(killMap[id]);
      }
      assert ids[..|ids|] == ids;
    }

    method KillAll(killMap: map<nat, set<Limb>>)
      requires Shaped()
      requires forall id :: id in killMap ==> id in requests
      modifies this`log, commandQueues
      ensures log == old(log) + Kills(killMap, Ascending(killMap.Keys))
      ensures commandQueues[..] == Cleared(old(commandQueues[..]), killMap)
    {
      UnionIsMentioned(killMap);
      KillEach(killMap, Ascending(killMap.Keys));
    }

    method StartAll(startMap: map<nat, set<Limb>>)
      requires forall id :: id in startMap ==> id in requests
      modifies this`log
      ensures log == old(log) + Starts(startMap, Ascending(startMap.Keys))
    {
      var ids := Ascending(startMap.Keys);
      hide WithStarts, Starts, Ascending;
      AllStarts(log, startMap, ids);
      for k := 0 to |ids|
        invariant log == WithStarts(old(log), startMap, ids, k)
      {
        assert ids[k] in ids && ids[k] in requests;
        OneMoreStart(old(log), startMap, ids, k);
        log := log + [Start(ids[k], startMap[ids[k]])];
      }
    }

    method CallBack(killMap: map<nat, set<Limb>>, startMap: map<nat, set<Limb>>)
      requires Shaped()
      requires forall id :: id in killMap || id in startMap ==> id in requests
      modifies this`log, commandQueues
      ensures log == old(log) + (Kills(killMap, Ascending(killMap.Keys)) + Starts(startMap, Ascending(startMap.Keys)))
      ensures commandQueues[..] == Cleared(old(commandQueues[..]), killMap)
    {
      KillAll(killMap);
      StartAll(startMap);
      Joined(old(log), Kills(killMap, Ascending(killMap.Keys)), Starts(startMap, Ascending(startMap.Keys)));
    }

    /** Kills what is no longer selected, then starts what is newly selected. */
    method SwitchTo(newActions: seq<Ref>)
      requires Shaped()
      requires forall r :: r in newActions || r in currentActions ==> Registered(requests, r)
      modifies this`log, this`currentActions, commandQueues
      ensures currentActions == newActions
      ensures log == old(log) + Callbacks(requests, old(currentActions), newActions)
      ensures commandQueues[..]
              == Cleared(old(commandQueues[..]), Groups(requests, Difference(old(currentActions), newActions)))
    {
      var start, kill := Difference(newActions, currentActions), Difference(currentActions, newActions);
      GroupsKnown(requests, kill);
      GroupsKnown(requests, start);
      var killMap := CollectLimbs(kill);
      var startMap := CollectLimbs(start);
      CallBack(killMap, startMap);
      currentActions := newActions;
    }

    /** Sorts the lists and chooses from them, marking what is chosen active. */
    method Choose() returns (newActions: seq<Ref>)
      requires Shaped() && Ready(Now())
      modifies this`requests, actions
      ensures actions[..] == Select(old(Now())).state.actions
      ensures newActions == SelectedItems(old(Now())) && requests == WithActive(old(requests), newActions)
    {
      ghost var s := Now();
      SortingKeepsIndex(requests, s.actions);
      SelectedAre(s);
      CurrentAreKnown(s);
      hide Ready, Select, Chosen, SortedLists;
      SortActions();
      ClearActive();
      newActions := ChooseItems(s.requests);
    }

    /** Selects afresh and makes the change. */
    method SelectAction()
      requires Shaped() && Ready(Now())
      modifies this, actions, limbAccess, commandQueues
      ensures Now() == Select(old(Now())).state
      ensures log == old(log) + Select(old(Now())).effects
    {
      ghost var s := Now();
      CurrentAreKnown(s);
      hide Ready, Select, Chosen, SortedLists, Callbacks, Holders, Cleared, Groups;
      var newActions := Choose();
      SelectInPieces(s, requests, newActions);
      GrantLimbs(newActions);
      SwitchTo(SortRefs(newActions));
    }

    // ----- Handlers -----

    /** Appends item i of a proposal to the list of each limb it needs. */
    method EnlistItem(id: nat, proposal: Proposal, i: nat)
      requires Shaped() && i < |proposal|
      modifies actions
      ensures forall l :: 0 <= l < LIMB_COUNT ==>
        actions[l] == old(actions[l]) + (if l in proposal[i].1 then [Ref(id, i)] else [])
    {
      for l := 0 to LIMB_COUNT
        invariant forall k :: 0 <= k < l ==>
          actions[k] == old(actions[k]) + (if k in proposal[i].1 then [Ref(id, i)] else [])
        invariant forall k :: l <= k < LIMB_COUNT ==> actions[k] == old(actions[k])
      {
        if l in proposal[i].1 {
          actions[l] := actions[l] + [Ref(id, i)];
        }
      }
    }

    method EnlistItems(id: nat, proposal: Proposal) returns (items: seq<Item>)
      requires Shaped()
      modifies actions
      ensures |items| == |proposal|
      ensures forall i :: 0 <= i < |proposal| ==> items[i] == Item(false, proposal[i].0, proposal[i].1)
      ensures actions[..] == WithItems(old(actions[..]), proposal, id)
    {
      items := [];
      for i := 0 to |proposal|
        invariant |items| == i
        invariant forall k :: 0 <= k < i ==> items[k] == Item(false, proposal[k].0, proposal[k].1)
        invariant forall l :: 0 <= l < LIMB_COUNT ==> actions[l] == old(actions[l]) + Needing(proposal, id, l, i)
      {
        items := items + [Item(false, proposal[i].0, proposal[i].1)];
        EnlistItem(id, proposal, i);
      }
    }

    /** The index of the first greatest element. */
    static method MaxElement(ps: seq<real>) returns (m: nat)
      requires ps != []
      ensures m == FirstMax(ps)
    {
      m := 0;
      for k := 1 to |ps|
        invariant m < k && m == FirstMax(ps[..k])
      {
        assert ps[..k + 1][..k] == ps[..k];
        if ps[m] < ps[k] {
          m := k;
        }
      }
      assert ps[..|ps|] == ps;
    }

    /** Registers a group of items; refuses, where the original throws, an id that is reserved or
        already taken. */
    method RegisterAction(id: nat, proposal: Proposal) returns (refused: bool)
      requires Shaped() && proposal != []
      modifies this`requests, actions
      ensures refused == Refused(old(Now()), id)
      ensures Now() == Register(old(Now()), id, proposal).state
    {
      if id == 0 || id in requests {
        return true;
      }
      var items := EnlistItems(id, proposal);
      var m := MaxElement(Priorities(proposal));
      requests := requests[id := Request(false, items[m].priority, m, items)];
      assert requests[id] == NewRequest(proposal);
      return false;
    }

    /** The first selection. */
    method Startup()
      requires Shaped() && Ready(Now())
      modifies this, actions, limbAccess, commandQueues
      ensures Now() == Select(old(Now())).state
      ensures log == old(log) + Select(old(Now())).effects
      ensures Inv(Now())
    {
      SelectEstablishes(Now());
      SelectAction();
    }

    /** Stores the new priorities one by one and notes whether any of them is adverse. */
    static method StorePriorities(q: Request, ps: seq<real>) returns (items: seq<Item>, adverse: bool)
      requires |ps| == |q.items|
      ensures |items| == |ps| && forall i :: 0 <= i < |ps| ==> items[i] == q.items[i].(priority := ps[i])
      ensures adverse <==> exists i :: 0 <= i < |ps| && Adverse(q, ps, i)
    {
      items, adverse := q.items, false;
      for i := 0 to |ps|
        invariant |items| == |ps|
        invariant forall k :: 0 <= k < i ==> items[k] == q.items[k].(priority := ps[k])
        invariant forall k :: i <= k < |ps| ==> items[k] == q.items[k]
        invariant adverse <==> exists k :: 0 <= k < i && Adverse(q, ps, k)
      {
        var up := items[i].priority < ps[i];
        var down := items[i].priority > ps[i];
        var active := items[i].active;
        assert (up != down && ((active && down) || (!active && up))) <==> Adverse(q, ps, i);
        adverse := adverse || (up != down && ((active && down) || (!active && up)));
        items := items[i := items[i].(priority := ps[i])];
      }
    }

    method StoreUpdate(id: nat, ps: seq<real>) returns (reselect: bool)
      requires FitsRequest(Now(), id, ps)
      modifies this`requests
      ensures Now() == Stored(old(Now()), id, ps)
      ensures reselect == MustReselect(old(requests)[id], ps)
    {
      var request := requests[id];
      var mainElement := MaxElement(ps);
      reselect := mainElement != request.mainElement;
      var items, adverse := StorePriorities(request, ps);
      reselect := reselect || adverse;
      requests := requests[id := request.(mainElement := mainElement, maxPriority := ps[mainElement], items := items)];
      assert items == Reprioritised(request, ps).items;
    }

    /** Stores new priorities, and selects afresh only if the update calls for it. */
    method UpdatePriorities(id: nat, ps: seq<real>)
      requires Shaped() && Inv(Now()) && FitsRequest(Now(), id, ps)
      modifies this, actions, limbAccess, commandQueues
      ensures Now() == Update(old(Now()), id, ps).state
      ensures log == old(log) + Update(old(Now()), id, ps).effects
    {
      StoredIsReady(Now(), id, ps);
      UpdateInPieces(Now(), id, ps);
      hide Select, Stored, Update, MustReselect, Ready;
      var reselect := StoreUpdate(id, ps);
      if reselect {
        SelectAction();
      }
    }

    /** Takes one command into its servo's queue, in place of any that are later. */
    method Enqueue(command: Command)
      requires Shaped()
      modifies commandQueues
      ensures commandQueues[..]
              == old(commandQueues[..])[command.id := Push(old(commandQueues[..])[command.id], command)]
    {
      var queue := commandQueues[command.id];
      while queue != [] && command.time < queue[|queue| - 1].time
        invariant PopLater(queue, command.time) == PopLater(commandQueues[command.id], command.time)
        decreases |queue|
      {
        queue := queue[..|queue| - 1];
      }
      commandQueues[command.id] := queue + [command];
    }

    method CommandFilter(commands: seq<Command>)
      requires Shaped()
      modifies commandQueues
      ensures Now() == Filter(old(Now()), commands)
    {
      ghost var s := Now();
      for k := 0 to |commands|
        invariant Now() == Filter(s, commands[..k])
      {
        assert commands[..k + 1][..k] == commands[..k];
        var command := commands[k];
        TablesAreInverse(command.id, 0);
        if limbAccess[LimbForServo(command.id)] == command.source {
          Enqueue(command);
        }
      }
      assert commands[..|commands|] == commands;
    }

    /** One servo's turn: an expired front is dropped, and a front not sent yet is sent. */
    method Serve(i: nat, now: int) returns (emptied: seq<Servo>, waypoint: seq<Target>)
      requires Shaped() && i < SERVO_COUNT
      modifies commandQueues
      ensures commandQueues[..] == old(commandQueues[..])[i := MarkSent(Expire(old(commandQueues[..])[i], now))]
      ensures waypoint == SentFrom(old(commandQueues[i]), now)
      ensures var q := old(commandQueues[i]);
        emptied == if Expired(q, now) && Expire(q, now) == [] then [q[0].id] else []
    {
      var queue := commandQueues[i];
      emptied, waypoint := [], [];
      if queue != [] && queue[0].time < now {
        var id := queue[0].id;
        queue := queue[1..];
        if queue == [] {
          emptied := [id];
        }
      }
      if queue != [] && queue[0].source != 0 {
        waypoint := [TargetOf(queue[0])];
        queue := queue[0 := queue[0].(source := 0)];
      }
      commandQueues[i] := queue;
    }

    method ServeAll(now: int) returns (emptied: seq<Servo>, waypoints: seq<Target>)
      requires Shaped()
      modifies commandQueues
      ensures commandQueues[..] == Served(old(commandQueues[..]), now)
      ensures emptied == Emptied(old(commandQueues[..]), now, SERVO_COUNT)
      ensures waypoints == Sent(old(commandQueues[..]), now, SERVO_COUNT)
    {
      emptied, waypoints := [], [];
      for i := 0 to SERVO_COUNT
        invariant forall k :: 0 <= k < i ==> commandQueues[k] == MarkSent(Expire(old(commandQueues[k]), now))
        invariant forall k :: i <= k < SERVO_COUNT ==> commandQueues[k] == old(commandQueues[k])
        invariant emptied == Emptied(old(commandQueues[..]), now, i)
        invariant waypoints == Sent(old(commandQueues[..]), now, i)
      {
        var e, w := Serve(i, now);
        emptied, waypoints := emptied + e, waypoints + w;
      }
    }

    /** Every holder's completion callback is looked up among the registered groups. */
    method ReportCompletions(completeMap: map<nat, set<Servo>>)
      requires forall id :: id in completeMap ==> id in requests
      modifies this`log
      ensures log == old(log) + Completions(completeMap, Ascending(completeMap.Keys))
    {
      var ids := Ascending(completeMap.Keys);
      hide WithCompletions, Completions, Ascending;
      AllCompletions(log, completeMap, ids);
      for k := 0 to |ids|
        invariant log == WithCompletions(old(log), completeMap, ids, k)
      {
        assert ids[k] in ids && ids[k] in requests;
        OneMoreCompletion(old(log), completeMap, ids, k);
        log := log + [Completed(ids[k], completeMap[ids[k]])];
      }
    }

    method CollectServos(emptied: seq<Servo>) returns (m: map<nat, set<Servo>>)
      requires Shaped()
      ensures m == ByHolder(limbAccess[..], emptied)
    {
      m := map[];
      for k := 0 to |emptied|
        invariant m == ByHolder(limbAccess[..], emptied[..k])
      {
        assert emptied[..k + 1][..k] == emptied[..k];
        var servo := emptied[k];
        TablesAreInverse(servo, 0);
        var id := limbAccess[LimbForServo(servo)];
        m := m[id := (if id in m then m[id] else {}) + {servo}];
      }
      assert emptied[..|emptied|] == emptied;
    }

    method SendOut(waypoints: seq<Target>, completeMap: map<nat, set<Servo>>)
      requires forall id :: id in completeMap ==> id in requests
      modifies this`log
      ensures log == old(log) + ((if waypoints == [] then [] else [Waypoints(waypoints)])
                                 + Completions(completeMap, Ascending(completeMap.Keys)))
    {
      ghost var sent := if waypoints == [] then [] else [Waypoints(waypoints)];
      if waypoints != [] {
        log := log + [Waypoints(waypoints)];
      }
      assert log == old(log) + sent;
      ReportCompletions(completeMap);
      Joined(old(log), sent, Completions(completeMap, Ascending(completeMap.Keys)));
    }

    method ServeAndReport(now: int)
      requires Shaped() && HoldersKnown(Now(), now)
      modifies this`log, commandQueues
      ensures Now() == Dispatch(old(Now()), now).state
      ensures log == old(log) + Dispatch(old(Now()), now).effects
    {
      var emptiedQueues, waypoints := ServeAll(now);
      var completeMap := CollectServos(emptiedQueues);
      SendOut(waypoints, completeMap);
    }

    /** One round of the dispatcher, at time `now`. */
    method DispatchCommands(now: int)
      requires Shaped() && Inv(Now())
      modifies this`log, commandQueues
      ensures Now() == Dispatch(old(Now()), now).state
      ensures log == old(log) + Dispatch(old(Now()), now).effects
    {
      HoldersAreKnown(Now(), now);
      ServeAndReport(now);
    }

    /** Hands one event to the handler it is for. */
    method Handle(e: Event)
      requires Shaped() && Inv(Now()) && Allowed(Now(), e)
      modifies this, actions, limbAccess, commandQueues
      ensures Now() == Step(old(Now()), e).state && Inv(Now())
      ensures log == old(log) + Step(old(Now()), e).effects
    {
      StepKeepsInv(Now(), e);
      hide Inv, Register, Update, Filter, Dispatch;
      match e
      case RegisterAction(id, proposal) => var _ := RegisterAction(id, proposal);
      case ActionPriorities(id, ps) => UpdatePriorities(id, ps);
      case ServoCommands(commands) => CommandFilter(commands);
      case Every(now) => DispatchCommands(now);
    }

    /** Whatever events reach it, one after the other, the controller goes through the run specified. */
    method HandleAll(es: seq<Event>)
      requires Shaped() && Inv(Now()) && CanRun(Now(), es)
      modifies this, actions, limbAccess, commandQueues
      ensures Now() == Run(old(Now()), es).state && Inv(Now())
      ensures log == old(log) + Run(old(Now()), es).effects
      decreases |es|
    {
      hide Inv, Step;
      if es != [] {
        Handle(es[0]);
        HandleAll(es[1..]);
      }
    }
  }

  ghost predicate HoldersKnown(s: State, now: int)
    requires Sized(s)
  {
    forall id :: id in ByHolder(s.limbAccess, Emptied(s.queues, now, SERVO_COUNT)) ==> id in s.requests
  }

  lemma HoldersAreKnown(s: State, now: int)
    requires Inv(s)
    ensures HoldersKnown(s, now)
  {
    var m := ByHolder(s.limbAccess, Emptied(s.queues, now, SERVO_COUNT));
    forall id | id in m ensures id in s.requests {
      CompletionsByHolder(s, now, id, m[id]);
      CompletionsAreForHolders(s, now, id, m[id]);
    }
  }
}
