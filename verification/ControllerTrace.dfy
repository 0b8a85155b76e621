/** The trace of kill and start callbacks, replayed limb by limb. */
module ControllerTrace {
  import opened Requests
  import opened Selection
  import opened Ordering
  import opened Servos
  import opened ControllerState
  import opened ControllerRuns

  datatype Option<T> = None | Some(value: T)

  predicate AllHeldBy(holders: seq<nat>, limbs: set<Limb>, id: nat) {
    forall l :: l in limbs ==> l < |holders| && holders[l] == id
  }

  function Give(holders: seq<nat>, limbs: set<Limb>, id: nat): (h: seq<nat>)
    ensures |h| == |holders|
    ensures forall l :: 0 <= l < |h| ==> h[l] == if l in limbs then id else holders[l]
  {
    seq(|holders|, l requires 0 <= l < |holders| => if l in limbs then id else holders[l])
  }

  /** A kill must name the present holder of its limbs, and a start must find its limbs free. */
  function ReplayOne(holders: seq<nat>, e: Effect): Option<seq<nat>> {
    match e
    case Kill(id, limbs) =>
      if id != 0 && AllHeldBy(holders, limbs, id) then Some(Give(holders, limbs, 0)) else None
    case Start(id, limbs) =>
      if id != 0 && AllHeldBy(holders, limbs, 0) then Some(Give(holders, limbs, id)) else None
    case _ => Some(holders)
  }

  /** The holders after a trace, or None when some event of the trace is out of place. */
  function Replay(holders: seq<nat>, trace: seq<Effect>): Option<seq<nat>> {
    if trace == [] then Some(holders) else
      var h := Replay(holders, trace[..|trace| - 1]);
      if h.None? then None else ReplayOne(h.value, trace[|trace| - 1])
  }

  lemma {:induction false} ReplayAppend(holders: seq<nat>, a: seq<Effect>, b: seq<Effect>)
    ensures Replay(holders, a + b)
         == if Replay(holders, a).None? then None else Replay(Replay(holders, a).value, b)
    decreases |b|
  {
    if b == [] {
      assert a + b == a;
    } else {
      assert (a + b)[..|a + b| - 1] == a + b[..|b| - 1];
      ReplayAppend(holders, a, b[..|b| - 1]);
    }
  }

  lemma {:induction false} ReplayOthers(holders: seq<nat>, trace: seq<Effect>)
    requires forall e :: e in trace ==> !e.Kill? && !e.Start?
    ensures Replay(holders, trace) == Some(holders)
  {
    if trace != [] {
      assert trace[|trace| - 1] in trace;
      ReplayOthers(holders, trace[..|trace| - 1]);
    }
  }

  ghost predicate Ascends(ids: seq<nat>) {
    forall i, j :: 0 <= i < j < |ids| ==> ids[i] < ids[j]
  }

  function AfterKills(holders: seq<nat>, m: map<nat, set<Limb>>, ids: seq<nat>): (h: seq<nat>)
    requires forall id :: id in ids ==> id in m
    ensures |h| == |holders|
    ensures forall l :: 0 <= l < |h| ==> h[l] == if holders[l] in ids && l in m[holders[l]] then 0 else holders[l]
  {
    seq(|holders|, l requires 0 <= l < |holders| => if holders[l] in ids && l in m[holders[l]] then 0 else holders[l])
  }

  lemma OneMoreAfterKills(holders: seq<nat>, m: map<nat, set<Limb>>, front: seq<nat>, last: nat)
    requires forall id :: id in front + [last] ==> id in m
    requires last !in front && AllHeldBy(holders, m[last], last)
    ensures AllHeldBy(AfterKills(holders, m, front), m[last], last)
    ensures Give(AfterKills(holders, m, front), m[last], 0) == AfterKills(holders, m, front + [last])
  {
  }

  lemma KillsUnfold(m: map<nat, set<Limb>>, front: seq<nat>, last: nat)
    requires forall id :: id in front + [last] ==> id in m
    ensures Kills(m, front + [last]) == Kills(m, front) + [Kill(last, m[last])]
  {
    assert (front + [last])[..|front|] == front;
  }

  lemma ReplayOneMore(holders: seq<nat>, trace: seq<Effect>, e: Effect)
    ensures Replay(holders, trace + [e])
         == if Replay(holders, trace).None? then None else ReplayOne(Replay(holders, trace).value, e)
  {
    assert (trace + [e])[..|trace|] == trace;
  }

  lemma {:induction false} ReplayKills(holders: seq<nat>, m: map<nat, set<Limb>>, ids: seq<nat>)
    requires forall id :: id in ids ==> id in m && id != 0 && AllHeldBy(holders, m[id], id)
    requires Ascends(ids)
    ensures Replay(holders, Kills(m, ids)) == Some(AfterKills(holders, m, ids))
  {
    if ids == [] {
      assert AfterKills(holders, m, ids) == holders;
    } else {
      var front, last := ids[..|ids| - 1], ids[|ids| - 1];
      assert ids == front + [last];
      assert last !in front && Ascends(front);
      forall id | id in front
        ensures id in m && id != 0 && AllHeldBy(holders, m[id], id)
      {
        assert id in ids;
      }
      hide AllHeldBy, Ascends, Replay, Kills, Give, AfterKills;
      ReplayKills(holders, m, front);
      OneMoreAfterKills(holders, m, front, last);
      KillsUnfold(m, front, last);
      ReplayOneMore(holders, Kills(m, front), Kill(last, m[last]));
    }
  }

  ghost predicate IsAfterStarts(holders: seq<nat>, m: map<nat, set<Limb>>, ids: seq<nat>, h: seq<nat>)
    requires forall id :: id in ids ==> id in m
  {
    && |h| == |holders|
    && (forall id, l :: id in ids && l in m[id] ==> l < |h| && h[l] == id)
    && (forall l :: 0 <= l < |h| && (forall id :: id in ids ==> l !in m[id]) ==> h[l] == holders[l])
  }

  lemma {:induction false} ReplayStarts(holders: seq<nat>, m: map<nat, set<Limb>>, ids: seq<nat>)
    requires forall id :: id in ids ==> id in m && id != 0 && AllHeldBy(holders, m[id], 0)
    requires forall id, id' :: id in ids && id' in ids && id != id' ==> m[id] !! m[id']
    requires Ascends(ids)
    ensures Replay(holders, Starts(m, ids)).Some?
    ensures IsAfterStarts(holders, m, ids, Replay(holders, Starts(m, ids)).value)
  {
    if ids != [] {
      var front, last := ids[..|ids| - 1], ids[|ids| - 1];
      assert ids == front + [last];
      forall id | id in front
        ensures id in m && id != 0 && AllHeldBy(holders, m[id], 0)
      {
        assert id in ids;
      }
      ReplayStarts(holders, m, front);
      var h := Replay(holders, Starts(m, front)).value;
      assert last !in front;
      assert AllHeldBy(h, m[last], 0);
      assert Starts(m, ids)[..|Starts(m, ids)| - 1] == Starts(m, front);
      assert Replay(holders, Starts(m, ids)) == Some(Give(h, m[last], last));
    }
  }

  lemma SharedLimb(R: Registry, items: seq<Ref>, r: Ref, q: Ref, l: Limb)
    requires Exclusive(R, items) && r in items && q in items
    requires l in LimbsOf(R, r) && l in LimbsOf(R, q)
    ensures r == q
  {
    var i :| 0 <= i < |items| && items[i] == r;
    var j :| 0 <= j < |items| && items[j] == q;
  }

  ghost predicate Proper(R: Registry, items: seq<Ref>, n: nat) {
    && Exclusive(R, items)
    && forall r :: r in items ==> r.id != 0 && forall l :: l in LimbsOf(R, r) ==> l < n
  }

  /** Each killed limb is held by the group it is killed for. */
  lemma KilledAreHeld(R: Registry, old': seq<Ref>, new': seq<Ref>, n: nat, id: nat)
    requires Proper(R, old', n)
    requires id in Groups(R, Difference(old', new'))
    ensures id != 0 && AllHeldBy(Holders(R, old', n), Groups(R, Difference(old', new'))[id], id)
  {
    GroupsMention(R, Difference(old', new'), id, 0);
    forall l | l in Groups(R, Difference(old', new'))[id]
      ensures l < n && HolderOf(R, old', l) == id
    {
      GroupsMention(R, Difference(old', new'), id, l);
      var r :| r in Difference(old', new') && r.id == id && l in LimbsOf(R, r);
      HolderIsOwner(R, old', r, l);
    }
  }

  ghost function Between(R: Registry, old': seq<Ref>, new': seq<Ref>, n: nat): seq<nat> {
    var killed := Groups(R, Difference(old', new'));
    AfterKills(Holders(R, old', n), killed, Ascending(killed.Keys))
  }

  /** After the kills a limb is held by the items common to both selections only. */
  lemma BetweenHoldsCommon(R: Registry, old': seq<Ref>, new': seq<Ref>, n: nat, l: Limb)
    requires Proper(R, old', n) && l < n
    ensures Between(R, old', new', n)[l] == 0
         || exists r :: r in old' && r in new' && l in LimbsOf(R, r) && r.id == Between(R, old', new', n)[l]
    ensures forall r :: r in old' && r in new' && l in LimbsOf(R, r) ==> r.id == Between(R, old', new', n)[l]
  {
    var gone := Difference(old', new');
    var h := HolderOf(R, old', l);
    HolderExists(R, old', l);
    GroupsMention(R, gone, h, l);
    if h != 0 {
      var r :| r in old' && l in LimbsOf(R, r) && r.id == h;
      if r in new' {
        if q :| q in gone && q.id == h && l in LimbsOf(R, q) {
          SharedLimb(R, old', r, q, l);
        }
      } else {
        assert r in gone;
      }
    }
    forall r | r in old' && r in new' && l in LimbsOf(R, r)
      ensures r.id == Between(R, old', new', n)[l]
    {
      HolderIsOwner(R, old', r, l);
      if q :| q in gone && q.id == h && l in LimbsOf(R, q) {
        SharedLimb(R, old', r, q, l);
      }
    }
  }

  lemma StartedAreFree(R: Registry, old': seq<Ref>, new': seq<Ref>, n: nat, id: nat)
    requires Proper(R, old', n) && Proper(R, new', n)
    requires id in Groups(R, Difference(new', old'))
    ensures id != 0 && AllHeldBy(Between(R, old', new', n), Groups(R, Difference(new', old'))[id], 0)
  {
    var came := Difference(new', old');
    GroupsMention(R, came, id, 0);
    forall l | l in Groups(R, came)[id]
      ensures l < n && Between(R, old', new', n)[l] == 0
    {
      GroupsMention(R, came, id, l);
      var r :| r in came && r.id == id && l in LimbsOf(R, r);
      BetweenHoldsCommon(R, old', new', n, l);
      if q :| q in old' && q in new' && l in LimbsOf(R, q) {
        SharedLimb(R, new', r, q, l);
      }
    }
  }

  lemma StartedAreApart(R: Registry, old': seq<Ref>, new': seq<Ref>, id: nat, id': nat)
    requires Exclusive(R, new') && id != id'
    requires id in Groups(R, Difference(new', old')) && id' in Groups(R, Difference(new', old'))
    ensures Groups(R, Difference(new', old'))[id] !! Groups(R, Difference(new', old'))[id']
  {
    var came := Difference(new', old');
    if l :| l in Groups(R, came)[id] && l in Groups(R, came)[id'] {
      GroupsMention(R, came, id, l);
      GroupsMention(R, came, id', l);
      var r :| r in came && r.id == id && l in LimbsOf(R, r);
      var q :| q in came && q.id == id' && l in LimbsOf(R, q);
      SharedLimb(R, new', r, q, l);
    }
  }

  lemma StartedGiveNewHolders(R: Registry, old': seq<Ref>, new': seq<Ref>, n: nat, h: seq<nat>)
    requires Proper(R, old', n) && Proper(R, new', n)
    requires var started := Groups(R, Difference(new', old'));
      IsAfterStarts(Between(R, old', new', n), started, Ascending(started.Keys), h)
    ensures h == Holders(R, new', n)
  {
    var came := Difference(new', old');
    var started := Groups(R, came);
    forall l | 0 <= l < n
      ensures h[l] == HolderOf(R, new', l)
    {
      HolderExists(R, new', l);
      BetweenHoldsCommon(R, old', new', n, l);
      if r :| r in new' && l in LimbsOf(R, r) {
        HolderIsOwner(R, new', r, l);
        if r in came {
          GroupsMention(R, came, r.id, l);
        } else {
          forall id | id in started
            ensures l !in started[id]
          {
            GroupsMention(R, came, id, l);
            if q :| q in came && l in LimbsOf(R, q) {
              SharedLimb(R, new', r, q, l);
            }
          }
        }
      } else {
        forall id | id in started
          ensures l !in started[id]
        {
          GroupsMention(R, came, id, l);
        }
      }
    }
  }

  /** The callbacks for the change from one selection to another replay to the new holders. */
  lemma SwitchReplays(R: Registry, old': seq<Ref>, new': seq<Ref>, n: nat)
    requires Proper(R, old', n) && Proper(R, new', n)
    ensures Replay(Holders(R, old', n), Callbacks(R, old', new')) == Some(Holders(R, new', n))
  {
    var killed, started := Groups(R, Difference(old', new')), Groups(R, Difference(new', old'));
    var before, mid := Holders(R, old', n), Between(R, old', new', n);
    forall id | id in killed
      ensures id != 0 && AllHeldBy(before, killed[id], id)
    {
      KilledAreHeld(R, old', new', n, id);
    }
    ReplayKills(before, killed, Ascending(killed.Keys));
    forall id | id in started
      ensures id != 0 && AllHeldBy(mid, started[id], 0)
    {
      StartedAreFree(R, old', new', n, id);
    }
    forall id, id' | id in started && id' in started && id != id'
      ensures started[id] !! started[id']
    {
      StartedAreApart(R, old', new', id, id');
    }
    ReplayStarts(mid, started, Ascending(started.Keys));
    ReplayAppend(before, Kills(killed, Ascending(killed.Keys)), Starts(started, Ascending(started.Keys)));
    StartedGiveNewHolders(R, old', new', n, Replay(mid, Starts(started, Ascending(started.Keys))).value);
  }

  lemma SoundIsProper(R: Registry, current: seq<Ref>)
    requires SoundRegistry(R) && Exclusive(R, current)
    requires forall r :: r in current ==> Registered(R, r)
    ensures Proper(R, current, LIMB_COUNT)
  {
  }

  lemma SelectedHolders(s: State)
    requires Ready(s)
    ensures Proper(s.requests, SortRefs(SelectedItems(s)), LIMB_COUNT)
    ensures Holders(s.requests, SelectedItems(s), LIMB_COUNT)
            == Holders(s.requests, SortRefs(SelectedItems(s)), LIMB_COUNT)
  {
    var R, current := s.requests, SortRefs(SelectedItems(s));
    SelectionFacts(s);
    SortedIsDistinct(current);
    ExclusiveSameItems(R, SelectedItems(s), current);
    SoundIsProper(R, current);
    forall l: Limb ensures HolderOf(R, SelectedItems(s), l) == HolderOf(R, current, l) {
      HoldersOfSameItems(R, SelectedItems(s), current, l);
    }
  }

  /** The callbacks of a selection turn the old holders into the new limb access table. */
  lemma SelectReplays(s: State)
    requires Ready(s)
    ensures Replay(Holders(s.requests, s.current, LIMB_COUNT), Select(s).effects) == Some(Select(s).state.limbAccess)
  {
    SelectedHolders(s);
    SoundIsProper(s.requests, s.current);
    SwitchReplays(s.requests, s.current, SortRefs(SelectedItems(s)), LIMB_COUNT);
  }
}
