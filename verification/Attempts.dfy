/** What the lazy merge chooses, told without the merge: an exact account whatever the ties. */
module Attempts {
  import opened Requests
  import opened Selection
  import opened Merge
  import opened Ordering

  // ----- The order of attempts -----

  ghost predicate Earlier(rs: seq<Ref>, c: Ref, r: Ref) {
    exists i, j :: 0 <= i < j < |rs| && rs[i] == c && rs[j] == r
  }

  /** `c` is attempted for limb k before `r` is for limb l: its priority is greater, or it is as great and
      k is the smaller limb, or it stands before `r` in the list of that limb. */
  ghost predicate Sooner(R: Registry, lists: seq<seq<Ref>>, c: Ref, k: Limb, r: Ref, l: Limb) {
    || Priority(R, r) < Priority(R, c)
    || (Priority(R, r) == Priority(R, c) && (k < l || (k == l && k < |lists| && Earlier(lists[k], c, r))))
  }

  /** When `r` is attempted for limb l, it is the main item of its group or that item has been attempted. */
  ghost predicate InReach(R: Registry, lists: seq<seq<Ref>>, r: Ref, l: Limb) {
    && l in LimbsOf(R, r)
    && (IsMain(R, r)
        || exists k :: k in LimbsOf(R, Main(R, r.id)) && Sooner(R, lists, Main(R, r.id), k, r, l))
  }

  ghost predicate Overlaps(R: Registry, c: Ref, r: Ref) {
    c != r && !(LimbsOf(R, c) !! LimbsOf(R, r))
  }

  /** Selecting `c` keeps `r` out when it is attempted for limb l. */
  ghost predicate Blocks(R: Registry, lists: seq<seq<Ref>>, c: Ref, r: Ref, l: Limb) {
    Overlaps(R, c, r) && exists k :: InReach(R, lists, c, k) && Sooner(R, lists, c, k, r, l)
  }

  ghost predicate Blocked(R: Registry, lists: seq<seq<Ref>>, chosen: seq<Ref>, r: Ref, l: Limb) {
    exists c :: c in chosen && Blocks(R, lists, c, r, l)
  }

  /** An item earns a place in a selection when its main item is selected (or it is that item) and it is
      attempted in reach of it while no selected item keeps it out. */
  ghost predicate Earns(R: Registry, lists: seq<seq<Ref>>, chosen: seq<Ref>, r: Ref) {
    && (IsMain(R, r) || Main(R, r.id) in chosen)
    && exists l :: InReach(R, lists, r, l) && !Blocked(R, lists, chosen, r, l)
  }

  /** Exactly the items that earn a place are selected. */
  ghost predicate Firm(R: Registry, lists: seq<seq<Ref>>, chosen: seq<Ref>) {
    && (forall r :: r in chosen ==> Registered(R, r))
    && forall r :: Registered(R, r) ==> (r in chosen <==> Earns(R, lists, chosen, r))
  }

  // ----- Any pass at all -----

  ghost predicate ReachedAt(R: Registry, rs: seq<Ref>, i: nat)
    requires i < |rs|
  {
    IsMain(R, rs[i]) || exists j :: 0 <= j < i && rs[j] == Main(R, rs[i].id)
  }

  ghost predicate BlocksAt(R: Registry, rs: seq<Ref>, j: nat, i: nat)
    requires j < |rs| && i < |rs|
  {
    j < i && Overlaps(R, rs[j], rs[i]) && ReachedAt(R, rs, j)
  }

  ghost predicate BlockedAt(R: Registry, rs: seq<Ref>, chosen: seq<Ref>, i: nat)
    requires i < |rs|
  {
    exists j :: 0 <= j < i && rs[j] in chosen && BlocksAt(R, rs, j, i)
  }

  /** The attempt in place i earns the item attempted a place in the selection. */
  ghost predicate EarnsAt(R: Registry, rs: seq<Ref>, chosen: seq<Ref>, i: nat)
    requires i < |rs|
  {
    && LimbsOf(R, rs[i]) != {}
    && (IsMain(R, rs[i]) || Main(R, rs[i].id) in chosen)
    && ReachedAt(R, rs, i) && !BlockedAt(R, rs, chosen, i)
  }

  ghost predicate EarnsIn(R: Registry, rs: seq<Ref>, chosen: seq<Ref>, r: Ref) {
    exists i :: 0 <= i < |rs| && rs[i] == r && EarnsAt(R, rs, chosen, i)
  }

  ghost predicate FirmIn(R: Registry, rs: seq<Ref>, chosen: seq<Ref>) {
    forall r :: r in chosen <==> EarnsIn(R, rs, chosen, r)
  }

  /** Attempts are judged by what comes before them. */
  lemma EarnsBefore(R: Registry, rs: seq<Ref>, last: Ref, chosen: seq<Ref>, i: nat)
    requires i < |rs|
    ensures EarnsAt(R, rs + [last], chosen, i) <==> EarnsAt(R, rs, chosen, i)
  {
    var more := rs + [last];
    assert forall j :: 0 <= j < |rs| ==> more[j] == rs[j];
    forall j | 0 <= j <= i ensures ReachedAt(R, more, j) <==> ReachedAt(R, rs, j) {
    }
    assert BlockedAt(R, more, chosen, i) <==> BlockedAt(R, rs, chosen, i) by {
      forall j | 0 <= j < i ensures BlocksAt(R, more, j, i) <==> BlocksAt(R, rs, j, i) {
      }
    }
  }

  lemma ChosenApart(R: Registry, chosen: seq<Ref>, c: Ref, r: Ref)
    requires Exclusive(R, chosen) && c in chosen && r in chosen
    ensures !Overlaps(R, c, r)
  {
    if c != r {
      ExclusiveApart(R, chosen, c, r);
    }
  }

  lemma EligibleHasMain(R: Registry, q: Choice, r: Ref)
    requires Compatible(R, q.chosen) && Eligible(R, q, r)
    ensures IsMain(R, r) || Main(R, r.id) in q.chosen
  {
    if !IsMain(R, r) {
      ActiveHasMain(R, q.chosen, r.id);
    }
  }

  /** What is accepted last was not earned before, and is earned now. */
  lemma AcceptedEarns(R: Registry, n: nat, rs: seq<Ref>, last: Ref)
    requires FirmIn(R, rs, Pass(R, Fresh(n), rs).chosen) && Eligible(R, Pass(R, Fresh(n), rs), last)
    ensures var q := Pass(R, Fresh(n), rs);
      EarnsAt(R, rs + [last], q.chosen + [last], |rs|)
  {
    var q, more := Pass(R, Fresh(n), rs), rs + [last];
    FreshIsSound(R, n, rs);
    EligibleHasMain(R, q, last);
    if !IsMain(R, last) {
      assert Main(R, last.id) in rs;
      var j :| 0 <= j < |rs| && rs[j] == Main(R, last.id);
      assert more[j] == rs[j];
    }
    forall j | 0 <= j < |rs| && more[j] in q.chosen + [last] ensures !BlocksAt(R, more, j, |rs|) {
      if more[j] != last {
        assert more[j] in q.chosen;
        var k :| 0 <= k < |q.chosen| && q.chosen[k] == more[j];
        assert LimbsOf(R, q.chosen[k]) !! q.free;
      }
    }
  }

  lemma EarnsMore(R: Registry, rs: seq<Ref>, chosen: seq<Ref>, r: Ref, i: nat)
    requires i < |rs| && r !in chosen && EarnsAt(R, rs, chosen, i)
    requires !Overlaps(R, r, rs[i])
    ensures EarnsAt(R, rs, chosen + [r], i)
  {
    assert Main(R, rs[i].id) in chosen ==> Main(R, rs[i].id) in chosen + [r];
    forall j | 0 <= j < i && rs[j] in chosen + [r] ensures !BlocksAt(R, rs, j, i) {
      assert rs[j] in chosen || rs[j] == r;
    }
  }

  /** What an item accepted last keeps out was kept out before, and what it brings in was not
      attempted in its reach. */
  lemma EarnedBefore(R: Registry, n: nat, rs: seq<Ref>, last: Ref, i: nat)
    requires FirmIn(R, rs, Pass(R, Fresh(n), rs).chosen) && Eligible(R, Pass(R, Fresh(n), rs), last)
    requires i < |rs| && rs[i] != last && EarnsAt(R, rs, Pass(R, Fresh(n), rs).chosen + [last], i)
    ensures EarnsAt(R, rs, Pass(R, Fresh(n), rs).chosen, i)
  {
    var q := Pass(R, Fresh(n), rs);
    forall j | 0 <= j < i && rs[j] in q.chosen ensures !BlocksAt(R, rs, j, i) {
      assert rs[j] in q.chosen + [last];
    }
    if !IsMain(R, rs[i]) && Main(R, rs[i].id) == last {
      var j :| 0 <= j < i && rs[j] == last;
      FreeWasEarned(R, n, rs, j);
    }
  }

  lemma EligibleIsApart(R: Registry, n: nat, q: Choice, r: Ref)
    requires Accounted(R, n, q) && Eligible(R, q, r)
    ensures LimbsOf(R, r) != {} && r !in q.chosen && forall c :: c in q.chosen ==> !Overlaps(R, c, r)
  {
    LastIsNew(R, n, q, r);
    forall c | c in q.chosen ensures !Overlaps(R, c, r) {
      var k :| 0 <= k < |q.chosen| && q.chosen[k] == c;
      assert LimbsOf(R, q.chosen[k]) !! q.free;
    }
  }

  /** A main item whose limbs are free has not been attempted. */
  lemma FreeWasEarned(R: Registry, n: nat, rs: seq<Ref>, j: nat)
    requires FirmIn(R, rs, Pass(R, Fresh(n), rs).chosen) && j < |rs| && IsMain(R, rs[j])
    ensures !Eligible(R, Pass(R, Fresh(n), rs), rs[j])
  {
    hide Eligible, Pass, LimbsOf, Overlaps;
    var q := Pass(R, Fresh(n), rs);
    FreshIsSound(R, n, rs);
    assert EarnsIn(R, rs, q.chosen, rs[j]) || LimbsOf(R, rs[j]) == {} || BlockedAt(R, rs, q.chosen, j);
    if Eligible(R, q, rs[j]) {
      EligibleIsApart(R, n, q, rs[j]);
    }
  }

  lemma AcceptedIsFirm(R: Registry, n: nat, rs: seq<Ref>, last: Ref, r: Ref)
    requires FirmIn(R, rs, Pass(R, Fresh(n), rs).chosen) && Eligible(R, Pass(R, Fresh(n), rs), last)
    ensures var chosen := Pass(R, Fresh(n), rs).chosen + [last]; r in chosen <==> EarnsIn(R, rs + [last], chosen, r)
  {
    var q, more := Pass(R, Fresh(n), rs), rs + [last];
    var chosen := q.chosen + [last];
    FreshIsSound(R, n, rs);
    TryKeeps(R, n, q, last);
    if r == last {
      AcceptedEarns(R, n, rs, last);
      assert more[|rs|] == last;
    } else if r in q.chosen {
      var i :| 0 <= i < |rs| && rs[i] == r && EarnsAt(R, rs, q.chosen, i);
      EarnsBefore(R, rs, last, chosen, i);
      LastIsNew(R, n, q, last);
      ChosenApart(R, chosen, last, r);
      EarnsMore(R, rs, q.chosen, last, i);
      assert more[i] == r;
    } else if EarnsIn(R, more, chosen, r) {
      var i :| 0 <= i < |more| && more[i] == r && EarnsAt(R, more, chosen, i);
      EarnsBefore(R, rs, last, chosen, i);
      EarnedBefore(R, n, rs, last, i);
    }
  }

  lemma LastIsNew(R: Registry, n: nat, q: Choice, last: Ref)
    requires Accounted(R, n, q) && Eligible(R, q, last)
    ensures last !in q.chosen
  {
    if last in q.chosen {
      assert false;
    }
  }

  /** An attempt refused earns nothing. */
  lemma RefusedEarnsNot(R: Registry, n: nat, rs: seq<Ref>, last: Ref)
    requires LimbsBelow(R, n) && Registered(R, last)
    requires FirmIn(R, rs, Pass(R, Fresh(n), rs).chosen) && !Eligible(R, Pass(R, Fresh(n), rs), last)
    requires EarnsAt(R, rs + [last], Pass(R, Fresh(n), rs).chosen, |rs|)
    ensures last in Pass(R, Fresh(n), rs).chosen
  {
    var q, more := Pass(R, Fresh(n), rs), rs + [last];
    FreshIsSound(R, n, rs);
    if last !in q.chosen {
      forall c | c in q.chosen ensures LimbsOf(R, c) !! LimbsOf(R, last) {
        var j :| 0 <= j < |rs| && rs[j] == c && EarnsAt(R, rs, q.chosen, j);
        EarnsBefore(R, rs, last, q.chosen, j);
        assert more[j] == c && ReachedAt(R, more, j);
        assert !BlocksAt(R, more, j, |rs|);
      }
      UnusedAreFree(R, n, q, last);
    }
  }

  lemma RefusedIsFirm(R: Registry, n: nat, rs: seq<Ref>, last: Ref, r: Ref)
    requires LimbsBelow(R, n) && Registered(R, last)
    requires FirmIn(R, rs, Pass(R, Fresh(n), rs).chosen) && !Eligible(R, Pass(R, Fresh(n), rs), last)
    ensures var chosen := Pass(R, Fresh(n), rs).chosen; r in chosen <==> EarnsIn(R, rs + [last], chosen, r)
  {
    var q, more := Pass(R, Fresh(n), rs), rs + [last];
    if r in q.chosen {
      var i :| 0 <= i < |rs| && rs[i] == r && EarnsAt(R, rs, q.chosen, i);
      EarnsBefore(R, rs, last, q.chosen, i);
      assert more[i] == r;
    } else if EarnsIn(R, more, q.chosen, r) {
      var i :| 0 <= i < |more| && more[i] == r && EarnsAt(R, more, q.chosen, i);
      if i < |rs| {
        EarnsBefore(R, rs, last, q.chosen, i);
      } else {
        RefusedEarnsNot(R, n, rs, last);
      }
    }
  }

  /** Whatever its order and repetitions, a pass selects exactly the items that earn a place. */
  lemma {:induction false} PassIsFirm(R: Registry, n: nat, rs: seq<Ref>)
    requires LimbsBelow(R, n) && forall r :: r in rs ==> Registered(R, r)
    ensures FirmIn(R, rs, Pass(R, Fresh(n), rs).chosen)
    decreases |rs|
  {
    if rs != [] {
      var front, last := rs[..|rs| - 1], rs[|rs| - 1];
      assert rs == front + [last];
      PassIsFirm(R, n, front);
      PassAppend(R, Fresh(n), front, [last]);
      var q := Pass(R, Fresh(n), front);
      assert Pass(R, q, [last]) == Pass(R, Try(R, q, last), []);
      forall r ensures r in Try(R, q, last).chosen <==> EarnsIn(R, rs, Try(R, q, last).chosen, r) {
        if Eligible(R, q, last) {
          AcceptedIsFirm(R, n, front, last, r);
        } else {
          RefusedIsFirm(R, n, front, last, r);
        }
      }
    }
  }

  // ----- There is only one -----

  /** Some item on which two selections differ is attempted here in reach. */
  ghost predicate DiffersAt(R: Registry, rs: seq<Ref>, a: seq<Ref>, b: seq<Ref>, i: nat) {
    i < |rs| && ReachedAt(R, rs, i) && ((rs[i] in a) != (rs[i] in b))
  }

  lemma {:induction false} FirstDifference(R: Registry, rs: seq<Ref>, a: seq<Ref>, b: seq<Ref>, i: nat)
    returns (first: nat)
    requires DiffersAt(R, rs, a, b, i)
    ensures first <= i && DiffersAt(R, rs, a, b, first) && forall j :: 0 <= j < first ==> !DiffersAt(R, rs, a, b, j)
    decreases i
  {
    first := i;
    if j :| 0 <= j < i && DiffersAt(R, rs, a, b, j) {
      first := FirstDifference(R, rs, a, b, j);
    }
  }

  /** Before the first difference the same items keep others out. */
  lemma BlockedAlike(R: Registry, rs: seq<Ref>, a: seq<Ref>, b: seq<Ref>, i: nat, k: nat)
    requires i <= k < |rs| && rs[i] == rs[k] && !BlockedAt(R, rs, a, k)
    requires forall j :: 0 <= j < i ==> !DiffersAt(R, rs, a, b, j)
    ensures !BlockedAt(R, rs, b, i)
  {
    forall j | 0 <= j < i && rs[j] in b ensures !BlocksAt(R, rs, j, i) {
      assert !DiffersAt(R, rs, a, b, j);
      assert BlocksAt(R, rs, j, i) ==> BlocksAt(R, rs, j, k);
    }
  }

  lemma MainAlike(R: Registry, rs: seq<Ref>, a: seq<Ref>, b: seq<Ref>, i: nat)
    requires i < |rs| && ReachedAt(R, rs, i) && !IsMain(R, rs[i])
    requires forall j :: 0 <= j < i ==> !DiffersAt(R, rs, a, b, j)
    ensures Main(R, rs[i].id) in a <==> Main(R, rs[i].id) in b
  {
    var j :| 0 <= j < i && rs[j] == Main(R, rs[i].id);
    assert ReachedAt(R, rs, j) && !DiffersAt(R, rs, a, b, j);
  }

  lemma AgreeAtFirst(R: Registry, rs: seq<Ref>, a: seq<Ref>, b: seq<Ref>, i: nat)
    requires FirmIn(R, rs, a) && FirmIn(R, rs, b) && i < |rs| && ReachedAt(R, rs, i) && rs[i] in a
    requires forall j :: 0 <= j < i ==> !DiffersAt(R, rs, a, b, j)
    ensures rs[i] in b
  {
    hide ReachedAt, BlockedAt, DiffersAt, IsMain, LimbsOf;
    var k :| 0 <= k < |rs| && rs[k] == rs[i] && EarnsAt(R, rs, a, k);
    if k < i {
      SameBefore(R, rs, a, b, k);
    } else {
      BlockedAlike(R, rs, a, b, i, k);
      if !IsMain(R, rs[i]) {
        MainAlike(R, rs, a, b, i);
      }
      assert EarnsAt(R, rs, b, i);
    }
  }

  lemma SameBefore(R: Registry, rs: seq<Ref>, a: seq<Ref>, b: seq<Ref>, k: nat)
    requires k < |rs| && ReachedAt(R, rs, k) && !DiffersAt(R, rs, a, b, k)
    ensures rs[k] in a <==> rs[k] in b
  {
  }

  lemma FirmInIsUnique(R: Registry, rs: seq<Ref>, a: seq<Ref>, b: seq<Ref>)
    requires FirmIn(R, rs, a) && FirmIn(R, rs, b)
    ensures forall r :: r in a <==> r in b
  {
    hide ReachedAt, BlockedAt, EarnsAt;
    forall r ensures r in a <==> r in b {
      if (r in a) != (r in b) {
        var k := AttemptOf(R, rs, if r in a then a else b, r);
        assert DiffersAt(R, rs, a, b, k);
        var i := FirstDifference(R, rs, a, b, k);
        if rs[i] in a {
          AgreeAtFirst(R, rs, a, b, i);
        } else {
          DiffersAtBack(R, rs, a, b, i);
          AgreeAtFirst(R, rs, b, a, i);
        }
      }
    }
  }

  lemma AttemptOf(R: Registry, rs: seq<Ref>, chosen: seq<Ref>, r: Ref) returns (k: nat)
    requires FirmIn(R, rs, chosen) && r in chosen
    ensures k < |rs| && rs[k] == r && ReachedAt(R, rs, k)
  {
    hide ReachedAt, BlockedAt;
    k :| 0 <= k < |rs| && rs[k] == r && EarnsAt(R, rs, chosen, k);
  }

  lemma DiffersAtBack(R: Registry, rs: seq<Ref>, a: seq<Ref>, b: seq<Ref>, i: nat)
    requires forall j :: 0 <= j < i ==> !DiffersAt(R, rs, a, b, j)
    ensures forall j :: 0 <= j < i ==> !DiffersAt(R, rs, b, a, j)
  {
    forall j | 0 <= j < i ensures !DiffersAt(R, rs, b, a, j) {
      assert !DiffersAt(R, rs, a, b, j);
    }
  }

  // ----- The attempts of the merge -----

  datatype Attempt = Attempt(item: Ref, limb: Limb)

  /** The attempts of the merge, each with the limb whose list it is made from. */
  function AttemptsOf(R: Registry, lists: seq<seq<Ref>>): seq<Attempt>
    decreases Remaining(lists)
  {
    var b := Next(R, lists);
    if b == -1 then [] else
      AdvanceShrinks(lists, b);
      [Attempt(lists[b][0], b)] + AttemptsOf(R, Advance(lists, b))
  }

  ghost predicate Precedes(R: Registry, lists: seq<seq<Ref>>, a: Attempt, b: Attempt) {
    Sooner(R, lists, a.item, a.limb, b.item, b.limb)
  }

  ghost predicate InLists(lists: seq<seq<Ref>>, a: Attempt) {
    a.limb < |lists| && a.item in lists[a.limb]
  }

  lemma {:induction false} AttemptsAreOrder(R: Registry, lists: seq<seq<Ref>>)
    ensures |AttemptsOf(R, lists)| == |Order(R, lists)|
    ensures forall i :: 0 <= i < |AttemptsOf(R, lists)| ==> AttemptsOf(R, lists)[i].item == Order(R, lists)[i]
    decreases Remaining(lists)
  {
    var b := Next(R, lists);
    if b != -1 {
      AdvanceShrinks(lists, b);
      AttemptsAreOrder(R, Advance(lists, b));
    }
  }

  lemma AttemptAdvanced(lists: seq<seq<Ref>>, b: nat, a: Attempt)
    requires b < |lists| && lists[b] != []
    ensures InLists(lists, a) <==> InLists(Advance(lists, b), a) || a == Attempt(lists[b][0], b)
  {
    assert lists[b] == [lists[b][0]] + lists[b][1..];
  }

  lemma {:induction false} AttemptsAreInLists(R: Registry, lists: seq<seq<Ref>>, a: Attempt)
    ensures a in AttemptsOf(R, lists) <==> InLists(lists, a)
    decreases Remaining(lists)
  {
    var b := Next(R, lists);
    if b != -1 {
      AdvanceShrinks(lists, b);
      AttemptsAreInLists(R, Advance(lists, b), a);
      AttemptAdvanced(lists, b, a);
    }
  }

  /** The first attempt comes before all that remain. */
  lemma FirstIsSoonest(R: Registry, lists: seq<seq<Ref>>, b: nat, a: Attempt)
    requires AllDescending(R, lists) && b == Next(R, lists) && InLists(Advance(lists, b), a)
    ensures Precedes(R, lists, Attempt(lists[b][0], b), a)
  {
    AttemptAdvanced(lists, b, a);
    NextIsGreatest(R, lists, a.limb, a.item);
    var i :| 0 <= i < |Advance(lists, b)[a.limb]| && Advance(lists, b)[a.limb][i] == a.item;
    if a.limb == b {
      assert lists[b][i + 1] == a.item;
      assert Earlier(lists[b], lists[b][0], a.item);
    } else if a.limb < b {
      assert Descending(R, lists[a.limb]);
      assert Priority(R, lists[a.limb][i]) <= Priority(R, lists[a.limb][0]);
    }
  }

  lemma StillBefore(R: Registry, lists: seq<seq<Ref>>, b: nat, a: Attempt, c: Attempt)
    requires b < |lists| && lists[b] != [] && Precedes(R, Advance(lists, b), a, c)
    ensures Precedes(R, lists, a, c)
  {
    if a.limb == c.limb == b && Earlier(lists[b][1..], a.item, c.item) {
      var i, j :| 0 <= i < j < |lists[b][1..]| && lists[b][1..][i] == a.item && lists[b][1..][j] == c.item;
      assert lists[b][i + 1] == a.item && lists[b][j + 1] == c.item;
    }
  }

  lemma {:induction false} AttemptsInOrder(R: Registry, lists: seq<seq<Ref>>, i: nat, j: nat)
    requires AllDescending(R, lists) && i < j < |AttemptsOf(R, lists)|
    ensures Precedes(R, lists, AttemptsOf(R, lists)[i], AttemptsOf(R, lists)[j])
    decreases Remaining(lists)
  {
    var b := Next(R, lists);
    AdvanceShrinks(lists, b);
    AdvanceKeepsDescending(R, lists, b);
    var rest := AttemptsOf(R, Advance(lists, b));
    assert AttemptsOf(R, lists)[j] == rest[j - 1];
    if i == 0 {
      assert rest[j - 1] in rest;
      AttemptsAreInLists(R, Advance(lists, b), rest[j - 1]);
      FirstIsSoonest(R, lists, b, rest[j - 1]);
    } else {
      AttemptsInOrder(R, Advance(lists, b), i - 1, j - 1);
      StillBefore(R, lists, b, rest[i - 1], rest[j - 1]);
    }
  }

  lemma NeverBothWays(R: Registry, lists: seq<seq<Ref>>, a: Attempt, b: Attempt)
    requires ListedOnce(lists) && Precedes(R, lists, a, b)
    ensures !Precedes(R, lists, b, a)
  {
    if a.limb == b.limb && a.limb < |lists| && Earlier(lists[a.limb], a.item, b.item) {
      assert Distinct(lists[a.limb]);
    }
  }

  /** The attempts in the order in which they are made. */
  ghost predicate InOrder(R: Registry, lists: seq<seq<Ref>>, attempts: seq<Attempt>) {
    && (forall a :: a in attempts <==> InLists(lists, a))
    && forall i, j :: 0 <= i < |attempts| && 0 <= j < |attempts| ==>
      (i < j <==> Precedes(R, lists, attempts[i], attempts[j]))
  }

  lemma MergeIsInOrder(R: Registry, lists: seq<seq<Ref>>)
    requires AllDescending(R, lists) && ListedOnce(lists)
    ensures InOrder(R, lists, AttemptsOf(R, lists))
  {
    var attempts := AttemptsOf(R, lists);
    hide Precedes, AttemptsOf, InLists, AllDescending, ListedOnce;
    forall a ensures a in attempts <==> InLists(lists, a) {
      AttemptsAreInLists(R, lists, a);
    }
    forall i, j | 0 <= i < |attempts| && 0 <= j < |attempts|
      ensures i < j <==> Precedes(R, lists, attempts[i], attempts[j])
    {
      if i < j {
        AttemptsInOrder(R, lists, i, j);
      } else {
        if j < i {
          AttemptsInOrder(R, lists, j, i);
        }
        if Precedes(R, lists, attempts[i], attempts[j]) {
          NeverBothWays(R, lists, attempts[i], attempts[j]);
        }
      }
    }
  }

  // ----- Attempts by place and by limb -----

  /** The items of the attempts of a merge of lists, in order. */
  ghost predicate Merged(R: Registry, lists: seq<seq<Ref>>, attempts: seq<Attempt>, rs: seq<Ref>) {
    && Indexed(R, lists) && LimbsBelow(R, |lists|) && InOrder(R, lists, attempts)
    && |rs| == |attempts| && forall i :: 0 <= i < |rs| ==> rs[i] == attempts[i].item
  }

  lemma PlaceOf(R: Registry, lists: seq<seq<Ref>>, attempts: seq<Attempt>, rs: seq<Ref>, r: Ref, l: Limb)
    returns (i: nat)
    requires Merged(R, lists, attempts, rs) && l in LimbsOf(R, r)
    ensures i < |rs| && attempts[i] == Attempt(r, l) && rs[i] == r
  {
    assert Registered(R, r) && l < |lists|;
    assert InLists(lists, Attempt(r, l));
    i :| 0 <= i < |attempts| && attempts[i] == Attempt(r, l);
  }

  lemma PlaceNeeds(R: Registry, lists: seq<seq<Ref>>, attempts: seq<Attempt>, rs: seq<Ref>, i: nat)
    requires Merged(R, lists, attempts, rs) && i < |rs|
    ensures attempts[i].limb in LimbsOf(R, rs[i])
  {
    assert attempts[i] in attempts;
    assert InLists(lists, attempts[i]);
  }

  lemma ReachTold(R: Registry, lists: seq<seq<Ref>>, attempts: seq<Attempt>, rs: seq<Ref>, i: nat)
    requires Merged(R, lists, attempts, rs) && i < |rs|
    ensures ReachedAt(R, rs, i) <==> InReach(R, lists, rs[i], attempts[i].limb)
  {
    PlaceNeeds(R, lists, attempts, rs, i);
    var main, l := Main(R, rs[i].id), attempts[i].limb;
    hide Sooner;
    if j :| 0 <= j < i && rs[j] == main {
      PlaceNeeds(R, lists, attempts, rs, j);
      assert Precedes(R, lists, attempts[j], attempts[i]);
    }
    if k :| k in LimbsOf(R, main) && Sooner(R, lists, main, k, rs[i], l) {
      var j := PlaceOf(R, lists, attempts, rs, main, k);
      assert Precedes(R, lists, attempts[j], attempts[i]);
    }
  }

  lemma BlockedTold(R: Registry, lists: seq<seq<Ref>>, attempts: seq<Attempt>, rs: seq<Ref>, chosen: seq<Ref>, i: nat)
    requires Merged(R, lists, attempts, rs) && i < |rs|
    ensures BlockedAt(R, rs, chosen, i) <==> Blocked(R, lists, chosen, rs[i], attempts[i].limb)
  {
    hide Sooner, ReachedAt, Overlaps, Indexed;
    var r, l := rs[i], attempts[i].limb;
    if j :| 0 <= j < i && rs[j] in chosen && BlocksAt(R, rs, j, i) {
      ReachTold(R, lists, attempts, rs, j);
      assert Precedes(R, lists, attempts[j], attempts[i]);
      assert Blocks(R, lists, rs[j], r, l);
    }
    if c :| c in chosen && Blocks(R, lists, c, r, l) {
      var k :| InReach(R, lists, c, k) && Sooner(R, lists, c, k, r, l);
      var j := PlaceOf(R, lists, attempts, rs, c, k);
      assert Precedes(R, lists, attempts[j], attempts[i]);
      ReachTold(R, lists, attempts, rs, j);
      assert BlocksAt(R, rs, j, i);
    }
  }

  lemma EarnsTold(R: Registry, lists: seq<seq<Ref>>, attempts: seq<Attempt>, rs: seq<Ref>, chosen: seq<Ref>, r: Ref)
    requires Merged(R, lists, attempts, rs)
    ensures EarnsIn(R, rs, chosen, r) <==> Earns(R, lists, chosen, r)
  {
    hide Sooner, ReachedAt, BlockedAt, Blocked, Indexed;
    if i :| 0 <= i < |rs| && rs[i] == r && EarnsAt(R, rs, chosen, i) {
      ReachTold(R, lists, attempts, rs, i);
      BlockedTold(R, lists, attempts, rs, chosen, i);
    }
    if Earns(R, lists, chosen, r) {
      var l :| InReach(R, lists, r, l) && !Blocked(R, lists, chosen, r, l);
      var i := PlaceOf(R, lists, attempts, rs, r, l);
      ReachTold(R, lists, attempts, rs, i);
      BlockedTold(R, lists, attempts, rs, chosen, i);
      assert EarnsAt(R, rs, chosen, i);
    }
  }

  /** A selection is firm when it is so for the attempts in their order. */
  lemma FirmTold(R: Registry, lists: seq<seq<Ref>>, attempts: seq<Attempt>, rs: seq<Ref>, chosen: seq<Ref>)
    requires Merged(R, lists, attempts, rs)
    ensures Firm(R, lists, chosen) <==> FirmIn(R, rs, chosen)
  {
    forall r ensures EarnsIn(R, rs, chosen, r) <==> Earns(R, lists, chosen, r) {
      EarnsTold(R, lists, attempts, rs, chosen, r);
    }
    forall r | !Registered(R, r) ensures !Earns(R, lists, chosen, r) {
      assert LimbsOf(R, r) == {};
    }
    hide Earns, EarnsIn, Merged, LimbsOf, Registered;
  }

  lemma OrderIsMerged(R: Registry, sorted: seq<seq<Ref>>)
    requires Indexed(R, sorted) && AllDescending(R, sorted) && LimbsBelow(R, |sorted|) && ListedOnce(sorted)
    ensures Merged(R, sorted, AttemptsOf(R, sorted), Order(R, sorted))
  {
    hide AttemptsOf, Order, InOrder;
    MergeIsInOrder(R, sorted);
    AttemptsAreOrder(R, sorted);
  }

  // ----- Sorting -----

  lemma {:induction false} WithPriorityHas(R: Registry, rs: seq<Ref>, p: real, r: Ref)
    ensures r in WithPriority(R, rs, p) <==> r in rs && Priority(R, r) == p
  {
    if rs != [] {
      assert rs == rs[..|rs| - 1] + [rs[|rs| - 1]];
      WithPriorityHas(R, rs[..|rs| - 1], p, r);
    }
  }

  lemma EarlierOrLast(rs: seq<Ref>, last: Ref, c: Ref, r: Ref)
    ensures Earlier(rs + [last], c, r) <==> Earlier(rs, c, r) || (last == r && c in rs)
  {
    var more := rs + [last];
    assert forall i :: 0 <= i < |rs| ==> more[i] == rs[i];
    if i, j :| 0 <= i < j < |more| && more[i] == c && more[j] == r {
      assert j < |rs| ==> rs[i] == c && rs[j] == r;
    }
    if i, j :| 0 <= i < j < |rs| && rs[i] == c && rs[j] == r {
      assert more[i] == c && more[j] == r;
    }
    if last == r && c in rs {
      var i :| 0 <= i < |rs| && rs[i] == c;
      assert more[i] == c && more[|rs|] == r;
    }
  }

  /** Among equals the order in a list is that among the items of their priority. */
  lemma {:induction false} EarlierAmongEquals(R: Registry, rs: seq<Ref>, c: Ref, r: Ref)
    requires Priority(R, c) == Priority(R, r)
    ensures Earlier(rs, c, r) <==> Earlier(WithPriority(R, rs, Priority(R, r)), c, r)
  {
    if rs != [] {
      var front, last, p := rs[..|rs| - 1], rs[|rs| - 1], Priority(R, r);
      hide Earlier;
      assert rs == front + [last];
      EarlierAmongEquals(R, front, c, r);
      EarlierOrLast(front, last, c, r);
      WithPriorityHas(R, front, p, c);
      EarlierOrLast(WithPriority(R, front, p), last, c, r);
      WithPriorityAppend(R, front, last, p);
      if Priority(R, last) != p {
        assert WithPriority(R, front, p) + [] == WithPriority(R, front, p);
      }
    }
  }

  lemma SortingKeepsOrder(R: Registry, lists: seq<seq<Ref>>, c: Ref, k: Limb, r: Ref, l: Limb)
    ensures Sooner(R, lists, c, k, r, l) <==> Sooner(R, SortedLists(R, lists), c, k, r, l)
  {
    if Priority(R, c) == Priority(R, r) && k < |lists| {
      EarlierAmongEquals(R, lists[k], c, r);
      EarlierAmongEquals(R, StableSort(R, lists[k]), c, r);
      StableSortSorts(R, lists[k], Priority(R, r));
    }
  }
}
