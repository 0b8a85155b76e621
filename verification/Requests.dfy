/** The registered actions of the behaviour controller: every request is a group of items, and
    every item has a priority and the set of limbs it needs. A reference to an item is the pair
    of its group's id and its index in the group, because items are never moved once registered. */
module Requests {

  // Limbs are numbered from 0 in the order of the LimbID enumeration. Nothing in the selection
  // depends on how many there are.
  type Limb = nat

  datatype Item = Item(active: bool, priority: real, limbs: set<Limb>)

  datatype Request = Request(active: bool, maxPriority: real, mainElement: nat, items: seq<Item>)

  datatype Ref = Ref(id: nat, index: nat)

  type Registry = map<nat, Request>

  predicate Registered(R: Registry, r: Ref) {
    r.id in R && r.index < |R[r.id].items|
  }

  function Priority(R: Registry, r: Ref): real {
    if Registered(R, r) then R[r.id].items[r.index].priority else 0.0
  }

  function LimbsOf(R: Registry, r: Ref): set<Limb> {
    if Registered(R, r) then R[r.id].items[r.index].limbs else {}
  }

  function Main(R: Registry, id: nat): Ref {
    Ref(id, if id in R then R[id].mainElement else 0)
  }

  predicate IsMain(R: Registry, r: Ref) {
    r == Main(R, r.id)
  }

  /** The main item of every group is a registered item of the greatest priority in the group. */
  ghost predicate MainIsTop(R: Registry) {
    forall r :: Registered(R, r) ==>
      Registered(R, Main(R, r.id)) && Priority(R, r) <= Priority(R, Main(R, r.id))
  }

  /** `c` comes before `r`: its priority is greater, or it is the main item of r's group and as great. */
  ghost predicate Outranks(R: Registry, c: Ref, r: Ref) {
    Priority(R, r) < Priority(R, c) || (Priority(R, r) == Priority(R, c) && c == Main(R, r.id) && c != r)
  }

  /** Items of one priority need no limb in common and none is the main item of another's group. It is
      so in particular when no two items have the same priority. */
  ghost predicate Uncontested(R: Registry) {
    forall r, q :: Registered(R, r) && Registered(R, q) && r != q && Priority(R, r) == Priority(R, q) ==>
      LimbsOf(R, r) !! LimbsOf(R, q) && q != Main(R, r.id)
  }

  ghost predicate LimbsBelow(R: Registry, n: nat) {
    forall r, l :: Registered(R, r) && l in LimbsOf(R, r) ==> l < n
  }

  function AllLimbs(n: nat): (ls: set<Limb>)
    ensures forall l: Limb :: l in ls <==> l < n
  {
    if n == 0 then {} else AllLimbs(n - 1) + {n - 1}
  }

  ghost predicate Descending(R: Registry, rs: seq<Ref>) {
    forall i, j :: 0 <= i < j < |rs| ==> Priority(R, rs[j]) <= Priority(R, rs[i])
  }
}
