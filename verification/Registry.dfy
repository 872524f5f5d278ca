/** The policy registry: deques filled from both ends with ids from one counter. */
module Registry {
  import opened Wrappers
  import opened Contract
  import opened Policies

  datatype Registered = Registered(id: nat, policy: Policy)

  /** The registry as a value. */
  datatype View = View(
    nextPolicyId: nat,
    actions: map<ActionType, seq<Registered>>,
    inbound: seq<Registered>,
    outbound: seq<Registered>)
  {
    function ActionPolicies(t: ActionType): seq<Registered> {
      if t in actions then actions[t] else []
    }

    function Deque(slot: Slot): seq<Registered> {
      match slot
      case InboundSlot => inbound
      case OutboundSlot => outbound
      case ActionSlot(t) => ActionPolicies(t)
    }
  }

  datatype Slot = InboundSlot | OutboundSlot | ActionSlot(actionType: ActionType)

  /** One call of the six registration methods. */
  datatype Registration = Registration(front: bool, slot: Slot, policy: Policy)

  const EMPTY_VIEW := View(1, map[], [], [])

  function Push(deque: seq<Registered>, front: bool, entry: Registered): seq<Registered> {
    if front then [entry] + deque else deque + [entry]
  }

  function Register(v: View, r: Registration): View {
    var pushed := Push(v.Deque(r.slot), r.front, Registered(v.nextPolicyId, r.policy));
    var bumped := v.(nextPolicyId := v.nextPolicyId + 1);
    match r.slot
    case InboundSlot => bumped.(inbound := pushed)
    case OutboundSlot => bumped.(outbound := pushed)
    case ActionSlot(t) => bumped.(actions := v.actions[t := pushed])
  }

  function RegisterAll(v: View, rs: seq<Registration>): View {
    if rs == [] then v else Register(RegisterAll(v, rs[..|rs| - 1]), rs[|rs| - 1])
  }

  class PolicyRegistry {
    var nextPolicyId: nat
    var policyEntries: map<ActionType, seq<Registered>>
    var globalPoliciesInbound: seq<Registered>
    var globalPoliciesOutbound: seq<Registered>

    function Contents(): View
      reads this
    {
      View(nextPolicyId, policyEntries, globalPoliciesInbound, globalPoliciesOutbound)
    }

    constructor ()
      ensures Contents() == EMPTY_VIEW
    {
      nextPolicyId := 1;
      policyEntries := map[];
      globalPoliciesInbound := [];
      globalPoliciesOutbound := [];
    }

    method PrependAction(t: ActionType, policy: Policy)
      modifies this
      ensures Contents() == Register(old(Contents()), Registration(true, ActionSlot(t), policy))
    {
      var id := AllocatePolicyId();
      GetOrDefault(t);
      policyEntries := policyEntries[t := [Registered(id, policy)] + policyEntries[t]];
    }

    method AppendAction(t: ActionType, policy: Policy)
      modifies this
      ensures Contents() == Register(old(Contents()), Registration(false, ActionSlot(t), policy))
    {
      var id := AllocatePolicyId();
      GetOrDefault(t);
      policyEntries := policyEntries[t := policyEntries[t] + [Registered(id, policy)]];
    }

    method PrependInbound(policy: Policy)
      modifies this
      ensures Contents() == Register(old(Contents()), Registration(true, InboundSlot, policy))
    {
      var id := AllocatePolicyId();
      globalPoliciesInbound := [Registered(id, policy)] + globalPoliciesInbound;
    }

    method AppendInbound(policy: Policy)
      modifies this
      ensures Contents() == Register(old(Contents()), Registration(false, InboundSlot, policy))
    {
      var id := AllocatePolicyId();
      globalPoliciesInbound := globalPoliciesInbound + [Registered(id, policy)];
    }

    method PrependOutbound(policy: Policy)
      modifies this
      ensures Contents() == Register(old(Contents()), Registration(true, OutboundSlot, policy))
    {
      var id := AllocatePolicyId();
      globalPoliciesOutbound := [Registered(id, policy)] + globalPoliciesOutbound;
    }

    method AppendOutbound(policy: Policy)
      modifies this
      ensures Contents() == Register(old(Contents()), Registration(false, OutboundSlot, policy))
    {
      var id := AllocatePolicyId();
      globalPoliciesOutbound := globalPoliciesOutbound + [Registered(id, policy)];
    }

    method AllocatePolicyId() returns (id: nat)
      modifies this`nextPolicyId
      ensures id == old(nextPolicyId) && nextPolicyId == id + 1
    {
      id := nextPolicyId;
      nextPolicyId := nextPolicyId + 1;
    }

    method GetOrDefault(t: ActionType)
      modifies this`policyEntries
      ensures t in policyEntries
      ensures policyEntries == old(policyEntries)[t := old(Contents()).ActionPolicies(t)]
    {
      if t !in policyEntries {
        policyEntries := policyEntries[t := []];
      }
    }
  }

  // ----- Any sequence of registrations -----

  /** The entries pushed at one end of one deque, in registration order; ids count registrations from 1. */
  function Pushed(rs: seq<Registration>, slot: Slot, front: bool): (entries: seq<Registered>)
    ensures forall i :: 0 <= i < |entries| ==> 1 <= entries[i].id <= |rs|
  {
    if rs == [] then []
    else
      var before, last := Pushed(rs[..|rs| - 1], slot, front), rs[|rs| - 1];
      if last.slot == slot && last.front == front then before + [Registered(|rs|, last.policy)] else before
  }

  function Reverse<T>(xs: seq<T>): (r: seq<T>)
    ensures |r| == |xs|
    ensures forall i :: 0 <= i < |xs| ==> r[i] == xs[|xs| - 1 - i]
  {
    if xs == [] then [] else [xs[|xs| - 1]] + Reverse(xs[..|xs| - 1])
  }

  lemma DequeAfter(v: View, r: Registration, slot: Slot)
    ensures Register(v, r).Deque(slot) ==
            if slot == r.slot then Push(v.Deque(slot), r.front, Registered(v.nextPolicyId, r.policy)) else v.Deque(slot)
  {
  }

  lemma ReverseSnoc<T>(xs: seq<T>, x: T)
    ensures Reverse(xs + [x]) == [x] + Reverse(xs)
  {
    assert (xs + [x])[..|xs|] == xs;
  }

  lemma PushedSnoc(before: seq<Registration>, last: Registration, slot: Slot, front: bool)
    ensures Pushed(before + [last], slot, front) ==
            Pushed(before, slot, front) +
            if last.slot == slot && last.front == front then [Registered(|before| + 1, last.policy)] else []
  {
    assert (before + [last])[..|before|] == before;
  }

  lemma PushOnSplit(fronts: seq<Registered>, backs: seq<Registered>, front: bool, entry: Registered)
    ensures Push(Reverse(fronts) + backs, front, entry) ==
            Reverse(if front then fronts + [entry] else fronts) + (if front then backs else backs + [entry])
  {
    ReverseSnoc(fronts, entry);
    if front {
      assert [entry] + (Reverse(fronts) + backs) == [entry] + Reverse(fronts) + backs;
    } else {
      assert Reverse(fronts) + backs + [entry] == Reverse(fronts) + (backs + [entry]);
    }
  }

  lemma NextIdCounts(rs: seq<Registration>)
    ensures RegisterAll(EMPTY_VIEW, rs).nextPolicyId == |rs| + 1
  {
  }

  lemma RegisterAllSnoc(v: View, before: seq<Registration>, last: Registration)
    ensures RegisterAll(v, before + [last]) == Register(RegisterAll(v, before), last)
  {
    assert (before + [last])[..|before|] == before;
  }

  /** One more registration lengthens its own deque at its own end. */
  lemma DequeGrows(before: seq<Registration>, last: Registration, slot: Slot)
    requires RegisterAll(EMPTY_VIEW, before).Deque(slot) == Reverse(Pushed(before, slot, true)) + Pushed(before, slot, false)
    ensures
      var rs := before + [last];
      RegisterAll(EMPTY_VIEW, rs).Deque(slot) == Reverse(Pushed(rs, slot, true)) + Pushed(rs, slot, false)
  {
    NextIdCounts(before);
    RegisterAllSnoc(EMPTY_VIEW, before, last);
    DequeAfter(RegisterAll(EMPTY_VIEW, before), last, slot);
    PushedSnoc(before, last, slot, true);
    PushedSnoc(before, last, slot, false);
    if last.slot == slot {
      var entry := Registered(|before| + 1, last.policy);
      PushOnSplit(Pushed(before, slot, true), Pushed(before, slot, false), last.front, entry);
    }
  }

  /** Each deque is its prepends reversed, then its appends. */
  lemma {:induction false} DequeIsPrependsThenAppends(rs: seq<Registration>, slot: Slot)
    ensures RegisterAll(EMPTY_VIEW, rs).Deque(slot) == Reverse(Pushed(rs, slot, true)) + Pushed(rs, slot, false)
  {
    if rs != [] {
      var before, last := rs[..|rs| - 1], rs[|rs| - 1];
      DequeIsPrependsThenAppends(before, slot);
      DequeGrows(before, last, slot);
      assert rs == before + [last];
    }
  }

  ghost predicate Rises(entries: seq<Registered>) {
    forall i, j :: 0 <= i < j < |entries| ==> entries[i].id < entries[j].id
  }

  ghost predicate OwnRegistration(rs: seq<Registration>, slot: Slot, front: bool, entry: Registered) {
    1 <= entry.id <= |rs| && rs[entry.id - 1] == Registration(front, slot, entry.policy)
  }

  /** Ids at one end rise in registration order, and each names its own registration. */
  lemma {:induction false} PushedIds(rs: seq<Registration>, slot: Slot, front: bool)
    ensures
      var entries := Pushed(rs, slot, front);
      && Rises(entries)
      && (forall i :: 0 <= i < |entries| ==> OwnRegistration(rs, slot, front, entries[i]))
  {
    if rs != [] {
      var before, last := rs[..|rs| - 1], rs[|rs| - 1];
      assert rs == before + [last];
      PushedIds(before, slot, front);
      PushedSnoc(before, last, slot, front);
      var entries := Pushed(rs, slot, front);
      forall i | 0 <= i < |entries|
        ensures OwnRegistration(rs, slot, front, entries[i])
      {
        assert i < |Pushed(before, slot, front)| ==> entries[i] == Pushed(before, slot, front)[i];
      }
    }
  }

  lemma {:induction false} PushedHasEach(rs: seq<Registration>, k: nat)
    requires 1 <= k <= |rs|
    ensures Registered(k, rs[k - 1].policy) in Pushed(rs, rs[k - 1].slot, rs[k - 1].front)
  {
    if k < |rs| {
      PushedHasEach(rs[..|rs| - 1], k);
    }
  }

  /** Ids fall over a deque's prepends and then rise over its appends. */
  ghost predicate FallsThenRises(deque: seq<Registered>, fronts: nat) {
    && fronts <= |deque|
    && (forall i, j :: 0 <= i < j < fronts ==> deque[i].id > deque[j].id)
    && (forall i, j :: fronts <= i < j < |deque| ==> deque[i].id < deque[j].id)
  }

  lemma SplitIds(rs: seq<Registration>, slot: Slot, fronts: seq<Registered>, backs: seq<Registered>)
    requires Rises(fronts) && Rises(backs)
    requires forall i :: 0 <= i < |fronts| ==> OwnRegistration(rs, slot, true, fronts[i])
    requires forall i :: 0 <= i < |backs| ==> OwnRegistration(rs, slot, false, backs[i])
    ensures
      var deque := Reverse(fronts) + backs;
      && FallsThenRises(deque, |fronts|)
      && forall i :: 0 <= i < |deque| ==> OwnRegistration(rs, slot, i < |fronts|, deque[i])
  {
  }

  lemma DequeIds(rs: seq<Registration>, slot: Slot)
    ensures
      var deque, fronts := RegisterAll(EMPTY_VIEW, rs).Deque(slot), |Pushed(rs, slot, true)|;
      && FallsThenRises(deque, fronts)
      && forall i :: 0 <= i < |deque| ==> OwnRegistration(rs, slot, i < fronts, deque[i])
  {
    DequeIsPrependsThenAppends(rs, slot);
    PushedIds(rs, slot, true);
    PushedIds(rs, slot, false);
    SplitIds(rs, slot, Pushed(rs, slot, true), Pushed(rs, slot, false));
  }

  lemma SameIdInDeque(deque: seq<Registered>, fronts: nat, i: nat, j: nat)
    requires FallsThenRises(deque, fronts) && i < |deque| && j < |deque|
    requires (i < fronts <==> j < fronts) && deque[i].id == deque[j].id
    ensures i == j
  {
  }

  /** Ids are unique across all deques: two places with one id are the same place. */
  lemma IdsAreUnique(rs: seq<Registration>, slot: Slot, i: nat, slot': Slot, i': nat)
    requires
      var v := RegisterAll(EMPTY_VIEW, rs);
      i < |v.Deque(slot)| && i' < |v.Deque(slot')| && v.Deque(slot)[i].id == v.Deque(slot')[i'].id
    ensures slot == slot' && i == i'
  {
    DequeIds(rs, slot);
    DequeIds(rs, slot');
    var v := RegisterAll(EMPTY_VIEW, rs);
    assert OwnRegistration(rs, slot, i < |Pushed(rs, slot, true)|, v.Deque(slot)[i]);
    assert OwnRegistration(rs, slot', i' < |Pushed(rs, slot', true)|, v.Deque(slot')[i']);
    SameIdInDeque(v.Deque(slot), |Pushed(rs, slot, true)|, i, i');
  }

  lemma InEitherHalf<T>(fronts: seq<T>, backs: seq<T>, x: T)
    requires x in fronts || x in backs
    ensures x in Reverse(fronts) + backs
  {
    if x in fronts {
      var j :| 0 <= j < |fronts| && fronts[j] == x;
      assert Reverse(fronts)[|fronts| - 1 - j] == x;
    }
  }

  /** Every registration is in its deque, under its own id. */
  lemma EachIsRegistered(rs: seq<Registration>, k: nat)
    requires 1 <= k <= |rs|
    ensures Registered(k, rs[k - 1].policy) in RegisterAll(EMPTY_VIEW, rs).Deque(rs[k - 1].slot)
  {
    var own := rs[k - 1];
    PushedHasEach(rs, k);
    DequeIsPrependsThenAppends(rs, own.slot);
    InEitherHalf(Pushed(rs, own.slot, true), Pushed(rs, own.slot, false), Registered(k, own.policy));
  }
}
