/** Where entities are, as a log of arrivals: the naive relation the location tables refine. */
module LocationModel {
  import opened Wrappers
  import opened EntityIds

  type PlaceId = n: nat | 0 < n <= 0xFFFF_FFFF_FFFF_FFFF witness 1

  /** One entry per located entity, oldest arrival first. */
  type Arrivals = seq<(EntityId, PlaceId)>

  ghost predicate OnePerSlot(log: Arrivals) {
    forall i, j :: 0 <= i < j < |log| ==> log[i].0.slot != log[j].0.slot
  }

  ghost predicate Vacant(log: Arrivals, slot: SlotIndex) {
    forall i :: 0 <= i < |log| ==> log[i].0.slot != slot
  }

  function Leave(log: Arrivals, slot: SlotIndex): Arrivals {
    if log == [] then []
    else if log[0].0.slot == slot then Leave(log[1..], slot)
    else [log[0]] + Leave(log[1..], slot)
  }

  function PlaceOf(log: Arrivals, slot: SlotIndex): Option<PlaceId> {
    if log == [] then None
    else if log[0].0.slot == slot then Some(log[0].1)
    else PlaceOf(log[1..], slot)
  }

  function At(log: Arrivals, place: PlaceId): seq<EntityId> {
    if log == [] then []
    else if log[0].1 == place then [log[0].0] + At(log[1..], place)
    else At(log[1..], place)
  }

  /** The list without the occupant of `slot`. */
  function Retain(list: seq<EntityId>, slot: SlotIndex): seq<EntityId> {
    if list == [] then []
    else if list[0].slot == slot then Retain(list[1..], slot)
    else [list[0]] + Retain(list[1..], slot)
  }

  lemma {:induction false} LeaveFacts(log: Arrivals, slot: SlotIndex)
    ensures forall e :: e in Leave(log, slot) <==> e in log && e.0.slot != slot
    ensures OnePerSlot(log) ==> OnePerSlot(Leave(log, slot))
  {
    if log != [] {
      LeaveFacts(log[1..], slot);
      assert log == [log[0]] + log[1..];
      if OnePerSlot(log) {
        assert OnePerSlot(log[1..]);
        assert forall e :: e in log[1..] ==> e.0.slot != log[0].0.slot;
        assert forall e :: e in Leave(log[1..], slot) ==> e.0.slot != log[0].0.slot;
      }
    }
  }

  lemma {:induction false} LeavePlaceOf(log: Arrivals, slot: SlotIndex, other: SlotIndex)
    ensures PlaceOf(Leave(log, slot), other) == if other == slot then None else PlaceOf(log, other)
  {
    if log != [] {
      LeavePlaceOf(log[1..], slot, other);
    }
  }

  lemma {:induction false} LeaveAt(log: Arrivals, slot: SlotIndex, place: PlaceId)
    requires OnePerSlot(log)
    ensures At(Leave(log, slot), place) == Retain(At(log, place), slot)
    ensures PlaceOf(log, slot) != Some(place) ==> At(Leave(log, slot), place) == At(log, place)
  {
    if log != [] {
      LeaveAt(log[1..], slot, place);
      if log[0].0.slot == slot {
        AbsentSlot(log[1..], slot);
      }
    }
  }

  /** The reverse index lists, per place, exactly the log's entries there, and stores no empty list. */
  ghost predicate Indexes(occupants: map<PlaceId, seq<EntityId>>, log: Arrivals) {
    && (forall p: PlaceId :: p in occupants <==> At(log, p) != [])
    && (forall p: PlaceId :: p in occupants ==> occupants[p] == At(log, p))
  }

  lemma LeaveEverywhere(log: Arrivals, slot: SlotIndex)
    requires OnePerSlot(log)
    ensures OnePerSlot(Leave(log, slot))
    ensures Vacant(Leave(log, slot), slot)
    ensures forall s: SlotIndex :: PlaceOf(Leave(log, slot), s) == if s == slot then None else PlaceOf(log, s)
    ensures forall p: PlaceId :: At(Leave(log, slot), p) == if PlaceOf(log, slot) == Some(p) then Retain(At(log, p), slot) else At(log, p)
  {
    LeaveFacts(log, slot);
    forall s: SlotIndex ensures PlaceOf(Leave(log, slot), s) == if s == slot then None else PlaceOf(log, s) {
      LeavePlaceOf(log, slot, s);
    }
    forall p: PlaceId
      ensures At(Leave(log, slot), p) == if PlaceOf(log, slot) == Some(p) then Retain(At(log, p), slot) else At(log, p)
    {
      LeaveAt(log, slot, p);
    }
  }

  lemma {:induction false} AbsentSlot(log: Arrivals, slot: SlotIndex)
    requires Vacant(log, slot)
    ensures Leave(log, slot) == log && PlaceOf(log, slot) == None
  {
    if log != [] {
      assert log[0].0.slot != slot;
      AbsentSlot(log[1..], slot);
    }
  }

  lemma {:induction false} ArriveFacts(log: Arrivals, e: EntityId, place: PlaceId)
    requires Vacant(log, e.slot)
    ensures forall s :: PlaceOf(log + [(e, place)], s) == if s == e.slot then Some(place) else PlaceOf(log, s)
    ensures forall p :: At(log + [(e, place)], p) == if p == place then At(log, p) + [e] else At(log, p)
  {
    var arrived := log + [(e, place)];
    if log == [] {
      assert arrived == [(e, place)];
    } else {
      assert log[0].0.slot != e.slot;
      ArriveFacts(log[1..], e, place);
      assert arrived[1..] == log[1..] + [(e, place)];
    }
  }

  lemma ArriveIndexes(occupants: map<PlaceId, seq<EntityId>>, log: Arrivals, e: EntityId, place: PlaceId)
    requires Vacant(log, e.slot) && OnePerSlot(log) && Indexes(occupants, log)
    ensures OnePerSlot(log + [(e, place)])
    ensures Indexes(occupants[place := (if place in occupants then occupants[place] else []) + [e]], log + [(e, place)])
  {
    ArriveFacts(log, e, place);
  }

  lemma {:induction false} AtMember(log: Arrivals, place: PlaceId)
    ensures forall e :: e in At(log, place) <==> (e, place) in log
  {
    if log != [] {
      AtMember(log[1..], place);
      assert log == [log[0]] + log[1..];
    }
  }
}

/** The dense forward table with its reverse occupant index. */
module LocationStore {
  import opened Wrappers
  import opened EntityIds
  import opened LocationModel

  class LocationOf {
    var bySlot: seq<Option<PlaceId>>
    var occupants: map<PlaceId, seq<EntityId>>
    ghost var log: Arrivals

    /** Both tables are views of the one arrival log, and no empty occupant list is stored. */
    ghost predicate Valid()
      reads this
    {
      && OnePerSlot(log)
      && (forall s: SlotIndex :: Forward(s) == PlaceOf(log, s))
      && Indexes(occupants, log)
    }

    function Forward(slot: SlotIndex): Option<PlaceId>
      reads this
    {
      if slot < |bySlot| then bySlot[slot] else None
    }

    constructor ()
      ensures Valid() && log == []
    {
      bySlot, occupants, log := [], map[], [];
    }

    method Place(entity: EntityId, at: PlaceId)
      requires Valid()
      modifies this
      ensures Valid() && log == Leave(old(log), entity.slot) + [(entity, at)]
    {
      var index := entity.slot;
      ghost var left := Leave(log, index);
      LeaveEverywhere(log, index);
      Cover(index);
      var previous := bySlot[index];
      bySlot := bySlot[index := Some(at)];
      if previous.Some? {
        RemoveOccupant(previous.value, index);
      }
      ArriveFacts(left, entity, at);
      ArriveIndexes(occupants, left, entity, at);
      log := left + [(entity, at)];
      occupants := occupants[at := (if at in occupants then occupants[at] else []) + [entity]];
    }

    /** Grows the forward table so that it covers `index`; no slot changes its place. */
    method Cover(index: SlotIndex)
      modifies this`bySlot
      ensures index < |bySlot| && forall s: SlotIndex :: Forward(s) == old(Forward(s))
    {
      if index >= |bySlot| {
        bySlot := bySlot + seq(index + 1 - |bySlot|, _ => None);
      }
    }

    method Remove(entity: EntityId)
      requires Valid()
      modifies this
      ensures Valid() && log == Leave(old(log), entity.slot)
    {
      var index := entity.slot;
      LeaveEverywhere(log, index);
      var previous := Forward(index);
      if previous.Some? {
        bySlot := bySlot[index := None];
        RemoveOccupant(previous.value, index);
      }
      log := Leave(log, index);
    }

    method RemoveOccupant(place: PlaceId, slot: SlotIndex)
      requires OnePerSlot(log) && PlaceOf(log, slot) == Some(place) && Indexes(occupants, log)
      modifies this`occupants
      ensures Indexes(occupants, Leave(log, slot))
    {
      LeaveEverywhere(log, slot);
      if place !in occupants {
        return;
      }
      var list := Retain(occupants[place], slot);
      if list == [] {
        occupants := occupants - {place};
      } else {
        occupants := occupants[place := list];
      }
    }

    method Location(entity: EntityId) returns (r: Option<PlaceId>)
      requires Valid()
      ensures r == PlaceOf(log, entity.slot)
    {
      r := Forward(entity.slot);
    }

    method Occupants(place: PlaceId) returns (list: seq<EntityId>)
      requires Valid()
      ensures list == At(log, place)
      ensures forall e :: e in list <==> (e, place) in log
    {
      AtMember(log, place);
      list := if place in occupants then occupants[place] else [];
    }
  }
}

/** What each container holds, and what each entity answers to: two dense tables keyed on the slot alone. */
module SlotTables {
  import opened EntityIds
  import opened LocationModel

  type Keyword = string

  predicate HoldsSlot(list: seq<EntityId>, slot: SlotIndex) {
    exists i :: 0 <= i < |list| && list[i].slot == slot
  }

  lemma {:induction false} RetainFacts(list: seq<EntityId>, slot: SlotIndex)
    ensures forall e :: e in Retain(list, slot) <==> e in list && e.slot != slot
    ensures !HoldsSlot(list, slot) ==> Retain(list, slot) == list
  {
    if list != [] {
      RetainFacts(list[1..], slot);
      assert list == [list[0]] + list[1..];
      if !HoldsSlot(list, slot) {
        assert list[0].slot != slot;
        forall i | 0 <= i < |list[1..]| ensures list[1..][i].slot != slot { assert list[i + 1].slot != slot; }
      }
    }
  }

  class Inventory {
    var bySlot: seq<seq<EntityId>>

    function Contents(slot: SlotIndex): seq<EntityId>
      reads this
    {
      if slot < |bySlot| then bySlot[slot] else []
    }

    constructor ()
      ensures forall s: SlotIndex :: Contents(s) == []
    {
      bySlot := [];
    }

    method Insert(container: EntityId, item: EntityId)
      modifies this
      ensures forall s: SlotIndex :: s != container.slot ==> Contents(s) == old(Contents(s))
      ensures Contents(container.slot) == var was := old(Contents(container.slot));
                                          if HoldsSlot(was, item.slot) then was else was + [item]
    {
      var index := container.slot;
      if index >= |bySlot| {
        bySlot := bySlot + seq(index + 1 - |bySlot|, _ => []);
      }
      if !HoldsSlot(bySlot[index], item.slot) {
        bySlot := bySlot[index := bySlot[index] + [item]];
      }
    }

    method Remove(container: EntityId, item: EntityId)
      modifies this
      ensures forall s: SlotIndex ::
                Contents(s) == if s == container.slot then Retain(old(Contents(s)), item.slot) else old(Contents(s))
    {
      if container.slot < |bySlot| {
        bySlot := bySlot[container.slot := Retain(bySlot[container.slot], item.slot)];
      }
    }

    method Clear(container: EntityId)
      modifies this
      ensures forall s: SlotIndex :: Contents(s) == if s == container.slot then [] else old(Contents(s))
    {
      if container.slot < |bySlot| {
        bySlot := bySlot[container.slot := []];
      }
    }
  }

  class Naming {
    var bySlot: seq<seq<Keyword>>

    function Keywords(slot: SlotIndex): seq<Keyword>
      reads this
    {
      if slot < |bySlot| then bySlot[slot] else []
    }

    constructor ()
      ensures forall s: SlotIndex :: Keywords(s) == []
    {
      bySlot := [];
    }

    method Set(entity: EntityId, keywords: seq<Keyword>)
      modifies this
      ensures forall s: SlotIndex :: Keywords(s) == if s == entity.slot then keywords else old(Keywords(s))
    {
      var index := entity.slot;
      if index >= |bySlot| {
        bySlot := bySlot + seq(index + 1 - |bySlot|, _ => []);
      }
      bySlot := bySlot[index := keywords];
    }

    method Clear(entity: EntityId)
      modifies this
      ensures forall s: SlotIndex :: Keywords(s) == if s == entity.slot then [] else old(Keywords(s))
    {
      if entity.slot < |bySlot| {
        bySlot := bySlot[entity.slot := []];
      }
    }
  }
}
