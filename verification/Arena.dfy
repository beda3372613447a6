/** The liveness state of a tenant's slots, and what every operation on it promises about handles. */
module ArenaModel {
  import opened Wrappers
  import opened EntityIds

  datatype ArenaError =
    | CrossTenant(arena: TenantTag, handle: TenantTag)
    | StaleHandle
    | Exhausted

  datatype SlotState = Live(generation: Generation) | Free(generation: Generation) | Burned

  const SLOT_SPACE := MAX_SLOT + 1

  datatype Arena = Arena(tenant: TenantTag, slots: seq<SlotState>, free: seq<SlotIndex>) {

    /** The free list is exactly the Free slots, each once. */
    ghost predicate Consistent() {
      && |slots| <= SLOT_SPACE
      && (forall i :: 0 <= i < |free| ==> free[i] < |slots| && slots[free[i]].Free?)
      && (forall i, j :: 0 <= i < j < |free| ==> free[i] != free[j])
      && (forall s: SlotIndex :: s < |slots| && slots[s].Free? ==> s in free)
    }

    predicate IsLive(h: EntityId) {
      h.tenant == tenant && h.slot < |slots| && slots[h.slot] == Live(h.generation)
    }

    /** The handles this arena has handed out since it was created, read off the slot generations. */
    ghost predicate Minted(h: EntityId) {
      && h.tenant == tenant
      && h.slot < |slots|
      && match slots[h.slot] {
           case Live(g) => h.generation <= g
           case Free(g) => h.generation < g
           case Burned => true
         }
    }

    function Alloc(): (Arena, Result<EntityId, ArenaError>)
      requires Consistent()
    {
      if |free| > 0 then
        var slot := free[|free| - 1];
        var g := slots[slot].generation;
        (Arena(tenant, slots[slot := Live(g)], free[..|free| - 1]), Ok(EntityId(tenant, slot, g)))
      else if |slots| > MAX_SLOT then
        (this, Err(Exhausted))
      else
        (Arena(tenant, slots + [Live(FIRST)], free), Ok(EntityId(tenant, |slots|, FIRST)))
    }

    function Check(h: EntityId): Result<SlotIndex, ArenaError> {
      if h.tenant != tenant then Err(CrossTenant(tenant, h.tenant))
      else if IsLive(h) then Ok(h.slot)
      else Err(StaleHandle)
    }

    /** Frees `h` when it is live, and leaves the arena alone otherwise. */
    function Release(h: EntityId): Arena {
      if !IsLive(h) then this else
      match Next(h.generation)
      case Some(next) => Arena(tenant, slots[h.slot := Free(next)], free + [h.slot])
      case None => Arena(tenant, slots[h.slot := Burned], free)
    }
  }

  lemma AllocMintsFresh(a: Arena)
    requires a.Consistent()
    ensures var (b, r) := a.Alloc();
            && b.Consistent() && b.tenant == a.tenant
            && (r.Ok? ==>
                  && !a.Minted(r.value)
                  && (forall h :: b.IsLive(h) <==> a.IsLive(h) || h == r.value)
                  && (forall h :: b.Minted(h) <==> a.Minted(h) || h == r.value))
            && (r.Err? ==> b == a && r.error == Exhausted)
            && (r.Err? <==> |a.slots| == SLOT_SPACE && forall s: SlotIndex :: s < |a.slots| ==> !a.slots[s].Free?)
  {
    var (b, r) := a.Alloc();
    if |a.free| > 0 {
      var slot := a.free[|a.free| - 1];
      assert a.slots[slot].Free?;
      assert forall s: SlotIndex :: s < |b.slots| && b.slots[s].Free? ==> s in b.free by {
        forall s: SlotIndex | s < |b.slots| && b.slots[s].Free? ensures s in b.free {
          assert a.slots[s].Free?;
          var i :| 0 <= i < |a.free| && a.free[i] == s;
          assert b.free[i] == s;
        }
      }
    }
  }

  lemma ReleaseForgetsOnlyIts(a: Arena, dead: EntityId)
    requires a.Consistent()
    ensures var b := a.Release(dead);
            && b.Consistent() && b.tenant == a.tenant
            && (forall h :: b.IsLive(h) <==> a.IsLive(h) && h != dead)
            && (forall h :: b.Minted(h) <==> a.Minted(h))
  {
    var b := a.Release(dead);
    if a.IsLive(dead) {
      assert dead.slot !in a.free;
      match Next(dead.generation)
      case Some(next) =>
        assert b.free[|a.free|] == dead.slot;
        forall s: SlotIndex | s < |b.slots| && b.slots[s].Free? ensures s in b.free {
          if s != dead.slot {
            assert a.slots[s].Free?;
            var i :| 0 <= i < |a.free| && a.free[i] == s;
            assert b.free[i] == s;
          }
        }
      case None =>
        forall s: SlotIndex | s < |b.slots| && b.slots[s].Free? ensures s in b.free {
          assert a.slots[s].Free?;
        }
    }
  }

  // Whole runs.

  datatype Op = DoAlloc | DoFree(handle: EntityId)

  function Step(a: Arena, op: Op): Arena
    requires a.Consistent()
  {
    match op
    case DoAlloc => a.Alloc().0
    case DoFree(h) => a.Release(h)
  }

  lemma StepMints(a: Arena, op: Op)
    requires a.Consistent()
    ensures Step(a, op).Consistent() && Step(a, op).tenant == a.tenant
    ensures forall h :: a.Minted(h) ==> Step(a, op).Minted(h)
    ensures forall h :: a.Minted(h) && Step(a, op).IsLive(h) ==> a.IsLive(h)
    ensures op.DoAlloc? && a.Alloc().1.Ok? ==> !a.Minted(a.Alloc().1.value) && Step(a, op).Minted(a.Alloc().1.value)
  {
    match op
    case DoAlloc => AllocMintsFresh(a);
    case DoFree(h) => ReleaseForgetsOnlyIts(a, h);
  }

  ghost function Run(a: Arena, ops: seq<Op>): (end: Arena)
    requires a.Consistent()
    ensures end.Consistent()
    decreases |ops|
  {
    if ops == [] then a
    else
      StepMints(a, ops[0]);
      Run(Step(a, ops[0]), ops[1..])
  }

  /** The handles a run mints, in order. */
  ghost function MintedBy(a: Arena, ops: seq<Op>): seq<EntityId>
    requires a.Consistent()
    decreases |ops|
  {
    if ops == [] then []
    else
      StepMints(a, ops[0]);
      var rest := MintedBy(Step(a, ops[0]), ops[1..]);
      if ops[0].DoAlloc? && a.Alloc().1.Ok? then [a.Alloc().1.value] + rest else rest
  }

  /** No run mints a handle twice, nor one that was already out when the run began. */
  lemma {:induction false} NoHandleIsMintedTwice(a: Arena, ops: seq<Op>)
    requires a.Consistent()
    ensures forall h :: h in MintedBy(a, ops) ==> !a.Minted(h)
    ensures forall i, j :: 0 <= i < j < |MintedBy(a, ops)| ==> MintedBy(a, ops)[i] != MintedBy(a, ops)[j]
    decreases |ops|
  {
    if ops != [] {
      StepMints(a, ops[0]);
      NoHandleIsMintedTwice(Step(a, ops[0]), ops[1..]);
    }
  }

  /** A handle that was out and is dead stays dead, whatever happens next: slot reuse never revives it. */
  lemma {:induction false} DeadHandleNeverResolves(a: Arena, ops: seq<Op>, h: EntityId)
    requires a.Consistent() && a.Minted(h) && !a.IsLive(h)
    ensures Run(a, ops).Minted(h)
    ensures Run(a, ops).Check(h) == Err(StaleHandle)
    decreases |ops|
  {
    if ops != [] {
      StepMints(a, ops[0]);
      DeadHandleNeverResolves(Step(a, ops[0]), ops[1..], h);
    } else {
      assert h.tenant == a.tenant;
    }
  }

  /** A burned slot is retired for good: no later run makes any of its handles live again. */
  lemma {:induction false} BurnedSlotStaysRetired(a: Arena, ops: seq<Op>, slot: SlotIndex)
    requires a.Consistent() && slot < |a.slots| && a.slots[slot].Burned?
    ensures slot < |Run(a, ops).slots| && Run(a, ops).slots[slot].Burned?
    decreases |ops|
  {
    if ops != [] {
      StepMints(a, ops[0]);
      var b := Step(a, ops[0]);
      assert slot < |b.slots| && b.slots[slot].Burned?;
      BurnedSlotStaysRetired(b, ops[1..], slot);
    }
  }
}

/** The arena itself: slot states and a free stack, changed in place. */
module ArenaStore {
  import opened Wrappers
  import opened EntityIds
  import opened ArenaModel

  class EntityArena {
    const tenant: TenantTag
    var slots: seq<SlotState>
    var free: seq<SlotIndex>

    ghost function State(): Arena
      reads this
    {
      Arena(tenant, slots, free)
    }

    ghost predicate Valid()
      reads this
    {
      State().Consistent()
    }

    constructor (tenant: TenantTag)
      ensures Valid() && State() == Arena(tenant, [], [])
      ensures forall h :: !State().Minted(h)
    {
      this.tenant := tenant;
      slots, free := [], [];
    }

    method Alloc() returns (r: Result<EntityId, ArenaError>)
      requires Valid()
      modifies this
      ensures Valid() && (State(), r) == old(State()).Alloc()
      ensures r.Ok? ==> !old(State()).Minted(r.value) && forall h :: State().IsLive(h) <==> old(State()).IsLive(h) || h == r.value
      ensures r.Err? ==> State() == old(State()) && |slots| == SLOT_SPACE && forall s: SlotIndex :: s < |slots| ==> !slots[s].Free?
    {
      AllocMintsFresh(State());
      if |free| > 0 {
        var slot := free[|free| - 1];
        free := free[..|free| - 1];
        var handle := Reuse(slot);
        return Ok(handle);
      }
      if |slots| > MAX_SLOT {
        return Err(Exhausted);
      }
      var index: SlotIndex := |slots|;
      slots := slots + [Live(FIRST)];
      return Ok(EntityId(tenant, index, FIRST));
    }

    /** Re-activates a slot popped off the free list; the free list's invariant is what rules out its two dead arms. */
    method Reuse(slot: SlotIndex) returns (handle: EntityId)
      requires slot < |slots| && slots[slot].Free?
      modifies this`slots
      ensures slots == old(slots)[slot := Live(old(slots)[slot].generation)]
      ensures handle == EntityId(tenant, slot, old(slots)[slot].generation)
    {
      var generation := slots[slot].generation;
      slots := slots[slot := Live(generation)];
      handle := EntityId(tenant, slot, generation);
    }

    method Free(id: EntityId) returns (r: Result<SlotIndex, ArenaError>)
      requires Valid()
      modifies this
      ensures Valid() && State() == old(State()).Release(id) && r == old(State()).Check(id)
      ensures forall h :: State().IsLive(h) <==> old(State()).IsLive(h) && h != id
      ensures r.Err? ==> State() == old(State())
    {
      ReleaseForgetsOnlyIts(State(), id);
      if id.tenant != tenant {
        return Err(CrossTenant(tenant, id.tenant));
      }
      if id.slot >= |slots| || !slots[id.slot].Live? || slots[id.slot].generation != id.generation {
        return Err(StaleHandle);
      }
      match Next(slots[id.slot].generation) {
        case Some(next) =>
          slots := slots[id.slot := SlotState.Free(next)];
          free := free + [id.slot];
        case None =>
          slots := slots[id.slot := Burned];
      }
      return Ok(id.slot);
    }

    method Resolve(id: EntityId) returns (r: Result<SlotIndex, ArenaError>)
      ensures r == State().Check(id)
      ensures r.Ok? <==> State().IsLive(id)
      ensures r == Err(StaleHandle) <==> id.tenant == tenant && !State().IsLive(id)
    {
      if id.tenant != tenant {
        return Err(CrossTenant(tenant, id.tenant));
      }
      if id.slot < |slots| && slots[id.slot].Live? && slots[id.slot].generation == id.generation {
        return Ok(id.slot);
      }
      return Err(StaleHandle);
    }
  }
}
