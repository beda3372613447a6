/** The world aggregate: one arena and three slot-keyed tables, kept in step with the handle-keyed model. */
module WorldStore {
  import opened Wrappers
  import opened EntityIds
  import opened ArenaModel
  import opened ArenaStore
  import opened LocationModel
  import opened LocationStore
  import opened SlotTables
  import opened WorldModel

  class World {
    const arena: EntityArena
    const locations: LocationOf
    const inventory: Inventory
    const naming: Naming
    ghost var model: WorldState

    ghost const Repr: set<object>

    ghost predicate Valid()
      reads this, arena, locations, inventory, naming
      ensures Valid() ==> model.Inv()
    {
      && Repr == {this, arena, locations, inventory, naming}
      && model.Inv()
      && model.arena == arena.State()
      && locations.Valid() && locations.log == model.at
      && TablesClean()
    }

    /** The slot tables say about a slot what the model says about the handle living there, and nothing when none does. */
    ghost predicate TablesClean()
      reads this, inventory, naming
    {
      && (forall s: SlotIndex :: inventory.Contents(s) == model.HeldAt(s))
      && (forall s: SlotIndex :: naming.Keywords(s) == model.NamesAt(s))
    }

    constructor (tenant: TenantTag)
      ensures Valid() && fresh(Repr) && model == Empty(tenant)
    {
      var a := new EntityArena(tenant);
      var l := new LocationOf();
      var i := new Inventory();
      var n := new Naming();
      arena, locations, inventory, naming := a, l, i, n;
      Repr := {this, a, l, i, n};
      model := Empty(tenant);
    }

    method Create() returns (r: Result<EntityId, ArenaError>)
      requires Valid()
      modifies Repr
      ensures Valid() && (model, r) == old(model).Create()
    {
      AllocMintsFresh(model.arena);
      if model.Rejection(Effect.Create) == None { AcceptKeepsInv(model, Effect.Create); }
      CreateAtSlots(model);
      r := arena.Alloc();
      model := model.Create().0;
    }

    method Teardown(entity: EntityId) returns (error: Option<ArenaError>)
      requires Valid()
      modifies Repr
      ensures Valid() && error == old(model).Refusal(entity)
      ensures model == if error == None then old(model).Accept(Effect.Teardown(entity)) else old(model)
    {
      var freed := arena.Free(entity);
      if freed.Err? {
        return Some(freed.error);
      }
      AcceptKeepsInv(model, Effect.Teardown(entity));
      TeardownAtSlots(model, entity);
      OnlyAtItsSlot(entity);
      locations.Remove(entity);
      inventory.Clear(entity);
      naming.Clear(entity);
      model := model.Accept(Effect.Teardown(entity));
      error := None;
    }

    method MoveTo(entity: EntityId, place: PlaceId) returns (error: Option<ArenaError>)
      requires Valid()
      modifies Repr
      ensures Valid() && error == old(model).Refusal(entity)
      ensures model == if error == None then old(model).Accept(Effect.MoveTo(entity, place)) else old(model)
    {
      var resolved := arena.Resolve(entity);
      if resolved.Err? {
        return Some(resolved.error);
      }
      AcceptKeepsInv(model, Effect.MoveTo(entity, place));
      OnlyAtItsSlot(entity);
      locations.Place(entity, place);
      model := model.Accept(Effect.MoveTo(entity, place));
      error := None;
    }

    method ClearLocation(entity: EntityId) returns (error: Option<ArenaError>)
      requires Valid()
      modifies Repr
      ensures Valid() && error == old(model).Refusal(entity)
      ensures model == if error == None then old(model).Accept(Effect.ClearLocation(entity)) else old(model)
    {
      var resolved := arena.Resolve(entity);
      if resolved.Err? {
        return Some(resolved.error);
      }
      AcceptKeepsInv(model, Effect.ClearLocation(entity));
      OnlyAtItsSlot(entity);
      locations.Remove(entity);
      model := model.Accept(Effect.ClearLocation(entity));
      error := None;
    }

    method NameEntity(entity: EntityId, keywords: seq<Keyword>) returns (error: Option<ArenaError>)
      requires Valid()
      modifies Repr
      ensures Valid() && error == old(model).Refusal(entity)
      ensures model == old(model).Name(entity, keywords)
    {
      var resolved := arena.Resolve(entity);
      if resolved.Err? {
        return Some(resolved.error);
      }
      naming.Set(entity, keywords);
      NameKeepsInv(model, entity, keywords);
      model := model.Name(entity, keywords);
      error := None;
    }

    method InventoryAdd(container: EntityId, item: EntityId) returns (error: Option<ArenaError>)
      requires Valid()
      modifies Repr
      ensures Valid() && error == old(model).Rejection(Effect.InventoryAdd(container, item))
      ensures model == if error == None then old(model).Accept(Effect.InventoryAdd(container, item)) else old(model)
    {
      var resolved := arena.Resolve(container);
      if resolved.Err? {
        return Some(resolved.error);
      }
      resolved := arena.Resolve(item);
      if resolved.Err? {
        return Some(resolved.error);
      }
      AcceptKeepsInv(model, Effect.InventoryAdd(container, item));
      ghost var effect := Effect.InventoryAdd(container, item);
      HoldAtSlots(model, container, model.Accept(effect).held[container]);
      assert model.Resident(container.slot) == Some(container);
      inventory.Insert(container, item);
      model := model.Accept(Effect.InventoryAdd(container, item));
      error := None;
    }

    method InventoryRemove(container: EntityId, item: EntityId) returns (error: Option<ArenaError>)
      requires Valid()
      modifies Repr
      ensures Valid() && error == old(model).Rejection(Effect.InventoryRemove(container, item))
      ensures model == if error == None then old(model).Accept(Effect.InventoryRemove(container, item)) else old(model)
    {
      var resolved := arena.Resolve(container);
      if resolved.Err? {
        return Some(resolved.error);
      }
      AcceptKeepsInv(model, Effect.InventoryRemove(container, item));
      inventory.Remove(container, item);
      model := model.Accept(Effect.InventoryRemove(container, item));
      error := None;
    }

    /** A live handle is alone at its slot in the log, so the slot-keyed table acts on it and nobody else. */
    lemma OnlyAtItsSlot(h: EntityId)
      requires model.Inv() && model.arena.IsLive(h)
      ensures Depart(model.at, h) == Leave(model.at, h.slot)
      ensures Find(model.at, h) == PlaceOf(model.at, h.slot)
    {
      forall i | 0 <= i < |model.at| && model.at[i].0.slot == h.slot ensures model.at[i].0 == h {
        assert model.at[i] in model.at;
      }
      SlotIsHandle(model.at, h);
    }

    method ApplyEffect(effect: Effect) returns (event: Option<TickEvent>)
      requires Valid()
      modifies Repr
      ensures Valid() && (model, event) == old(model).Apply(effect)
    {
      var error;
      match effect {
        case Create =>
          var minted := Create();
          return Some(match minted case Ok(entity) => Created(entity) case Err(e) => Rejected(effect, e));
        case Teardown(entity) => error := Teardown(entity);
        case MoveTo(entity, place) => error := MoveTo(entity, place);
        case ClearLocation(entity) => error := ClearLocation(entity);
        case InventoryAdd(container, item) => error := InventoryAdd(container, item);
        case InventoryRemove(container, item) => error := InventoryRemove(container, item);
      }
      event := if error.Some? then Some(Rejected(effect, error.value)) else None;
    }

    method Satisfies(p: Precondition) returns (holds: bool)
      requires Valid()
      ensures holds == model.Satisfies(p)
      ensures p.LocatedIn? ==> (holds <==> p.entity in model.OccupantsOf(p.place))
    {
      if p.LocatedIn? { WorldModel.OccupantsAreTheLocated(model, p.place); }
      match p {
        case LocatedIn(entity, place) => holds := IsLocatedIn(entity, place);
        case Contains(container, item) => holds := Contains(container, item);
      }
    }

    method IsLocatedIn(entity: EntityId, place: PlaceId) returns (holds: bool)
      requires Valid()
      ensures holds <==> model.LocationOf(entity) == Some(place)
    {
      var at := LocationOf(entity);
      holds := at == Some(place);
    }

    method Contains(container: EntityId, item: EntityId) returns (holds: bool)
      requires Valid()
      ensures holds <==> item in model.InventoryOf(container)
    {
      var items := InventoryOf(container);
      holds := item in items;
    }

    method LocationOf(entity: EntityId) returns (at: Option<PlaceId>)
      requires Valid()
      ensures at == model.LocationOf(entity)
    {
      var resolved := arena.Resolve(entity);
      if resolved.Err? {
        return None;
      }
      OnlyAtItsSlot(entity);
      at := locations.Location(entity);
    }

    method OccupantsOf(place: PlaceId) returns (list: seq<EntityId>)
      requires Valid()
      ensures list == model.OccupantsOf(place)
      ensures forall h :: h in list <==> model.LocationOf(h) == Some(place)
    {
      OccupantsAreTheLocated(model, place);
      list := locations.Occupants(place);
    }

    method InventoryOf(container: EntityId) returns (items: seq<EntityId>)
      requires Valid()
      ensures items == model.InventoryOf(container)
    {
      var resolved := arena.Resolve(container);
      items := if resolved.Ok? then inventory.Contents(container.slot) else [];
    }

    method KeywordsOf(entity: EntityId) returns (keywords: seq<Keyword>)
      requires Valid()
      ensures keywords == model.KeywordsOf(entity)
    {
      var resolved := arena.Resolve(entity);
      keywords := if resolved.Ok? then naming.Keywords(entity.slot) else [];
    }
  }

  const MAX_TICK := 0xFFFF_FFFF_FFFF_FFFF

  class Scheduler {
    var queue: seq<Command>
    var tick: nat

    constructor ()
      ensures queue == [] && tick == 0
    {
      queue, tick := [], 0;
    }

    method Submit(command: Command)
      modifies this`queue
      ensures queue == old(queue) + [command]
    {
      queue := queue + [command];
    }

    method Drain() returns (commands: seq<Command>)
      modifies this
      ensures commands == old(queue) && queue == []
      ensures tick == if old(tick) >= MAX_TICK then old(tick) else old(tick) + 1
    {
      tick := if tick >= MAX_TICK then tick else tick + 1;
      commands := queue;
      queue := [];
    }

    method Tick(world: World) returns (events: seq<TickEvent>)
      requires world.Valid() && this !in world.Repr
      modifies this, world.Repr
      ensures world.Valid() && (world.model, events) == WorldModel.Drain(old(world.model), old(queue))
      ensures queue == []
      ensures tick == if old(tick) >= MAX_TICK then old(tick) else old(tick) + 1
    {
      hide WorldModel.Drain, WorldState.Perform, WorldState.Inv;
      events := [];
      var commands := Drain();
      DrainsNothing(world.model, commands);
      for n := 0 to |commands|
        modifies world.Repr
        invariant world.Valid()
        invariant (world.model, events) == WorldModel.Drain(old(world.model), commands[..n])
      {
        DrainAppend(old(world.model), commands[..n], commands[n]);
        assert commands[..n + 1] == commands[..n] + [commands[n]];
        var event := Perform(world, commands[n]);
        ghost var before := events;
        if event.Some? {
          events := events + [event.value];
        }
        assert events == before + Optional(event);
      }
      assert commands[..|commands|] == commands;
    }

    lemma DrainsNothing(w: WorldState, commands: seq<Command>)
      requires w.Inv()
      ensures WorldModel.Drain(w, commands[..0]) == (w, [])
    {
    }

    method Perform(world: World, command: Command) returns (event: Option<TickEvent>)
      requires world.Valid()
      modifies world.Repr
      ensures world.Valid() && (world.model, event) == old(world.model).Perform(command)
    {
      if command.precondition.Some? {
        var holds := world.Satisfies(command.precondition.value);
        if !holds {
          return Some(PreconditionFailed(command.precondition.value, command.effect));
        }
      }
      event := world.ApplyEffect(command.effect);
    }
  }
}
