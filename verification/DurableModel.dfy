/** The world in front of its database: what every accepted command does to both, when no query fails. */
module DurableModel {
  import opened Wrappers
  import opened EntityIds
  import opened ArenaModel
  import opened LocationModel
  import opened WorldModel

  type Slug = string

  datatype DbError =
    | Sqlx
    | EntityNotMapped
    | PlaceNotMapped
    | DanglingReference(key: EntityKey)
    | UnknownPlaceKey(slug: Slug)
    | LoadArenaExhausted(entity: EntityKey)

  /** The tables of one tenant. `next` is the AUTOINCREMENT counter, which never goes back. */
  datatype Tables = Tables(
      entities: set<EntityKey>,
      next: nat,
      location: map<EntityKey, Slug>,
      inventory: map<EntityKey, EntityKey>)
  {
    /** The foreign keys, and the counter ahead of every key handed out. */
    ghost predicate Consistent() {
      && location.Keys <= entities
      && (forall i :: i in inventory ==> i in entities && inventory[i] in entities)
      && next > 0
      && (forall k :: k in entities ==> k < next)
    }

    /** Deletes the `entities` row; the schema's cascades take every row that references it. */
    function Delete(key: EntityKey): Tables {
      Tables(entities - {key}, next, location - {key},
             map i | i in inventory && i != key && inventory[i] != key :: inventory[i])
    }

    /** One new `entities` row under the next key. */
    function Insert(): Tables
      requires 0 < next <= MAX_ROWID
    {
      Tables(entities + {next}, next + 1, location, inventory)
    }
  }

  datatype PlaceMap = PlaceMap(slugOf: map<PlaceId, Slug>, idOf: map<Slug, PlaceId>) {
    ghost predicate OneToOne() {
      && (forall p :: p in slugOf ==> slugOf[p] in idOf && idOf[slugOf[p]] == p)
      && (forall s :: s in idOf ==> idOf[s] in slugOf && slugOf[idOf[s]] == s)
    }
  }

  /** The two maps are each other's inverse, and their handles are exactly the live ones. */
  ghost predicate Bijective(arena: Arena, byKey: map<EntityKey, EntityId>, byId: map<EntityId, EntityKey>) {
    && (forall h :: h in byId <==> arena.IsLive(h))
    && (forall k :: k in byKey ==> byKey[k] in byId && byId[byKey[k]] == k)
    && (forall h :: h in byId ==> byId[h] in byKey && byKey[byId[h]] == h)
  }

  datatype Durable = Durable(
      world: WorldState,
      db: Tables,
      byKey: map<EntityKey, EntityId>,
      byId: map<EntityId, EntityKey>,
      places: PlaceMap)
  {
    ghost predicate Mapped() {
      Bijective(world.arena, byKey, byId)
    }

    /** The persisted location of a resident entity is the slug of where it is. */
    ghost predicate RowMatches(h: EntityId)
      requires h in byId
    {
      match world.LocationOf(h)
      case None => byId[h] !in db.location
      case Some(place) =>
        place in places.slugOf && byId[h] in db.location && db.location[byId[h]] == places.slugOf[place]
    }

    ghost predicate Agrees() {
      && world.Inv()
      && db.Consistent()
      && places.OneToOne()
      && Mapped()
      && byKey.Keys <= db.entities
      && (forall h :: h in byId ==> RowMatches(h))
    }

    ghost predicate RowHolds(c: EntityId, i: EntityId)
      requires c in byId && i in byId
    {
      byId[i] in db.inventory && db.inventory[byId[i]] == byId[c]
    }

    /** A resident container holds a resident item in memory exactly when the table says so. */
    ghost predicate Contained() {
      forall c, i :: c in byId && i in byId ==> (i in world.InventoryOf(c) <==> RowHolds(c, i))
    }

    predicate Skips(command: Command)
      requires world.arena.Consistent()
    {
      (command.precondition.Some? && !world.Satisfies(command.precondition.value)) ||
      world.Rejection(command.effect).Some?
    }

    function Persist(effect: Effect): Result<Tables, DbError>
      requires !effect.Create?
    {
      match effect
      case Teardown(h) =>
        if h !in byId then Err(EntityNotMapped) else Ok(db.Delete(byId[h]))
      case MoveTo(h, place) =>
        if h !in byId then Err(EntityNotMapped)
        else if place !in places.slugOf then Err(PlaceNotMapped)
        else Ok(db.(location := db.location[byId[h] := places.slugOf[place]]))
      case ClearLocation(h) =>
        if h !in byId then Err(EntityNotMapped) else Ok(db.(location := db.location - {byId[h]}))
      case InventoryAdd(c, i) =>
        if i !in byId || c !in byId then Err(EntityNotMapped)
        else Ok(db.(inventory := db.inventory[byId[i] := byId[c]]))
      case InventoryRemove(c, i) =>
        if i !in byId || c !in byId then Err(EntityNotMapped)
        else if byId[i] in db.inventory && db.inventory[byId[i]] == byId[c] then
          Ok(db.(inventory := db.inventory - {byId[i]}))
        else Ok(db)
    }

    /** A creation, database first: the key must exist before the handle does. */
    function ApplyCreate(): Result<(Durable, Option<TickEvent>), DbError>
      requires world.Inv()
    {
      if db.next == 0 || db.next > MAX_ROWID then Err(Sqlx)
      else
        match world.Create().1
        case Err(error) => Ok((this, Some(Rejected(Effect.Create, error))))
        case Ok(h) => Ok((Bind(db.Insert(), db.next), Some(Created(h))))
    }

    /** One command, applied to memory and to the tables. */
    function Apply(command: Command): Result<(Durable, Option<TickEvent>), DbError>
      requires world.Inv()
    {
      if command.precondition.Some? && !world.Satisfies(command.precondition.value) then
        Ok((this, Some(PreconditionFailed(command.precondition.value, command.effect))))
      else if command.effect.Create? then ApplyCreate()
      else
        match world.Rejection(command.effect)
        case Some(error) => Ok((this, Some(Rejected(command.effect, error))))
        case None =>
          match Persist(command.effect)
          case Err(e) => Err(e)
          case Ok(_) => Ok((Commit(command.effect), None))
    }

    /** Memory and tables after an accepted effect other than a creation. */
    function Commit(effect: Effect): Durable
      requires world.Inv() && world.Rejection(effect) == None
      requires !effect.Create? && Persist(effect).Ok?
    {
      var next, tables := world.Accept(effect), Persist(effect).value;
      match effect
      case Teardown(h) => Durable(next, tables, byKey - {byId[h]}, byId - {h}, places)
      case _ => Durable(next, tables, byKey, byId, places)
    }

    /** Mints a handle and binds it to `key`, over the given tables. */
    function Bind(tables: Tables, key: EntityKey): Durable
      requires world.Inv() && world.Create().1.Ok?
    {
      var (next, minted) := world.Create();
      Durable(next, tables, byKey[key := minted.value], byId[minted.value := key], places)
    }

    /** Makes the entity of a persisted row resident: a handle, the mapping and its location, but not its containment. */
    function Hydrate(key: EntityKey): Result<(Durable, EntityId), DbError>
      requires world.Inv()
    {
      if key in byKey then Ok((this, byKey[key]))
      else if key !in db.entities then Err(DanglingReference(key))
      else
        var minted := world.Create().1;
        if minted.Err? then Err(LoadArenaExhausted(key))
        else if !Seatable(key) then Err(UnknownPlaceKey(db.location[key]))
        else Ok((Seat(Bind(db, key), minted.value, key), minted.value))
    }

    /** The row of `key`, if it has one, names a loaded room. */
    predicate Seatable(key: EntityKey) {
      key in db.location ==> db.location[key] in places.idOf
    }

    /** `bound` with `h` where the row of `key` says. */
    function Seat(bound: Durable, h: EntityId, key: EntityKey): Durable
      requires Seatable(key)
    {
      if key !in db.location then bound
      else bound.(world := bound.world.Accept(MoveTo(h, places.idOf[db.location[key]])))
    }

    /** The two rows a freshly created puppet gets before it is hydrated. */
    function WithPuppetRows(start: Slug): Durable
      requires 0 < db.next <= MAX_ROWID
    {
      this.(db := db.Insert().(location := db.location[db.next := start]))
    }
  }

  // Errors the agreement leaves open. Everything else `apply` can report is dead code.

  /** Without a failing query, a creation errs only when the keys ran out. */
  lemma CreateErrsOnlyWithoutKeys(d: Durable, command: Command)
    requires d.Agrees() && command.effect.Create?
    ensures d.Apply(command).Err? <==>
            (command.precondition.Some? ==> d.world.Satisfies(command.precondition.value)) && d.db.next > MAX_ROWID
  {
  }

  /** Without a failing query, any other command errs only when it takes effect on a place nobody mapped or removes a dead item. */
  lemma EffectErrsOnlyOnUnmapped(d: Durable, command: Command)
    requires d.Agrees() && !command.effect.Create?
    ensures d.Apply(command).Err? <==>
            && !d.Skips(command)
            && match command.effect
               case MoveTo(_, place) => place !in d.places.slugOf
               case InventoryRemove(_, i) => !d.world.arena.IsLive(i)
               case _ => false
  {
  }

  // Agreement, step by step.

  lemma BindKeepsMapped(d: Durable, tables: Tables, key: EntityKey)
    requires d.world.Inv() && d.Mapped() && d.world.Create().1.Ok? && key !in d.byKey
    ensures var v, h := d.Bind(tables, key), d.world.Create().1.value;
            && v.Mapped() && v.world.Inv() && h !in d.byId
            && v.world.arena.IsLive(h) && v.world.LocationOf(h) == None
            && (forall x :: x in d.byId ==> v.world.LocationOf(x) == d.world.LocationOf(x))
  {
    hide Bijective, Arena.Alloc, Arena.IsLive, WorldState.LocationOf;
    assert d.world.arena.Consistent();
    var w, h := d.world.Create().0, d.world.Create().1.value;
    assert w.arena == d.world.arena.Alloc().0 && d.world.arena.Alloc().1.Ok? && h == d.world.arena.Alloc().1.value;
    hide WorldState.Create;
    AllocMintsFresh(d.world.arena);
    FreshHandleIsBlank(d.world);
    NotMintedNotLive(d.world.arena, h);
    BindBijective(d.world.arena, w.arena, d.byKey, d.byId, h, key);
    LocationsKept(d, w, h);
  }

  lemma NotMintedNotLive(a: Arena, h: EntityId)
    requires !a.Minted(h)
    ensures !a.IsLive(h)
  {
  }

  lemma LocationsKept(d: Durable, w: WorldState, h: EntityId)
    requires h !in d.byId && forall x :: x != h ==> w.LocationOf(x) == d.world.LocationOf(x)
    ensures forall x :: x in d.byId ==> w.LocationOf(x) == d.world.LocationOf(x)
  {
  }

  lemma BindBijective(before: Arena, after: Arena, byKey: map<EntityKey, EntityId>, byId: map<EntityId, EntityKey>, h: EntityId, key: EntityKey)
    requires Bijective(before, byKey, byId) && key !in byKey && !before.IsLive(h)
    requires forall x :: after.IsLive(x) <==> before.IsLive(x) || x == h
    ensures h !in byId && Bijective(after, byKey[key := h], byId[h := key])
  {
    hide Arena.IsLive;
  }

  /** A freshly bound entity without a location row leaves the agreement as it was. */
  lemma BoundNowhere(d: Durable, bound: Durable, h: EntityId, key: EntityKey)
    requires d.Agrees() && key !in d.byKey && h !in d.byId && key !in d.db.location
    requires bound.world.Inv() && bound.Mapped() && bound.world.LocationOf(h) == None
    requires bound.db.Consistent() && key in bound.db.entities
    requires d.db.entities <= bound.db.entities && bound.db.location == d.db.location
    requires bound.places == d.places && bound.byId == d.byId[h := key] && bound.byKey == d.byKey[key := h]
    requires forall x :: x in d.byId ==> bound.world.LocationOf(x) == d.world.LocationOf(x)
    ensures bound.Agrees()
  {
    hide WorldState.LocationOf;
    hide WorldState.Inv;
    forall x | x in bound.byId ensures bound.RowMatches(x) {
      if x != h { assert d.RowMatches(x); }
    }
  }

  lemma CreateKeepsAgreement(d: Durable)
    requires d.Agrees() && d.world.Create().1.Ok? && d.db.next <= MAX_ROWID
    ensures d.Bind(d.db.Insert(), d.db.next).Agrees()
  {
    BindKeepsMapped(d, d.db.Insert(), d.db.next);
    hide WorldState.Create;
    hide WorldState.LocationOf;
    hide WorldState.Inv;
    BoundNowhere(d, d.Bind(d.db.Insert(), d.db.next), d.world.Create().1.value, d.db.next);
  }

  lemma EffectKeepsMapped(d: Durable, effect: Effect)
    requires d.Agrees() && !effect.Create? && d.world.Rejection(effect) == None && d.Persist(effect).Ok?
    ensures d.Commit(effect).world.Inv() && d.Commit(effect).Mapped()
  {
    hide WorldState.Inv, WorldState.Accept, Durable.RowMatches, Tables.Consistent, Arena.IsLive;
    assert effect.Teardown? ==> effect.entity in d.byId;
    AcceptKeepsInv(d.world, effect);
    LiveAfterAccept(d.world, effect);
  }

  lemma EffectKeepsTables(d: Durable, effect: Effect)
    requires d.Mapped() && d.db.Consistent() && d.byKey.Keys <= d.db.entities
    requires !effect.Create? && d.Persist(effect).Ok?
    ensures d.Persist(effect).value.Consistent()
    ensures var gone := if effect.Teardown? then {d.byId[effect.entity]} else {};
            d.Persist(effect).value.entities == d.db.entities - gone
  {
    match effect
    case InventoryAdd(c, i) => assert d.byId[c] in d.byKey && d.byId[i] in d.byKey;
    case MoveTo(h, _) => assert d.byId[h] in d.byKey;
    case _ =>
  }

  /** An effect touches no resident entity's location row but its own. */
  lemma RowAfter(d: Durable, effect: Effect, x: EntityId)
    requires d.Mapped() && !effect.Create? && d.Persist(effect).Ok?
    requires x in d.byId && effect != Teardown(x)
    ensures var before, after := d.db.location, d.Persist(effect).value.location;
            var key := d.byId[x];
            if effect.MoveTo? && effect.entity == x then key in after && after[key] == d.places.slugOf[effect.place]
            else if effect == ClearLocation(x) then key !in after
            else (key in after <==> key in before) && (key in before ==> after[key] == before[key])
  {
    match effect
    case Teardown(h) => assert d.byId[h] != d.byId[x];
    case MoveTo(h, _) => assert h != x ==> d.byId[h] != d.byId[x];
    case ClearLocation(h) => assert h != x ==> d.byId[h] != d.byId[x];
    case _ =>
  }

  lemma EffectKeepsRow(d: Durable, effect: Effect, x: EntityId)
    requires d.Agrees() && !effect.Create? && d.world.Rejection(effect) == None && d.Persist(effect).Ok?
    requires x in d.byId && effect != Teardown(x)
    requires d.Commit(effect).world.arena.IsLive(x)
    ensures d.Commit(effect).RowMatches(x)
  {
    hide WorldState.Inv, WorldState.Rejection, WorldState.Accept, WorldState.LocationOf, Durable.Persist, Durable.Commit, Arena.IsLive;
    CommittedAt(d, effect, x);
    RowAfter(d, effect, x);
    assert d.RowMatches(x);
  }

  lemma CommittedAt(d: Durable, effect: Effect, x: EntityId)
    requires d.Agrees() && !effect.Create? && d.world.Rejection(effect) == None && d.Persist(effect).Ok?
    requires x in d.byId && effect != Teardown(x)
    requires d.Commit(effect).world.arena.IsLive(x)
    ensures var v := d.Commit(effect);
            && x in v.byId && v.byId[x] == d.byId[x] && v.places == d.places && v.db == d.Persist(effect).value
            && (effect.MoveTo? ==> effect.place in d.places.slugOf)
            && v.world.LocationOf(x) == (if effect.MoveTo? && effect.entity == x then Some(effect.place)
                                         else if effect == ClearLocation(x) then None else d.world.LocationOf(x))
  {
    hide Tables.Consistent, PlaceMap.OneToOne, Durable.RowMatches, Arena.Consistent;
    assert d.world.arena.IsLive(x);
    LocationAfter(d.world, effect, x);
    assert d.Commit(effect).world == d.world.Accept(effect);
  }

  lemma EffectKeepsAgreement(d: Durable, effect: Effect)
    requires d.Agrees() && !effect.Create? && d.world.Rejection(effect) == None && d.Persist(effect).Ok?
    ensures d.Commit(effect).Agrees()
  {
    var v := d.Commit(effect);
    EffectKeepsMapped(d, effect);
    EffectKeepsTables(d, effect);
    forall x | x in v.byId ensures v.RowMatches(x) {
      EffectKeepsRow(d, effect, x);
    }
  }

  lemma AppliedShape(d: Durable, command: Command)
    requires d.Agrees() && d.Apply(command).Ok?
    ensures d.world.arena.Consistent() && d.world.Inv() && d.Mapped() && d.db.Consistent() && d.byKey.Keys <= d.db.entities
    ensures var v, effect := d.Apply(command).value.0, command.effect;
            if d.Skips(command) then v == d
            else if effect.Create? then
              && d.world.Create().1.Ok? && d.db.next <= MAX_ROWID && v == d.Bind(d.db.Insert(), d.db.next)
              && (d.byKey.Keys == d.db.entities ==> v.byKey.Keys == v.db.entities)
            else
              && d.world.Rejection(effect) == None && d.Persist(effect).Ok? && v == d.Commit(effect)
              && (d.byKey.Keys == d.db.entities ==> v.byKey.Keys == v.db.entities)
  {
    var effect := command.effect;
    if !d.Skips(command) && !effect.Create? { EffectKeepsTables(d, effect); }
  }

  /** Every command that does not err keeps memory and tables in agreement, and every row resident if it was. */
  lemma ApplyKeepsAgreement(d: Durable, command: Command)
    requires d.Agrees() && d.Apply(command).Ok?
    ensures d.Apply(command).value.0.Agrees()
    ensures d.byKey.Keys == d.db.entities ==> d.Apply(command).value.0.byKey.Keys == d.Apply(command).value.0.db.entities
  {
    AppliedShape(d, command);
    hide *;
    if !d.Skips(command) {
      if command.effect.Create? {
        CreateKeepsAgreement(d);
      } else {
        EffectKeepsAgreement(d, command.effect);
      }
    }
  }
}
