/** The tenant database as the write-through layer sees it: every query may fail, and a failed one changes nothing. */
module TenantDatabase {
  import opened Wrappers
  import opened EntityIds
  import opened DurableModel
  import Ascending

  class Database {
    var tables: Tables

    constructor ()
      ensures tables == Tables({}, 1, map[], map[]) && tables.Consistent()
    {
      tables := Tables({}, 1, map[], map[]);
    }

    method Query() returns (ok: bool) {
      ok := *;
    }

    /** Inserts an `entities` row inside an open transaction; the key is durable only once committed. */
    method InsertEntity() returns (key: Option<EntityKey>)
      ensures key.Some? ==> 0 < tables.next <= MAX_ROWID && key.value == tables.next
    {
      var ok := Query();
      key := if ok && 0 < tables.next <= MAX_ROWID then Some(tables.next) else None;
    }

    method CommitEntity() returns (ok: bool)
      requires 0 < tables.next <= MAX_ROWID
      modifies this
      ensures tables == if ok then old(tables).Insert() else old(tables)
    {
      ok := Query();
      if ok {
        tables := tables.Insert();
      }
    }

    /** A puppet's `entities` and `location` rows, in one transaction. */
    method InsertPuppet(start: Slug) returns (key: Option<EntityKey>)
      modifies this
      ensures key.None? ==> tables == old(tables)
      ensures key.Some? ==> 0 < old(tables).next <= MAX_ROWID && key.value == old(tables).next
      ensures key.Some? ==> tables == old(tables).Insert().(location := old(tables).location[key.value := start])
    {
      var ok := Query();
      if !ok || tables.next == 0 || tables.next > MAX_ROWID {
        return None;
      }
      key := Some(tables.next);
      tables := tables.Insert().(location := tables.location[tables.next := start]);
    }

    method UpsertLocation(entity: EntityKey, place: Slug) returns (ok: bool)
      modifies this
      ensures tables == if ok then old(tables).(location := old(tables).location[entity := place]) else old(tables)
    {
      ok := Query();
      if ok {
        tables := tables.(location := tables.location[entity := place]);
      }
    }

    method DeleteLocation(entity: EntityKey) returns (ok: bool)
      modifies this
      ensures tables == if ok then old(tables).(location := old(tables).location - {entity}) else old(tables)
    {
      ok := Query();
      if ok {
        tables := tables.(location := tables.location - {entity});
      }
    }

    method UpsertInventory(item: EntityKey, container: EntityKey) returns (ok: bool)
      modifies this
      ensures tables == if ok then old(tables).(inventory := old(tables).inventory[item := container]) else old(tables)
    {
      ok := Query();
      if ok {
        tables := tables.(inventory := tables.inventory[item := container]);
      }
    }

    method DeleteInventory(item: EntityKey, container: EntityKey) returns (ok: bool)
      modifies this
      ensures tables == if ok && item in old(tables).inventory && old(tables).inventory[item] == container
                        then old(tables).(inventory := old(tables).inventory - {item}) else old(tables)
    {
      ok := Query();
      if ok && item in tables.inventory && tables.inventory[item] == container {
        tables := tables.(inventory := tables.inventory - {item});
      }
    }

    method DeleteEntity(entity: EntityKey) returns (ok: bool)
      modifies this
      ensures tables == if ok then old(tables).Delete(entity) else old(tables)
    {
      ok := Query();
      if ok {
        tables := tables.Delete(entity);
      }
    }

    method HasEntity(entity: EntityKey) returns (found: Option<bool>)
      ensures found.Some? ==> found.value == (entity in tables.entities)
    {
      var ok := Query();
      found := if ok then Some(entity in tables.entities) else None;
    }

    method LocationRow(entity: EntityKey) returns (row: Option<Option<Slug>>)
      ensures row.Some? ==> row.value == if entity in tables.location then Some(tables.location[entity]) else None
    {
      var ok := Query();
      row := if !ok then None else if entity in tables.location then Some(Some(tables.location[entity])) else Some(None);
    }

    /** Every key, in increasing order. */
    method FetchKeys() returns (rows: Option<seq<EntityKey>>)
      ensures rows.Some? ==> (forall k :: k in rows.value <==> k in tables.entities) && |rows.value| == |tables.entities|
      ensures rows.Some? ==> forall i, j :: 0 <= i < j < |rows.value| ==> rows.value[i] < rows.value[j]
    {
      var ok := Query();
      if !ok {
        return None;
      }
      var listing := Ascending.Listing(tables.entities);
      var list: seq<EntityKey> := [];
      for n := 0 to |listing|
        invariant |list| == n && forall i :: 0 <= i < n ==> list[i] == listing[i]
      {
        assert listing[n] in tables.entities;
        list := list + [listing[n]];
      }
      rows := Some(list);
    }

    /** Every location row, once, in whatever order the engine returns them. */
    method FetchLocations() returns (rows: Option<seq<(EntityKey, Slug)>>)
      ensures rows.Some? ==> Rows(tables.location, rows.value)
    {
      var ok := Query();
      if !ok {
        return None;
      }
      var list := Scan(tables.location);
      rows := Some(list);
    }

    method FetchInventory() returns (rows: Option<seq<(EntityKey, EntityKey)>>)
      ensures rows.Some? ==> Rows(tables.inventory, rows.value)
    {
      var ok := Query();
      if !ok {
        return None;
      }
      var list := Scan(tables.inventory);
      rows := Some(list);
    }
  }

  /** `rows` lists each entry of `table` exactly once. */
  ghost predicate Rows<V>(table: map<EntityKey, V>, rows: seq<(EntityKey, V)>) {
    && (forall r :: r in rows ==> r.0 in table && table[r.0] == r.1)
    && (forall k :: k in table ==> (k, table[k]) in rows)
    && (forall i, j :: 0 <= i < j < |rows| ==> rows[i].0 != rows[j].0)
  }

  method Scan<V>(table: map<EntityKey, V>) returns (rows: seq<(EntityKey, V)>)
    ensures Rows(table, rows)
  {
    rows := [];
    var left := table.Keys;
    while left != {}
      invariant left <= table.Keys
      invariant forall r :: r in rows ==> r.0 in table && table[r.0] == r.1 && r.0 !in left
      invariant forall k :: k in table && k !in left ==> (k, table[k]) in rows
      invariant forall i, j :: 0 <= i < j < |rows| ==> rows[i].0 != rows[j].0
      decreases |left|
    {
      var k :| k in left;
      assert forall i :: 0 <= i < |rows| ==> rows[i] in rows;
      rows := rows + [(k, table[k])];
      left := left - {k};
    }
  }
}

/** The write-through cache itself. */
module PersistentStore {
  import opened Wrappers
  import opened EntityIds
  import opened ArenaModel
  import opened LocationModel
  import opened SlotTables
  import opened WorldModel
  import opened WorldStore
  import opened DurableModel
  import opened DurableRuns
  import opened TenantDatabase
  import Ascending

  /** The two maps beside a world, tables left out of the picture. */
  ghost function Bare(w: WorldState, byKey: map<EntityKey, EntityId>, byId: map<EntityId, EntityKey>): Durable {
    Durable(w, Tables({}, 1, map[], map[]), byKey, byId, PlaceMap(map[], map[]))
  }

  /** `n` keys have handles in a world where nothing else has happened yet. */
  ghost predicate Minting(w: WorldState, byKey: map<EntityKey, EntityId>, byId: map<EntityId, EntityKey>, n: nat) {
    && w.Inv() && Bijective(w.arena, byKey, byId)
    && w.at == [] && (forall c :: c in w.held ==> w.held[c] == [])
    && w.arena.free == [] && |w.arena.slots| == n
  }

  lemma MintStep(w: WorldState, byKey: map<EntityKey, EntityId>, byId: map<EntityId, EntityKey>, n: nat, key: EntityKey)
    requires Minting(w, byKey, byId, n) && key !in byKey
    ensures var (next, minted) := w.Create();
            if minted.Ok? then Minting(next, byKey[key := minted.value], byId[minted.value := key], n + 1)
            else n == SLOT_SPACE
  {
    MintsAtTheEnd(w, n);
    hide WorldState.Inv, Arena.Alloc, Arena.IsLive, WorldState.LocationOf;
    if w.Create().1.Ok? {
      var (next, minted) := w.Create();
      var before := Bare(w, byKey, byId);
      BindKeepsMapped(before, before.db, key);
      assert Bare(next, byKey[key := minted.value], byId[minted.value := key]) == before.Bind(before.db, key);
    }
  }

  lemma MintsAtTheEnd(w: WorldState, n: nat)
    requires w.Inv() && w.arena.free == [] && |w.arena.slots| == n && (forall c :: c in w.held ==> w.held[c] == [])
    ensures w.arena.Consistent()
    ensures var (next, minted) := w.Create();
            if minted.Ok? then
              && next.at == w.at && next.arena.free == [] && |next.arena.slots| == n + 1
              && (forall c :: c in next.held ==> next.held[c] == [])
            else n == SLOT_SPACE
  {
  }

  lemma MintedIsBlank(w: WorldState, byKey: map<EntityKey, EntityId>, byId: map<EntityId, EntityKey>, n: nat, places: PlaceMap)
    requires Minting(w, byKey, byId, n)
    ensures Bijective(w.arena, byKey, byId) && Seated(w, byId, [], places) && Filled(w, byId, [])
  {
  }

  /** Seating changes nothing containment depends on. */
  lemma SeatingLeavesContents(w: WorldState, v: WorldState, byId: map<EntityId, EntityKey>)
    requires v.Inv() && v.arena == w.arena && v.held == w.held
    requires Filled(w, byId, [])
    ensures Filled(v, byId, [])
  {
    hide WorldState.Inv, Arena.IsLive, HoldsByRows;
    assert forall c :: v.InventoryOf(c) == w.InventoryOf(c);
    SameHoldings(w, v, byId, []);
  }

  lemma SameHoldings(w: WorldState, v: WorldState, byId: map<EntityId, EntityKey>, rows: seq<(EntityKey, EntityKey)>)
    requires HoldsByRows(w, byId, rows) && forall c :: v.InventoryOf(c) == w.InventoryOf(c)
    ensures HoldsByRows(v, byId, rows)
  {
    forall c, i ensures i in v.InventoryOf(c) <==> c in byId && i in byId && (byId[i], byId[c]) in rows {
      assert v.InventoryOf(c) == w.InventoryOf(c);
      HeldByRow(w, byId, rows, c, i);
    }
  }

  lemma HeldByRow(w: WorldState, byId: map<EntityId, EntityKey>, rows: seq<(EntityKey, EntityKey)>, c: EntityId, i: EntityId)
    requires HoldsByRows(w, byId, rows)
    ensures i in w.InventoryOf(c) <==> c in byId && i in byId && (byId[i], byId[c]) in rows
  {
  }

  /** Filling changes nothing location depends on. */
  lemma FillingLeavesLocations(w: WorldState, v: WorldState, byId: map<EntityId, EntityKey>,
                               rows: seq<(EntityKey, Slug)>, places: PlaceMap)
    requires v.Inv() && v.arena == w.arena && v.at == w.at
    requires Seated(w, byId, rows, places)
    ensures Seated(v, byId, rows, places)
  {
    assert forall h :: v.LocationOf(h) == w.LocationOf(h);
    hide WorldState.Inv;
    hide WorldState.LocationOf;
    hide SeatedAt;
  }

  /** Mints one handle per key. */
  method MintAll(world: World, keys: seq<EntityKey>)
      returns (r: Result<(map<EntityKey, EntityId>, map<EntityId, EntityKey>), DbError>)
    requires world.Valid() && Minting(world.model, map[], map[], 0)
    requires forall i, j :: 0 <= i < j < |keys| ==> keys[i] != keys[j]
    modifies world.Repr
    ensures world.Valid()
    ensures r.Ok? ==> && Minting(world.model, r.value.0, r.value.1, |keys|)
                      && forall k :: k in r.value.0 <==> k in keys
    ensures r.Err? ==> r.error.LoadArenaExhausted? && |keys| > SLOT_SPACE
  {
    hide *;
    var byKey: map<EntityKey, EntityId>, byId: map<EntityId, EntityKey> := map[], map[];
    for n := 0 to |keys|
      invariant world.Valid() && Minting(world.model, byKey, byId, n)
      invariant forall k :: k in byKey <==> k in keys[..n]
    {
      assert keys[n] !in byKey;
      MintStep(world.model, byKey, byId, n, keys[n]);
      var minted := world.Create();
      if minted.Err? {
        return Err(LoadArenaExhausted(keys[n]));
      }
      byKey := byKey[keys[n] := minted.value];
      byId := byId[minted.value := keys[n]];
      assert keys[..n + 1] == keys[..n] + [keys[n]];
    }
    assert keys[..|keys|] == keys;
    r := Ok((byKey, byId));
  }

  /** Every bound entity is where the rows seen so far say it is. */
  ghost predicate Seated(w: WorldState, byId: map<EntityId, EntityKey>, rows: seq<(EntityKey, Slug)>, places: PlaceMap) {
    && w.Inv() && (forall h :: h in byId <==> w.arena.IsLive(h))
    && forall h :: h in byId ==> SeatedAt(w.LocationOf(h), byId[h], rows, places)
  }

  ghost predicate SeatedAt(at: Option<PlaceId>, key: EntityKey, rows: seq<(EntityKey, Slug)>, places: PlaceMap) {
    match at
    case None => forall r :: r in rows ==> r.0 != key
    case Some(place) => place in places.slugOf && (key, places.slugOf[place]) in rows
  }

  lemma SeatStep(w: WorldState, byKey: map<EntityKey, EntityId>, byId: map<EntityId, EntityKey>,
                 rows: seq<(EntityKey, Slug)>, row: (EntityKey, Slug), places: PlaceMap)
    requires Seated(w, byId, rows, places) && Bijective(w.arena, byKey, byId) && places.OneToOne()
    requires row.0 in byKey && row.1 in places.idOf && forall r :: r in rows ==> r.0 != row.0
    ensures var effect := MoveTo(byKey[row.0], places.idOf[row.1]);
            w.Refusal(effect.entity) == None && Seated(w.Accept(effect), byId, rows + [row], places)
            && w.Accept(effect).arena == w.arena && w.Accept(effect).held == w.held
  {
    LocationsAfterMove(w, byKey[row.0], places.idOf[row.1]);
    SeatEach(w, w.Accept(MoveTo(byKey[row.0], places.idOf[row.1])), byId, rows, row, byKey[row.0], places);
  }

  lemma SeatEach(w: WorldState, v: WorldState, byId: map<EntityId, EntityKey>, rows: seq<(EntityKey, Slug)>,
                 row: (EntityKey, Slug), seated: EntityId, places: PlaceMap)
    requires Seated(w, byId, rows, places) && places.OneToOne() && row.1 in places.idOf
    requires seated in byId && byId[seated] == row.0 && forall x :: x in byId && byId[x] == row.0 ==> x == seated
    requires v.Inv() && v.arena == w.arena
    requires forall h :: w.arena.IsLive(h) ==> v.LocationOf(h) == if h == seated then Some(places.idOf[row.1]) else w.LocationOf(h)
    requires forall r :: r in rows ==> r.0 != row.0
    ensures Seated(v, byId, rows + [row], places)
  {
    hide WorldState.Inv, WorldState.LocationOf, Arena.IsLive;
    forall h | h in byId ensures SeatedAt(v.LocationOf(h), byId[h], rows + [row], places) {
      assert SeatedAt(w.LocationOf(h), byId[h], rows, places);
    }
  }

  /** Replays the location rows; stops at the first slug no loaded room has. */
  method SeatAll(world: World, rows: seq<(EntityKey, Slug)>, byKey: map<EntityKey, EntityId>,
                 ghost byId: map<EntityId, EntityKey>, places: PlaceMap)
      returns (unknown: Option<Slug>)
    requires world.Valid() && places.OneToOne() && Bijective(world.model.arena, byKey, byId)
    requires Seated(world.model, byId, [], places)
    requires forall r :: r in rows ==> r.0 in byKey
    requires forall i, j :: 0 <= i < j < |rows| ==> rows[i].0 != rows[j].0
    modifies world.Repr
    ensures world.Valid()
    ensures unknown.Some? ==> unknown.value !in places.idOf && exists r :: r in rows && r.1 == unknown.value
    ensures world.model.arena == old(world.model.arena) && world.model.held == old(world.model.held)
    ensures unknown.None? ==> Seated(world.model, byId, rows, places)
  {
    hide *;
    for n := 0 to |rows|
      invariant world.Valid()
      invariant world.model.arena == old(world.model.arena) && world.model.held == old(world.model.held)
      invariant Seated(world.model, byId, rows[..n], places)
    {
      assert rows[n] in rows;
      var (key, slug) := rows[n];
      if slug !in places.idOf {
        return Some(slug);
      }
      SeatStep(world.model, byKey, byId, rows[..n], rows[n], places);
      var refused := world.MoveTo(byKey[key], places.idOf[slug]);
      assert rows[..n + 1] == rows[..n] + [rows[n]];
    }
    assert rows[..|rows|] == rows;
    unknown := None;
  }

  /** Containers hold exactly what the rows seen so far say, and nothing but bound entities. */
  ghost predicate Filled(w: WorldState, byId: map<EntityId, EntityKey>, rows: seq<(EntityKey, EntityKey)>) {
    && w.Inv() && (forall h :: h in byId <==> w.arena.IsLive(h))
    && HoldsByRows(w, byId, rows)
  }

  ghost predicate HoldsByRows(w: WorldState, byId: map<EntityId, EntityKey>, rows: seq<(EntityKey, EntityKey)>) {
    forall c, i :: i in w.InventoryOf(c) <==> c in byId && i in byId && (byId[i], byId[c]) in rows
  }

  lemma FillStep(w: WorldState, byKey: map<EntityKey, EntityId>, byId: map<EntityId, EntityKey>,
                 rows: seq<(EntityKey, EntityKey)>, row: (EntityKey, EntityKey))
    requires Filled(w, byId, rows) && Bijective(w.arena, byKey, byId)
    requires row.0 in byKey && row.1 in byKey && forall r :: r in rows ==> r.0 != row.0
    ensures var effect := InventoryAdd(byKey[row.1], byKey[row.0]);
            w.Rejection(effect) == None && Filled(w.Accept(effect), byId, rows + [row])
            && w.Accept(effect).arena == w.arena && w.Accept(effect).at == w.at
  {
    hide HoldsByRows, WorldState.InventoryOf, Arena.IsLive, HoldsSlot;
    var container, item := byKey[row.1], byKey[row.0];
    var effect := InventoryAdd(container, item);
    SlotIsFree(w, byId, rows, container, item);
    BothAccepted(w, container, item);
    AcceptKeepsInv(w, effect);
    LiveAfterAccept(w, effect);
    hide WorldState.Inv, WorldState.Accept;
    forall c, i ensures i in w.Accept(effect).InventoryOf(c) <==> i in w.InventoryOf(c) || (c, i) == (container, item) {
      HeldAfterAdd(w, container, item, c, i);
    }
    FillPairs(w, w.Accept(effect), byId, rows, row, container, item);
  }

  lemma BothAccepted(w: WorldState, container: EntityId, item: EntityId)
    requires w.Inv() && w.arena.IsLive(container) && w.arena.IsLive(item)
    ensures w.Rejection(InventoryAdd(container, item)) == None
    ensures container in w.held
    ensures w.Accept(InventoryAdd(container, item)).arena == w.arena && w.Accept(InventoryAdd(container, item)).at == w.at
  {
  }

  lemma FillPairs(w: WorldState, v: WorldState, byId: map<EntityId, EntityKey>, rows: seq<(EntityKey, EntityKey)>,
                  row: (EntityKey, EntityKey), container: EntityId, item: EntityId)
    requires HoldsByRows(w, byId, rows)
    requires forall x, y :: x in byId && y in byId && byId[x] == byId[y] ==> x == y
    requires container in byId && item in byId && row == (byId[item], byId[container])
    requires forall c, i :: i in v.InventoryOf(c) <==> i in w.InventoryOf(c) || (c, i) == (container, item)
    ensures HoldsByRows(v, byId, rows + [row])
  {
    forall c, i ensures i in v.InventoryOf(c) <==> c in byId && i in byId && (byId[i], byId[c]) in rows + [row] {
      assert c in byId && i in byId ==> ((byId[i], byId[c]) == row <==> (c, i) == (container, item));
    }
  }

  /** While loading, a container holds nothing at the slot of an item whose row is still to come. */
  lemma SlotIsFree(w: WorldState, byId: map<EntityId, EntityKey>, rows: seq<(EntityKey, EntityKey)>, container: EntityId, item: EntityId)
    requires Filled(w, byId, rows) && container in byId && item in byId
    requires forall r :: r in rows ==> r.0 != byId[item]
    ensures !HoldsSlot(w.InventoryOf(container), item.slot)
  {
    hide WorldState.Inv, WorldState.InventoryOf, Arena.IsLive;
    var list := w.InventoryOf(container);
    if k :| 0 <= k < |list| && list[k].slot == item.slot {
      assert list[k] in list;
      OneLivePerSlot(w.arena, list[k], item);
    }
  }

  lemma OneLivePerSlot(arena: Arena, a: EntityId, b: EntityId)
    requires arena.IsLive(a) && arena.IsLive(b) && a.slot == b.slot
    ensures a == b
  {
  }

  /** Replays the containment rows. */
  method FillAll(world: World, rows: seq<(EntityKey, EntityKey)>, byKey: map<EntityKey, EntityId>, ghost byId: map<EntityId, EntityKey>)
    requires world.Valid() && Bijective(world.model.arena, byKey, byId)
    requires Filled(world.model, byId, [])
    requires forall r :: r in rows ==> r.0 in byKey && r.1 in byKey
    requires forall i, j :: 0 <= i < j < |rows| ==> rows[i].0 != rows[j].0
    modifies world.Repr
    ensures world.Valid()
    ensures world.model.arena == old(world.model.arena) && world.model.at == old(world.model.at)
    ensures Filled(world.model, byId, rows)
  {
    hide *;
    for n := 0 to |rows|
      invariant world.Valid()
      invariant world.model.arena == old(world.model.arena) && world.model.at == old(world.model.at)
      invariant Filled(world.model, byId, rows[..n])
    {
      assert rows[n] in rows;
      var (item, container) := rows[n];
      FillStep(world.model, byKey, byId, rows[..n], rows[n]);
      var refused := world.InventoryAdd(byKey[container], byKey[item]);
      assert rows[..n + 1] == rows[..n] + [rows[n]];
    }
    assert rows[..|rows|] == rows;
  }

  class PersistentWorld {
    const db: Database
    const world: World
    const scheduler: Scheduler
    const places: PlaceMap
    var byKey: map<EntityKey, EntityId>
    var byId: map<EntityId, EntityKey>

    ghost const Repr: set<object>

    ghost predicate Valid()
      reads this, Repr
    {
      && Repr == {this, db, scheduler} + world.Repr
      && {world, world.arena, world.locations, world.inventory, world.naming} == world.Repr
      && world.Valid()
      && {this, db, scheduler} !! world.Repr
    }

    ghost function State(): Durable
      reads this, db, world
    {
      Durable(world.model, db.tables, byKey, byId, places)
    }

    constructor (db: Database, world: World, byKey: map<EntityKey, EntityId>, byId: map<EntityId, EntityKey>, places: PlaceMap)
      requires world.Valid() && db !in world.Repr
      ensures Valid() && fresh(this) && fresh(scheduler) && scheduler.queue == []
      ensures this.db == db && this.world == world && this.places == places
      ensures State() == Durable(world.model, db.tables, byKey, byId, places)
    {
      this.db, this.world, this.places := db, world, places;
      this.byKey, this.byId := byKey, byId;
      var s := new Scheduler();
      scheduler := s;
      Repr := {this, db, s} + world.Repr;
    }

    /** Rebuilds the world of a consistent database: every persisted entity resident, where and in what the tables say. */
    static method Load(db: Database, tenant: TenantTag, places: PlaceMap) returns (r: Result<PersistentWorld, DbError>)
      requires db.tables.Consistent() && places.OneToOne()
      ensures r.Ok? ==> && fresh(r.value) && r.value.Valid() && r.value.db == db && r.value.places == places
                        && r.value.State().Agrees() && r.value.State().Contained() && AllResident(r.value.State())
                        && r.value.scheduler.queue == []
      ensures r.Err? ==> match r.error
                         case Sqlx => true
                         case UnknownPlaceKey(slug) => slug !in places.idOf && exists k :: k in db.tables.location && db.tables.location[k] == slug
                         case LoadArenaExhausted(_) => |db.tables.entities| > SLOT_SPACE
                         case _ => false
    {
      hide *;
      var world := new World(tenant);
      FreshIsMinting(tenant);
      var keys := db.FetchKeys();
      if keys.None? {
        return Err(Sqlx);
      }
      var minted := MintAll(world, keys.value);
      if minted.Err? {
        return Err(minted.error);
      }
      var (byKey, byId) := minted.value;
      MintedIsBlank(world.model, byKey, byId, |keys.value|, places);
      ghost var w0 := world.model;
      var locations := db.FetchLocations();
      if locations.None? {
        return Err(Sqlx);
      }
      LocationRows(db.tables, locations.value);
      var unknown := SeatAll(world, locations.value, byKey, byId, places);
      if unknown.Some? {
        return Err(UnknownPlaceKey(unknown.value));
      }
      ghost var w1 := world.model;
      SeatingLeavesContents(w0, w1, byId);
      var inventory := db.FetchInventory();
      if inventory.None? {
        return Err(Sqlx);
      }
      InventoryRows(db.tables, inventory.value);
      FillAll(world, inventory.value, byKey, byId);
      FillingLeavesLocations(w1, world.model, byId, locations.value, places);
      var loaded := new PersistentWorld(db, world, byKey, byId, places);
      LoadedAgrees(loaded.State(), byKey, byId, locations.value, inventory.value);
      return Ok(loaded);
    }

    /** In a mapped world exactly the live handles have a key, and that key leads back to the same handle. */
    method KeyOf(id: EntityId) returns (r: Result<EntityKey, DbError>)
      ensures State().Mapped() ==> (r.Ok? <==> world.model.arena.IsLive(id))
      ensures State().Mapped() && r.Ok? ==> r.value in byKey && byKey[r.value] == id
      ensures r == if id in byId then Ok(byId[id]) else Err(EntityNotMapped)
    {
      r := if id in byId then Ok(byId[id]) else Err(EntityNotMapped);
    }

    method PersistMove(entity: EntityId, place: PlaceId) returns (failed: Option<DbError>)
      requires Valid()
      modifies db
      ensures failed == None ==> old(State()).Persist(MoveTo(entity, place)) == Ok(db.tables)
      ensures failed.Some? ==> db.tables == old(db.tables)
      ensures failed.Some? && failed.value != Sqlx ==> old(State()).Persist(MoveTo(entity, place)) == Err(failed.value)
    {
      var key := KeyOf(entity);
      if key.Err? {
        return Some(key.error);
      }
      if place !in places.slugOf {
        return Some(PlaceNotMapped);
      }
      var ok := db.UpsertLocation(key.value, places.slugOf[place]);
      failed := if ok then None else Some(Sqlx);
    }

    method PersistClearLocation(entity: EntityId) returns (failed: Option<DbError>)
      requires Valid()
      modifies db
      ensures failed == None ==> old(State()).Persist(ClearLocation(entity)) == Ok(db.tables)
      ensures failed.Some? ==> db.tables == old(db.tables)
      ensures failed.Some? && failed.value != Sqlx ==> old(State()).Persist(ClearLocation(entity)) == Err(failed.value)
    {
      var key := KeyOf(entity);
      if key.Err? {
        return Some(key.error);
      }
      var ok := db.DeleteLocation(key.value);
      failed := if ok then None else Some(Sqlx);
    }

    method PersistInventoryAdd(container: EntityId, item: EntityId) returns (failed: Option<DbError>)
      requires Valid()
      modifies db
      ensures failed == None ==> old(State()).Persist(InventoryAdd(container, item)) == Ok(db.tables)
      ensures failed.Some? ==> db.tables == old(db.tables)
      ensures failed.Some? && failed.value != Sqlx ==> old(State()).Persist(InventoryAdd(container, item)) == Err(failed.value)
    {
      var itemKey := KeyOf(item);
      if itemKey.Err? {
        return Some(itemKey.error);
      }
      var containerKey := KeyOf(container);
      if containerKey.Err? {
        return Some(containerKey.error);
      }
      var ok := db.UpsertInventory(itemKey.value, containerKey.value);
      failed := if ok then None else Some(Sqlx);
    }

    method PersistInventoryRemove(container: EntityId, item: EntityId) returns (failed: Option<DbError>)
      requires Valid()
      modifies db
      ensures failed == None ==> old(State()).Persist(InventoryRemove(container, item)) == Ok(db.tables)
      ensures failed.Some? ==> db.tables == old(db.tables)
      ensures failed.Some? && failed.value != Sqlx ==> old(State()).Persist(InventoryRemove(container, item)) == Err(failed.value)
    {
      var itemKey := KeyOf(item);
      if itemKey.Err? {
        return Some(itemKey.error);
      }
      var containerKey := KeyOf(container);
      if containerKey.Err? {
        return Some(containerKey.error);
      }
      var ok := db.DeleteInventory(itemKey.value, containerKey.value);
      failed := if ok then None else Some(Sqlx);
    }

    method PersistTeardown(entity: EntityId) returns (failed: Option<DbError>)
      requires Valid()
      modifies this, db
      ensures failed == None ==> old(State()).Persist(Teardown(entity)) == Ok(db.tables)
      ensures failed == None ==> byKey == old(byKey) - {old(byId)[entity]} && byId == old(byId) - {entity}
      ensures failed.Some? ==> db.tables == old(db.tables) && byKey == old(byKey) && byId == old(byId)
      ensures failed.Some? && failed.value != Sqlx ==> old(State()).Persist(Teardown(entity)) == Err(failed.value)
    {
      var key := KeyOf(entity);
      if key.Err? {
        return Some(key.error);
      }
      var ok := db.DeleteEntity(key.value);
      if !ok {
        return Some(Sqlx);
      }
      byKey := byKey - {key.value};
      byId := byId - {entity};
      failed := None;
    }

    /** Memory is at most this one creation ahead of the tables when it reports a failure. */
    method ApplyCreate() returns (r: Result<Option<TickEvent>, DbError>)
      requires Valid()
      modifies Repr
      ensures Valid() && scheduler.queue == old(scheduler.queue)
      ensures r.Ok? ==> old(State()).ApplyCreate() == Ok((State(), r.value))
      ensures r.Err? ==> r.error == Sqlx && db.tables == old(db.tables) && byKey == old(byKey) && byId == old(byId)
      ensures r.Err? ==> world.model == old(world.model) || world.model == old(world.model).Create().0
    {
      hide WorldState.Inv;
      hide Arena.Alloc;
      var key := db.InsertEntity();
      if key.None? {
        return Err(Sqlx);
      }
      var minted := world.Create();
      if minted.Err? {
        var rolledBack := db.Query();
        return if rolledBack then Ok(Some(Rejected(Effect.Create, minted.error))) else Err(Sqlx);
      }
      var ok := db.CommitEntity();
      if !ok {
        return Err(Sqlx);
      }
      byKey := byKey[key.value := minted.value];
      byId := byId[minted.value := key.value];
      return Ok(Some(Created(minted.value)));
    }

    method Persist(effect: Effect) returns (failed: Option<DbError>)
      requires Valid() && !effect.Create?
      modifies this, db
      ensures failed == None ==> old(State()).Persist(effect) == Ok(db.tables)
      ensures failed == None ==> if effect.Teardown? then byKey == old(byKey) - {old(byId)[effect.entity]} && byId == old(byId) - {effect.entity}
                                 else byKey == old(byKey) && byId == old(byId)
      ensures failed.Some? ==> db.tables == old(db.tables) && byKey == old(byKey) && byId == old(byId)
      ensures failed.Some? && failed.value != Sqlx ==> old(State()).Persist(effect) == Err(failed.value)
    {
      match effect {
        case MoveTo(entity, place) => failed := PersistMove(entity, place);
        case ClearLocation(entity) => failed := PersistClearLocation(entity);
        case InventoryAdd(container, item) => failed := PersistInventoryAdd(container, item);
        case InventoryRemove(container, item) => failed := PersistInventoryRemove(container, item);
        case Teardown(entity) => failed := PersistTeardown(entity);
      }
    }

    method Apply(command: Command) returns (r: Result<Option<TickEvent>, DbError>)
      requires Valid()
      modifies Repr
      ensures Valid() && scheduler.queue == old(scheduler.queue)
      ensures r.Ok? ==> old(State()).Apply(command) == Ok((State(), r.value))
      ensures r.Err? ==> db.tables == old(db.tables) && byKey == old(byKey) && byId == old(byId)
      ensures r.Err? ==> world.model == old(world.model) || world.model == old(world.model).Perform(command).0
      ensures r.Err? && r.error != Sqlx ==> old(State()).Apply(command) == Err(r.error)
    {
      hide WorldState.Accept;
      hide WorldState.Rejection;
      hide WorldState.Inv;
      hide WorldState.Create;
      hide Durable.Persist;
      if command.precondition.Some? {
        var holds := world.Satisfies(command.precondition.value);
        if !holds {
          return Ok(Some(PreconditionFailed(command.precondition.value, command.effect)));
        }
      }
      if command.effect.Create? {
        CreateIsPerform(world.model, command);
        r := ApplyCreate();
        return;
      }
      var event := world.ApplyEffect(command.effect);
      if event.Some? {
        return Ok(event);
      }
      PersistIgnoresWorld(old(State()), world.model, command.effect);
      var failed := Persist(command.effect);
      r := if failed.Some? then Err(failed.value) else Ok(None);
    }

    method Submit(command: Command)
      requires Valid()
      modifies scheduler
      ensures Valid() && State() == old(State()) && scheduler.queue == old(scheduler.queue) + [command]
    {
      scheduler.Submit(command);
    }

    /** Fail-stop: on an error at some command the tables hold exactly the effects of the commands before it. */
    method Tick() returns (r: Result<seq<TickEvent>, DbError>)
      requires Valid()
      modifies Repr
      ensures Valid() && scheduler.queue == []
      ensures r.Ok? ==> DrainBoth(old(State()), old(scheduler.queue)) == Ok((State(), r.value))
      ensures r.Ok? ==> (world.model, r.value) == WorldModel.Drain(old(world.model), old(scheduler.queue))
      ensures r.Ok? && old(State().Agrees()) ==> State().Agrees()
      ensures r.Err? ==> exists k :: StoppedAt(old(State()), old(scheduler.queue), k, db.tables, world.model)
    {
      hide Durable.Agrees;
      hide Durable.Apply;
      hide WorldState.Perform;
      hide WorldState.Inv;
      var events := [];
      var commands := scheduler.Drain();
      ghost var start := State();
      for n := 0 to |commands|
        invariant Valid() && scheduler.queue == []
        invariant DrainBoth(start, commands[..n]) == Ok((State(), events))
      {
        ghost var before, prefix := State(), events;
        DrainBothAppend(start, commands[..n], commands[n]);
        assert commands[..n + 1] == commands[..n] + [commands[n]];
        var event := Apply(commands[n]);
        if event.Err? {
          assert StoppedAt(start, commands, n, db.tables, world.model);
          return Err(event.error);
        }
        if event.value.Some? {
          events := events + [event.value.value];
        }
        assert events == prefix + Optional(event.value);
      }
      assert commands[..|commands|] == commands;
      DurableTickRefinesMemory(start, commands);
      if start.Agrees() {
        DrainKeepsAgreement(start, commands);
      }
      return Ok(events);
    }

    method EntityOf(key: EntityKey) returns (id: Option<EntityId>)
      ensures id == if key in byKey then Some(byKey[key]) else None
    {
      id := if key in byKey then Some(byKey[key]) else None;
    }

    /** Idempotent; `queries` says which of its two queries the database answered. */
    method Hydrate(key: EntityKey) returns (r: Result<EntityId, DbError>, ghost queries: Queries)
      requires Valid()
      modifies Repr
      ensures Valid() && scheduler.queue == old(scheduler.queue) && db.tables == old(db.tables)
      ensures (State(), r) == HydrateUnder(old(State()), key, queries)
      ensures r.Ok? ==> old(State()).Hydrate(key) == Ok((State(), r.value)) && key in byKey && byKey[key] == r.value
      ensures r.Err? && r.error != Sqlx ==> old(State()).Hydrate(key) == Err(r.error)
    {
      hide WorldState.Inv, WorldState.Accept, World.Valid, Arena.Alloc, Arena.IsLive;
      queries := Queries(true, true);
      HydrateUnderIsHydrate(State(), key);
      if key in byKey {
        return Ok(byKey[key]), queries;
      }
      var exists_ := db.HasEntity(key);
      if exists_.None? {
        return Err(Sqlx), Queries(false, true);
      }
      if !exists_.value {
        return Err(DanglingReference(key)), queries;
      }
      ghost var before := State();
      CreatedIsLive(before.world);
      var minted := world.Create();
      if minted.Err? {
        return Err(LoadArenaExhausted(key)), queries;
      }
      var id := minted.value;
      byKey := byKey[key := id];
      byId := byId[id := key];
      assert State() == before.Bind(db.tables, key);
      var row := db.LocationRow(key);
      if row.None? {
        return Err(Sqlx), Queries(true, false);
      }
      if row.value.Some? {
        if row.value.value !in places.idOf {
          return Err(UnknownPlaceKey(row.value.value)), queries;
        }
        var refused := world.MoveTo(id, places.idOf[row.value.value]);
        assert refused == None;
      }
      return Ok(id), queries;
    }

    /**
     * Drops memory and boots from the same database under the place handles of a new world load. Whatever memory held,
     * the new world is what the tables say; where memory agreed, every key is back in its room and nested as it was.
     */
    method Reload(tenant: TenantTag, newPlaces: PlaceMap) returns (r: Result<PersistentWorld, DbError>)
      requires Valid() && db.tables.Consistent() && newPlaces.OneToOne()
      ensures r.Ok? ==> r.value.Valid() && Booted(db.tables, newPlaces, r.value.State())
      ensures r.Ok? ==> forall keys :: AtOdds(State(), keys) ==> Restored(State(), r.value.State(), keys)
      ensures r.Ok? && NearlyAgrees(State()) && (State().Contained() || LivedDisciplined(State())) ==>
                SameContainment(State(), r.value.State())
      ensures r.Ok? && State().Agrees() && newPlaces == places ==> SameUnderKeys(State(), r.value.State())
      ensures HasUnknownSlug(db.tables, newPlaces) ==> r.Err?
      ensures r.Err? && r.error != Sqlx && AllResident(State()) && NearlyAgrees(State()) ==>
                r.error.UnknownPlaceKey? && HasUnknownSlug(db.tables, newPlaces)
      ensures r.Err? && AllResident(State()) && State().Agrees() && newPlaces == places ==> r.error == Sqlx
    {
      hide Durable.Agrees, Durable.Contained, AtOdds, Restored, SameContainment, SameUnderKeys, HasUnknownSlug, LivedDisciplined, AllResident;
      ghost var before := State();
      RestartErrors(before, newPlaces);
      r := Load(db, tenant, newPlaces);
      if r.Ok? {
        RestartTheorems(before, newPlaces, r.value.State());
      } else if r.error.UnknownPlaceKey? {
        UnknownSlug(db.tables, newPlaces, r.error.slug);
      }
    }
  }

  /** A world as a boot leaves it: just what the tables say, every entity resident. */
  ghost predicate Booted(tables: Tables, places: PlaceMap, after: Durable) {
    after.Agrees() && after.Contained() && AllResident(after) && after.db == tables && after.places == places
  }

  /** Some entity's row names a room that is not loaded. */
  ghost predicate HasUnknownSlug(tables: Tables, places: PlaceMap) {
    exists k :: k in tables.location && tables.location[k] !in places.idOf
  }

  lemma UnknownSlug(tables: Tables, places: PlaceMap, slug: Slug)
    requires slug !in places.idOf && exists k :: k in tables.location && tables.location[k] == slug
    ensures HasUnknownSlug(tables, places)
  {
  }

  /** What a restart gives, for every state memory may have been in. */
  lemma RestartTheorems(before: Durable, newPlaces: PlaceMap, after: Durable)
    requires Booted(before.db, newPlaces, after)
    ensures forall keys :: AtOdds(before, keys) ==> Restored(before, after, keys)
    ensures NearlyAgrees(before) && (before.Contained() || LivedDisciplined(before)) ==> SameContainment(before, after)
    ensures before.Agrees() && newPlaces == before.places ==> SameUnderKeys(before, after)
    ensures !HasUnknownSlug(before.db, newPlaces)
  {
    hide Durable.Agrees, Durable.Contained, AtOdds, Restored, SameContainment, SameUnderKeys, HasUnknownSlug, LivedDisciplined;
    forall keys | AtOdds(before, keys) ensures Restored(before, after, keys) {
      RestartRestores(before, after, keys);
    }
    if NearlyAgrees(before) {
      if LivedDisciplined(before) {
        DisciplineContains(before);
      }
      if before.Contained() {
        RestartNestsAlike(before, after);
      }
    }
    if before.Agrees() && newPlaces == before.places {
      SameMapSamePlaces(before, after);
    }
    BootedKnowsSlugs(after);
  }

  lemma RestartNestsAlike(before: Durable, after: Durable)
    requires NearlyAgrees(before) && before.Contained() && Booted(before.db, after.places, after)
    ensures SameContainment(before, after)
  {
    hide Durable.Contained, Durable.Agrees, Durable.Mapped, AtOdds, WorldState.InventoryOf;
    var keys :| AtOdds(before, keys);
    TablesAtOddsConsistent(before, keys);
    AgreesIffNothingAtOdds(before, keys);
    MappedWhenAgreeing(after);
    forall box, item | box in before.byKey && item in before.byKey
      ensures after.byKey[item] in after.world.InventoryOf(after.byKey[box]) <==>
              before.byKey[item] in before.world.InventoryOf(before.byKey[box])
    {
      ReloadKeepsContainment(before, after, box, item);
    }
  }

  lemma SameMapSamePlaces(before: Durable, after: Durable)
    requires before.Agrees() && Booted(before.db, before.places, after)
    ensures SameUnderKeys(before, after)
  {
    hide WorldState.Inv, Bijective, Durable.RowMatches;
    assert before.db.location - {} == before.db.location;
    assert WithoutRows(before, {}) == before;
    RestartRestores(before, after, {});
    forall k | k in before.byKey
      ensures k in after.byKey && after.world.LocationOf(after.byKey[k]) == before.world.LocationOf(before.byKey[k])
    {
      SameMapSamePlace(before, after, k);
    }
  }

  lemma BootedKnowsSlugs(d: Durable)
    requires d.Agrees() && AllResident(d)
    ensures !HasUnknownSlug(d.db, d.places)
  {
    forall k | k in d.db.location ensures d.db.location[k] in d.places.idOf {
      assert d.RowMatches(d.byKey[k]);
    }
  }

  /** The entities of a mapped world fit its arena; a world that agrees knows the rooms its tables name. */
  lemma RestartErrors(before: Durable, newPlaces: PlaceMap)
    ensures AllResident(before) && NearlyAgrees(before) ==> |before.db.entities| <= SLOT_SPACE
    ensures AllResident(before) && before.Agrees() && newPlaces == before.places ==>
              |before.db.entities| <= SLOT_SPACE && !HasUnknownSlug(before.db, newPlaces)
  {
    hide HasUnknownSlug, WorldState.Inv, Durable.Agrees;
    if AllResident(before) && NearlyAgrees(before) {
      var keys :| AtOdds(before, keys);
      AgreesIffNothingAtOdds(before, keys);
      ResidentsFit(before);
    }
    if AllResident(before) && before.Agrees() {
      MappedWhenAgreeing(before);
      ResidentsFit(before);
      BootedKnowsSlugs(before);
    }
  }

  lemma MappedWhenAgreeing(d: Durable)
    requires d.Agrees()
    ensures d.Mapped()
  {
  }

  /** A failed tick leaves the sound tables of a world it passed through, and a restart puts back that world, nested as it was. */
  lemma RestartAfterFailedTick(start: Durable, keys: set<EntityKey>, commands: seq<Command>, k: nat, tables: Tables, w: WorldState,
                               newPlaces: PlaceMap, after: Durable) returns (stranded: set<EntityKey>)
    requires AtOdds(start, keys) && start.world.Inv() && StoppedAt(start, commands, k, tables, w)
    requires Booted(tables, newPlaces, after)
    ensures stranded <= keys && Restored(DrainBoth(start, commands[..k]).value.0, after, stranded)
    ensures DrainBoth(start, commands[..k]).value.0.Contained() ==> SameContainment(DrainBoth(start, commands[..k]).value.0, after)
  {
    hide AtOdds, Durable.Agrees, Durable.Contained, AllResident, WorldState.Inv, Restored, SameContainment;
    var reached := DrainBoth(start, commands[..k]).value.0;
    stranded := DrainKeepsAtOdds(start, keys, commands[..k]);
    RestartRestores(reached, after, stranded);
    if reached.Contained() { RestartNestsAlike(reached, after); }
  }

  /** So a restart may be tried. */
  lemma StoppedTablesConsistent(start: Durable, keys: set<EntityKey>, commands: seq<Command>, k: nat, tables: Tables, w: WorldState)
    requires AtOdds(start, keys) && start.world.Inv() && StoppedAt(start, commands, k, tables, w)
    ensures tables.Consistent()
  {
    hide AtOdds, Tables.Consistent, WorldState.Inv;
    var left := DrainKeepsAtOdds(start, keys, commands[..k]);
    TablesAtOddsConsistent(DrainBoth(start, commands[..k]).value.0, left);
  }

  /** In a consistent database the fetched rows name stored entities only, and each key once. */
  lemma LocationRows(t: Tables, rows: seq<(EntityKey, Slug)>)
    requires t.Consistent() && Rows(t.location, rows)
    ensures forall r :: r in rows ==> r.0 in t.entities && r.0 in t.location && t.location[r.0] == r.1
    ensures forall i, j :: 0 <= i < j < |rows| ==> rows[i].0 != rows[j].0
  {
  }

  lemma InventoryRows(t: Tables, rows: seq<(EntityKey, EntityKey)>)
    requires t.Consistent() && Rows(t.inventory, rows)
    ensures forall r :: r in rows ==> r.0 in t.entities && r.1 in t.entities
    ensures forall i, j :: 0 <= i < j < |rows| ==> rows[i].0 != rows[j].0
  {
  }

  lemma CreateIsPerform(w: WorldState, command: Command)
    requires w.Inv() && command.effect.Create? && (command.precondition.Some? ==> w.Satisfies(command.precondition.value))
    ensures w.Perform(command).0 == w.Create().0
  {
  }

  /** What is written depends on the mapping and the tables alone, so applying to memory first changes nothing about it. */
  lemma PersistIgnoresWorld(d: Durable, w: WorldState, effect: Effect)
    requires !effect.Create?
    ensures d.(world := w).Persist(effect) == d.Persist(effect)
  {
  }

  /** The commands before `k` are in the tables and nothing else is; memory is ahead by command `k` at most. */
  ghost predicate StoppedAt(start: Durable, commands: seq<Command>, k: int, tables: Tables, w: WorldState)
    requires start.world.Inv()
  {
    && 0 <= k < |commands|
    && DrainBoth(start, commands[..k]).Ok?
    && var d := DrainBoth(start, commands[..k]).value.0;
       tables == d.db && (w == d.world || w == d.world.Perform(commands[k]).0)
  }

  lemma CreatedIsLive(w: WorldState)
    requires w.Inv()
    ensures w.Create().1.Ok? ==> w.Create().0.Refusal(w.Create().1.value) == None
  {
  }

  ghost predicate SameUnderKeys(before: Durable, after: Durable) {
    && (forall k :: k in before.byKey ==> k in after.byKey)
    && (forall k :: k in before.byKey ==> after.world.LocationOf(after.byKey[k]) == before.world.LocationOf(before.byKey[k]))
  }

  ghost predicate SameContainment(before: Durable, after: Durable) {
    && (forall k :: k in before.byKey ==> k in after.byKey)
    && (forall box, item :: box in before.byKey && item in before.byKey ==>
          (after.byKey[item] in after.world.InventoryOf(after.byKey[box]) <==>
           before.byKey[item] in before.world.InventoryOf(before.byKey[box])))
  }

  /** Reached from a state in containment agreement, such as boot leaves, by a disciplined life. */
  ghost predicate LivedDisciplined(d: Durable) {
    exists start: Durable, ops | start.Agrees() && Life(start, ops).Ok? ::
      start.Contained() && Life(start, ops).value == d && Disciplined(start, ops)
  }

  lemma DisciplineContains(d: Durable)
    requires LivedDisciplined(d)
    ensures d.Contained()
  {
    var start: Durable, ops :| start.Agrees() && Life(start, ops).Ok? && start.Contained() && Life(start, ops).value == d && Disciplined(start, ops);
    ContainedThroughoutIffDisciplined(start, ops);
  }

  lemma ResidentsFit(d: Durable)
    requires d.Mapped() && AllResident(d)
    ensures |d.db.entities| <= SLOT_SPACE
  {
    var slots := set k | k in d.byKey :: d.byKey[k].slot as nat;
    forall a, b | a in d.byKey && b in d.byKey && d.byKey[a].slot == d.byKey[b].slot ensures a == b {
      assert d.world.arena.IsLive(d.byKey[a]) && d.world.arena.IsLive(d.byKey[b]);
      assert d.byKey[a] == d.byKey[b];
    }
    InjectiveImage(d.byKey.Keys, d.byKey, slots);
    Ascending.AtMost(slots, SLOT_SPACE);
    assert d.byKey.Keys == d.db.entities;
  }

  lemma {:induction false} InjectiveImage(keys: set<EntityKey>, byKey: map<EntityKey, EntityId>, slots: set<nat>)
    requires keys <= byKey.Keys && slots == set k | k in keys :: byKey[k].slot as nat
    requires forall a, b :: a in byKey && b in byKey && byKey[a].slot == byKey[b].slot ==> a == b
    ensures |slots| == |keys|
    decreases |keys|
  {
    if keys != {} {
      var k :| k in keys;
      var rest := keys - {k};
      var fewer := set x | x in rest :: byKey[x].slot as nat;
      InjectiveImage(rest, byKey, fewer);
      assert slots == fewer + {byKey[k].slot as nat};
      assert byKey[k].slot as nat !in fewer;
    }
  }

  lemma FreshIsMinting(tenant: TenantTag)
    ensures Minting(Empty(tenant), map[], map[], 0)
  {
    EmptyInv(tenant);
  }

  lemma LoadedAgrees(d: Durable, byKey: map<EntityKey, EntityId>, byId: map<EntityId, EntityKey>,
                     locations: seq<(EntityKey, Slug)>, inventory: seq<(EntityKey, EntityKey)>)
    requires d.world.Inv() && d.db.Consistent() && d.places.OneToOne()
    requires d.byKey == byKey && d.byId == byId && Bijective(d.world.arena, byKey, byId)
    requires d.byKey.Keys == d.db.entities
    requires Rows(d.db.location, locations) && Rows(d.db.inventory, inventory)
    requires Seated(d.world, d.byId, locations, d.places) && Filled(d.world, d.byId, inventory)
    ensures d.Agrees() && d.Contained() && AllResident(d)
  {
    forall h | h in d.byId ensures d.RowMatches(h) {
      assert SeatedAt(d.world.LocationOf(h), d.byId[h], locations, d.places);
      if d.byId[h] in d.db.location { assert (d.byId[h], d.db.location[d.byId[h]]) in locations; }
    }
    forall c, i | c in d.byId && i in d.byId ensures i in d.world.InventoryOf(c) <==> d.RowHolds(c, i) {
      if d.RowHolds(c, i) { assert (d.byId[i], d.db.inventory[d.byId[i]]) in inventory; }
    }
  }

  /** The puppet's rows went in, and then its hydration failed under some queries. */
  ghost predicate FailedAfterRows(before: Durable, start: Slug, after: Durable)
    requires before.world.Inv()
  {
    && 0 < before.db.next <= MAX_ROWID
    && exists queries :: && HydrateUnder(before.WithPuppetRows(start), before.db.next, queries).0 == after
                         && HydrateUnder(before.WithPuppetRows(start), before.db.next, queries).1.Err?
  }

  /** Nobody resident is disturbed: each keeps its handle, its place and what it holds. */
  ghost predicate Spared(before: Durable, after: Durable) {
    && (forall k :: k in before.byKey ==> k in after.byKey && after.byKey[k] == before.byKey[k])
    && (forall h :: before.world.arena.IsLive(h) ==>
          && after.world.arena.IsLive(h)
          && after.world.LocationOf(h) == before.world.LocationOf(h)
          && after.world.InventoryOf(h) == before.world.InventoryOf(h))
  }

  /** Memory agrees with its tables, but for some entities that are resident and nowhere. */
  ghost predicate NearlyAgrees(d: Durable) {
    exists keys :: AtOdds(d, keys)
  }

  lemma DrainStaysNear(d: Durable, commands: seq<Command>)
    requires NearlyAgrees(d) && d.world.Inv() && DrainBoth(d, commands).Ok?
    ensures NearlyAgrees(DrainBoth(d, commands).value.0)
  {
    var keys :| AtOdds(d, keys);
    var left := DrainKeepsAtOdds(d, keys, commands);
  }

  /** What may come of creating puppets while a world runs. */
  ghost predicate Joined(before: Durable, after: Durable) {
    Spared(before, after) && (NearlyAgrees(before) ==> NearlyAgrees(after))
  }

  lemma JoinedAtOnce(d: Durable)
    ensures Joined(d, d)
  {
  }

  lemma JoinedTwice(a: Durable, b: Durable, c: Durable)
    requires Joined(a, b) && Joined(b, c)
    ensures Joined(a, c)
  {
    hide Arena.IsLive, WorldState.LocationOf, WorldState.InventoryOf, AtOdds;
  }

  lemma HydrationSpares(d: Durable, key: EntityKey, queries: Queries)
    requires d.world.Inv()
    ensures Spared(d, HydrateUnder(d, key, queries).0)
  {
    if Mints(d, key, queries) {
      FreshHandleIsBlank(d.world);
      AllocMintsFresh(d.world.arena);
      var h, bound := d.world.Create().1.value, d.Bind(d.db, key);
      assert Spared(d, bound);
      if queries.location && key in d.db.location && d.Seatable(key) {
        var effect := MoveTo(h, d.places.idOf[d.db.location[key]]);
        SeatingSpares(d, bound, effect);
      }
    }
  }

  lemma SparedByRows(before: Durable, start: Slug, after: Durable)
    requires 0 < before.db.next <= MAX_ROWID && Spared(before.WithPuppetRows(start), after)
    ensures Spared(before, after)
  {
  }

  /** Moving a newcomer disturbs nobody who was there before it. */
  lemma SeatingSpares(d: Durable, bound: Durable, effect: Effect)
    requires Spared(d, bound) && bound.world.Inv() && effect.MoveTo? && bound.world.arena.IsLive(effect.entity)
    requires !d.world.arena.IsLive(effect.entity)
    ensures Spared(d, bound.(world := bound.world.Accept(effect)))
  {
    hide WorldState.Inv, WorldState.Accept, WorldState.LocationOf, Arena.IsLive;
    LocationsAfterMove(bound.world, effect.entity, effect.place);
  }

  lemma EnrolmentStrandsOneAtMost(before: Durable, keys: set<EntityKey>, start: Slug, queries: Queries)
    requires AtOdds(before, keys) && 0 < before.db.next <= MAX_ROWID
    ensures before.world.Inv()
    ensures var (v, r) := HydrateUnder(before.WithPuppetRows(start), before.db.next, queries);
            AtOdds(v, keys) || (r.Err? && AtOdds(v, keys + {before.db.next}))
  {
    hide WorldState.Inv, WorldState.Create, WorldState.Accept, Durable.Agrees;
    AgreesIffNothingAtOdds(before, keys);
    EnrolmentUnderRows(before, keys, start);
    HydrationStrands(before.WithPuppetRows(start), keys, before.db.next, queries);
  }

  /** The login backend's puppet creation: rows first, then residency. */
  class DbBackend {
    const world: PersistentWorld
    const startRoom: Slug

    constructor (world: PersistentWorld, startRoom: Slug)
      ensures this.world == world && this.startRoom == startRoom
    {
      this.world, this.startRoom := world, startRoom;
    }

    /**
     * Some(key) on success. None is the opaque backend error: either nothing happened, or the rows exist and the
     * hydration failed under some queries, and then nothing but the new puppet's place can be at odds with its row.
     */
    method CreatePuppet() returns (r: Option<EntityKey>)
      requires world.Valid()
      modifies world.Repr
      ensures world.Valid() && world.scheduler.queue == old(world.scheduler.queue)
      ensures r.Some? ==> LifeStep(old(world.State()), Admit(startRoom)) == Ok(world.State())
      ensures r.Some? && old(world.State().Agrees()) ==> world.State().Agrees()
      ensures r.None? ==> world.State() == old(world.State()) || FailedAfterRows(old(world.State()), startRoom, world.State())
      ensures forall keys :: old(AtOdds(world.State(), keys)) ==>
                AtOdds(world.State(), keys) || (r.None? && AtOdds(world.State(), keys + {old(world.db.tables).next}))
      ensures Joined(old(world.State()), world.State())
      ensures r.Some? ==> r.value in world.byKey
    {
      hide WorldState.Inv;
      hide Durable.Agrees;
      hide Durable.Hydrate;
      hide HydrateUnder;
      hide AtOdds;
      ghost var before := world.State();
      assert Joined(before, before);
      hide Spared;
      var key := world.db.InsertPuppet(startRoom);
      if key.None? {
        return None;
      }
      ghost var rows := before.WithPuppetRows(startRoom);
      assert world.State() == rows;
      var id, queries := world.Hydrate(key.value);
      HydrationSpares(rows, key.value, queries);
      SparedByRows(before, startRoom, world.State());
      forall keys | AtOdds(before, keys) ensures AtOdds(world.State(), keys) || (id.Err? && AtOdds(world.State(), keys + {key.value})) {
        EnrolmentStrandsOneAtMost(before, keys, startRoom, queries);
      }
      if id.Err? {
        assert FailedAfterRows(before, startRoom, world.State());
        return None;
      }
      if before.Agrees() {
        LifeStepKeepsAgreement(before, Admit(startRoom));
      }
      return key;
    }

    method ResolvePuppet(key: EntityKey) returns (id: Option<EntityId>)
      ensures id.Some? <==> key in world.byKey
      ensures id.Some? ==> id.value == world.byKey[key]
    {
      id := world.EntityOf(key);
    }
  }
}
