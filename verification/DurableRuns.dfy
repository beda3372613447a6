/** What holds over whole runs of the write-through world: agreement, refinement, containment, reload. */
module DurableRuns {
  import opened Wrappers
  import opened EntityIds
  import opened ArenaModel
  import opened SlotTables
  import opened WorldModel
  import opened DurableModel

  // A tick against both stores.

  lemma ApplyRefinesPerform(d: Durable, command: Command)
    requires d.world.Inv() && d.Apply(command).Ok?
    ensures (d.Apply(command).value.0.world, d.Apply(command).value.1) == d.world.Perform(command)
  {
  }

  lemma ApplyKeepsInv(d: Durable, command: Command)
    requires d.world.Inv() && d.Apply(command).Ok?
    ensures d.Apply(command).value.0.world.Inv()
  {
    hide WorldState.Inv, WorldState.Perform, Durable.Apply;
    ApplyRefinesPerform(d, command);
    PerformKeepsInv(d.world, command);
  }

  ghost function DrainBoth(d: Durable, commands: seq<Command>): (r: Result<(Durable, seq<TickEvent>), DbError>)
    requires d.world.Inv()
    ensures r.Ok? ==> r.value.0.world.Inv()
    decreases |commands|
  {
    if commands == [] then Ok((d, []))
    else
      match d.Apply(commands[0])
      case Err(e) => Err(e)
      case Ok((next, event)) =>
        ApplyKeepsInv(d, commands[0]);
        match DrainBoth(next, commands[1..])
        case Err(e) => Err(e)
        case Ok((end, events)) => Ok((end, Optional(event) + events))
  }

  lemma {:induction false} DrainBothAppend(d: Durable, commands: seq<Command>, last: Command)
    requires d.world.Inv() && DrainBoth(d, commands).Ok?
    ensures var (mid, events) := DrainBoth(d, commands).value;
            DrainBoth(d, commands + [last]) ==
              match mid.Apply(last)
              case Err(e) => Err(e)
              case Ok((end, event)) => Ok((end, events + Optional(event)))
    decreases |commands|
  {
    hide WorldState.Inv, Durable.Apply;
    var longer := commands + [last];
    if commands == [] {
      assert longer == [last] && longer[1..] == [];
      if d.Apply(last).Ok? {
        ApplyKeepsInv(d, last);
        var event := d.Apply(last).value.1;
        assert Optional(event) + [] == [] + Optional(event);
      }
    } else {
      ApplyKeepsInv(d, commands[0]);
      var (next, first) := d.Apply(commands[0]).value;
      DrainBothAppend(next, commands[1..], last);
      assert longer[0] == commands[0] && longer[1..] == commands[1..] + [last];
      var (mid, events) := DrainBoth(next, commands[1..]).value;
      if mid.Apply(last).Ok? {
        var event := mid.Apply(last).value.1;
        assert Optional(first) + (events + Optional(event)) == (Optional(first) + events) + Optional(event);
      }
    }
  }

  lemma {:induction false} DrainKeepsAgreement(d: Durable, commands: seq<Command>)
    requires d.Agrees() && DrainBoth(d, commands).Ok?
    ensures DrainBoth(d, commands).value.0.Agrees()
    decreases |commands|
  {
    hide Durable.Apply, WorldState.Inv, Durable.RowMatches, Bijective, Tables.Consistent;
    if commands != [] {
      ApplyKeepsAgreement(d, commands[0]);
      DrainKeepsAgreement(d.Apply(commands[0]).value.0, commands[1..]);
    }
  }

  /** A durable tick that does not err is the in-memory tick, whatever the tables: same world, same events in the same order. */
  lemma {:induction false} DurableTickRefinesMemory(d: Durable, commands: seq<Command>)
    requires d.world.Inv() && DrainBoth(d, commands).Ok?
    ensures (DrainBoth(d, commands).value.0.world, DrainBoth(d, commands).value.1) == Drain(d.world, commands)
    decreases |commands|
  {
    hide WorldState.Perform, WorldState.Inv, Durable.Apply;
    if commands != [] {
      ApplyKeepsInv(d, commands[0]);
      PerformKeepsInv(d.world, commands[0]);
      ApplyRefinesPerform(d, commands[0]);
      DurableTickRefinesMemory(d.Apply(commands[0]).value.0, commands[1..]);
    }
  }

  ghost predicate StopsAt(d: Durable, commands: seq<Command>, k: nat, error: DbError)
    requires d.world.Inv()
  {
    && k < |commands| && DrainBoth(d, commands[..k]).Ok?
    && DrainBoth(d, commands[..k]).value.0.Apply(commands[k]) == Err(error)
  }

  /** A tick that would err stops at one definite command: everything before it applies, and it alone errs. */
  lemma {:induction false} DurableTickStopsAtOneCommand(d: Durable, commands: seq<Command>)
    requires d.world.Inv() && DrainBoth(d, commands).Err?
    ensures exists k: nat :: StopsAt(d, commands, k, DrainBoth(d, commands).error)
    decreases |commands|
  {
    hide Durable.Apply, WorldState.Inv;
    match d.Apply(commands[0])
    case Err(_) =>
      assert commands[..0] == [];
      assert StopsAt(d, commands, 0, DrainBoth(d, commands).error);
    case Ok((next, event)) =>
      ApplyKeepsInv(d, commands[0]);
      DurableTickStopsAtOneCommand(next, commands[1..]);
      var rest := commands[1..];
      var k: nat :| StopsAt(next, rest, k, DrainBoth(next, rest).error);
      assert commands[..k + 1][0] == commands[0] && commands[..k + 1][1..] == rest[..k] && commands[k + 1] == rest[k];
      assert StopsAt(d, commands, k + 1, DrainBoth(d, commands).error);
  }

  // Puppets join between ticks.

  lemma HydrateKeepsAgreement(d: Durable, key: EntityKey)
    requires d.Agrees() && d.Hydrate(key).Ok?
    ensures d.Hydrate(key).value.0.Agrees()
  {
    if key !in d.byKey {
      NewcomerAgrees(d, key);
    }
  }

  /** Hydration touches no table and no other key's handle. */
  lemma HydrateAddsOneKey(d: Durable, key: EntityKey)
    requires d.world.Inv() && d.Hydrate(key).Ok?
    ensures d.Hydrate(key).value.0.db == d.db
    ensures d.Hydrate(key).value.0.byKey == d.byKey[key := d.Hydrate(key).value.1]
  {
  }

  lemma NewcomerAgrees(d: Durable, key: EntityKey)
    requires d.Agrees() && key in d.db.entities && key !in d.byKey && d.Seatable(key) && d.world.Create().1.Ok?
    ensures d.Seat(d.Bind(d.db, key), d.world.Create().1.value, key).Agrees()
  {
    BindKeepsMapped(d, d.db, key);
    hide WorldState.Inv;
    hide WorldState.LocationOf;
    var h := d.world.Create().1.value;
    var bound := d.Bind(d.db, key);
    hide WorldState.Create;
    hide WorldState.Accept;
    if key in d.db.location {
      HydrateMove(d, bound, h, key);
    } else {
      BoundNowhere(d, bound, h, key);
    }
  }

  /** Seating a freshly bound entity where its row says completes the agreement. */
  lemma HydrateMove(d: Durable, bound: Durable, h: EntityId, key: EntityKey)
    requires d.Agrees() && key in d.db.entities && key !in d.byKey && h !in d.byId
    requires key in d.db.location && d.Seatable(key)
    requires bound.world.Inv() && bound.Mapped() && bound.world.arena.IsLive(h)
    requires bound.db == d.db && bound.places == d.places && bound.byId == d.byId[h := key] && bound.byKey == d.byKey[key := h]
    requires forall x :: x in d.byId ==> bound.world.LocationOf(x) == d.world.LocationOf(x)
    ensures d.Seat(bound, h, key).Agrees()
  {
    hide WorldState.Inv, WorldState.Accept, WorldState.LocationOf, Arena.IsLive, Durable.RowMatches;
    LocationsAfterMove(bound.world, h, d.places.idOf[d.db.location[key]]);
    SeatedRowsMatch(d, d.Seat(bound, h, key), h, key);
  }

  lemma SeatedRowsMatch(d: Durable, v: Durable, h: EntityId, key: EntityKey)
    requires d.Agrees() && key !in d.byKey && h !in d.byId && key in d.db.location && d.Seatable(key)
    requires v.db == d.db && v.places == d.places && v.byId == d.byId[h := key]
    requires v.world.LocationOf(h) == Some(d.places.idOf[d.db.location[key]])
    requires forall x :: x in d.byId ==> v.world.LocationOf(x) == d.world.LocationOf(x)
    ensures forall x :: x in v.byId ==> v.RowMatches(x)
  {
    hide WorldState.Inv, WorldState.LocationOf;
    forall x | x in v.byId ensures v.RowMatches(x) {
      if x != h { assert d.RowMatches(x); }
    }
  }

  /** What happens between boots: a command, a new puppet's rows and residency, or a persisted entity made resident. */
  datatype LifeOp = Do(command: Command) | Admit(start: Slug) | Rejoin(key: EntityKey)

  function LifeStep(d: Durable, op: LifeOp): Result<Durable, DbError>
    requires d.world.Inv()
  {
    match op
    case Do(command) => (match d.Apply(command) case Ok((v, _)) => Ok(v) case Err(e) => Err(e))
    case Admit(start) =>
      if d.db.next == 0 || d.db.next > MAX_ROWID then Err(Sqlx)
      else (match d.WithPuppetRows(start).Hydrate(d.db.next) case Ok((v, _)) => Ok(v) case Err(e) => Err(e))
    case Rejoin(key) => (match d.Hydrate(key) case Ok((v, _)) => Ok(v) case Err(e) => Err(e))
  }

  ghost predicate AllResident(d: Durable) {
    d.byKey.Keys == d.db.entities
  }

  lemma PuppetRowsKeepAgreement(d: Durable, start: Slug)
    requires d.Agrees() && d.db.next <= MAX_ROWID
    ensures d.WithPuppetRows(start).Agrees()
  {
    var v := d.WithPuppetRows(start);
    forall x | x in v.byId ensures v.RowMatches(x) {
      assert d.RowMatches(x) && d.byId[x] in d.byKey;
    }
  }

  lemma LifeStepKeepsAgreement(d: Durable, op: LifeOp)
    requires d.Agrees() && LifeStep(d, op).Ok?
    ensures LifeStep(d, op).value.Agrees()
    ensures AllResident(d) ==> AllResident(LifeStep(d, op).value)
    ensures d.db.next <= LifeStep(d, op).value.db.next
  {
    hide Durable.Apply, Durable.Hydrate, WorldState.Inv, Durable.RowMatches, Bijective, PlaceMap.OneToOne;
    match op
    case Do(command) =>
      ApplyKeepsAgreement(d, command);
      CounterAfterApply(d, command);
    case Admit(start) =>
      PuppetRowsKeepAgreement(d, start);
      HydrateKeepsAgreement(d.WithPuppetRows(start), d.db.next);
      HydrateAddsOneKey(d.WithPuppetRows(start), d.db.next);
    case Rejoin(key) =>
      HydrateKeepsAgreement(d, key);
      HydrateAddsOneKey(d, key);
  }

  lemma CounterAfterApply(d: Durable, command: Command)
    requires d.Agrees() && d.Apply(command).Ok?
    ensures var v := d.Apply(command).value.0;
            d.db.next <= v.db.next && v.db.entities <= d.db.entities + (if d.db.next <= MAX_ROWID then {d.db.next} else {})
  {
    AppliedShape(d, command);
    if !d.Skips(command) && !command.effect.Create? {
      EffectKeepsTables(d, command.effect);
      PersistKeepsCounter(d, command.effect);
    }
    hide Durable.Apply, Durable.Persist, Durable.Agrees, WorldState.Create, WorldState.Rejection, WorldState.Accept, WorldState.Inv;
  }

  lemma PersistKeepsCounter(d: Durable, effect: Effect)
    requires !effect.Create? && d.Persist(effect).Ok?
    ensures d.Persist(effect).value.next == d.db.next
  {
  }

  ghost function Life(d: Durable, ops: seq<LifeOp>): Result<Durable, DbError>
    requires d.Agrees()
    decreases |ops|
  {
    if ops == [] then Ok(d)
    else
      match LifeStep(d, ops[0])
      case Err(e) => Err(e)
      case Ok(v) =>
        LifeStepKeepsAgreement(d, ops[0]);
        Life(v, ops[1..])
  }

  /** Every state reached without an error agrees with its tables, holds every persisted entity, and never reuses a key. */
  lemma {:induction false} AgreementOverEveryLife(d: Durable, ops: seq<LifeOp>)
    requires d.Agrees() && Life(d, ops).Ok?
    ensures Life(d, ops).value.Agrees()
    ensures AllResident(d) ==> AllResident(Life(d, ops).value)
    ensures forall k: EntityKey :: k < d.db.next && k !in d.db.entities ==> k !in Life(d, ops).value.db.entities
    decreases |ops|
  {
    hide LifeStep, WorldState.Inv, Durable.RowMatches, Bijective, Tables.Consistent;
    if ops != [] {
      LifeStepKeepsAgreement(d, ops[0]);
      DeadKeysStayDead(d, ops[0]);
      AgreementOverEveryLife(LifeStep(d, ops[0]).value, ops[1..]);
    }
  }

  lemma DeadKeysStayDead(d: Durable, op: LifeOp)
    requires d.Agrees() && LifeStep(d, op).Ok?
    ensures LifeStep(d, op).value.db.entities <= d.db.entities + (if d.db.next <= MAX_ROWID then {d.db.next} else {})
  {
    hide Durable.Apply;
    hide Durable.Hydrate;
    match op
    case Do(command) => CounterAfterApply(d, command);
    case Admit(start) =>
      PuppetRowsKeepAgreement(d, start);
      HydrateKeepsAgreement(d.WithPuppetRows(start), d.db.next);
      HydrateAddsOneKey(d.WithPuppetRows(start), d.db.next);
    case Rejoin(key) => HydrateAddsOneKey(d, key);
  }

  // Containment.

  /** What a caller can check before adding `i` to `c`: nobody else holds it, and nothing else sits at its slot in `c`. */
  ghost predicate Fits(w: WorldState, c: EntityId, i: EntityId)
  {
    && (forall other :: other in w.held && other != c ==> i !in w.held[other])
    && (i in w.InventoryOf(c) || !HoldsSlot(w.InventoryOf(c), i.slot))
  }

  /** Adding an item keeps memory and table in agreement exactly when it fits. */
  lemma AddKeepsContainmentIffFits(d: Durable, c: EntityId, i: EntityId)
    requires d.Agrees() && d.Contained() && d.world.arena.IsLive(c) && d.world.arena.IsLive(i)
    ensures d.Commit(InventoryAdd(c, i)).Contained() <==> Fits(d.world, c, i)
  {
    var v := d.Commit(InventoryAdd(c, i));
    assert v.byId == d.byId && v.db.inventory == d.db.inventory[d.byId[i] := d.byId[c]];
    assert forall x, y :: y in v.world.InventoryOf(x) <==>
             y in d.world.InventoryOf(x) || ((x, y) == (c, i) && !HoldsSlot(d.world.InventoryOf(c), i.slot)) by {
      forall x, y { HeldAfterAdd(d.world, c, i, x, y); }
    }
    hide WorldState.Accept;
    hide Durable.Commit;
    if Fits(d.world, c, i) {
      FittingAdd(d, v, c, i);
    } else {
      assert v.RowHolds(c, i);
      if other :| other in d.world.held && other != c && i in d.world.held[other] {
        assert i in v.world.InventoryOf(other) && !v.RowHolds(other, i);
      } else {
        assert i !in v.world.InventoryOf(c);
      }
    }
  }

  lemma FittingAdd(d: Durable, v: Durable, c: EntityId, i: EntityId)
    requires d.Mapped() && d.Contained() && c in d.byId && i in d.byId
    requires v.byId == d.byId && v.db.inventory == d.db.inventory[d.byId[i] := d.byId[c]]
    requires forall x, y :: y in v.world.InventoryOf(x) <==>
               y in d.world.InventoryOf(x) || ((x, y) == (c, i) && !HoldsSlot(d.world.InventoryOf(c), i.slot))
    requires Fits(d.world, c, i)
    ensures v.Contained()
  {
    forall c2, i2 | c2 in v.byId && i2 in v.byId ensures i2 in v.world.InventoryOf(c2) <==> v.RowHolds(c2, i2) {
      assert i2 in d.world.InventoryOf(c2) <==> d.RowHolds(c2, i2);
      assert i2 != i ==> d.byId[i2] != d.byId[i];
      assert c2 != c ==> d.byId[c2] != d.byId[c];
    }
  }

  /** An effect other than an addition changes no pair's row but the one a removal names. */
  lemma PairRowAfter(d: Durable, effect: Effect, c: EntityId, i: EntityId)
    requires d.Mapped() && !effect.Create? && !effect.InventoryAdd? && d.Persist(effect).Ok?
    requires c in d.byId && i in d.byId && effect != Teardown(c) && effect != Teardown(i)
    ensures var after := d.Persist(effect).value.inventory;
            d.byId[i] in after && after[d.byId[i]] == d.byId[c] <==>
            d.RowHolds(c, i) && effect != InventoryRemove(c, i)
  {
    match effect
    case InventoryRemove(box, item) =>
      assert i != item ==> d.byId[i] != d.byId[item];
      assert c != box ==> d.byId[c] != d.byId[box];
    case Teardown(h) =>
      assert d.byId[c] != d.byId[h] && d.byId[i] != d.byId[h];
    case _ =>
  }

  lemma OtherEffectsKeepContainment(d: Durable, effect: Effect)
    requires d.Agrees() && d.Contained() && !effect.Create? && !effect.InventoryAdd?
    requires d.world.Rejection(effect) == None && d.Persist(effect).Ok?
    ensures d.Commit(effect).Contained()
  {
    var v := d.Commit(effect);
    assert v.world == d.world.Accept(effect) && v.db == d.Persist(effect).value;
    forall c, i | c in v.byId && i in v.byId ensures i in v.world.InventoryOf(c) <==> v.RowHolds(c, i) {
      OtherEffectsKeepPair(d, effect, c, i);
    }
  }

  lemma OtherEffectsKeepPair(d: Durable, effect: Effect, c: EntityId, i: EntityId)
    requires d.Mapped() && d.world.Inv() && d.Contained() && !effect.Create? && !effect.InventoryAdd?
    requires d.world.Rejection(effect) == None && d.Persist(effect).Ok?
    requires c in d.Commit(effect).byId && i in d.Commit(effect).byId
    ensures i in d.world.Accept(effect).InventoryOf(c) <==> d.Commit(effect).RowHolds(c, i)
  {
    var v := d.Commit(effect);
    assert c in d.byId && i in d.byId && effect != Teardown(c) && effect != Teardown(i);
    assert v.byId[c] == d.byId[c] && v.byId[i] == d.byId[i] && v.db == d.Persist(effect).value;
    PairRowAfter(d, effect, c, i);
    HeldAfterOther(d.world, effect, c, i);
    hide WorldState.Accept, Durable.Persist, Durable.Commit;
    assert i in d.world.InventoryOf(c) <==> d.RowHolds(c, i);
  }

  lemma CreateKeepsContainment(d: Durable)
    requires d.Agrees() && d.Contained() && d.world.Create().1.Ok? && d.db.next <= MAX_ROWID
    ensures d.Bind(d.db.Insert(), d.db.next).Contained()
  {
    FreshHandleIsBlank(d.world);
    AllocMintsFresh(d.world.arena);
    var v := d.Bind(d.db.Insert(), d.db.next);
    var h := d.world.Create().1.value;
    assert h !in d.byId;
    hide WorldState.Create;
    forall c, i | c in v.byId && i in v.byId ensures i in v.world.InventoryOf(c) <==> v.RowHolds(c, i) {
      if c != h && i != h {
        assert i in d.world.InventoryOf(c) <==> d.RowHolds(c, i);
      } else {
        assert i !in v.world.InventoryOf(c);
      }
    }
  }

  /** Whether `command` is an addition that takes effect in `w` without fitting. */
  ghost predicate Misfit(w: WorldState, command: Command)
    requires w.Inv()
  {
    && command.effect.InventoryAdd?
    && (command.precondition.Some? ==> w.Satisfies(command.precondition.value))
    && w.Rejection(command.effect) == None
    && !Fits(w, command.effect.container, command.effect.item)
  }

  /** One command keeps containment exactly when it is not a misfit addition. */
  lemma ApplyKeepsContainmentIffFits(d: Durable, command: Command)
    requires d.Agrees() && d.Contained() && d.Apply(command).Ok?
    ensures d.Apply(command).value.0.Contained() <==> !Misfit(d.world, command)
  {
    if !d.Skips(command) {
      match command.effect
      case Create => CreateKeepsContainment(d);
      case InventoryAdd(c, i) => AddKeepsContainmentIffFits(d, c, i);
      case _ => OtherEffectsKeepContainment(d, command.effect);
    }
  }

  /** A containment row with `key` at one end and a resident entity, or `key` itself, at the other. */
  ghost predicate Joins(d: Durable, key: EntityKey, item: EntityKey) {
    && item in d.db.inventory
    && (item == key || d.db.inventory[item] == key)
    && (item == key || item in d.byKey)
    && (d.db.inventory[item] == key || d.db.inventory[item] in d.byKey)
  }

  /** Hydration replays no containment: it keeps agreement exactly when no row joins the key to a resident entity. */
  lemma HydrateKeepsContainmentIffUnrelated(d: Durable, key: EntityKey)
    requires d.Agrees() && d.Contained() && d.Hydrate(key).Ok? && key !in d.byKey
    ensures d.Hydrate(key).value.0.Contained() <==>
            forall i :: !Joins(d, key, i)
  {
    hide WorldState.Inv, Durable.Hydrate, Durable.Contained, Joins, Durable.RowMatches, WorldState.InventoryOf, Bijective;
    HydrateKeepsAgreement(d, key);
    HydrateAddsOneKey(d, key);
    HydrateContents(d, key);
    var (v, h) := d.Hydrate(key).value;
    NewcomerContainment(d, v, h, key);
  }

  lemma NewcomerContainment(d: Durable, v: Durable, h: EntityId, key: EntityKey)
    requires d.Agrees() && v.Agrees() && d.Contained() && key !in d.byKey && h !in d.byId
    requires v.db == d.db && v.byKey == d.byKey[key := h] && v.byId == d.byId[h := key]
    requires v.world.InventoryOf(h) == [] && (forall c :: h !in v.world.InventoryOf(c))
    requires forall c :: c in d.byId ==> v.world.InventoryOf(c) == d.world.InventoryOf(c)
    ensures v.Contained() <==> forall i :: !Joins(d, key, i)
  {
    hide WorldState.Inv, WorldState.InventoryOf, Durable.RowMatches, Arena.IsLive, Tables.Consistent, PlaceMap.OneToOne;
    if forall i :: !Joins(d, key, i) {
      forall c, i | c in v.byId && i in v.byId ensures i in v.world.InventoryOf(c) <==> v.RowHolds(c, i) {
        assert v.byId[c] in v.byKey && v.byId[i] in v.byKey;
        if c != h && i != h {
          assert i in d.world.InventoryOf(c) <==> d.RowHolds(c, i);
        } else {
          assert !Joins(d, key, v.byId[i]);
        }
      }
    } else {
      var i :| Joins(d, key, i);
      var c := d.db.inventory[i];
      assert i in v.byKey && c in v.byKey;
      assert v.RowHolds(v.byKey[c], v.byKey[i]);
      assert v.byKey[i] !in v.world.InventoryOf(v.byKey[c]);
    }
  }

  lemma HydrateContents(d: Durable, key: EntityKey)
    requires d.Agrees() && d.Hydrate(key).Ok? && key !in d.byKey
    ensures var (v, h) := d.Hydrate(key).value;
            && v.byId == d.byId[h := key] && h !in d.byId
            && v.world.InventoryOf(h) == [] && (forall c :: h !in v.world.InventoryOf(c))
            && (forall c :: c in d.byId ==> v.world.InventoryOf(c) == d.world.InventoryOf(c))
  {
    hide WorldState.InventoryOf, Durable.RowMatches, Durable.Seat, Arena.Consistent, Arena.IsLive;
    FreshHandleIsBlank(d.world);
    BindKeepsMapped(d, d.db, key);
    SeatKeepsContents(d, d.Bind(d.db, key), d.world.Create().1.value, key);
  }

  lemma SeatKeepsContents(d: Durable, bound: Durable, h: EntityId, key: EntityKey)
    requires d.Seatable(key)
    ensures d.Seat(bound, h, key).byId == bound.byId
    ensures forall c :: d.Seat(bound, h, key).world.InventoryOf(c) == bound.world.InventoryOf(c)
  {
  }

  /** The steps that part memory from the containment table, each something to check before taking it. */
  ghost predicate Parts(d: Durable, op: LifeOp)
    requires d.world.Inv()
  {
    match op
    case Do(command) => Misfit(d.world, command)
    case Admit(_) => false
    case Rejoin(key) => key !in d.byKey && exists i :: Joins(d, key, i)
  }

  /** A new key is in no containment row, so a puppet joins without disturbing any. */
  lemma AdmitKeepsContainment(d: Durable, start: Slug)
    requires d.Agrees() && d.Contained() && LifeStep(d, Admit(start)).Ok?
    ensures LifeStep(d, Admit(start)).value.Contained()
  {
    hide Durable.Hydrate, WorldState.Inv, WorldState.InventoryOf, Durable.RowMatches;
    var rows := d.WithPuppetRows(start);
    PuppetRowsKeepAgreement(d, start);
    assert rows.Contained() by {
      forall c, i | c in rows.byId && i in rows.byId ensures i in rows.world.InventoryOf(c) <==> rows.RowHolds(c, i) {
        assert i in d.world.InventoryOf(c) <==> d.RowHolds(c, i);
      }
    }
    hide Durable.Contained;
    HydrateKeepsContainmentIffUnrelated(rows, d.db.next);
  }

  /** A step keeps containment if and only if it is not one of those. */
  lemma StepKeepsContainmentIffWhole(d: Durable, op: LifeOp)
    requires d.Agrees() && d.Contained() && LifeStep(d, op).Ok?
    ensures LifeStep(d, op).value.Contained() <==> !Parts(d, op)
  {
    hide Durable.Apply, Durable.Hydrate, Durable.Contained, Misfit, WorldState.Inv, Joins;
    match op
    case Do(command) => ApplyKeepsContainmentIffFits(d, command);
    case Admit(start) => AdmitKeepsContainment(d, start);
    case Rejoin(key) =>
      if key in d.byKey {
        ResidentStays(d, key);
      } else {
        HydrateKeepsContainmentIffUnrelated(d, key);
      }
  }

  lemma ResidentStays(d: Durable, key: EntityKey)
    requires d.world.Inv() && key in d.byKey
    ensures d.Hydrate(key) == Ok((d, d.byKey[key]))
  {
  }

  /** No step of the life parts memory from the containment table. */
  ghost predicate Disciplined(d: Durable, ops: seq<LifeOp>)
    requires d.Agrees() && Life(d, ops).Ok?
    decreases |ops|
  {
    ops == [] ||
    (LifeStepKeepsAgreement(d, ops[0]);
     !Parts(d, ops[0]) && Disciplined(LifeStep(d, ops[0]).value, ops[1..]))
  }

  ghost predicate ContainedThroughout(d: Durable, ops: seq<LifeOp>)
    requires d.Agrees() && Life(d, ops).Ok?
    decreases |ops|
  {
    d.Contained() &&
    (ops == [] ||
     (LifeStepKeepsAgreement(d, ops[0]);
      ContainedThroughout(LifeStep(d, ops[0]).value, ops[1..])))
  }

  /** Containment agreement lasts through a whole life, puppets and all, if and only if the life is disciplined. */
  lemma {:induction false} ContainedThroughoutIffDisciplined(d: Durable, ops: seq<LifeOp>)
    requires d.Agrees() && d.Contained() && Life(d, ops).Ok?
    ensures ContainedThroughout(d, ops) <==> Disciplined(d, ops)
    ensures ContainedThroughout(d, ops) ==> Life(d, ops).value.Contained()
    decreases |ops|
  {
    hide LifeStep, Durable.Contained, Parts;
    if ops != [] {
      LifeStepKeepsAgreement(d, ops[0]);
      StepKeepsContainmentIffWhole(d, ops[0]);
      var v := LifeStep(d, ops[0]).value;
      if v.Contained() {
        ContainedThroughoutIffDisciplined(v, ops[1..]);
      } else {
        assert !ContainedThroughout(v, ops[1..]);
      }
    }
  }

  // Hydration when a query may fail.

  /** Which of the two queries of a hydration succeed: the entity's row, and its location row. */
  datatype Queries = Queries(entity: bool, location: bool)

  /** Memory and outcome of a hydration under these queries. */
  function HydrateUnder(d: Durable, key: EntityKey, queries: Queries): (Durable, Result<EntityId, DbError>)
    requires d.world.Inv()
  {
    if key in d.byKey then (d, Ok(d.byKey[key]))
    else if !queries.entity then (d, Err(Sqlx))
    else if key !in d.db.entities then (d, Err(DanglingReference(key)))
    else
      var minted := d.world.Create().1;
      if minted.Err? then (d, Err(LoadArenaExhausted(key)))
      else
        var bound := d.Bind(d.db, key);
        if !queries.location then (bound, Err(Sqlx))
        else if !d.Seatable(key) then (bound, Err(UnknownPlaceKey(d.db.location[key])))
        else (d.Seat(bound, minted.value, key), Ok(minted.value))
  }

  /** The call got as far as minting a handle. */
  predicate Mints(d: Durable, key: EntityKey, queries: Queries)
    requires d.world.Inv()
  {
    key !in d.byKey && queries.entity && key in d.db.entities && d.world.Create().1.Ok?
  }

  /** With both queries answered this is the hydration of an error-free life. */
  lemma HydrateUnderIsHydrate(d: Durable, key: EntityKey)
    requires d.world.Inv()
    ensures var (v, r) := HydrateUnder(d, key, Queries(true, true));
            if r.Ok? then d.Hydrate(key) == Ok((v, r.value)) else d.Hydrate(key) == Err(r.error)
  {
  }

  /**
   * Memory still agrees after a hydration if and only if it minted nothing, or the entity has no location row,
   * or that row was read and names a loaded room.
   */
  lemma HydrationAgreesIff(d: Durable, key: EntityKey, queries: Queries)
    requires d.Agrees()
    ensures HydrateUnder(d, key, queries).0.Agrees() <==>
            !Mints(d, key, queries) || key !in d.db.location || (queries.location && d.Seatable(key))
  {
    hide WorldState.Create, WorldState.Accept, Durable.RowMatches, WorldState.LocationOf, Bijective, Tables.Consistent;
    if Mints(d, key, queries) {
      if queries.location && d.Seatable(key) {
        NewcomerAgrees(d, key);
      } else {
        UnseatedAgreesIff(d, key);
      }
    }
  }

  lemma UnseatedAgreesIff(d: Durable, key: EntityKey)
    requires d.Agrees() && key in d.db.entities && key !in d.byKey && d.world.Create().1.Ok?
    ensures d.Bind(d.db, key).Agrees() <==> key !in d.db.location
  {
    BindKeepsMapped(d, d.db, key);
    var h, bound := d.world.Create().1.value, d.Bind(d.db, key);
    if key !in d.db.location {
      hide WorldState.Create, WorldState.Inv, WorldState.LocationOf;
      BoundNowhere(d, bound, h, key);
    } else {
      hide WorldState.Create, WorldState.Inv, WorldState.LocationOf;
      assert !bound.RowMatches(h);
    }
  }

  /**
   * Memory agrees with its tables but for the location rows of `keys`, whose entities are resident and nowhere.
   * With no such key this is agreement.
   */
  ghost predicate AtOdds(d: Durable, keys: set<EntityKey>) {
    keys <= d.byKey.Keys && keys <= d.db.location.Keys && WithoutRows(d, keys).Agrees()
  }

  function WithoutRows(d: Durable, keys: set<EntityKey>): Durable {
    d.(db := d.db.(location := d.db.location - keys))
  }

  lemma AgreesIffNothingAtOdds(d: Durable, keys: set<EntityKey>)
    requires AtOdds(d, keys)
    ensures d.world.Inv() && d.Mapped()
    ensures d.Agrees() <==> keys == {}
    ensures forall k :: k in keys ==> d.world.LocationOf(d.byKey[k]) == None
  {
    hide WorldState.Inv, WorldState.LocationOf;
    forall k | k in keys ensures d.world.LocationOf(d.byKey[k]) == None && !d.RowMatches(d.byKey[k]) {
      assert WithoutRows(d, keys).RowMatches(d.byKey[k]);
    }
    if keys == {} {
      assert d.db.location - keys == d.db.location;
      assert WithoutRows(d, keys) == d;
    }
  }

  /** Where memory no longer agrees the newcomer alone is at odds, and the next call reports success and repairs nothing. */
  lemma FailedHydrationStrands(d: Durable, key: EntityKey, queries: Queries, next: Queries)
    requires d.Agrees() && !HydrateUnder(d, key, queries).0.Agrees()
    ensures var (v, r) := HydrateUnder(d, key, queries);
            r.Err? && AtOdds(v, {key}) && v.world.Inv() && HydrateUnder(v, key, next) == (v, Ok(v.byKey[key]))
  {
    HydrationAgreesIff(d, key, queries);
    BindKeepsMapped(d, d.db, key);
    hide WorldState.Create, WorldState.Inv, WorldState.LocationOf, Durable.RowMatches, Durable.Agrees;
    StrandedWhenBound(d, d.Bind(d.db, key), d.world.Create().1.value, key);
  }

  lemma StrandedWhenBound(d: Durable, bound: Durable, h: EntityId, key: EntityKey)
    requires d.Agrees() && key !in d.byKey && h !in d.byId && key in d.db.location && key in d.db.entities
    requires bound.world.Inv() && bound.Mapped() && bound.world.LocationOf(h) == None
    requires bound.db == d.db && bound.places == d.places && bound.byId == d.byId[h := key] && bound.byKey == d.byKey[key := h]
    requires forall x :: x in d.byId ==> bound.world.LocationOf(x) == d.world.LocationOf(x)
    ensures AtOdds(bound, {key})
  {
    hide WorldState.Create, WorldState.Inv, WorldState.LocationOf, Durable.RowMatches, Bijective;
    UnseenRow(d, key);
    BoundNowhere(WithoutRows(d, {key}), WithoutRows(bound, {key}), h, key);
  }

  /** The row of a key that is not resident bears on nothing in memory. */
  lemma UnseenRow(d: Durable, key: EntityKey)
    requires d.Agrees() && key !in d.byKey
    ensures WithoutRows(d, {key}).Agrees()
  {
    hide WorldState.Inv, WorldState.LocationOf, Arena.IsLive;
    var bare := WithoutRows(d, {key});
    forall h | h in bare.byId ensures bare.RowMatches(h) {
      assert d.RowMatches(h) && d.byId[h] in d.byKey;
    }
  }

  /** One entity in the tables, in a loaded room, and nobody resident yet. */
  const UNSEATED := Durable(
    Empty(1), Tables({1}, 2, map[1 := "hall"], map[]), map[], map[], PlaceMap(map[1 := "hall"], map["hall" := 1]))

  /** Its location query fails: the entity is resident, and nowhere. */
  lemma FailedQueryStrands()
    ensures UNSEATED.Agrees()
    ensures HydrateUnder(UNSEATED, 1, Queries(true, false)).1 == Err(Sqlx)
    ensures !HydrateUnder(UNSEATED, 1, Queries(true, false)).0.Agrees()
  {
    EmptyInv(1);
    AllocMintsFresh(Empty(1).arena);
    assert forall h :: !Empty(1).arena.IsLive(h);
    HydrationAgreesIff(UNSEATED, 1, Queries(true, false));
  }

  // A server that ticks on after such a failure.

  /** The keys still at odds after an effect: moving, unplacing or ending an entity writes or deletes its row. */
  function Healed(d: Durable, keys: set<EntityKey>, effect: Effect): set<EntityKey> {
    match effect
    case Teardown(h) => if h in d.byId then keys - {d.byId[h]} else keys
    case MoveTo(h, _) => if h in d.byId then keys - {d.byId[h]} else keys
    case ClearLocation(h) => if h in d.byId then keys - {d.byId[h]} else keys
    case _ => keys
  }

  lemma PersistUnderRows(d: Durable, keys: set<EntityKey>, effect: Effect)
    requires d.Mapped() && keys <= d.byKey.Keys && keys <= d.db.location.Keys && !effect.Create? && d.Persist(effect).Ok?
    ensures var left, tables := Healed(d, keys, effect), d.Persist(effect).value;
            && left <= tables.location.Keys
            && WithoutRows(d, keys).Persist(effect) == Ok(tables.(location := tables.location - left))
  {
    var before, left, after := d.db.location, Healed(d, keys, effect), d.Persist(effect).value.location;
    match effect
    case Teardown(h) => assert (before - keys) - {d.byId[h]} == after - left;
    case MoveTo(h, place) => assert (before - keys)[d.byId[h] := d.places.slugOf[place]] == after - left;
    case ClearLocation(h) => assert (before - keys) - {d.byId[h]} == after - left;
    case _ =>
  }

  /** A command does the same to memory, and to every other row, as if the rows at odds were not there. */
  lemma CommandUnderRows(d: Durable, keys: set<EntityKey>, command: Command)
    requires d.world.Inv() && d.Mapped() && keys <= d.byKey.Keys && keys <= d.db.location.Keys && d.Apply(command).Ok?
    ensures var v, left := d.Apply(command).value.0, if d.Skips(command) then keys else Healed(d, keys, command.effect);
            && left <= v.byKey.Keys && left <= v.db.location.Keys
            && WithoutRows(d, keys).Apply(command).Ok?
            && WithoutRows(d, keys).Apply(command).value.0 == WithoutRows(v, left)
  {
    hide WorldState.Create, WorldState.Accept, WorldState.Rejection, WorldState.Satisfies;
    hide Durable.Persist, Durable.Commit, Bijective;
    if !d.Skips(command) && !command.effect.Create? {
      EffectUnderRows(d, keys, command.effect);
    }
  }

  lemma EffectUnderRows(d: Durable, keys: set<EntityKey>, effect: Effect)
    requires d.world.Inv() && d.Mapped() && keys <= d.byKey.Keys && keys <= d.db.location.Keys
    requires !effect.Create? && d.world.Rejection(effect) == None && d.Persist(effect).Ok?
    ensures WithoutRows(d, keys).Persist(effect).Ok?
    ensures var v, left := d.Commit(effect), Healed(d, keys, effect);
            && left <= v.byKey.Keys && left <= v.db.location.Keys
            && WithoutRows(d, keys).Commit(effect) == WithoutRows(v, left)
  {
    PersistUnderRows(d, keys, effect);
    hide Durable.Persist, WorldState.Accept, WorldState.Rejection, WorldState.Inv, Bijective;
  }

  lemma EnrolmentUnderRows(d: Durable, keys: set<EntityKey>, start: Slug)
    requires AtOdds(d, keys) && d.db.next <= MAX_ROWID
    ensures AtOdds(d.WithPuppetRows(start), keys)
  {
    hide WorldState.Inv, WorldState.LocationOf, Arena.IsLive;
    var v := d.WithPuppetRows(start);
    PuppetRowsKeepAgreement(WithoutRows(d, keys), start);
    hide Durable.Agrees;
    assert d.db.next !in keys;
    assert v.db.location - keys == (d.db.location - keys)[d.db.next := start];
  }

  lemma HydrationUnderRows(d: Durable, keys: set<EntityKey>, key: EntityKey, queries: Queries)
    requires d.world.Inv() && key !in keys
    ensures WithoutRows(d, keys).world.Inv()
    ensures HydrateUnder(WithoutRows(d, keys), key, queries) ==
            (WithoutRows(HydrateUnder(d, key, queries).0, keys), HydrateUnder(d, key, queries).1)
  {
    hide WorldState.Create, WorldState.Accept, WorldState.Inv;
  }

  /** What a server does: a command of a tick, a puppet's rows, or a hydration, some of whose queries may fail. */
  datatype Turn = Commanded(command: Command) | Enrolled(start: Slug) | Hydrated(key: EntityKey, queries: Queries)

  function TakeTurn(d: Durable, turn: Turn): Result<Durable, DbError>
    requires d.world.Inv()
  {
    match turn
    case Commanded(command) => (match d.Apply(command) case Ok((v, _)) => Ok(v) case Err(e) => Err(e))
    case Enrolled(start) => if d.db.next == 0 || d.db.next > MAX_ROWID then Err(Sqlx) else Ok(d.WithPuppetRows(start))
    case Hydrated(key, queries) => Ok(HydrateUnder(d, key, queries).0)
  }

  /** The keys at odds after a turn, each turn's share read off the state it starts in. */
  function Stranded(d: Durable, keys: set<EntityKey>, turn: Turn): set<EntityKey>
    requires d.world.Inv()
  {
    match turn
    case Commanded(command) => if d.Skips(command) then keys else Healed(d, keys, command.effect)
    case Enrolled(_) => keys
    case Hydrated(key, queries) =>
      if !Mints(d, key, queries) || key !in d.db.location || (queries.location && d.Seatable(key)) then keys else keys + {key}
  }

  lemma TurnKeepsAtOdds(d: Durable, keys: set<EntityKey>, turn: Turn)
    requires AtOdds(d, keys) && d.world.Inv() && TakeTurn(d, turn).Ok?
    ensures AtOdds(TakeTurn(d, turn).value, Stranded(d, keys, turn)) && TakeTurn(d, turn).value.world.Inv()
  {
    match turn
    case Commanded(command) =>
      hide WorldState.Inv, Durable.Apply, Durable.Skips, Healed;
      CommandUnderRows(d, keys, command);
      ApplyKeepsAgreement(WithoutRows(d, keys), command);
      ApplyKeepsInv(d, command);
    case Enrolled(start) => EnrolmentUnderRows(d, keys, start);
    case Hydrated(key, queries) => HydrationStrands(d, keys, key, queries);
  }

  lemma HydrationStrands(d: Durable, keys: set<EntityKey>, key: EntityKey, queries: Queries)
    requires AtOdds(d, keys) && d.world.Inv()
    ensures AtOdds(HydrateUnder(d, key, queries).0, Stranded(d, keys, Hydrated(key, queries)))
    ensures HydrateUnder(d, key, queries).0.world.Inv()
  {
    hide WorldState.Inv, WorldState.Create, WorldState.Accept, WorldState.LocationOf, Bijective, Durable.RowMatches, Tables.Consistent;
    if key !in d.byKey {
      var bare := WithoutRows(d, keys);
      HydrationUnderRows(d, keys, key, queries);
      HydrationAgreesIff(bare, key, queries);
      var v, w := HydrateUnder(d, key, queries).0, HydrateUnder(bare, key, queries).0;
      if !w.Agrees() {
        FailedHydrationStrands(bare, key, queries, queries);
        assert (v.db.location - keys) - {key} == v.db.location - (keys + {key});
      }
    }
  }

  /** The state after the turns, and the keys then at odds. */
  ghost function Turns(d: Durable, keys: set<EntityKey>, turns: seq<Turn>): (r: Result<(Durable, set<EntityKey>), DbError>)
    requires AtOdds(d, keys)
    ensures r.Ok? ==> AtOdds(r.value.0, r.value.1)
    decreases |turns|
  {
    AgreesIffNothingAtOdds(d, keys);
    if turns == [] then Ok((d, keys))
    else
      match TakeTurn(d, turns[0])
      case Err(e) => Err(e)
      case Ok(v) =>
        TurnKeepsAtOdds(d, keys, turns[0]);
        Turns(v, Stranded(d, keys, turns[0]), turns[1..])
  }

  /** However many hydrations fail on the way, every entity but the stranded ones is where its row says, and those are nowhere. */
  lemma OnlyTheStrandedAreAtOdds(d: Durable, turns: seq<Turn>)
    requires d.Agrees() && AtOdds(d, {}) && Turns(d, {}, turns).Ok?
    ensures var (v, keys) := Turns(d, {}, turns).value;
            && v.world.Inv() && v.Mapped()
            && (v.Agrees() <==> keys == {})
            && forall h :: h in v.byId ==> if v.byId[h] in keys then v.world.LocationOf(h) == None else v.RowMatches(h)
  {
    hide WorldState.Inv, WorldState.LocationOf;
    var (v, keys) := Turns(d, {}, turns).value;
    AgreesIffNothingAtOdds(v, keys);
    forall h | h in v.byId && v.byId[h] !in keys ensures v.RowMatches(h) {
      assert WithoutRows(v, keys).RowMatches(h);
    }
  }

  /** A tick that does not err strands nobody and may heal some. */
  lemma {:induction false} DrainKeepsAtOdds(d: Durable, keys: set<EntityKey>, commands: seq<Command>) returns (left: set<EntityKey>)
    requires AtOdds(d, keys) && d.world.Inv() && DrainBoth(d, commands).Ok?
    ensures left <= keys && AtOdds(DrainBoth(d, commands).value.0, left)
    decreases |commands|
  {
    hide AtOdds, Durable.Apply, Durable.Skips, WorldState.Inv;
    left := keys;
    if commands != [] {
      ApplyKeepsInv(d, commands[0]);
      TurnKeepsAtOdds(d, keys, Commanded(commands[0]));
      left := DrainKeepsAtOdds(d.Apply(commands[0]).value.0, Stranded(d, keys, Commanded(commands[0])), commands[1..]);
    }
  }

  // How an undisciplined addition parts memory from the tables.

  const A := EntityId(1, 0, 0)
  const B := EntityId(1, 1, 0)
  const ITEM := EntityId(1, 2, 0)

  /** Three entities nowhere, the first holding the third. */
  const HELD_ONCE := Durable(
    WorldState(Arena(1, [SlotState.Live(0), SlotState.Live(0), SlotState.Live(0)], []), [],
               map[A := [ITEM], B := [], ITEM := []], map[A := [], B := [], ITEM := []]),
    Tables({1, 2, 3}, 4, map[], map[3 := 1]), map[1 := A, 2 := B, 3 := ITEM], map[A := 1, B := 2, ITEM := 3],
    PlaceMap(map[], map[]))

  lemma HeldOnceInv()
    ensures HELD_ONCE.world.Inv()
    ensures forall h :: HELD_ONCE.world.arena.IsLive(h) <==> h == A || h == B || h == ITEM
  {
    forall h ensures HELD_ONCE.world.arena.IsLive(h) <==> h == A || h == B || h == ITEM {
      if h.tenant == 1 && h.slot < 3 && h.generation == 0 { assert h.slot == 0 || h.slot == 1 || h.slot == 2; }
    }
  }

  lemma HeldOnceContained()
    ensures HELD_ONCE.Contained()
  {
    forall c, i | c in HELD_ONCE.byId && i in HELD_ONCE.byId
      ensures i in HELD_ONCE.world.InventoryOf(c) <==> HELD_ONCE.RowHolds(c, i)
    {
      assert c == A || c == B || c == ITEM;
    }
  }

  lemma HeldOnceAgrees()
    ensures HELD_ONCE.Agrees()
  {
    HeldOnceInv();
    HeldOnceTables();
    HeldOnceMapped();
    hide WorldState.Inv;
    hide Arena.IsLive;
    hide Tables.Consistent;
    hide Bijective;
    forall h | h in HELD_ONCE.byId ensures HELD_ONCE.RowMatches(h) {
      assert HELD_ONCE.world.at == [];
    }
  }

  lemma HeldOnceTables()
    ensures HELD_ONCE.db.Consistent() && HELD_ONCE.byKey.Keys <= HELD_ONCE.db.entities
  {
  }

  lemma HeldOnceMapped()
    ensures HELD_ONCE.Mapped()
  {
    HeldOnceInv();
    hide Arena.IsLive;
    hide WorldState.Inv;
  }

  /** A second container is given the item: memory keeps it in both, the table in the last only. */
  lemma SecondHolderDiverges()
    ensures HELD_ONCE.Agrees() && HELD_ONCE.Contained()
    ensures var r := HELD_ONCE.Apply(Command(None, InventoryAdd(B, ITEM)));
            r.Ok? && r.value.0.Agrees() && !r.value.0.Contained()
  {
    HeldOnceAgrees();
    HeldOnceContained();
    HeldOnceInv();
    assert HELD_ONCE.world.held[A][0] == ITEM;
    assert ITEM in HELD_ONCE.world.held[A] && A != B;
    assert !Fits(HELD_ONCE.world, B, ITEM);
    hide Durable.Apply, Durable.Agrees, Durable.Contained, Fits;
    MisfitDiverges(HELD_ONCE, B, ITEM);
  }

  /** A stale item still listed in a container blocks the later tenant of its slot there: the table gets a row, memory does not. */
  lemma StaleSlotDiverges(d: Durable, c: EntityId, i: EntityId, stale: EntityId)
    requires d.Agrees() && d.Contained() && d.world.arena.IsLive(c) && d.world.arena.IsLive(i)
    requires stale in d.world.InventoryOf(c) && stale.slot == i.slot && i !in d.world.InventoryOf(c)
    ensures var r := d.Apply(Command(None, InventoryAdd(c, i)));
            r.Ok? && r.value.0.Agrees() && !r.value.0.Contained()
  {
    hide Durable.Apply, Durable.Agrees, Durable.Contained, WorldState.InventoryOf, Arena.IsLive;
    var list := d.world.InventoryOf(c);
    var k :| 0 <= k < |list| && list[k] == stale;
    assert HoldsSlot(list, i.slot);
    MisfitDiverges(d, c, i);
  }

  /** An addition that does not fit is applied without an error, and parts memory from the table. */
  lemma MisfitDiverges(d: Durable, c: EntityId, i: EntityId)
    requires d.Agrees() && d.Contained() && d.world.arena.IsLive(c) && d.world.arena.IsLive(i) && !Fits(d.world, c, i)
    ensures var r := d.Apply(Command(None, InventoryAdd(c, i)));
            r.Ok? && r.value.0.Agrees() && !r.value.0.Contained()
  {
    hide Durable.Apply, Durable.Contained, Durable.Skips, Fits, Bijective, Tables.Consistent, Durable.RowMatches;
    var command := Command(None, InventoryAdd(c, i));
    EffectErrsOnlyOnUnmapped(d, command);
    NotSkipped(d, command);
    ApplyKeepsAgreement(d, command);
    ApplyKeepsContainmentIffFits(d, command);
  }

  lemma NotSkipped(d: Durable, command: Command)
    requires d.world.Inv() && command.precondition.None? && command.effect.InventoryAdd?
    requires d.world.arena.IsLive(command.effect.container) && d.world.arena.IsLive(command.effect.item)
    ensures !d.Skips(command)
  {
  }

  /** The second tenant of a slot beside a box that still lists the first. */
  const SLOT_TAKEN := Durable(
    WorldState(Arena(1, [SlotState.Live(0), SlotState.Live(1)], []), [],
               map[BOX := [FORMER], TENANT := []], map[BOX := [], TENANT := []]),
    Tables({1, 3}, 4, map[], map[]), map[1 := BOX, 3 := TENANT], map[BOX := 1, TENANT := 3], PlaceMap(map[], map[]))

  lemma SlotTakenAgrees()
    ensures SLOT_TAKEN.Agrees() && SLOT_TAKEN.Contained()
    ensures SLOT_TAKEN.world.arena.IsLive(BOX) && SLOT_TAKEN.world.arena.IsLive(TENANT)
  {
    SlotTakenInv();
    hide WorldState.Inv, Arena.IsLive;
    forall c, i | c in SLOT_TAKEN.byId && i in SLOT_TAKEN.byId
      ensures i in SLOT_TAKEN.world.InventoryOf(c) <==> SLOT_TAKEN.RowHolds(c, i)
    {
      assert c == BOX || c == TENANT;
    }
  }

  lemma SlotTakenInv()
    ensures SLOT_TAKEN.world.Inv()
    ensures forall h :: SLOT_TAKEN.world.arena.IsLive(h) <==> h == BOX || h == TENANT
  {
    forall h ensures SLOT_TAKEN.world.arena.IsLive(h) <==> h == BOX || h == TENANT {
      if h.tenant == 1 && h.slot < 2 { assert h.slot == 0 || h.slot == 1; }
    }
  }

  /** So it is in that small world. */
  lemma SlotTakenDiverges()
    ensures SLOT_TAKEN.Agrees() && SLOT_TAKEN.Contained()
    ensures var r := SLOT_TAKEN.Apply(Command(None, InventoryAdd(BOX, TENANT)));
            r.Ok? && r.value.0.Agrees() && !r.value.0.Contained()
  {
    SlotTakenAgrees();
    assert SLOT_TAKEN.world.held[BOX][0] == FORMER;
    hide Durable.Apply, Durable.Agrees, Durable.Contained;
    StaleSlotDiverges(SLOT_TAKEN, BOX, TENANT, FORMER);
  }

  lemma ItemEnds(d: Durable, c: EntityId, i: EntityId)
    requires d.world.Inv() && d.Mapped() && d.world.arena.IsLive(c) && d.world.arena.IsLive(i) && c != i && i in d.world.InventoryOf(c)
    ensures var r := d.Apply(Command(None, Effect.Teardown(i)));
            r.Ok? && r.value.0.byId == d.byId - {i} && r.value.0.world == d.world.Accept(Effect.Teardown(i))
    ensures var w := d.world.Accept(Effect.Teardown(i));
            && w.Inv() && w.arena.IsLive(c) && !w.arena.IsLive(i) && w.Satisfies(Precondition.Contains(c, i))
  {
    hide WorldState.Inv;
    AcceptKeepsInv(d.world, Effect.Teardown(i));
    LiveAfterAccept(d.world, Effect.Teardown(i));
  }

  lemma RemovingUnmappedErrs(v: Durable, c: EntityId, i: EntityId)
    requires v.world.Inv() && v.world.Satisfies(Precondition.Contains(c, i)) && v.world.arena.IsLive(c) && i !in v.byId
    ensures v.Apply(TakeOut(c, i)) == Err(EntityNotMapped)
  {
    hide WorldState.Inv, WorldState.Satisfies;
  }

  /** Taking `i` out of `c`, guarded by `c` still listing it. */
  function TakeOut(c: EntityId, i: EntityId): Command {
    Command(Some(Precondition.Contains(c, i)), InventoryRemove(c, i))
  }

  /** A held item ends; its container still lists it, so taking it out passes its guard and stops the tick. */
  lemma StaleItemStopsTick(d: Durable, c: EntityId, i: EntityId)
    requires d.Agrees() && d.world.arena.IsLive(c) && d.world.arena.IsLive(i) && c != i && i in d.world.InventoryOf(c)
    ensures var r := d.Apply(Command(None, Effect.Teardown(i)));
            && r.Ok? && r.value.0.Agrees()
            && r.value.0.world.Satisfies(TakeOut(c, i).precondition.value)
            && r.value.0.Apply(TakeOut(c, i)) == Err(EntityNotMapped)
  {
    ItemEnds(d, c, i);
    hide WorldState.Accept, Durable.Apply, WorldState.Satisfies;
    ApplyKeepsAgreement(d, Command(None, Effect.Teardown(i)));
    RemovingUnmappedErrs(d.Apply(Command(None, Effect.Teardown(i))).value.0, c, i);
  }

  /** So it is in the small world above. */
  lemma HeldItemGoesStale()
    ensures HELD_ONCE.Agrees()
    ensures var r := HELD_ONCE.Apply(Command(None, Effect.Teardown(ITEM)));
            r.Ok? && r.value.0.Agrees() && r.value.0.Apply(TakeOut(A, ITEM)) == Err(EntityNotMapped)
  {
    HeldOnceAgrees();
    HeldOnceInv();
    assert HELD_ONCE.world.held[A][0] == ITEM;
    assert ITEM in HELD_ONCE.world.InventoryOf(A);
    hide Durable.Apply, Durable.Agrees;
    StaleItemStopsTick(HELD_ONCE, A, ITEM);
  }

  // Restart.

  /** The room a key's entity is in, by the name that outlives place handles. */
  ghost predicate InRoom(d: Durable, key: EntityKey, slug: Slug)
    requires key in d.byKey
  {
    match d.world.LocationOf(d.byKey[key])
    case None => false
    case Some(place) => place in d.places.slugOf && d.places.slugOf[place] == slug
  }

  /** Nowhere in both, or in rooms of the same name, whatever handles the two place maps give them. */
  ghost predicate SameRoom(before: Durable, after: Durable, key: EntityKey)
    requires key in before.byKey && key in after.byKey
  {
    match before.world.LocationOf(before.byKey[key])
    case None => after.world.LocationOf(after.byKey[key]) == None
    case Some(place) => place in before.places.slugOf && InRoom(after, key, before.places.slugOf[place])
  }

  /** Every key of the world that stopped is resident again in its room, the stranded where their rows say. */
  ghost predicate Restored(before: Durable, after: Durable, stranded: set<EntityKey>) {
    forall k :: k in before.byKey ==>
      && k in after.byKey
      && if k in stranded then k in before.db.location && InRoom(after, k, before.db.location[k]) else SameRoom(before, after, k)
  }

  /** A world booted from the tables another left, under whatever place map, puts back what that one had. */
  lemma RestartRestores(before: Durable, after: Durable, stranded: set<EntityKey>)
    requires AtOdds(before, stranded) && after.Agrees() && AllResident(after) && before.db == after.db
    ensures Restored(before, after, stranded)
  {
    hide WorldState.Inv, WorldState.LocationOf, Arena.IsLive, PlaceMap.OneToOne;
    var bare := WithoutRows(before, stranded);
    forall k | k in before.byKey
      ensures k in after.byKey
      ensures if k in stranded then k in before.db.location && InRoom(after, k, before.db.location[k]) else SameRoom(before, after, k)
    {
      assert k in bare.byKey && k in after.db.entities;
      assert bare.RowMatches(before.byKey[k]) && after.RowMatches(after.byKey[k]);
    }
  }

  /** Under the same place map, in the very same place. */
  lemma SameMapSamePlace(before: Durable, after: Durable, key: EntityKey)
    requires key in before.byKey && key in after.byKey && SameRoom(before, after, key)
    requires before.places == after.places && before.places.OneToOne()
    ensures after.world.LocationOf(after.byKey[key]) == before.world.LocationOf(before.byKey[key])
  {
  }

  lemma TablesAtOddsConsistent(d: Durable, keys: set<EntityKey>)
    requires AtOdds(d, keys)
    ensures d.db.Consistent() && d.byKey.Keys <= d.db.entities
  {
    forall k | k in d.db.location ensures k in d.db.entities {
      assert k in keys || k in d.db.location - keys;
    }
  }

  /** Two worlds over the same tables, each in containment agreement, nest every common pair of keys alike. */
  lemma ReloadKeepsContainment(before: Durable, after: Durable, box: EntityKey, item: EntityKey)
    requires before.Mapped() && after.Mapped() && before.db == after.db
    requires before.Contained() && after.Contained()
    requires box in before.byKey && box in after.byKey && item in before.byKey && item in after.byKey
    ensures after.byKey[item] in after.world.InventoryOf(after.byKey[box]) <==>
            before.byKey[item] in before.world.InventoryOf(before.byKey[box])
  {
    assert before.RowHolds(before.byKey[box], before.byKey[item]) <==> after.RowHolds(after.byKey[box], after.byKey[item]);
  }
}
