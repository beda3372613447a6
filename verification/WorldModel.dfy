/** One tenant's world as a relation on live handles: no slot is visible here. */
module WorldModel {
  import opened Wrappers
  import opened EntityIds
  import opened ArenaModel
  import opened LocationModel
  import opened SlotTables

  datatype Effect =
    | Create
    | Teardown(entity: EntityId)
    | MoveTo(entity: EntityId, place: PlaceId)
    | ClearLocation(entity: EntityId)
    | InventoryAdd(container: EntityId, item: EntityId)
    | InventoryRemove(container: EntityId, item: EntityId)

  datatype Precondition =
    | LocatedIn(entity: EntityId, place: PlaceId)
    | Contains(container: EntityId, item: EntityId)

  datatype Command = Command(precondition: Option<Precondition>, effect: Effect)

  datatype TickEvent =
    | Created(entity: EntityId)
    | PreconditionFailed(precondition: Precondition, effect: Effect)
    | Rejected(effect: Effect, error: ArenaError)

  function Depart(log: Arrivals, h: EntityId): Arrivals {
    if log == [] then []
    else if log[0].0 == h then Depart(log[1..], h)
    else [log[0]] + Depart(log[1..], h)
  }

  function Find(log: Arrivals, h: EntityId): Option<PlaceId> {
    if log == [] then None
    else if log[0].0 == h then Some(log[0].1)
    else Find(log[1..], h)
  }

  function Without(list: seq<EntityId>, h: EntityId): seq<EntityId> {
    if list == [] then []
    else if list[0] == h then Without(list[1..], h)
    else [list[0]] + Without(list[1..], h)
  }

  /** `held` and `names` have one entry per live handle; `at` is the arrival log of the located ones. */
  datatype WorldState = WorldState(
      arena: Arena,
      at: Arrivals,
      held: map<EntityId, seq<EntityId>>,
      names: map<EntityId, seq<Keyword>>)
  {
    ghost predicate Inv() {
      && arena.Consistent()
      && (forall h :: h in held <==> arena.IsLive(h))
      && (forall h :: h in names <==> arena.IsLive(h))
      && OnePerSlot(at)
      && (forall x :: x in at ==> arena.IsLive(x.0))
      && (forall c, i :: c in held && i in held[c] ==> arena.Minted(i))
    }

    /** The handle living at `slot`, if any. */
    function Resident(slot: SlotIndex): Option<EntityId> {
      if slot < |arena.slots| && arena.slots[slot].Live? then
        Some(EntityId(arena.tenant, slot, arena.slots[slot].generation))
      else None
    }

    function HeldAt(slot: SlotIndex): seq<EntityId> {
      if Resident(slot).Some? then InventoryOf(Resident(slot).value) else []
    }

    function NamesAt(slot: SlotIndex): seq<Keyword> {
      if Resident(slot).Some? then KeywordsOf(Resident(slot).value) else []
    }

    function LocationOf(h: EntityId): Option<PlaceId> {
      if arena.IsLive(h) then Find(at, h) else None
    }

    function InventoryOf(h: EntityId): seq<EntityId> {
      if h in held then held[h] else []
    }

    function KeywordsOf(h: EntityId): seq<Keyword> {
      if h in names then names[h] else []
    }

    function OccupantsOf(place: PlaceId): seq<EntityId> {
      At(at, place)
    }

    function Refusal(h: EntityId): Option<ArenaError> {
      match arena.Check(h)
      case Ok(_) => None
      case Err(e) => Some(e)
    }

    function Create(): (WorldState, Result<EntityId, ArenaError>)
      requires arena.Consistent()
    {
      var (next, minted) := arena.Alloc();
      match minted
      case Ok(h) => (WorldState(next, at, held[h := []], names[h := []]), minted)
      case Err(_) => (this, minted)
    }

    /** The world once `h` has been given keywords, if it is alive to be given any. */
    function Name(h: EntityId, keywords: seq<Keyword>): WorldState {
      if Refusal(h) == None then this.(names := names[h := keywords]) else this
    }

    /** The world once `effect` has been accepted. */
    function Accept(effect: Effect): WorldState
      requires effect.Create? ==> arena.Consistent()
      requires effect.InventoryAdd? || effect.InventoryRemove? ==> effect.container in held
    {
      match effect
      case Create => Create().0
      case Teardown(h) => WorldState(arena.Release(h), Depart(at, h), held - {h}, names - {h})
      case MoveTo(h, place) => this.(at := Depart(at, h) + [(h, place)])
      case ClearLocation(h) => this.(at := Depart(at, h))
      case InventoryAdd(c, i) =>
        this.(held := held[c := if HoldsSlot(held[c], i.slot) then held[c] else held[c] + [i]])
      case InventoryRemove(c, i) => this.(held := held[c := Retain(held[c], i.slot)])
    }

    /** Why the arena refuses `effect`; the item of a removal is the one handle nobody checks. */
    function Rejection(effect: Effect): Option<ArenaError>
      requires arena.Consistent()
    {
      match effect
      case Create => (match arena.Alloc().1 case Ok(_) => None case Err(e) => Some(e))
      case Teardown(h) => Refusal(h)
      case MoveTo(h, _) => Refusal(h)
      case ClearLocation(h) => Refusal(h)
      case InventoryAdd(c, i) => if Refusal(c).Some? then Refusal(c) else Refusal(i)
      case InventoryRemove(c, _) => Refusal(c)
    }

    function Apply(effect: Effect): (WorldState, Option<TickEvent>)
      requires arena.Consistent() && forall h :: h in held <==> arena.IsLive(h)
    {
      match Rejection(effect)
      case Some(error) => (this, Some(Rejected(effect, error)))
      case None =>
        (Accept(effect), if effect.Create? then Some(Created(Create().1.value)) else None)
    }

    predicate Satisfies(p: Precondition) {
      match p
      case LocatedIn(h, place) => LocationOf(h) == Some(place)
      case Contains(c, i) => i in InventoryOf(c)
    }

    function Perform(command: Command): (WorldState, Option<TickEvent>)
      requires arena.Consistent() && forall h :: h in held <==> arena.IsLive(h)
    {
      if command.precondition.Some? && !Satisfies(command.precondition.value) then
        (this, Some(PreconditionFailed(command.precondition.value, command.effect)))
      else
        Apply(command.effect)
    }
  }

  function Optional<T>(o: Option<T>): seq<T> {
    if o.Some? then [o.value] else []
  }

  function Empty(tenant: TenantTag): WorldState {
    WorldState(Arena(tenant, [], []), [], map[], map[])
  }

  // Facts about the handle-keyed views.

  lemma {:induction false} DepartFacts(log: Arrivals, h: EntityId)
    ensures forall x :: x in Depart(log, h) <==> x in log && x.0 != h
    ensures OnePerSlot(log) ==> OnePerSlot(Depart(log, h))
  {
    if log != [] {
      DepartFacts(log[1..], h);
      assert log == [log[0]] + log[1..];
      if OnePerSlot(log) {
        assert OnePerSlot(log[1..]);
        assert forall x :: x in log[1..] ==> x.0.slot != log[0].0.slot;
      }
    }
  }

  /** When nobody but `h` sits at its slot, looking at the slot and looking at the handle agree. */
  lemma {:induction false} SlotIsHandle(log: Arrivals, h: EntityId)
    requires forall i :: 0 <= i < |log| && log[i].0.slot == h.slot ==> log[i].0 == h
    ensures Depart(log, h) == Leave(log, h.slot)
    ensures Find(log, h) == PlaceOf(log, h.slot)
  {
    if log != [] {
      assert log[0].0.slot == h.slot ==> log[0].0 == h;
      forall i | 0 <= i < |log[1..]| && log[1..][i].0.slot == h.slot ensures log[1..][i].0 == h {
        assert log[i + 1].0 == h;
      }
      SlotIsHandle(log[1..], h);
    }
  }

  lemma {:induction false} FindMember(log: Arrivals, h: EntityId, place: PlaceId)
    requires OnePerSlot(log)
    ensures Find(log, h) == Some(place) <==> (h, place) in log
  {
    if log != [] {
      assert forall x :: x in log[1..] ==> x.0.slot != log[0].0.slot;
      FindMember(log[1..], h, place);
      assert log == [log[0]] + log[1..];
    }
  }

  lemma {:induction false} AbsentIsNowhere(log: Arrivals, h: EntityId)
    requires forall x | x in log :: x.0 != h
    ensures Find(log, h) == None
  {
    if log != [] {
      assert log[0] in log;
      AbsentIsNowhere(log[1..], h);
    }
  }

  lemma {:induction false} DepartAt(log: Arrivals, h: EntityId, place: PlaceId)
    ensures At(Depart(log, h), place) == Without(At(log, place), h)
  {
    if log != [] {
      DepartAt(log[1..], h, place);
    }
  }

  lemma {:induction false} AtAppend(log: Arrivals, h: EntityId, at: PlaceId, place: PlaceId)
    ensures At(log + [(h, at)], place) == if at == place then At(log, place) + [h] else At(log, place)
  {
    var longer := log + [(h, at)];
    if log == [] {
      assert longer == [(h, at)];
    } else {
      AtAppend(log[1..], h, at, place);
      assert longer[1..] == log[1..] + [(h, at)];
    }
  }

  lemma {:induction false} AtDistinct(log: Arrivals, place: PlaceId)
    requires OnePerSlot(log)
    ensures forall i, j :: 0 <= i < j < |At(log, place)| ==> At(log, place)[i].slot != At(log, place)[j].slot
  {
    if log != [] {
      AtDistinct(log[1..], place);
      AtMember(log[1..], place);
      assert forall x :: x in log[1..] ==> x.0.slot != log[0].0.slot;
      forall e | e in At(log[1..], place) ensures e.slot != log[0].0.slot {
        assert (e, place) in log[1..];
      }
    }
  }

  lemma {:induction false} DepartFind(log: Arrivals, h: EntityId, other: EntityId)
    ensures Find(Depart(log, h), other) == if other == h then None else Find(log, other)
  {
    if log != [] {
      DepartFind(log[1..], h, other);
    }
  }

  lemma {:induction false} FindAppend(log: Arrivals, h: EntityId, at: PlaceId, other: EntityId)
    requires Find(log, h) == None
    ensures Find(log + [(h, at)], other) == if other == h then Some(at) else Find(log, other)
  {
    var longer := log + [(h, at)];
    if log == [] {
      assert longer == [(h, at)];
    } else {
      FindAppend(log[1..], h, at, other);
      assert longer[1..] == log[1..] + [(h, at)];
    }
  }

  /** Where everyone is after one accepted effect. */
  lemma LocationAfter(w: WorldState, effect: Effect, h: EntityId)
    requires w.Inv() && w.Rejection(effect) == None
    requires w.arena.IsLive(h)
    ensures var v := w.Accept(effect);
            && Find(v.at, h) ==
               (match effect
                case Teardown(e) => if e == h then None else Find(w.at, h)
                case ClearLocation(e) => if e == h then None else Find(w.at, h)
                case MoveTo(e, place) => if e == h then Some(place) else Find(w.at, h)
                case _ => Find(w.at, h))
  {
    match effect
    case Teardown(e) => DepartFind(w.at, e, h);
    case ClearLocation(e) => DepartFind(w.at, e, h);
    case MoveTo(e, place) =>
      DepartFind(w.at, e, h);
      DepartFind(w.at, e, e);
      FindAppend(Depart(w.at, e), e, place, h);
    case _ =>
  }

  // The invariant, one effect at a time and over whole runs.

  lemma LocationsAfterMove(w: WorldState, h: EntityId, place: PlaceId)
    requires w.Inv() && w.arena.IsLive(h)
    ensures var v := w.Accept(MoveTo(h, place));
            && v.Inv() && v.arena == w.arena && v.held == w.held
            && forall x :: v.LocationOf(x) == if x == h then Some(place) else w.LocationOf(x)
  {
    AcceptKeepsInv(w, MoveTo(h, place));
    forall x ensures w.Accept(MoveTo(h, place)).LocationOf(x) == if x == h then Some(place) else w.LocationOf(x) {
      if w.arena.IsLive(x) { LocationAfter(w, MoveTo(h, place), x); }
    }
  }

  lemma LiveAfterAccept(w: WorldState, effect: Effect)
    requires w.Inv() && w.Rejection(effect) == None
    ensures var v := w.Accept(effect);
            && v.arena.Consistent()
            && (forall h :: w.arena.Minted(h) ==> v.arena.Minted(h))
            && (forall h :: v.arena.IsLive(h) <==>
                   (w.arena.IsLive(h) && effect != Teardown(h)) || (effect.Create? && h == w.Create().1.value))
  {
    match effect
    case Create => AllocMintsFresh(w.arena);
    case Teardown(h) => ReleaseForgetsOnlyIts(w.arena, h);
    case _ =>
  }

  lemma LogAfterAccept(w: WorldState, effect: Effect)
    requires w.Inv() && w.Rejection(effect) == None
    ensures OnePerSlot(w.Accept(effect).at)
    ensures forall x :: x in w.Accept(effect).at ==> x in w.at || (effect.MoveTo? && x.0 == effect.entity)
    ensures forall x :: x in w.Accept(effect).at ==> effect != Teardown(x.0)
  {
    match effect
    case Teardown(h) => DepartFacts(w.at, h);
    case ClearLocation(h) => DepartFacts(w.at, h);
    case MoveTo(h, place) =>
      DepartFacts(w.at, h);
      var left := Depart(w.at, h);
      forall i | 0 <= i < |left| ensures left[i].0.slot != h.slot {
        assert left[i] in left;
        assert left[i].0 != h && w.arena.IsLive(left[i].0);
      }
    case _ =>
  }

  /** Contents only ever shrink, except for the one live item an addition names. */
  lemma HeldAfterAccept(w: WorldState, effect: Effect, c: EntityId, i: EntityId)
    requires w.Inv() && w.Rejection(effect) == None
    requires c in w.Accept(effect).held && i in w.Accept(effect).held[c]
    ensures (c in w.held && i in w.held[c]) || effect == InventoryAdd(c, i)
  {
    match effect
    case InventoryRemove(d, item) => RetainFacts(w.held[d], item.slot);
    case _ =>
  }

  /** An addition shows only in its own container, and not even there when something else sits at the item's slot. */
  lemma HeldAfterAdd(w: WorldState, box: EntityId, item: EntityId, c: EntityId, i: EntityId)
    requires w.Inv() && w.arena.IsLive(box) && w.arena.IsLive(item)
    ensures i in w.Accept(InventoryAdd(box, item)).InventoryOf(c) <==>
            i in w.InventoryOf(c) || ((c, i) == (box, item) && !HoldsSlot(w.InventoryOf(box), item.slot))
  {
  }

  /** Removing a live item takes it, and no other live item, out of that one container. */
  lemma HeldAfterRemove(w: WorldState, box: EntityId, item: EntityId, c: EntityId, i: EntityId)
    requires w.Inv() && w.arena.IsLive(box) && w.arena.IsLive(item) && w.arena.IsLive(i)
    ensures i in w.Accept(InventoryRemove(box, item)).InventoryOf(c) <==>
            i in w.InventoryOf(c) && (c, i) != (box, item)
  {
    RetainFacts(w.held[box], item.slot);
  }

  lemma {:induction false} WithoutFacts(list: seq<EntityId>, h: EntityId)
    ensures forall e :: e in Without(list, h) <==> e in list && e != h
  {
    if list != [] { WithoutFacts(list[1..], h); }
  }

  lemma {:induction false} RetainIsWithout(list: seq<EntityId>, h: EntityId)
    requires forall e :: e in list && e.slot == h.slot ==> e == h
    ensures Retain(list, h.slot) == Without(list, h)
  {
    if list != [] {
      assert list[0] in list;
      RetainIsWithout(list[1..], h);
    }
  }

  /** A removal takes out exactly the named item, and nothing when it is absent, if and only if the container holds no other handle of its slot. */
  lemma RemovalIsExactIff(w: WorldState, box: EntityId, item: EntityId)
    requires w.Inv() && w.arena.IsLive(box)
    ensures w.Accept(InventoryRemove(box, item)).InventoryOf(box) == Without(w.InventoryOf(box), item) <==>
            forall e :: e in w.InventoryOf(box) && e.slot == item.slot ==> e == item
    ensures forall c :: c != box ==> w.Accept(InventoryRemove(box, item)).InventoryOf(c) == w.InventoryOf(c)
  {
    var list := w.InventoryOf(box);
    RetainFacts(list, item.slot);
    WithoutFacts(list, item);
    if forall e :: e in list && e.slot == item.slot ==> e == item {
      RetainIsWithout(list, item);
    } else {
      var e :| e in list && e.slot == item.slot && e != item;
      assert e in Without(list, item) && e !in Retain(list, item.slot);
    }
  }

  const BOX := EntityId(1, 0, 0)
  const FORMER := EntityId(1, 1, 0)
  const TENANT := EntityId(1, 1, 1)

  /** A box holding the second tenant of a slot whose first one has ended. */
  const REUSED := WorldState(
    Arena(1, [SlotState.Live(0), SlotState.Live(1)], []), [], map[BOX := [TENANT], TENANT := []], map[BOX := [], TENANT := []])

  /** So removing the former tenant, long gone and not in the box, takes out the present one. */
  lemma RemovingTheFormerTakesTheTenant()
    ensures REUSED.Inv() && !REUSED.arena.IsLive(FORMER) && FORMER !in REUSED.InventoryOf(BOX)
    ensures REUSED.Rejection(InventoryRemove(BOX, FORMER)) == None
    ensures TENANT in REUSED.InventoryOf(BOX) && TENANT !in REUSED.Accept(InventoryRemove(BOX, FORMER)).InventoryOf(BOX)
  {
    forall h ensures REUSED.arena.IsLive(h) <==> h == BOX || h == TENANT {
      if h.tenant == 1 && h.slot < 2 { assert h.slot == 0 || h.slot == 1; }
    }
    assert REUSED.held[BOX][0] == TENANT;
    RetainFacts(REUSED.held[BOX], FORMER.slot);
  }

  /** An accepted effect that is no addition changes what `c` holds only by the removal that names it. */
  lemma HeldAfterOther(w: WorldState, effect: Effect, c: EntityId, i: EntityId)
    requires w.Inv() && w.Rejection(effect) == None && !effect.InventoryAdd? && !effect.Create?
    requires effect.InventoryRemove? ==> w.arena.IsLive(effect.item)
    requires w.arena.IsLive(c) && w.arena.IsLive(i) && effect != Teardown(c)
    ensures i in w.Accept(effect).InventoryOf(c) <==> i in w.InventoryOf(c) && effect != InventoryRemove(c, i)
  {
    match effect
    case InventoryRemove(box, item) => HeldAfterRemove(w, box, item, c, i);
    case _ =>
  }

  lemma AcceptKeepsInv(w: WorldState, effect: Effect)
    requires w.Inv() && w.Rejection(effect) == None
    ensures w.Accept(effect).Inv()
  {
    var v := w.Accept(effect);
    LiveAfterAccept(w, effect);
    LogAfterAccept(w, effect);
    forall c, i | c in v.held && i in v.held[c] ensures v.arena.Minted(i) {
      HeldAfterAccept(w, effect, c, i);
      assert w.arena.Minted(i);
    }
  }

  // How an accepted effect shows at slot granularity.

  lemma TeardownAtSlots(w: WorldState, h: EntityId)
    requires w.Inv() && w.arena.IsLive(h)
    ensures var v := w.Accept(Teardown(h));
            forall s: SlotIndex :: && v.HeldAt(s) == (if s == h.slot then [] else w.HeldAt(s))
                                   && v.NamesAt(s) == (if s == h.slot then [] else w.NamesAt(s))
  {
    var v := w.Accept(Teardown(h));
    forall s: SlotIndex
      ensures v.Resident(s) == if s == h.slot then None else w.Resident(s)
    {
    }
  }

  lemma CreateAtSlots(w: WorldState)
    requires w.Inv()
    ensures var v := w.Create().0;
            forall s: SlotIndex :: v.HeldAt(s) == w.HeldAt(s) && v.NamesAt(s) == w.NamesAt(s)
  {
    AllocMintsFresh(w.arena);
    var (v, minted) := w.Create();
    forall s: SlotIndex
      ensures v.Resident(s) == if minted.Ok? && s == minted.value.slot then Some(minted.value) else w.Resident(s)
      ensures minted.Ok? && s == minted.value.slot ==> w.Resident(s) == None
    {
    }
  }

  lemma HoldAtSlots(w: WorldState, c: EntityId, items: seq<EntityId>)
    requires w.Inv() && w.arena.IsLive(c)
    ensures var v := w.(held := w.held[c := items]);
            forall s: SlotIndex :: v.HeldAt(s) == (if s == c.slot then items else w.HeldAt(s)) && v.NamesAt(s) == w.NamesAt(s)
  {
    assert w.Resident(c.slot) == Some(c);
  }

  lemma PerformKeepsInv(w: WorldState, command: Command)
    requires w.Inv()
    ensures w.Perform(command).0.Inv()
  {
    if w.Rejection(command.effect) == None {
      AcceptKeepsInv(w, command.effect);
    }
  }

  lemma EmptyInv(tenant: TenantTag)
    ensures Empty(tenant).Inv()
  {
  }

  /** Applies the commands in arrival order and collects the events in that order. */
  ghost function Drain(w: WorldState, commands: seq<Command>): (r: (WorldState, seq<TickEvent>))
    requires w.Inv()
    ensures r.0.Inv()
    decreases |commands|
  {
    if commands == [] then (w, [])
    else
      PerformKeepsInv(w, commands[0]);
      var (next, event) := w.Perform(commands[0]);
      var (end, events) := Drain(next, commands[1..]);
      (end, Optional(event) + events)
  }

  lemma {:induction false} DrainAppend(w: WorldState, commands: seq<Command>, last: Command)
    requires w.Inv()
    ensures var (mid, events) := Drain(w, commands);
            var (end, event) := mid.Perform(last);
            Drain(w, commands + [last]) == (end, events + Optional(event))
    decreases |commands|
  {
    var longer := commands + [last];
    if commands == [] {
      PerformKeepsInv(w, last);
      assert longer == [last] && longer[1..] == [];
      var event := w.Perform(last).1;
      assert Optional(event) + [] == [] + Optional(event);
    } else {
      PerformKeepsInv(w, commands[0]);
      var (next, first) := w.Perform(commands[0]);
      DrainAppend(next, commands[1..], last);
      assert longer[0] == commands[0] && longer[1..] == commands[1..] + [last];
      var (mid, events) := Drain(next, commands[1..]);
      var event := mid.Perform(last).1;
      assert Optional(first) + (events + Optional(event)) == (Optional(first) + events) + Optional(event);
    }
  }

  // What a reader of the world can rely on in every reachable state.

  /** A place's occupants are exactly the live handles located there, each listed once. */
  lemma OccupantsAreTheLocated(w: WorldState, place: PlaceId)
    requires w.Inv()
    ensures forall h :: h in w.OccupantsOf(place) <==> w.LocationOf(h) == Some(place)
    ensures var list := w.OccupantsOf(place); forall i, j :: 0 <= i < j < |list| ==> list[i] != list[j]
  {
    AtMember(w.at, place);
    AtDistinct(w.at, place);
    forall h ensures h in w.OccupantsOf(place) <==> w.LocationOf(h) == Some(place) {
      FindMember(w.at, h, place);
      if (h, place) in w.at { assert w.arena.IsLive(h); }
    }
  }

  /** A command guarded by a place takes effect exactly when its entity is among the occupants there, and else changes nothing and says so. */
  lemma GuardedTakesEffectIff(w: WorldState, command: Command, h: EntityId, place: PlaceId)
    requires w.Inv() && command.precondition == Some(LocatedIn(h, place))
    ensures w.Satisfies(LocatedIn(h, place)) <==> h in w.OccupantsOf(place)
    ensures w.Perform(command) == if h in w.OccupantsOf(place) then w.Perform(Command(None, command.effect))
                                  else (w, Some(PreconditionFailed(LocatedIn(h, place), command.effect)))
  {
    OccupantsAreTheLocated(w, place);
  }

  /** The listing order is latest arrival last: a move takes the mover out of every list and appends it to one. */
  lemma MoveAppendsToItsPlace(w: WorldState, h: EntityId, place: PlaceId, other: PlaceId)
    requires w.Inv() && w.arena.IsLive(h)
    ensures var v := w.Apply(MoveTo(h, place)).0;
            v.OccupantsOf(other) == Without(w.OccupantsOf(other), h) + (if other == place then [h] else [])
  {
    hide At, Without, Depart, OnePerSlot;
    var v := w.Apply(MoveTo(h, place)).0;
    assert v.at == Depart(w.at, h) + [(h, place)];
    DepartAt(w.at, h, other);
    AtAppend(Depart(w.at, h), h, place, other);
  }

  /** A new handle starts blank, whatever its slot held before and however many stale items still linger. */
  lemma FreshHandleIsBlank(w: WorldState)
    requires w.Inv() && w.Create().1.Ok?
    ensures var (v, minted) := w.Create();
            var h := minted.value;
            && v.Inv() && v.arena.IsLive(h) && !w.arena.Minted(h)
            && v.LocationOf(h) == None
            && v.InventoryOf(h) == [] && v.KeywordsOf(h) == []
            && (forall p: PlaceId :: h !in v.OccupantsOf(p))
            && (forall c :: h !in v.InventoryOf(c))
            && (forall x :: x != h ==> v.LocationOf(x) == w.LocationOf(x))
            && (forall x :: x != h ==> v.InventoryOf(x) == w.InventoryOf(x) && v.KeywordsOf(x) == w.KeywordsOf(x))
  {
    CreatedIsNew(w);
    UnmintedIsAbsent(w, w.Create().1.value);
    AcceptKeepsInv(w, Effect.Create);
    hide WorldState.Inv, Arena.IsLive, Arena.Minted, Arena.Alloc, WorldState.Create, At, Find;
  }

  lemma CreatedIsNew(w: WorldState)
    requires w.Inv() && w.Create().1.Ok?
    ensures var (v, minted) := w.Create();
            var h := minted.value;
            && v.arena.IsLive(h) && !w.arena.Minted(h) && (forall x :: v.arena.IsLive(x) <==> w.arena.IsLive(x) || x == h)
            && v.at == w.at && v.held == w.held[h := []] && v.names == w.names[h := []] && v == w.Accept(Effect.Create)
    ensures w.Rejection(Effect.Create) == None
  {
    hide Arena.Alloc;
    AllocMintsFresh(w.arena);
  }

  /** A handle never minted is on no record. */
  lemma UnmintedIsAbsent(w: WorldState, h: EntityId)
    requires w.Inv() && !w.arena.Minted(h)
    ensures Find(w.at, h) == None && h !in w.held && h !in w.names && !w.arena.IsLive(h)
    ensures forall p: PlaceId :: h !in At(w.at, p)
    ensures forall c :: c in w.held ==> h !in w.held[c]
  {
    forall p: PlaceId ensures h !in At(w.at, p) {
      AtMember(w.at, p);
      assert (h, p) in w.at ==> w.arena.IsLive(h);
    }
    AbsentIsNowhere(w.at, h);
  }

  /** What changes a world between ticks and in them: a command, or keywords for an entity. */
  datatype Deed = Performed(command: Command) | Named(entity: EntityId, keywords: seq<Keyword>)

  lemma NameKeepsInv(w: WorldState, h: EntityId, keywords: seq<Keyword>)
    requires w.Inv()
    ensures w.Name(h, keywords).Inv()
  {
  }

  ghost function Deeds(w: WorldState, deeds: seq<Deed>): (r: WorldState)
    requires w.Inv()
    ensures r.Inv()
    decreases |deeds|
  {
    if deeds == [] then w
    else
      match deeds[0]
      case Performed(command) =>
        PerformKeepsInv(w, command);
        Deeds(w.Perform(command).0, deeds[1..])
      case Named(h, keywords) =>
        NameKeepsInv(w, h, keywords);
        Deeds(w.Name(h, keywords), deeds[1..])
  }

  /** Hygiene over whole runs: after any commands and any naming on an empty world, the next entity created is blank. */
  lemma ReachableFreshIsBlank(tenant: TenantTag, deeds: seq<Deed>)
    ensures Empty(tenant).Inv()
    ensures var w := Deeds(Empty(tenant), deeds);
            w.Create().1.Ok? ==>
              var (v, minted) := w.Create();
              && v.LocationOf(minted.value) == None && v.InventoryOf(minted.value) == [] && v.KeywordsOf(minted.value) == []
              && (forall c :: minted.value !in v.InventoryOf(c))
  {
    EmptyInv(tenant);
    var w := Deeds(Empty(tenant), deeds);
    if w.Create().1.Ok? {
      FreshHandleIsBlank(w);
    }
  }

  /** The items whose slot is another. */
  function Others(list: seq<EntityId>, slot: SlotIndex): seq<EntityId> {
    if list == [] then [] else Others(list[..|list| - 1], slot) + if list[|list| - 1].slot == slot then [] else [list[|list| - 1]]
  }

  lemma {:induction false} OthersConcat(a: seq<EntityId>, b: seq<EntityId>, slot: SlotIndex)
    ensures Others(a + b, slot) == Others(a, slot) + Others(b, slot)
    decreases |b|
  {
    if b == [] {
      assert a + b == a;
    } else {
      assert (a + b)[..|a + b| - 1] == a + b[..|b| - 1];
      OthersConcat(a, b[..|b| - 1], slot);
    }
  }

  lemma {:induction false} RetainIsOthers(list: seq<EntityId>, slot: SlotIndex)
    ensures Retain(list, slot) == Others(list, slot)
  {
    if list != [] {
      RetainIsOthers(list[1..], slot);
      OthersConcat([list[0]], list[1..], slot);
      assert [list[0]] + list[1..] == list && [list[0]][..0] == [];
    }
  }

  /** All that one accepted effect changes, as any handle is asked about it: where it is, what it holds and its keywords. */
  lemma AcceptedIsSeen(w: WorldState, effect: Effect, x: EntityId)
    requires w.Inv() && w.Rejection(effect) == None && !effect.Create?
    ensures w.Accept(effect).LocationOf(x) == match effect
      case Teardown(h) => if x == h then None else w.LocationOf(x)
      case ClearLocation(h) => if x == h then None else w.LocationOf(x)
      case MoveTo(h, place) => if x == h then Some(place) else w.LocationOf(x)
      case _ => w.LocationOf(x)
    ensures w.Accept(effect).InventoryOf(x) == match effect
      case Teardown(h) => if x == h then [] else w.InventoryOf(x)
      case InventoryAdd(box, item) =>
        if x != box || (exists i | i in w.InventoryOf(box) :: i.slot == item.slot) then w.InventoryOf(x) else w.InventoryOf(x) + [item]
      case InventoryRemove(box, item) => if x == box then Others(w.InventoryOf(x), item.slot) else w.InventoryOf(x)
      case _ => w.InventoryOf(x)
    ensures w.Accept(effect).KeywordsOf(x) == if effect == Teardown(x) then [] else w.KeywordsOf(x)
  {
    LiveAfterAccept(w, effect);
    if w.arena.IsLive(x) { LocationAfter(w, effect, x); }
    if effect.InventoryRemove? { RetainIsOthers(w.InventoryOf(effect.container), effect.item.slot); }
    hide Arena.Consistent, Arena.IsLive, Find, Depart, Others;
  }

  /** Naming a live entity gives it those keywords and changes nothing else; naming a dead one changes nothing. */
  lemma NamingIsSeen(w: WorldState, h: EntityId, keywords: seq<Keyword>, x: EntityId)
    requires w.Inv()
    ensures w.Name(h, keywords).KeywordsOf(x) == if x == h && w.arena.IsLive(h) then keywords else w.KeywordsOf(x)
    ensures w.Name(h, keywords).LocationOf(x) == w.LocationOf(x) && w.Name(h, keywords).InventoryOf(x) == w.InventoryOf(x)
  {
  }

  /** A torn-down handle is never located, never listed and never accepted again, whatever runs next. */
  lemma {:induction false} TornDownStaysGone(w: WorldState, commands: seq<Command>, h: EntityId)
    requires w.Inv() && w.arena.Minted(h) && !w.arena.IsLive(h)
    ensures var v := Drain(w, commands).0;
            && !v.arena.IsLive(h) && v.LocationOf(h) == None && v.InventoryOf(h) == []
            && (forall p: PlaceId :: h !in v.OccupantsOf(p))
            && v.Apply(Teardown(h)).1 == Some(Rejected(Teardown(h), StaleHandle))
    decreases |commands|
  {
    if commands == [] {
      forall p: PlaceId ensures h !in w.OccupantsOf(p) { OccupantsAreTheLocated(w, p); }
    } else {
      PerformKeepsInv(w, commands[0]);
      var v := w.Perform(commands[0]).0;
      if w.Rejection(commands[0].effect) == None { LiveAfterAccept(w, commands[0].effect); }
      AllocMintsFresh(w.arena);
      TornDownStaysGone(v, commands[1..], h);
    }
  }
}
