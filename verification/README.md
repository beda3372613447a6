# A verified model of the MUD server

This project models the stateful core of the server and proves what it promises.

- **World store.** Handles minted by a generational arena; location, inventory and keyword tables that join
  on the slot alone; the tick that applies guarded effects; and the write-through cache of a tenant database
  that has to survive a restart. `ArenaModel`, `LocationModel`, `WorldModel` and `DurableModel` say what the
  parts mean, `ArenaStore`, `LocationStore`, `SlotTables`, `WorldStore`, `TenantDatabase` and
  `PersistentStore` are the classes that change state, and `DurableRuns` holds what is true over whole runs.
- **Commands.** Prioritised sets merged into one table (`CommandSets`, `CommandTables`, `Layers`), indexed by
  a trie of linked nodes (`TrieModel`, `TrieStore`) and read by a line parser (`LineSyntax`, `MergeMeaning`).
- **Sessions.** The login machine (`LoginModel`, `LoginMachine`), whole input lines run against the account
  tables and the durable world (`LoginRuns`, `SessionDriver`), whole dialogs told from the lines as they are typed
  (`Dialogs`), the loop that ticks that world and answers the
  gateway (`WorldTrace`, `WorldLoops`), and connections, router and World as interleaved steps
  (`GatewayProtocol`, `GatewayRuns`) with the tasks that take them (`ConnectionLives`, `GatewayTasks`).
- **Telnet.** Stream parsing, option negotiation, ECHO as a two-party protocol (section 5 of RFC 857, section
  7 of RFC 1143), every other option as one too (`OptionProtocol`, `OptionLoops`), line decoding and transliteration
  (`IacParsing`, `Negotiation`, `EchoProtocol`, `LineDecoding`, `Transliteration`, `TelnetMachines`,
  `StreamLines`), what a client makes of everything written to it (`ConnectionOutput`), and the echo exchange
  of a served client (`EchoServed`).
- **Markup and rate limit.** The single-pass compiler against its declarative meaning (`MarkupModel`,
  `MarkupMeaning`, `MarkupCompiler`) and against pages of nested tags as they are meant to look (`MarkupTrees`), and the leaky bucket against every other policy (`RateLimiting`).

Classes carry the fields the program updates; each method is proved against a function on values, and the
theorems are about those functions. `dafny verify dfyconfig.toml` checks everything.

## Where the code does less than its documentation says

- Containment in memory and in the table can part: the table has one container for an item, memory does not
  enforce one, and a stale item blocks its slot in memory only. `AddKeepsContainmentIffFits` gives the exact
  condition, `SecondHolderDiverges` and `SlotTakenDiverges` an instance of each half.
- Removing an item a container does not hold is documented as a no-op
  (`crates/mud-core/src/side_tables/inventory.rs:51`), but a stale handle takes out the present tenant of its slot:
  `RemovalIsExactIff` says when, `RemovingTheFormerTakesTheTenant` is an instance.
- The negotiation is documented to prevent loops (`crates/mud-net/src/telnet/negotiation.rs:3`). It does with a
  client that waits for its answers (`PatientClientsSettle`). With one that does not an exchange can go on for ever
  (`ImpatientClientLoops`): it can if and only if a turn circles in the state its asks have led to
  (`LoopsIffCircling`), and what ends leaves both sides of one mind (`EndsOfOneMind`).
- A hydration that fails after minting a handle leaves the entity resident but nowhere. An unknown start room is
  refused at boot (`crates/mud-world/src/lib.rs:90-101`), so what can happen is the location query failing. The
  login backend turns the error into an opaque one (`crates/mudd/src/backend.rs:87-111`), and the next call finds
  the entity resident and succeeds. `HydrationAgreesIff` says exactly when, `FailedQueryStrands` is an instance,
  and `OnlyTheStrandedAreAtOdds` says what such a server still keeps while it runs on.
- `DbError` is reserved for genuine database failures (`crates/mud-db/src/sqlite/persistent_world.rs:174`), but
  taking an item that has ended out of a container that still lists it passes its guard, gives `EntityNotMapped`
  and stops the server. `EffectErrsOnlyOnUnmapped` is the exact condition, `StaleItemStopsTick` shows it in any
  world with a held item, `HeldItemGoesStale` in one.
- `CommandTable::get` is documented to find a command by its exact canonical name. A higher-priority command
  with that name as an alias takes the token; `OwnNameUnlessShadowed` says exactly when, `NameCanBeShadowed`
  shows one merge.
- ECHO need not end in the mode last asked for: see `RaceEndsUnmasked`. Restoring echo last always holds
  (`ReleaseSettlesReleased`). Suppressing it last holds if and only if that call finds the server so
  (`LastMaskingCall`, `MaskedIffOneReplyDue`), as it does whenever nothing is in flight (`MaskingFromRest`); with a
  client that may refuse, if and only if no refusal is due then or given later (`LastMaskingCallOfAnyClient`).

## Hypotheses

- Any database query may fail, and one that fails changes nothing. Location and inventory rows come in any
  order. The account tables behind the login may give any answer; puppets are created in the modelled world.
- Each place map, the one of a restart included, is one-to-one (`PlaceMap.OneToOne`), which the cache relies on and
  does not check. Two of them may give the same room different handles and know different rooms.
- Lowercasing of a command head is any function (`fold`); rendering of messages and of styled text is any
  function (`render`), and so are the character tables of transliteration (`deunicode`), encoding to UTF-8 (`utf8`)
  and decoding a line to text (`decode`).
- Times and rates are exact reals where the program uses `f64` and `Instant`.

## Model

| member | source | states |
|---|---|---|
| EntityIds.UnpackPack | crates/mud-core/src/entity/id.rs:165-191 | reassembling the three fields of a 64-bit handle gives the handle back |
| EntityIds.PackUnpack | crates/mud-core/src/entity/id.rs:165-191 | every in-range tenant, slot and generation is read back from the word it is packed into |
| EntityIds.FieldsFit | crates/mud-core/src/entity/id.rs:165-191 | the projected fields of any word are in range, so the tenant, slot and generation accessors cannot fail |
| ArenaModel.AllocMintsFresh | crates/mud-core/src/entity/arena.rs:95-128 | a minted handle was never minted before and is the only new live one; allocation fails only when all 2^32 slots exist and none is free |
| ArenaModel.ReleaseForgetsOnlyIts | crates/mud-core/src/entity/arena.rs:134-160 | freeing makes that handle and no other dead, and keeps the free list exactly the free slots without duplicates |
| ArenaModel.NoHandleIsMintedTwice | crates/mud-core/src/entity/arena.rs:95-182 | over any run of allocations and frees no handle is minted twice, nor one minted before the run |
| ArenaModel.DeadHandleNeverResolves | crates/mud-core/src/entity/arena.rs:134-182 | a minted handle that is no longer live is stale after every further run, in spite of slot reuse |
| ArenaModel.BurnedSlotStaysRetired | crates/mud-core/src/entity/arena.rs:134-160 | a slot whose generation ran out is never handed out again |
| ArenaStore.EntityArena.Alloc | crates/mud-core/src/entity/arena.rs:95-107 | the new slots, free stack and result are those of the specification |
| ArenaStore.EntityArena.Reuse | crates/mud-core/src/entity/arena.rs:110-127 | both unreachable arms are dead: the popped slot exists and is free |
| ArenaStore.EntityArena.Free | crates/mud-core/src/entity/arena.rs:134-160 | frees exactly the checked handle, or reports why it is not its own or stale |
| ArenaStore.EntityArena.Resolve | crates/mud-core/src/entity/arena.rs:168-182 | succeeds exactly for live handles of this tenant and gives their slot |
| LocationStore.LocationOf.Place | crates/mud-core/src/side_tables/location.rs:37-60 | vector and reverse index together become the arrival log without the slot, then with the newcomer last |
| LocationStore.LocationOf.Remove | crates/mud-core/src/side_tables/location.rs:64-75 | the slot leaves the log and its list, and an emptied list is not kept |
| LocationStore.LocationOf.RemoveOccupant | crates/mud-core/src/side_tables/location.rs:96-108 | takes the slot out of one list, deletes the list when that was its last, and touches no other |
| LocationStore.LocationOf.Location | crates/mud-core/src/side_tables/location.rs:78-85 | the place of the slot in the log |
| LocationStore.LocationOf.Occupants | crates/mud-core/src/side_tables/location.rs:88-93 | the handles arrived at a place, in arrival order |
| LocationModel.LeaveAt | crates/mud-core/src/side_tables/location.rs:64-75 | leaving removes the slot from every listing and changes no other entry or order |
| SlotTables.Inventory.Insert | crates/mud-core/src/side_tables/inventory.rs:26-48 | appends the item unless some item of its slot is already there; other slots keep their lists |
| SlotTables.Inventory.Remove | crates/mud-core/src/side_tables/inventory.rs:51-66 | removes every item of that slot from that container only |
| SlotTables.Inventory.Clear | crates/mud-core/src/side_tables/inventory.rs:69-77 | empties one container only |
| SlotTables.Naming.Set | crates/mud-core/src/side_tables/naming.rs:48-67 | replaces the keywords of one slot only |
| SlotTables.Naming.Clear | crates/mud-core/src/side_tables/naming.rs:70-78 | empties the keywords of one slot only |
| WorldStore.World.Create | crates/mud-core/src/world.rs:58-70 | the four slot tables become those of the handle-keyed creation |
| WorldStore.World.Teardown | crates/mud-core/src/world.rs:73-82 | frees the handle and clears its own location, contents and keywords; what others hold may stay |
| WorldStore.World.MoveTo | crates/mud-core/src/world.rs:85-95 | refuses dead handles, else moves exactly that entity |
| WorldStore.World.ClearLocation | crates/mud-core/src/world.rs:98-105 | refuses dead handles, else leaves exactly that entity nowhere |
| WorldStore.World.NameEntity | crates/mud-core/src/world.rs:108-119 | refuses dead handles, else replaces exactly their keywords |
| WorldStore.World.InventoryAdd | crates/mud-core/src/world.rs:122-130 | checks container then item, then adds with the slot rule of the table |
| WorldStore.World.InventoryRemove | crates/mud-core/src/world.rs:133-148 | checks the container only and removes by slot |
| WorldStore.World.ApplyEffect | crates/mud-core/src/world.rs:151-174 | the event and the new tables are those of the handle-keyed specification |
| WorldStore.World.Satisfies | crates/mud-core/src/world.rs:177-186 | a precondition reads through the slot tables as it does through the handle-keyed ones; one about a place holds exactly for its occupants |
| WorldStore.World.LocationOf | crates/mud-core/src/world.rs:206-215 | None for a dead handle, else where it was last put |
| WorldStore.World.OccupantsOf | crates/mud-core/src/world.rs:218-220 | the listing of the place in the handle-keyed world |
| WorldStore.World.InventoryOf | crates/mud-core/src/world.rs:224-231 | nothing for a dead container, else what it was given, in order, stale items included |
| WorldModel.AcceptKeepsInv | crates/mud-core/src/world.rs:58-148 | every accepted effect keeps one location per live slot, tables for live handles only, and only minted items held |
| WorldModel.OccupantsAreTheLocated | crates/mud-core/src/world.rs:206-220 | the occupants of a place are exactly the live handles located there, each once |
| WorldModel.GuardedTakesEffectIff | crates/mud-core/src/scheduler.rs:85-107 | a command guarded by a place takes effect exactly when its entity is among the occupants there, and else changes nothing and says so |
| WorldModel.MoveAppendsToItsPlace | crates/mud-core/src/world.rs:85-95 | a move takes the mover out of every listing and puts it last in one |
| WorldModel.AcceptedIsSeen | crates/mud-core/src/world.rs:73-148 | all that one accepted effect changes, as any handle is asked where it is, what it holds and for its keywords |
| WorldModel.NamingIsSeen | crates/mud-core/src/world.rs:108-119 | naming a live entity gives it those keywords and changes nothing else; naming a dead one changes nothing |
| WorldModel.FreshHandleIsBlank | crates/mud-core/src/world.rs:58-70 | a new handle has no location, contents or keywords and nobody holds it, whatever its slot held before |
| WorldModel.ReachableFreshIsBlank | crates/mud-core/src/world.rs:58-148 | the same after any run of commands and namings on an empty world |
| WorldModel.TornDownStaysGone | crates/mud-core/src/world.rs:73-82 | a dead handle stays dead, unlocated, unlisted and empty through every later run, and tearing it down again is refused as stale |
| WorldModel.RemovalIsExactIff | crates/mud-core/src/side_tables/inventory.rs:51-66 | a removal takes out exactly the named item, and nothing when it is absent, if and only if the container lists no other handle of that slot |
| WorldModel.RemovingTheFormerTakesTheTenant | crates/mud-core/src/side_tables/inventory.rs:51-66 | a concrete world in which removing a long-gone item takes out the present tenant of its slot |
| WorldStore.Scheduler.Tick | crates/mud-core/src/scheduler.rs:85-113 | drains the queue in order and gives the events and the world of the sequential fold |
| WorldStore.Scheduler.Perform | crates/mud-core/src/scheduler.rs:85-107 | a command whose precondition fails changes nothing and says so |
| DurableModel.CreateErrsOnlyWithoutKeys | crates/mud-db/src/sqlite/persistent_world.rs:326-348 | with no failing query a creation whose precondition holds errs exactly when the key space is spent |
| DurableModel.EffectErrsOnlyOnUnmapped | crates/mud-db/src/sqlite/persistent_world.rs:180-221 | with no failing query any other command errs exactly when it moves to an unmapped place or removes a dead item; every other error arm is dead |
| DurableModel.ApplyKeepsAgreement | crates/mud-db/src/sqlite/persistent_world.rs:180-221 | every command keeps keys and handles mutually inverse, the live handles exactly mapped, and each location row the slug of where its entity is |
| DurableRuns.HydrateKeepsAgreement | crates/mud-db/src/sqlite/persistent_world.rs:281-321 | so does making a persisted entity resident |
| DurableRuns.AgreementOverEveryLife | crates/mud-db/src/sqlite/persistent_world.rs:180-348 | so does any error-free life of commands, admissions and bare hydrations, in which no key is used twice |
| DurableRuns.DurableTickRefinesMemory | crates/mud-db/src/sqlite/persistent_world.rs:238-246 | a durable tick without error yields the world and the events of the in-memory tick on the same queue, whatever the tables hold |
| DurableRuns.DurableTickStopsAtOneCommand | crates/mud-db/src/sqlite/persistent_world.rs:238-246 | a tick that errs applied a definite prefix of the queue and failed at the next command |
| DurableRuns.AddKeepsContainmentIffFits | crates/mud-db/src/sqlite/persistent_world.rs:392-410 | adding an item keeps memory and table in containment agreement if and only if no other container holds it and no stale item blocks its slot |
| DurableRuns.ApplyKeepsContainmentIffFits | crates/mud-db/src/sqlite/persistent_world.rs:180-221 | any command keeps containment agreement if and only if it is not such a misfit addition |
| DurableRuns.HydrateKeepsContainmentIffUnrelated | crates/mud-db/src/sqlite/persistent_world.rs:281-321 | hydration, which replays no containment, keeps that agreement if and only if no row joins the key to a resident entity |
| DurableRuns.SecondHolderDiverges | crates/mud-db/src/sqlite/persistent_world.rs:392-410 | a concrete world in which a second container takes an item and memory and table part |
| DurableRuns.StaleSlotDiverges | crates/mud-db/src/sqlite/persistent_world.rs:392-410 | so does any container that still lists a stale item of the new item's slot |
| DurableRuns.SlotTakenDiverges | crates/mud-db/src/sqlite/persistent_world.rs:392-410 | one such world |
| DurableRuns.AdmitKeepsContainment | crates/mudd/src/backend.rs:87-111 | a new puppet joins without disturbing containment, its key being in no row |
| DurableRuns.StepKeepsContainmentIffWhole | crates/mud-db/src/sqlite/persistent_world.rs:180-321 | a step of a life keeps containment agreement if and only if it is neither a misfit addition nor a hydration that a row joins to a resident |
| DurableRuns.ContainedThroughoutIffDisciplined | crates/mud-db/src/sqlite/persistent_world.rs:180-348 | containment agreement lasts through a whole life of commands, admissions and hydrations if and only if no step of it is one of those |
| DurableRuns.HydrateUnderIsHydrate | crates/mud-db/src/sqlite/persistent_world.rs:281-321 | with both queries answered, hydration under failing queries is that of an error-free life, errors included |
| DurableRuns.HydrationAgreesIff | crates/mud-db/src/sqlite/persistent_world.rs:281-321 | memory still agrees after a hydration if and only if it minted nothing, or the entity has no location row, or that row was read and names a loaded room |
| DurableRuns.FailedHydrationStrands | crates/mud-db/src/sqlite/persistent_world.rs:281-321 | otherwise the newcomer alone is resident and nowhere, and the next call reports success and repairs nothing |
| DurableRuns.FailedQueryStrands | crates/mud-db/src/sqlite/persistent_world.rs:301-312 | a concrete world in which the location query fails after the handle was minted |
| DurableRuns.CommandUnderRows | crates/mud-db/src/sqlite/persistent_world.rs:180-221 | a command does the same to memory and to every other row as if the rows at odds were not there, and heals those whose entity it moves, unplaces or ends |
| DurableRuns.TurnKeepsAtOdds | crates/mud-db/src/sqlite/persistent_world.rs:180-321 | each command, enrolment or hydration, under any query failure, leaves exactly the stranded keys at odds |
| DurableRuns.OnlyTheStrandedAreAtOdds | crates/mud-db/src/sqlite/persistent_world.rs:180-321 | over any run with any hydration failures every entity but the stranded ones is where its row says, those are nowhere, and memory agrees if and only if there are none |
| DurableRuns.DrainKeepsAtOdds | crates/mud-db/src/sqlite/persistent_world.rs:238-246 | a tick without error strands nobody and may heal some |
| DurableRuns.StaleItemStopsTick | crates/mud-db/src/sqlite/persistent_world.rs:412-433 | in any agreeing world a held item can end and taking it out then passes its guard and errs, which stops the tick |
| DurableRuns.HeldItemGoesStale | crates/mud-db/src/sqlite/persistent_world.rs:412-433 | one such world |
| TenantDatabase.Database.UpsertInventory | crates/mud-db/src/sqlite/persistent_world.rs:392-410 | one row for each item: a later container replaces the earlier one |
| TenantDatabase.Database.DeleteEntity | crates/mud-db/src/sqlite/persistent_world.rs:435-450 | deletes the row and, by cascade, every row that references it |
| PersistentStore.PersistentWorld.Load | crates/mud-db/src/sqlite/persistent_world.rs:106-164 | from consistent tables either an agreeing world with every entity resident, or an error for a failed query, an unknown place or too many entities |
| PersistentStore.PersistentWorld.Apply | crates/mud-db/src/sqlite/persistent_world.rs:180-221 | without error memory and tables become those of the specification; on an error the tables are as before and memory at most this command ahead |
| PersistentStore.PersistentWorld.ApplyCreate | crates/mud-db/src/sqlite/persistent_world.rs:326-348 | database first: an exhausted arena leaves no row, and a failed query leaves the tables and both key maps as they were |
| PersistentStore.PersistentWorld.Tick | crates/mud-db/src/sqlite/persistent_world.rs:238-246 | from any sound world, agreeing or not: fail-stop, on an error the tables hold exactly the effects of the commands before it; without one the in-memory tick |
| PersistentStore.PersistentWorld.Hydrate | crates/mud-db/src/sqlite/persistent_world.rs:281-321 | memory and result under whichever of its two queries failed; idempotent, never writes, and resident under its key on success |
| PersistentStore.PersistentWorld.KeyOf | crates/mud-db/src/sqlite/persistent_world.rs:452-457 | in a mapped world it finds a key exactly for the live handles, and that key leads back to the same handle |
| PersistentStore.PersistentWorld.Reload | crates/mud-db/src/sqlite/persistent_world.rs:106-164 | a restart under the place handles of a new world load: every key is resident again, nowhere if it was nowhere and else in the room of the same name, the stranded where their rows say; after a disciplined life in what it was; only a failing query or a row naming no loaded room can stop it, and such a row always does |
| DurableRuns.RestartRestores | crates/mud-db/src/sqlite/place_map.rs:1-60 | two worlds over the same tables put every key in the room of the same name, whatever handles their place maps give it |
| PersistentStore.RestartAfterFailedTick | crates/mud-db/src/sqlite/persistent_world.rs:106-246 | after a tick that failed at a command a restart puts back the world just before that command: every key resident, in its room, and nested as it was if memory and table then agreed on that |
| PersistentStore.StoppedTablesConsistent | crates/mud-db/src/sqlite/persistent_world.rs:106-246 | the tables such a tick leaves are sound, as a restart needs |
| PersistentStore.DbBackend.CreatePuppet | crates/mudd/src/backend.rs:87-111 | success is one admission step; on the opaque error nothing happened or the rows exist and the hydration failed; either way nobody resident is disturbed and the new key alone can be stranded |
| PersistentStore.DbBackend.ResolvePuppet | crates/mudd/src/backend.rs:113-115 | the resident handle of the key, if there is one |
| EchoProtocol.TakeKeepsInv | crates/mud-net/src/telnet/negotiation.rs:112-127 | every step of server or client keeps the invariant tying both states to the offers and replies in flight |
| EchoProtocol.RunsAreBounded | crates/mud-net/src/telnet/negotiation.rs:185-211 | every step uses up work, so in any interleaving a run is no longer than the work it starts with |
| EchoProtocol.EchoSettles | crates/mud-net/src/telnet/negotiation.rs:112-127 | a run that cannot go on has emptied both channels and the server holds the mode the client is in |
| EchoProtocol.SomeRunSettles | crates/mud-net/src/telnet/negotiation.rs:112-127 | from every reachable point some continuation gets there |
| EchoProtocol.RaceEndsUnmasked | crates/mud-net/src/telnet/negotiation.rs:185-211 | a concrete race of suppress, restore, suppress that settles unmasked |
| EchoProtocol.ReleaseSettlesReleased | crates/mud-net/src/telnet/negotiation.rs:185-211 | when the last call restores echo, every settled end has the server at No and the client echoing, whatever the client answers |
| EchoProtocol.MaskedIffOneReplyDue | crates/mud-net/src/telnet/negotiation.rs:185-211 | with an accepting client and no call left, the run settles masked if and only if the server holds Yes with no reply due, or waits for Yes with exactly one |
| EchoProtocol.LastMaskingCall | crates/mud-net/src/telnet/negotiation.rs:185-211 | a last suppressing call settles masked if and only if it finds the server in the state named by a check before the call; after an unanswered retraction it never does |
| EchoProtocol.MaskingFromRest | crates/mud-net/src/telnet/negotiation.rs:185-211 | asked for last and with nothing in flight, masking holds |
| EchoProtocol.MaskedIffNothingRefused | crates/mud-net/src/telnet/negotiation.rs:185-211 | for any client, refusing or not: with no call left the run settles masked if and only if the server has or wants masking, no refusal is due and none is given |
| EchoProtocol.LastMaskingCallOfAnyClient | crates/mud-net/src/telnet/negotiation.rs:185-211 | for any client a last suppressing call holds if and only if it finds no refusal due and the client gives none after it |
| EchoServed.ServedRunsTheProtocol | crates/mud-gateway/src/connection.rs:113-187 | a served connection is the server of the exchange: told the modes delivered to it and the client's answers in order, it stands where a run of the protocol leaves the server, and its client reads just the offers of that run, whatever else is read and written |
| EchoServed.ServedRelease | crates/mud-gateway/src/connection.rs:172-175 | when the last mode delivered to a connection is echo, or none was, the exchange settles with the client echoing, whatever it answers |
| EchoServed.ServedMasking | crates/mud-gateway/src/connection.rs:172-175 | when the last mode delivered is masking and nothing else is in flight, an accepting client ends up masking |
| EchoServed.EchoOnWire | crates/mud-gateway/src/connection.rs:172-175 | a mode delivered, on the wire: masking writes 255 251 1 from rest or during a retraction, echo 255 252 1 once offered or agreed, else nothing |
| GatewayTasks.ConnectionTask.OnDelivery | crates/mud-gateway/src/connection.rs:150-180 | what a delivered payload writes and leaves: a mode the three bytes of its offer exactly when the option state calls for one, a block itself, Close nothing |
| EchoServed.NextBlockReads | crates/mud-gateway/src/connection.rs:154-169 | after anything read and delivered, the next block reads as a line of space, its text in the charset the client last took, a line end unless a prompt, and the mark the client last asked for |
| OptionProtocol.PatientClientsSettle | crates/mud-net/src/telnet/negotiation.rs:1-9 | for every option but ECHO and any client that waits for its answers, an exchange is bounded by three steps an ask and two more, and ends with both sides of one mind |
| OptionProtocol.ImpatientClientLoops | crates/mud-net/src/telnet/negotiation.rs:1-9 | a client that asks three times without waiting can keep the exchange going for ever |
| OptionLoops.LoopsIffCircling | crates/mud-net/src/telnet/negotiation.rs:153-182 | whatever a client has asked for and however little it waited: with nothing more to ask, the exchange can go on for ever if and only if a turn circles once every awaited answer is in; otherwise it ends within a stated number of steps whatever the client answers |
| OptionLoops.EndsOfOneMind | crates/mud-net/src/telnet/negotiation.rs:153-182 | any exchange that has ended, with whatever client, leaves both sides of one mind and neither waiting |
| OptionLoops.RefusedOptionsEnd | crates/mud-net/src/telnet/negotiation.rs:83-132 | an option the server does not support draws one refusal a request from it, and no exchange about it loops |
| OptionProtocol.NegotiatorHears | crates/mud-net/src/telnet/negotiation.rs:83-182 | the negotiator handles every verb about such an option as that exchange says, state and reply byte |
| Negotiation.Negotiator.OnNegotiate | crates/mud-net/src/telnet/negotiation.rs:83-132 | option states and reply bytes are those of the specification |
| Negotiation.Negotiator.SuppressEcho | crates/mud-net/src/telnet/negotiation.rs:185-195 | offers only from rest or while an earlier retraction is in flight |
| Negotiation.Negotiator.RestoreEcho | crates/mud-net/src/telnet/negotiation.rs:198-206 | retracts only what was offered or agreed |
| Negotiation.RepeatedVerbIsSilent | crates/mud-net/src/telnet/negotiation.rs:258-267 | an option already agreed or refused and asked for again draws no further reply and changes nothing |
| Negotiation.OneAnswerPerChangeOfMind | crates/mud-net/src/telnet/negotiation.rs:83-132 | whatever a client keeps saying about a tracked option, it gets no more replies than its first word and its changes of mind |
| LineDecoding.LineDecoder.Push | crates/mud-net/src/telnet/line.rs:32-51 | one byte does to the three fields what the specification says |
| LineDecoding.LineDecoder.TakeLine | crates/mud-net/src/telnet/line.rs:53-61 | an overflowed line is dropped whole and the next one starts clean |
| LineDecoding.LinesRoundTrip | crates/mud-net/src/telnet/line.rs:32-61 | lines sent with any mix of CR LF, CR NUL, LF and bare CR that can be read one way come back in order, those over 4096 bytes left out whole |
| LineDecoding.FittingKeepsShortLines | crates/mud-net/src/telnet/line.rs:32-61 | so lines within the cap all come back, one for one |
| IacParsing.IacParser.Push | crates/mud-net/src/telnet/parser.rs:75-81 | the state and items are those of parsing the bytes one by one |
| IacParsing.ParseConcat | crates/mud-net/src/telnet/parser.rs:75-81 | cutting a stream into packets changes neither items nor state |
| IacParsing.FramingRoundTrip | crates/mud-net/src/telnet/parser.rs:83-168 | what a peer frames is what the parser returns; a subnegotiation over its cap vanishes whole |
| IacParsing.BrokenOffLeavesNoTrace | crates/mud-net/src/telnet/parser.rs:122-135 | a subnegotiation broken off by another command leaves no trace: what follows is read as if it had never begun |
| TelnetMachines.ReadsDoNotMatter | crates/mud-net/src/telnet/mod.rs:72-100 | neither do read boundaries change the reported events, the machine or the bytes it sends |
| TelnetMachines.TelnetMachine.Receive | crates/mud-net/src/telnet/mod.rs:72-100 | events and new state are those of handling the parsed items in order |
| TelnetMachines.TelnetMachine.SetEcho | crates/mud-net/src/telnet/mod.rs:103-109 | queues exactly the offer or retraction the negotiation asks for |
| TelnetMachines.TelnetMachine.EncodeOutput | crates/mud-net/src/telnet/mod.rs:120-140 | the encoding of the text as it is for a UTF-8 client and transliterated around its escapes for an ASCII one |
| Transliteration.Transliterate | crates/mud-net/src/telnet/mod.rs:187-202 | the loop gives the transliteration cut at the escapes |
| Transliteration.EscapesSurvive | crates/mud-net/src/telnet/mod.rs:182-219 | for words and control sequences in any mix, every sequence comes through as it is and only the words are transliterated |
| Transliteration.TransliterationKeepsLines | crates/mud-net/src/telnet/mod.rs:220-228 | no line is joined or split, provided transliterating one adds none |
| TelnetMachines.EncodedTextIsData | crates/mud-net/src/telnet/mod.rs:120-140 | encoded text parses to data bytes only: no text can be taken for a command |
| TelnetMachines.EncodedTextKeepsLines | crates/mud-net/src/telnet/mod.rs:120-140 | decoding encoded text gives back its lines, CRs removed |
| TelnetMachines.TelnetMachine.PromptFrame | crates/mud-net/src/telnet/mod.rs:144-150 | 255 239 once end-of-record is agreed, 255 249 until then: the frame of one command |
| TelnetMachines.PromptEndsInOneMark | crates/mud-net/src/telnet/mod.rs:120-150 | a prompt reads as its text and then one command, the only one in it |
| TelnetMachines.TelnetMachine.OnOne | crates/mud-net/src/telnet/mod.rs:72-100 | one parsed item; a completed line is answered 13 10 exactly while the client has agreed to mask, and any other data byte with nothing |
| TelnetMachines.LastWordDecides | crates/mud-net/src/telnet/negotiation.rs:83-182 | whatever else a client says, its last DO or DONT about end-of-record decides the prompt mark, its last answer about the charset the encoding |
| TelnetMachines.ReportsRoundTrip | crates/mud-net/src/telnet/mod.rs:152-172 | a client framing its window size or its terminal name is reported to have just that |
| TrieModel.UnderPrefixIsTheScan | crates/mud-cmd/src/trie.rs:42-80 | what lies under a prefix is exactly what a scan of the keys finds; a walk that leaves the trie means no key has the prefix |
| TrieStore.TrieNode.Insert | crates/mud-cmd/src/trie.rs:42-48 | nodes changed in place become the specified trie, whatever shares the heap |
| TrieStore.TrieNode.CollectTerminals | crates/mud-cmd/src/trie.rs:73-80 | appends exactly the indices of the subtree |
| TrieStore.PrefixTrie.Insert | crates/mud-cmd/src/trie.rs:42-48 | maps the key to the index and keeps every other key, with no dead branch |
| TrieStore.PrefixTrie.Lookup | crates/mud-cmd/src/trie.rs:51-69 | equals the scan: exact owner, else the distinct owners under the prefix in ascending order, else none |
| CommandSets.ResolveName | crates/mud-cmd/src/cmdset.rs:236-254 | the nested loop with its early return gives the resolution below |
| CommandSets.ResolvedByPrecedence | crates/mud-cmd/src/cmdset.rs:236-270 | a name goes to the one entry beating all others (Replace over Union, then priority, then the earlier), and to none when removed |
| CommandSets.ResolveDependsOnLevels | crates/mud-cmd/src/cmdset.rs:175-194 | reordering sets of different priority resolves every name alike |
| CommandTables.CollectNames | crates/mud-cmd/src/cmdset.rs:176-181 | the names of all commands of all sets |
| CommandTables.SettleTokenOwnership | crates/mud-cmd/src/cmdset.rs:203-231 | each claimed token, and no other, goes to its highest claim: priority, canonical before alias, lower index |
| CommandTables.SettledIsUnique | crates/mud-cmd/src/cmdset.rs:203-231 | that leaves one possible owner table |
| CommandTables.Merge | crates/mud-cmd/src/cmdset.rs:175-194 | the table holds the resolved commands in name order and the settled tokens |
| CommandTables.CommandTable.Get | crates/mud-cmd/src/parser.rs:76-81 | the owner of the exact token |
| CommandTables.CommandTable.Parse | crates/mud-cmd/src/parser.rs:91-126 | blank exactly for a line of spaces; else, read by its written head, not found after a leading slash, refused for the fault of the first segment that is no switch (none, or its first bad character), and otherwise the answer for its token by scanning |
| CommandTables.CommandTable.MatchToken | crates/mud-cmd/src/parser.rs:117-155 | an index is always in range and a prefix list never empty, so both defensive arms are dead |
| LineSyntax.LineSplits | crates/mud-cmd/src/parser.rs:91-97 | however it is spaced, a line splits into its head and its argument with inner spacing kept |
| LineSyntax.WrittenSplits | crates/mud-cmd/src/parser.rs:100-115 | splitting a written head gives back its token and its segments |
| LineSyntax.SegmentsAreWritten | crates/mud-cmd/src/parser.rs:100-102 | every head is its segments written out, so splitting loses nothing |
| LineSyntax.FaultRead | crates/mud-cmd/src/parser.rs:108-115 | of segments with a first one that is no switch, the error is the fault of that one |
| CommandTables.EveryLineReads | crates/mud-cmd/src/parser.rs:91-102 | every line that is not all space has a head, segments and an argument it is written from |
| MergeMeaning.RowsAreTheResolved | crates/mud-cmd/src/cmdset.rs:183-187 | the surviving commands are exactly the resolved names, each once, in name order |
| MergeMeaning.MergeDependsOnLevels | crates/mud-cmd/src/cmdset.rs:166-194 | two lists of sets alike at every priority merge to the same table |
| MergeMeaning.OwnNameUnlessShadowed | crates/mud-cmd/src/cmdset.rs:203-231 | a surviving command is reached by its own name if and only if no higher-priority survivor lists that name as an alias |
| MergeMeaning.NameCanBeShadowed | crates/mud-cmd/src/parser.rs:74-81 | a concrete merge in which the exact name of a surviving command gives another command |
| MergeMeaning.AnswerIsTheScan | crates/mud-cmd/src/parser.rs:117-125 | matched if owned or started by one command only, ambiguous among exactly the commands it starts, else not found |
| MergeMeaning.AmbiguityIsInNameOrder | crates/mud-cmd/src/parser.rs:148-155 | an ambiguity lists its commands in name order, each once |
| MergeMeaning.TypedLineIsAnswered | crates/mud-cmd/src/parser.rs:91-126 | a command typed with switches and argument means that command, however spaced and capitalised |
| Layers.PushLayer | crates/mud-engine/src/layers.rs:94-107 | appends one union set unless the layer is empty, which contributes nothing either way |
| Layers.MergeLayers | crates/mud-engine/src/layers.rs:69-86 | every command of the table is the first of its name in the first layer that has the name, inner containers before outer, and no name of any layer is lost |
| Layers.FirstLayerWins | crates/mud-engine/src/layers.rs:19-34 | resolution equals first match over account, puppet, containers innermost first, location, channels, builtins, at any depth |
| Layers.TableOfLayers | crates/mud-engine/src/layers.rs:19-34 | the same from the resolution alone: an inner container's command beats an outer one's, and each layer every later one |
| LoginModel.PlayableByName | crates/mud-session/src/fsm.rs:456-463 | a name is never read as an ordinal, so naming a listed puppet, in any case, finds a listed puppet of that name |
| LoginMachine.SessionFsm.OnInput | crates/mud-session/src/fsm.rs:175-180 | state and transition after a line are those the dialogs are about, with the echo change of entering or leaving a secret |
| LoginMachine.SessionFsm.AnonInput | crates/mud-session/src/fsm.rs:198-222 | the pre-login commands |
| LoginMachine.SessionFsm.PuppetSelectInput | crates/mud-session/src/fsm.rs:284-335 | the puppet menu: play by number or name, create, quit |
| LoginMachine.SessionFsm.OnEffect | crates/mud-session/src/fsm.rs:364-369 | state and transition after a result are those of the specification |
| LoginMachine.SessionFsm.DispatchEffect | crates/mud-session/src/fsm.rs:371-441 | every awaited pair of state and result, and the stray rest put back |
| LoginRuns.CycleEnds | crates/mud-session/src/fsm.rs:371-441 | a line takes at most two effects, every result is one its state handles, and no line ends awaiting one |
| LoginRuns.BoundIsOffered | crates/mud-session/src/fsm.rs:297-361 | a login binds only the account the backend gave it and a puppet listed or created for it |
| LoginRuns.MaskingTracksSecret | crates/mud-session/src/fsm.rs:128-196 | only the line itself changes echo, and after it the client is masked exactly when a secret is collected |
| LoginRuns.PromptMeansSecret | crates/mud-engine/src/session/mod.rs:206-267 | what a line says ends in a password prompt exactly when the session now awaits a secret |
| Dialogs.TypedMeansSplit | crates/mud-session/src/fsm.rs:61-66 | a word in any case and an argument, with any spacing, are read as that word and that argument |
| Dialogs.SplitMeansTyped | crates/mud-session/src/fsm.rs:61-66 | and nothing else is: a line so read was typed so |
| Dialogs.LoginDialog | crates/mud-session/src/fsm.rs:198-239 | `login u` masks the client and prompts; the next line, whatever it is, is the password checked for u, and what the backend answers decides what is said and where the session stands, an unknown name and a wrong password told alike |
| Dialogs.RegisterDialog | crates/mud-session/src/fsm.rs:198-272 | `register u`, then two lines: different ones ask nothing and say so, the same one twice registers u with it, and the answer decides the rest |
| Dialogs.AnonLines | crates/mud-session/src/fsm.rs:198-222 | every other line before a login: help, who, quit, refused names, unknown words and blank lines, what each says and that none asks anything |
| Dialogs.ChoosesMatches | crates/mud-session/src/fsm.rs:456-463 | an argument chooses the k-th puppet listed exactly when it spells k in decimal, plus sign and leading zeros allowed, else the first of that name in any case, else none |
| Dialogs.PlayLine | crates/mud-session/src/fsm.rs:284-307 | `play` looks up and enters exactly the puppet its argument chooses, under its name and for the chosen account; when there is none it asks nothing and says so |
| Dialogs.NewLine | crates/mud-session/src/fsm.rs:309-335 | `new n` makes a puppet n for the chosen account and enters it; a bad name asks nothing and says so |
| Dialogs.MenuLines | crates/mud-session/src/fsm.rs:284-295 | every other line at the menu, what it says, and that it asks nothing |
| Dialogs.WhatIsAskedWasTyped | crates/mud-session/src/fsm.rs:175-361 | over a whole conversation: a password is only checked that is the very line after `login u`, for that u; only one typed twice after `register u` registers; puppets are listed and made only for an account the backend gave this session, at a line that asks for it |
| SessionDriver.BatchesCoalesce | crates/mud-engine/src/session/mod.rs:380-392 | joining batches one by one gives one block of all messages, of the last one's kind |
| SessionDriver.SessionService.Connect | crates/mud-engine/src/session/mod.rs:146-154 | a fresh login and one greeting block; no other session changes |
| SessionDriver.SessionService.Disconnect | crates/mud-engine/src/session/mod.rs:170-172 | forgets that session only |
| SessionDriver.SessionService.OnInput | crates/mud-engine/src/session/mod.rs:184-198 | routes by the session's state and changes no other session; a login line is run to its end as the dialogs say; of the world it can only create puppets, and a bound entity is resident |
| SessionDriver.SessionService.Drive | crates/mud-engine/src/session/mod.rs:206-267 | runs the line to its end: outputs, closing, binding and backend calls as specified; the lost-session arm is dead |
| SessionDriver.SessionService.RunEffects | crates/mud-engine/src/session/mod.rs:212-266 | the loop ends, and what it gathers is one echo change and one block |
| SessionDriver.SessionService.Perform | crates/mud-engine/src/session/mod.rs:270-320 | which backend calls an effect makes and what their answers amount to |
| SessionDriver.SessionService.ApplyTerminal | crates/mud-engine/src/session/mod.rs:325-375 | binds to the entity the backend resolves now, or drops the session and closes |
| SessionDriver.LineShows | crates/mud-engine/src/session/mod.rs:206-267 | at most one echo change then at most one block joining all messages, a prompt exactly when a secret is awaited; masking follows |
| SessionDriver.SessionMasksSecretsOnly | crates/mud-engine/src/session/mod.rs:146-267 | from the greeting through any lines, the echo changes a client has seen add up to masking exactly while a secret is awaited |
| SessionDriver.BoundFromBackend | crates/mud-engine/src/session/mod.rs:325-375 | an in-world session plays an offered puppet, as the entity its last answer named |
| WorldLoops.WorldLoop.Run | crates/mudd/src/world_loop.rs:45-95 | over every sequence of ticks, frames and failures each frame sent is addressed to an open session, the echo frames sent to each session since its Connect add up to masking exactly while it awaits a secret, the frames heard are those served, and memory stays as near to its tables as it was |
| WorldLoops.WorldLoop.Tick | crates/mudd/src/world_loop.rs:61-68 | one durable tick of what was queued; no session or frame is touched |
| WorldLoops.WorldLoop.Handle | crates/mudd/src/world_loop.rs:69-92 | what each gateway frame does to the session table and the world; a Connect is answered with one block, the banner, a line feed and the instructions |
| WorldLoops.WorldLoop.HandleInput | crates/mudd/src/world_loop.rs:125-237 | a login line is run to its end and sends at most one echo change, one block joining all it says, a prompt exactly when a secret is awaited, arrivals to others, and Close if asked; an in-world line only queues effects; unknown input is ignored; no other session changes |
| WorldLoops.WorldLoop.ShowLogin | crates/mudd/src/world_loop.rs:136-170 | exactly the outputs, then announcements to the room of a puppet that was bound, then Close if asked |
| WorldTrace.FramedMasks | crates/mudd/src/world_loop.rs:98-103 | the frames of a login line mask its client as its echo changes say, and nobody else's |
| WorldTrace.ShownIsSaid | crates/mudd/src/world_loop.rs:133-141 | what a login line shows goes out as at most one echo change and one block of all it says joined |
| WorldLoops.GreetingOnWire | crates/mudd/src/world_loop.rs:70-74 | the greeting goes out as one block of the two messages, and masks nobody |
| WorldLoops.WorldLoop.ReplyFrames | crates/mudd/src/world_loop.rs:180-207 | the replies to the caller, then each broadcast to every played occupant but its exception, word for word, and nothing else |
| WorldLoops.WorldLoop.Answer | crates/mudd/src/world_loop.rs:180-217 | the replies, the caller's first, then the broadcasts each to its hearers, then farewells to the quitter's room while it is still bound, then Close; the session is dropped |
| WorldLoops.WorldLoop.HandleDisconnect | crates/mudd/src/world_loop.rs:274-291 | farewells to the room of a session that has gone, which itself hears nothing; then it is dropped |
| WorldLoops.WorldLoop.PresenceAnnouncement | crates/mudd/src/world_loop.rs:247-267 | reaches every other puppet played in the room where the world has this session's puppet, and nobody else; none without a binding or a place |
| WorldLoops.WorldLoop.Announce | crates/mud-engine/src/presence.rs:20-37 | reaches every played occupant but the excepted one, and no one else |
| WorldLoops.WorldLoop.SessionOf | crates/mud-engine/src/session/resolver.rs:55-63 | some session playing the entity, or none when nobody does |
| WorldTrace.AddressedAfterConnect | crates/mudd/src/world_loop.rs:60-76 | in a well-addressed trace every frame to a session follows its Connect |
| WorldTrace.SilentAfterEnd | crates/mudd/src/world_loop.rs:60-95 | after Close is sent or Disconnect received nothing is sent to that session short of a new Connect |
| GatewayRuns.StepKeepsInv | crates/mud-gateway/src/connection.rs:43-187 | every step of every connection, the router and the World keeps the system invariant |
| GatewayRuns.SessionStreams | crates/mud-gateway/src/router.rs:1-98 | in any interleaving the World hears of a session a beginning of Connect, lines, Disconnect |
| GatewayRuns.RegisterNeverOverwrites | crates/mud-gateway/src/router.rs:88-90 | a Register the router takes is for a session not registered |
| GatewayRuns.NeverRoutesTooEarly | crates/mud-gateway/src/router.rs:59-76 | a frame the router takes is for a session registered before; if it is gone, it deregistered |
| GatewayRuns.ClosedIsNotDisconnected | crates/mud-gateway/src/connection.rs:93-110 | a connection that consumed Close has sent no Disconnect and never will, and consumes nothing after it |
| GatewayRuns.DeliveredInOrder | crates/mud-gateway/src/router.rs:105-116 | what a connection receives are frames addressed to it, in their order, with their text, kind and mode, through a mailbox of 64 and a channel of 256 |
| GatewayRuns.LinesReachTheWorld | crates/mud-gateway/src/router.rs:50-98 | the lines the World hears of a session are those its connection has sent on, in order, but for the last ones still on their way |
| GatewayRuns.EndIsFinal | crates/mudd/src/world_loop.rs:45-95 | with the gateway in place, once the World has closed or lost a session it never addresses it again |
| GatewayRuns.ServingIsARun | crates/mudd/src/world_loop.rs:45-95 | what the World's loop guarantees of its trace makes it, from any state of the system, a run of enabled hearing and saying steps |
| GatewayTasks.Mailbox.TrySend | crates/mud-gateway/src/router.rs:113-115 | never blocks: a full or closed mailbox loses the payload |
| GatewayTasks.Router.OnCommand | crates/mud-gateway/src/router.rs:85-95 | the registry and the frames forwarded after one command, which is the step of the system that takes it |
| GatewayTasks.Router.OnFrame | crates/mud-gateway/src/router.rs:105-116 | puts what the frame says, word for word, last in that session's mailbox if it has room, and in no other, which is the step of the system that routes the frame |
| GatewayTasks.ConnectionTask.Run | crates/mud-gateway/src/connection.rs:43-110 | serves a beginning of what happens, sends on exactly the limited lines of the bytes it has read, and has written the offers and every response due, but for the last one when its write failed; unless the router is gone it ends with a Deregister, after a Disconnect exactly when the World did not close it; what it sends and takes are the acts of one life |
| ConnectionLives.ActIsAStep | crates/mud-gateway/src/connection.rs:43-187 | each act of such a life is an enabled step of the interleaved system and does to it just what it does to the connection |
| GatewayTasks.ConnectionTask.Serve | crates/mud-gateway/src/connection.rs:113-187 | the read and write loop ends only by client, by World or with the router; it writes exactly what each happening calls for, all of it when a Close or the client ends it, a beginning of the last response when a write fails |
| GatewayTasks.ConnectionTask.WriteBlock | crates/mud-gateway/src/connection.rs:154-169 | a line of space, the rendered text, a line end unless a prompt, and one prompt mark: its last two bytes are 255 239 once end-of-record is agreed, else 255 249 |
| ConnectionOutput.ClientSeesTheBlocks | crates/mud-gateway/src/connection.rs:84-187 | split at the prompt marks, what a client reads is exactly the blocks delivered, line for line, one screen each and in order, with only blank lines before them, whatever is negotiated, echoed or read meanwhile |
| ConnectionOutput.ServedClientSees | crates/mud-gateway/src/connection.rs:84-187 | what a served client has on its screens is one for one a beginning of the blocks delivered, missing at most the last, and none when the connection ended quietly |
| GatewayTasks.ConnectionTask.HandleEvents | crates/mud-gateway/src/connection.rs:191-219 | each line is checked once, in order, and sent on if the limiter lets it |
| StreamLines.ReadingOn | crates/mud-net/src/telnet/mod.rs:72-100 | the lines reported depend on the bytes received alone, not on how they are read or what is negotiated |
| StreamLines.TypedLinesAreRead | crates/mud-net/src/telnet/mod.rs:72-100 | lines a client types under any mix of endings, with any negotiation between their bytes, are the lines read, but for those over the cap |
| GatewayTasks.KeptInOrder | crates/mud-gateway/src/connection.rs:191-213 | each line let through goes to the World decoded, as many places along as lines were let through before it |
| GatewayTasks.WorldIsSpared | crates/mud-gateway/src/connection.rs:191-213 | whatever a client sends, the lines reaching the World are at most its burst plus its rate times the time passed |
| RateLimiting.RateLimiter.Check | crates/mud-net/src/ratelimit.rs:82-92 | forwards exactly when the drained bucket has room for one more |
| RateLimiting.LimiterRespects | crates/mud-net/src/ratelimit.rs:82-92 | the level never passes the burst |
| RateLimiting.WindowBound | crates/mud-net/src/ratelimit.rs:82-92 | no policy within the bucket forwards more than burst plus rate times clock advance over any stretch, clocks going back included |
| RateLimiting.LimiterIsOptimal | crates/mud-net/src/ratelimit.rs:82-92 | at every prefix the limiter has forwarded at least as much as any other policy within the same bucket |
| MarkupModel.TokensKeepInput | crates/mud-core/src/text/markup.rs:83-118 | tokens read back to the input |
| MarkupModel.InnermostColorWins | crates/mud-core/src/text/markup.rs:199-211 | the innermost open tag that sets a colour decides it |
| MarkupModel.DefaultsShowAttributesUnite | crates/mud-core/src/text/markup.rs:199-211 | with no such tag the field default shows; attributes of all open tags unite |
| MarkupCompiler.Compiler.Run | crates/mud-core/src/text/markup.rs:83-126 | spans carry every visible character in the style of the tags open there, none empty, none styled without a style; of any page as a builder writes it they are its look and the diagnostics name its faults |
| MarkupCompiler.Compiler.ApplyTag | crates/mud-core/src/text/markup.rs:130-182 | closes the nearest tag or opens one, a refused one adding nothing |
| MarkupCompiler.Compiler.Flush | crates/mud-core/src/text/markup.rs:184-195 | the buffer becomes one span in the style before the tag |
| MarkupMeaning.TextIsTheTokens | crates/mud-core/src/text/markup.rs:83-118 | the text is the input with tags left out and doubled braces halved |
| MarkupMeaning.SilentMeansWellFormed | crates/mud-core/src/text/markup.rs:36-51 | no diagnostic if and only if every tag is terminated, allowed and balanced |
| MarkupTrees.MarkupTokens | crates/mud-core/src/text/markup.rs:83-118 | a document of nested tags, written out, is read back as its own tags and text |
| MarkupTrees.DocumentLooksSo | crates/mud-core/src/text/markup.rs:83-223 | however tags nest, each character of a document shows in the style of the tags around it, innermost first, and each bad tag is named once, in order |
| MarkupTrees.PageLooksSo | crates/mud-core/src/text/markup.rs:83-148 | so does a page with closes too many, tags left open or a last tag cut short, and each of those faults is named, the tags left open last and counted |
| MarkupTrees.ColorTagsShow | crates/mud-core/src/text/markup.rs:150-172 | {fg=name} and {bg=name} around any text give it the palette's colour as foreground or background over the field's own style, silently; an unknown colour, or any colour where none is allowed, leaves the style and is named |
| MarkupTrees.AttributeTagsShow | crates/mud-core/src/text/markup.rs:150-182 | {b}, {i} and {u} add exactly bold, italic and underline where allowed, silently; where not, they leave the style and are named |
| MarkupTrees.EscapeRoundTrip | crates/mud-core/src/text/markup.rs:14-16 | any text with its braces doubled compiles to itself in the field style, silently |

## Left out

- SQL text, connection pool, migrations and password hashing: the database is maps with the schema's keys and cascades, and account checks are arbitrary backend answers.
- Key conversion errors (row ids and slugs that do not parse): the tables hold typed keys.
- `usize` conversions of a slot on targets narrower than 32 bits, which make the tables ignore a slot.
- Keywords across a restart: they are not persisted, so a reload starts without them; occupant and content order across a restart is not kept either, since rows come unordered.
- PersistentStore.PersistentWorld.Reload: containment is claimed after a disciplined life only; an undisciplined one parts memory from the table at some step (ContainedThroughoutIffDisciplined).
- EchoProtocol.EchoSettles: the client answers WILL with DO or DONT only when not suppressing, and WONT with DONT only when suppressing; a client that breaks this is not modelled.
- Negotiation.OneAnswerPerChangeOfMind: is about tracked options; when an exchange about any option but ECHO loops is OptionLoops.LoopsIffCircling.
- Negotiation.RepeatedVerbIsSilent: is about tracked options; an option the server refuses is refused each time (OptionLoops.RefusedOptionsEnd), and DO ECHO is EchoProtocol.
- TelnetMachines.TelnetMachine.EncodeOutput: which ASCII characters stand for which others is any function.
- LineDecoding.LineDecoder.Push: gives raw bytes; the lossy UTF-8 decoding of a finished line is the `decode` function of the connection.
- Unicode lowercasing and locale rendering are parameters; white space is the Unicode White_Space set, written out.
- TrieStore.TrieNode.Insert: recursion down the key in place of a moving mutable cursor; the nodes are linked objects changed in place.
- LoginMachine.SessionFsm.OnInput: secrets are plain strings, without zeroing or redaction.
- WorldLoops.WorldLoop.Run: locks, logging and the resume handshake are left out; frames and ticks come in any order.
- WorldLoops.WorldLoop.HandleInput: the outcome of the command pipeline (effects, replies, broadcasts) is arbitrary, so what an in-world command means is not claimed.
- MarkupTrees.PageLooksSo: a closing brace that stands alone and undoubled shows as itself (MarkupCompiler.Compiler.Run); pages double theirs.
- EchoServed.ServedMasking: supposes the client has accepted every offer; for a client that may refuse the outcome is that of EchoProtocol.LastMaskingCallOfAnyClient on the run it serves.
- GatewayRuns.StepKeepsInv: the lines of one read may interleave with deliveries more freely than a connection allows; listener and socket failures are nondeterministic outcomes.
- GatewayTasks.ConnectionTask.Run: how much of a response goes out when its write fails is arbitrary.
- Progress in the gateway: bounded channels and dropped payloads, Close included, make it depend on the environment; only safety is proved.
- Locks, the resolver of object names, places, the i18n catalogue, presence texts, the tenant catalogue and configuration loading: presentation, plumbing or easy members.
- ANSI rendering and colour downsampling of styled text.
