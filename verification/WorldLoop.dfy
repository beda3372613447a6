/** What the World hears from the gateway and sends to it, and to which sessions. */
module WorldTrace {
  import opened Wrappers
  import opened SessionDriver
  import opened LoginModel

  datatype GatewayFrame = Connect(session: SessionId) | Input(session: SessionId, line: string) | Disconnect(session: SessionId) | Resume
  datatype WorldFrame =
    | Output(session: SessionId, text: string, kind: OutputKind)
    | Echo(session: SessionId, mode: InputEcho)
    | Close(session: SessionId)

  datatype Event = Got(incoming: GatewayFrame) | Sent(outgoing: WorldFrame)

  function OpenAfter(open: set<SessionId>, e: Event): set<SessionId> {
    if e.Got? && e.incoming.Connect? then open + {e.incoming.session}
    else if e.Got? && e.incoming.Disconnect? then open - {e.incoming.session}
    else if e.Sent? && e.outgoing.Close? then open - {e.outgoing.session}
    else open
  }

  /** Sessions that have connected, and have neither been closed nor disconnected since. */
  function Open(trace: seq<Event>): set<SessionId> {
    if trace == [] then {} else OpenAfter(Open(trace[..|trace| - 1]), trace[|trace| - 1])
  }

  ghost predicate WellAddressed(trace: seq<Event>) {
    forall i | 0 <= i < |trace| && trace[i].Sent? :: trace[i].outgoing.session in Open(trace[..i])
  }

  predicate Ends(e: Event, s: SessionId) {
    e == Got(Disconnect(s)) || e == Sent(Close(s))
  }

  /** The frames the World has received. */
  function GotFrames(trace: seq<Event>): seq<GatewayFrame> {
    if trace == [] then []
    else GotFrames(trace[..|trace| - 1]) + if trace[|trace| - 1].Got? then [trace[|trace| - 1].incoming] else []
  }

  lemma GotGrows(trace: seq<Event>, e: Event)
    ensures GotFrames(trace + [e]) == GotFrames(trace) + if e.Got? then [e.incoming] else []
  {
    assert (trace + [e])[..|trace|] == trace;
  }

  lemma {:induction false} GotAlong(trace: seq<Event>, n: nat)
    requires n <= |trace|
    ensures GotFrames(trace[..n]) <= GotFrames(trace)
    decreases |trace| - n
  {
    if n == |trace| {
      assert trace[..n] == trace;
    } else {
      assert trace[..n + 1] == trace[..n] + [trace[n]];
      GotGrows(trace[..n], trace[n]);
      GotAlong(trace, n + 1);
    }
  }

  lemma OpenGrows(trace: seq<Event>, e: Event)
    ensures Open(trace + [e]) == OpenAfter(Open(trace), e)
    ensures WellAddressed(trace) && (e.Sent? ==> e.outgoing.session in Open(trace)) ==> WellAddressed(trace + [e])
  {
    assert (trace + [e])[..|trace|] == trace;
    forall i | 0 <= i < |trace| ensures (trace + [e])[..i] == trace[..i] {
    }
  }

  lemma {:induction false} OpenHasConnected(trace: seq<Event>, s: SessionId, from: nat) returns (k: nat)
    requires from <= |trace| && s in Open(trace) && s !in Open(trace[..from])
    ensures from <= k < |trace| && trace[k] == Got(Connect(s))
    decreases |trace|
  {
    assert trace[..|trace|] == trace;
    var n := |trace| - 1;
    if trace[n] == Got(Connect(s)) {
      k := n;
    } else {
      assert trace[..n][..from] == trace[..from];
      k := OpenHasConnected(trace[..n], s, from);
    }
  }

  /** Whether the client of `s` masks its input by what it has been sent since it connected. */
  function ClientMasked(trace: seq<Event>, s: SessionId): bool {
    if trace == [] then false
    else
      var e := trace[|trace| - 1];
      if e == Got(Connect(s)) then false
      else if e.Sent? && e.outgoing.Echo? && e.outgoing.session == s then e.outgoing.mode.Suppressed?
      else ClientMasked(trace[..|trace| - 1], s)
  }

  /** Each of these sessions masks exactly while it awaits a secret. */
  ghost predicate MasksAs(trace: seq<Event>, views: map<SessionId, SessionView>) {
    forall s | s in views :: ClientMasked(trace, s) == Masked(Some(views[s]))
  }

  lemma MaskedGrows(trace: seq<Event>, e: Event, s: SessionId)
    ensures e == Got(Connect(s)) ==> !ClientMasked(trace + [e], s)
    ensures e.Sent? && e.outgoing.Echo? && e.outgoing.session == s ==> ClientMasked(trace + [e], s) == e.outgoing.mode.Suppressed?
    ensures e != Got(Connect(s)) && !(e.Sent? && e.outgoing.Echo? && e.outgoing.session == s) ==>
              ClientMasked(trace + [e], s) == ClientMasked(trace, s)
  {
    assert (trace + [e])[..|trace|] == trace;
  }

  function SentAll(frames: seq<WorldFrame>): seq<Event> {
    seq(|frames|, i requires 0 <= i < |frames| => Sent(frames[i]))
  }

  /** Frames without an echo change for `s` leave its masking alone. */
  lemma {:induction false} OthersMaskNothing(trace: seq<Event>, frames: seq<WorldFrame>, s: SessionId)
    requires forall f | f in frames :: f.Echo? ==> f.session != s
    ensures ClientMasked(trace + SentAll(frames), s) == ClientMasked(trace, s)
    decreases |frames|
  {
    if frames == [] {
      assert trace + SentAll(frames) == trace;
    } else {
      var n := |frames| - 1;
      OthersMaskNothing(trace, frames[..n], s);
      assert frames[n] in frames;
      assert trace + SentAll(frames) == trace + SentAll(frames[..n]) + [Sent(frames[n])];
      MaskedGrows(trace + SentAll(frames[..n]), Sent(frames[n]), s);
    }
  }

  function Framed(session: SessionId, outputs: seq<LoginOutput>): (frames: seq<WorldFrame>)
    ensures |frames| == |outputs|
    ensures forall i | 0 <= i < |outputs| ::
              match outputs[i]
              case Text(text, kind) => frames[i] == Output(session, text, kind)
              case EchoMode(mode) => frames[i] == Echo(session, mode)
  {
    if outputs == [] then []
    else
      Framed(session, outputs[..|outputs| - 1])
      + [match outputs[|outputs| - 1] case Text(text, kind) => Output(session, text, kind) case EchoMode(mode) => Echo(session, mode)]
  }

  /** What a line shows masks its client as told, and nobody else's. */
  lemma {:induction false} FramedMasks(trace: seq<Event>, session: SessionId, outputs: seq<LoginOutput>, s: SessionId)
    ensures ClientMasked(trace + SentAll(Framed(session, outputs)), s)
         == if s == session then MaskedBy(ClientMasked(trace, s), outputs) else ClientMasked(trace, s)
    decreases |outputs|
  {
    var frames := Framed(session, outputs);
    if outputs == [] {
      assert trace + SentAll(frames) == trace;
    } else {
      var n := |outputs| - 1;
      FramedMasks(trace, session, outputs[..n], s);
      assert frames == Framed(session, outputs[..n]) + [frames[n]];
      assert trace + SentAll(frames) == trace + SentAll(Framed(session, outputs[..n])) + [Sent(frames[n])];
      MaskedGrows(trace + SentAll(Framed(session, outputs[..n])), Sent(frames[n]), s);
    }
  }

  function ChangeEvents(session: SessionId, change: Option<InputEcho>): seq<Event> {
    if change.None? then [] else [Sent(Echo(session, change.value))]
  }

  function BlockEvents(session: SessionId, texts: seq<string>, secret: bool): seq<Event> {
    if texts == [] then [] else [Sent(Output(session, Join(texts), if secret then PromptBlock else LineBlock))]
  }

  /** The events of one login line: at most one echo change, then one block of all it says, a prompt exactly when a secret is awaited. */
  ghost predicate SaysOnWire(events: seq<Event>, session: SessionId, texts: seq<string>, secret: bool) {
    exists change :: events == ChangeEvents(session, change) + BlockEvents(session, texts, secret)
  }

  lemma FramedConcat(session: SessionId, a: seq<LoginOutput>, b: seq<LoginOutput>)
    ensures SentAll(Framed(session, a + b)) == SentAll(Framed(session, a)) + SentAll(Framed(session, b))
  {
    var whole, front, back := Framed(session, a + b), Framed(session, a), Framed(session, b);
    assert forall i | 0 <= i < |a| :: (a + b)[i] == a[i];
    assert forall i | 0 <= i < |b| :: (a + b)[|a| + i] == b[i];
    forall i | 0 <= i < |whole| ensures whole[i] == (front + back)[i] {
    }
    assert whole == front + back;
  }

  lemma ShownIsSaid(session: SessionId, outputs: seq<LoginOutput>, render: Message -> string, said: seq<Message>, secret: bool)
    requires ShowsWell(outputs, said, Join(Rendered(render, said)), secret)
    ensures SaysOnWire(SentAll(Framed(session, outputs)), session, Rendered(render, said), secret)
  {
    hide Join, Framed, SentAll, Rendered;
    var texts := Rendered(render, said);
    assert |texts| == |said| by { OneEach(render, said); }
    var echo: seq<LoginOutput>, block: seq<LoginOutput> :| outputs == echo + block && |echo| <= 1 && (forall o | o in echo :: o.EchoMode?)
      && block == if said == [] then [] else [Text(Join(texts), if secret then PromptBlock else LineBlock)];
    FramedConcat(session, echo, block);
    var change := ChangeOnWire(session, echo);
    BlockOnWire(session, block, texts, secret);
    assert SentAll(Framed(session, outputs)) == ChangeEvents(session, change) + BlockEvents(session, texts, secret);
  }

  lemma OneEach(render: Message -> string, said: seq<Message>)
    ensures |Rendered(render, said)| == |said|
  {
  }

  lemma ChangeOnWire(session: SessionId, echo: seq<LoginOutput>) returns (change: Option<InputEcho>)
    requires |echo| <= 1 && forall o | o in echo :: o.EchoMode?
    ensures SentAll(Framed(session, echo)) == ChangeEvents(session, change)
  {
    change := None;
    if echo != [] {
      assert echo[0] in echo;
      change := Some(echo[0].mode);
      assert echo == [EchoMode(echo[0].mode)];
    }
  }

  lemma BlockOnWire(session: SessionId, block: seq<LoginOutput>, texts: seq<string>, secret: bool)
    requires block == if texts == [] then [] else [Text(Join(texts), if secret then PromptBlock else LineBlock)]
    ensures SentAll(Framed(session, block)) == BlockEvents(session, texts, secret)
  {
    hide Join;
  }

  /** No frame reaches a session before its Connect. */
  lemma AddressedAfterConnect(trace: seq<Event>, i: nat) returns (k: nat)
    requires WellAddressed(trace) && i < |trace| && trace[i].Sent?
    ensures k < i && trace[k] == Got(Connect(trace[i].outgoing.session))
  {
    assert trace[..i][..0] == [];
    k := OpenHasConnected(trace[..i], trace[i].outgoing.session, 0);
  }

  /** After a session is closed or has gone, no frame is sent to it, short of a new Connect. */
  lemma SilentAfterEnd(trace: seq<Event>, j: nat, i: nat) returns (k: nat)
    requires WellAddressed(trace) && j < i < |trace| && trace[i].Sent? && Ends(trace[j], trace[i].outgoing.session)
    ensures j < k < i && trace[k] == Got(Connect(trace[i].outgoing.session))
  {
    var s := trace[i].outgoing.session;
    assert trace[..j + 1][..j] == trace[..j];
    assert s !in Open(trace[..j + 1]);
    assert trace[..i][..j + 1] == trace[..j + 1];
    k := OpenHasConnected(trace[..i], s, j + 1);
  }
}

/** The World's loop over gateway frames. */
module WorldLoops {
  import opened Wrappers
  import opened EntityIds
  import opened LoginModel
  import opened LoginRuns
  import opened SessionDriver
  import opened WorldTrace
  import opened PersistentStore
  import opened DurableRuns
  import LocationModel
  import WorldStore
  import WorldModel

  class Endpoint {
    ghost var trace: seq<Event>

    constructor ()
      ensures trace == []
    {
      trace := [];
    }

    /** False when the channel has failed. */
    method Send(frame: WorldFrame) returns (ok: bool)
      modifies this
      ensures trace == if ok then old(trace) + [Sent(frame)] else old(trace)
    {
      ok := *;
      if ok {
        trace := trace + [Sent(frame)];
      }
    }

    ghost method Receive(frame: GatewayFrame)
      modifies this
      ensures trace == old(trace) + [Got(frame)]
    {
      trace := trace + [Got(frame)];
    }
  }

  /** What a command leads to: effects to queue, replies, broadcasts to the occupants of places, and whether the session ends. */
  datatype Broadcast = Broadcast(occupants: seq<EntityId>, except: EntityId, text: string)
  datatype Reply = Reply(effects: seq<WorldModel.Effect>, replies: seq<string>, broadcasts: seq<Broadcast>, close: bool)
  datatype PipelineError = UnknownSession | CommandIdExhausted

  /** What wakes the loop: the ticker, or a frame from the gateway. */
  datatype Wake = Ticks | Arrives(frame: GatewayFrame)

  function FramesIn(wakes: seq<Wake>): seq<GatewayFrame> {
    if wakes == [] then []
    else FramesIn(wakes[..|wakes| - 1]) + if wakes[|wakes| - 1].Arrives? then [wakes[|wakes| - 1].frame] else []
  }

  function Submitted(effects: seq<WorldModel.Effect>): seq<WorldModel.Command> {
    seq(|effects|, i requires 0 <= i < |effects| => WorldModel.Command(None, effects[i]))
  }

  class WorldLoop {
    const sessions: SessionService
    const backend: Backend
    const endpoint: Endpoint

    constructor (render: Message -> string, backend: Backend, endpoint: Endpoint)
      requires endpoint.trace == [] && backend.Valid() && endpoint !in backend.store.world.Repr
      ensures Valid() && this.endpoint == endpoint && this.backend == backend && fresh(sessions)
    {
      sessions := new SessionService(render);
      this.backend := backend;
      this.endpoint := endpoint;
    }

    ghost predicate Valid()
      reads endpoint, sessions, sessions.Machines(), backend.store.world, backend.store.world.Repr
    {
      && sessions.Valid() && Grounded()
      && WellAddressed(endpoint.trace)
      && Open(endpoint.trace) == sessions.View().Keys
      && MasksAs(endpoint.trace, sessions.View())
    }

    /** The world is sound, and no part of the session table or of the channel. */
    ghost predicate Grounded()
      reads sessions, backend.store.world, backend.store.world.Repr
    {
      && backend.Valid() && sessions.Apart(backend)
      && endpoint !in backend.store.world.Repr && backend.store.world.scheduler in backend.store.world.Repr
    }

    ghost function Queue(): seq<WorldModel.Command>
      reads backend.store.world.scheduler
    {
      backend.store.world.scheduler.queue
    }

    /** These frames go to the room of the puppet this session plays: to every other puppet played there, and to nobody else. */
    ghost predicate ReachRoom(frames: seq<WorldFrame>, session: SessionId)
      reads sessions, backend.store.world, backend.store.world.db, backend.store.world.world
    {
      var mine := sessions.BindingOf(session);
      if mine.None? || RoomOf(mine.value.puppet).None? then frames == []
      else
        && (forall f | f in frames :: f.Output? && IsHearer(f.session, mine.value.puppet))
        && (forall s: SessionId | IsHearer(s, mine.value.puppet) :: Reaches(frames, sessions.BindingOf(s).value.puppet))
    }

    /** Some frame is for a session playing `puppet`. */
    ghost predicate Reaches(frames: seq<WorldFrame>, puppet: EntityId)
      reads sessions
    {
      exists f | f in frames :: sessions.BindingOf(f.session).Some? && sessions.BindingOf(f.session).value.puppet == puppet
    }

    /** `s` plays one of `entities` other than `except`. */
    ghost predicate PlaysOneOf(s: SessionId, entities: seq<EntityId>, except: EntityId)
      reads sessions
    {
      sessions.BindingOf(s).Some? && sessions.BindingOf(s).value.puppet in entities && sessions.BindingOf(s).value.puppet != except
    }

    ghost function RoomOf(entity: EntityId): Option<LocationModel.PlaceId>
      reads backend.store.world, backend.store.world.db, backend.store.world.world
    {
      backend.World().world.LocationOf(entity)
    }

    /** `s` plays a puppet other than `puppet`, in the same room. */
    ghost predicate IsHearer(s: SessionId, puppet: EntityId)
      reads sessions, backend.store.world, backend.store.world.db, backend.store.world.world
    {
      && sessions.BindingOf(s).Some? && sessions.BindingOf(s).value.puppet != puppet
      && RoomOf(sessions.BindingOf(s).value.puppet) == RoomOf(puppet)
    }

    /**
     * Serves what wakes it, in order, until nothing does or something fails. Every frame sent is addressed to an
     * open session, each client masks exactly while it owes a secret, and unless it fails memory stays as near to its
     * tables as it was.
     */
    method Run(wakes: seq<Wake>) returns (ok: bool, ghost served: nat)
      requires Valid()
      modifies endpoint, sessions, sessions.Machines(), backend, backend.store.world.Repr
      ensures WellAddressed(endpoint.trace) && old(endpoint.trace) <= endpoint.trace
      ensures served <= |wakes| && GotFrames(endpoint.trace) == old(GotFrames(endpoint.trace)) + FramesIn(wakes[..served])
      ensures ok ==> Valid() && served == |wakes| && MasksAs(endpoint.trace, sessions.View())
      ensures ok && NearlyAgrees(old(backend.World())) ==> NearlyAgrees(backend.World())
    {
      hide WellAddressed, Open, GotFrames, NearlyAgrees, Grounded, Spared, MasksAs;
      served := 0;
      for n := 0 to |wakes|
        invariant Valid() && old(endpoint.trace) <= endpoint.trace && served == n
        invariant GotFrames(endpoint.trace) == old(GotFrames(endpoint.trace)) + FramesIn(wakes[..n])
        invariant fresh(sessions.Machines() - old(sessions.Machines()))
        invariant NearlyAgrees(old(backend.World())) ==> NearlyAgrees(backend.World())
      {
        served := n + 1;
        OneMoreWake(wakes, n);
        match wakes[n] {
          case Ticks => ok := Tick();
          case Arrives(frame) => ok := Handle(frame);
        }
        if !ok {
          return;
        }
      }
      assert wakes[..|wakes|] == wakes;
      ok := true;
    }

    /** One durable tick; its failure is fatal, and no session or frame is touched either way. */
    method Tick() returns (ok: bool)
      requires Valid()
      modifies backend.store.world.Repr
      ensures endpoint.trace == old(endpoint.trace)
      ensures sessions.Machines() == old(sessions.Machines()) && sessions.View() == old(sessions.View())
      ensures ok ==> Valid() && Queue() == []
      ensures ok ==> DrainBoth(old(backend.World()), old(Queue())).Ok?
                     && backend.World() == DrainBoth(old(backend.World()), old(Queue())).value.0
      ensures ok && NearlyAgrees(old(backend.World())) ==> NearlyAgrees(backend.World())
    {
      hide WellAddressed, Open, AtOdds, NearlyAgrees, MasksAs;
      ghost var world, queue := backend.World(), Queue();
      var events := backend.store.world.Tick();
      ok := events.Ok?;
      if ok && NearlyAgrees(world) {
        DrainStaysNear(world, queue);
      }
    }

    method Handle(frame: GatewayFrame) returns (ok: bool)
      requires Valid()
      modifies endpoint, sessions, sessions.Machines(), backend, backend.store.world.Repr
      ensures WellAddressed(endpoint.trace) && old(endpoint.trace) + [Got(frame)] <= endpoint.trace
      ensures GotFrames(endpoint.trace) == old(GotFrames(endpoint.trace)) + [frame]
      ensures ok ==> Valid() && fresh(sessions.Machines() - old(sessions.Machines()))
      ensures Joined(old(backend.World()), backend.World()) && old(Queue()) <= Queue()
      ensures !frame.Input? ==> backend.World() == old(backend.World()) && Queue() == old(Queue())
      ensures ok ==> match frame
                     case Connect(session) =>
                       && sessions.View() == old(sessions.View())[session := AtLogin(Anon, [])]
                       && endpoint.trace == old(endpoint.trace) + [Got(frame), Greeting(session, sessions.render)]
                     case Disconnect(session) => sessions.View() == old(sessions.View()) - {session}
                     case Input(session, _) => sessions.View() - {session} == old(sessions.View()) - {session}
                     case Resume => sessions.View() == old(sessions.View()) && endpoint.trace == old(endpoint.trace) + [Got(frame)]
    {
      hide InputDone, SentAll, WellAddressed, GotFrames, Joined, ReachRoom, BoundIsResident, Backend.Valid, SessionService.Valid, Backend.World;
      hide MasksAs, ClientMasked, SaysNext, AllMessages, Rendered;
      JoinedAtOnce(backend.World());
      OpenGrows(endpoint.trace, Got(frame));
      GotGrows(endpoint.trace, Got(frame));
      sessions.IsOwned();
      HearingMasksNobody(endpoint.trace, frame, sessions.View());
      endpoint.Receive(frame);
      match frame
      case Connect(session) =>
        ok := HandleConnect(session);
      case Disconnect(session) =>
        ghost var farewells;
        ok, farewells := HandleDisconnect(session);
      case Input(session, line) =>
        ghost var routing, c, announced;
        ok, routing, c, announced := HandleInput(session, line);
      case Resume =>
        ok := true;
    }

    method HandleConnect(session: SessionId) returns (ok: bool)
      requires sessions.Valid() && Grounded() && WellAddressed(endpoint.trace)
      requires Open(endpoint.trace) == sessions.View().Keys + {session}
      requires MasksAs(endpoint.trace, sessions.View() - {session}) && !ClientMasked(endpoint.trace, session)
      modifies endpoint, sessions
      ensures WellAddressed(endpoint.trace) && old(endpoint.trace) <= endpoint.trace
      ensures GotFrames(endpoint.trace) == old(GotFrames(endpoint.trace))
      ensures ok ==> Valid() && fresh(sessions.Machines() - old(sessions.Machines()))
      ensures ok ==> sessions.View() == old(sessions.View())[session := AtLogin(Anon, [])]
      ensures ok ==> endpoint.trace == old(endpoint.trace) + [Greeting(session, sessions.render)]
    {
      hide SentAll, WellAddressed, Open, RenderBatch, GotFrames, Backend.Valid, MasksAs, ClientMasked, MaskedBy, Masked;
      ghost var views := sessions.View();
      var greeting := sessions.Connect(session);
      assert sessions.View() - {session} == views - {session};
      GreetingOnWire(endpoint.trace, session, sessions.render, sessions.View());
      ok := SendAll(Framed(session, greeting));
    }

    /**
     * A line at login is run to its end and shown first; only its own session can change, and unknown ones are ignored.
     * Of the world a login line can only create puppets, and an in-world line changes nothing before the next tick.
     */
    method HandleInput(session: SessionId, line: string) 
      returns (ok: bool, ghost routing: Routing, ghost c: Cycle, ghost announced: seq<WorldFrame>)
      requires Valid()
      modifies endpoint, sessions, sessions.Machines(), backend, backend.store.world.Repr
      ensures WellAddressed(endpoint.trace) && old(endpoint.trace) <= endpoint.trace
      ensures GotFrames(endpoint.trace) == old(GotFrames(endpoint.trace))
      ensures ok ==> Valid() && sessions.Machines() <= old(sessions.Machines())
      ensures ok ==> sessions.View() - {session} == old(sessions.View()) - {session}
      ensures Joined(old(backend.World()), backend.World()) && old(Queue()) <= Queue()
      ensures if routing.InWorldRouting? then backend.World() == old(backend.World()) else Queue() == old(Queue())
      ensures BoundIsResident(routing, backend.store.world.byKey)
      ensures ok && !routing.InWorldRouting? ==>
        old(backend.log) <= backend.log
        && InputDone(sessions.render, Find(old(sessions.View()), session), line, c, routing,
                     backend.log[|old(backend.log)|..], Find(sessions.View(), session))
      ensures ok && routing.LoginRouting? ==>
        && endpoint.trace == old(endpoint.trace) + SentAll(Framed(session, routing.outputs)) + SentAll(announced)
                           + Closing(session, routing.close)
        && SaysNext(old(endpoint.trace), endpoint.trace, session, Rendered(sessions.render, AllMessages(c.transitions)),
                    Masked(Find(sessions.View(), session)))
      ensures (forall f | f in announced :: f.Output? && f.session != session)
      ensures routing.LoginRouting? && routing.bound.None? ==> announced == []
      ensures ok && routing.Unknown? ==> endpoint.trace == old(endpoint.trace)
    {
      hide InputDone, LineDone, WellAddressed, Open, SentAll, GotFrames, Joined, ReachRoom, Backend.Valid, MasksAs, ClientMasked, MaskedBy, Masked;
      hide SaysNext, AllMessages, Rendered, IsIdle, AllIdle;
      announced := [];
      JoinedAtOnce(backend.World());
      ghost var views := sessions.View();
      ghost var known := Find(views, session);
      ghost var asked := backend.log;
      var outcome;
      outcome, c := sessions.OnInput(session, line, backend);
      routing := outcome;
      InputShape(sessions.render, known, line, c, routing, backend.log[|asked|..], Find(sessions.View(), session));
      OneViewChanged(views, sessions.View(), session);
      OthersMaskAlike(endpoint.trace, views, sessions.View(), session);
      ghost var before := endpoint.trace;
      match outcome
      case LoginRouting(outputs, close, bound) =>
        LineIsSaid(before, session, sessions.render, views, line, c, routing, backend.log[|asked|..], Find(sessions.View(), session));
        ok, announced := ShowLogin(session, outputs, close, bound);
      case InWorldRouting =>
        ok := RunCommand(session);
      case Unknown =>
        ok := true;
    }

    /** Sends what a login line shows, announces a puppet that has just entered, and closes a session that has left. */
    method ShowLogin(session: SessionId, outputs: seq<LoginOutput>, close: bool, bound: Option<EntityId>)
      returns (ok: bool, ghost announced: seq<WorldFrame>)
      requires sessions.Valid() && Grounded() && WellAddressed(endpoint.trace)
      requires session in Open(endpoint.trace)
      requires sessions.View().Keys == if close then Open(endpoint.trace) - {session} else Open(endpoint.trace)
      requires MasksAs(endpoint.trace, sessions.View() - {session})
      requires session in sessions.View() ==> MaskedBy(ClientMasked(endpoint.trace, session), outputs) == Masked(Some(sessions.View()[session]))
      modifies endpoint, sessions
      ensures WellAddressed(endpoint.trace) && old(endpoint.trace) <= endpoint.trace
      ensures GotFrames(endpoint.trace) == old(GotFrames(endpoint.trace))
      ensures ok ==> Valid() && sessions.Machines() <= old(sessions.Machines()) && sessions.View() == old(sessions.View())
      ensures ok ==> endpoint.trace == old(endpoint.trace) + SentAll(Framed(session, outputs)) + SentAll(announced) + Closing(session, close)
      ensures (forall f | f in announced :: f.Output? && f.session != session) && (bound.None? ==> announced == [])
      ensures ok && bound.Some? ==> old(ReachRoom(announced, session))
    {
      hide WellAddressed, Open, SentAll, GotFrames, ReachRoom, Backend.Valid, MasksAs, ClientMasked, MaskedBy, Masked;
      announced := [];
      FramesMask(endpoint.trace, session, outputs, sessions.View());
      ok := SendAll(Framed(session, outputs));
      if ok {
        ghost var shown := endpoint.trace;
        ok, announced := AnnounceArrival(session, bound);
        BlocksMaskNobody(shown, announced, sessions.View());
      }
      if ok && close {
        assert sessions.View() - {session} == sessions.View();
        ok := CloseSession(session);
      }
    }

    method AnnounceArrival(session: SessionId, bound: Option<EntityId>) returns (ok: bool, ghost announced: seq<WorldFrame>)
      requires sessions.Valid() && Grounded() && WellAddressed(endpoint.trace)
      requires sessions.View().Keys <= Open(endpoint.trace)
      modifies endpoint
      ensures WellAddressed(endpoint.trace) && old(endpoint.trace) <= endpoint.trace
      ensures GotFrames(endpoint.trace) == old(GotFrames(endpoint.trace))
      ensures ok ==> Open(endpoint.trace) == old(Open(endpoint.trace)) && endpoint.trace == old(endpoint.trace) + SentAll(announced)
      ensures (forall f | f in announced :: f.Output? && f.session != session) && (bound.None? ==> announced == [])
      ensures bound.Some? ==> ReachRoom(announced, session)
    {
      hide WellAddressed, Open, SentAll, GotFrames, ReachRoom, Backend.Valid;
      ok, announced := true, [];
      NothingSent(endpoint.trace);
      if bound.Some? {
        var announcements := PresenceAnnouncement(session);
        announced := announcements;
        ok := SendAll(announcements);
      }
    }

    method RunCommand(session: SessionId) returns (ok: bool)
      requires Valid() && session in sessions.View()
      modifies endpoint, sessions, backend.store.world.scheduler
      ensures WellAddressed(endpoint.trace) && old(endpoint.trace) <= endpoint.trace
      ensures GotFrames(endpoint.trace) == old(GotFrames(endpoint.trace))
      ensures ok ==> Valid() && sessions.Machines() <= old(sessions.Machines())
      ensures ok ==> sessions.View() - {session} == old(sessions.View()) - {session}
      ensures backend.World() == old(backend.World()) && old(Queue()) <= Queue()
    {
      hide WellAddressed, Open, SentAll, GotFrames, ReachRoom, Backend.World, SessionService.Valid, MasksAs, FansOut, RepliesTo;
      var dispatched := Dispatch();
      match dispatched
      case Err(UnknownSession) =>
        ok := true;
      case Err(CommandIdExhausted) =>
        ok := false;
      case Ok(reply) =>
        SubmitAll(reply.effects);
        ghost var replies, farewells;
        ok, replies, farewells := Answer(session, reply);
    }

    /** Queues effects for the next tick. */
    method SubmitAll(effects: seq<WorldModel.Effect>)
      requires Grounded()
      modifies backend.store.world.scheduler
      ensures Grounded() && backend.World() == old(backend.World()) && Queue() == old(Queue()) + Submitted(effects)
    {
      for n := 0 to |effects|
        invariant Grounded() && backend.World() == old(backend.World())
        invariant Queue() == old(Queue()) + Submitted(effects[..n])
      {
        assert Submitted(effects[..n + 1]) == Submitted(effects[..n]) + [WorldModel.Command(None, effects[n])];
        backend.store.world.Submit(WorldModel.Command(None, effects[n]));
      }
      assert effects[..|effects|] == effects;
    }

    /** Replies, then farewells worked out while the session is still bound and never sent to itself, then its close. */
    method Answer(session: SessionId, reply: Reply) returns (ok: bool, ghost replies: seq<WorldFrame>, ghost farewells: seq<WorldFrame>)
      requires Valid() && session in sessions.View()
      modifies endpoint, sessions
      ensures WellAddressed(endpoint.trace) && old(endpoint.trace) <= endpoint.trace
      ensures GotFrames(endpoint.trace) == old(GotFrames(endpoint.trace))
      ensures ok ==> Valid() && sessions.Machines() <= old(sessions.Machines())
      ensures ok ==> sessions.View() == if reply.close then old(sessions.View()) - {session} else old(sessions.View())
      ensures ok ==> endpoint.trace == old(endpoint.trace) + SentAll(replies + farewells) + Closing(session, reply.close)
      ensures RepliesTo(session, reply.replies) <= replies
      ensures old(FansOut(replies[|reply.replies|..], reply.broadcasts))
      ensures (forall f | f in farewells :: f.Output? && f.session != session) && (!reply.close ==> farewells == [])
      ensures reply.close ==> old(ReachRoom(farewells, session))
    {
      hide WellAddressed, Open, SentAll, RepliesTo, GotFrames, ReachRoom, Backend.Valid, SessionService.Valid, FansOut, MasksAs, ClientMasked;
      sessions.IsOwned();
      var frames := ReplyFrames(session, reply);
      replies, farewells := frames, [];
      if !reply.close {
        assert frames + [] == frames;
        BlocksMaskNobody(endpoint.trace, frames, sessions.View());
        ok := SendAll(frames);
        return;
      }
      var goodbyes := PresenceAnnouncement(session);
      farewells := goodbyes;
      BlocksMaskNobody(endpoint.trace, frames + goodbyes, sessions.View());
      ok := SendAll(frames + goodbyes);
      if ok {
        FewerMask(endpoint.trace, sessions.View(), session);
        ok := CloseSession(session);
      }
    }

    /** Sends blocks and echo changes in order, to open sessions only. */
    method SendAll(frames: seq<WorldFrame>) returns (ok: bool)
      requires WellAddressed(endpoint.trace)
      requires forall f | f in frames :: !f.Close? && f.session in Open(endpoint.trace)
      modifies endpoint
      ensures WellAddressed(endpoint.trace) && old(endpoint.trace) <= endpoint.trace
      ensures GotFrames(endpoint.trace) == old(GotFrames(endpoint.trace))
      ensures ok ==> Open(endpoint.trace) == old(Open(endpoint.trace))
      ensures ok ==> endpoint.trace == old(endpoint.trace) + SentAll(frames)
    {
      hide WellAddressed, Open, SentAll, GotFrames;
      NothingSent(endpoint.trace);
      for n := 0 to |frames|
        invariant WellAddressed(endpoint.trace)
        invariant endpoint.trace == old(endpoint.trace) + SentAll(frames[..n])
        invariant Open(endpoint.trace) == old(Open(endpoint.trace)) && GotFrames(endpoint.trace) == old(GotFrames(endpoint.trace))
      {
        assert frames[n] in frames;
        OpenGrows(endpoint.trace, Sent(frames[n]));
        GotGrows(endpoint.trace, Sent(frames[n]));
        SentOneMore(frames, n);
        ok := endpoint.Send(frames[n]);
        if !ok {
          return;
        }
      }
      assert frames[..|frames|] == frames;
      ok := true;
    }

    method CloseSession(session: SessionId) returns (ok: bool)
      requires sessions.Valid() && Grounded() && WellAddressed(endpoint.trace)
      requires session in Open(endpoint.trace) && sessions.View().Keys - {session} == Open(endpoint.trace) - {session}
      requires MasksAs(endpoint.trace, sessions.View() - {session})
      modifies endpoint, sessions
      ensures WellAddressed(endpoint.trace) && old(endpoint.trace) <= endpoint.trace
      ensures GotFrames(endpoint.trace) == old(GotFrames(endpoint.trace))
      ensures ok ==> Valid() && sessions.Machines() <= old(sessions.Machines())
      ensures ok ==> endpoint.trace == old(endpoint.trace) + [Sent(Close(session))] && sessions.View() == old(sessions.View()) - {session}
    {
      OpenGrows(endpoint.trace, Sent(Close(session)));
      GotGrows(endpoint.trace, Sent(Close(session)));
      CloseMasksNobody(endpoint.trace, session, sessions.View() - {session});
      ok := endpoint.Send(Close(session));
      if ok {
        sessions.Disconnect(session);
      }
    }

    /** Tells the room of a session that has gone, then drops it; the session itself hears nothing. */
    method HandleDisconnect(session: SessionId) returns (ok: bool, ghost farewells: seq<WorldFrame>)
      requires sessions.Valid() && Grounded() && WellAddressed(endpoint.trace)
      requires Open(endpoint.trace) == sessions.View().Keys - {session} && MasksAs(endpoint.trace, sessions.View() - {session})
      modifies endpoint, sessions
      ensures WellAddressed(endpoint.trace) && old(endpoint.trace) <= endpoint.trace
      ensures GotFrames(endpoint.trace) == old(GotFrames(endpoint.trace))
      ensures ok ==> Valid() && sessions.Machines() <= old(sessions.Machines()) && sessions.View() == old(sessions.View()) - {session}
      ensures ok ==> endpoint.trace == old(endpoint.trace) + SentAll(farewells)
      ensures forall f | f in farewells :: f.Output? && f.session != session
      ensures old(ReachRoom(farewells, session))
    {
      hide SentAll, GotFrames, ReachRoom, Backend.Valid, MasksAs, ClientMasked;
      var goodbyes := PresenceAnnouncement(session);
      farewells := goodbyes;
      BlocksMaskNobody(endpoint.trace, goodbyes, sessions.View() - {session});
      ok := SendAll(goodbyes);
      if ok {
        sessions.Disconnect(session);
      }
    }

    /** The frames announcing a puppet to its room: none without a binding or a place, and never one to itself. */
    method PresenceAnnouncement(session: SessionId) returns (frames: seq<WorldFrame>)
      requires sessions.Valid() && Grounded()
      ensures ReachRoom(frames, session)
      ensures forall f | f in frames :: f.Output? && f.session in sessions.View() && f.session != session
    {
      hide SessionService.Valid, WorldStore.World.Valid, ReachRoom, PlaysOneOf, Reaches;
      NobodyToReach(session);
      var binding := sessions.BindingOf(session);
      if binding.None? {
        return [];
      }
      var world := backend.store.world.world;
      var place := world.LocationOf(binding.value.puppet);
      if place.None? {
        return [];
      }
      var occupants := world.OccupantsOf(place.value);
      var text: string := *;
      frames := Announce(occupants, binding.value.puppet, text);
      OccupantsAreReached(frames, session, occupants);
    }

    lemma NobodyToReach(session: SessionId)
      ensures sessions.BindingOf(session).None? || RoomOf(sessions.BindingOf(session).value.puppet).None? ==> ReachRoom([], session)
    {
    }

    lemma OccupantsAreReached(frames: seq<WorldFrame>, session: SessionId, occupants: seq<EntityId>)
      requires sessions.BindingOf(session).Some?
      requires var puppet := sessions.BindingOf(session).value.puppet;
               && RoomOf(puppet).Some?
               && (forall h :: h in occupants <==> RoomOf(h) == RoomOf(puppet))
               && (forall f | f in frames :: f.Output? && PlaysOneOf(f.session, occupants, puppet))
               && (forall s: SessionId | PlaysOneOf(s, occupants, puppet) :: Reaches(frames, sessions.BindingOf(s).value.puppet))
      ensures ReachRoom(frames, session)
      ensures forall f | f in frames :: f.session != session
    {
      hide RoomOf, SessionService.BindingOf, Reaches;
      var puppet := sessions.BindingOf(session).value.puppet;
      forall s: SessionId ensures PlaysOneOf(s, occupants, puppet) <==> IsHearer(s, puppet) {
      }
      hide PlaysOneOf, IsHearer;
      forall f | f in frames ensures f.session != session {
        NobodyHearsItself(f.session, puppet);
      }
    }

    lemma NobodyHearsItself(s: SessionId, puppet: EntityId)
      requires IsHearer(s, puppet)
      ensures sessions.BindingOf(s).Some? && sessions.BindingOf(s).value.puppet != puppet
    {
    }

    /** Frames for the occupants, other than `except`, that some session plays, and for nobody else. */
    method Announce(occupants: seq<EntityId>, except: EntityId, text: string) returns (frames: seq<WorldFrame>)
      requires sessions.Valid()
      ensures forall f | f in frames :: f == Output(f.session, text, LineBlock) && f.session in sessions.View()
                                        && PlaysOneOf(f.session, occupants, except)
      ensures forall s: SessionId | PlaysOneOf(s, occupants, except) :: Reaches(frames, sessions.BindingOf(s).value.puppet)
    {
      frames := [];
      for n := 0 to |occupants|
        invariant forall f | f in frames :: f == Output(f.session, text, LineBlock) && f.session in sessions.View()
                                            && PlaysOneOf(f.session, occupants, except)
        invariant forall s: SessionId | PlaysOneOf(s, occupants[..n], except) :: Reaches(frames, sessions.BindingOf(s).value.puppet)
      {
        assert occupants[..n + 1] == occupants[..n] + [occupants[n]];
        ghost var earlier := frames;
        if occupants[n] != except {
          var listener := SessionOf(occupants[n]);
          if listener.Some? {
            frames := frames + [Output(listener.value, text, LineBlock)];
            assert frames[|earlier|] in frames;
          }
        }
        assert forall f | f in earlier :: f in frames;
      }
      assert occupants[..|occupants|] == occupants;
    }

    /** Some session playing `entity`, if any does. */
    method SessionOf(entity: EntityId) returns (r: Option<SessionId>)
      ensures r.Some? ==> sessions.BindingOf(r.value).Some? && sessions.BindingOf(r.value).value.puppet == entity
      ensures r.None? ==> forall s: SessionId | sessions.BindingOf(s).Some? :: sessions.BindingOf(s).value.puppet != entity
    {
      var todo := sessions.sessions.Keys;
      while todo != {}
        invariant forall s: SessionId | sessions.BindingOf(s).Some? && s !in todo :: sessions.BindingOf(s).value.puppet != entity
      {
        var s :| s in todo;
        var binding := sessions.BindingOf(s);
        if binding.Some? && binding.value.puppet == entity {
          return Some(s);
        }
        todo := todo - {s};
      }
      r := None;
    }

    /** The command pipeline, about which only the shape of its answer is known. */
    method Dispatch() returns (r: Result<Reply, PipelineError>)
    {
      r := *;
    }

    /** `heard` takes each broadcast to every played occupant but its `except`, and nothing to anybody else. */
    ghost predicate FansOut(heard: seq<WorldFrame>, broadcasts: seq<Broadcast>)
      reads sessions
    {
      && (forall b, s: SessionId | b in broadcasts && PlaysOneOf(s, b.occupants, b.except) ::
            Carries(heard, b.text, sessions.BindingOf(s).value.puppet))
      && (forall f | f in heard :: exists b :: b in broadcasts && f == Output(f.session, b.text, LineBlock) && PlaysOneOf(f.session, b.occupants, b.except))
    }

    /** Some frame takes this text to a session playing `puppet`. */
    ghost predicate Carries(heard: seq<WorldFrame>, text: string, puppet: EntityId)
      reads sessions
    {
      exists f | f in heard :: f == Output(f.session, text, LineBlock)
        && sessions.BindingOf(f.session).Some? && sessions.BindingOf(f.session).value.puppet == puppet
    }

    lemma OneMoreBroadcast(heard: seq<WorldFrame>, broadcasts: seq<Broadcast>, b: Broadcast, more: seq<WorldFrame>)
      requires FansOut(heard, broadcasts)
      requires forall f | f in more :: f == Output(f.session, b.text, LineBlock) && PlaysOneOf(f.session, b.occupants, b.except)
      requires forall s: SessionId | PlaysOneOf(s, b.occupants, b.except) :: Reaches(more, sessions.BindingOf(s).value.puppet)
      ensures FansOut(heard + more, broadcasts + [b])
    {
      hide SessionService.BindingOf;
      var all := heard + more;
      forall c, s: SessionId | c in broadcasts + [b] && PlaysOneOf(s, c.occupants, c.except)
        ensures Carries(all, c.text, sessions.BindingOf(s).value.puppet)
      {
        var puppet := sessions.BindingOf(s).value.puppet;
        if c in broadcasts {
          assert Carries(heard, c.text, puppet);
        } else {
          assert Reaches(more, puppet);
        }
      }
      forall f | f in all
        ensures exists c :: c in broadcasts + [b] && f == Output(f.session, c.text, LineBlock) && PlaysOneOf(f.session, c.occupants, c.except)
      {
        if f in heard {
          var c :| c in broadcasts && f == Output(f.session, c.text, LineBlock) && PlaysOneOf(f.session, c.occupants, c.except);
          assert c in broadcasts + [b];
        } else {
          assert b in broadcasts + [b];
        }
      }
    }

    /** Replies to the caller, then each broadcast fanned out. */
    method ReplyFrames(session: SessionId, reply: Reply) returns (frames: seq<WorldFrame>)
      requires sessions.Valid() && session in sessions.View()
      ensures forall f | f in frames :: f.Output? && f.session in sessions.View()
      ensures RepliesTo(session, reply.replies) <= frames && FansOut(frames[|reply.replies|..], reply.broadcasts)
    {
      hide FansOut, PlaysOneOf, Reaches;
      frames := [];
      for n := 0 to |reply.replies|
        invariant frames == RepliesTo(session, reply.replies[..n])
      {
        frames := frames + [Output(session, reply.replies[n], LineBlock)];
        assert frames == RepliesTo(session, reply.replies[..n + 1]);
      }
      assert reply.replies[..|reply.replies|] == reply.replies;
      NothingFannedOut();
      assert frames[|reply.replies|..] == [];
      for n := 0 to |reply.broadcasts|
        invariant RepliesTo(session, reply.replies) <= frames && FansOut(frames[|reply.replies|..], reply.broadcasts[..n])
        invariant forall f | f in frames :: f.Output? && f.session in sessions.View()
      {
        var b := reply.broadcasts[n];
        var heard := Announce(b.occupants, b.except, b.text);
        OneMoreBroadcast(frames[|reply.replies|..], reply.broadcasts[..n], b, heard);
        assert reply.broadcasts[..n + 1] == reply.broadcasts[..n] + [b];
        assert (frames + heard)[|reply.replies|..] == frames[|reply.replies|..] + heard;
        frames := frames + heard;
      }
      assert reply.broadcasts[..|reply.broadcasts|] == reply.broadcasts;
    }

    lemma NothingFannedOut()
      ensures FansOut([], [])
    {
    }
  }

  function Closing(session: SessionId, close: bool): seq<Event> {
    if close then [Sent(Close(session))] else []
  }

  function RepliesTo(session: SessionId, replies: seq<string>): seq<WorldFrame> {
    seq(|replies|, i requires 0 <= i < |replies| => Output(session, replies[i], LineBlock))
  }

  /** The one block a new session is sent. */
  function Greeting(session: SessionId, render: Message -> string): Event {
    Sent(Output(session, render(Banner) + "\n" + render(LoginInstructions), LineBlock))
  }

  // Masking along the trace.

  lemma HearingMasksNobody(trace: seq<Event>, frame: GatewayFrame, views: map<SessionId, SessionView>)
    requires MasksAs(trace, views)
    ensures MasksAs(trace + [Got(frame)], if frame.Connect? then views - {frame.session} else views)
    ensures frame.Connect? ==> !ClientMasked(trace + [Got(frame)], frame.session)
    ensures frame.Disconnect? ==> MasksAs(trace + [Got(frame)], views - {frame.session})
  {
    hide ClientMasked, Masked;
    forall s: SessionId ensures ClientMasked(trace + [Got(frame)], s) == if frame == Connect(s) then false else ClientMasked(trace, s) {
      MaskedGrows(trace, Got(frame), s);
    }
  }

  lemma BlocksMaskNobody(trace: seq<Event>, frames: seq<WorldFrame>, views: map<SessionId, SessionView>)
    requires MasksAs(trace, views) && forall f | f in frames :: f.Output?
    ensures MasksAs(trace + SentAll(frames), views)
  {
    hide ClientMasked, Masked, SentAll;
    forall s | s in views ensures ClientMasked(trace + SentAll(frames), s) == ClientMasked(trace, s) {
      OthersMaskNothing(trace, frames, s);
    }
  }

  lemma CloseMasksNobody(trace: seq<Event>, session: SessionId, views: map<SessionId, SessionView>)
    requires MasksAs(trace, views)
    ensures MasksAs(trace + [Sent(Close(session))], views)
  {
    hide ClientMasked, Masked;
    forall s | s in views ensures ClientMasked(trace + [Sent(Close(session))], s) == ClientMasked(trace, s) {
      MaskedGrows(trace, Sent(Close(session)), s);
    }
  }

  lemma FewerMask(trace: seq<Event>, views: map<SessionId, SessionView>, session: SessionId)
    requires MasksAs(trace, views)
    ensures MasksAs(trace, views - {session})
  {
  }

  lemma OthersMaskAlike(trace: seq<Event>, before: map<SessionId, SessionView>, after: map<SessionId, SessionView>, session: SessionId)
    requires MasksAs(trace, before) && before - {session} == after - {session}
    ensures MasksAs(trace, after - {session})
    ensures session in before ==> ClientMasked(trace, session) == Masked(Find(before, session))
  {
    hide ClientMasked, Masked;
    FewerMask(trace, before, session);
  }

  lemma FramesMask(trace: seq<Event>, session: SessionId, outputs: seq<LoginOutput>, views: map<SessionId, SessionView>)
    requires MasksAs(trace, views - {session})
    requires session in views ==> MaskedBy(ClientMasked(trace, session), outputs) == Masked(Some(views[session]))
    ensures MasksAs(trace + SentAll(Framed(session, outputs)), views)
  {
    hide ClientMasked, Masked, MaskedBy, SentAll, Framed;
    forall s | s in views ensures ClientMasked(trace + SentAll(Framed(session, outputs)), s) == Masked(Some(views[s])) {
      FramedMasks(trace, session, outputs, s);
      if s != session { assert s in views - {session} && (views - {session})[s] == views[s]; }
    }
  }

  /** The greeting is one block of two messages, and masks nothing. */
  lemma GreetingOnWire(trace: seq<Event>, session: SessionId, render: Message -> string, views: map<SessionId, SessionView>)
    requires MasksAs(trace, views - {session}) && !ClientMasked(trace, session)
    requires session in views && views[session] == AtLogin(Anon, [])
    ensures var greeting := Framed(session, Flushed(RenderBatch(render, [Banner, LoginInstructions])));
            && SentAll(greeting) == [Greeting(session, render)]
            && MasksAs(trace + SentAll(greeting), views)
  {
    hide MasksAs, ClientMasked;
    var block := RenderBatch(render, [Banner, LoginInstructions]);
    assert Rendered(render, [Banner, LoginInstructions]) == [render(Banner)] + [render(LoginInstructions)];
    JoinOne(render(Banner));
    JoinOne(render(LoginInstructions));
    JoinConcat([render(Banner)], [render(LoginInstructions)]);
    MaskingOf(false, None, block);
    assert EchoOut(None) + Flushed(block) == Flushed(block);
    FramesMask(trace, session, Flushed(block), views);
  }

  /** After this, all that a line says has been sent, in one block. */
  ghost predicate SaysNext(before: seq<Event>, after: seq<Event>, session: SessionId, texts: seq<string>, secret: bool) {
    exists said :: SaysOnWire(said, session, texts, secret) && before + said <= after
  }

  lemma LineIsSaid(trace: seq<Event>, session: SessionId, render: Message -> string, views: map<SessionId, SessionView>, line: string, c: Cycle,
                   routing: Routing, asked: seq<Answer>, after: Option<SessionView>)
    requires AllIdle(views) && MasksAs(trace, views)
    requires InputDone(render, Find(views, session), line, c, routing, asked, after) && routing.LoginRouting?
    ensures MaskedBy(ClientMasked(trace, session), routing.outputs) == Masked(after)
    ensures forall events :: trace + SentAll(Framed(session, routing.outputs)) <= events ==>
              SaysNext(trace, events, session, Rendered(render, AllMessages(c.transitions)), Masked(after))
  {
    hide LineDone, ShowsWell, Framed, SentAll, Rendered, AllMessages, Masked, MaskedBy, ClientMasked, IsIdle, SaysOnWire, Join, EndsInPrompt;
    var before := views[session];
    assert IsIdle(before);
    LineShows(render, before, line, c, routing, asked, after);
    ShownIsSaid(session, routing.outputs, render, AllMessages(c.transitions), Masked(after));
  }

  lemma OneMoreWake(wakes: seq<Wake>, n: nat)
    requires n < |wakes|
    ensures FramesIn(wakes[..n + 1]) == FramesIn(wakes[..n]) + if wakes[n].Arrives? then [wakes[n].frame] else []
  {
    assert wakes[..n + 1][..n] == wakes[..n];
  }

  lemma SentOneMore(frames: seq<WorldFrame>, n: nat)
    requires n < |frames|
    ensures SentAll(frames[..n + 1]) == SentAll(frames[..n]) + [Sent(frames[n])]
  {
  }

  lemma NothingSent(trace: seq<Event>)
    ensures SentAll([]) == [] && trace + [] == trace
  {
  }

  lemma InputShape(render: Message -> string, before: Option<SessionView>, line: string, c: Cycle, routing: Routing,
                   asked: seq<Answer>, after: Option<SessionView>)
    requires InputDone(render, before, line, c, routing, asked, after)
    ensures match routing
            case LoginRouting(_, close, _) => before.Some? && after.Some? == !close
            case InWorldRouting => before.Some? && after == before
            case Unknown => before.None? && after == before
  {
    hide IsWholeCycle, LineOutputs, AnswersOf;
  }

  lemma OneViewChanged(before: map<SessionId, SessionView>, after: map<SessionId, SessionView>, session: SessionId)
    requires before - {session} == after - {session}
    ensures before.Keys - {session} == after.Keys - {session}
    ensures Find(before, session) == Find(after, session) ==> before == after
    ensures Find(before, session).Some? && Find(after, session).Some? ==> before.Keys == after.Keys
    ensures Find(before, session).Some? && Find(after, session).None? ==> after.Keys == before.Keys - {session}
  {
    assert (before - {session}).Keys == (after - {session}).Keys;
    forall s | s in before && s != session ensures s in after && after[s] == before[s] {
      assert (after - {session})[s] == (before - {session})[s];
    }
    forall s | s in after && s != session ensures s in before {
      assert s in after - {session};
    }
  }
}
