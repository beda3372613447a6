/** Connections, the router and the World's channel, as interleaved steps of one system. */
module GatewayProtocol {
  import LoginModel
  import opened SessionDriver
  import opened WorldTrace

  const OUTPUT_CAPACITY := 64
  const COMMAND_CAPACITY := 256
  const MAX_SESSION := 0xFFFF_FFFF_FFFF_FFFF

  datatype ToConnection = Block(text: string, kind: OutputKind) | SetEcho(mode: LoginModel.InputEcho) | CloseNow
  datatype ToRouter = Register(session: SessionId) | Forward(frame: GatewayFrame) | Deregister(session: SessionId)

  /** Where a connection task is; `Leaving(true)` still owes the World a Disconnect. */
  datatype Phase = Starting | Registered | Running | Leaving(owes: bool) | Told | Gone

  /** `consumed` keeps what the connection has taken out of its mailbox. */
  datatype Conn = Conn(phase: Phase, mailbox: seq<ToConnection>, consumed: seq<ToConnection>)

  /**
   * `processed` and `taken` keep the commands and frames the router has handled; `toWorld` every frame it
   * has sent, of which the World has received the first `heard`; `trace` what the World has heard and said.
   */
  datatype Gateway = Gateway(
    next: nat, conns: map<SessionId, Conn>, commands: seq<ToRouter>, registry: set<SessionId>, up: bool,
    processed: seq<ToRouter>, toWorld: seq<GatewayFrame>, heard: nat, trace: seq<Event>,
    fromWorld: seq<WorldFrame>, taken: seq<WorldFrame>)

  const START := Gateway(1, map[], [], {}, true, [], [], 0, [], [], [])

  datatype Step =
    | Accept
    | SendRegister(s: SessionId)
    | SendConnect(s: SessionId, greeted: bool)
    | SendInput(s: SessionId, line: string)
    | HangUp(s: SessionId)
    | Consume(s: SessionId, written: bool)
    | SendDisconnect(s: SessionId)
    | SendDeregister(s: SessionId)
    | GiveUp(s: SessionId)
    | TakeCommand
    | TakeFrame
    | StopRouter
    | WorldHears
    | WorldSays(frame: WorldFrame)

  function PhaseOf(g: Gateway, s: SessionId): Phase {
    if s in g.conns then g.conns[s].phase else Gone
  }

  predicate CanSend(g: Gateway) {
    g.up && |g.commands| < COMMAND_CAPACITY
  }

  predicate Enabled(g: Gateway, step: Step) {
    match step
    case Accept => 1 <= g.next <= MAX_SESSION
    case SendRegister(s) => CanSend(g) && PhaseOf(g, s).Starting?
    case SendConnect(s, _) => CanSend(g) && PhaseOf(g, s).Registered?
    case SendInput(s, _) => CanSend(g) && PhaseOf(g, s).Running?
    case HangUp(s) => PhaseOf(g, s).Running?
    case Consume(s, _) => PhaseOf(g, s).Running? && g.conns[s].mailbox != []
    case SendDisconnect(s) => CanSend(g) && PhaseOf(g, s) == Leaving(true)
    case SendDeregister(s) => CanSend(g) && (PhaseOf(g, s) == Leaving(false) || PhaseOf(g, s).Told?)
    case GiveUp(s) => !g.up && s in g.conns
    case TakeCommand => g.up && g.commands != []
    case TakeFrame => g.up && g.fromWorld != []
    case StopRouter => g.up
    case WorldHears => g.heard < |g.toWorld|
    case WorldSays(frame) => frame.session in Open(g.trace)
  }

  function WithPhase(g: Gateway, s: SessionId, phase: Phase): Gateway
    requires s in g.conns
  {
    g.(conns := g.conns[s := g.conns[s].(phase := phase)])
  }

  /** A connection queues a command and moves on. */
  function Queue(g: Gateway, s: SessionId, command: ToRouter, phase: Phase): Gateway
    requires s in g.conns
  {
    WithPhase(g, s, phase).(commands := g.commands + [command])
  }

  function Payload(frame: WorldFrame): ToConnection {
    match frame
    case Output(_, text, kind) => Block(text, kind)
    case Echo(_, mode) => SetEcho(mode)
    case Close(_) => CloseNow
  }

  /** The message is what this frame says, for this session. */
  predicate Arrives(frame: WorldFrame, s: SessionId, payload: ToConnection) {
    match payload
    case Block(text, kind) => frame == Output(s, text, kind)
    case SetEcho(mode) => frame == Echo(s, mode)
    case CloseNow => frame == Close(s)
  }

  lemma FrameArrives(frame: WorldFrame)
    ensures Arrives(frame, frame.session, Payload(frame))
  {
  }

  /** Takes the oldest message; Close ends the connection without a Disconnect, a failed write with one. */
  function Consumed(c: Conn, written: bool): Conn
    requires c.mailbox != []
  {
    var phase := if c.mailbox[0].CloseNow? then Leaving(false) else if written then Running else Leaving(true);
    Conn(phase, c.mailbox[1..], c.consumed + [c.mailbox[0]])
  }

  /** Never blocks: a full mailbox or a finished connection loses the payload. */
  function Offered(queue: seq<ToConnection>, receiving: bool, payload: ToConnection): seq<ToConnection> {
    if |queue| < OUTPUT_CAPACITY && receiving then queue + [payload] else queue
  }

  function Offer(c: Conn, payload: ToConnection): Conn {
    c.(mailbox := Offered(c.mailbox, !c.phase.Gone?, payload))
  }

  function AfterCommand(registry: set<SessionId>, command: ToRouter): set<SessionId> {
    match command
    case Register(s) => registry + {s}
    case Forward(_) => registry
    case Deregister(s) => registry - {s}
  }

  function FramesOf(commands: seq<ToRouter>): seq<GatewayFrame> {
    if commands == [] then []
    else FramesOf(commands[..|commands| - 1]) + if commands[|commands| - 1].Forward? then [commands[|commands| - 1].frame] else []
  }

  function Routed(g: Gateway, frame: WorldFrame): map<SessionId, Conn> {
    if frame.session in g.registry && frame.session in g.conns
    then g.conns[frame.session := Offer(g.conns[frame.session], Payload(frame))]
    else g.conns
  }

  function Do(g: Gateway, step: Step): Gateway
    requires Enabled(g, step)
  {
    match step
    case Accept => g.(next := g.next + 1, conns := g.conns[g.next := Conn(Starting, [], [])])
    case SendRegister(s) => Queue(g, s, Register(s), Registered)
    case SendConnect(s, greeted) => Queue(g, s, Forward(Connect(s)), if greeted then Running else Leaving(true))
    case SendInput(s, line) => Queue(g, s, Forward(Input(s, line)), Running)
    case HangUp(s) => WithPhase(g, s, Leaving(true))
    case Consume(s, written) => g.(conns := g.conns[s := Consumed(g.conns[s], written)])
    case SendDisconnect(s) => Queue(g, s, Forward(Disconnect(s)), Told)
    case SendDeregister(s) => Queue(g, s, Deregister(s), Gone)
    case GiveUp(s) => WithPhase(g, s, Gone)
    case TakeCommand =>
      var command := g.commands[0];
      g.(commands := g.commands[1..], processed := g.processed + [command],
         registry := AfterCommand(g.registry, command),
         toWorld := g.toWorld + if command.Forward? then [command.frame] else [])
    case TakeFrame =>
      g.(fromWorld := g.fromWorld[1..], taken := g.taken + [g.fromWorld[0]], conns := Routed(g, g.fromWorld[0]))
    case StopRouter => g.(up := false)
    case WorldHears => g.(heard := g.heard + 1, trace := g.trace + [Got(g.toWorld[g.heard])])
    case WorldSays(frame) => g.(trace := g.trace + [Sent(frame)], fromWorld := g.fromWorld + [frame])
  }

  // The order of one session's commands, as an automaton.

  datatype Stage = Fresh | Known | Live | Left | Silent | Finished | Bad

  predicate Concerns(command: ToRouter, s: SessionId) {
    match command
    case Register(t) => t == s
    case Forward(frame) => !frame.Resume? && frame.session == s
    case Deregister(t) => t == s
  }

  function Move(stage: Stage, command: ToRouter): Stage {
    match command
    case Register(_) => if stage.Fresh? then Known else Bad
    case Forward(frame) =>
      if frame.Connect? && stage.Known? then Live
      else if frame.Input? && stage.Live? then Live
      else if frame.Disconnect? && stage.Live? then Left
      else Bad
    case Deregister(_) => if stage.Live? then Silent else if stage.Left? then Finished else Bad
  }

  function StageOf(commands: seq<ToRouter>, s: SessionId): Stage {
    if commands == [] then Fresh
    else
      var earlier, last := StageOf(commands[..|commands| - 1], s), commands[|commands| - 1];
      if Concerns(last, s) then Move(earlier, last) else earlier
  }

  /** A connection has emitted exactly what its phase says; one that gave up, some beginning of it. */
  predicate PhaseMatches(phase: Phase, stage: Stage) {
    match phase
    case Starting => stage.Fresh?
    case Registered => stage.Known?
    case Running => stage.Live?
    case Leaving(_) => stage.Live?
    case Told => stage.Left?
    case Gone => !stage.Bad?
  }

  lemma StageGrows(commands: seq<ToRouter>, command: ToRouter, s: SessionId)
    ensures StageOf(commands + [command], s)
         == if Concerns(command, s) then Move(StageOf(commands, s), command) else StageOf(commands, s)
  {
    assert (commands + [command])[..|commands|] == commands;
  }

  lemma {:induction false} BadStays(commands: seq<ToRouter>, n: nat, s: SessionId)
    requires n <= |commands| && StageOf(commands[..n], s).Bad?
    ensures StageOf(commands, s).Bad?
    decreases |commands| - n
  {
    if n == |commands| {
      assert commands[..n] == commands;
    } else {
      assert commands[..n + 1] == commands[..n] + [commands[n]];
      StageGrows(commands[..n], commands[n], s);
      BadStays(commands, n + 1, s);
    }
  }

  /** A session's frames to the World: Connect first and once, then lines, then at most a Disconnect. */
  datatype Heard = Nothing | Talking | Departed | Garbled

  function HearFrame(h: Heard, frame: GatewayFrame): Heard {
    if frame.Connect? && h.Nothing? then Talking
    else if frame.Input? && h.Talking? then Talking
    else if frame.Disconnect? && h.Talking? then Departed
    else Garbled
  }

  predicate About(frame: GatewayFrame, s: SessionId) {
    !frame.Resume? && frame.session == s
  }

  function HeardOf(frames: seq<GatewayFrame>, s: SessionId): Heard {
    if frames == [] then Nothing
    else
      var earlier, last := HeardOf(frames[..|frames| - 1], s), frames[|frames| - 1];
      if About(last, s) then HearFrame(earlier, last) else earlier
  }

  lemma HeardGrows(frames: seq<GatewayFrame>, frame: GatewayFrame, s: SessionId)
    ensures HeardOf(frames + [frame], s) == if About(frame, s) then HearFrame(HeardOf(frames, s), frame) else HeardOf(frames, s)
  {
    assert (frames + [frame])[..|frames|] == frames;
  }

  function HeardAt(stage: Stage): Heard {
    match stage
    case Fresh => Nothing
    case Known => Nothing
    case Live => Talking
    case Silent => Talking
    case Left => Departed
    case Finished => Departed
    case Bad => Garbled
  }

  function FramesFor(frames: seq<GatewayFrame>, s: SessionId): seq<GatewayFrame> {
    if frames == [] then []
    else FramesFor(frames[..|frames| - 1], s) + if About(frames[|frames| - 1], s) then [frames[|frames| - 1]] else []
  }

  /** A beginning of Connect, any number of lines, and a Disconnect. */
  ghost predicate IsStream(frames: seq<GatewayFrame>, s: SessionId) {
    forall i | 0 <= i < |frames| ::
      if i == 0 then frames[i] == Connect(s)
      else (frames[i].Input? && frames[i].session == s) || (frames[i] == Disconnect(s) && i == |frames| - 1)
  }

  lemma {:induction false} HeardIsStream(frames: seq<GatewayFrame>, s: SessionId)
    requires !HeardOf(frames, s).Garbled?
    ensures var mine := FramesFor(frames, s);
            && IsStream(mine, s)
            && (HeardOf(frames, s).Nothing? <==> mine == [])
            && (HeardOf(frames, s).Departed? <==> mine != [] && mine[|mine| - 1].Disconnect?)
    decreases |frames|
  {
    if frames != [] {
      HeardIsStream(frames[..|frames| - 1], s);
    }
  }

  // The invariant.

  ghost predicate IsSubsequence<T(!new)>(a: seq<T>, b: seq<T>)
    decreases |b|
  {
    if a == [] then true
    else if b == [] then false
    else (a[|a| - 1] == b[|b| - 1] && IsSubsequence(a[..|a| - 1], b[..|b| - 1])) || IsSubsequence(a, b[..|b| - 1])
  }

  function PayloadsFor(frames: seq<WorldFrame>, s: SessionId): seq<ToConnection> {
    if frames == [] then []
    else
      PayloadsFor(frames[..|frames| - 1], s) + if frames[|frames| - 1].session == s then [Payload(frames[|frames| - 1])] else []
  }

  function Emitted(g: Gateway): seq<ToRouter> {
    g.processed + g.commands
  }

  /** What a connection has received is in order, addressed to it, and ends with any Close. */
  ghost predicate ConnOk(g: Gateway, s: SessionId)
    requires s in g.conns
  {
    var c := g.conns[s];
    && PhaseMatches(c.phase, StageOf(Emitted(g), s))
    && |c.mailbox| <= OUTPUT_CAPACITY
    && IsSubsequence(c.consumed + c.mailbox, PayloadsFor(g.taken, s))
    && (forall i | 0 <= i < |c.consumed| :: c.consumed[i].CloseNow? ==> i == |c.consumed| - 1)
    && (CloseNow in c.consumed ==>
          (c.phase == Leaving(false) || c.phase == Gone) && (StageOf(Emitted(g), s).Live? || StageOf(Emitted(g), s).Silent?))
  }

  ghost predicate SessionsOk(g: Gateway) {
    && g.next >= 1
    && (forall s | s in g.conns :: s < g.next && ConnOk(g, s))
    && (forall s: SessionId | s !in g.conns :: StageOf(Emitted(g), s).Fresh?)
  }

  ghost predicate RouterOk(g: Gateway) {
    && |g.commands| <= COMMAND_CAPACITY
    && g.toWorld == FramesOf(g.processed)
    && forall s: SessionId :: s in g.registry <==> StageOf(g.processed, s) in {Known, Live, Left}
  }

  ghost predicate WorldOk(g: Gateway) {
    && g.heard <= |g.toWorld| && GotFrames(g.trace) == g.toWorld[..g.heard]
    && WellAddressed(g.trace)
    && forall frame | frame in g.taken || frame in g.fromWorld :: StageOf(g.processed, frame.session) !in {Fresh, Known}
  }

  ghost predicate Inv(g: Gateway) {
    SessionsOk(g) && RouterOk(g) && WorldOk(g)
  }
}
