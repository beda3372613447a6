/** What every interleaving of the gateway keeps, and what follows for the World and for each client. */
module GatewayRuns {
  import opened SessionDriver
  import opened WorldTrace
  import opened GatewayProtocol

  // Each kind of step keeps the invariant.

  lemma {:induction false} SubsequenceWider<T(!new)>(a: seq<T>, b: seq<T>, x: T)
    requires IsSubsequence(a, b)
    ensures IsSubsequence(a, b + [x]) && IsSubsequence(a + [x], b + [x])
  {
    assert (b + [x])[..|b|] == b && (a + [x])[..|a|] == a;
  }

  lemma NeverBad(g: Gateway, s: SessionId)
    requires SessionsOk(g)
    ensures !StageOf(Emitted(g), s).Bad?
    ensures !StageOf(g.processed, s).Bad?
  {
    if s in g.conns { assert ConnOk(g, s); }
    if StageOf(g.processed, s).Bad? {
      assert Emitted(g)[..|g.processed|] == g.processed;
      BadStays(Emitted(g), |g.processed|, s);
    }
  }

  /** A connection queueing its next command, of the kind its phase allows. */
  lemma QueueKeepsInv(g: Gateway, s: SessionId, command: ToRouter, phase: Phase)
    requires Inv(g) && CanSend(g) && s in g.conns && Concerns(command, s)
    requires PhaseMatches(phase, Move(StageOf(Emitted(g), s), command))
    requires forall t: SessionId | t != s :: !Concerns(command, t)
    requires CloseNow in g.conns[s].consumed ==> phase.Gone? && command.Deregister?
    ensures Inv(Queue(g, s, command, phase))
  {
    hide StageOf, IsSubsequence, PayloadsFor, FramesOf, WellAddressed, GotFrames;
    var h := Queue(g, s, command, phase);
    assert Emitted(h) == Emitted(g) + [command];
    forall t: SessionId
      ensures StageOf(Emitted(h), t) == if t == s then Move(StageOf(Emitted(g), s), command) else StageOf(Emitted(g), t)
    {
      StageGrows(Emitted(g), command, t);
    }
    assert ConnOk(g, s);
    forall t | t in h.conns ensures t < h.next && ConnOk(h, t) {
      assert ConnOk(g, t);
    }
  }

  /** A connection changing phase without a word. */
  lemma PhaseKeepsInv(g: Gateway, s: SessionId, phase: Phase)
    requires Inv(g) && s in g.conns
    requires PhaseMatches(phase, StageOf(Emitted(g), s))
    requires CloseNow in g.conns[s].consumed ==> phase.Gone?
    ensures Inv(WithPhase(g, s, phase))
  {
    hide StageOf, PhaseMatches, IsSubsequence;
    var h := WithPhase(g, s, phase);
    assert Emitted(h) == Emitted(g);
    forall t | t in h.conns ensures t < h.next && ConnOk(h, t) {
      assert ConnOk(g, t);
    }
  }

  lemma ConsumeKeepsInv(g: Gateway, s: SessionId, written: bool)
    requires Inv(g) && Enabled(g, Consume(s, written))
    ensures Inv(Do(g, Consume(s, written)))
  {
    hide StageOf, IsSubsequence;
    var h := Do(g, Consume(s, written));
    assert Emitted(h) == Emitted(g);
    forall t | t in h.conns ensures t < h.next && ConnOk(h, t) {
      assert ConnOk(g, t);
      if t == s {
        var c := g.conns[s];
        assert (c.consumed + [c.mailbox[0]]) + c.mailbox[1..] == c.consumed + c.mailbox;
      }
    }
  }

  lemma AcceptKeepsInv(g: Gateway)
    requires Inv(g) && Enabled(g, Accept)
    ensures Inv(Do(g, Accept))
  {
    hide StageOf;
    var h := Do(g, Accept);
    assert Emitted(h) == Emitted(g) && g.next !in g.conns;
    forall t | t in h.conns ensures t < h.next && ConnOk(h, t) {
      if t in g.conns { assert ConnOk(g, t); }
    }
  }

  lemma TakeCommandKeepsInv(g: Gateway)
    requires Inv(g) && Enabled(g, TakeCommand)
    ensures Inv(Do(g, TakeCommand))
  {
    hide StageOf, IsSubsequence;
    var h, command := Do(g, TakeCommand), g.commands[0];
    assert Emitted(h) == Emitted(g);
    forall t | t in h.conns ensures t < h.next && ConnOk(h, t) { assert ConnOk(g, t); }
    forall t: SessionId ensures h.processed == g.processed + [command] && !StageOf(h.processed, t).Bad? && !StageOf(g.processed, t).Bad?
      ensures StageOf(h.processed, t) == if Concerns(command, t) then Move(StageOf(g.processed, t), command) else StageOf(g.processed, t)
    {
      NeverBad(g, t);
      NeverBad(h, t);
      StageGrows(g.processed, command, t);
    }
    assert h.processed[..|g.processed|] == g.processed;
    assert h.toWorld == FramesOf(h.processed);
    assert h.toWorld[..h.heard] == g.toWorld[..g.heard];
    hide ConnOk, PhaseMatches;
  }

  lemma TakeFrameKeepsInv(g: Gateway)
    requires Inv(g) && Enabled(g, TakeFrame)
    ensures Inv(Do(g, TakeFrame))
  {
    hide StageOf, PhaseMatches, ConnOk, PayloadsFor, Payload, Offer, WellAddressed;
    var h := Do(g, TakeFrame);
    assert Emitted(h) == Emitted(g);
    forall t | t in h.conns ensures t < h.next && ConnOk(h, t) {
      RoutedConnOk(g, t);
    }
    forall f | f in h.taken || f in h.fromWorld ensures f in g.taken || f in g.fromWorld { }
  }

  lemma RoutedConnOk(g: Gateway, t: SessionId)
    requires Enabled(g, TakeFrame) && t in g.conns && ConnOk(g, t)
    ensures ConnOk(Do(g, TakeFrame), t)
  {
    hide StageOf, IsSubsequence, PhaseMatches, Payload, PayloadsFor, Open;
    var h, frame := Do(g, TakeFrame), g.fromWorld[0];
    var c, payload := g.conns[t], Payload(frame);
    assert Emitted(h) == Emitted(g);
    PayloadsGrow(g.taken, frame, t);
    if frame.session == t {
      SubsequenceWider(c.consumed + c.mailbox, PayloadsFor(g.taken, t), payload);
      assert (c.consumed + c.mailbox) + [payload] == c.consumed + (c.mailbox + [payload]);
    }
  }

  lemma PayloadsGrow(frames: seq<WorldFrame>, frame: WorldFrame, s: SessionId)
    ensures PayloadsFor(frames + [frame], s)
         == if frame.session == s then PayloadsFor(frames, s) + [Payload(frame)] else PayloadsFor(frames, s)
  {
    assert (frames + [frame])[..|frames|] == frames;
    assert PayloadsFor(frames, s) + [] == PayloadsFor(frames, s);
  }

  lemma {:induction false} HeardFollowsStage(commands: seq<ToRouter>, s: SessionId)
    requires !StageOf(commands, s).Bad?
    ensures HeardOf(FramesOf(commands), s) == HeardAt(StageOf(commands, s))
    decreases |commands|
  {
    if commands != [] {
      var front, last := commands[..|commands| - 1], commands[|commands| - 1];
      HeardFollowsStage(front, s);
      if last.Forward? {
        HeardGrows(FramesOf(front), last.frame, s);
      } else {
        assert FramesOf(front) + [] == FramesOf(front);
      }
    }
  }

  lemma {:induction false} HeardMoves(frames: seq<GatewayFrame>, n: nat, s: SessionId)
    requires n <= |frames|
    ensures HeardOf(frames[..n], s).Garbled? ==> HeardOf(frames, s).Garbled?
    ensures !HeardOf(frames[..n], s).Nothing? ==> !HeardOf(frames, s).Nothing?
    decreases |frames| - n
  {
    if n == |frames| {
      assert frames[..n] == frames;
    } else {
      assert frames[..n + 1] == frames[..n] + [frames[n]];
      HeardGrows(frames[..n], frames[n], s);
      HeardMoves(frames, n + 1, s);
    }
  }

  lemma {:induction false} OpenWasHeard(trace: seq<Event>, s: SessionId)
    requires s in Open(trace)
    ensures !HeardOf(GotFrames(trace), s).Nothing?
    decreases |trace|
  {
    var front, last := trace[..|trace| - 1], trace[|trace| - 1];
    if s in Open(front) { OpenWasHeard(front, s); }
    if last.Got? {
      HeardGrows(GotFrames(front), last.incoming, s);
    } else {
      assert GotFrames(front) + [] == GotFrames(front);
    }
  }

  lemma WorldSaysKeepsInv(g: Gateway, frame: WorldFrame)
    requires Inv(g) && Enabled(g, WorldSays(frame))
    ensures Inv(Do(g, WorldSays(frame)))
  {
    hide StageOf, HeardOf, Open, PhaseMatches, IsSubsequence, PayloadsFor, FramesOf, WellAddressed, GotFrames;
    var h, s := Do(g, WorldSays(frame)), frame.session;
    OpenWasHeard(g.trace, s);
    HeardMoves(g.toWorld, g.heard, s);
    NeverBad(g, s);
    HeardFollowsStage(g.processed, s);
    OpenGrows(g.trace, Sent(frame));
    GotGrows(g.trace, Sent(frame));
    assert GotFrames(g.trace) + [] == GotFrames(g.trace);
    assert Emitted(h) == Emitted(g);
    forall t | t in h.conns ensures t < h.next && ConnOk(h, t) { assert ConnOk(g, t); }
  }

  lemma WorldHearsKeepsInv(g: Gateway)
    requires Inv(g) && Enabled(g, WorldHears)
    ensures Inv(Do(g, WorldHears))
  {
    hide StageOf, HeardOf, Open, PhaseMatches, IsSubsequence, PayloadsFor, FramesOf, WellAddressed, GotFrames;
    var h := Do(g, WorldHears);
    OpenGrows(g.trace, Got(g.toWorld[g.heard]));
    GotGrows(g.trace, Got(g.toWorld[g.heard]));
    assert g.toWorld[..g.heard + 1] == g.toWorld[..g.heard] + [g.toWorld[g.heard]];
    assert Emitted(h) == Emitted(g);
    forall t | t in h.conns ensures t < h.next && ConnOk(h, t) { assert ConnOk(g, t); }
  }

  /** Every enabled step of every task keeps the invariant. */
  lemma StepKeepsInv(g: Gateway, step: Step)
    requires Inv(g) && Enabled(g, step)
    ensures Inv(Do(g, step))
  {
    hide StageOf, WellAddressed;
    match step
    case Accept => AcceptKeepsInv(g);
    case SendRegister(s) => assert ConnOk(g, s); QueueKeepsInv(g, s, Register(s), Registered);
    case SendConnect(s, greeted) =>
      assert ConnOk(g, s);
      QueueKeepsInv(g, s, Forward(Connect(s)), if greeted then Running else Leaving(true));
    case SendInput(s, line) => assert ConnOk(g, s); QueueKeepsInv(g, s, Forward(Input(s, line)), Running);
    case HangUp(s) => assert ConnOk(g, s); PhaseKeepsInv(g, s, Leaving(true));
    case Consume(s, written) => ConsumeKeepsInv(g, s, written);
    case SendDisconnect(s) => assert ConnOk(g, s); QueueKeepsInv(g, s, Forward(Disconnect(s)), Told);
    case SendDeregister(s) => assert ConnOk(g, s); QueueKeepsInv(g, s, Deregister(s), Gone);
    case GiveUp(s) => assert ConnOk(g, s); NeverBad(g, s); PhaseKeepsInv(g, s, Gone);
    case TakeCommand => TakeCommandKeepsInv(g);
    case TakeFrame => TakeFrameKeepsInv(g);
    case StopRouter =>
      assert Emitted(Do(g, StopRouter)) == Emitted(g);
      forall t | t in g.conns ensures ConnOk(Do(g, StopRouter), t) { assert ConnOk(g, t); }
    case WorldHears => WorldHearsKeepsInv(g);
    case WorldSays(frame) => WorldSaysKeepsInv(g, frame);
  }

  ghost predicate IsRun(g: Gateway, steps: seq<Step>)
    decreases |steps|
  {
    steps == [] || (Enabled(g, steps[0]) && IsRun(Do(g, steps[0]), steps[1..]))
  }

  ghost function After(g: Gateway, steps: seq<Step>): Gateway
    requires IsRun(g, steps)
    decreases |steps|
  {
    if steps == [] then g else After(Do(g, steps[0]), steps[1..])
  }

  lemma {:induction false} RunKeepsInv(g: Gateway, steps: seq<Step>)
    requires Inv(g) && IsRun(g, steps)
    ensures Inv(After(g, steps))
    decreases |steps|
  {
    if steps != [] {
      StepKeepsInv(g, steps[0]);
      RunKeepsInv(Do(g, steps[0]), steps[1..]);
    }
  }

  lemma StartHolds()
    ensures Inv(START)
  {
    assert Emitted(START) == [];
  }

  // What holds after any run.

  /** The World hears of each session a beginning of Connect, lines, Disconnect, whatever else is going on. */
  lemma SessionStreams(steps: seq<Step>, s: SessionId)
    requires IsRun(START, steps)
    ensures IsStream(FramesFor(After(START, steps).toWorld, s), s)
    ensures IsStream(FramesFor(GotFrames(After(START, steps).trace), s), s)
  {
    StartHolds();
    RunKeepsInv(START, steps);
    StreamsHold(After(START, steps), s);
  }

  lemma StreamsHold(g: Gateway, s: SessionId)
    requires Inv(g)
    ensures !HeardOf(g.toWorld, s).Garbled? && !HeardOf(GotFrames(g.trace), s).Garbled?
    ensures IsStream(FramesFor(g.toWorld, s), s)
    ensures IsStream(FramesFor(GotFrames(g.trace), s), s)
  {
    hide StageOf, HeardOf, IsStream;
    NeverBad(g, s);
    HeardFollowsStage(g.processed, s);
    HeardMoves(g.toWorld, g.heard, s);
    HeardIsStream(g.toWorld, s);
    HeardIsStream(g.toWorld[..g.heard], s);
  }

  /**
   * What the World's loop does is a run of enabled steps: from any state of the system, if it goes on to serve
   * frames the router has sent, in order, and addresses open sessions only, each of its events is a step.
   */
  lemma {:induction false} ServingIsARun(g: Gateway, trace: seq<Event>, served: nat) returns (steps: seq<Step>)
    requires WellAddressed(trace) && g.trace <= trace
    requires g.heard + served <= |g.toWorld| && GotFrames(trace) == GotFrames(g.trace) + g.toWorld[g.heard..g.heard + served]
    ensures IsRun(g, steps) && (forall step | step in steps :: step.WorldHears? || step.WorldSays?)
    ensures After(g, steps).trace == trace && After(g, steps).heard == g.heard + served
    decreases |trace| - |g.trace|
  {
    hide Open, WellAddressed, GotFrames;
    var n := |g.trace|;
    if n == |trace| {
      assert g.trace == trace;
      assert GotFrames(trace) == GotFrames(trace) + g.toWorld[g.heard..g.heard + served];
      return [];
    }
    var e := trace[n];
    assert trace[..n] == g.trace && trace[..n + 1] == g.trace + [e];
    GotGrows(g.trace, e);
    GotAlong(trace, n + 1);
    var due := g.toWorld[g.heard..g.heard + served];
    var step := if e.Got? then WorldHears else WorldSays(e.outgoing);
    if e.Got? {
      assert GotFrames(trace)[|GotFrames(g.trace)|] == e.incoming == due[0];
      assert due == [due[0]] + g.toWorld[g.heard + 1..g.heard + served];
    } else {
      SentIsOpen(trace, n);
    }
    var rest := ServingIsARun(Do(g, step), trace, if e.Got? then served - 1 else served);
    steps := [step] + rest;
    assert steps[1..] == rest;
  }

  lemma SentIsOpen(trace: seq<Event>, n: nat)
    requires WellAddressed(trace) && n < |trace| && trace[n].Sent?
    ensures trace[n].outgoing.session in Open(trace[..n])
  {
  }

  /** The lines of one session among some frames. */
  function LinesHeard(frames: seq<GatewayFrame>, s: SessionId): seq<string> {
    if frames == [] then []
    else
      LinesHeard(frames[..|frames| - 1], s)
      + match frames[|frames| - 1]
        case Input(t, line) => if t == s then [line] else []
        case _ => []
  }

  /** The lines a connection has sent on, read off the steps of a run. */
  function LinesTyped(steps: seq<Step>, s: SessionId): seq<string> {
    if steps == [] then []
    else (match steps[0] case SendInput(t, line) => (if t == s then [line] else []) case _ => []) + LinesTyped(steps[1..], s)
  }

  lemma {:induction false} LinesHeardGrow(a: seq<GatewayFrame>, b: seq<GatewayFrame>, s: SessionId)
    ensures LinesHeard(a + b, s) == LinesHeard(a, s) + LinesHeard(b, s)
    decreases |b|
  {
    if b == [] {
      assert a + b == a;
    } else {
      assert (a + b)[..|a + b| - 1] == a + b[..|b| - 1];
      LinesHeardGrow(a, b[..|b| - 1], s);
    }
  }

  lemma {:induction false} FramesGrow(a: seq<ToRouter>, b: seq<ToRouter>)
    ensures FramesOf(a + b) == FramesOf(a) + FramesOf(b)
    decreases |b|
  {
    if b == [] {
      assert a + b == a;
    } else {
      assert (a + b)[..|a + b| - 1] == a + b[..|b| - 1];
      FramesGrow(a, b[..|b| - 1]);
    }
  }

  /** One step queues the line it sends, and no other. */
  lemma StepSendsLine(g: Gateway, step: Step, s: SessionId)
    requires Enabled(g, step)
    ensures LinesHeard(FramesOf(Emitted(Do(g, step))), s)
         == LinesHeard(FramesOf(Emitted(g)), s)
            + match step case SendInput(t, line) => (if t == s then [line] else []) case _ => []
  {
    hide LinesHeard, FramesOf;
    var was, now := Emitted(g), Emitted(Do(g, step));
    if step.TakeCommand? {
      assert now == was;
    } else {
      var more := Do(g, step).commands[|g.commands|..];
      assert now == was + more && |more| <= 1;
      FramesGrow(was, more);
      LinesHeardGrow(FramesOf(was), FramesOf(more), s);
      assert more == [] || more == [more[0]];
      OneCommandsLine(s);
      assert LinesHeard(FramesOf(was), s) + [] == LinesHeard(FramesOf(was), s);
    }
  }

  lemma OneCommandsLine(s: SessionId)
    ensures LinesHeard(FramesOf([]), s) == []
    ensures forall c: ToRouter ::
              LinesHeard(FramesOf([c]), s) == if c.Forward? && c.frame.Input? && c.frame.session == s then [c.frame.line] else []
  {
    forall command: ToRouter
      ensures LinesHeard(FramesOf([command]), s)
           == if command.Forward? && command.frame.Input? && command.frame.session == s then [command.frame.line] else []
    {
      assert [command][..0] == [];
      assert FramesOf([command]) == if command.Forward? then [command.frame] else [];
      if command.Forward? { assert [command.frame][..0] == []; }
    }
  }

  lemma {:induction false} QueuedAreTyped(g: Gateway, steps: seq<Step>, s: SessionId)
    requires IsRun(g, steps)
    ensures LinesHeard(FramesOf(Emitted(After(g, steps))), s) == LinesHeard(FramesOf(Emitted(g)), s) + LinesTyped(steps, s)
    decreases |steps|
  {
    hide Enabled, Do, FramesOf, LinesHeard;
    if steps != [] {
      StepSendsLine(g, steps[0], s);
      QueuedAreTyped(Do(g, steps[0]), steps[1..], s);
    }
  }

  lemma HeardAreQueued(g: Gateway, s: SessionId)
    requires RouterOk(g) && WorldOk(g)
    ensures LinesHeard(GotFrames(g.trace), s) <= LinesHeard(FramesOf(Emitted(g)), s)
  {
    hide FramesOf, LinesHeard, GotFrames, StageOf, WellAddressed;
    FramesGrow(g.processed, g.commands);
    LinesHeardGrow(g.toWorld, FramesOf(g.commands), s);
    LinesHeardGrow(g.toWorld[..g.heard], g.toWorld[g.heard..], s);
    assert g.toWorld == g.toWorld[..g.heard] + g.toWorld[g.heard..];
  }

  /** The lines the World hears of a session are those its connection has sent on, in order, but for the last ones still on their way. */
  lemma LinesReachTheWorld(steps: seq<Step>, s: SessionId)
    requires IsRun(START, steps)
    ensures LinesHeard(GotFrames(After(START, steps).trace), s) <= LinesTyped(steps, s)
  {
    hide FramesOf, LinesHeard, LinesTyped, SessionsOk, RouterOk, WorldOk;
    StartHolds();
    RunKeepsInv(START, steps);
    HeardAreQueued(After(START, steps), s);
    QueuedAreTyped(START, steps, s);
    OneCommandsLine(s);
    assert Emitted(START) == [];
    assert [] + LinesTyped(steps, s) == LinesTyped(steps, s);
  }

  /** When the router takes a Register, the session is not registered already. */
  lemma RegisterNeverOverwrites(steps: seq<Step>, s: SessionId)
    requires IsRun(START, steps)
    requires var g := After(START, steps); g.commands != [] && g.commands[0] == Register(s)
    ensures s !in After(START, steps).registry
  {
    hide StageOf;
    StartHolds();
    RunKeepsInv(START, steps);
    var g := After(START, steps);
    StageGrows(g.processed, Register(s), s);
    assert Emitted(g)[..|g.processed| + 1] == g.processed + [Register(s)];
    NeverBad(g, s);
    if StageOf(g.processed + [Register(s)], s).Bad? {
      BadStays(Emitted(g), |g.processed| + 1, s);
    }
  }

  /** A frame the router takes is for a session it has registered; if it is gone, that is because it deregistered. */
  lemma NeverRoutesTooEarly(steps: seq<Step>)
    requires IsRun(START, steps)
    requires After(START, steps).fromWorld != []
    ensures var g := After(START, steps);
            var s := g.fromWorld[0].session;
            Register(s) in g.processed && (s in g.registry || Deregister(s) in g.processed)
  {
    hide StageOf;
    StartHolds();
    RunKeepsInv(START, steps);
    var g := After(START, steps);
    var s := g.fromWorld[0].session;
    assert g.fromWorld[0] in g.fromWorld;
    NeverBad(g, s);
    StageHasCommands(g.processed, s);
  }

  lemma {:induction false} StageHasCommands(commands: seq<ToRouter>, s: SessionId)
    requires !StageOf(commands, s).Bad?
    ensures !StageOf(commands, s).Fresh? ==> Register(s) in commands
    ensures StageOf(commands, s).Silent? || StageOf(commands, s).Finished? ==> Deregister(s) in commands
    ensures StageOf(commands, s) in {Fresh, Known, Live, Silent} ==> Forward(Disconnect(s)) !in commands
    decreases |commands|
  {
    if commands != [] {
      StageHasCommands(commands[..|commands| - 1], s);
      assert commands == commands[..|commands| - 1] + [commands[|commands| - 1]];
    }
  }

  /** A client closed by the World is not reported to it as gone, then or later. */
  lemma ClosedIsNotDisconnected(steps: seq<Step>, s: SessionId)
    requires IsRun(START, steps)
    requires var g := After(START, steps); s in g.conns && CloseNow in g.conns[s].consumed
    ensures var g := After(START, steps);
            && Forward(Disconnect(s)) !in Emitted(g)
            && !Enabled(g, SendDisconnect(s)) && !Enabled(g, Consume(s, true)) && !Enabled(g, HangUp(s))
            && g.conns[s].consumed[|g.conns[s].consumed| - 1] == CloseNow
  {
    hide *;
    StartHolds();
    RunKeepsInv(START, steps);
    ClosedHolds(After(START, steps), s);
  }

  lemma ClosedHolds(g: Gateway, s: SessionId)
    requires Inv(g) && s in g.conns && CloseNow in g.conns[s].consumed
    ensures Forward(Disconnect(s)) !in Emitted(g)
    ensures !Enabled(g, SendDisconnect(s)) && !Enabled(g, Consume(s, true)) && !Enabled(g, HangUp(s))
    ensures g.conns[s].consumed[|g.conns[s].consumed| - 1] == CloseNow
  {
    hide StageOf, IsSubsequence, Emitted;
    assert ConnOk(g, s);
    StageHasCommands(Emitted(g), s);
  }

  /** Each message is one of the frames, taken in their order. */
  ghost predicate ArriveInOrder(payloads: seq<ToConnection>, frames: seq<WorldFrame>, s: SessionId) {
    exists picks: seq<nat> :: PicksInOrder(picks, payloads, frames, s)
  }

  ghost predicate PicksInOrder(picks: seq<nat>, payloads: seq<ToConnection>, frames: seq<WorldFrame>, s: SessionId) {
    && |picks| == |payloads|
    && (forall i, j | 0 <= i < j < |picks| :: picks[i] < picks[j])
    && forall i | 0 <= i < |picks| :: picks[i] < |frames| && Arrives(frames[picks[i]], s, payloads[i])
  }

  lemma {:induction false} SubsequenceArrives(payloads: seq<ToConnection>, frames: seq<WorldFrame>, s: SessionId)
    requires IsSubsequence(payloads, PayloadsFor(frames, s))
    ensures ArriveInOrder(payloads, frames, s)
    decreases |frames|
  {
    hide Arrives, PicksInOrder, IsSubsequence;
    if frames == [] || payloads == [] {
      NothingArrives(payloads, frames, s);
    } else {
      var n, last := |frames| - 1, |payloads| - 1;
      var lastArrives := LastOrEarlier(payloads, frames, s);
      if lastArrives {
        SubsequenceArrives(payloads[..last], frames[..n], s);
        var picks :| PicksInOrder(picks, payloads[..last], frames[..n], s);
        LastIsPicked(picks, payloads, frames, s);
      } else {
        SubsequenceArrives(payloads, frames[..n], s);
        var picks :| PicksInOrder(picks, payloads, frames[..n], s);
        LastIsPassed(picks, payloads, frames, s);
      }
    }
  }

  lemma NothingArrives(payloads: seq<ToConnection>, frames: seq<WorldFrame>, s: SessionId)
    requires IsSubsequence(payloads, PayloadsFor(frames, s)) && (frames == [] || payloads == [])
    ensures PicksInOrder([], payloads, frames, s)
  {
  }

  /** The last frame is the last message, or all of them are earlier. */
  lemma LastOrEarlier(payloads: seq<ToConnection>, frames: seq<WorldFrame>, s: SessionId) returns (last: bool)
    requires frames != [] && payloads != [] && IsSubsequence(payloads, PayloadsFor(frames, s))
    ensures var earlier := PayloadsFor(frames[..|frames| - 1], s);
            if last then
              && frames[|frames| - 1].session == s && payloads[|payloads| - 1] == Payload(frames[|frames| - 1])
              && IsSubsequence(payloads[..|payloads| - 1], earlier)
            else IsSubsequence(payloads, earlier)
  {
    hide Payload;
    var n := |frames| - 1;
    var earlier, all := PayloadsFor(frames[..n], s), PayloadsFor(frames, s);
    last := frames[n].session == s && payloads[|payloads| - 1] == Payload(frames[n]) && IsSubsequence(payloads[..|payloads| - 1], earlier);
    if frames[n].session == s {
      assert all[..|all| - 1] == earlier && all[|all| - 1] == Payload(frames[n]);
    } else {
      assert all == earlier;
    }
  }

  lemma LastIsPicked(picks: seq<nat>, payloads: seq<ToConnection>, frames: seq<WorldFrame>, s: SessionId)
    requires frames != [] && payloads != [] && frames[|frames| - 1].session == s && payloads[|payloads| - 1] == Payload(frames[|frames| - 1])
    requires PicksInOrder(picks, payloads[..|payloads| - 1], frames[..|frames| - 1], s)
    ensures PicksInOrder(picks + [|frames| - 1], payloads, frames, s)
  {
    hide Arrives, Payload;
    FrameArrives(frames[|frames| - 1]);
  }

  lemma LastIsPassed(picks: seq<nat>, payloads: seq<ToConnection>, frames: seq<WorldFrame>, s: SessionId)
    requires frames != [] && PicksInOrder(picks, payloads, frames[..|frames| - 1], s)
    ensures PicksInOrder(picks, payloads, frames, s)
  {
    hide Arrives;
  }

  /** What a client's connection gets is in order, from the frames addressed to it alone, through bounded buffers: their text, kind and mode. */
  lemma DeliveredInOrder(steps: seq<Step>, s: SessionId)
    requires IsRun(START, steps) && s in After(START, steps).conns
    ensures var g := After(START, steps);
            && ArriveInOrder(g.conns[s].consumed + g.conns[s].mailbox, g.taken, s)
            && |g.conns[s].mailbox| <= OUTPUT_CAPACITY && |g.commands| <= COMMAND_CAPACITY
  {
    hide StageOf, IsSubsequence, ArriveInOrder;
    StartHolds();
    RunKeepsInv(START, steps);
    var g := After(START, steps);
    assert ConnOk(g, s);
    SubsequenceArrives(g.conns[s].consumed + g.conns[s].mailbox, g.taken, s);
  }

  lemma {:induction false} HeardAlong(trace: seq<Event>, n: nat, s: SessionId)
    requires n <= |trace|
    ensures HeardOf(GotFrames(trace[..n]), s).Garbled? ==> HeardOf(GotFrames(trace), s).Garbled?
    ensures !HeardOf(GotFrames(trace[..n]), s).Nothing? ==> !HeardOf(GotFrames(trace), s).Nothing?
    decreases |trace| - n
  {
    hide HeardOf;
    if n == |trace| {
      assert trace[..n] == trace;
    } else {
      HeardEvent(trace, n, s);
      HeardAlong(trace, n + 1, s);
    }
  }

  lemma HeardEvent(trace: seq<Event>, n: nat, s: SessionId)
    requires n < |trace|
    ensures HeardOf(GotFrames(trace[..n + 1]), s)
         == if trace[n].Got? && About(trace[n].incoming, s) then HearFrame(HeardOf(GotFrames(trace[..n]), s), trace[n].incoming)
            else HeardOf(GotFrames(trace[..n]), s)
  {
    assert trace[..n + 1][..n] == trace[..n];
    if trace[n].Got? {
      HeardGrows(GotFrames(trace[..n]), trace[n].incoming, s);
    } else {
      assert GotFrames(trace[..n]) + [] == GotFrames(trace[..n]);
    }
  }

  /** Once the World has closed a session or heard it is gone, it never says anything to that session again. */
  lemma EndIsFinal(steps: seq<Step>, j: nat, i: nat)
    requires IsRun(START, steps)
    requires var trace := After(START, steps).trace;
             j < i < |trace| && trace[i].Sent?
    ensures !Ends(After(START, steps).trace[j], After(START, steps).trace[i].outgoing.session)
  {
    hide StageOf, HeardOf, Open, WellAddressed;
    StartHolds();
    RunKeepsInv(START, steps);
    var g := After(START, steps);
    var trace, s := g.trace, g.trace[i].outgoing.session;
    if Ends(trace[j], s) {
      var k := SilentAfterEnd(trace, j, i);
      EndWasHeard(trace, j, s);
      assert trace[..k][..j + 1] == trace[..j + 1];
      HeardAlong(trace[..k], j + 1, s);
      HeardEvent(trace, k, s);
      HeardAlong(trace, k + 1, s);
      StreamsHold(g, s);
    }
  }

  lemma EndWasHeard(trace: seq<Event>, j: nat, s: SessionId)
    requires WellAddressed(trace) && j < |trace| && Ends(trace[j], s)
    ensures !HeardOf(GotFrames(trace[..j + 1]), s).Nothing?
  {
    HeardEvent(trace, j, s);
    if trace[j].Sent? {
      OpenWasHeard(trace[..j], s);
    }
  }
}
