/** The lines in a raw byte stream, however it is read and whatever is negotiated meanwhile. */
module StreamLines {
  import opened IacParsing
  import opened LineDecoding
  import opened TelnetMachines
  import opened Negotiation

  function DataOf(items: seq<Item>): seq<byte> {
    if items == [] then [] else (if items[0].Data? then [items[0].b] else []) + DataOf(items[1..])
  }

  function LinesIn(events: seq<Event>): seq<seq<byte>> {
    if events == [] then [] else (if events[0].Line? then [events[0].bytes] else []) + LinesIn(events[1..])
  }

  function DataIn(bytes: seq<byte>): seq<byte> {
    DataOf(Parse(InData, bytes).1)
  }

  /** The complete lines of everything received so far. */
  function LinesRead(bytes: seq<byte>): seq<seq<byte>> {
    Decode(FRESH, DataIn(bytes)).1
  }

  /** The machine has read exactly these bytes. */
  ghost predicate Tracks(m: Machine, bytes: seq<byte>) {
    m.parser == Parse(InData, bytes).0 && m.line == Decode(FRESH, DataIn(bytes)).0
  }

  lemma {:induction false} DataConcat(a: seq<Item>, b: seq<Item>)
    ensures DataOf(a + b) == DataOf(a) + DataOf(b)
  {
    if a == [] {
      assert a + b == b;
    } else {
      assert (a + b)[0] == a[0] && (a + b)[1..] == a[1..] + b;
      DataConcat(a[1..], b);
    }
  }

  lemma {:induction false} LinesConcat(a: seq<Event>, b: seq<Event>)
    ensures LinesIn(a + b) == LinesIn(a) + LinesIn(b)
  {
    if a == [] {
      assert a + b == b;
    } else {
      assert (a + b)[0] == a[0] && (a + b)[1..] == a[1..] + b;
      LinesConcat(a[1..], b);
    }
  }

  /** What a batch of items does to the line decoder is decided by its data bytes alone. */
  lemma {:induction false} HandledLines(m: Machine, items: seq<Item>)
    ensures Handle(m, items).0.parser == m.parser
    ensures (Handle(m, items).0.line, LinesIn(Handle(m, items).1)) == Decode(m.line, DataOf(items))
    decreases |items|
  {
    if items != [] {
      var (next, first) := OnItem(m, items[0]);
      HandledLines(next, items[1..]);
      LinesConcat(first, Handle(next, items[1..]).1);
      ItemLines(m, items[0]);
      var data := if items[0].Data? then [items[0].b] else [];
      DecodeConcat(m.line, data, DataOf(items[1..]));
      hide OnItem, Feed;
    }
  }

  lemma ItemLines(m: Machine, item: Item)
    ensures var (next, events) := OnItem(m, item);
            && next.parser == m.parser
            && (next.line, LinesIn(events)) == Decode(m.line, if item.Data? then [item.b] else [])
  {
    var (next, events) := OnItem(m, item);
    if item.Data? {
      var (line, done) := Feed(m.line, item.b);
      assert [item.b][1..] == [] && Decode(line, []) == (line, []);
      if done.Some? { assert events == [Line(done.value)] && events[1..] == [] && [done.value] + [] == [done.value]; }
    } else if events != [] {
      var none: seq<seq<byte>> := [];
      assert events[1..] == [] && LinesIn(events[1..]) == none && none + none == none;
    }
  }

  lemma {:induction false} DroppedHaveNoData(items: seq<Item>)
    ensures DataOf(Accepted(items)) == DataOf(items)
  {
    if items != [] {
      DroppedHaveNoData(items[1..]);
      DataConcat(if items[0].Subnegotiation? && |items[0].payload| > MAX_SUBNEG_BYTES then [] else [items[0]], Accepted(items[1..]));
      assert [items[0]][1..] == [];
    }
  }

  /** The lines a client types, whatever it ends them with and whatever it says between their bytes, are the lines read. */
  lemma TypedLinesAreRead(items: seq<Item>, lines: seq<(seq<byte>, Ending)>)
    requires (forall i | i in items :: Sendable(i)) && (forall l | l in lines :: IsLine(l.0)) && ReadOneWay(lines)
    requires DataOf(items) == Wire(lines)
    ensures LinesRead(Frames(items)) == Fitting(lines)
  {
    hide Parse, Decode, DataOf, Frames;
    FramingRoundTrip(items);
    DroppedHaveNoData(items);
    LinesRoundTrip(lines);
  }

  /** Reading more reports exactly the lines that more bytes complete. */
  lemma ReadingOn(m: Machine, bytes: seq<byte>, more: seq<byte>)
    requires Tracks(m, bytes)
    ensures Tracks(Received(m, more).0, bytes + more)
    ensures LinesRead(bytes + more) == LinesRead(bytes) + LinesIn(Received(m, more).1)
  {
    hide Parse, Decode, Handle, DataOf, LinesIn;
    ParseConcat(InData, bytes, more);
    var (parser, items) := Parse(m.parser, more);
    DataConcat(Parse(InData, bytes).1, items);
    HandledLines(m.(parser := parser), items);
    DecodeConcat(FRESH, DataIn(bytes), DataOf(items));
  }
}

/** The router and one connection as the tasks that run them. */
module GatewayTasks {
  import opened SessionDriver
  import opened WorldTrace
  import opened GatewayProtocol
  import opened RateLimiting
  import opened StreamLines
  import opened ConnectionOutput
  import opened ConnectionLives
  import opened Wrappers
  import LineDecoding
  import Negotiation
  import TelnetMachines
  import EchoProtocol
  import EchoServed
  import LoginModel

  type byte = Negotiation.byte

  /** The bounded channel from the router to one connection. */
  class Mailbox {
    var queue: seq<ToConnection>
    var receiving: bool

    constructor ()
      ensures queue == [] && receiving
    {
      queue, receiving := [], true;
    }

    method TrySend(payload: ToConnection)
      modifies this`queue
      ensures queue == Offered(old(queue), receiving, payload)
    {
      if |queue| < OUTPUT_CAPACITY && receiving {
        queue := queue + [payload];
      }
    }
  }

  datatype Command = Registering(session: SessionId, tx: Mailbox) | Forwarding(frame: GatewayFrame) | Deregistering(session: SessionId)

  function Message(c: Command): ToRouter {
    match c
    case Registering(s, _) => Register(s)
    case Forwarding(frame) => Forward(frame)
    case Deregistering(s) => Deregister(s)
  }

  class Router {
    var registry: map<SessionId, Mailbox>
    var toWorld: seq<GatewayFrame>

    constructor ()
      ensures registry == map[] && toWorld == []
    {
      registry, toWorld := map[], [];
    }

    /** The router as the system sees it: who is registered, what it has sent on, and what is in each registered mailbox. */
    ghost predicate Serves(g: Gateway)
      reads this, registry.Values
    {
      && registry.Keys == g.registry && toWorld == g.toWorld
      && (forall s, t | s in registry && t in registry && s != t :: registry[s] != registry[t])
      && (forall s | s in registry && s in g.conns ::
            registry[s].queue == g.conns[s].mailbox && registry[s].receiving == !g.conns[s].phase.Gone?)
    }

    /** A command is next for the router, and a Register brings the mailbox of its connection. */
    ghost predicate Receives(g: Gateway, command: Command)
      reads this, if command.Registering? then {command.tx} else {}
    {
      && Enabled(g, TakeCommand) && g.commands[0] == Message(command)
      && (command.Registering? ==>
            && command.tx !in registry.Values
            && (command.session in g.conns ==>
                  command.tx.queue == g.conns[command.session].mailbox
                  && command.tx.receiving == !g.conns[command.session].phase.Gone?))
    }

    method OnCommand(command: Command, ghost g: Gateway)
      modifies this
      ensures old(Serves(g) && Receives(g, command)) ==> Serves(Do(g, TakeCommand))
      ensures registry.Keys == AfterCommand(old(registry.Keys), Message(command))
      ensures forall s | s in registry && !Concerns(Message(command), s) :: registry[s] == old(registry)[s]
      ensures command.Registering? ==> registry[command.session] == command.tx
      ensures toWorld == old(toWorld) + FramesOf([Message(command)])
    {
      match command
      case Registering(session, tx) => registry := registry[session := tx];
      case Forwarding(frame) => toWorld := toWorld + [frame];
      case Deregistering(session) => registry := registry - {session};
    }

    /** Offers the frame to its session's mailbox, if it is registered, and to no other. */
    method OnFrame(frame: WorldFrame, ghost g: Gateway)
      modifies registry.Values
      ensures old(Serves(g)) && Enabled(g, TakeFrame) && g.fromWorld[0] == frame ==> Serves(Do(g, TakeFrame))
      ensures frame.session in registry ==>
                var m := registry[frame.session];
                var was := old(m.queue);
                if |was| < OUTPUT_CAPACITY && m.receiving then |m.queue| == |was| + 1 && m.queue[..|was|] == was && Arrives(frame, frame.session, m.queue[|was|])
                else m.queue == was
      ensures forall m | m in registry.Values ::
                m.queue == (if frame.session in registry && m == registry[frame.session]
                            then Offered(old(m.queue), m.receiving, Payload(frame)) else old(m.queue))
                && m.receiving == old(m.receiving)
    {
      if frame.session in registry {
        registry[frame.session].TrySend(Payload(frame));
      }
    }
  }

  function InputsOf(commands: seq<ToRouter>): seq<string> {
    if commands == [] then []
    else
      var last := commands[|commands| - 1];
      InputsOf(commands[..|commands| - 1]) + if last.Forward? && last.frame.Input? then [last.frame.line] else []
  }

  /** The lines kept, decoded as text. */
  function Kept(decode: seq<byte> -> string, lines: seq<seq<byte>>, decisions: seq<bool>): seq<string>
    requires |lines| == |decisions|
  {
    if lines == [] then []
    else
      var n := |lines| - 1;
      Kept(decode, lines[..n], decisions[..n]) + if decisions[n] then [decode(lines[n])] else []
  }

  class ConnectionTask {
    const session: SessionId
    const decode: seq<byte> -> string
    const voice: Voice
    const machine: TelnetMachines.TelnetMachine
    const limiter: RateLimiter
    ghost const start: Bucket
    var phase: Phase
    var sent: seq<ToRouter>
    var consumed: seq<ToConnection>
    var written: seq<byte>
    var gone: bool
    ghost var read: seq<byte>
    ghost var handled: seq<seq<byte>>
    ghost var times: seq<real>

    constructor (session: SessionId, decode: seq<byte> -> string, voice: Voice, rate: nat, burst: nat, now: real)
      requires rate >= 1 && burst >= 1
      ensures this.session == session && this.decode == decode && this.voice == voice && limiter.limits == Limits(rate as real, burst as real)
      ensures start == Bucket(0.0, now)
      ensures Speaks() && Caught() && phase == Starting && read == [] && consumed == [] && written == []
      ensures machine.State() == TelnetMachines.OPENING && machine.codec == voice.codec
      ensures fresh(machine) && fresh(machine.parser) && fresh(machine.negotiator) && fresh(machine.line) && fresh(limiter)
    {
      this.session, this.decode, this.voice := session, decode, voice;
      var m := new TelnetMachines.TelnetMachine(voice.codec);
      var l := new RateLimiter(rate, burst, now);
      machine, limiter := m, l;
      start := Bucket(0.0, now);
      phase, sent, consumed, written, gone := Starting, [], [], [], false;
      read, handled, times := [], [], [];
    }

    /**
     * Everything sent is about this session, in the order its phase stands for; a Close ended it without a Disconnect,
     * and nothing else but the loss of the router does.
     */
    ghost predicate Speaks()
      reads this
    {
      && PhaseMatches(phase, StageOf(sent, session))
      && Coherent(session, sent, consumed)
      && (CloseNow in consumed ==> phase == Leaving(false) || phase == Gone)
      && (phase == Leaving(false) ==> gone || CloseNow in consumed)
    }

    /** The lines sent on are those handled so far that the limiter lets through. */
    ghost predicate Forwards()
      reads this
    {
      && |times| == |handled|
      && InputsOf(sent) == Kept(decode, handled, Decisions(limiter.limits, start, times))
    }

    ghost predicate Metered()
      reads this, limiter
    {
      limiter.State() == AfterAll(limiter.limits, start, times, Decisions(limiter.limits, start, times))
    }

    /** Between reads every complete line received has been handled. */
    ghost predicate Caught()
      reads this, limiter, machine, machine.parser, machine.negotiator, machine.line
    {
      Forwards() && Metered() && Tracks(machine.State(), read) && handled == LinesRead(read)
    }

    /** Writes to the socket; when that fails, some part may have gone out. */
    method Write(bytes: seq<byte>) returns (ok: bool)
      modifies this`written
      ensures old(written) <= written <= old(written) + bytes && (ok ==> written == old(written) + bytes)
    {
      ok := *;
      if ok {
        written := written + bytes;
      } else {
        var part: int := *;
        written := written + if 0 <= part < |bytes| then bytes[..part] else [];
      }
    }

    /** The connection stands where this much of the script leaves it, everything due written. */
    ghost predicate Spoke(m: TelnetMachines.Machine, before: seq<byte>, script: seq<Happening>)
      reads this, machine, machine.parser, machine.negotiator, machine.line
    {
      (machine.State(), written) == (Responses(voice, m, script).0, before + Responses(voice, m, script).1)
    }

    /** Queues a command for the router; false when the router is gone, as it then stays. */
    method Send(command: ToRouter, next: Phase) returns (ok: bool)
      requires Speaks() && Concerns(command, session)
      requires PhaseMatches(next, Move(StageOf(sent, session), command))
      requires CloseNow in consumed ==> command.Deregister? && next.Gone?
      requires command.Deregister? ==> phase == Leaving(false) || phase.Told?
      requires !next.Leaving?
      modifies this`sent, this`phase, this`gone
      ensures Speaks()
      ensures ok ==> phase == next && !gone && StageOf(sent, session) == Move(StageOf(old(sent), session), command)
      ensures !ok ==> sent == old(sent) && phase == old(phase) && gone
      ensures InputsOf(sent) == InputsOf(old(sent)) + if ok && command.Forward? && command.frame.Input? then [command.frame.line] else []
    {
      hide Coherent, StageOf, Concerns;
      if gone {
        ok := false;
      } else {
        ok := *;
        NotBad();
      }
      gone := !ok;
      if ok {
        CoherentSends(session, sent, consumed, command);
        assert (sent + [command])[..|sent|] == sent;
        sent, phase := sent + [command], next;
      } else {
        assert InputsOf(sent) + [] == InputsOf(sent);
      }
    }

    lemma NotBad()
      requires Speaks()
      ensures !StageOf(sent, session).Bad? && (phase.Running? ==> CloseNow !in consumed)
    {
    }

    /** The acts of the connection so far. */
    lemma LifeSoFar() returns (acts: seq<Act>)
      requires Speaks() && (phase.Running? || phase.Gone?)
      requires phase.Gone? ==> gone || StageOf(sent, session) in {Silent, Finished}
      ensures Lived(session, acts) == Some(Life(phase, sent, consumed)) && (GivesUp in acts ==> gone)
    {
      hide Coherent, StageOf, Lived;
      NotBad();
      acts := CoherentIsLived(session, phase, sent, consumed);
    }

    /** The whole life of the connection, or as much of it as has happened; it stops early only to leave. */
    method Run(script: seq<Happening>) returns (ghost served: nat, ghost acts: seq<Act>)
      requires phase == Starting && Speaks() && consumed == [] && read == [] && Caught()
      requires machine.State() == TelnetMachines.OPENING && machine.codec == voice.codec && written == []
      modifies this, machine, machine.parser, machine.negotiator, machine.line, limiter
      ensures Speaks() && Forwards() && handled <= LinesRead(read)
      ensures served <= |script| && read == BytesIn(script[..served]) && consumed == DeliveriesIn(script[..served])
      ensures if phase.Running? then served == |script| && Caught() else phase.Gone?
      ensures Lived(session, acts) == Some(Life(phase, sent, consumed)) && (GivesUp in acts ==> gone)
      ensures phase.Gone? && !gone ==> TakesLeave(session, sent, CloseNow in consumed)
      ensures phase.Running? ==> Spoke(Taken(TelnetMachines.OPENING).0, Negotiation.OPENING_OFFERS, script)
      ensures if served == 0 then written <= Negotiation.OPENING_OFFERS
              else Wrote(voice, Taken(TelnetMachines.OPENING).0, Negotiation.OPENING_OFFERS, script[..served], written)
    {
      hide StageOf, InputsOf, Decisions, AfterAll, Kept, LinesRead, BytesIn, DeliveriesIn, Responses, LinesIn, Tracks, Wrote, Coherent, Lived, TakesLeave;
      served := 0;
      NothingHappened(script);
      WroteNothing(voice, Taken(TelnetMachines.OPENING).0, Negotiation.OPENING_OFFERS, script);
      var ok := Introduce();
      if ok {
        var greeted := Greet();
        if greeted {
          served := Serve(script);
        } else {
          phase := Leaving(true);
        }
        if phase.Running? {
          acts := LifeSoFar();
          return;
        }
        Leave();
        if !gone {
          LeaveIsTaken(session, sent, consumed);
        }
      } else {
        NotBad();
        phase := Gone;
      }
      acts := LifeSoFar();
    }

    /** Registers with the router and announces the session to the World; false when the router is gone. */
    method Introduce() returns (ok: bool)
      requires phase.Starting? && Speaks() && Forwards() && consumed == []
      modifies this`sent, this`phase, this`gone
      ensures Speaks() && Forwards() && if ok then phase.Running? else gone
    {
      hide InputsOf, Decisions, AfterAll, Kept, Coherent;
      ok := Send(Register(session), Registered);
      if ok {
        ok := Send(Forward(Connect(session)), Running);
      }
    }

    /** Writes the opening offers. */
    method Greet() returns (ok: bool)
      requires machine.State() == TelnetMachines.OPENING && written == [] && Tracks(machine.State(), read)
      modifies machine`output, this`written
      ensures Tracks(machine.State(), read) && written <= Negotiation.OPENING_OFFERS
      ensures ok ==> machine.State() == Taken(TelnetMachines.OPENING).0 && written == Negotiation.OPENING_OFFERS
    {
      hide Tracks;
      assert [] + Negotiation.OPENING_OFFERS == Negotiation.OPENING_OFFERS;
      ok := WriteReplies();
    }

    /** A client that has gone is reported to the World, one the World closed is not; either way the session deregisters. */
    method Leave()
      requires phase.Leaving? && Speaks() && Forwards()
      modifies this`sent, this`phase, this`gone
      ensures phase.Gone? && Speaks() && Forwards() && (gone || StageOf(sent, session) in {Silent, Finished})
    {
      hide StageOf, InputsOf, Decisions, AfterAll, Kept, Coherent;
      var ok := true;
      if phase == Leaving(true) {
        ok := Send(Forward(Disconnect(session)), Told);
      }
      if ok {
        var _ := Send(Deregister(session), Gone);
      }
      NotBad();
      phase := Gone;
    }

    /** The read and write loop. */
    method Serve(script: seq<Happening>) returns (ghost served: nat)
      requires phase.Running? && Speaks() && consumed == [] && read == [] && Caught()
      requires machine.codec == voice.codec && machine.output == []
      modifies this, machine, machine.parser, machine.negotiator, machine.line, limiter
      ensures phase.Running? || phase.Leaving?
      ensures Speaks() && Forwards() && handled <= LinesRead(read)
      ensures served <= |script| && read == BytesIn(script[..served]) && consumed == DeliveriesIn(script[..served])
      ensures phase.Running? ==> served == |script| && Caught() && Spoke(old(machine.State()), old(written), script)
      ensures Wrote(voice, old(machine.State()), old(written), script[..served], written)
    {
      hide StageOf, InputsOf, Decisions, AfterAll, Kept, LinesRead, BytesIn, DeliveriesIn, Respond, Coherent;
      served := 0;
      NothingHappened(script);
      NoResponse(voice, machine.State(), script);
      assert written + [] == written;
      for n := 0 to |script|
        invariant phase.Running? || phase.Leaving?
        invariant Speaks() && Forwards() && handled <= LinesRead(read)
        invariant phase.Running? ==> Caught() && CloseNow !in consumed && served == n
        invariant phase.Running? ==> machine.output == [] && Spoke(old(machine.State()), old(written), script[..n])
        invariant served <= |script| && read == BytesIn(script[..served]) && consumed == DeliveriesIn(script[..served])
        invariant Wrote(voice, old(machine.State()), old(written), script[..served], written)
      {
        if !phase.Running? {
          return;
        }
        OneMoreHappened(script, n);
        OneMoreResponse(voice, old(machine.State()), script, n);
        served := n + 1;
        ghost var now, spoken := machine.State(), written;
        SaidOneMore(old(written), Responses(voice, old(machine.State()), script[..n]).1, Respond(voice, now, script[n]).1);
        match script[n] {
          case Read(bytes) => OnRead(bytes);
          case SocketGone => phase := Leaving(true);
          case MailboxClosed => phase, gone := Leaving(false), true;
          case Delivered(payload) => OnDelivery(payload);
        }
        WroteNext(voice, old(machine.State()), old(written), script, n, written);
      }
      assert script[..|script|] == script;
    }

    method OnRead(bytes: seq<byte>)
      requires phase.Running? && Speaks() && Caught() && CloseNow !in consumed && machine.output == []
      modifies this, machine, machine.parser, machine.negotiator, machine.line, limiter
      ensures phase.Running? || phase.Leaving?
      ensures Speaks() && Forwards() && handled <= LinesRead(read)
      ensures consumed == old(consumed) && read == old(read) + bytes
      ensures phase.Running? ==> Caught() && machine.output == [] && Spoken(Read(bytes), old(machine.State()), old(written))
      ensures old(written) <= written <= old(written) + Respond(voice, old(machine.State()), Read(bytes)).1
    {
      hide StageOf, InputsOf, Decisions, AfterAll, Kept, LinesRead, LinesIn, Tracks, TelnetMachines.Received, Coherent;
      if bytes == [] {
        assert read + bytes == read;
        phase := Leaving(true);
        return;
      }
      assert old(machine.State()).output == [];
      var events := Absorb(bytes);
      var ok := HandleEvents(events);
      if !ok {
        phase := Leaving(false);
        return;
      }
      var written := WriteReplies();
      if !written {
        phase := Leaving(true);
      }
    }

    method Absorb(bytes: seq<byte>) returns (events: seq<TelnetMachines.Event>)
      requires Tracks(machine.State(), read)
      modifies this`read, machine, machine.parser, machine.negotiator, machine.line
      ensures machine.State() == TelnetMachines.Received(old(machine.State()), bytes).0
      ensures read == old(read) + bytes && Tracks(machine.State(), read)
      ensures LinesRead(read) == LinesRead(old(read)) + LinesIn(events)
    {
      hide Tracks, LinesRead, LinesIn;
      ReadingOn(machine.State(), read, bytes);
      events := machine.Receive(bytes);
      read := read + bytes;
    }

    /** Writes the negotiation queued so far; false when the socket is gone. */
    method WriteReplies() returns (ok: bool)
      requires Tracks(machine.State(), read)
      modifies machine`output, this`written
      ensures Tracks(machine.State(), read) && machine.output == []
      ensures old(written) <= written <= old(written) + old(machine.output)
      ensures ok ==> (machine.State(), written) == (Taken(old(machine.State())).0, old(written) + old(machine.output))
    {
      var replies := machine.TakeOutput();
      ok := true;
      if replies != [] {
        ok := Write(replies);
      } else {
        assert written + replies == written;
      }
    }

    /** Passes each line on if the limiter lets it; false when the router is gone. */
    method HandleEvents(events: seq<TelnetMachines.Event>) returns (ok: bool)
      requires phase.Running? && Speaks() && Forwards() && Metered() && CloseNow !in consumed
      modifies this`sent, this`phase, this`gone, this`handled, this`times, limiter
      ensures phase.Running? && Speaks() && Forwards()
      ensures old(handled) <= handled <= old(handled) + LinesIn(events)
      ensures ok ==> Metered() && handled == old(handled) + LinesIn(events)
      ensures !ok ==> gone
    {
      hide StageOf, InputsOf, Decisions, AfterAll, Kept, Coherent;
      NoLines();
      for n := 0 to |events|
        invariant phase.Running? && Speaks() && Forwards() && Metered()
        invariant handled == old(handled) + LinesIn(events[..n])
      {
        assert events[..n + 1] == events[..n] + [events[n]] && events == events[..n + 1] + events[n + 1..];
        LinesConcat(events[..n], [events[n]]);
        LinesConcat(events[..n + 1], events[n + 1..]);
        OneEvent(events[n]);
        if events[n].Line? {
          ok := HandleLine(events[n].bytes);
          if !ok {
            return;
          }
        }
      }
      assert events[..|events|] == events;
      ok := true;
    }

    method HandleLine(line: seq<byte>) returns (ok: bool)
      requires phase.Running? && Speaks() && Forwards() && Metered() && CloseNow !in consumed
      modifies this`sent, this`phase, this`gone, this`handled, this`times, limiter
      ensures phase.Running? && Speaks() && Forwards()
      ensures handled == old(handled) + if ok then [line] else []
      ensures if ok then Metered() else gone
    {
      hide StageOf, InputsOf, Decisions, AfterAll, Kept, Take, Coherent;
      var now: real := *;
      ghost var later := times + [now];
      MeterOneMore(limiter.limits, start, times, now);
      var forward := limiter.Check(now);
      KeepOneMore(decode, handled, Decisions(limiter.limits, start, times), line, forward);
      ok := true;
      if forward {
        ok := Send(Forward(Input(session, decode(line))), Running);
      }
      if ok {
        handled, times := handled + [line], later;
      } else {
        assert handled + [] == handled;
      }
    }

    /** One happening answered in full. */
    ghost predicate Spoken(h: Happening, m: TelnetMachines.Machine, before: seq<byte>)
      reads this, machine, machine.parser, machine.negotiator, machine.line
    {
      (machine.State(), written) == (Respond(voice, m, h).0, before + Respond(voice, m, h).1)
    }

    method OnDelivery(payload: ToConnection)
      requires phase.Running? && Speaks() && Caught() && CloseNow !in consumed
      requires machine.codec == voice.codec && machine.output == []
      modifies this, machine, machine.negotiator
      ensures phase.Running? || phase.Leaving?
      ensures Speaks() && Forwards() && handled <= LinesRead(read)
      ensures consumed == old(consumed) + [payload] && read == old(read)
      ensures phase.Running? ==> Caught() && CloseNow !in consumed
      ensures phase.Running? ==> machine.output == [] && Spoken(Delivered(payload), old(machine.State()), old(written))
      ensures old(written) <= written <= old(written) + Respond(voice, old(machine.State()), Delivered(payload)).1
      ensures phase.Running? && payload == SetEcho(LoginModel.Suppressed) ==>
                if old(machine.negotiator.usEcho) in {EchoProtocol.No, EchoProtocol.WantNo} then
                  written == old(written) + [255, 251, 1] && machine.negotiator.usEcho == EchoProtocol.WantYes
                else written == old(written) && machine.negotiator.usEcho == old(machine.negotiator.usEcho)
      ensures phase.Running? && payload == SetEcho(LoginModel.Enabled) ==>
                if old(machine.negotiator.usEcho) in {EchoProtocol.Yes, EchoProtocol.WantYes} then
                  written == old(written) + [255, 252, 1] && machine.negotiator.usEcho == EchoProtocol.WantNo
                else written == old(written) && machine.negotiator.usEcho == old(machine.negotiator.usEcho)
    {
      hide StageOf, InputsOf, Decisions, AfterAll, Kept, LinesRead, BlockBytes, TelnetMachines.Received, Coherent, Tracks, TelnetMachines.WithEcho;
      CoherentTakes(session, sent, consumed, payload);
      consumed := consumed + [payload];
      match payload
      case Block(text, kind) =>
        var ok := WriteBlock(text, kind);
        if !ok {
          phase := Leaving(true);
        }
      case SetEcho(mode) =>
        var ok := ApplyEcho(mode);
        if !ok {
          phase := Leaving(true);
        }
      case CloseNow =>
        phase := Leaving(false);
    }

    /** Asks the client to mask or to echo, as far as that is not asked already. */
    method ApplyEcho(mode: LoginModel.InputEcho) returns (ok: bool)
      requires Tracks(machine.State(), read) && machine.output == []
      modifies machine, machine.negotiator, this`written
      ensures Tracks(machine.State(), read) && machine.output == []
      ensures var (m, said) := Respond(voice, old(machine.State()), Delivered(SetEcho(mode)));
              && old(written) <= written <= old(written) + said
              && (ok ==> machine.State() == m && written == old(written) + said)
      ensures ok && mode == LoginModel.Suppressed ==>
                if old(machine.negotiator.usEcho) in {EchoProtocol.No, EchoProtocol.WantNo} then
                  written == old(written) + [255, 251, 1] && machine.negotiator.usEcho == EchoProtocol.WantYes
                else written == old(written) && machine.negotiator.usEcho == old(machine.negotiator.usEcho)
      ensures ok && mode == LoginModel.Enabled ==>
                if old(machine.negotiator.usEcho) in {EchoProtocol.Yes, EchoProtocol.WantYes} then
                  written == old(written) + [255, 252, 1] && machine.negotiator.usEcho == EchoProtocol.WantNo
                else written == old(written) && machine.negotiator.usEcho == old(machine.negotiator.usEcho)
    {
      EchoServed.EchoOnWire(machine.State(), mode);
      machine.SetEcho(Mode(mode));
      ok := WriteReplies();
    }

    /** Renders one block for this client and writes it with its prompt mark. */
    method WriteBlock(text: string, kind: OutputKind) returns (ok: bool)
      requires machine.codec == voice.codec
      modifies this`written
      ensures old(written) <= written <= old(written) + BlockBytes(voice, machine.State().options, text, kind)
      ensures ok ==> written == old(written) + BlockBytes(voice, machine.State().options, text, kind)
      ensures ok ==> |written| >= 2 && written[|written| - 2..] == if machine.negotiator.usEor.Yes? then [255, 239] else [255, 249]
    {
      var bytes := [LineDecoding.CR, LineDecoding.LF];
      var encoded := machine.EncodeOutput(voice.render(text));
      bytes := bytes + encoded + if kind.LineBlock? then [LineDecoding.CR, LineDecoding.LF] else [];
      var mark := machine.PromptFrame();
      ok := Write(bytes + mark);
    }
  }

  function DeliveriesIn(script: seq<Happening>): seq<ToConnection> {
    if script == [] then []
    else DeliveriesIn(script[..|script| - 1]) + if script[|script| - 1].Delivered? then [script[|script| - 1].payload] else []
  }

  lemma SaidOneMore(before: seq<byte>, said: seq<byte>, more: seq<byte>)
    ensures (before + said) + more == before + (said + more)
  {
  }

  lemma NothingHappened(script: seq<Happening>)
    ensures BytesIn(script[..0]) == [] && DeliveriesIn(script[..0]) == []
  {
  }

  lemma OneMoreHappened(script: seq<Happening>, n: nat)
    requires n < |script|
    ensures BytesIn(script[..n + 1]) == if script[n].Read? then BytesIn(script[..n]) + script[n].bytes else BytesIn(script[..n])
    ensures DeliveriesIn(script[..n + 1])
         == if script[n].Delivered? then DeliveriesIn(script[..n]) + [script[n].payload] else DeliveriesIn(script[..n])
  {
    assert script[..n + 1][..n] == script[..n];
    assert BytesIn(script[..n]) + [] == BytesIn(script[..n]) && DeliveriesIn(script[..n]) + [] == DeliveriesIn(script[..n]);
  }

  lemma MeterOneMore(limits: Limits, start: Bucket, times: seq<real>, now: real)
    ensures var decisions, bucket := Decisions(limits, start, times), AfterAll(limits, start, times, Decisions(limits, start, times));
            var forward := Take(limits, bucket, now, true).level <= limits.capacity;
            && Decisions(limits, start, times + [now]) == decisions + [forward]
            && AfterAll(limits, start, times + [now], decisions + [forward]) == Take(limits, bucket, now, forward)
  {
    hide Take;
    var decisions := Decisions(limits, start, times);
    assert (times + [now])[..|times|] == times;
    assert Decisions(limits, start, times + [now])[..|times|] == decisions;
  }

  lemma KeepOneMore(decode: seq<byte> -> string, lines: seq<seq<byte>>, decisions: seq<bool>, line: seq<byte>, forward: bool)
    requires |lines| == |decisions|
    ensures Kept(decode, lines + [line], decisions + [forward])
         == Kept(decode, lines, decisions) + if forward then [decode(line)] else []
  {
    assert (lines + [line])[..|lines|] == lines && (decisions + [forward])[..|lines|] == decisions;
  }

  lemma NoLines()
    ensures LinesIn([]) == []
  {
  }

  lemma OneEvent(event: TelnetMachines.Event)
    ensures LinesIn([event]) == if event.Line? then [event.bytes] else []
  {
    assert [event][1..] == [];
  }

  lemma {:induction false} KeptCount(decode: seq<byte> -> string, lines: seq<seq<byte>>, decisions: seq<bool>)
    requires |lines| == |decisions|
    ensures |Kept(decode, lines, decisions)| == RateLimiting.Forwards(decisions)
  {
    if lines != [] {
      var n := |lines| - 1;
      KeptCount(decode, lines[..n], decisions[..n]);
    }
  }

  /** Each line let through is sent on decoded, as many places along as lines were let through before it; no other is. */
  lemma {:induction false} KeptInOrder(decode: seq<byte> -> string, lines: seq<seq<byte>>, decisions: seq<bool>, n: nat)
    requires |lines| == |decisions| && n < |lines| && decisions[n]
    ensures var kept, place := Kept(decode, lines, decisions), RateLimiting.Forwards(decisions[..n]);
            |kept| == RateLimiting.Forwards(decisions) && place < |kept| && kept[place] == decode(lines[n])
    decreases |lines|
  {
    KeptCount(decode, lines, decisions);
    var last := |lines| - 1;
    KeptCount(decode, lines[..last], decisions[..last]);
    if n < last {
      KeptInOrder(decode, lines[..last], decisions[..last], n);
      assert decisions[..last][..n] == decisions[..n];
    }
  }

  /** What reaches the World from one client is bounded by its burst and its rate, whatever it sends and however. */
  lemma WorldIsSpared(limits: Limits, start: Bucket, decode: seq<byte> -> string, lines: seq<seq<byte>>, times: seq<real>)
    requires limits.Valid() && 0.0 <= start.level <= limits.capacity && |times| == |lines|
    ensures var inputs := Kept(decode, lines, Decisions(limits, start, times));
            |inputs| as real <= limits.capacity
              + Allowance(limits, start.last, AfterAll(limits, start, times, Decisions(limits, start, times)).last)
  {
    KeptCount(decode, lines, Decisions(limits, start, times));
    LimiterRespects(limits, start, times);
    WindowBound(limits, start, times, Decisions(limits, start, times));
  }
}
