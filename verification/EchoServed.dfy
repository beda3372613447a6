/** A served client and the echo exchange: the modes delivered to a connection are the calls the server's half is told. */
module EchoServed {
  import opened Wrappers
  import opened EchoProtocol
  import opened Negotiation
  import opened IacParsing
  import opened TelnetMachines
  import opened Transliteration
  import opened ConnectionOutput
  import LoginModel
  import LineDecoding
  import GatewayProtocol
  import SessionDriver

  /** What the server's half of the exchange hears: a mode the World asks for, or the client's answer. */
  datatype Cue = Told(mode: LoginModel.InputEcho) | Answered(verb: ClientVerb)

  function CueOf(item: Item): seq<Cue> {
    if item == Negotiate(VDo, OPT_ECHO) then [Answered(Do)]
    else if item == Negotiate(VDont, OPT_ECHO) then [Answered(Dont)]
    else []
  }

  function CuesOf(items: seq<Item>): seq<Cue> {
    if items == [] then [] else CueOf(items[0]) + CuesOf(items[1..])
  }

  /** The cues of a script, in order, however the client's bytes are cut. */
  function Cues(parser: ParserState, script: seq<Happening>): (ParserState, seq<Cue>)
    decreases |script|
  {
    if script == [] then (parser, [])
    else
      var (mid, earlier) := Cues(parser, script[..|script| - 1]);
      match script[|script| - 1]
      case Read(bytes) => (Parse(mid, bytes).0, earlier + CuesOf(Parse(mid, bytes).1))
      case Delivered(SetEcho(mode)) => (mid, earlier + [Told(mode)])
      case _ => (mid, earlier)
  }

  /** The offers about ECHO a client reads. */
  function OffersOf(items: seq<Item>): seq<ServerVerb> {
    if items == [] then []
    else
      (if items[0] == Negotiate(VWill, OPT_ECHO) then [Will] else if items[0] == Negotiate(VWont, OPT_ECHO) then [Wont] else [])
      + OffersOf(items[1..])
  }

  function OffersIn(bytes: seq<byte>): seq<ServerVerb> {
    OffersOf(Parse(InData, bytes).1)
  }

  /** These steps of the exchange are, on the server's side, these cues. */
  ghost predicate Follows(s: System, steps: seq<EchoProtocol.Step>, cues: seq<Cue>)
    decreases |steps|
  {
    if steps == [] then cues == []
    else
      && CanTake(s, steps[0])
      && match steps[0]
         case Call =>
           && cues != [] && cues[0].Told? && (cues[0].mode.Suppressed? <==> s.calls[0].Suppressed?)
           && Follows(Take(s, Call), steps[1..], cues[1..])
         case ServerReceives =>
           cues != [] && cues[0] == Answered(s.toServer[0]) && Follows(Take(s, ServerReceives), steps[1..], cues[1..])
         case ClientReceives(_) => Follows(Take(s, steps[0]), steps[1..], cues)
  }

  /** What the server sends over some steps. */
  function SentOver(s: System, steps: seq<EchoProtocol.Step>): seq<ServerVerb>
    decreases |steps|
  {
    if steps == [] || !CanTake(s, steps[0]) then []
    else
      (match steps[0]
       case Call => OnCall(s.server, s.calls[0]).1
       case ServerReceives => OnReply(s.server, s.toServer[0]).1
       case ClientReceives(_) => [])
      + SentOver(Take(s, steps[0]), steps[1..])
  }

  // The server's half alone.

  function Hear(q: QState, cue: Cue): (QState, seq<ServerVerb>) {
    match cue
    case Told(mode) => OnCall(q, if mode.Suppressed? then Suppressed else Enabled)
    case Answered(verb) => OnReply(q, verb)
  }

  function Half(q: QState, cues: seq<Cue>): (QState, seq<ServerVerb>)
    decreases |cues|
  {
    if cues == [] then (q, [])
    else
      var (next, sent) := Hear(q, cues[0]);
      var (end, more) := Half(next, cues[1..]);
      (end, sent + more)
  }

  lemma {:induction false} HalfConcat(q: QState, a: seq<Cue>, b: seq<Cue>)
    ensures Half(q, a + b) == (Half(Half(q, a).0, b).0, Half(q, a).1 + Half(Half(q, a).0, b).1)
    decreases |a|
  {
    hide Hear;
    if a == [] {
      assert a + b == b && [] + Half(q, b).1 == Half(q, b).1;
    } else {
      var (next, sent) := Hear(q, a[0]);
      assert (a + b)[0] == a[0] && (a + b)[1..] == a[1..] + b;
      HalfConcat(next, a[1..], b);
      var first, second := Half(next, a[1..]).1, Half(Half(next, a[1..]).0, b).1;
      assert sent + (first + second) == (sent + first) + second;
    }
  }

  lemma {:induction false} FollowedHalf(s: System, steps: seq<EchoProtocol.Step>, end: System, cues: seq<Cue>)
    requires IsRun(s, steps, end) && Follows(s, steps, cues)
    ensures Half(s.server, cues) == (end.server, SentOver(s, steps))
    decreases |steps|
  {
    if steps != [] {
      var t := Take(s, steps[0]);
      if steps[0].ClientReceives? {
        FollowedHalf(t, steps[1..], end, cues);
        assert [] + SentOver(t, steps[1..]) == SentOver(t, steps[1..]);
      } else {
        FollowedHalf(t, steps[1..], end, cues[1..]);
        assert Hear(s.server, cues[0]).0 == t.server;
      }
    }
  }

  // What is written speaks that half.

  lemma {:induction false} OffersConcat(a: seq<Item>, b: seq<Item>)
    ensures OffersOf(a + b) == OffersOf(a) + OffersOf(b)
  {
    if a == [] {
      assert a + b == b;
    } else {
      assert (a + b)[0] == a[0] && (a + b)[1..] == a[1..] + b;
      OffersConcat(a[1..], b);
    }
  }

  /** Bytes that parse whole, and what they offer. */
  ghost predicate Offer(bytes: seq<byte>, offers: seq<ServerVerb>) {
    Parse(InData, bytes).0 == InData && OffersIn(bytes) == offers
  }

  lemma OfferThen(a: seq<byte>, first: seq<ServerVerb>, b: seq<byte>, second: seq<ServerVerb>)
    requires Offer(a, first) && Offer(b, second)
    ensures Offer(a + b, first + second)
  {
    hide OffersOf, Parse;
    ParseConcat(InData, a, b);
    OffersConcat(Parse(InData, a).1, Parse(InData, b).1);
  }

  lemma VerbOffers(verb: Verb, option: byte)
    ensures Offer([IAC, VerbByte(verb), option],
                  if option != OPT_ECHO then [] else if verb.VWill? then [Will] else if verb.VWont? then [Wont] else [])
  {
    hide Parse;
    var item := Negotiate(verb, option);
    FrameRoundTrip(item);
    assert [item][1..] == [] && Accepted([item]) == [item] && OffersOf([]) == [];
    assert OffersOf([item]) == (if item == Negotiate(VWill, OPT_ECHO) then [Will] else if item == Negotiate(VWont, OPT_ECHO) then [Wont] else []) + [];
  }

  /** A framed item offers nothing, unless it is a server's verb about ECHO. */
  lemma FrameOffers(item: Item)
    requires Sendable(item) && item != Negotiate(VWill, OPT_ECHO) && item != Negotiate(VWont, OPT_ECHO)
    ensures Offer(Frame(item), [])
  {
    hide Parse, Frame;
    FrameRoundTrip(item);
    assert [item][1..] == [] && OffersOf([]) == [];
    assert OffersOf([item]) == [];
  }

  lemma SilenceOffers()
    ensures Offer([], [])
  {
  }

  lemma LineEndOffers()
    ensures Offer([LineDecoding.CR, LineDecoding.LF], [])
  {
    TwoBytes(InData, LineDecoding.CR, LineDecoding.LF);
    TextOffers(Parse(InData, [LineDecoding.CR, LineDecoding.LF]).1);
  }

  lemma RequestsOffer()
    ensures Offer(TTYPE_REQUEST, []) && Offer(CHARSET_OFFER, []) && Offer(OPENING_OFFERS, [])
  {
    hide Offer, Escape;
    var type_: seq<byte>, offer: seq<byte> := [TTYPE_SEND], [CHARSET_REQUEST, 59, 85, 84, 70, 45, 56];
    PlainEscape(type_);
    PlainEscape(offer);
    FrameOffers(Subnegotiation(OPT_TTYPE, type_));
    FrameOffers(Subnegotiation(OPT_CHARSET, offer));
    assert [IAC, SB, OPT_TTYPE] + type_ + [IAC, SE] == TTYPE_REQUEST;
    assert [IAC, SB, OPT_CHARSET] + offer + [IAC, SE] == CHARSET_OFFER;
    OpeningOffers();
  }

  lemma OpeningOffers()
    ensures Offer(OPENING_OFFERS, [])
  {
    hide Offer;
    VerbOffers(VDo, OPT_NAWS);
    VerbOffers(VDo, OPT_TTYPE);
    VerbOffers(VWill, OPT_EOR);
    VerbOffers(VWill, OPT_CHARSET);
    var a, b, c: seq<byte>, d: seq<byte> := [IAC, DO, OPT_NAWS], [IAC, DO, OPT_TTYPE], [IAC, WILL, OPT_EOR], [IAC, WILL, OPT_CHARSET];
    var none: seq<ServerVerb> := [];
    assert none + none == none;
    OfferThen(a, [], b, []);
    OfferThen(a + b, [], c, []);
    OfferThen(a + b + c, [], d, []);
    assert a + b + c + d == OPENING_OFFERS;
  }

  /** The reply to one verb: about ECHO what the server's half says, else nothing about it. */
  lemma ReplyOffers(o: Options, verb: Verb, option: byte)
    ensures var (after, out) := OnVerb(o, verb, option);
            var (q, sent) := Half(o.usEcho, CueOf(Negotiate(verb, option)));
            after.usEcho == q && Offer(out, sent)
  {
    hide Offer;
    SilenceOffers();
    RequestsOffer();
    VerbOffers(VWill, option);
    VerbOffers(VWont, option);
    VerbOffers(VDo, option);
    VerbOffers(VDont, option);
    var none: seq<ServerVerb>, nothing: seq<byte> := [], [];
    assert none + none == none;
    OfferThen([IAC, DO, option], [], TTYPE_REQUEST, []);
    if option != OPT_ECHO { OfferThen([IAC, WILL, option], [], CHARSET_OFFER, []); }
    assert nothing + TTYPE_REQUEST == TTYPE_REQUEST && nothing + CHARSET_OFFER == CHARSET_OFFER && nothing + nothing == nothing;
    assert [IAC, DO, option] + nothing == [IAC, DO, option] && [IAC, WILL, option] + nothing == [IAC, WILL, option];
    if option == OPT_ECHO && (verb.VDo? || verb.VDont?) {
      OneCue(o.usEcho, Answered(if verb.VDo? then Do else Dont));
    }
  }

  lemma OneCue(q: QState, cue: Cue)
    ensures Half(q, [cue]) == Hear(q, cue)
  {
    assert [cue][1..] == [] && Hear(q, cue).1 + [] == Hear(q, cue).1;
  }

  lemma ItemOffers(m: Machine, item: Item, said: seq<ServerVerb>)
    requires Offer(m.output, said)
    ensures var (q, sent) := Half(m.options.usEcho, CueOf(item));
            OnItem(m, item).0.options.usEcho == q && Offer(OnItem(m, item).0.output, said + sent)
  {
    hide Offer, OnVerb;
    assert said + [] == said && m.output + [] == m.output;
    match item
    case Data(_) =>
      LineEndOffers();
      OfferThen(m.output, said, [LineDecoding.CR, LineDecoding.LF], []);
    case Negotiate(verb, option) =>
      ReplyOffers(m.options, verb, option);
      OfferThen(m.output, said, OnVerb(m.options, verb, option).1, Half(m.options.usEcho, CueOf(item)).1);
    case _ =>
  }

  lemma {:induction false} HandlingOffers(m: Machine, items: seq<Item>, said: seq<ServerVerb>)
    requires Offer(m.output, said)
    ensures var (q, sent) := Half(m.options.usEcho, CuesOf(items));
            Handle(m, items).0.options.usEcho == q && Offer(Handle(m, items).0.output, said + sent)
    decreases |items|
  {
    hide Offer, OnItem, CueOf;
    if items == [] {
      assert said + [] == said;
    } else {
      var q := m.options.usEcho;
      ItemOffers(m, items[0], said);
      HalfConcat(q, CueOf(items[0]), CuesOf(items[1..]));
      var sent := Half(q, CueOf(items[0])).1;
      HandlingOffers(OnItem(m, items[0]).0, items[1..], said + sent);
      var more := Half(Half(q, CueOf(items[0])).0, CuesOf(items[1..])).1;
      assert said + sent + more == said + (sent + more);
    }
  }

  /** One happening: what it tells the server's half, and what is then offered. */
  lemma ResponseOffers(v: Voice, m: Machine, h: Happening)
    requires m.output == []
    ensures var (parser, cues) := Cues(m.parser, [h]);
            var (q, sent) := Half(m.options.usEcho, cues);
            var (end, bytes) := Respond(v, m, h);
            end.parser == parser && end.options.usEcho == q && end.output == [] && Offer(bytes, sent)
  {
    hide Offer, Handle, BlockBytes, Parse;
    SilenceOffers();
    assert [h][..0] == [];
    match h
    case Read(bytes) =>
      var (parser, items) := Parse(m.parser, bytes);
      var start := m.(parser := parser);
      HandlingOffers(start, items, []);
      HandleIgnoresParser(m, parser, items);
      assert [] + CuesOf(items) == CuesOf(items);
      assert [] + Half(m.options.usEcho, CuesOf(items)).1 == Half(m.options.usEcho, CuesOf(items)).1;
    case Delivered(Block(text, kind)) => BlockOffers(v, m.options, text, kind);
    case Delivered(SetEcho(mode)) =>
      OneCue(m.options.usEcho, Told(mode));
      assert [] + [Told(mode)] == [Told(mode)];
      CallOffers(m, mode);
    case _ =>
  }

  lemma CallOffers(m: Machine, mode: LoginModel.InputEcho)
    requires m.output == []
    ensures var (q, sent) := Hear(m.options.usEcho, Told(mode));
            var (end, bytes) := Taken(WithEcho(m, Mode(mode)));
            end.parser == m.parser && end.options.usEcho == q && end.output == [] && Offer(bytes, sent)
  {
    hide Offer;
    SilenceOffers();
    VerbOffers(VWill, OPT_ECHO);
    VerbOffers(VWont, OPT_ECHO);
    var sent := Hear(m.options.usEcho, Told(mode)).1;
    assert [] + EchoOffers(sent) == EchoOffers(sent);
    assert sent == [] || sent == [Will] || sent == [Wont];
  }

  lemma BlockOffers(v: Voice, o: Options, text: string, kind: SessionDriver.OutputKind)
    ensures Offer(BlockBytes(v, o, text, kind), [])
  {
    hide BlockBytes, Parse;
    BlockIsOneScreen(v, o, text, kind);
    TextOffers(Parse(InData, BlockBytes(v, o, text, kind)).1);
  }

  lemma {:induction false} TextOffers(items: seq<Item>)
    requires forall i | i in items :: i.Data? || i.Command?
    ensures OffersOf(items) == []
  {
    if items != [] {
      assert items[0] in items;
      TextOffers(items[1..]);
    }
  }

  lemma OneMoreCue(parser: ParserState, script: seq<Happening>)
    requires script != []
    ensures var (mid, earlier) := Cues(parser, script[..|script| - 1]);
            var (end, more) := Cues(mid, [script[|script| - 1]]);
            Cues(parser, script) == (end, earlier + more)
  {
    hide Parse, CuesOf;
    var (mid, earlier) := Cues(parser, script[..|script| - 1]);
    var h := script[|script| - 1];
    assert [h][..0] == [] && Cues(mid, []) == (mid, []) && earlier + [] == earlier;
    match h
    case Read(bytes) => assert [] + CuesOf(Parse(mid, bytes).1) == CuesOf(Parse(mid, bytes).1);
    case Delivered(SetEcho(mode)) => assert [] + [Told(mode)] == [Told(mode)];
    case _ =>
  }

  /**
   * Whatever else is read and written, a connection's ECHO state and the offers its client reads are those of the
   * server's half, told the modes delivered to it and the client's answers in order.
   */
  lemma {:induction false} ServedIsHalf(v: Voice, m: Machine, script: seq<Happening>)
    requires m.output == []
    ensures var (parser, cues) := Cues(m.parser, script);
            var (q, sent) := Half(m.options.usEcho, cues);
            var (end, bytes) := Responses(v, m, script);
            end.parser == parser && end.options.usEcho == q && end.output == [] && Offer(bytes, sent)
    decreases |script|
  {
    hide Respond, Cues, Half, Offer;
    if script == [] {
      NothingServed(m.parser, m.options.usEcho);
    } else {
      var n := |script| - 1;
      ServedIsHalf(v, m, script[..n]);
      var (mid, bytes) := Responses(v, m, script[..n]);
      OneMoreCue(m.parser, script);
      ResponseOffers(v, mid, script[n]);
      var earlier, more := Cues(m.parser, script[..n]).1, Cues(mid.parser, [script[n]]).1;
      HalfConcat(m.options.usEcho, earlier, more);
      OfferThen(bytes, Half(m.options.usEcho, earlier).1, Respond(v, mid, script[n]).1, Half(mid.options.usEcho, more).1);
    }
  }

  lemma NothingServed(parser: ParserState, q: QState)
    ensures Cues(parser, []) == (parser, []) && Half(q, []) == (q, []) && Offer([], [])
  {
  }

  /**
   * A served connection is the server of the exchange: when the client's half, with its offers and answers in flight,
   * makes a run of the protocol whose calls are the modes delivered, the connection stands where that run leaves the
   * server, and its client has been offered just what that run offers.
   */
  lemma ServedRunsTheProtocol(v: Voice, script: seq<Happening>, calls: seq<LocalEcho>, steps: seq<EchoProtocol.Step>, end: System)
    requires IsRun(Start(calls), steps, end) && Follows(Start(calls), steps, Cues(InData, script).1)
    ensures var (m, bytes) := Responses(v, Taken(OPENING).0, script);
            && m.options.usEcho == end.server
            && OffersIn(OPENING_OFFERS + bytes) == SentOver(Start(calls), steps)
  {
    hide Follows, IsRun, Cues, Half, SentOver, Responses, Parse;
    ServedIsHalf(v, Taken(OPENING).0, script);
    FollowedHalf(Start(calls), steps, end, Cues(InData, script).1);
    OpeningOffers();
    var sent := SentOver(Start(calls), steps);
    OfferThen(OPENING_OFFERS, [], Responses(v, Taken(OPENING).0, script).1, sent);
    assert [] + sent == sent;
  }

  /** A mode delivered, on the wire: masking is offered from rest or during a retraction, echo taken back once offered or agreed. */
  lemma EchoOnWire(m: Machine, mode: LoginModel.InputEcho)
    requires m.output == []
    ensures var (end, bytes) := Taken(WithEcho(m, Mode(mode)));
            var was := m.options.usEcho;
            && (mode == LoginModel.Suppressed ==>
                  if was in {No, WantNo} then bytes == [255, 251, 1] && end.options.usEcho == WantYes
                  else bytes == [] && end.options.usEcho == was)
            && (mode == LoginModel.Enabled ==>
                  if was in {Yes, WantYes} then bytes == [255, 252, 1] && end.options.usEcho == WantNo
                  else bytes == [] && end.options.usEcho == was)
  {
  }

  // The two ends of it, told by the last mode delivered.

  /** The last echo mode delivered, if any was. */
  function LastDelivered(script: seq<Happening>): Option<LoginModel.InputEcho> {
    if script == [] then None
    else
      match script[|script| - 1]
      case Delivered(SetEcho(mode)) => Some(mode)
      case _ => LastDelivered(script[..|script| - 1])
  }

  function LastTold(cues: seq<Cue>): Option<LoginModel.InputEcho> {
    if cues == [] then None
    else if cues[|cues| - 1].Told? then Some(cues[|cues| - 1].mode)
    else LastTold(cues[..|cues| - 1])
  }

  lemma {:induction false} LastToldConcat(a: seq<Cue>, b: seq<Cue>)
    ensures LastTold(a + b) == if LastTold(b).Some? then LastTold(b) else LastTold(a)
    decreases |b|
  {
    if b == [] {
      assert a + b == a;
    } else {
      assert (a + b)[..|a + b| - 1] == a + b[..|b| - 1];
      LastToldConcat(a, b[..|b| - 1]);
    }
  }

  lemma {:induction false} AnswersTellNothing(items: seq<Item>)
    ensures LastTold(CuesOf(items)) == None
  {
    if items != [] {
      AnswersTellNothing(items[1..]);
      LastToldConcat(CueOf(items[0]), CuesOf(items[1..]));
      assert CueOf(items[0]) != [] ==> CueOf(items[0])[..0] == [];
    }
  }

  lemma {:induction false} LastIsTold(parser: ParserState, script: seq<Happening>)
    ensures LastTold(Cues(parser, script).1) == LastDelivered(script)
    decreases |script|
  {
    hide CuesOf;
    if script != [] {
      var n := |script| - 1;
      LastIsTold(parser, script[..n]);
      var earlier := Cues(parser, script[..n]).1;
      match script[n]
      case Read(bytes) =>
        AnswersTellNothing(Parse(Cues(parser, script[..n]).0, bytes).1);
        LastToldConcat(earlier, CuesOf(Parse(Cues(parser, script[..n]).0, bytes).1));
      case _ =>
    }
  }

  /** The last call of a run without calls left is the last mode told. */
  lemma {:induction false} LastCallIsTold(s: System, steps: seq<EchoProtocol.Step>, end: System, cues: seq<Cue>)
    requires IsRun(s, steps, end) && Follows(s, steps, cues) && end.calls == []
    ensures if s.calls == [] then LastTold(cues) == None
            else LastTold(cues).Some? && (LastTold(cues).value.Suppressed? <==> s.calls[|s.calls| - 1].Suppressed?)
    decreases |steps|
  {
    if steps != [] {
      var t := Take(s, steps[0]);
      if steps[0].ClientReceives? {
        LastCallIsTold(t, steps[1..], end, cues);
      } else {
        LastCallIsTold(t, steps[1..], end, cues[1..]);
        assert cues == [cues[0]] + cues[1..] && [cues[0]][..0] == [];
        LastToldConcat([cues[0]], cues[1..]);
      }
    }
  }

  /** When the last mode delivered is echo, or none was, the exchange settles with the client echoing, whatever it answers. */
  lemma ServedRelease(v: Voice, script: seq<Happening>, calls: seq<LocalEcho>, steps: seq<EchoProtocol.Step>, end: System)
    requires IsRun(Start(calls), steps, end) && Follows(Start(calls), steps, Cues(InData, script).1) && end.Quiet()
    requires LastDelivered(script) != Some(LoginModel.Suppressed)
    ensures !end.suppressing && Responses(v, Taken(OPENING).0, script).0.options.usEcho == No
  {
    hide Follows, IsRun, Cues, Responses, LastTold, LastDelivered;
    ServedRunsTheProtocol(v, script, calls, steps, end);
    LastIsTold(InData, script);
    LastCallIsTold(Start(calls), steps, end, Cues(InData, script).1);
    ReleaseSettlesReleased(calls, steps, end);
  }

  lemma {:induction false} RunsJoin(s: System, a: seq<EchoProtocol.Step>, mid: System, b: seq<EchoProtocol.Step>, end: System)
    requires IsRun(s, a, mid) && IsRun(mid, b, end)
    ensures IsRun(s, a + b, end)
    decreases |a|
  {
    if a == [] {
      assert a + b == b;
    } else {
      assert (a + b)[0] == a[0] && (a + b)[1..] == a[1..] + b;
      RunsJoin(Take(s, a[0]), a[1..], mid, b, end);
    }
  }

  lemma {:induction false} CallsLeft(s: System, steps: seq<EchoProtocol.Step>, end: System)
    requires IsRun(s, steps, end)
    ensures |end.calls| <= |s.calls| && end.calls == s.calls[|s.calls| - |end.calls|..]
    decreases |steps|
  {
    if steps != [] {
      CallsLeft(Take(s, steps[0]), steps[1..], end);
    }
  }

  /** When the last mode delivered is masking, and reaches an accepting client with nothing else in flight, the client masks. */
  lemma ServedMasking(v: Voice, script: seq<Happening>, calls: seq<LocalEcho>, before: seq<EchoProtocol.Step>, mid: System,
                      after: seq<EchoProtocol.Step>, end: System)
    requires IsAcceptingRun(Start(calls), before, mid) && IsAcceptingRun(mid, after, end) && end.Quiet()
    requires Follows(Start(calls), before + after, Cues(InData, script).1)
    requires mid.toClient == [] && mid.toServer == [] && |mid.calls| == 1
    requires LastDelivered(script) == Some(LoginModel.Suppressed)
    ensures end.suppressing && Responses(v, Taken(OPENING).0, script).0.options.usEcho == Yes
  {
    hide Follows, Cues, Responses, LastTold, LastDelivered;
    RunsJoin(Start(calls), before, mid, after, end);
    ServedRunsTheProtocol(v, script, calls, before + after, end);
    LastIsTold(InData, script);
    LastCallIsTold(Start(calls), before + after, end, Cues(InData, script).1);
    CallsLeft(Start(calls), before, mid);
    assert mid.calls == [Suppressed];
    assert after != [] && after[0] == Call;
    assert forall step | step in after[1..] :: step in after;
    MaskingFromRest(calls, before, mid, after[1..], end);
  }

  // The client's other words.

  /** What a client has said so far decides how a block is marked and encoded, whatever is delivered meanwhile and however its bytes are cut. */
  lemma {:induction false} ClientsWordCounts(v: Voice, m: Machine, script: seq<Happening>)
    requires m.output == []
    ensures var (parser, items) := Parse(m.parser, BytesIn(script));
            var end := Responses(v, m, script).0;
            && end.parser == parser
            && (end.options.usEor.Yes? <==> WantsMarks(m.options.usEor.Yes?, items))
            && (end.options.charset.Utf8? <==> TakesUtf8(m.options.charset.Utf8?, items))
    decreases |script|
  {
    hide Respond, WantsMarks, TakesUtf8, Parse;
    if script == [] {
      NothingSaid(m.parser);
    } else {
      var n := |script| - 1;
      ClientsWordCounts(v, m, script[..n]);
      var mid, h := Responses(v, m, script[..n]).0, script[n];
      var more := if h.Read? then h.bytes else [];
      ParseConcat(m.parser, BytesIn(script[..n]), more);
      OneMoreWord(v, mid, h);
      var items := Parse(m.parser, BytesIn(script[..n])).1;
      LastWordOfMore(m.options.usEor.Yes?, m.options.charset.Utf8?, items, Parse(mid.parser, more).1);
    }
  }

  lemma NothingSaid(parser: ParserState)
    ensures Parse(parser, []) == (parser, []) && forall was :: WantsMarks(was, []) == TakesUtf8(was, []) == was
  {
  }

  lemma OneMoreWord(v: Voice, m: Machine, h: Happening)
    ensures var (parser, items) := Parse(m.parser, if h.Read? then h.bytes else []);
            var end := Respond(v, m, h).0;
            && end.parser == parser
            && (end.options.usEor.Yes? <==> WantsMarks(m.options.usEor.Yes?, items))
            && (end.options.charset.Utf8? <==> TakesUtf8(m.options.charset.Utf8?, items))
  {
    hide Handle, WantsMarks, TakesUtf8, BlockBytes, OnCall;
    NothingSaid(m.parser);
    if h.Read? {
      var (parser, items) := Parse(m.parser, h.bytes);
      LastWordDecides(m.(parser := parser), items);
      HandleIgnoresParser(m, parser, items);
    }
  }

  /**
   * Whatever a served client has been through, its next block reads as one line of space, its text in the charset the
   * client last took and a line end unless it is a prompt, and then one command: the mark the client last asked for.
   */
  lemma NextBlockReads(v: Voice, script: seq<Happening>, text: string, kind: SessionDriver.OutputKind)
    ensures var items := Parse(InData, BytesIn(script)).1;
            var m := Responses(v, Taken(OPENING).0, script).0;
            var styled := v.render(text);
            var sent := v.codec.utf8(if TakesUtf8(false, items) then styled else Transliterated(v.codec.deunicode, styled));
            Parse(InData, Respond(v, m, Delivered(GatewayProtocol.Block(text, kind))).1)
            == (InData, AsData([13, 10] + Shown(sent) + if kind == SessionDriver.LineBlock then [13, 10] else [])
                        + [Command(if WantsMarks(false, items) then 239 else 249)])
  {
    hide Parse, WantsMarks, TakesUtf8, BlockBytes;
    ClientsWordCounts(v, Taken(OPENING).0, script);
    BlockIsOneScreen(v, Responses(v, Taken(OPENING).0, script).0.options, text, kind);
  }
}
