/** What a connection writes to its socket, and what a client makes of it. */
module ConnectionOutput {
  import opened SessionDriver
  import opened GatewayProtocol
  import opened Negotiation
  import opened LineDecoding
  import opened IacParsing
  import opened TelnetMachines
  import EchoProtocol
  import LoginModel

  /** What may happen to a running connection: bytes or the end of its socket, or a message from the router. */
  datatype Happening = Read(bytes: seq<byte>) | SocketGone | MailboxClosed | Delivered(payload: ToConnection)

  /** What is read in the course of a script. */
  function BytesIn(script: seq<Happening>): seq<byte> {
    if script == [] then []
    else BytesIn(script[..|script| - 1]) + if script[|script| - 1].Read? then script[|script| - 1].bytes else []
  }

  /** How this session's styled texts become text with escapes, and that text bytes. */
  datatype Voice = Voice(render: string -> string, codec: Codec)

  /** A line of breathing space, the text, a line end unless it is a prompt, and one prompt mark. */
  function BlockBytes(v: Voice, o: Options, text: string, kind: OutputKind): seq<byte> {
    [CR, LF] + Encode(Charted(v.codec, o.charset, v.render(text)))
    + (if kind.LineBlock? then [CR, LF] else []) + Frame(Command(PromptMark(o)))
  }

  function Mode(mode: LoginModel.InputEcho): EchoProtocol.LocalEcho {
    if mode.Suppressed? then EchoProtocol.Suppressed else EchoProtocol.Enabled
  }

  function Taken(m: Machine): (Machine, seq<byte>) {
    (m.(output := []), m.output)
  }

  /** What one happening makes the connection write, as long as it is served at all. */
  function Respond(v: Voice, m: Machine, h: Happening): (Machine, seq<byte>) {
    match h
    case Read(bytes) => Taken(Received(m, bytes).0)
    case Delivered(Block(text, kind)) => (m, BlockBytes(v, m.options, text, kind))
    case Delivered(SetEcho(mode)) => Taken(WithEcho(m, Mode(mode)))
    case _ => (m, [])
  }

  function Responses(v: Voice, m: Machine, script: seq<Happening>): (Machine, seq<byte>)
    decreases |script|
  {
    if script == [] then (m, [])
    else
      var (mid, bytes) := Responses(v, m, script[..|script| - 1]);
      var (end, more) := Respond(v, mid, script[|script| - 1]);
      (end, bytes + more)
  }

  lemma NoResponse(v: Voice, m: Machine, script: seq<Happening>)
    ensures Responses(v, m, script[..0]) == (m, [])
  {
  }

  lemma OneMoreResponse(v: Voice, m: Machine, script: seq<Happening>, n: nat)
    requires n < |script|
    ensures var (mid, bytes) := Responses(v, m, script[..n]);
            var (end, more) := Respond(v, mid, script[n]);
            Responses(v, m, script[..n + 1]) == (end, bytes + more)
  {
    assert script[..n + 1][..n] == script[..n];
  }

  /** Leaves the connection with nothing more to write. */
  predicate EndsQuietly(h: Happening) {
    h.MailboxClosed? || h.SocketGone? || h == Delivered(CloseNow) || h == Read([])
  }

  lemma QuietEndsSayNothing(v: Voice, m: Machine, h: Happening)
    requires EndsQuietly(h) && m.output == []
    ensures Respond(v, m, h).1 == []
  {
  }

  /** What has gone out by the end of a script: everything due, but for the last response, which may have been cut short. */
  ghost predicate Wrote(v: Voice, m: Machine, before: seq<byte>, script: seq<Happening>, written: seq<byte>) {
    && written <= before + Responses(v, m, script).1
    && (script == [] || EndsQuietly(script[|script| - 1]) ==> written == before + Responses(v, m, script).1)
    && (script != [] ==> before + Responses(v, m, script[..|script| - 1]).1 <= written)
  }

  lemma WroteNothing(v: Voice, m: Machine, before: seq<byte>, script: seq<Happening>)
    ensures forall written :: Wrote(v, m, before, script[..0], written) ==> written == before
  {
    assert before + [] == before;
  }

  lemma WroteNext(v: Voice, m: Machine, before: seq<byte>, script: seq<Happening>, n: nat, written: seq<byte>)
    requires n < |script|
    requires var (mid, said) := Responses(v, m, script[..n]);
             var more := Respond(v, mid, script[n]).1;
             && mid.output == []
             && before + said <= written <= before + said + more
    ensures Wrote(v, m, before, script[..n + 1], written)
  {
    hide Respond, EndsQuietly;
    var (mid, said) := Responses(v, m, script[..n]);
    var more := Respond(v, mid, script[n]).1;
    OneMoreResponse(v, m, script, n);
    assert script[..n + 1][..n] == script[..n];
    assert (before + said) + more == before + (said + more);
    if EndsQuietly(script[n]) { QuietEndsSayNothing(v, mid, script[n]); }
  }

  // The client's side: text up to a prompt mark is one screen.

  /** Line ends and nothing else. */
  predicate Blank(bytes: seq<byte>) {
    forall b :: b in bytes ==> b == CR || b == LF
  }

  /** The screens completed by `items`, after `open` has been shown on the current one, and what is then on it. */
  function Screens(open: seq<byte>, items: seq<Item>): (seq<seq<byte>>, seq<byte>)
    decreases |items|
  {
    if items == [] then ([], open)
    else
      match items[0]
      case Data(b) => Screens(open + [b], items[1..])
      case Command(_) =>
        var (rest, last) := Screens([], items[1..]);
        ([open] + rest, last)
      case _ => Screens(open, items[1..])
  }

  /** A block as a client is to see it: a line of space, the text line for line, and a line end unless it is a prompt. */
  function BlockShown(v: Voice, o: Options, text: string, kind: OutputKind): seq<byte> {
    [CR, LF] + Shown(Charted(v.codec, o.charset, v.render(text))) + if kind.LineBlock? then [CR, LF] else []
  }

  /** The blocks delivered, in the charset agreed when each was written. */
  function BlocksShown(v: Voice, m: Machine, script: seq<Happening>): seq<seq<byte>>
    decreases |script|
  {
    if script == [] then []
    else
      var n := |script| - 1;
      BlocksShown(v, m, script[..n])
      + match script[n]
        case Delivered(Block(text, kind)) => [BlockShown(v, Responses(v, m, script[..n]).0.options, text, kind)]
        case _ => []
  }

  /** The screen is the block, perhaps after some blank lines. */
  predicate Shows(screen: seq<byte>, block: seq<byte>) {
    |block| <= |screen| && screen[|screen| - |block|..] == block && Blank(screen[..|screen| - |block|])
  }

  predicate ShowEach(screens: seq<seq<byte>>, blocks: seq<seq<byte>>) {
    |screens| == |blocks| && forall i :: 0 <= i < |blocks| ==> Shows(screens[i], blocks[i])
  }

  lemma {:induction false} ScreensConcat(open: seq<byte>, a: seq<Item>, b: seq<Item>)
    ensures var (first, mid) := Screens(open, a);
            var (second, last) := Screens(mid, b);
            Screens(open, a + b) == (first + second, last)
    decreases |a|
  {
    if a == [] {
      assert a + b == b && [] + Screens(open, b).0 == Screens(open, b).0;
    } else {
      assert (a + b)[0] == a[0] && (a + b)[1..] == a[1..] + b;
      match a[0]
      case Data(c) => ScreensConcat(open + [c], a[1..], b);
      case Command(_) =>
        ScreensConcat([], a[1..], b);
        var (rest, mid) := Screens([], a[1..]);
        assert [open] + (rest + Screens(mid, b).0) == ([open] + rest) + Screens(mid, b).0;
      case _ => ScreensConcat(open, a[1..], b);
    }
  }

  lemma {:induction false} DataShows(open: seq<byte>, bytes: seq<byte>)
    ensures Screens(open, AsData(bytes)) == ([], open + bytes)
    decreases |bytes|
  {
    if bytes == [] {
      assert open + [] == open;
    } else {
      assert AsData(bytes)[0] == Data(bytes[0]) && AsData(bytes)[1..] == AsData(bytes[1..]);
      DataShows(open + [bytes[0]], bytes[1..]);
      assert (open + [bytes[0]]) + bytes[1..] == open + bytes;
    }
  }

  /** Bytes that parse whole and put nothing on a screen: negotiations and bare line ends. */
  ghost predicate Chatter(bytes: seq<byte>) {
    Parse(InData, bytes).0 == InData && forall i :: i in Parse(InData, bytes).1 ==> IsChatter(i)
  }

  predicate IsChatter(i: Item) {
    i.Negotiate? || i.Subnegotiation? || (i.Data? && (i.b == CR || i.b == LF))
  }

  lemma ChatterConcat(a: seq<byte>, b: seq<byte>)
    requires Chatter(a) && Chatter(b)
    ensures Chatter(a + b)
  {
    ParseConcat(InData, a, b);
  }

  lemma {:induction false} ChatterIsBlank(open: seq<byte>, items: seq<Item>)
    requires Blank(open) && forall i :: i in items ==> IsChatter(i)
    ensures Screens(open, items).0 == [] && Blank(Screens(open, items).1)
    decreases |items|
  {
    if items != [] {
      assert items[0] in items;
      ChatterIsBlank(if items[0].Data? then open + [items[0].b] else open, items[1..]);
    }
  }

  lemma FrameIsChatter(item: Item)
    requires IsChatter(item)
    ensures Chatter(Frame(item))
  {
    FrameRoundTrip(item);
    assert [item][1..] == [] && Accepted([item]) <= [item];
  }

  lemma NothingIsChatter()
    ensures Chatter([])
  {
  }

  lemma VerbIsChatter(verb: Verb, option: byte)
    ensures Chatter([IAC, VerbByte(verb), option])
  {
    FrameIsChatter(Negotiate(verb, option));
  }

  lemma RequestsAreChatter()
    ensures Chatter(TTYPE_REQUEST) && Chatter(CHARSET_OFFER) && Chatter(OPENING_OFFERS) && Chatter([CR, LF])
  {
    hide Chatter;
    TypeRequestIsChatter();
    CharsetOfferIsChatter();
    LineEndIsChatter();
    OpeningIsChatter();
  }

  lemma TypeRequestIsChatter()
    ensures Chatter(TTYPE_REQUEST)
  {
    hide Chatter, Escape;
    PlainRequestIsChatter(OPT_TTYPE, [TTYPE_SEND]);
    assert [IAC, SB, OPT_TTYPE] + [TTYPE_SEND] + [IAC, SE] == TTYPE_REQUEST;
  }

  lemma CharsetOfferIsChatter()
    ensures Chatter(CHARSET_OFFER)
  {
    hide Chatter, Escape;
    var offer: seq<byte> := [CHARSET_REQUEST, 59, 85, 84, 70, 45, 56];
    PlainRequestIsChatter(OPT_CHARSET, offer);
    assert [IAC, SB, OPT_CHARSET] + offer + [IAC, SE] == CHARSET_OFFER;
  }

  lemma PlainRequestIsChatter(option: byte, payload: seq<byte>)
    requires IAC !in payload
    ensures Chatter([IAC, SB, option] + payload + [IAC, SE])
  {
    hide Chatter, Escape;
    FrameIsChatter(Subnegotiation(option, payload));
    PlainEscape(payload);
  }

  lemma LineEndIsChatter()
    ensures Chatter([CR, LF])
  {
    TwoBytes(InData, CR, LF);
  }

  lemma OpeningIsChatter()
    ensures Chatter(OPENING_OFFERS)
  {
    hide Chatter;
    VerbIsChatter(VDo, OPT_NAWS);
    VerbIsChatter(VDo, OPT_TTYPE);
    VerbIsChatter(VWill, OPT_EOR);
    VerbIsChatter(VWill, OPT_CHARSET);
    var a, b, c: seq<byte>, d: seq<byte> := [IAC, DO, OPT_NAWS], [IAC, DO, OPT_TTYPE], [IAC, WILL, OPT_EOR], [IAC, WILL, OPT_CHARSET];
    ChatterConcat(a, b);
    ChatterConcat(a + b, c);
    ChatterConcat(a + b + c, d);
    assert a + b + c + d == OPENING_OFFERS;
  }

  lemma {:induction false} PlainEscape(bytes: seq<byte>)
    requires IAC !in bytes
    ensures Escape(bytes) == bytes
  {
    if bytes != [] { PlainEscape(bytes[1..]); }
  }

  lemma VerbReplyIsChatter(o: Options, verb: Verb, option: byte)
    ensures Chatter(OnVerb(o, verb, option).1)
  {
    hide Chatter;
    NothingIsChatter();
    RequestsAreChatter();
    VerbIsChatter(VWill, option);
    VerbIsChatter(VWont, option);
    VerbIsChatter(VDo, option);
    VerbIsChatter(VDont, option);
    ChatterConcat([IAC, VerbByte(VDo), option], TTYPE_REQUEST);
    ChatterConcat([IAC, VerbByte(VWill), option], CHARSET_OFFER);
    var none: seq<byte> := [];
    assert none + TTYPE_REQUEST == TTYPE_REQUEST && none + CHARSET_OFFER == CHARSET_OFFER && none + none == none;
    assert [IAC, DO, option] + none == [IAC, DO, option] && [IAC, WILL, option] + none == [IAC, WILL, option];
  }

  lemma EchoIsChatter(m: Machine, mode: EchoProtocol.LocalEcho)
    requires Chatter(m.output)
    ensures Chatter(WithEcho(m, mode).output)
  {
    hide Chatter;
    NothingIsChatter();
    VerbIsChatter(VWill, OPT_ECHO);
    VerbIsChatter(VWont, OPT_ECHO);
    ChatterConcat(m.output, EchoOffers(EchoProtocol.OnCall(m.options.usEcho, mode).1));
  }

  lemma ItemIsChatter(m: Machine, item: Item)
    requires Chatter(m.output)
    ensures Chatter(OnItem(m, item).0.output)
  {
    hide Chatter, OnVerb;
    match item
    case Data(_) =>
      RequestsAreChatter();
      ChatterConcat(m.output, [CR, LF]);
      assert m.output + [] == m.output;
    case Negotiate(verb, option) =>
      VerbReplyIsChatter(m.options, verb, option);
      ChatterConcat(m.output, OnVerb(m.options, verb, option).1);
    case _ =>
  }

  lemma {:induction false} RepliesAreChatter(m: Machine, items: seq<Item>)
    requires Chatter(m.output)
    ensures Chatter(Handle(m, items).0.output)
    decreases |items|
  {
    hide Chatter, OnItem;
    if items != [] {
      ItemIsChatter(m, items[0]);
      RepliesAreChatter(OnItem(m, items[0]).0, items[1..]);
    }
  }

  lemma BlockIsOneScreen(v: Voice, o: Options, text: string, kind: OutputKind)
    ensures var (state, items) := Parse(InData, BlockBytes(v, o, text, kind));
            && state == InData && items == AsData(BlockShown(v, o, text, kind)) + [Command(PromptMark(o))]
            && forall open :: Screens(open, items) == ([open + BlockShown(v, o, text, kind)], [])
  {
    var utf8 := Charted(v.codec, o.charset, v.render(text));
    var close: seq<byte> := if kind.LineBlock? then [LF] else [];
    var mark := Command(PromptMark(o));
    LineEndEncodes();
    EncodeConcat([LF], utf8);
    EncodeConcat([LF] + utf8, close);
    ShownConcat([LF], utf8);
    ShownConcat([LF] + utf8, close);
    var whole := [LF] + utf8 + close;
    PromptEndsInOneMark(o, whole);
    assert BlockBytes(v, o, text, kind) == Encode(whole) + Frame(mark);
    assert BlockShown(v, o, text, kind) == Shown(whole);
    forall open { MarkEndsScreen(open, Shown(whole), mark); }
  }

  lemma LineEndEncodes()
    ensures Encode([LF]) == [CR, LF] && Encode([]) == [] && Shown([LF]) == [CR, LF] && Shown([]) == []
  {
    assert [LF][1..] == [];
  }

  lemma {:induction false} ShownConcat(a: seq<byte>, b: seq<byte>)
    ensures Shown(a + b) == Shown(a) + Shown(b)
  {
    hide ShownByte;
    if a == [] {
      assert a + b == b;
    } else {
      ShownConcat(a[1..], b);
      assert (a + b)[0] == a[0] && (a + b)[1..] == a[1..] + b;
    }
  }

  lemma MarkEndsScreen(open: seq<byte>, text: seq<byte>, mark: Item)
    requires mark.Command?
    ensures Screens(open, AsData(text) + [mark]) == ([open + text], [])
  {
    DataShows(open, text);
    ScreensConcat(open, AsData(text), [mark]);
    var screen := open + text;
    assert [mark][1..] == [] && [] + [screen] == [screen] == [screen] + [];
    assert Screens(screen, [mark]) == ([screen], []);
  }

  /** Anything but a block writes chatter, and leaves nothing queued. */
  lemma OthersChatter(v: Voice, m: Machine, h: Happening)
    requires m.output == [] && !(h.Delivered? && h.payload.Block?)
    ensures Chatter(Respond(v, m, h).1) && Respond(v, m, h).0.output == []
  {
    hide Chatter, Handle, WithEcho;
    NothingIsChatter();
    match h
    case Read(bytes) =>
      var (parser, items) := Parse(m.parser, bytes);
      RepliesAreChatter(m.(parser := parser), items);
    case Delivered(SetEcho(mode)) => EchoIsChatter(m, Mode(mode));
    case _ =>
  }

  /**
   * Whatever is negotiated, echoed or read meanwhile, the client's screens are the delivered blocks: one for each,
   * in order, each holding that block line for line and nothing else but blank lines before it.
   */
  lemma {:induction false} ScreensAreTheBlocks(v: Voice, m: Machine, script: seq<Happening>, open: seq<byte>)
    requires m.output == [] && Blank(open)
    ensures var (end, bytes) := Responses(v, m, script);
            var (state, items) := Parse(InData, bytes);
            && end.output == [] && state == InData
            && ShowEach(Screens(open, items).0, BlocksShown(v, m, script)) && Blank(Screens(open, items).1)
    decreases |script|
  {
    hide Chatter, BlockBytes, BlockShown, Respond, Charted;
    if script != [] {
      var n := |script| - 1;
      ScreensAreTheBlocks(v, m, script[..n], open);
      var (mid, bytes) := Responses(v, m, script[..n]);
      var more := Respond(v, mid, script[n]).1;
      ParseConcat(InData, bytes, more);
      var (screens, rest) := Screens(open, Parse(InData, bytes).1);
      ScreensConcat(open, Parse(InData, bytes).1, Parse(InData, more).1);
      NextScreen(v, mid, script[n], rest);
    }
  }

  lemma NextScreen(v: Voice, m: Machine, h: Happening, open: seq<byte>)
    requires m.output == [] && Blank(open)
    ensures Respond(v, m, h).0.output == [] && Parse(InData, Respond(v, m, h).1).0 == InData
    ensures var (screens, rest) := Screens(open, Parse(InData, Respond(v, m, h).1).1);
            && Blank(rest)
            && ShowEach(screens, if h.Delivered? && h.payload.Block? then [BlockShown(v, m.options, h.payload.text, h.payload.kind)] else [])
  {
    hide Screens, Parse, BlockBytes, BlockShown, Received, WithEcho;
    if h.Delivered? && h.payload.Block? {
      BlockIsOneScreen(v, m.options, h.payload.text, h.payload.kind);
      BlankThenBlock(open, BlockShown(v, m.options, h.payload.text, h.payload.kind));
    } else {
      OthersChatter(v, m, h);
      ChatterIsBlank(open, Parse(InData, Respond(v, m, h).1).1);
    }
  }

  lemma BlankThenBlock(pad: seq<byte>, block: seq<byte>)
    requires Blank(pad)
    ensures Shows(pad + block, block)
  {
    assert (pad + block)[|pad|..] == block && (pad + block)[..|pad|] == pad;
  }

  /** From the opening offers on. */
  lemma ClientSeesTheBlocks(v: Voice, script: seq<Happening>)
    ensures var m := Taken(OPENING).0;
            var (state, items) := Parse(InData, OPENING_OFFERS + Responses(v, m, script).1);
            var (screens, rest) := Screens([], items);
            state == InData && ShowEach(screens, BlocksShown(v, m, script)) && Blank(rest)
  {
    hide Chatter;
    var m := Taken(OPENING).0;
    var bytes := Responses(v, m, script).1;
    OfferedBlank();
    var open := Screens([], Parse(InData, OPENING_OFFERS).1).1;
    ScreensAreTheBlocks(v, m, script, open);
    ParseConcat(InData, OPENING_OFFERS, bytes);
    ScreensConcat([], Parse(InData, OPENING_OFFERS).1, Parse(InData, bytes).1);
    assert [] + Screens(open, Parse(InData, bytes).1).0 == Screens(open, Parse(InData, bytes).1).0;
  }

  lemma OfferedBlank()
    ensures Parse(InData, OPENING_OFFERS).0 == InData
    ensures Screens([], Parse(InData, OPENING_OFFERS).1).0 == [] && Blank(Screens([], Parse(InData, OPENING_OFFERS).1).1)
  {
    OpeningIsChatter();
    ChatterIsBlank([], Parse(InData, OPENING_OFFERS).1);
  }

  /** A client cut off in the middle has seen a beginning of those screens, all complete. */
  lemma CutOffSeesABeginning(bytes: seq<byte>, whole: seq<byte>)
    requires bytes <= whole
    ensures Screens([], Parse(InData, bytes).1).0 <= Screens([], Parse(InData, whole).1).0
  {
    var more := whole[|bytes|..];
    assert whole == bytes + more;
    ParseConcat(InData, bytes, more);
    var (mid, items) := Parse(InData, bytes);
    ScreensConcat([], items, Parse(mid, more).1);
  }

  /**
   * What a served client has on its screens by the end of a script: one for one a beginning of the blocks delivered,
   * missing at most the last, and missing none when the connection ended quietly.
   */
  lemma ServedClientSees(v: Voice, script: seq<Happening>, written: seq<byte>)
    requires Wrote(v, Taken(OPENING).0, OPENING_OFFERS, script, written)
    ensures var screens, blocks := Screens([], Parse(InData, written).1).0, BlocksShown(v, Taken(OPENING).0, script);
            && |screens| <= |blocks| && ShowEach(screens, blocks[..|screens|])
            && (script != [] ==> |BlocksShown(v, Taken(OPENING).0, script[..|script| - 1])| <= |screens|)
            && (script == [] || EndsQuietly(script[|script| - 1]) ==> |screens| == |blocks|)
  {
    hide Screens, Parse, BlocksShown, Responses, EndsQuietly, Shows;
    var m := Taken(OPENING).0;
    ClientSeesTheBlocks(v, script);
    CutOffSeesABeginning(written, OPENING_OFFERS + Responses(v, m, script).1);
    if script != [] {
      ClientSeesTheBlocks(v, script[..|script| - 1]);
      CutOffSeesABeginning(OPENING_OFFERS + Responses(v, m, script[..|script| - 1]).1, written);
    }
  }
}
