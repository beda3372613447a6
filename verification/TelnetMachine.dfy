/** Splitting a raw telnet stream into data, commands, negotiations and subnegotiations (RFC 854). */
module IacParsing {
  import opened Negotiation

  const MAX_SUBNEG_BYTES := 1024

  datatype Item =
    | Data(b: byte)
    | Command(b: byte)
    | Negotiate(verb: Verb, option: byte)
    | Subnegotiation(option: byte, payload: seq<byte>)

  datatype ParserState =
    | InData
    | AfterIac
    | AfterVerb(verb: Verb)
    | SubOption
    | SubPayload(option: byte, payload: seq<byte>, overflowed: bool)
    | SubIac(option: byte, payload: seq<byte>, overflowed: bool)

  function OnCommand(b: byte): (ParserState, seq<Item>) {
    if b == IAC then (InData, [Data(IAC)])
    else if b == WILL then (AfterVerb(VWill), [])
    else if b == WONT then (AfterVerb(VWont), [])
    else if b == DO then (AfterVerb(VDo), [])
    else if b == DONT then (AfterVerb(VDont), [])
    else if b == SB then (SubOption, [])
    else (InData, [Command(b)])
  }

  function SubPush(option: byte, payload: seq<byte>, overflowed: bool, b: byte): ParserState {
    if overflowed || |payload| >= MAX_SUBNEG_BYTES then SubPayload(option, payload, true)
    else SubPayload(option, payload + [b], false)
  }

  function Step(s: ParserState, b: byte): (ParserState, seq<Item>) {
    match s
    case InData => if b == IAC then (AfterIac, []) else (InData, [Data(b)])
    case AfterIac => OnCommand(b)
    case AfterVerb(verb) => (InData, [Negotiate(verb, b)])
    case SubOption => (SubPayload(b, [], false), [])
    case SubPayload(option, payload, overflowed) =>
      if b == IAC then (SubIac(option, payload, overflowed), []) else (SubPush(option, payload, overflowed, b), [])
    case SubIac(option, payload, overflowed) =>
      if b == SE then (InData, if overflowed then [] else [Subnegotiation(option, payload)])
      else if b == IAC then (SubPush(option, payload, overflowed, IAC), [])
      else OnCommand(b)
  }

  function Parse(s: ParserState, bytes: seq<byte>): (ParserState, seq<Item>)
    decreases |bytes|
  {
    if bytes == [] then (s, [])
    else
      var (next, first) := Step(s, bytes[0]);
      var (end, rest) := Parse(next, bytes[1..]);
      (end, first + rest)
  }

  class IacParser {
    var state: ParserState

    constructor ()
      ensures state == InData
    {
      state := InData;
    }

    method Push(bytes: seq<byte>) returns (items: seq<Item>)
      modifies this
      ensures (state, items) == Parse(old(state), bytes)
    {
      items := [];
      for n := 0 to |bytes|
        invariant (state, items) == Parse(old(state), bytes[..n])
      {
        ParseConcat(old(state), bytes[..n], [bytes[n]]);
        ParseOne(state, bytes[n]);
        assert bytes[..n + 1] == bytes[..n] + [bytes[n]];
        var (next, more) := Step(state, bytes[n]);
        state := next;
        items := items + more;
      }
      assert bytes[..|bytes|] == bytes;
    }
  }

  lemma ParseOne(s: ParserState, b: byte)
    ensures Parse(s, [b]) == Step(s, b)
  {
    var (next, first) := Step(s, b);
    assert [b][1..] == [];
    assert Parse(next, []) == (next, []);
    assert first + [] == first;
  }

  /** Packet boundaries do not matter. */
  lemma {:induction false} ParseConcat(s: ParserState, a: seq<byte>, b: seq<byte>)
    ensures var (mid, first) := Parse(s, a);
            var (end, second) := Parse(mid, b);
            Parse(s, a + b) == (end, first + second)
    decreases |a|
  {
    if a == [] {
      assert a + b == b && [] + Parse(s, b).1 == Parse(s, b).1;
    } else {
      var (next, items) := Step(s, a[0]);
      ParseConcat(next, a[1..], b);
      assert (a + b)[0] == a[0] && (a + b)[1..] == a[1..] + b;
      var (mid, first) := Parse(next, a[1..]);
      var second := Parse(mid, b).1;
      assert items + (first + second) == (items + first) + second;
    }
  }

  // Framing round trip.

  function VerbByte(verb: Verb): byte {
    match verb case VWill => WILL case VWont => WONT case VDo => DO case VDont => DONT
  }

  function Escape(bytes: seq<byte>): seq<byte> {
    if bytes == [] then []
    else (if bytes[0] == IAC then [IAC, IAC] else [bytes[0]]) + Escape(bytes[1..])
  }

  /** The bytes a well-behaved peer sends for one item. */
  function Frame(item: Item): seq<byte> {
    match item
    case Data(b) => Escape([b])
    case Command(b) => [IAC, b]
    case Negotiate(verb, option) => [IAC, VerbByte(verb), option]
    case Subnegotiation(option, payload) => [IAC, SB, option] + Escape(payload) + [IAC, SE]
  }

  function Frames(items: seq<Item>): seq<byte> {
    if items == [] then [] else Frame(items[0]) + Frames(items[1..])
  }

  predicate Sendable(item: Item) {
    item.Command? ==> item.b !in {IAC, WILL, WONT, DO, DONT, SB}
  }

  /** Everything but subnegotiations over the cap. */
  function Accepted(items: seq<Item>): seq<Item> {
    if items == [] then []
    else (if items[0].Subnegotiation? && |items[0].payload| > MAX_SUBNEG_BYTES then [] else [items[0]]) + Accepted(items[1..])
  }

  function Collected(option: byte, payload: seq<byte>): ParserState {
    if |payload| <= MAX_SUBNEG_BYTES then SubPayload(option, payload, false)
    else SubPayload(option, payload[..MAX_SUBNEG_BYTES], true)
  }

  lemma {:induction false} PayloadCollects(option: byte, done: seq<byte>, payload: seq<byte>)
    ensures Parse(Collected(option, done), Escape(payload)) == (Collected(option, done + payload), [])
    decreases |payload|
  {
    if payload == [] {
      assert done + payload == done;
    } else {
      var b := payload[0];
      var more := done + [b];
      var unit := if b == IAC then [IAC, IAC] else [b];
      if |done| >= MAX_SUBNEG_BYTES { assert more[..MAX_SUBNEG_BYTES] == done[..MAX_SUBNEG_BYTES]; }
      if |done| == MAX_SUBNEG_BYTES { assert done[..MAX_SUBNEG_BYTES] == done; }
      PayloadUnit(option, done, b);
      ParseConcat(Collected(option, done), unit, Escape(payload[1..]));
      PayloadCollects(option, more, payload[1..]);
      assert done + payload == more + payload[1..];
    }
  }

  lemma PayloadUnit(option: byte, done: seq<byte>, b: byte)
    ensures Parse(Collected(option, done), if b == IAC then [IAC, IAC] else [b]) == (Collected(option, done + [b]), [])
  {
    var s, more := Collected(option, done), done + [b];
    if |done| >= MAX_SUBNEG_BYTES { assert more[..MAX_SUBNEG_BYTES] == done[..MAX_SUBNEG_BYTES]; }
    if |done| == MAX_SUBNEG_BYTES { assert done[..MAX_SUBNEG_BYTES] == done; }
    if b == IAC {
      var mid := Step(s, IAC).0;
      ParseOne(mid, IAC);
      assert [IAC, IAC][1..] == [IAC];
      assert Parse(s, [IAC, IAC]) == Parse(mid, [IAC]);
    } else {
      ParseOne(s, b);
    }
  }

  lemma FrameRoundTrip(item: Item)
    requires Sendable(item)
    ensures Parse(InData, Frame(item)) == (InData, Accepted([item]))
  {
    assert [item][1..] == [] && Accepted([item]) == (if item.Subnegotiation? && |item.payload| > MAX_SUBNEG_BYTES then [] else [item]);
    assert [] + [item] == [item];
    match item
    case Data(b) =>
      assert Escape([b]) == if b == IAC then [IAC, IAC] else [b];
      if b == IAC { TwoBytes(InData, IAC, IAC); } else { ParseOne(InData, b); }
    case Command(b) =>
      TwoBytes(InData, IAC, b);
    case Negotiate(verb, option) =>
      TwoBytes(InData, IAC, VerbByte(verb));
      var none: seq<Item> := [];
      assert none + none == none;
      ParseConcat(InData, [IAC, VerbByte(verb)], [option]);
      ParseOne(AfterVerb(verb), option);
      assert Frame(item) == [IAC, VerbByte(verb)] + [option];
    case Subnegotiation(option, payload) =>
      SubnegotiationOpens(option);
      PayloadCollects(option, [], payload);
      assert [] + payload == payload;
      var head := [IAC, SB, option];
      ParseConcat(InData, head, Escape(payload));
      SubnegotiationCloses(option, payload);
      ParseConcat(InData, head + Escape(payload), [IAC, SE]);
  }

  lemma SubnegotiationOpens(option: byte)
    ensures Parse(InData, [IAC, SB, option]) == (Collected(option, []), [])
  {
    TwoBytes(InData, IAC, SB);
    ParseConcat(InData, [IAC, SB], [option]);
    ParseOne(SubOption, option);
    assert [IAC, SB, option] == [IAC, SB] + [option];
  }

  lemma SubnegotiationCloses(option: byte, payload: seq<byte>)
    ensures Parse(Collected(option, payload), [IAC, SE])
         == (InData, if |payload| > MAX_SUBNEG_BYTES then [] else [Subnegotiation(option, payload)])
  {
    TwoBytes(Collected(option, payload), IAC, SE);
    var items := Step(SubIac(option, payload, |payload| > MAX_SUBNEG_BYTES), SE).1;
    assert [] + items == items;
  }

  /** A subnegotiation broken off by another command leaves no trace: what follows is read as if it had never begun. */
  lemma BrokenOffLeavesNoTrace(option: byte, payload: seq<byte>, b: byte, rest: seq<byte>)
    requires b != SE && b != IAC
    ensures Parse(InData, [IAC, SB, option] + Escape(payload) + ([IAC, b] + rest)) == Parse(InData, [IAC, b] + rest)
  {
    hide OnCommand, Escape;
    SubnegotiationOpens(option);
    PayloadCollects(option, [], payload);
    assert [] + payload == payload;
    var head, tail := [IAC, SB, option], [IAC, b] + rest;
    ParseConcat(InData, head, Escape(payload));
    ParseConcat(InData, head + Escape(payload), tail);
    TwoBytes(Collected(option, payload), IAC, b);
    TwoBytes(InData, IAC, b);
    ParseConcat(Collected(option, payload), [IAC, b], rest);
    ParseConcat(InData, [IAC, b], rest);
    var items := Parse(InData, tail).1;
    assert [] + items == items;
  }

  lemma TwoBytes(s: ParserState, a: byte, b: byte)
    ensures var (mid, first) := Step(s, a);
            var (end, second) := Step(mid, b);
            Parse(s, [a, b]) == (end, first + second)
  {
    assert [a, b] == [a] + [b];
    ParseConcat(s, [a], [b]);
    ParseOne(s, a);
    ParseOne(Step(s, a).0, b);
  }

  /** What a peer frames is what the parser returns, however it is cut into packets; oversized payloads vanish whole. */
  lemma {:induction false} FramingRoundTrip(items: seq<Item>)
    requires forall i :: i in items ==> Sendable(i)
    ensures Parse(InData, Frames(items)) == (InData, Accepted(items))
    decreases |items|
  {
    hide Sendable, Frame, Accepted, Step;
    if items == [] {
      NothingAccepted();
    } else {
      assert items[0] in items;
      FrameRoundTrip(items[0]);
      FramingRoundTrip(items[1..]);
      OneAccepted(items);
      ParseConcat(InData, Frame(items[0]), Frames(items[1..]));
    }
  }

  lemma NothingAccepted()
    ensures Accepted([]) == []
  {
  }

  lemma OneAccepted(items: seq<Item>)
    requires items != []
    ensures Accepted(items) == Accepted([items[0]]) + Accepted(items[1..])
  {
    assert [items[0]][1..] == [];
  }
}

/** The per-connection machine: parser, negotiator and line decoder over one output buffer. */
module TelnetMachines {
  import opened EchoProtocol
  import opened Negotiation
  import opened LineDecoding
  import opened IacParsing
  import opened Transliteration

  datatype Event = Line(bytes: seq<byte>) | WindowSize(width: nat, height: nat) | TerminalType(name: seq<byte>)

  datatype Machine = Machine(parser: ParserState, options: Options, line: Decoder, output: seq<byte>)

  function Word(high: byte, low: byte): nat {
    high as int * 256 + low as int
  }

  function CharsetAfter(mode: CharsetMode, payload: seq<byte>): CharsetMode {
    if payload != [] && payload[0] == CHARSET_ACCEPTED then Utf8
    else if payload != [] && payload[0] == CHARSET_REJECTED then Ascii
    else mode
  }

  /** One parsed item; a line completed while the client suppresses echo is answered with CR LF. */
  function OnItem(m: Machine, item: Item): (Machine, seq<Event>) {
    match item
    case Data(b) =>
      var (line, done) := Feed(m.line, b);
      if done.None? then (m.(line := line), [])
      else (m.(line := line, output := m.output + if m.options.usEcho.Yes? then [CR, LF] else []), [Line(done.value)])
    case Command(_) => (m, [])
    case Negotiate(verb, option) =>
      var (options, out) := OnVerb(m.options, verb, option);
      (m.(options := options, output := m.output + out), [])
    case Subnegotiation(option, payload) =>
      if option == OPT_NAWS then
        (m, if |payload| == 4 then [WindowSize(Word(payload[0], payload[1]), Word(payload[2], payload[3]))] else [])
      else if option == OPT_TTYPE then
        (m, if payload != [] && payload[0] == TTYPE_IS then [TerminalType(payload[1..])] else [])
      else if option == OPT_CHARSET then
        (m.(options := m.options.(charset := CharsetAfter(m.options.charset, payload))), [])
      else (m, [])
  }

  function Handle(m: Machine, items: seq<Item>): (Machine, seq<Event>)
    decreases |items|
  {
    if items == [] then (m, [])
    else
      var (next, first) := OnItem(m, items[0]);
      var (end, rest) := Handle(next, items[1..]);
      (end, first + rest)
  }

  function Received(m: Machine, bytes: seq<byte>): (Machine, seq<Event>) {
    var (parser, items) := Parse(m.parser, bytes);
    Handle(m.(parser := parser), items)
  }

  lemma {:induction false} HandleConcat(m: Machine, a: seq<Item>, b: seq<Item>)
    ensures var (mid, first) := Handle(m, a);
            var (end, second) := Handle(mid, b);
            Handle(m, a + b) == (end, first + second)
    decreases |a|
  {
    if a == [] {
      assert a + b == b && [] + Handle(m, b).1 == Handle(m, b).1;
    } else {
      var (next, events) := OnItem(m, a[0]);
      HandleConcat(next, a[1..], b);
      assert (a + b)[0] == a[0] && (a + b)[1..] == a[1..] + b;
      var (mid, first) := Handle(next, a[1..]);
      var second := Handle(mid, b).1;
      assert events + (first + second) == (events + first) + second;
    }
  }

  /** Handling items neither reads nor moves the parser. */
  lemma {:induction false} HandleIgnoresParser(m: Machine, p: ParserState, items: seq<Item>)
    ensures Handle(m.(parser := p), items) == (Handle(m, items).0.(parser := p), Handle(m, items).1)
    decreases |items|
  {
    if items != [] {
      HandleIgnoresParser(OnItem(m, items[0]).0, p, items[1..]);
    }
  }

  /** However the stream is cut into reads, the machine ends alike and reports the same events. */
  lemma ReadsDoNotMatter(m: Machine, a: seq<byte>, b: seq<byte>)
    ensures var (mid, first) := Received(m, a);
            var (end, second) := Received(mid, b);
            Received(m, a + b) == (end, first + second)
  {
    ParseConcat(m.parser, a, b);
    var (p1, items1) := Parse(m.parser, a);
    var (p2, items2) := Parse(p1, b);
    HandleIgnoresParser(m, p1, items1);
    var mid := Handle(m.(parser := p1), items1).0;
    assert mid.parser == p1;
    HandleIgnoresParser(m, p2, items1);
    HandleIgnoresParser(mid, p2, items2);
    HandleConcat(m.(parser := p2), items1, items2);
  }

  /** A machine before anything is read or written. */
  const OPENING := Machine(InData, Options(WantYes, WantYes, WantYes, WantYes, No, Ascii), FRESH, OPENING_OFFERS)

  class TelnetMachine {
    const parser: IacParser
    const negotiator: Negotiator
    const line: LineDecoder
    const codec: Codec
    var output: seq<byte>

    ghost function State(): Machine
      reads this, parser, negotiator, line
    {
      Machine(parser.state, negotiator.State(), line.State(), output)
    }

    constructor (codec: Codec)
      ensures fresh(parser) && fresh(negotiator) && fresh(line) && this.codec == codec
      ensures State() == OPENING
    {
      var p := new IacParser();
      var n := new Negotiator();
      var l := new LineDecoder();
      parser, negotiator, line := p, n, l;
      this.codec := codec;
      output := OPENING_OFFERS;
    }

    method Receive(bytes: seq<byte>) returns (events: seq<Event>)
      modifies this, parser, negotiator, line
      ensures (State(), events) == Received(old(State()), bytes)
    {
      ghost var before := State();
      var items := parser.Push(bytes);
      ghost var start := before.(parser := parser.state);
      events := [];
      for n := 0 to |items|
        invariant (State(), events) == Handle(start, items[..n])
      {
        HandleConcat(start, items[..n], [items[n]]);
        assert items[..n + 1] == items[..n] + [items[n]];
        HandleOne(State(), items[n]);
        var more := OnOne(items[n]);
        events := events + more;
      }
      assert items[..|items|] == items;
    }

    method OnOne(item: Item) returns (events: seq<Event>)
      modifies this, negotiator, line
      ensures (State(), events) == OnItem(old(State()), item)
      ensures item.Data? ==> output == old(output) + if events != [] && old(negotiator.usEcho).Yes? then [13, 10] else []
    {
      events := [];
      match item {
        case Data(b) =>
          var done := line.Push(b);
          assert output + [] == output;
          if done.Some? {
            var suppressed := negotiator.EchoSuppressed();
            if suppressed {
              output := output + [CR, LF];
            }
            events := [Line(done.value)];
          }
        case Command(_) =>
        case Negotiate(verb, option) =>
          var out := negotiator.OnNegotiate(verb, option);
          output := output + out;
        case Subnegotiation(option, payload) =>
          if option == OPT_NAWS {
            if |payload| == 4 {
              events := [WindowSize(Word(payload[0], payload[1]), Word(payload[2], payload[3]))];
            }
          } else if option == OPT_TTYPE {
            if payload != [] && payload[0] == TTYPE_IS {
              events := [TerminalType(payload[1..])];
            }
          } else if option == OPT_CHARSET {
            negotiator.OnCharset(payload);
          }
      }
    }

    method SetEcho(mode: LocalEcho)
      modifies this, negotiator
      ensures State() == WithEcho(old(State()), mode)
    {
      var out;
      if mode.Suppressed? {
        out := negotiator.SuppressEcho();
      } else {
        out := negotiator.RestoreEcho();
      }
      output := output + out;
    }

    method TakeOutput() returns (bytes: seq<byte>)
      modifies this`output
      ensures bytes == old(output) && output == []
    {
      bytes := output;
      output := [];
    }

    method PromptFrame() returns (bytes: seq<byte>)
      ensures bytes == Frame(Command(PromptMark(State().options)))
      ensures bytes == if negotiator.usEor.Yes? then [255, 239] else [255, 249]
    {
      var marked := negotiator.EorEnabled();
      bytes := [IAC, if marked then EOR_CMD else GA];
    }

    /** Encodes text as it is for a UTF-8 client, transliterated for one that is not. */
    method EncodeOutput(text: string) returns (out: seq<byte>)
      ensures out == Encode(Charted(codec, negotiator.charset, text))
    {
      var chars := text;
      if negotiator.charset.Ascii? {
        chars := Transliterate(codec.deunicode, text);
      }
      var bytes := codec.utf8(chars);
      out := [];
      for n := 0 to |bytes|
        invariant out == Encode(bytes[..n])
      {
        EncodeConcat(bytes[..n], [bytes[n]]);
        assert bytes[..n + 1] == bytes[..n] + [bytes[n]];
        assert Encode([bytes[n]]) == EncodeByte(bytes[n]) by { assert [bytes[n]][1..] == []; }
        if bytes[n] == LF {
          out := out + [CR, LF];
        } else if bytes[n] == CR {
        } else if bytes[n] == IAC {
          out := out + [IAC, IAC];
        } else {
          out := out + [bytes[n]];
        }
      }
      assert bytes[..|bytes|] == bytes;
    }
  }

  /** The machine once told how the client shall echo; it may queue one offer. */
  function WithEcho(m: Machine, mode: LocalEcho): Machine {
    var (echo, sent) := OnCall(m.options.usEcho, mode);
    m.(options := m.options.(usEcho := echo), output := m.output + EchoOffers(sent))
  }

  /** UTF-8 encoding, and transliteration of characters into ASCII ones. */
  datatype Codec = Codec(utf8: string -> seq<byte>, deunicode: string -> string)

  function Charted(codec: Codec, charset: CharsetMode, text: string): seq<byte> {
    match charset
    case Utf8 => codec.utf8(text)
    case Ascii => codec.utf8(Transliterated(codec.deunicode, text))
  }

  /** The command that marks a prompt: end-of-record once negotiated, go-ahead until then. */
  function PromptMark(options: Options): byte {
    if options.usEor.Yes? then EOR_CMD else GA
  }

  lemma HandleOne(m: Machine, item: Item)
    ensures Handle(m, [item]) == OnItem(m, item)
  {
    var (next, first) := OnItem(m, item);
    assert [item][1..] == [] && Handle(next, []) == (next, []) && first + [] == first;
  }

  // What reaches the other side of an encoded text.

  function EncodeByte(b: byte): seq<byte> {
    if b == LF then [CR, LF] else if b == CR then [] else if b == IAC then [IAC, IAC] else [b]
  }

  function Encode(text: seq<byte>): seq<byte> {
    if text == [] then [] else EncodeByte(text[0]) + Encode(text[1..])
  }

  lemma {:induction false} EncodeConcat(a: seq<byte>, b: seq<byte>)
    ensures Encode(a + b) == Encode(a) + Encode(b)
  {
    hide EncodeByte;
    if a == [] {
      assert a + b == b;
    } else {
      EncodeConcat(a[1..], b);
      assert (a + b)[0] == a[0] && (a + b)[1..] == a[1..] + b;
    }
  }

  /** The text a client sees: CR dropped, LF as CR LF, every other byte itself, 255 included. */
  function Shown(text: seq<byte>): seq<byte> {
    if text == [] then [] else ShownByte(text[0]) + Shown(text[1..])
  }

  function ShownByte(b: byte): seq<byte> {
    if b == LF then [CR, LF] else if b == CR then [] else [b]
  }

  function AsData(bytes: seq<byte>): seq<Item> {
    seq(|bytes|, i requires 0 <= i < |bytes| => Data(bytes[i]))
  }

  /** Encoded text parses to data bytes only: no byte of a text can be mistaken for a telnet command. */
  lemma {:induction false} EncodedTextIsData(text: seq<byte>)
    ensures Parse(InData, Encode(text)) == (InData, AsData(Shown(text)))
  {
    hide IacParsing.Step, EncodeByte, ShownByte;
    if text == [] {
      assert AsData([]) == [];
    } else {
      EncodedTextIsData(text[1..]);
      var b := text[0];
      ParseConcat(InData, EncodeByte(b), Encode(text[1..]));
      EncodedByteIsData(b);
      assert AsData(ShownByte(b) + Shown(text[1..])) == AsData(ShownByte(b)) + AsData(Shown(text[1..]));
    }
  }

  /** A prompt reads as its text and then one command, the only command in it. */
  lemma PromptEndsInOneMark(options: Options, text: seq<byte>)
    ensures Parse(InData, Encode(text) + Frame(Command(PromptMark(options)))) ==
            (InData, AsData(Shown(text)) + [Command(PromptMark(options))])
  {
    var mark := Command(PromptMark(options));
    EncodedTextIsData(text);
    FrameRoundTrip(mark);
    ParseConcat(InData, Encode(text), Frame(mark));
    assert Accepted([mark]) == [mark] by { assert [mark][1..] == []; }
  }

  lemma EncodedByteIsData(b: byte)
    ensures Parse(InData, EncodeByte(b)) == (InData, AsData(ShownByte(b)))
  {
    if b == LF {
      TwoBytes(InData, CR, LF);
      assert AsData([CR, LF]) == [Data(CR)] + [Data(LF)];
    } else if b == IAC {
      TwoBytes(InData, IAC, IAC);
      assert AsData([IAC]) == [] + [Data(IAC)];
    } else if b == CR {
      assert AsData([]) == [];
    } else {
      ParseOne(InData, b);
      assert AsData([b]) == [Data(b)];
    }
  }

  /** The complete lines of a text, CRs removed, after `open` has already been read of the first. */
  function LinesOf(open: seq<byte>, text: seq<byte>): seq<seq<byte>>
    decreases |text|
  {
    if text == [] then []
    else if text[0] == LF then [open] + LinesOf([], text[1..])
    else if text[0] == CR then LinesOf(open, text[1..])
    else LinesOf(open + [text[0]], text[1..])
  }

  function Short(lines: seq<seq<byte>>): seq<seq<byte>> {
    if lines == [] then []
    else (if |lines[0]| <= MAX_LINE_BYTES then [lines[0]] else []) + Short(lines[1..])
  }

  /** Decoding an encoded text gives back its lines, CRs removed and lines over the cap left out. */
  lemma {:induction false} EncodedTextKeepsLines(open: seq<byte>, text: seq<byte>)
    ensures Decode(Buffered(open), Shown(text)).1 == Short(LinesOf(open, text))
    decreases |text|
  {
    if text != [] {
      var b, rest := text[0], text[1..];
      if b == LF {
        EncodedTextKeepsLines([], rest);
        EndingFinishes(open, CrLf);
        DecodeConcat(Buffered(open), [CR, LF], Shown(rest));
        assert Buffered([]) == FRESH;
        assert ([open] + LinesOf([], rest))[1..] == LinesOf([], rest);
      } else if b == CR {
        EncodedTextKeepsLines(open, rest);
        assert Shown(text) == Shown(rest);
      } else {
        EncodedTextKeepsLines(open + [b], rest);
        LineBuffers(open, [b]);
        DecodeConcat(Buffered(open), [b], Shown(rest));
        assert [] + Decode(Buffered(open + [b]), Shown(rest)).1 == Decode(Buffered(open + [b]), Shown(rest)).1;
      }
    }
  }

  // What a client's words come to.

  /** The client's last word on prompt marks, if it had one: whether it wants them. */
  function WantsMarks(was: bool, items: seq<Item>): bool {
    if items == [] then was
    else
      match items[|items| - 1]
      case Negotiate(verb, option) =>
        if option == 25 && (verb.VDo? || verb.VDont?) then verb.VDo? else WantsMarks(was, items[..|items| - 1])
      case _ => WantsMarks(was, items[..|items| - 1])
  }

  /** The client's last word on the charset: UTF-8 accepted or rejected. */
  function TakesUtf8(was: bool, items: seq<Item>): bool {
    if items == [] then was
    else
      match items[|items| - 1]
      case Subnegotiation(option, payload) =>
        if option == 42 && payload != [] && payload[0] in {2, 3} then payload[0] == 2 else TakesUtf8(was, items[..|items| - 1])
      case _ => TakesUtf8(was, items[..|items| - 1])
  }

  lemma {:induction false} LastWordOfMore(marks: bool, utf8: bool, a: seq<Item>, b: seq<Item>)
    ensures WantsMarks(marks, a + b) == WantsMarks(WantsMarks(marks, a), b)
    ensures TakesUtf8(utf8, a + b) == TakesUtf8(TakesUtf8(utf8, a), b)
    decreases |b|
  {
    if b == [] {
      assert a + b == a;
    } else {
      assert (a + b)[..|a + b| - 1] == a + b[..|b| - 1];
      LastWordOfMore(marks, utf8, a, b[..|b| - 1]);
    }
  }

  /** Whatever else a client says, its last word decides how prompts are marked and how text is encoded. */
  lemma {:induction false} LastWordDecides(m: Machine, items: seq<Item>)
    ensures var end := Handle(m, items).0.options;
            && (end.usEor.Yes? <==> WantsMarks(m.options.usEor.Yes?, items))
            && (end.charset.Utf8? <==> TakesUtf8(m.options.charset.Utf8?, items))
    decreases |items|
  {
    if items != [] {
      var n := |items| - 1;
      LastWordDecides(m, items[..n]);
      HandleConcat(m, items[..n], [items[n]]);
      HandleOne(Handle(m, items[..n]).0, items[n]);
      assert items == items[..n] + [items[n]];
      hide Handle, EchoProtocol.OnReply;
    }
  }

  /** A client framing its window's size or its terminal's name is reported to have just that. */
  lemma ReportsRoundTrip(m: Machine, width: nat, height: nat, name: seq<byte>)
    requires m.parser.InData? && width < 65536 && height < 65536 && |name| < MAX_SUBNEG_BYTES
    ensures Received(m, Frame(Subnegotiation(31, [width / 256, width % 256, height / 256, height % 256]))) == (m, [WindowSize(width, height)])
    ensures Received(m, Frame(Subnegotiation(24, [0] + name))) == (m, [TerminalType(name)])
  {
    var size := Subnegotiation(31, [width / 256, width % 256, height / 256, height % 256]);
    var type_ := Subnegotiation(24, [0] + name);
    FrameRoundTrip(size);
    FrameRoundTrip(type_);
    assert [size][1..] == [] && Accepted([size]) == [size] && [type_][1..] == [] && Accepted([type_]) == [type_];
    HandleOne(m, size);
    HandleOne(m, type_);
    assert ([0] + name)[1..] == name;
  }
}
