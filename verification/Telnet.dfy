/** Option negotiation for the telnet subset: one Q-method state per option. */
module Negotiation {
  import opened EchoProtocol

  type byte = n: nat | n < 256

  const IAC: byte := 255
  const DONT: byte := 254
  const DO: byte := 253
  const WONT: byte := 252
  const WILL: byte := 251
  const SB: byte := 250
  const GA: byte := 249
  const SE: byte := 240
  const EOR_CMD: byte := 239

  const OPT_ECHO: byte := 1
  const OPT_TTYPE: byte := 24
  const OPT_EOR: byte := 25
  const OPT_NAWS: byte := 31
  const OPT_CHARSET: byte := 42

  const TTYPE_IS: byte := 0
  const TTYPE_SEND: byte := 1
  const CHARSET_REQUEST: byte := 1
  const CHARSET_ACCEPTED: byte := 2
  const CHARSET_REJECTED: byte := 3

  const OPENING_OFFERS: seq<byte> :=
    [IAC, DO, OPT_NAWS, IAC, DO, OPT_TTYPE, IAC, WILL, OPT_EOR, IAC, WILL, OPT_CHARSET]
  const TTYPE_REQUEST: seq<byte> := [IAC, SB, OPT_TTYPE, TTYPE_SEND, IAC, SE]
  // The payload is the text ";UTF-8".
  const CHARSET_OFFER: seq<byte> := [IAC, SB, OPT_CHARSET, CHARSET_REQUEST, 59, 85, 84, 70, 45, 56, IAC, SE]

  datatype Verb = VWill | VWont | VDo | VDont
  datatype CharsetMode = Ascii | Utf8

  function EchoOffers(sent: seq<ServerVerb>): seq<byte>
    requires |sent| <= 1
  {
    if sent == [] then [] else [IAC, if sent[0].Will? then WILL else WONT, OPT_ECHO]
  }

  /** The options as values, in the order of the class's fields. */
  datatype Options = Options(himNaws: QState, himTtype: QState, usEor: QState, usCharset: QState, usEcho: QState, charset: CharsetMode)

  function Enable(q: QState, ack: byte, option: byte): (QState, seq<byte>) {
    match q
    case WantYes => (Yes, [])
    case Yes => (Yes, [])
    case _ => (Yes, [IAC, ack, option])
  }

  function Disable(q: QState, ack: byte, option: byte): (QState, seq<byte>) {
    if q.Yes? then (No, [IAC, ack, option]) else (No, [])
  }

  /** Handles one negotiation: the new states and the bytes to send. */
  function OnVerb(o: Options, verb: Verb, option: byte): (Options, seq<byte>) {
    match verb
    case VWill =>
      if option == OPT_NAWS then
        var (q, out) := Enable(o.himNaws, DO, option); (o.(himNaws := q), out)
      else if option == OPT_TTYPE then
        var (q, out) := Enable(o.himTtype, DO, option);
        (o.(himTtype := q), out + if o.himTtype.Yes? then [] else TTYPE_REQUEST)
      else (o, [IAC, DONT, option])
    case VWont =>
      if option == OPT_NAWS then var (q, out) := Disable(o.himNaws, DONT, option); (o.(himNaws := q), out)
      else if option == OPT_TTYPE then var (q, out) := Disable(o.himTtype, DONT, option); (o.(himTtype := q), out)
      else (o, [])
    case VDo =>
      if option == OPT_EOR then var (q, out) := Enable(o.usEor, WILL, option); (o.(usEor := q), out)
      else if option == OPT_CHARSET then
        var (q, out) := Enable(o.usCharset, WILL, option);
        (o.(usCharset := q), out + if o.usCharset.Yes? then [] else CHARSET_OFFER)
      else if option == OPT_ECHO then
        var (q, sent) := OnReply(o.usEcho, Do); (o.(usEcho := q), EchoOffers(sent))
      else (o, [IAC, WONT, option])
    case VDont =>
      if option == OPT_EOR then var (q, out) := Disable(o.usEor, WONT, option); (o.(usEor := q), out)
      else if option == OPT_CHARSET then var (q, out) := Disable(o.usCharset, WONT, option); (o.(usCharset := q), out)
      else if option == OPT_ECHO then
        var (q, sent) := OnReply(o.usEcho, Dont); (o.(usEcho := q), EchoOffers(sent))
      else (o, [])
  }

  /** The verb and option pairs the server tracks, as opposed to refusing outright. */
  predicate Tracked(verb: Verb, option: byte) {
    match verb
    case VWill => option == OPT_NAWS || option == OPT_TTYPE
    case VWont => option == OPT_NAWS || option == OPT_TTYPE
    case VDo => option == OPT_EOR || option == OPT_CHARSET
    case VDont => option == OPT_EOR || option == OPT_CHARSET || option == OPT_ECHO
  }

  /** Saying the same thing again about a tracked option draws no further reply and changes nothing. */
  lemma RepeatedVerbIsSilent(o: Options, verb: Verb, option: byte)
    requires Tracked(verb, option)
    ensures OnVerb(OnVerb(o, verb, option).0, verb, option) == (OnVerb(o, verb, option).0, [])
  {
    var none: seq<byte> := [];
    assert none + none == none;
  }

  /** How many of a client's verbs about one option draw a reply. */
  function Answered(o: Options, option: byte, verbs: seq<Verb>): nat
    decreases |verbs|
  {
    if verbs == [] then 0
    else
      var (after, out) := OnVerb(o, verbs[0], option);
      (if out == [] then 0 else 1) + Answered(after, option, verbs[1..])
  }

  /** How often a client that last said `said` changes its mind. */
  function Turnabouts(said: Verb, verbs: seq<Verb>): nat
    decreases |verbs|
  {
    if verbs == [] then 0 else (if verbs[0] == said then 0 else 1) + Turnabouts(verbs[0], verbs[1..])
  }

  lemma {:induction false} AnswersFollowTurnabouts(o: Options, option: byte, said: Verb, verbs: seq<Verb>)
    requires Tracked(said, option) && forall v :: v in verbs ==> Tracked(v, option)
    ensures Answered(OnVerb(o, said, option).0, option, verbs) <= Turnabouts(said, verbs)
    decreases |verbs|
  {
    hide OnVerb;
    if verbs != [] {
      assert verbs[0] in verbs;
      if verbs[0] == said {
        RepeatedVerbIsSilent(o, said, option);
      }
      AnswersFollowTurnabouts(OnVerb(o, said, option).0, option, verbs[0], verbs[1..]);
    }
  }

  /** Whatever a client keeps saying about a tracked option, the server answers its first word and its changes of mind at most. */
  lemma OneAnswerPerChangeOfMind(o: Options, option: byte, verbs: seq<Verb>)
    requires verbs != [] && forall v :: v in verbs ==> Tracked(v, option)
    ensures Answered(o, option, verbs) <= 1 + Turnabouts(verbs[0], verbs[1..])
  {
    assert verbs[0] in verbs;
    AnswersFollowTurnabouts(o, option, verbs[0], verbs[1..]);
  }

  class Negotiator {
    var himNaws: QState
    var himTtype: QState
    var usEor: QState
    var usCharset: QState
    var usEcho: QState
    var charset: CharsetMode

    function State(): Options
      reads this
    {
      Options(himNaws, himTtype, usEor, usCharset, usEcho, charset)
    }

    constructor ()
      ensures State() == Options(WantYes, WantYes, WantYes, WantYes, No, Ascii)
    {
      himNaws, himTtype, usEor, usCharset, usEcho := WantYes, WantYes, WantYes, WantYes, No;
      charset := Ascii;
    }

    method OnNegotiate(verb: Verb, option: byte) returns (out: seq<byte>)
      modifies this
      ensures (State(), out) == OnVerb(old(State()), verb, option)
      ensures option == OPT_ECHO && (verb.VDo? || verb.VDont?) ==>
                (usEcho, out) == (OnReply(old(usEcho), if verb.VDo? then Do else Dont).0,
                                  EchoOffers(OnReply(old(usEcho), if verb.VDo? then Do else Dont).1))
    {
      out := [];
      match verb {
        case VWill =>
          if option == OPT_NAWS {
            himNaws, out := Enable(himNaws, DO, option).0, Enable(himNaws, DO, option).1;
          } else if option == OPT_TTYPE {
            var fresh_ := !himTtype.Yes?;
            himTtype, out := Enable(himTtype, DO, option).0, Enable(himTtype, DO, option).1;
            out := out + if fresh_ then TTYPE_REQUEST else [];
          } else {
            out := [IAC, DONT, option];
          }
        case VWont =>
          if option == OPT_NAWS {
            himNaws, out := Disable(himNaws, DONT, option).0, Disable(himNaws, DONT, option).1;
          } else if option == OPT_TTYPE {
            himTtype, out := Disable(himTtype, DONT, option).0, Disable(himTtype, DONT, option).1;
          }
        case VDo =>
          if option == OPT_EOR {
            usEor, out := Enable(usEor, WILL, option).0, Enable(usEor, WILL, option).1;
          } else if option == OPT_CHARSET {
            var fresh_ := !usCharset.Yes?;
            usCharset, out := Enable(usCharset, WILL, option).0, Enable(usCharset, WILL, option).1;
            out := out + if fresh_ then CHARSET_OFFER else [];
          } else if option == OPT_ECHO {
            match usEcho {
              case WantYes => usEcho := Yes;
              case No => out := [IAC, WONT, OPT_ECHO];
              case _ =>
            }
          } else {
            out := [IAC, WONT, option];
          }
        case VDont =>
          if option == OPT_EOR {
            usEor, out := Disable(usEor, WONT, option).0, Disable(usEor, WONT, option).1;
          } else if option == OPT_CHARSET {
            usCharset, out := Disable(usCharset, WONT, option).0, Disable(usCharset, WONT, option).1;
          } else if option == OPT_ECHO {
            usEcho, out := Disable(usEcho, WONT, option).0, Disable(usEcho, WONT, option).1;
          }
      }
    }

    method OnCharset(payload: seq<byte>)
      modifies this`charset
      ensures charset == if payload != [] && payload[0] == CHARSET_ACCEPTED then Utf8
                         else if payload != [] && payload[0] == CHARSET_REJECTED then Ascii
                         else old(charset)
    {
      if payload != [] {
        if payload[0] == CHARSET_ACCEPTED {
          charset := Utf8;
        } else if payload[0] == CHARSET_REJECTED {
          charset := Ascii;
        }
      }
    }

    /** Asks the client to stop echoing, unless an offer is pending or active. */
    method SuppressEcho() returns (out: seq<byte>)
      modifies this`usEcho
      ensures (usEcho, out) == (OnCall(old(usEcho), Suppressed).0, EchoOffers(OnCall(old(usEcho), Suppressed).1))
    {
      out := [];
      if usEcho.No? || usEcho.WantNo? {
        usEcho := WantYes;
        out := [IAC, WILL, OPT_ECHO];
      }
    }

    /** Hands echoing back, also while the offer is still unanswered. */
    method RestoreEcho() returns (out: seq<byte>)
      modifies this`usEcho
      ensures (usEcho, out) == (OnCall(old(usEcho), Enabled).0, EchoOffers(OnCall(old(usEcho), Enabled).1))
    {
      out := [];
      if usEcho.Yes? || usEcho.WantYes? {
        usEcho := WantNo;
        out := [IAC, WONT, OPT_ECHO];
      }
    }

    method EchoSuppressed() returns (yes: bool)
      ensures yes <==> usEcho.Yes?
    {
      yes := usEcho == Yes;
    }

    method EorEnabled() returns (yes: bool)
      ensures yes <==> usEor.Yes?
    {
      yes := usEor == Yes;
    }
  }
}

/** Splitting the data bytes of a connection into lines. */
module LineDecoding {
  import opened Wrappers
  import opened Negotiation

  const MAX_LINE_BYTES := 4096

  const NUL: byte := 0
  const LF: byte := 10
  const CR: byte := 13

  datatype Decoder = Decoder(buf: seq<byte>, overflowed: bool, swallow: bool)

  const FRESH := Decoder([], false, false)

  function Finish(d: Decoder, swallow: bool): (Decoder, Option<seq<byte>>) {
    (Decoder([], false, swallow), if d.overflowed then None else Some(d.buf))
  }

  function Feed(d: Decoder, b: byte): (Decoder, Option<seq<byte>>) {
    if d.swallow && (b == LF || b == NUL) then (d.(swallow := false), None)
    else if b == CR then Finish(d, true)
    else if b == LF then Finish(d, false)
    else if |d.buf| >= MAX_LINE_BYTES then (Decoder(d.buf, true, false), None)
    else (Decoder(d.buf + [b], d.overflowed, false), None)
  }

  function Decode(d: Decoder, bytes: seq<byte>): (Decoder, seq<seq<byte>>)
    decreases |bytes|
  {
    if bytes == [] then (d, [])
    else
      var (next, line) := Feed(d, bytes[0]);
      var (end, lines) := Decode(next, bytes[1..]);
      (end, if line.Some? then [line.value] + lines else lines)
  }

  class LineDecoder {
    var buf: seq<byte>
    var overflowed: bool
    var swallowLfOrNul: bool

    function State(): Decoder
      reads this
    {
      Decoder(buf, overflowed, swallowLfOrNul)
    }

    constructor ()
      ensures State() == FRESH
    {
      buf, overflowed, swallowLfOrNul := [], false, false;
    }

    method Push(b: byte) returns (line: Option<seq<byte>>)
      modifies this
      ensures (State(), line) == Feed(old(State()), b)
    {
      var swallow := swallowLfOrNul;
      swallowLfOrNul := false;
      if swallow && (b == LF || b == NUL) {
        return None;
      }
      if b == CR {
        swallowLfOrNul := true;
        line := TakeLine();
      } else if b == LF {
        line := TakeLine();
      } else {
        if |buf| >= MAX_LINE_BYTES {
          overflowed := true;
        } else {
          buf := buf + [b];
        }
        line := None;
      }
    }

    method TakeLine() returns (line: Option<seq<byte>>)
      modifies this`buf, this`overflowed
      ensures buf == [] && !overflowed
      ensures line == if old(overflowed) then None else Some(old(buf))
    {
      line := if overflowed then None else Some(buf);
      buf, overflowed := [], false;
    }
  }

  lemma {:induction false} DecodeConcat(d: Decoder, a: seq<byte>, b: seq<byte>)
    ensures var (mid, first) := Decode(d, a);
            var (end, second) := Decode(mid, b);
            Decode(d, a + b) == (end, first + second)
    decreases |a|
  {
    if a == [] {
      assert a + b == b && [] + Decode(d, b).1 == Decode(d, b).1;
    } else {
      var (next, line) := Feed(d, a[0]);
      DecodeConcat(next, a[1..], b);
      assert (a + b)[0] == a[0] && (a + b)[1..] == a[1..] + b;
      var (mid, first) := Decode(next, a[1..]);
      var second := Decode(mid, b).1;
      if line.Some? { assert [line.value] + (first + second) == [line.value] + first + second; }
    }
  }

  // Lines and the endings clients really send.

  datatype Ending = CrLf | CrNul | BareLf | BareCr

  function Bytes(e: Ending): seq<byte> {
    match e
    case CrLf => [CR, LF]
    case CrNul => [CR, NUL]
    case BareLf => [LF]
    case BareCr => [CR]
  }

  /** Where an ending leaves the decoder: after a bare CR the next byte may yet belong to it. */
  function After(e: Ending): Decoder {
    Decoder([], false, e.BareCr?)
  }

  /** No bare CR is followed by a byte that would belong to it. */
  ghost predicate ReadOneWay(lines: seq<(seq<byte>, Ending)>) {
    forall i | 0 < i < |lines| && lines[i - 1].1.BareCr? :: StartsApart(lines[i])
  }

  predicate StartsApart(line: (seq<byte>, Ending)) {
    (line.0 + Bytes(line.1))[0] !in {LF, NUL}
  }

  predicate IsLine(line: seq<byte>) {
    CR !in line && LF !in line
  }

  function Wire(lines: seq<(seq<byte>, Ending)>): seq<byte> {
    if lines == [] then [] else lines[0].0 + Bytes(lines[0].1) + Wire(lines[1..])
  }

  /** The lines that fit, in order. */
  function Fitting(lines: seq<(seq<byte>, Ending)>): seq<seq<byte>> {
    if lines == [] then []
    else (if |lines[0].0| <= MAX_LINE_BYTES then [lines[0].0] else []) + Fitting(lines[1..])
  }

  function Buffered(line: seq<byte>): Decoder {
    if |line| <= MAX_LINE_BYTES then Decoder(line, false, false)
    else Decoder(line[..MAX_LINE_BYTES], true, false)
  }

  lemma {:induction false} LineBuffers(done: seq<byte>, line: seq<byte>)
    requires IsLine(line)
    ensures Decode(Buffered(done), line) == (Buffered(done + line), [])
    decreases |line|
  {
    if line == [] {
      assert done + line == done;
    } else {
      assert line[0] in line;
      var more := done + [line[0]];
      if |done| >= MAX_LINE_BYTES { assert more[..MAX_LINE_BYTES] == done[..MAX_LINE_BYTES]; }
      if |done| == MAX_LINE_BYTES { assert done[..MAX_LINE_BYTES] == done; }
      assert Feed(Buffered(done), line[0]) == (Buffered(more), None);
      assert forall b :: b in line[1..] ==> b in line;
      LineBuffers(more, line[1..]);
      assert done + line == more + line[1..];
    }
  }

  lemma EndingFinishes(line: seq<byte>, e: Ending)
    ensures Decode(Buffered(line), Bytes(e)) == (After(e), if |line| <= MAX_LINE_BYTES then [line] else [])
  {
    var first := Feed(Buffered(line), Bytes(e)[0]);
    var kept: Option<seq<byte>> := if |line| <= MAX_LINE_BYTES then Some(line) else None;
    assert first == (Decoder([], false, !e.BareLf?), kept);
    assert [line] + [] == [line];
    if e.BareLf? || e.BareCr? {
      assert Bytes(e)[1..] == [] && first.0 == After(e);
      assert Decode(first.0, Bytes(e)[1..]) == (After(e), []);
    } else {
      assert Bytes(e)[1..] == [Bytes(e)[1]] && Bytes(e)[1..][1..] == [];
      assert Feed(first.0, Bytes(e)[1]) == (FRESH, None);
      assert Decode(first.0, Bytes(e)[1..]) == (FRESH, []);
    }
  }

  lemma OneLineRoundTrip(start: Ending, line: seq<byte>, e: Ending)
    requires IsLine(line) && (start.BareCr? ==> StartsApart((line, e)))
    ensures Decode(After(start), line + Bytes(e)) == (After(e), if |line| <= MAX_LINE_BYTES then [line] else [])
  {
    hide Decode, Feed;
    LineBuffers([], line);
    assert [] + line == line && Buffered([]) == FRESH;
    EndingFinishes(line, e);
    DecodeConcat(FRESH, line, Bytes(e));
    var kept := if |line| <= MAX_LINE_BYTES then [line] else [];
    assert [] + kept == kept;
    if start.BareCr? { SwallowsNothing(line + Bytes(e)); }
  }

  /** A byte that is neither LF nor NUL is read alike after a bare CR and afresh. */
  lemma SwallowsNothing(bytes: seq<byte>)
    requires bytes != [] && bytes[0] !in {LF, NUL}
    ensures Decode(After(BareCr), bytes) == Decode(FRESH, bytes)
  {
    assert Feed(After(BareCr), bytes[0]) == Feed(FRESH, bytes[0]);
  }

  lemma {:induction false} LinesRoundTripFrom(start: Ending, lines: seq<(seq<byte>, Ending)>)
    requires (forall l :: l in lines ==> IsLine(l.0)) && ReadOneWay(lines)
    requires start.BareCr? && lines != [] ==> StartsApart(lines[0])
    ensures Decode(After(start), Wire(lines)) == (if lines == [] then After(start) else After(lines[|lines| - 1].1), Fitting(lines))
    decreases |lines|
  {
    hide StartsApart, After;
    if lines != [] {
      var (line, e) := lines[0];
      assert lines[0] in lines;
      OneLineRoundTrip(start, line, e);
      DecodeConcat(After(start), line + Bytes(e), Wire(lines[1..]));
      forall i | 0 < i < |lines[1..]| && lines[1..][i - 1].1.BareCr? ensures StartsApart(lines[1..][i]) {
        assert lines[i].1.BareCr? && lines[1..][i] == lines[i + 1];
      }
      LinesRoundTripFrom(e, lines[1..]);
    }
  }

  /** Any lines under any mix of endings come back exactly, except that a line too long vanishes whole. */
  lemma LinesRoundTrip(lines: seq<(seq<byte>, Ending)>)
    requires (forall l :: l in lines ==> IsLine(l.0)) && ReadOneWay(lines)
    ensures Decode(FRESH, Wire(lines)) == (if lines == [] then FRESH else After(lines[|lines| - 1].1), Fitting(lines))
  {
    LinesRoundTripFrom(CrLf, lines);
  }

  /** Short lines need no exception. */
  lemma {:induction false} FittingKeepsShortLines(lines: seq<(seq<byte>, Ending)>)
    requires forall l :: l in lines ==> |l.0| <= MAX_LINE_BYTES
    ensures |Fitting(lines)| == |lines| && forall i :: 0 <= i < |lines| ==> Fitting(lines)[i] == lines[i].0
  {
    if lines != [] {
      assert lines[0] in lines;
      FittingKeepsShortLines(lines[1..]);
    }
  }
}
