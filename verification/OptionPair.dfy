/** An option other than ECHO between the server and a client that may change its mind (RFC 854; RFC 1143, section 7). */
module OptionProtocol {
  import opened EchoProtocol
  import opened Negotiation

  // One message is a verb for the option or against it, whichever side has the option.

  /** The server's state and reply: an option it supports follows the client, any other is refused each time. */
  function ServerHears(q: QState, supported: bool, on: bool): (QState, seq<bool>) {
    if !supported then (q, if on then [false] else [])
    else if on then (Yes, if q.Yes? || q.WantYes? then [] else [true])
    else (No, if q.Yes? then [false] else [])
  }

  /** A client replies to what changes its mode, or asks it to and is refused; what answers its own request it leaves unanswered. */
  function ClientHears(c: QState, on: bool, accept: bool): (QState, seq<bool>) {
    match c
    case No => if !on then (No, []) else if accept then (Yes, [true]) else (No, [false])
    case Yes => if on then (Yes, []) else (No, [false])
    case WantYes => (if on then Yes else No, [])
    case WantNo => (No, [])
  }

  /** The client asks for a change, unless it has or wants it already. */
  function ClientAsks(c: QState, on: bool): (QState, seq<bool>) {
    if on && (c.No? || c.WantNo?) then (WantYes, [true])
    else if !on && (c.Yes? || c.WantYes?) then (WantNo, [false])
    else (c, [])
  }

  datatype Pair = Pair(supported: bool, server: QState, client: QState, toClient: seq<bool>, toServer: seq<bool>, calls: seq<bool>)
  {
    predicate Quiet() {
      toClient == [] && toServer == [] && calls == []
    }

    /** Every state a patient client leads to. */
    ghost predicate Inv() {
      match (server, client)
      case (No, No) => toClient == [] && toServer == []
      case (No, WantNo) => supported && toClient == [false] && toServer == []
      case (No, WantYes) => (toClient == [] && toServer == [true]) || (!supported && toClient == [false] && toServer == [])
      case (WantYes, No) => supported && ((toClient == [] && toServer == [false]) || (toClient == [true] && toServer == []))
      case (WantYes, WantYes) => supported && ((toClient == [] && toServer == [false, true]) || (toClient == [true] && toServer == [true]))
      case (WantYes, WantNo) => supported && toClient == [] && toServer == [true, false]
      case (WantYes, Yes) => supported && toClient == [] && toServer == [true]
      case (Yes, WantNo) => supported && toClient == [] && toServer == [false]
      case (Yes, WantYes) => supported && toClient == [true] && toServer == []
      case (Yes, Yes) => supported && toClient == [] && toServer == []
      case _ => false
    }
  }

  datatype PairStep = Ask | ServerTakes | ClientTakes(accept: bool)

  /** A patient client asks only when it is not waiting for an answer. */
  predicate CanDo(s: Pair, step: PairStep, patient: bool) {
    match step
    case Ask => s.calls != [] && (patient ==> s.client.No? || s.client.Yes?)
    case ServerTakes => s.toServer != []
    case ClientTakes(_) => s.toClient != []
  }

  function After(s: Pair, step: PairStep): Pair
    requires CanDo(s, step, false)
  {
    match step
    case Ask =>
      var (c, sent) := ClientAsks(s.client, s.calls[0]);
      s.(client := c, toServer := s.toServer + sent, calls := s.calls[1..])
    case ServerTakes =>
      var (q, sent) := ServerHears(s.server, s.supported, s.toServer[0]);
      s.(server := q, toServer := s.toServer[1..], toClient := s.toClient + sent)
    case ClientTakes(accept) =>
      var (c, sent) := ClientHears(s.client, s.toClient[0], accept);
      s.(client := c, toClient := s.toClient[1..], toServer := s.toServer + sent)
  }

  /** The server has offered or requested the option if it supports it, and the client will ask for these changes. */
  function Opened(supported: bool, calls: seq<bool>): Pair {
    if supported then Pair(true, WantYes, No, [true], [], calls) else Pair(false, No, No, [], [], calls)
  }

  lemma StepKeepsInv(s: Pair, step: PairStep)
    requires s.Inv() && CanDo(s, step, true)
    ensures After(s, step).Inv()
  {
  }

  /** How many messages can still be exchanged, were nothing more asked for. */
  function Due(s: Pair): nat {
    match (s.server, s.client)
    case (No, WantYes) => if s.toServer == [] then 1 else 2
    case (No, WantNo) => 1
    case (Yes, WantYes) => 1
    case (Yes, WantNo) => 2
    case (WantYes, Yes) => 1
    case (WantYes, No) => if s.toClient == [] then 1 else 2
    case (WantYes, WantNo) => 3
    case (WantYes, WantYes) => if s.toClient == [] then 3 else 2
    case _ => 0
  }

  lemma StepUsesUpWork(s: Pair, step: PairStep)
    requires s.Inv() && CanDo(s, step, true)
    ensures Due(After(s, step)) + 3 * |After(s, step).calls| < Due(s) + 3 * |s.calls|
  {
  }

  ghost predicate IsExchange(s: Pair, steps: seq<PairStep>, end: Pair, patient: bool)
    decreases |steps|
  {
    if steps == [] then s == end
    else CanDo(s, steps[0], patient) && IsExchange(After(s, steps[0]), steps[1..], end, patient)
  }

  lemma {:induction false} ExchangesAreBounded(s: Pair, steps: seq<PairStep>, end: Pair)
    requires s.Inv() && IsExchange(s, steps, end, true)
    ensures end.Inv() && |steps| + Due(end) + 3 * |end.calls| <= Due(s) + 3 * |s.calls|
    decreases |steps|
  {
    hide Pair.Inv, Due, After;
    if steps != [] {
      StepKeepsInv(s, steps[0]);
      StepUsesUpWork(s, steps[0]);
      ExchangesAreBounded(After(s, steps[0]), steps[1..], end);
    }
  }

  /** With a client that waits for its answers no option loops: every exchange ends, and with both sides of one mind. */
  lemma PatientClientsSettle(supported: bool, calls: seq<bool>, steps: seq<PairStep>, end: Pair)
    requires IsExchange(Opened(supported, calls), steps, end, true)
    ensures |steps| <= 3 * |calls| + 2
    ensures (forall step :: !CanDo(end, step, true)) ==> end.Quiet() && (end.server.Yes? <==> end.client.Yes?)
    ensures end.Quiet() ==> (end.server.Yes? || end.server.No?) && (end.client.Yes? || end.client.No?)
  {
    ExchangesAreBounded(Opened(supported, calls), steps, end);
    if forall step :: !CanDo(end, step, true) {
      assert !CanDo(end, Ask, true) && !CanDo(end, ServerTakes, true) && !CanDo(end, ClientTakes(true), true);
    }
  }

  // A client that does not wait.

  /** Four states an exchange can go round in once nothing more is asked for. */
  function Round(k: nat): Pair {
    match k % 4
    case 0 => Pair(true, Yes, Yes, [false, true], [], [])
    case 1 => Pair(true, Yes, No, [true], [false], [])
    case 2 => Pair(true, No, No, [true, false], [], [])
    case _ => Pair(true, No, Yes, [false], [true], [])
  }

  function RoundStep(k: nat): PairStep {
    if k % 2 == 0 then ClientTakes(true) else ServerTakes
  }

  lemma RoundGoesOn(k: nat)
    ensures CanDo(Round(k), RoundStep(k), false) && After(Round(k), RoundStep(k)) == Round(k + 1)
  {
  }

  lemma {:induction false} RoundAndRound(k: nat, n: nat) returns (steps: seq<PairStep>)
    ensures |steps| == n && IsExchange(Round(k), steps, Round(k + n), false)
    decreases n
  {
    hide Round, RoundStep, After;
    if n == 0 {
      return [];
    }
    RoundGoesOn(k);
    var rest := RoundAndRound(k + 1, n - 1);
    steps := [RoundStep(k)] + rest;
    assert steps[1..] == rest;
  }

  /** Asking for the option, against it and for it again without waiting: the exchange may then go on for ever. */
  lemma ImpatientClientLoops(n: nat) returns (steps: seq<PairStep>, end: Pair)
    ensures IsExchange(Opened(true, [true, false, true]), steps, end, false) && |steps| >= n
  {
    hide Round;
    var rest := RoundAndRound(0, n);
    steps, end := rest, Round(n);
    var k: nat := 7;
    LeadsIn();
    while k > 0
      invariant k <= 7 && IsExchange(LeadIn(k), steps, end, false) && |steps| >= n
    {
      k := k - 1;
      LeadStepGoesOn(k);
      var longer := [LeadStep(k)] + steps;
      assert longer[1..] == steps;
      steps := longer;
    }
  }

  function LeadIn(k: nat): Pair {
    match k
    case 0 => Opened(true, [true, false, true])
    case 1 => Pair(true, WantYes, WantYes, [true], [true], [false, true])
    case 2 => Pair(true, WantYes, WantNo, [true], [true, false], [true])
    case 3 => Pair(true, WantYes, WantYes, [true], [true, false, true], [])
    case 4 => Pair(true, Yes, WantYes, [true], [false, true], [])
    case 5 => Pair(true, No, WantYes, [true, false], [true], [])
    case 6 => Pair(true, Yes, WantYes, [true, false, true], [], [])
    case _ => Pair(true, Yes, Yes, [false, true], [], [])
  }

  function LeadStep(k: nat): PairStep {
    if k < 3 then Ask else if k < 6 then ServerTakes else ClientTakes(true)
  }

  lemma LeadStepGoesOn(k: nat)
    requires k < 7
    ensures CanDo(LeadIn(k), LeadStep(k), false) && After(LeadIn(k), LeadStep(k)) == LeadIn(k + 1)
  {
  }

  lemma LeadsIn()
    ensures LeadIn(7) == Round(0)
  {
  }

  // What the negotiator does is this.

  predicate IsOn(verb: Verb) {
    verb.VWill? || verb.VDo?
  }

  /** The negotiator's state for the option on the side the verb speaks of. */
  function StateOf(o: Options, verb: Verb, option: byte): QState {
    if verb.VWill? || verb.VWont? then (if option == OPT_NAWS then o.himNaws else if option == OPT_TTYPE then o.himTtype else No)
    else if option == OPT_EOR then o.usEor else if option == OPT_CHARSET then o.usCharset else No
  }

  predicate Supports(verb: Verb, option: byte) {
    if verb.VWill? || verb.VWont? then option == OPT_NAWS || option == OPT_TTYPE else option == OPT_EOR || option == OPT_CHARSET
  }

  /** The verb that answers on the same side. */
  function AnswerByte(verb: Verb, on: bool): byte {
    if verb.VWill? || verb.VWont? then (if on then DO else DONT) else (if on then WILL else WONT)
  }

  /** Every verb about an option other than ECHO is handled so; agreeing to a type or charset adds one request, which is no verb. */
  lemma NegotiatorHears(o: Options, verb: Verb, option: byte)
    requires option != OPT_ECHO
    ensures var (q, replies) := ServerHears(StateOf(o, verb, option), Supports(verb, option), IsOn(verb));
            var (after, out) := OnVerb(o, verb, option);
            && StateOf(after, verb, option) == q
            && after.usEcho == o.usEcho && after.charset == o.charset
            && (forall other: byte, v: Verb :: Supports(v, other) && (other != option) ==> StateOf(after, v, other) == StateOf(o, v, other))
            && out == (if replies == [] then [] else [IAC, AnswerByte(verb, replies[0]), option])
                      + (if verb.VWill? && option == OPT_TTYPE && !o.himTtype.Yes? then TTYPE_REQUEST
                         else if verb.VDo? && option == OPT_CHARSET && !o.usCharset.Yes? then CHARSET_OFFER else [])
  {
    var out := OnVerb(o, verb, option).1;
    assert out + [] == out;
  }
}
