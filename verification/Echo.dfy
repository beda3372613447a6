/** The ECHO option as a two-party protocol over two FIFO channels (RFC 857, section 5; RFC 1143, section 7). */
module EchoProtocol {

  datatype QState = No | WantYes | Yes | WantNo
  datatype LocalEcho = Enabled | Suppressed
  datatype ServerVerb = Will | Wont
  datatype ClientVerb = Do | Dont

  // The server's half: what the negotiator does to its ECHO state and what it sends.

  function OnCall(q: QState, mode: LocalEcho): (r: (QState, seq<ServerVerb>))
    ensures |r.1| <= 1
  {
    match (mode, q)
    case (Suppressed, No) => (WantYes, [Will])
    case (Suppressed, WantNo) => (WantYes, [Will])
    case (Suppressed, _) => (q, [])
    case (Enabled, Yes) => (WantNo, [Wont])
    case (Enabled, WantYes) => (WantNo, [Wont])
    case (Enabled, _) => (q, [])
  }

  function OnReply(q: QState, verb: ClientVerb): (r: (QState, seq<ServerVerb>))
    ensures |r.1| <= 1
  {
    match (verb, q)
    case (Do, WantYes) => (Yes, [])
    case (Do, No) => (q, [Wont])
    case (Do, _) => (q, [])
    case (Dont, Yes) => (No, [Wont])
    case (Dont, _) => (No, [])
  }

  // The client's half: it answers only what changes or refuses to change its mode.

  function OnOffer(suppressing: bool, verb: ServerVerb, accept: bool): (bool, seq<ClientVerb>) {
    match verb
    case Will => if suppressing then (true, []) else if accept then (true, [Do]) else (false, [Dont])
    case Wont => if suppressing then (false, [Dont]) else (false, [])
  }

  /** Both parties, the two channels, and the mode changes the server has yet to ask for. */
  datatype System = System(
      server: QState,
      suppressing: bool,
      toClient: seq<ServerVerb>,
      toServer: seq<ClientVerb>,
      calls: seq<LocalEcho>)
  {
    predicate Quiet() {
      toClient == [] && toServer == [] && calls == []
    }

    /** Whether working off `toClient` will make the client answer at least once. */
    predicate WillAnswer() {
      (if suppressing then Wont else Will) in toClient
    }

    ghost predicate Inv() {
      && (toServer != [] ==> suppressing == toServer[|toServer| - 1].Do?)
      && (toServer == [] && server.Yes? ==> suppressing)
      && (toServer == [] && suppressing && !server.Yes? ==> Wont in toClient)
      && (server.WantNo? ==> if toClient == [] then !suppressing else toClient[|toClient| - 1].Wont?)
      && (server.WantYes? || server.WantNo? ==> toServer != [] || WillAnswer())
    }
  }

  datatype Step = Call | ServerReceives | ClientReceives(accept: bool)

  predicate CanTake(s: System, step: Step) {
    match step
    case Call => s.calls != []
    case ServerReceives => s.toServer != []
    case ClientReceives(_) => s.toClient != []
  }

  function Take(s: System, step: Step): System
    requires CanTake(s, step)
  {
    match step
    case Call =>
      var (q, sent) := OnCall(s.server, s.calls[0]);
      s.(server := q, toClient := s.toClient + sent, calls := s.calls[1..])
    case ServerReceives =>
      var (q, sent) := OnReply(s.server, s.toServer[0]);
      s.(server := q, toClient := s.toClient + sent, toServer := s.toServer[1..])
    case ClientReceives(accept) =>
      var (mode, sent) := OnOffer(s.suppressing, s.toClient[0], accept);
      s.(suppressing := mode, toClient := s.toClient[1..], toServer := s.toServer + sent)
  }

  function Start(calls: seq<LocalEcho>): System {
    System(No, false, [], [], calls)
  }

  lemma CallKeepsInv(s: System)
    requires s.Inv() && s.calls != []
    ensures Take(s, Call).Inv()
  {
    var t := Take(s, Call);
    assert forall v :: v in s.toClient ==> v in t.toClient;
    assert t.toClient != s.toClient ==> t.toClient[|s.toClient|] in t.toClient;
  }

  lemma ReplyKeepsInv(s: System)
    requires s.Inv() && s.toServer != []
    ensures Take(s, ServerReceives).Inv()
  {
    var t := Take(s, ServerReceives);
    assert s.toServer == [s.toServer[0]] + t.toServer;
    assert forall v :: v in s.toClient ==> v in t.toClient;
    assert t.toClient != s.toClient ==> t.toClient[|s.toClient|] == Wont;
    if t.toServer == [] { assert s.suppressing == s.toServer[0].Do?; }
    if s.toClient != [] { assert s.toClient[|s.toClient| - 1] in s.toClient; }
  }

  lemma TakeKeepsInv(s: System, step: Step)
    requires s.Inv() && CanTake(s, step)
    ensures Take(s, step).Inv()
  {
    match step
    case Call => CallKeepsInv(s);
    case ServerReceives => ReplyKeepsInv(s);
    case ClientReceives(_) => assert s.toClient == [s.toClient[0]] + Take(s, step).toClient;
  }

  // Every step strictly decreases the weighted work left, so no schedule runs forever.

  function OfferWeight(verbs: seq<ServerVerb>): nat {
    if verbs == [] then 0 else (if verbs[0].Will? then 4 else 1) + OfferWeight(verbs[1..])
  }

  function ReplyWeight(verbs: seq<ClientVerb>): nat {
    if verbs == [] then 0 else (if verbs[0].Do? then 2 else 1) + ReplyWeight(verbs[1..])
  }

  function Work(s: System): nat {
    5 * |s.calls| + OfferWeight(s.toClient) + ReplyWeight(s.toServer)
    + (if s.suppressing then 1 else 0) + (if s.server.Yes? then 1 else 0)
  }

  lemma {:induction false} OfferWeightConcat(a: seq<ServerVerb>, b: seq<ServerVerb>)
    ensures OfferWeight(a + b) == OfferWeight(a) + OfferWeight(b)
  {
    if a == [] {
      assert a + b == b;
    } else {
      OfferWeightConcat(a[1..], b);
      assert (a + b)[1..] == a[1..] + b;
    }
  }

  lemma {:induction false} ReplyWeightConcat(a: seq<ClientVerb>, b: seq<ClientVerb>)
    ensures ReplyWeight(a + b) == ReplyWeight(a) + ReplyWeight(b)
  {
    if a == [] {
      assert a + b == b;
    } else {
      ReplyWeightConcat(a[1..], b);
      assert (a + b)[1..] == a[1..] + b;
    }
  }

  lemma TakeDecreasesWork(s: System, step: Step)
    requires CanTake(s, step)
    ensures Work(Take(s, step)) < Work(s)
  {
    match step
    case Call =>
      var sent := OnCall(s.server, s.calls[0]).1;
      OfferWeightConcat(s.toClient, sent);
      assert OfferWeight(sent) <= 4;
    case ServerReceives =>
      var sent := OnReply(s.server, s.toServer[0]).1;
      OfferWeightConcat(s.toClient, sent);
      assert sent != [] ==> OfferWeight(sent) == 1;
    case ClientReceives(accept) =>
      var sent := OnOffer(s.suppressing, s.toClient[0], accept).1;
      ReplyWeightConcat(s.toServer, sent);
      assert sent != [] ==> ReplyWeight(sent) == if sent[0].Do? then 2 else 1;
  }

  /** `states` is a run from `s`, one enabled step at a time. */
  ghost predicate IsRun(s: System, steps: seq<Step>, end: System)
    decreases |steps|
  {
    if steps == [] then end == s
    else CanTake(s, steps[0]) && IsRun(Take(s, steps[0]), steps[1..], end)
  }

  /** Any interleaving, with any refusals, is over within five steps per call and one per party. */
  lemma {:induction false} RunsAreBounded(s: System, steps: seq<Step>, end: System)
    requires s.Inv() && IsRun(s, steps, end)
    ensures end.Inv() && |steps| + Work(end) <= Work(s)
    decreases |steps|
  {
    if steps != [] {
      TakeKeepsInv(s, steps[0]);
      TakeDecreasesWork(s, steps[0]);
      RunsAreBounded(Take(s, steps[0]), steps[1..], end);
    }
  }

  /** A state is quiet exactly when nobody can move. */
  lemma QuietIsStuck(s: System)
    ensures s.Quiet() <==> forall step :: !CanTake(s, step)
  {
    if !s.Quiet() {
      var step := if s.calls != [] then Call else if s.toServer != [] then ServerReceives else ClientReceives(true);
      assert CanTake(s, step);
    }
  }

  /** When everything has been delivered the server knows the client's mode, and waits for nothing. */
  lemma QuietAgrees(s: System)
    requires s.Inv() && s.Quiet()
    ensures s.server.Yes? <==> s.suppressing
    ensures s.server.Yes? || s.server.No?
  {
  }

  /** Settling: from the start, every interleaving that cannot go on has both sides in agreement. */
  lemma EchoSettles(calls: seq<LocalEcho>, steps: seq<Step>, end: System)
    requires IsRun(Start(calls), steps, end)
    ensures |steps| <= 5 * |calls|
    ensures (forall step :: !CanTake(end, step)) ==> (end.server.Yes? <==> end.suppressing) && (end.server.Yes? || end.server.No?)
  {
    RunsAreBounded(Start(calls), steps, end);
    QuietIsStuck(end);
    if end.Quiet() {
      QuietAgrees(end);
    }
  }

  /** And from every reachable point some interleaving does get there. */
  lemma {:induction false} SomeRunSettles(s: System) returns (steps: seq<Step>, end: System)
    requires s.Inv()
    ensures IsRun(s, steps, end) && end.Quiet()
    decreases Work(s)
  {
    if s.Quiet() {
      return [], s;
    }
    var step := if s.calls != [] then Call else if s.toServer != [] then ServerReceives else ClientReceives(true);
    TakeKeepsInv(s, step);
    TakeDecreasesWork(s, step);
    var rest;
    rest, end := SomeRunSettles(Take(s, step));
    steps := [step] + rest;
    assert steps[1..] == rest;
  }

  lemma Prepend(s: System, step: Step, t: System, rest: seq<Step>, end: System) returns (steps: seq<Step>)
    requires CanTake(s, step) && Take(s, step) == t && IsRun(t, rest, end)
    ensures steps == [step] + rest && IsRun(s, steps, end)
  {
    steps := [step] + rest;
    assert steps[1..] == rest;
  }

  // When the mode last asked for is the mode that settles.

  /** The last mode asked for, or still to be asked for, is normal echo. */
  predicate Releasing(s: System) {
    if s.calls == [] then s.server.No? || s.server.WantNo? else s.calls[|s.calls| - 1].Enabled?
  }

  lemma {:induction false} RunKeepsReleasing(s: System, steps: seq<Step>, end: System)
    requires Releasing(s) && IsRun(s, steps, end)
    ensures Releasing(end)
    decreases |steps|
  {
    if steps != [] {
      assert Releasing(Take(s, steps[0]));
      RunKeepsReleasing(Take(s, steps[0]), steps[1..], end);
    }
  }

  /** A release asked for last always settles released, whatever came before it and whatever the client refuses. */
  lemma ReleaseSettlesReleased(calls: seq<LocalEcho>, steps: seq<Step>, end: System)
    requires IsRun(Start(calls), steps, end) && end.Quiet()
    requires calls == [] || calls[|calls| - 1].Enabled?
    ensures end.server.No? && !end.suppressing
  {
    RunKeepsReleasing(Start(calls), steps, end);
    RunsAreBounded(Start(calls), steps, end);
    QuietAgrees(end);
  }

  /** The replies an accepting client has in store for these offers: one for each change of mode. */
  function Answers(suppressing: bool, offers: seq<ServerVerb>): seq<ClientVerb>
    decreases |offers|
  {
    if offers == [] then []
    else
      var (mode, sent) := OnOffer(suppressing, offers[0], true);
      sent + Answers(mode, offers[1..])
  }

  /** The client's mode once it has taken these offers. */
  function ModeAfter(suppressing: bool, offers: seq<ServerVerb>): bool {
    if offers == [] then suppressing else offers[|offers| - 1].Will?
  }

  /** Every reply the server has yet to hear: those on the way and those the offers on the way will draw. */
  function Outstanding(s: System): seq<ClientVerb> {
    s.toServer + Answers(s.suppressing, s.toClient)
  }

  ghost predicate Alternates(replies: seq<ClientVerb>) {
    forall i | 0 <= i < |replies| - 1 :: replies[i] != replies[i + 1]
  }

  /** What holds while the client has accepted every offer. */
  ghost predicate Obliged(s: System) {
    var due, mode := Outstanding(s), ModeAfter(s.suppressing, s.toClient);
    && s.Inv() && Alternates(due)
    && (due != [] ==> due[|due| - 1].Do? == mode)
    && (s.server.WantYes? ==> mode)
    && (s.server.Yes? && due != [] ==> due[0].Dont?)
  }

  lemma {:induction false} AnswersAppend(suppressing: bool, offers: seq<ServerVerb>, v: ServerVerb)
    ensures Answers(suppressing, offers + [v])
         == Answers(suppressing, offers)
            + if ModeAfter(suppressing, offers) == v.Will? then [] else [if v.Will? then Do else Dont]
    decreases |offers|
  {
    var more := offers + [v];
    if offers == [] {
      assert more[1..] == [];
    } else {
      var (mode, sent) := OnOffer(suppressing, offers[0], true);
      assert more[0] == offers[0] && more[1..] == offers[1..] + [v];
      AnswersAppend(mode, offers[1..], v);
    }
  }

  /** An accepting step by either party, or a call, keeps the account of replies due. */
  lemma TakeKeepsObliged(s: System, step: Step)
    requires Obliged(s) && CanTake(s, step) && step != ClientReceives(false)
    ensures Obliged(Take(s, step))
  {
    hide Answers, ModeAfter;
    TakeKeepsInv(s, step);
    match step
    case Call => OfferAdds(s, OnCall(s.server, s.calls[0]).1, Take(s, step));
    case ServerReceives => HearingKeepsObliged(s);
    case ClientReceives(_) => AnsweringMovesOneReply(s);
  }

  /** A reply the client gives was due already. */
  lemma AnsweringMovesOneReply(s: System)
    requires s.toClient != []
    ensures var t := Take(s, ClientReceives(true));
            Outstanding(t) == Outstanding(s) && ModeAfter(t.suppressing, t.toClient) == ModeAfter(s.suppressing, s.toClient)
  {
    var (mode, sent) := OnOffer(s.suppressing, s.toClient[0], true);
    assert (s.toServer + sent) + Answers(mode, s.toClient[1..]) == s.toServer + (sent + Answers(mode, s.toClient[1..]));
  }

  /** A reply the server hears is the first one due; what it sends back may add one at the end. */
  lemma HearingTakesFirstReply(s: System)
    requires s.toServer != []
    ensures var t, sent := Take(s, ServerReceives), OnReply(s.server, s.toServer[0]).1;
            && Outstanding(s) != [] && Outstanding(s)[0] == s.toServer[0]
            && Outstanding(t) == Outstanding(s)[1..]
               + (if sent == [] || !ModeAfter(s.suppressing, s.toClient) then [] else [Dont])
            && ModeAfter(t.suppressing, t.toClient) == (sent == [] && ModeAfter(s.suppressing, s.toClient))
  {
    var heard := s.(toServer := s.toServer[1..]);
    assert Outstanding(s) == [s.toServer[0]] + Outstanding(heard);
    OfferAdds(heard, OnReply(s.server, s.toServer[0]).1, Take(s, ServerReceives));
  }

  lemma HearingKeepsObliged(s: System)
    requires Obliged(s) && s.toServer != [] && Take(s, ServerReceives).Inv()
    ensures Obliged(Take(s, ServerReceives))
  {
    hide Answers, ModeAfter, Outstanding, System.Inv;
    HearingTakesFirstReply(s);
    var due, left := Outstanding(s), Outstanding(Take(s, ServerReceives));
    assert due[0] == s.toServer[0] && (|due| > 1 ==> due[1] != due[0]);
  }

  /** What an offer sent by the server adds to the replies due. */
  lemma OfferAdds(s: System, sent: seq<ServerVerb>, t: System)
    requires |sent| <= 1 && t.toClient == s.toClient + sent && t.toServer == s.toServer && t.suppressing == s.suppressing
    ensures var mode := ModeAfter(s.suppressing, s.toClient);
            && Outstanding(t) == Outstanding(s)
               + (if sent == [] || mode == sent[0].Will? then [] else [if sent[0].Will? then Do else Dont])
            && ModeAfter(t.suppressing, t.toClient) == if sent == [] then mode else sent[0].Will?
  {
    if sent == [] {
      assert t.toClient == s.toClient && Outstanding(s) + [] == Outstanding(s);
    } else {
      assert sent == [sent[0]];
      AnswersAppend(s.suppressing, s.toClient, sent[0]);
    }
  }

  /** With no call left: masked from here on, or about to be by the one reply still due. */
  predicate SettlesMasked(s: System) {
    || (s.server.Yes? && Outstanding(s) == [])
    || (s.server.WantYes? && |Outstanding(s)| == 1)
  }

  lemma TakeKeepsSettlement(s: System, step: Step)
    requires Obliged(s) && s.calls == [] && CanTake(s, step) && step != ClientReceives(false)
    ensures SettlesMasked(Take(s, step)) <==> SettlesMasked(s)
  {
    hide Answers, ModeAfter, Outstanding;
    if step.ServerReceives? {
      HearingTakesFirstReply(s);
    } else {
      AnsweringMovesOneReply(s);
    }
  }

  /** A run in which the client never refuses. */
  ghost predicate IsAcceptingRun(s: System, steps: seq<Step>, end: System) {
    IsRun(s, steps, end) && ClientReceives(false) !in steps
  }

  lemma {:induction false} AcceptingRunKeepsObliged(s: System, steps: seq<Step>, end: System)
    requires Obliged(s) && IsAcceptingRun(s, steps, end)
    ensures Obliged(end)
    ensures s.calls == [] ==> (SettlesMasked(end) <==> SettlesMasked(s))
    decreases |steps|
  {
    hide Obliged, SettlesMasked, CanTake, Take;
    if steps != [] {
      assert steps[0] in steps;
      TakeKeepsObliged(s, steps[0]);
      if s.calls == [] {
        TakeKeepsSettlement(s, steps[0]);
        NoCallsLeft(s, steps[0]);
      }
      AcceptingRunKeepsObliged(Take(s, steps[0]), steps[1..], end);
    }
  }

  lemma NoCallsLeft(s: System, step: Step)
    requires s.calls == [] && CanTake(s, step)
    ensures Take(s, step).calls == []
  {
  }

  /**
   * With an accepting client the outcome is decided once the last call is made: it settles masked if and
   * only if the server holds Yes with no reply due, or waits for Yes with exactly one.
   */
  lemma MaskedIffOneReplyDue(calls: seq<LocalEcho>, before: seq<Step>, mid: System, after: seq<Step>, end: System)
    requires IsAcceptingRun(Start(calls), before, mid) && mid.calls == []
    requires IsAcceptingRun(mid, after, end) && end.Quiet()
    ensures end.suppressing <==> SettlesMasked(mid)
    ensures end.server.Yes? <==> SettlesMasked(mid)
  {
    hide SettlesMasked, Answers, System.Inv, Obliged;
    StartIsObliged(calls);
    AcceptingRunKeepsObliged(Start(calls), before, mid);
    AcceptingRunKeepsObliged(mid, after, end);
    QuietSettles(end);
  }

  lemma StartIsObliged(calls: seq<LocalEcho>)
    ensures Obliged(Start(calls))
  {
  }

  lemma QuietSettles(s: System)
    requires Obliged(s) && s.Quiet()
    ensures SettlesMasked(s) <==> s.server.Yes?
    ensures s.server.Yes? <==> s.suppressing
  {
    QuietAgrees(s);
  }

  /** What a last masking call must find for the outcome to be masking. */
  predicate MaskingWillHold(s: System) {
    match s.server
    case Yes => Outstanding(s) == []
    case WantYes => |Outstanding(s)| == 1
    case No => Outstanding(s) == [] || Outstanding(s) == [Do]
    case WantNo => false
  }

  /** Masking asked for last settles masked if and only if that call finds the server so; after an unanswered retraction, never. */
  lemma LastMaskingCall(calls: seq<LocalEcho>, before: seq<Step>, mid: System, after: seq<Step>, end: System)
    requires IsAcceptingRun(Start(calls), before, mid) && mid.calls == [Suppressed]
    requires IsAcceptingRun(Take(mid, Call), after, end) && end.Quiet()
    ensures end.suppressing <==> MaskingWillHold(mid)
    ensures end.server.Yes? <==> MaskingWillHold(mid)
  {
    AcceptingRunKeepsObliged(Start(calls), before, mid);
    MaskingCallDecides(mid);
    TakeKeepsObliged(mid, Call);
    AcceptingRunKeepsObliged(Take(mid, Call), after, end);
    QuietAgrees(end);
  }

  /** Asked for last and with nothing in flight, masking holds. */
  lemma MaskingFromRest(calls: seq<LocalEcho>, before: seq<Step>, mid: System, after: seq<Step>, end: System)
    requires IsAcceptingRun(Start(calls), before, mid) && mid.calls == [Suppressed]
    requires mid.toClient == [] && mid.toServer == []
    requires IsAcceptingRun(Take(mid, Call), after, end) && end.Quiet()
    ensures end.suppressing && end.server.Yes?
  {
    AcceptingRunKeepsObliged(Start(calls), before, mid);
    LastMaskingCall(calls, before, mid, after, end);
  }

  lemma MaskingCallDecides(s: System)
    requires Obliged(s) && s.calls == [Suppressed]
    ensures SettlesMasked(Take(s, Call)) <==> MaskingWillHold(s)
  {
    hide Answers, System.Inv, ModeAfter;
    OfferAdds(s, OnCall(s.server, Suppressed).1, Take(s, Call));
    if Outstanding(s) == [] {
      ModeStands(s.suppressing, s.toClient);
      NothingDueMeansKnown(s);
    } else if s.server.WantNo? || s.server.No? {
      assert |Outstanding(s)| == 1 ==> Outstanding(s) == [Outstanding(s)[0]];
    }
    if s.server.WantNo? { RetractionIsDue(s); }
  }

  /** Offers that draw no answer leave the mode as it is. */
  lemma {:induction false} ModeStands(suppressing: bool, offers: seq<ServerVerb>)
    requires Answers(suppressing, offers) == []
    ensures ModeAfter(suppressing, offers) == suppressing
    decreases |offers|
  {
    if offers != [] {
      ModeStands(suppressing, offers[1..]);
    }
  }

  lemma {:induction false} SomeAnswer(suppressing: bool, offers: seq<ServerVerb>)
    requires (if suppressing then Wont else Will) in offers
    ensures Answers(suppressing, offers) != []
    decreases |offers|
  {
    if OnOffer(suppressing, offers[0], true).1 == [] {
      SomeAnswer(suppressing, offers[1..]);
    }
  }

  lemma NothingDueMeansKnown(s: System)
    requires s.Inv() && Outstanding(s) == []
    ensures s.suppressing ==> s.server.Yes?
  {
    if s.suppressing && !s.server.Yes? {
      SomeAnswer(true, s.toClient);
    }
  }

  /** A retraction waits for an answer, and leaves the client unmasked. */
  lemma RetractionIsDue(s: System)
    requires Obliged(s) && s.server.WantNo?
    ensures Outstanding(s) != [] && !ModeAfter(s.suppressing, s.toClient)
  {
    if s.toServer == [] {
      SomeAnswer(s.suppressing, s.toClient);
    }
  }

  // A client that may refuse.

  /** The client is asked to stop echoing, and will not. */
  predicate Refuses(s: System, step: Step) {
    step == ClientReceives(false) && s.toClient != [] && s.toClient[0].Will? && !s.suppressing
  }

  ghost predicate RefusesNothing(s: System, steps: seq<Step>)
    decreases |steps|
  {
    steps == [] || (!Refuses(s, steps[0]) && CanTake(s, steps[0]) && RefusesNothing(Take(s, steps[0]), steps[1..]))
  }

  /** With no call left: the server wants or has masking, and no refusal is due. */
  predicate Holds(s: System) {
    (s.server.Yes? || s.server.WantYes?) && Dont !in Outstanding(s)
  }

  lemma TakeKeepsHolds(s: System, step: Step)
    requires s.calls == [] && CanTake(s, step)
    ensures Holds(Take(s, step)) <==> Holds(s) && !Refuses(s, step)
  {
    match step
    case Call =>
    case ServerReceives =>
      HearingTakesFirstReply(s);
      var due := Outstanding(s);
      assert due == [due[0]] + due[1..];
    case ClientReceives(accept) =>
      if Refuses(s, step) {
        assert Dont in Take(s, step).toServer;
      } else {
        assert OnOffer(s.suppressing, s.toClient[0], accept) == OnOffer(s.suppressing, s.toClient[0], true);
        AnsweringMovesOneReply(s);
      }
  }

  lemma {:induction false} RunKeepsHolds(s: System, steps: seq<Step>, end: System)
    requires s.calls == [] && IsRun(s, steps, end)
    ensures Holds(end) <==> Holds(s) && RefusesNothing(s, steps)
    decreases |steps|
  {
    hide Holds, Refuses, CanTake, Take;
    if steps != [] {
      TakeKeepsHolds(s, steps[0]);
      NoCallsLeft(s, steps[0]);
      RunKeepsHolds(Take(s, steps[0]), steps[1..], end);
    }
  }

  /** For any client: settled masked if and only if masking was wanted, no refusal was due, and none was given since. */
  lemma MaskedIffNothingRefused(calls: seq<LocalEcho>, before: seq<Step>, mid: System, after: seq<Step>, end: System)
    requires IsRun(Start(calls), before, mid) && mid.calls == []
    requires IsRun(mid, after, end) && end.Quiet()
    ensures end.suppressing <==> Holds(mid) && RefusesNothing(mid, after)
    ensures end.server.Yes? <==> Holds(mid) && RefusesNothing(mid, after)
  {
    RunsAreBounded(Start(calls), before, mid);
    RunsAreBounded(mid, after, end);
    RunKeepsHolds(mid, after, end);
    QuietAgrees(end);
  }

  /** For any client: a last masking call holds if and only if it finds no refusal due, and the client gives none after it. */
  lemma LastMaskingCallOfAnyClient(calls: seq<LocalEcho>, before: seq<Step>, mid: System, after: seq<Step>, end: System)
    requires IsRun(Start(calls), before, mid) && mid.calls == [Suppressed]
    requires IsRun(Take(mid, Call), after, end) && end.Quiet()
    ensures end.suppressing <==> Dont !in Outstanding(mid) && RefusesNothing(Take(mid, Call), after)
    ensures end.server.Yes? <==> end.suppressing
  {
    RunsAreBounded(Start(calls), before, mid);
    TakeKeepsInv(mid, Call);
    OfferAdds(mid, OnCall(mid.server, Suppressed).1, Take(mid, Call));
    RunsAreBounded(Take(mid, Call), after, end);
    RunKeepsHolds(Take(mid, Call), after, end);
    QuietAgrees(end);
  }

  // A race of three calls, as the system stands after each of its twelve steps.

  function Race(k: nat): System {
    match k
    case 0 => Start([Suppressed, Enabled, Suppressed])
    case 1 => System(WantYes, false, [Will], [], [Enabled, Suppressed])
    case 2 => System(WantNo, false, [Will, Wont], [], [Suppressed])
    case 3 => System(WantYes, false, [Will, Wont, Will], [], [])
    case 4 => System(WantYes, true, [Wont, Will], [Do], [])
    case 5 => System(WantYes, false, [Will], [Do, Dont], [])
    case 6 => System(WantYes, true, [], [Do, Dont, Do], [])
    case 7 => System(Yes, true, [], [Dont, Do], [])
    case 8 => System(No, true, [Wont], [Do], [])
    case 9 => System(No, true, [Wont, Wont], [], [])
    case 10 => System(No, false, [Wont], [Dont], [])
    case 11 => System(No, false, [], [Dont], [])
    case _ => System(No, false, [], [], [])
  }

  function RaceStep(k: nat): Step {
    if k < 3 then Call else if k < 6 then ClientReceives(true) else if k < 9 then ServerReceives
    else if k < 11 then ClientReceives(true) else ServerReceives
  }

  lemma RaceCalls(k: nat)
    requires k < 3
    ensures CanTake(Race(k), RaceStep(k)) && Take(Race(k), RaceStep(k)) == Race(k + 1)
  {
  }

  lemma RaceExchanges(k: nat)
    requires 3 <= k < 12
    ensures CanTake(Race(k), RaceStep(k)) && Take(Race(k), RaceStep(k)) == Race(k + 1)
  {
  }

  lemma {:induction false} RaceRuns(k: nat) returns (steps: seq<Step>)
    requires k <= 12
    ensures IsRun(Race(k), steps, Race(12))
    decreases 12 - k
  {
    hide CanTake, Take;
    if k == 12 {
      return [];
    }
    var rest := RaceRuns(k + 1);
    if k < 3 { RaceCalls(k); } else { RaceExchanges(k); }
    steps := Prepend(Race(k), RaceStep(k), Race(k + 1), rest, Race(12));
  }

  /** Settling is all that can be promised: this race asks for masking last and settles without it. */
  lemma RaceEndsUnmasked()
    ensures exists steps, end :: && IsRun(Start([Suppressed, Enabled, Suppressed]), steps, end)
                                 && end.Quiet() && !end.suppressing && end.server.No?
  {
    var steps := RaceRuns(0);
  }
}
