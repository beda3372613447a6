/** When an option exchange with a client that may not wait goes on for ever, and when it must end. */
module OptionLoops {
  import opened Wrappers
  import opened EchoProtocol
  import opened OptionProtocol

  /** How often the mode turns along `w`, starting from `q`. */
  function Changes(q: bool, w: seq<bool>): nat
    decreases |w|
  {
    if w == [] then 0 else (if w[0] == q then 0 else 1) + Changes(w[0], w[1..])
  }

  function Final(q: bool, w: seq<bool>): bool {
    if w == [] then q else w[|w| - 1]
  }

  lemma {:induction false} ChangesAppend(q: bool, w: seq<bool>, x: bool)
    ensures Changes(q, w + [x]) == Changes(q, w) + (if Final(q, w) == x then 0 else 1)
    decreases |w|
  {
    if w == [] {
      assert w + [x] == [x] && [x][1..] == [];
    } else {
      ChangesAppend(w[0], w[1..], x);
      assert (w + [x])[0] == w[0] && (w + [x])[1..] == w[1..] + [x];
    }
  }

  lemma {:induction false} NoChangeStays(q: bool, w: seq<bool>)
    requires Changes(q, w) == 0
    ensures Final(q, w) == q
    decreases |w|
  {
    if w != [] { NoChangeStays(w[0], w[1..]); }
  }

  /** What a side has, or is asking for. */
  predicate Mind(q: QState) {
    q.Yes? || q.WantYes?
  }

  predicate Waits(q: QState) {
    q.WantYes? || q.WantNo?
  }

  /** The server's mode is not the last thing the client will have heard of it, and the other way round. */
  predicate ServerUnheard(s: Pair) {
    Final(Mind(s.client), s.toClient) != Mind(s.server)
  }

  predicate ClientUnheard(s: Pair) {
    Final(Mind(s.server), s.toServer) != Mind(s.client)
  }

  /** Turns on their way round the two channels, less those a side will take for what it has already. */
  function Circling(s: Pair): int {
    ToServer(s) + ToClient(s)
    - (if ServerUnheard(s) then 1 else 0) - (if ClientUnheard(s) then 1 else 0)
  }

  /** Nobody waits for an answer and nothing more is asked for. */
  predicate Calm(s: Pair) {
    s.supported && s.calls == [] && !Waits(s.server) && !Waits(s.client)
  }

  /** The turns each side has still to hear. */
  function ToServer(s: Pair): nat {
    Changes(Mind(s.server), s.toServer)
  }

  function ToClient(s: Pair): nat {
    Changes(Mind(s.client), s.toClient)
  }

  /** What the server hears is nothing new, or a turn: passed on to the client, or taken for what it has heard already. */
  lemma ServerTurns(s: Pair)
    requires Calm(s) && s.toServer != []
    ensures var t, turn := After(s, ServerTakes), s.toServer[0] != Mind(s.server);
            && Calm(t) && ClientUnheard(t) == ClientUnheard(s) && |t.toServer| == |s.toServer| - 1
            && ToServer(t) == ToServer(s) - (if turn then 1 else 0)
            && ToClient(t) == ToClient(s) + (if turn && !ServerUnheard(s) then 1 else 0)
            && ServerUnheard(t) == (ServerUnheard(s) && !turn)
            && |t.toClient| == |s.toClient| + (if turn then 1 else 0)
  {
    ChangesAppend(Mind(s.client), s.toClient, s.toServer[0]);
    assert s.toClient + [] == s.toClient;
  }

  /** The same of an accepting client. */
  lemma ClientTurns(s: Pair)
    requires Calm(s) && s.toClient != []
    ensures var t, turn := After(s, ClientTakes(true)), s.toClient[0] != Mind(s.client);
            && Calm(t) && ServerUnheard(t) == ServerUnheard(s) && |t.toClient| == |s.toClient| - 1
            && ToClient(t) == ToClient(s) - (if turn then 1 else 0)
            && ToServer(t) == ToServer(s) + (if turn && !ClientUnheard(s) then 1 else 0)
            && ClientUnheard(t) == (ClientUnheard(s) && !turn)
            && |t.toServer| == |s.toServer| + (if turn then 1 else 0)
  {
    ChangesAppend(Mind(s.server), s.toServer, s.toClient[0]);
    assert s.toServer + [] == s.toServer;
  }

  ghost predicate LastsFor(s: Pair, n: nat) {
    exists steps, end :: IsExchange(s, steps, end, false) && |steps| >= n
  }

  /** The exchange can go on for ever. */
  ghost predicate Endless(s: Pair) {
    forall n: nat :: LastsFor(s, n)
  }

  lemma OneStepMore(s: Pair, step: PairStep, n: nat)
    requires CanDo(s, step, false) && LastsFor(After(s, step), n)
    ensures LastsFor(s, n + 1)
  {
    var steps, end :| IsExchange(After(s, step), steps, end, false) && |steps| >= n;
    var longer := [step] + steps;
    assert longer[1..] == steps;
    assert IsExchange(s, longer, end, false);
  }

  /** With an accepting client a turn that circles is never lost. */
  lemma {:induction false} CirclingLasts(s: Pair, n: nat)
    requires Calm(s) && Circling(s) > 0
    ensures LastsFor(s, n)
    decreases n
  {
    if n == 0 {
      assert IsExchange(s, [], s, false);
    } else if s.toServer != [] {
      ServerTurns(s);
      hide After, ToServer, ToClient, ServerUnheard, ClientUnheard;
      CirclingLasts(After(s, ServerTakes), n - 1);
      OneStepMore(s, ServerTakes, n - 1);
    } else {
      ClientTurns(s);
      hide After, ToServer, ToClient, ServerUnheard, ClientUnheard;
      CirclingLasts(After(s, ClientTakes(true)), n - 1);
      OneStepMore(s, ClientTakes(true), n - 1);
    }
  }

  // Otherwise every step brings a calm pair nearer to its end.

  /** How far the turns still have to go before they are taken for what is there already. */
  function Way(s: Pair): nat {
    var a, b := ToServer(s), ToClient(s);
    if ServerUnheard(s) && ClientUnheard(s) then 2 * a + 2 * b + 1
    else if ServerUnheard(s) then a + 2 * b
    else if ClientUnheard(s) then 2 * a + b
    else 0
  }

  function Left(s: Pair): nat {
    2 * Way(s) + |s.toServer| + 2 * |s.toClient|
  }

  lemma ServerNears(s: Pair)
    requires Calm(s) && s.toServer != [] && Circling(s) <= 0
    ensures Left(After(s, ServerTakes)) < Left(s)
  {
    hide After, ToServer, ToClient, ServerUnheard, ClientUnheard, Mind;
    ServerTurns(s);
  }

  lemma ClientNears(s: Pair)
    requires Calm(s) && s.toClient != [] && Circling(s) <= 0
    ensures Left(After(s, ClientTakes(true))) < Left(s)
  {
    hide After, ToServer, ToClient, ServerUnheard, ClientUnheard, Mind;
    ClientTurns(s);
  }

  // A client that refuses, in the states the server's opening leads to.

  predicate Alternates(w: seq<bool>) {
    forall i :: 0 <= i < |w| - 1 ==> w[i] != w[i + 1]
  }

  /** What the server has said: turns, but perhaps the opening again at the start, and last what it now has. */
  predicate Spoken(has: bool, said: seq<bool>) {
    said == [] || (said[|said| - 1] == has && (Alternates(said) || (said[0] && Alternates(said[1..]))))
  }

  /** Every state any client at all can lead a supported option to. */
  ghost predicate Lawful(s: Pair) {
    s.supported &&
    match s.server
    case WantNo => false
    case WantYes =>
      if s.toClient == [] then
        && s.toServer != [] && s.toServer[|s.toServer| - 1] == Mind(s.client)
        && (Waits(s.client) ==> Changes(s.toServer[0], s.toServer) > 0)
      else
        && s.toClient == [true]
        && if Waits(s.client) then s.toServer != [] && s.toServer[|s.toServer| - 1] == Mind(s.client) else s.client.No? && s.toServer == []
    case _ =>
      if Waits(s.client) then
        && !ClientUnheard(s) && (s.toClient == [true] || Spoken(Mind(s.server), s.toClient)) && (s.toClient == [] ==> ToServer(s) > 0)
      else
        && Alternates(s.toClient) && (s.toClient != [] ==> !ServerUnheard(s))
        && (ClientUnheard(s) ==> s.client.No? && if s.toClient == [] then s.server.No? else s.toClient[0])
  }

  lemma AskKeepsLawful(s: Pair)
    requires Lawful(s) && s.calls != []
    ensures Lawful(After(s, Ask))
  {
    hide Changes, Alternates;
    var sent := ClientAsks(s.client, s.calls[0]).1;
    if sent == [] {
      assert s.toServer + [] == s.toServer;
    } else {
      ChangesAppend(Mind(s.server), s.toServer, sent[0]);
      if s.toServer != [] { ChangesAppend(s.toServer[0], s.toServer, sent[0]); }
      if ToServer(s) == 0 { NoChangeStays(Mind(s.server), s.toServer); }
    }
  }

  lemma ServerKeepsLawful(s: Pair)
    requires Lawful(s) && s.toServer != []
    ensures Lawful(After(s, ServerTakes))
  {
    hide Lawful, After;
    if s.server.WantYes? || s.toServer[0] == Mind(s.server) { NoNewsKeepsLawful(s); } else { NewsKeepsLawful(s); }
  }

  lemma NoNewsKeepsLawful(s: Pair)
    requires Lawful(s) && s.toServer != [] && (s.server.WantYes? || s.toServer[0] == Mind(s.server))
    ensures Lawful(After(s, ServerTakes))
  {
    assert s.toClient + [] == s.toClient;
  }

  lemma NewsKeepsLawful(s: Pair)
    requires Lawful(s) && s.toServer != [] && !s.server.WantYes? && s.toServer[0] != Mind(s.server)
    ensures Lawful(After(s, ServerTakes))
  {
  }

  lemma ClientKeepsLawful(s: Pair, accept: bool)
    requires Lawful(s) && s.toClient != []
    ensures Lawful(After(s, ClientTakes(accept)))
  {
    ChangesAppend(Mind(s.server), s.toServer, true);
    ChangesAppend(Mind(s.server), s.toServer, false);
    assert s.toServer + [] == s.toServer;
  }

  lemma OpeningIsLawful(asks: seq<bool>)
    ensures Lawful(Opened(true, asks))
  {
  }

  /** What a client says no to among turns does not come back. */
  lemma {:induction false} AlternatingTurns(q: bool, w: seq<bool>)
    requires Alternates(w) && (w != [] ==> w[0] != q)
    ensures Changes(q, w) == |w|
    decreases |w|
  {
    if w != [] {
      if |w| > 1 { assert w[0] != w[1]; }
      AlternatesTail(w);
      AlternatingTurns(w[0], w[1..]);
    }
  }

  /** A refusal turns what circles back, or takes two turns out. */
  lemma RefusalNears(s: Pair)
    requires Lawful(s) && Calm(s) && s.toClient != [] && s.toClient[0] && s.client.No? && Circling(s) <= 0
    ensures var t := After(s, ClientTakes(false));
            Calm(t) && Circling(t) <= 0 && Left(t) < Left(s)
  {
    RefusedTurns(s);
    hide After, ToServer, ToClient, ServerUnheard, ClientUnheard, Mind, Lawful;
  }

  lemma AlternatesTail(w: seq<bool>)
    requires Alternates(w) && w != []
    ensures Alternates(w[1..])
  {
    forall i | 0 <= i < |w[1..]| - 1 ensures w[1..][i] != w[1..][i + 1] {
      assert w[i + 1] != w[i + 1 + 1];
    }
  }

  /** With several turns on their way to it a refusing client drops two of them; with one it sends it back. */
  lemma RefusedTurns(s: Pair)
    requires Lawful(s) && Calm(s) && s.toClient != [] && s.toClient[0] && s.client.No?
    ensures var t := After(s, ClientTakes(false));
            && Calm(t) && !ClientUnheard(t) && !ServerUnheard(s)
            && ToClient(s) == |s.toClient| && |t.toClient| == |s.toClient| - 1 && |t.toServer| == |s.toServer| + 1
            && ToServer(t) == ToServer(s) + (if ClientUnheard(s) then 1 else 0)
            && (if |s.toClient| == 1 then ToClient(t) == 0 && ServerUnheard(t) else ToClient(t) == ToClient(s) - 2 && !ServerUnheard(t))
  {
    var said := s.toClient;
    AlternatingTurns(false, said);
    AlternatesTail(said);
    if |said| > 1 {
      assert said[0] != said[1];
      AlternatesTail(said[1..]);
      AlternatingTurns(false, said[2..]);
      assert said[1..][1..] == said[2..];
      if |said| > 2 { assert said[1] != said[2]; }
    }
    ChangesAppend(Mind(s.server), s.toServer, false);
  }

  // A side that waits takes its one answer without a word.

  /** What is to happen first for a waiting side to have its answer. */
  function Awaited(s: Pair): Option<PairStep> {
    if !s.supported then None
    else if s.server.WantYes? && s.toServer != [] then Some(ServerTakes)
    else if Waits(s.client) && s.toClient != [] then Some(ClientTakes(true))
    else if Waits(s.client) && s.toServer != [] then Some(ServerTakes)
    else if s.server.WantYes? && s.toClient != [] then Some(ClientTakes(true))
    else None
  }

  function Messages(s: Pair): nat {
    2 * |s.toServer| + |s.toClient| + (if s.server.WantYes? && s.toServer == [] then 3 else 0)
  }

  lemma AwaitedIsEnabled(s: Pair)
    requires Awaited(s).Some?
    ensures CanDo(s, Awaited(s).value, false) && Messages(After(s, Awaited(s).value)) < Messages(s)
  {
  }

  /** The pair once every waiting side has its answer. */
  function Settled(s: Pair): Pair
    decreases Messages(s)
  {
    if Awaited(s).None? then s
    else
      AwaitedIsEnabled(s);
      Settled(After(s, Awaited(s).value))
  }

  /** How many steps that takes. */
  function Delay(s: Pair): nat
    decreases Messages(s)
  {
    if Awaited(s).None? then 0
    else
      AwaitedIsEnabled(s);
      1 + Delay(After(s, Awaited(s).value))
  }

  /** Enough for any exchange from here, if none circles. */
  function Room(s: Pair): nat {
    Left(Settled(s)) + Delay(s)
  }

  /** Two parties taking from different channels: either may go first. */
  lemma StepsCommute(s: Pair, step: PairStep)
    requires s.supported && !s.server.WantNo? && !step.Ask? && CanDo(s, step, false)
    requires Awaited(s).Some? && Awaited(s).value.ServerTakes? != step.ServerTakes?
    ensures var u := Awaited(s).value;
            && CanDo(After(s, u), step, false) && Awaited(After(s, step)) == Some(u)
            && After(After(s, u), step) == After(After(s, step), u)
  {
    var u := Awaited(s).value;
    var one, other := After(After(s, u), step), After(After(s, step), u);
    assert one.toServer == other.toServer && one.toClient == other.toClient;
  }

  lemma StepKeepsLawful(s: Pair, step: PairStep)
    requires Lawful(s) && CanDo(s, step, false)
    ensures Lawful(After(s, step))
  {
    hide Lawful, After;
    match step
    case Ask => AskKeepsLawful(s);
    case ServerTakes => ServerKeepsLawful(s);
    case ClientTakes(accept) => ClientKeepsLawful(s, accept);
  }

  /** Once every answer is there, a pair with a message on its way is calm. */
  lemma NothingAwaited(s: Pair)
    requires Lawful(s) && s.calls == [] && Awaited(s).None?
    ensures Settled(s) == s && Delay(s) == 0
    ensures Calm(s) || (s.toServer == [] && s.toClient == [])
  {
  }

  lemma CalmStepNears(s: Pair, step: PairStep)
    requires Lawful(s) && Calm(s) && !step.Ask? && CanDo(s, step, false) && Circling(s) <= 0
    ensures var t := After(s, step);
            Calm(t) && Circling(t) <= 0 && Left(t) < Left(s)
  {
    hide Lawful, Circling, Left;
    if step.ServerTakes? {
      ServerTurns(s);
      ServerNears(s);
      CirclingStays(s, ServerTakes);
    } else if step.accept || s.client.Yes? || !s.toClient[0] {
      assert After(s, step) == After(s, ClientTakes(true));
      ClientTurns(s);
      ClientNears(s);
      CirclingStays(s, ClientTakes(true));
    } else {
      RefusalNears(s);
    }
  }

  lemma CirclingStays(s: Pair, step: PairStep)
    requires Calm(s) && CanDo(s, step, false) && (step.ServerTakes? || step == ClientTakes(true))
    ensures Circling(After(s, step)) == Circling(s)
  {
    hide After, ToServer, ToClient, ServerUnheard, ClientUnheard;
    if step.ServerTakes? { ServerTurns(s); } else { ClientTurns(s); }
  }

  lemma CalmIsSettled(s: Pair)
    requires Calm(s)
    ensures Awaited(s) == None && Settled(s) == s && Delay(s) == 0
  {
  }

  lemma OneAwaitedLess(s: Pair)
    requires Awaited(s).Some?
    ensures CanDo(s, Awaited(s).value, false)
    ensures Messages(After(s, Awaited(s).value)) < Messages(s)
    ensures Settled(s) == Settled(After(s, Awaited(s).value)) && Delay(s) == 1 + Delay(After(s, Awaited(s).value))
  {
    AwaitedIsEnabled(s);
  }

  /** Refusing the opening outright ends the exchange, if nothing has been asked for. */
  lemma OpeningRefused(s: Pair)
    requires Lawful(s) && s.calls == [] && s.server.WantYes? && s.toServer == [] && !Waits(s.client)
    ensures s.toClient == [true] && s.client.No? && Awaited(s) == Some(ClientTakes(true))
    ensures var t := After(s, ClientTakes(false));
            Circling(Settled(t)) <= 0 && Room(t) == 1 && Room(s) == 2
  {
    var t := After(s, ClientTakes(false));
    var u := After(t, ServerTakes);
    assert u == Pair(true, No, No, [], [], []);
    OneAwaitedLess(t);
    CalmIsSettled(u);
    var v := After(s, ClientTakes(true));
    var w := After(v, ServerTakes);
    assert w == Pair(true, Yes, Yes, [], [], []);
    OneAwaitedLess(s);
    OneAwaitedLess(v);
    CalmIsSettled(w);
  }

  /** If nothing circles, whatever either side does next brings the exchange nearer to its end, answers awaited or not. */
  lemma {:induction false} AnyStepNears(s: Pair, step: PairStep)
    requires Lawful(s) && s.calls == [] && !step.Ask? && CanDo(s, step, false)
    requires Circling(Settled(s)) <= 0
    ensures Circling(Settled(After(s, step))) <= 0 && Room(After(s, step)) < Room(s)
    decreases Messages(s)
  {
    hide Lawful, Circling, Left, Settled, Delay, Messages;
    var t := After(s, step);
    if Awaited(s).None? {
      NothingAwaited(s);
      CalmStepNears(s, step);
      CalmIsSettled(t);
      CalmIsSettled(s);
    } else {
      var u := Awaited(s).value;
      OneAwaitedLess(s);
      if u.ServerTakes? == step.ServerTakes? {
        if step == ClientTakes(false) && !Waits(s.client) {
          OpeningRefused(s);
        } else {
          assert t == After(s, u);
        }
      } else {
        LawfulServer(s);
        StepsCommute(s, step);
        StepKeepsLawful(s, u);
        OneAwaitedLess(t);
        AnyStepNears(After(s, u), step);
      }
    }
  }

  lemma LawfulServer(s: Pair)
    requires Lawful(s)
    ensures s.supported && !s.server.WantNo?
  {
  }

  lemma {:induction false} EndsWithinRoom(s: Pair, steps: seq<PairStep>, end: Pair)
    requires Lawful(s) && s.calls == [] && Circling(Settled(s)) <= 0 && IsExchange(s, steps, end, false)
    ensures |steps| <= Room(s)
    decreases |steps|
  {
    hide Lawful, Circling, Settled, Room;
    if steps != [] {
      AnyStepNears(s, steps[0]);
      StepKeepsLawful(s, steps[0]);
      EndsWithinRoom(After(s, steps[0]), steps[1..], end);
    }
  }

  lemma {:induction false} SettledLasts(s: Pair, n: nat)
    requires Lawful(s) && s.calls == [] && Circling(Settled(s)) > 0
    ensures LastsFor(s, n)
    decreases Messages(s)
  {
    hide Lawful, Settled, Delay, Messages, LastsFor, Circling;
    if Awaited(s).None? {
      NothingAwaited(s);
      if !Calm(s) { NothingCircles(s); }
      CirclingLasts(s, n);
    } else {
      OneAwaitedLess(s);
      StepKeepsLawful(s, Awaited(s).value);
      SettledLasts(After(s, Awaited(s).value), n);
      OneStepMore(s, Awaited(s).value, n);
      LastsForLess(s, n);
    }
  }

  lemma NothingCircles(s: Pair)
    requires s.toServer == [] && s.toClient == []
    ensures Circling(s) <= 0
  {
  }

  lemma LastsForLess(s: Pair, n: nat)
    requires LastsFor(s, n + 1)
    ensures LastsFor(s, n)
  {
    var steps, end :| IsExchange(s, steps, end, false) && |steps| >= n + 1;
    assert IsExchange(s, steps, end, false) && |steps| >= n;
  }

  lemma {:induction false} ExchangeKeepsLawful(s: Pair, steps: seq<PairStep>, end: Pair)
    requires Lawful(s) && IsExchange(s, steps, end, false)
    ensures Lawful(end)
    decreases |steps|
  {
    hide Lawful, After;
    if steps != [] {
      StepKeepsLawful(s, steps[0]);
      ExchangeKeepsLawful(After(s, steps[0]), steps[1..], end);
    }
  }

  /**
   * Whatever the client has asked for and however little it waited: with no more to ask, the exchange can go on for
   * ever if and only if a turn circles once every answer awaited is in. Otherwise it ends, whatever either side does.
   */
  lemma LoopsIffCircling(asks: seq<bool>, before: seq<PairStep>, s: Pair)
    requires IsExchange(Opened(true, asks), before, s, false) && s.calls == []
    ensures Endless(s) <==> Circling(Settled(s)) > 0
    ensures Circling(Settled(s)) <= 0 ==> forall steps, end :: IsExchange(s, steps, end, false) ==> |steps| <= Room(s)
  {
    hide Lawful, Circling, Settled, Room;
    OpeningIsLawful(asks);
    ExchangeKeepsLawful(Opened(true, asks), before, s);
    if Circling(Settled(s)) > 0 {
      forall n: nat ensures LastsFor(s, n) { SettledLasts(s, n); }
    } else {
      forall steps, end | IsExchange(s, steps, end, false) ensures |steps| <= Room(s) { EndsWithinRoom(s, steps, end); }
      assert !LastsFor(s, Room(s) + 1);
    }
  }

  /** However impatient the client, an exchange that has ended leaves both sides of one mind. */
  lemma EndsOfOneMind(asks: seq<bool>, steps: seq<PairStep>, end: Pair)
    requires IsExchange(Opened(true, asks), steps, end, false) && end.Quiet()
    ensures !Waits(end.server) && !Waits(end.client) && (end.server.Yes? <==> end.client.Yes?)
  {
    OpeningIsLawful(asks);
    ExchangeKeepsLawful(Opened(true, asks), steps, end);
  }

  // An option the server does not support.

  ghost predicate Refusing(s: Pair) {
    !s.supported && s.server.No? && !s.client.Yes? && true !in s.toClient
  }

  /** However impatient the client, an option the server refuses draws one refusal a request and no more. */
  lemma {:induction false} RefusalsEnd(s: Pair, steps: seq<PairStep>, end: Pair)
    requires Refusing(s) && IsExchange(s, steps, end, false)
    ensures |steps| <= 3 * |s.calls| + 2 * |s.toServer| + |s.toClient|
    decreases |steps|
  {
    if steps != [] {
      RefusalsEnd(After(s, steps[0]), steps[1..], end);
    }
  }

  lemma RefusedOptionsEnd(asks: seq<bool>, steps: seq<PairStep>, end: Pair)
    requires IsExchange(Opened(false, asks), steps, end, false)
    ensures |steps| <= 3 * |asks|
  {
    RefusalsEnd(Opened(false, asks), steps, end);
  }
}
