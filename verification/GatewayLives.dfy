/** One connection's own steps, apart from everything they interleave with. */
module ConnectionLives {
  import opened Wrappers
  import opened SessionDriver
  import opened WorldTrace
  import opened GatewayProtocol

  datatype Act =
    | Registers | Connects | Says(line: string) | HangsUp | Takes(payload: ToConnection, written: bool) | Departs | Deregisters | GivesUp

  /** Where a connection is, what it has sent to the router and what it has taken from its mailbox. */
  datatype Life = Life(phase: Phase, sent: seq<ToRouter>, consumed: seq<ToConnection>)

  function StepOf(s: SessionId, act: Act): Step {
    match act
    case Registers => SendRegister(s)
    case Connects => SendConnect(s, true)
    case Says(line) => SendInput(s, line)
    case HangsUp => HangUp(s)
    case Takes(_, written) => Consume(s, written)
    case Departs => SendDisconnect(s)
    case Deregisters => SendDeregister(s)
    case GivesUp => GiveUp(s)
  }

  predicate May(v: Life, act: Act) {
    match act
    case Registers => v.phase.Starting?
    case Connects => v.phase.Registered?
    case Says(_) => v.phase.Running?
    case HangsUp => v.phase.Running?
    case Takes(_, _) => v.phase.Running?
    case Departs => v.phase == Leaving(true)
    case Deregisters => v.phase == Leaving(false) || v.phase.Told?
    case GivesUp => true
  }

  function Next(s: SessionId, v: Life, act: Act): Life {
    match act
    case Registers => Life(Registered, v.sent + [Register(s)], v.consumed)
    case Connects => Life(Running, v.sent + [Forward(Connect(s))], v.consumed)
    case Says(line) => Life(Running, v.sent + [Forward(Input(s, line))], v.consumed)
    case HangsUp => v.(phase := Leaving(true))
    case Takes(payload, written) =>
      Life(if payload.CloseNow? then Leaving(false) else if written then Running else Leaving(true), v.sent, v.consumed + [payload])
    case Departs => Life(Told, v.sent + [Forward(Disconnect(s))], v.consumed)
    case Deregisters => Life(Gone, v.sent + [Deregister(s)], v.consumed)
    case GivesUp => v.(phase := Gone)
  }

  /** A connection after these acts, if each was possible when its turn came. */
  function Lived(s: SessionId, acts: seq<Act>): Option<Life>
    decreases |acts|
  {
    if acts == [] then Some(Life(Starting, [], []))
    else
      match Lived(s, acts[..|acts| - 1])
      case None => None
      case Some(v) => if May(v, acts[|acts| - 1]) then Some(Next(s, v, acts[|acts| - 1])) else None
  }

  /** What the system has to offer for an act: room for a command, the payload next in the mailbox, a router that is gone. */
  predicate Offers(g: Gateway, s: SessionId, act: Act)
    requires s in g.conns
  {
    match act
    case HangsUp => true
    case Takes(payload, _) => g.conns[s].mailbox != [] && g.conns[s].mailbox[0] == payload
    case GivesUp => !g.up
    case _ => CanSend(g)
  }

  /** Each act is an enabled step of the system, and does to it just what it does to the connection. */
  lemma ActIsAStep(g: Gateway, s: SessionId, v: Life, act: Act)
    requires s in g.conns && g.conns[s].phase == v.phase && g.conns[s].consumed == v.consumed
    requires May(v, act) && Offers(g, s, act)
    ensures Enabled(g, StepOf(s, act))
    ensures var h, w := Do(g, StepOf(s, act)), Next(s, v, act);
            && s in h.conns && h.conns[s].phase == w.phase && h.conns[s].consumed == w.consumed
            && v.sent <= w.sent && h.commands == g.commands + w.sent[|v.sent|..]
            && h.conns - {s} == g.conns - {s} && h.registry == g.registry && h.toWorld == g.toWorld && h.trace == g.trace
  {
    assert g.commands + [] == g.commands;
  }

  lemma LivedOn(s: SessionId, acts: seq<Act>, v: Life, act: Act)
    requires Lived(s, acts) == Some(v) && May(v, act)
    ensures Lived(s, acts + [act]) == Some(Next(s, v, act))
  {
    assert (acts + [act])[..|acts|] == acts;
  }

  lemma {:induction false} SentIsLived(s: SessionId, sent: seq<ToRouter>) returns (acts: seq<Act>)
    requires (forall c | c in sent :: Concerns(c, s)) && StageOf(sent, s) in {Fresh, Known, Live}
    ensures Lived(s, acts) == Some(Life(match StageOf(sent, s) case Fresh => Starting case Known => Registered case _ => Running, sent, []))
    ensures GivesUp !in acts
    decreases |sent|
  {
    if sent == [] {
      return [];
    }
    var front, last := sent[..|sent| - 1], sent[|sent| - 1];
    assert last in sent && sent == front + [last];
    var earlier := SentIsLived(s, front);
    var act := match last case Register(_) => Registers case Forward(frame) => if frame.Input? then Says(frame.line) else Connects case _ => HangsUp;
    LivedOn(s, earlier, Lived(s, earlier).value, act);
    acts := earlier + [act];
  }

  /** A running connection takes these payloads, a Close last if at all. */
  lemma {:induction false} TakenIsLived(s: SessionId, before: seq<Act>, v: Life, consumed: seq<ToConnection>) returns (acts: seq<Act>)
    requires Lived(s, before) == Some(v) && v.phase.Running? && v.consumed == []
    requires forall i | 0 <= i < |consumed| :: consumed[i].CloseNow? ==> i == |consumed| - 1
    ensures Lived(s, acts) == Some(Life(if CloseNow in consumed then Leaving(false) else Running, v.sent, consumed))
    ensures GivesUp !in before ==> GivesUp !in acts
    decreases |consumed|
  {
    if consumed == [] {
      return before;
    }
    var front, last := consumed[..|consumed| - 1], consumed[|consumed| - 1];
    assert consumed == front + [last];
    var earlier := TakenIsLived(s, before, v, front);
    LivedOn(s, earlier, Lived(s, earlier).value, Takes(last, true));
    acts := earlier + [Takes(last, true)];
  }

  /** What a connection's phase, commands and payloads have to do with each other. */
  ghost predicate Coherent(s: SessionId, sent: seq<ToRouter>, consumed: seq<ToConnection>) {
    && (forall c | c in sent :: Concerns(c, s)) && !StageOf(sent, s).Bad?
    && (consumed != [] ==> StageOf(sent, s) !in {Fresh, Known})
    && (forall i | 0 <= i < |consumed| :: consumed[i].CloseNow? ==> i == |consumed| - 1)
    && (CloseNow in consumed ==> StageOf(sent, s) in {Live, Silent})
    && (StageOf(sent, s).Silent? ==> CloseNow in consumed)
  }

  /** The last things a session says: a Deregister, and before it a Disconnect unless the World closed it. */
  ghost predicate TakesLeave(s: SessionId, sent: seq<ToRouter>, closed: bool) {
    var n := |sent|;
    n >= 3 && sent[n - 1] == Deregister(s) && (closed <==> sent[n - 2] != Forward(Disconnect(s)))
  }

  lemma LeaveIsTaken(s: SessionId, sent: seq<ToRouter>, consumed: seq<ToConnection>)
    requires Coherent(s, sent, consumed) && StageOf(sent, s) in {Silent, Finished}
    ensures TakesLeave(s, sent, CloseNow in consumed)
  {
    var n := |sent| - 1;
    var front := sent[..n];
    assert sent[n] in sent;
    assert StageOf(front, s) in {Live, Left};
    assert front != [] && front[n - 1] in sent;
    assert StageOf(front[..n - 1], s) in {Known, Live};
    assert front[..n - 1] != [];
  }

  /** Sending on, in order, and no Disconnect after a Close nor a Deregister for any other reason. */
  lemma CoherentSends(s: SessionId, sent: seq<ToRouter>, consumed: seq<ToConnection>, command: ToRouter)
    requires Coherent(s, sent, consumed) && Concerns(command, s) && !Move(StageOf(sent, s), command).Bad?
    requires CloseNow in consumed ==> command.Deregister?
    requires command.Deregister? && StageOf(sent, s).Live? ==> CloseNow in consumed
    ensures Coherent(s, sent + [command], consumed)
    ensures StageOf(sent + [command], s) == Move(StageOf(sent, s), command)
  {
    StageGrows(sent, command, s);
    hide StageOf;
  }

  lemma CoherentTakes(s: SessionId, sent: seq<ToRouter>, consumed: seq<ToConnection>, payload: ToConnection)
    requires Coherent(s, sent, consumed) && StageOf(sent, s).Live? && CloseNow !in consumed
    ensures Coherent(s, sent, consumed + [payload])
  {
    hide StageOf, Concerns;
  }

  /** What was sent before the leave-taking, then the acts of the leave-taking itself. */
  lemma {:induction false} LeavingIsLived(s: SessionId, sent: seq<ToRouter>, consumed: seq<ToConnection>) returns (acts: seq<Act>)
    requires Coherent(s, sent, consumed)
    ensures Lived(s, acts).Some? && Lived(s, acts).value.sent == sent && Lived(s, acts).value.consumed == consumed
    ensures StageOf(sent, s).Live? && CloseNow !in consumed ==> Lived(s, acts).value.phase.Running?
    ensures StageOf(sent, s).Live? && CloseNow in consumed ==> Lived(s, acts).value.phase == Leaving(false)
    ensures StageOf(sent, s).Left? ==> Lived(s, acts).value.phase.Told?
    ensures StageOf(sent, s) in {Silent, Finished} ==> Lived(s, acts).value.phase.Gone?
    ensures GivesUp !in acts
    decreases |sent|
  {
    var stage := StageOf(sent, s);
    if stage in {Fresh, Known, Live} {
      acts := SentIsLived(s, sent);
      if stage.Live? {
        acts := TakenIsLived(s, acts, Lived(s, acts).value, consumed);
      }
      return;
    }
    var front, last := sent[..|sent| - 1], sent[|sent| - 1];
    assert last in sent && sent == front + [last];
    acts := LeavingIsLived(s, front, consumed);
    if stage.Left? {
      LivedOn(s, acts, Lived(s, acts).value, HangsUp);
      acts := acts + [HangsUp];
      LivedOn(s, acts, Lived(s, acts).value, Departs);
      acts := acts + [Departs];
    } else {
      LivedOn(s, acts, Lived(s, acts).value, Deregisters);
      acts := acts + [Deregisters];
    }
  }

  /** A connection still running, or gone for whatever reason, has lived some acts; giving up only when it did not deregister. */
  lemma CoherentIsLived(s: SessionId, phase: Phase, sent: seq<ToRouter>, consumed: seq<ToConnection>) returns (acts: seq<Act>)
    requires Coherent(s, sent, consumed) && (phase.Running? || phase.Gone?)
    requires phase.Running? ==> StageOf(sent, s).Live? && CloseNow !in consumed
    ensures Lived(s, acts) == Some(Life(phase, sent, consumed))
    ensures GivesUp in acts ==> phase.Gone? && StageOf(sent, s) !in {Silent, Finished}
  {
    acts := LeavingIsLived(s, sent, consumed);
    if phase.Gone? && StageOf(sent, s) !in {Silent, Finished} {
      LivedOn(s, acts, Lived(s, acts).value, GivesUp);
      acts := acts + [GivesUp];
    }
  }
}
