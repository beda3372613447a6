/** Every connected session's state, and the driver that runs a login line against the backend. */
module SessionDriver {
  import opened Wrappers
  import opened EntityIds
  import opened LoginModel
  import opened LoginMachine
  import opened LoginRuns
  import WorldStore
  import DurableModel
  import DurableRuns
  import PersistentStore

  type SessionId = n: nat | n > 0 witness 1

  datatype Binding = Binding(account: AccountId, puppet: EntityId, name: Name)
  datatype SessionState = Login(fsm: SessionFsm) | InWorld(binding: Binding)
  datatype SessionView = AtLogin(state: LoginState, history: seq<Exchange>) | Playing(binding: Binding)

  datatype OutputKind = LineBlock | PromptBlock
  datatype LoginOutput = Text(text: string, kind: OutputKind) | EchoMode(mode: InputEcho)

  datatype Routing =
    | LoginRouting(outputs: seq<LoginOutput>, close: bool, bound: Option<EntityId>)
    | InWorldRouting
    | Unknown

  /** The account tables and the world behind the login; the tables answer anything at all, and every answer is logged. */
  class Backend {
    const store: PersistentStore.DbBackend
    ghost var log: seq<Answer>

    constructor (store: PersistentStore.DbBackend)
      ensures this.store == store && log == []
    {
      this.store := store;
      log := [];
    }

    ghost predicate Valid()
      reads store.world, store.world.Repr
    {
      store.world.Valid() && this !in store.world.Repr
    }

    ghost function World(): DurableModel.Durable
      reads store.world, store.world.db, store.world.world
    {
      store.world.State()
    }

    method Authenticate(username: Name, password: string) returns (r: Option<Result<Account, LoginError>>)
      modifies this
      ensures log == old(log) + [Authenticating(username, password, r)]
    {
      r := *;
      log := log + [Authenticating(username, password, r)];
    }

    method Register(username: Name, password: string) returns (r: Option<Option<Account>>)
      modifies this
      ensures log == old(log) + [Registering(username, password, r)]
    {
      r := *;
      log := log + [Registering(username, password, r)];
    }

    method PuppetsOf(account: AccountId) returns (r: Option<seq<Puppet>>)
      modifies this
      ensures log == old(log) + [Listing(account, r)]
    {
      r := *;
      log := log + [Listing(account, r)];
    }

    method CreatePuppet(account: AccountId, name: Name) returns (r: Option<Puppet>)
      requires Valid()
      modifies this, store.world.Repr
      ensures Valid() && store.world.scheduler.queue == old(store.world.scheduler.queue)
      ensures PersistentStore.Joined(old(World()), World())
      ensures log == old(log) + [Creating(account, name, r)] && (r.Some? ==> r.value.name == name)
    {
      hide PersistentStore.Joined, DurableRuns.AtOdds, DurableRuns.LifeStep, PersistentStore.FailedAfterRows;
      var key := store.CreatePuppet();
      r := if key.None? then None else Some(Puppet(key.value, name));
      log := log + [Creating(account, name, r)];
    }

    method ResolvePuppet(key: EntityKey) returns (r: Option<EntityId>)
      modifies this
      ensures r == if key in store.world.byKey then Some(store.world.byKey[key]) else None
      ensures log == old(log) + [Resolving(key, r)]
    {
      r := store.ResolvePuppet(key);
      log := log + [Resolving(key, r)];
    }
  }

  // Rendering: messages joined by line feeds into one block.

  function Join(texts: seq<string>): string {
    if texts == [] then ""
    else if |texts| == 1 then texts[0]
    else Join(texts[..|texts| - 1]) + "\n" + texts[|texts| - 1]
  }

  function Rendered(render: Message -> string, messages: seq<Message>): seq<string> {
    seq(|messages|, i requires 0 <= i < |messages| => render(messages[i]))
  }

  function KindOf(m: Message): OutputKind {
    if IsPrompt(m) then PromptBlock else LineBlock
  }

  function RenderBatch(render: Message -> string, messages: seq<Message>): Option<(string, OutputKind)> {
    if messages == [] then None else Some((Join(Rendered(render, messages)), KindOf(messages[|messages| - 1])))
  }

  lemma JoinOne(text: string)
    ensures Join([text]) == text
  {
  }

  lemma {:induction false} JoinConcat(a: seq<string>, b: seq<string>)
    requires a != [] && b != []
    ensures Join(a + b) == Join(a) + "\n" + Join(b)
    decreases |b|
  {
    var n := |b| - 1;
    assert (a + b)[..|a + b| - 1] == a + b[..n];
    if n == 0 {
      assert a + b[..0] == a;
    } else {
      JoinConcat(a, b[..n]);
      assert Join(a) + "\n" + (Join(b[..n]) + "\n" + b[n]) == (Join(a) + "\n" + Join(b[..n])) + "\n" + b[n];
    }
  }

  function Coalesce(pending: Option<(string, OutputKind)>, batch: Option<(string, OutputKind)>): Option<(string, OutputKind)> {
    if batch.None? then pending
    else if pending.None? then batch
    else Some((pending.value.0 + "\n" + batch.value.0, batch.value.1))
  }

  lemma BatchesCoalesce(render: Message -> string, a: seq<Message>, b: seq<Message>)
    ensures RenderBatch(render, a + b) == Coalesce(RenderBatch(render, a), RenderBatch(render, b))
  {
    if a == [] {
      assert a + b == b;
    } else if b == [] {
      assert a + b == a;
    } else {
      assert Rendered(render, a + b) == Rendered(render, a) + Rendered(render, b);
      JoinConcat(Rendered(render, a), Rendered(render, b));
    }
  }

  function Flushed(pending: Option<(string, OutputKind)>): seq<LoginOutput> {
    if pending.None? then [] else [Text(pending.value.0, pending.value.1)]
  }

  function EchoOut(change: Option<InputEcho>): seq<LoginOutput> {
    if change.None? then [] else [EchoMode(change.value)]
  }

  /** All a line shows: at most one echo change, then at most one block joining every message. */
  function LineOutputs(render: Message -> string, ts: seq<Transition>): seq<LoginOutput>
    requires ts != []
  {
    EchoOut(ts[0].echo) + Flushed(RenderBatch(render, AllMessages(ts)))
  }

  function AnswersOf(xs: seq<Exchange>): seq<Answer> {
    if xs == [] then [] else AnswersOf(xs[..|xs| - 1]) + xs[|xs| - 1].answers
  }

  /** What one line did to its session: its outputs, whether it closes, and where the session stands. */
  ghost predicate LineDone(render: Message -> string, before: SessionView, line: string, c: Cycle, routing: Routing,
                           asked: seq<Answer>, after: Option<SessionView>) {
    && before.AtLogin? && routing.LoginRouting?
    && IsWholeCycle(before.state, line, c)
    && routing.outputs == LineOutputs(render, c.transitions)
    && match c.Final().terminal
       case None =>
         && asked == AnswersOf(c.exchanges) && !routing.close && routing.bound.None?
         && after == Some(AtLogin(c.Last(), before.history + c.exchanges))
       case Some(Closed) =>
         asked == AnswersOf(c.exchanges) && routing.close && routing.bound.None? && after.None?
       case Some(Bound(account, key, name)) =>
         && asked == AnswersOf(c.exchanges) + [Resolving(key, routing.bound)]
         && routing.close == routing.bound.None?
         && after == if routing.bound.None? then None else Some(Playing(Binding(account, routing.bound.value, name)))
  }

  ghost function Find(views: map<SessionId, SessionView>, session: SessionId): Option<SessionView> {
    if session in views then Some(views[session]) else None
  }

  /** A line of an unknown or in-world session leaves every session alone; one at login is run to its end. */
  ghost predicate InputDone(render: Message -> string, before: Option<SessionView>, line: string, c: Cycle, routing: Routing,
                            asked: seq<Answer>, after: Option<SessionView>) {
    match before
    case None => routing.Unknown? && asked == [] && after == before
    case Some(view) =>
      if view.Playing? then routing.InWorldRouting? && asked == [] && after == before
      else LineDone(render, view, line, c, routing, asked, after)
  }

  /** The entity a session is bound to is resident in the world as it then stands. */
  predicate BoundIsResident(routing: Routing, byKey: map<EntityKey, EntityId>) {
    routing.LoginRouting? && routing.bound.Some? ==> routing.bound.value in byKey.Values
  }

  class SessionService {
    const render: Message -> string
    var sessions: map<SessionId, SessionState>
    ghost var history: map<SessionId, seq<Exchange>>

    constructor (render: Message -> string)
      ensures Valid() && sessions == map[] && this.render == render
    {
      this.render := render;
      sessions := map[];
      history := map[];
    }

    ghost function Machines(): set<SessionFsm>
      reads this
    {
      set s | s in sessions && sessions[s].Login? :: sessions[s].fsm
    }

    /** No session is part of the world behind the login. */
    ghost predicate Apart(backend: Backend)
      reads this
    {
      this !in backend.store.world.Repr && backend !in backend.store.world.Repr && Machines() !! backend.store.world.Repr
    }

    lemma WorldIsApart(backend: Backend)
      requires backend.Valid()
      ensures Apart(backend)
    {
      hide WorldStore.World.Valid;
    }

    /** Each session at login has a machine of its own. */
    ghost predicate Owned()
      reads this
    {
      && (forall s | s in sessions && sessions[s].Login? :: s in history)
      && (forall s, t | s in sessions && t in sessions && s != t && sessions[s].Login? && sessions[t].Login? ::
            sessions[s].fsm != sessions[t].fsm)
    }

    ghost function ViewOf(s: SessionId): SessionView
      requires Owned() && s in sessions
      reads this, Machines()
    {
      match sessions[s]
      case Login(fsm) => AtLogin(fsm.state, history[s])
      case InWorld(binding) => Playing(binding)
    }

    ghost function View(): map<SessionId, SessionView>
      requires Owned()
      reads this, Machines()
    {
      map s | s in sessions :: ViewOf(s)
    }

    /** Between lines no session waits for an effect, and what each has chosen from came from the backend. */
    ghost predicate Valid()
      reads this, Machines()
    {
      Owned() && AllIdle(View())
    }

    lemma IsOwned()
      requires Valid()
      ensures Owned()
    {
    }

    method Connect(session: SessionId) returns (outputs: seq<LoginOutput>)
      requires Valid()
      modifies this
      ensures Valid() && View() == old(View())[session := AtLogin(Anon, [])]
      ensures fresh(Machines() - old(Machines()))
      ensures outputs == Flushed(RenderBatch(render, [Banner, LoginInstructions]))
    {
      hide Sourced, RenderBatch;
      var fsm := new SessionFsm();
      var t := fsm.OnConnect();
      sessions := sessions[session := Login(fsm)];
      history := history[session := []];
      outputs := Flushed(RenderBatch(render, t.messages));
      assert View() == old(View())[session := AtLogin(Anon, [])];
      NewIsIdle();
      assert View() - {session} == old(View()) - {session};
      IdleKept(old(View()), View(), session);
    }

    method Disconnect(session: SessionId)
      requires Valid()
      modifies this
      ensures Valid() && View() == old(View()) - {session} && Machines() <= old(Machines())
    {
      sessions := sessions - {session};
      assert View() == old(View()) - {session};
      IdleKept(old(View()), View(), session);
    }

    function BindingOf(session: SessionId): Option<Binding>
      reads this
    {
      if session in sessions && sessions[session].InWorld? then Some(sessions[session].binding) else None
    }

    method OnInput(session: SessionId, line: string, backend: Backend) returns (routing: Routing, ghost c: Cycle)
      requires Valid() && backend.Valid()
      modifies this, Machines(), backend, backend.store.world.Repr
      ensures Valid() && Machines() <= old(Machines())
      ensures View() - {session} == old(View()) - {session}
      ensures backend.Valid() && backend.store.world.scheduler.queue == old(backend.store.world.scheduler.queue)
      ensures PersistentStore.Joined(old(backend.World()), backend.World())
      ensures !routing.LoginRouting? ==> backend.World() == old(backend.World())
      ensures BoundIsResident(routing, backend.store.world.byKey)
      ensures old(backend.log) <= backend.log
      ensures InputDone(render, Find(old(View()), session), line, c, routing, backend.log[|old(backend.log)|..], Find(View(), session))
    {
      hide PersistentStore.Joined, LineDone, Sourced, Backend.Valid, Backend.World, View, Owned, ViewOf, AllIdle, IsIdle;
      WorldIsApart(backend);
      ViewAt(session);
      c := Cycle([], [], []);
      PersistentStore.JoinedAtOnce(backend.World());
      if session !in sessions {
        return Unknown, c;
      }
      match sessions[session]
      case InWorld(_) =>
        return InWorldRouting, c;
      case Login(fsm) =>
        ghost var before := fsm.state;
        var t := fsm.OnInput(line);
        OneMachineMoved(session);
        OthersIdle(old(View()), View(), session);
        routing, c := Drive(session, t, backend, before, line);
    }

    /** What the table says of one session, at rest between its lines. */
    lemma ViewAt(session: SessionId)
      requires Valid()
      ensures session in View() <==> session in sessions
      ensures session in sessions && sessions[session].InWorld? ==> View()[session] == Playing(sessions[session].binding)
      ensures session in sessions && sessions[session].Login? ==>
                var fsm := sessions[session].fsm;
                && fsm in Machines() && session in history && View()[session] == AtLogin(fsm.state, history[session])
                && !fsm.state.Awaits() && Sourced(fsm.state, history[session])
    {
      hide Sourced;
      if session in sessions { assert IsIdle(View()[session]); }
    }

    /** Runs a line's transition to its end, then applies how the login ended, if it did. */
    method Drive(session: SessionId, first: Transition, backend: Backend, ghost before: LoginState, ghost line: string)
      returns (routing: Routing, ghost c: Cycle)
      requires Owned() && AllIdle(View() - {session})
      requires session in sessions && sessions[session].Login?
      requires !before.Awaits() && Sourced(before, history[session])
      requires (sessions[session].fsm.state, first) == LineStep(before, line)
      requires backend.Valid() && Apart(backend)
      modifies this, sessions[session].fsm, backend, backend.store.world.Repr
      ensures Valid() && Machines() <= old(Machines())
      ensures View() - {session} == old(View()) - {session}
      ensures backend.Valid() && backend.store.world.scheduler.queue == old(backend.store.world.scheduler.queue)
      ensures PersistentStore.Joined(old(backend.World()), backend.World())
      ensures routing.LoginRouting?
      ensures BoundIsResident(routing, backend.store.world.byKey)
      ensures old(backend.log) <= backend.log
      ensures LineDone(render, AtLogin(before, old(history[session])), line, c, routing, backend.log[|old(backend.log)|..],
                       Find(View(), session))
    {
      hide Runs, Performed, LineStep, ResultStep, IsWholeCycle, Sourced, TerminalSourced, AnswersOf, LineOutputs;
      hide PersistentStore.Joined, Backend.Valid, Backend.World, LineDone, AllIdle, IsIdle, View, Owned, ViewOf, Cycle.Last, Cycle.Final, EffectsLeft;
      var fsm := sessions[session].fsm;
      var outputs, terminal;
      outputs, terminal, c := RunEffects(fsm, first, backend, before, line);
      OneMachineMoved(session);
      var close, bound := Settle(session, terminal, backend, c.exchanges);
      routing := LoginRouting(outputs, close, bound);
      LineFinishes(render, before, old(history[session]), line, c, routing, backend.log[|old(backend.log)|..], Find(View(), session));
      IdleKept(old(View()), View(), session);
    }

    /** Records what the line exchanged with the backend, and applies how the login ended, if it did. */
    method Settle(session: SessionId, terminal: Option<Terminal>, backend: Backend, ghost more: seq<Exchange>)
      returns (close: bool, bound: Option<EntityId>)
      requires Owned() && session in sessions && sessions[session].Login?
      modifies this`sessions, this`history, backend
      ensures Owned() && Machines() <= old(Machines())
      ensures bound.Some? ==> bound.value in backend.store.world.byKey.Values
      ensures match terminal
              case None =>
                && !close && bound.None? && backend.log == old(backend.log)
                && View() == old(View())[session := AtLogin(old(sessions[session].fsm.state), old(history[session]) + more)]
              case Some(Closed) => close && bound.None? && backend.log == old(backend.log) && View() == old(View()) - {session}
              case Some(Bound(account, key, name)) =>
                && backend.log == old(backend.log) + [Resolving(key, bound)] && close == bound.None?
                && View() == if bound.None? then old(View()) - {session}
                             else old(View())[session := Playing(Binding(account, bound.value, name))]
    {
      close, bound := false, None;
      if terminal.Some? {
        close, bound := ApplyTerminal(session, terminal.value, backend);
      } else {
        history := history[session := history[session] + more];
      }
    }

    twostate lemma OneMachineMoved(session: SessionId)
      requires old(Owned()) && unchanged(this) && session in sessions && sessions[session].Login?
      requires forall m | m in old(Machines()) && m != sessions[session].fsm :: unchanged(m)
      ensures Owned() && View() == old(View())[session := AtLogin(sessions[session].fsm.state, history[session])]
      ensures Machines() == old(Machines())
    {
      forall s | s in sessions && s != session ensures ViewOf(s) == old(ViewOf(s)) {
        assert sessions[s].Login? ==> sessions[s].fsm in old(Machines());
      }
    }

    /** The driving loop: one effect at a time, gathering what the line shows. */
    method RunEffects(fsm: SessionFsm, first: Transition, backend: Backend, ghost before: LoginState, ghost line: string)
      returns (outputs: seq<LoginOutput>, terminal: Option<Terminal>, ghost c: Cycle)
      requires !before.Awaits() && (fsm.state, first) == LineStep(before, line)
      requires backend.Valid() && fsm !in backend.store.world.Repr
      modifies fsm, backend, backend.store.world.Repr
      ensures backend.Valid() && backend.store.world.scheduler.queue == old(backend.store.world.scheduler.queue)
      ensures PersistentStore.Joined(old(backend.World()), backend.World())
      ensures IsWholeCycle(before, line, c) && c.Last() == fsm.state && c.Final().terminal == terminal
      ensures outputs == LineOutputs(render, c.transitions)
      ensures backend.log == old(backend.log) + AnswersOf(c.exchanges)
    {
      hide *;
      var t := first;
      outputs := [];
      var pending: Option<(string, OutputKind)> := None;
      c := Cycle([fsm.state], [first], []);
      ghost var world := backend.World();
      PersistentStore.JoinedAtOnce(world);
      RunStarts(render, before, line, c);
      while true
        invariant Runs(before, line, c) && At(c, fsm.state, t)
        invariant SoFar(render, c, outputs, pending)
        invariant backend.Valid() && backend.store.world.scheduler.queue == old(backend.store.world.scheduler.queue)
        invariant PersistentStore.Joined(world, backend.World())
        invariant backend.log == old(backend.log) + AnswersOf(c.exchanges)
        decreases EffectsLeft(fsm.state)
      {
        TransitionShows(render, before, line, c, fsm.state, t, outputs, pending);
        if t.echo.Some? {
          outputs := outputs + Flushed(pending) + [EchoMode(t.echo.value)];
          pending := None;
        }
        pending := Coalesce(pending, RenderBatch(render, t.messages));
        terminal := t.terminal;
        if t.terminal.Some? || t.effect.None? {
          RunStops(before, line, c, fsm.state, t);
          outputs := outputs + Flushed(pending);
          return;
        }
        var effect := t.effect.value;
        ghost var asked, now := backend.log, backend.World();
        var result := Perform(effect, backend);
        PersistentStore.JoinedTwice(world, now, backend.World());
        ghost var x := Exchange(effect, backend.log[|asked|..], result);
        RunGrows(before, line, c, fsm.state, t, x);
        SoFarGrows(render, c, fsm.state, t, outputs, pending, x);
        t := fsm.OnEffect(result);
        c := Extended(c, x);
      }
    }

    method Perform(effect: Effect, backend: Backend) returns (result: EffectResult)
      requires backend.Valid()
      modifies backend, backend.store.world.Repr
      ensures backend.Valid() && backend.store.world.scheduler.queue == old(backend.store.world.scheduler.queue)
      ensures PersistentStore.Joined(old(backend.World()), backend.World())
      ensures old(backend.log) <= backend.log
      ensures Performed(effect, backend.log[|old(backend.log)|..], result)
    {
      PersistentStore.JoinedAtOnce(backend.World());
      match effect
      case Authenticate(username, password) =>
        var account := backend.Authenticate(username, password);
        match account {
          case None => result := BackendError;
          case Some(Err(reason)) => result := LoginRejected(reason);
          case Some(Ok(account)) =>
            var puppets := backend.PuppetsOf(account.id);
            result := if puppets.None? then BackendError else Authenticated(account, puppets.value);
        }
      case Register(username, password) =>
        var registered := backend.Register(username, password);
        match registered {
          case None => result := BackendError;
          case Some(None) => result := UsernameRejected;
          case Some(Some(account)) => result := Registered(account);
        }
      case CreatePuppet(account, name) =>
        var puppet := backend.CreatePuppet(account, name);
        result := if puppet.None? then BackendError else Created(puppet.value);
      case Enter(_, key) =>
        var entity := backend.ResolvePuppet(key);
        result := if entity.None? then BackendError else Entered;
    }

    /** Moves a bound session in-world, or drops a closed one, or one whose puppet has vanished meanwhile. */
    method ApplyTerminal(session: SessionId, terminal: Terminal, backend: Backend) returns (close: bool, bound: Option<EntityId>)
      requires Owned() && session in sessions
      modifies this`sessions, backend
      ensures Owned() && Machines() <= old(Machines())
      ensures bound.Some? ==> bound.value in backend.store.world.byKey.Values
      ensures match terminal
              case Closed => close && bound.None? && backend.log == old(backend.log) && View() == old(View()) - {session}
              case Bound(account, key, name) =>
                && backend.log == old(backend.log) + [Resolving(key, bound)] && close == bound.None?
                && View() == if bound.None? then old(View()) - {session}
                             else old(View())[session := Playing(Binding(account, bound.value, name))]
    {
      close, bound := true, None;
      if terminal.Bound? {
        bound := backend.ResolvePuppet(terminal.puppet);
      }
      if bound.Some? {
        sessions := sessions[session := InWorld(Binding(terminal.account, bound.value, terminal.name))];
        close := false;
      } else {
        sessions := sessions - {session};
      }
    }
  }

  lemma LineFinishes(render: Message -> string, before: LoginState, past: seq<Exchange>, line: string, c: Cycle, routing: Routing,
                     asked: seq<Answer>, after: Option<SessionView>)
    requires !before.Awaits() && Sourced(before, past) && IsWholeCycle(before, line, c)
    requires routing.LoginRouting? && routing.outputs == LineOutputs(render, c.transitions)
    requires match c.Final().terminal
             case None =>
               && !routing.close && routing.bound.None? && asked == AnswersOf(c.exchanges)
               && after == Some(AtLogin(c.Last(), past + c.exchanges))
             case Some(Closed) => routing.close && routing.bound.None? && asked == AnswersOf(c.exchanges) && after.None?
             case Some(Bound(account, key, name)) =>
               && asked == AnswersOf(c.exchanges) + [Resolving(key, routing.bound)] && routing.close == routing.bound.None?
               && after == if routing.bound.None? then None else Some(Playing(Binding(account, routing.bound.value, name)))
    ensures LineDone(render, AtLogin(before, past), line, c, routing, asked, after)
    ensures after.Some? ==> IsIdle(after.value)
  {
    hide Runs, Performed, LineStep, ResultStep, IsWholeCycle, Sourced, TerminalSourced, AnswersOf, LineOutputs;
    BoundIsOffered(before, line, c, past);
    CycleEnds(before, line, c);
  }

  /** The run `c` stands at this state with this transition to handle. */
  ghost predicate At(c: Cycle, s: LoginState, t: Transition) {
    |c.states| == |c.transitions| == |c.exchanges| + 1 && c.Last() == s && c.Final() == t
  }

  /** `outputs` and `pending` hold what every transition but the last has shown. */
  ghost predicate SoFar(render: Message -> string, c: Cycle, outputs: seq<LoginOutput>, pending: Option<(string, OutputKind)>) {
    && |c.transitions| == |c.exchanges| + 1
    && outputs == (if c.exchanges == [] then [] else EchoOut(c.transitions[0].echo))
    && pending == RenderBatch(render, AllMessages(c.transitions[..|c.exchanges|]))
  }

  ghost function Extended(c: Cycle, x: Exchange): Cycle
    requires c.states != []
  {
    var (s, t) := ResultStep(c.Last(), x.result);
    Cycle(c.states + [s], c.transitions + [t], c.exchanges + [x])
  }

  lemma RunStarts(render: Message -> string, before: LoginState, line: string, c: Cycle)
    requires c == Cycle([LineStep(before, line).0], [LineStep(before, line).1], [])
    ensures Runs(before, line, c) && At(c, LineStep(before, line).0, LineStep(before, line).1)
    ensures SoFar(render, c, [], None) && AnswersOf(c.exchanges) == []
  {
    assert c.transitions[..0] == [];
  }

  /** Handling the last transition leaves exactly what the whole run so far shows. */
  lemma TransitionShows(render: Message -> string, before: LoginState, line: string, c: Cycle, s: LoginState, t: Transition,
                        outputs: seq<LoginOutput>, pending: Option<(string, OutputKind)>)
    requires !before.Awaits() && Runs(before, line, c) && SoFar(render, c, outputs, pending)
    requires At(c, s, t)
    ensures c.transitions != [] && c.states != []
    ensures t.echo.Some? ==> pending == None && outputs + Flushed(pending) + [EchoMode(t.echo.value)] == EchoOut(c.transitions[0].echo)
    ensures t.echo.None? ==> outputs == EchoOut(c.transitions[0].echo)
    ensures Coalesce(pending, RenderBatch(render, t.messages)) == RenderBatch(render, AllMessages(c.transitions))
    ensures LineOutputs(render, c.transitions)
         == EchoOut(c.transitions[0].echo) + Flushed(RenderBatch(render, AllMessages(c.transitions)))
  {
    hide Performed, LineStep, ResultStep, RenderBatch;
    var n := |c.exchanges|;
    CycleSettles(before, line, c, n);
    assert c.transitions[..n + 1] == c.transitions && c.transitions[..n + 1][..n] == c.transitions[..n];
    BatchesCoalesce(render, AllMessages(c.transitions[..n]), t.messages);
    if n == 0 {
      assert c.transitions[..0] == [];
      NothingRendered(render);
    }
  }

  lemma NothingRendered(render: Message -> string)
    ensures RenderBatch(render, []) == None
  {
  }

  lemma RunStops(before: LoginState, line: string, c: Cycle, s: LoginState, t: Transition)
    requires Runs(before, line, c) && At(c, s, t) && (t.terminal.Some? || t.effect.None?)
    ensures IsWholeCycle(before, line, c) && c.Last() == s && c.Final().terminal == t.terminal
  {
  }

  lemma RunGrows(before: LoginState, line: string, c: Cycle, s: LoginState, t: Transition, x: Exchange)
    requires !before.Awaits() && Runs(before, line, c) && At(c, s, t) && t.terminal.None? && t.effect == Some(x.effect)
    requires Performed(x.effect, x.answers, x.result)
    ensures Runs(before, line, Extended(c, x)) && At(Extended(c, x), ResultStep(s, x.result).0, ResultStep(s, x.result).1)
    ensures EffectsLeft(ResultStep(s, x.result).0) < EffectsLeft(s)
  {
    hide Performed, LineStep, ResultStep;
    CycleSettles(before, line, c, |c.exchanges|);
    ResultSettles(s, x);
  }

  lemma SoFarGrows(render: Message -> string, c: Cycle, s: LoginState, t: Transition,
                   outputs: seq<LoginOutput>, pending: Option<(string, OutputKind)>, x: Exchange)
    requires At(c, s, t)
    requires outputs == EchoOut(c.transitions[0].echo) && pending == RenderBatch(render, AllMessages(c.transitions))
    ensures SoFar(render, Extended(c, x), outputs, pending)
    ensures AnswersOf(Extended(c, x).exchanges) == AnswersOf(c.exchanges) + x.answers
  {
    hide ResultStep, RenderBatch;
    assert Extended(c, x).transitions[..|c.transitions|] == c.transitions;
    assert Extended(c, x).exchanges[..|c.exchanges|] == c.exchanges;
  }

  ghost predicate IsIdle(v: SessionView) {
    v.AtLogin? ==> !v.state.Awaits() && Sourced(v.state, v.history)
  }

  lemma NewIsIdle()
    ensures IsIdle(AtLogin(Anon, []))
  {
  }

  lemma IdleKept(before: map<SessionId, SessionView>, after: map<SessionId, SessionView>, session: SessionId)
    requires AllIdle(before - {session}) && after - {session} == before - {session}
    requires session in after ==> IsIdle(after[session])
    ensures AllIdle(after)
  {
    forall s | s in after && s != session ensures IsIdle(after[s]) {
      assert s in after - {session} && (after - {session})[s] == after[s];
    }
  }

  lemma OthersIdle(before: map<SessionId, SessionView>, after: map<SessionId, SessionView>, session: SessionId)
    requires AllIdle(before) && session in before && session in after && after == before[session := after[session]]
    ensures AllIdle(after - {session}) && after - {session} == before - {session}
  {
    assert after - {session} == before - {session};
    forall s | s in after - {session} ensures IsIdle(after[s]) {
      assert s in before && after[s] == before[s];
    }
  }

  ghost predicate AllIdle(views: map<SessionId, SessionView>) {
    forall s | s in views :: IsIdle(views[s])
  }

  // What a session sees, line by line.

  ghost predicate Masked(v: Option<SessionView>) {
    v.Some? && v.value.AtLogin? && v.value.state.CollectsSecret()
  }

  /** The client's masking after some outputs. */
  function MaskedBy(masked: bool, outputs: seq<LoginOutput>): bool {
    if outputs == [] then masked
    else
      var earlier := MaskedBy(masked, outputs[..|outputs| - 1]);
      match outputs[|outputs| - 1] case EchoMode(mode) => mode.Suppressed? case Text(_, _) => earlier
  }

  ghost predicate ShowsWell(outputs: seq<LoginOutput>, said: seq<Message>, text: string, secret: bool) {
    exists echo: seq<LoginOutput>, block: seq<LoginOutput> :: outputs == echo + block
      && |echo| <= 1 && (forall o | o in echo :: o.EchoMode?)
      && block == if said == [] then [] else [Text(text, if secret then PromptBlock else LineBlock)]
  }

  lemma OutputsShowWell(render: Message -> string, change: Option<InputEcho>, said: seq<Message>, secret: bool)
    requires EndsInPrompt(said) <==> secret
    ensures ShowsWell(EchoOut(change) + Flushed(RenderBatch(render, said)), said, Join(Rendered(render, said)), secret)
  {
    hide Join, Rendered;
    var echo, block := EchoOut(change), Flushed(RenderBatch(render, said));
    assert echo + block == echo + block && |echo| <= 1;
  }

  /**
   * A line shows at most one echo change and then at most one block of all it says, a prompt exactly when
   * a secret is awaited; after it the client masks exactly then too.
   */
  lemma LineShows(render: Message -> string, before: SessionView, line: string, c: Cycle, routing: Routing,
                  asked: seq<Answer>, after: Option<SessionView>)
    requires IsIdle(before) && LineDone(render, before, line, c, routing, asked, after)
    ensures var said := AllMessages(c.transitions);
            && ShowsWell(routing.outputs, said, Join(Rendered(render, said)), Masked(after))
            && (Masked(after) ==> EndsInPrompt(said))
    ensures MaskedBy(Masked(Some(before)), routing.outputs) == Masked(after)
  {
    hide IsWholeCycle, Runs, Performed, LineStep, ResultStep, AllMessages, Rendered, Join, RenderBatch, AnswersOf, EndsInPrompt, ShowsWell;
    WholeCycleShape(before.state, line, c);
    MaskingTracksSecret(before.state, line, c);
    PromptMeansSecret(before.state, line, c);
    if c.Final().terminal.Some? { TerminalUnmasked(before.state, line, c); }
    var said := AllMessages(c.transitions);
    assert Masked(after) == c.Last().CollectsSecret();
    OutputsShowWell(render, c.transitions[0].echo, said, Masked(after));
    MaskingOf(Masked(Some(before)), c.transitions[0].echo, RenderBatch(render, said));
  }

  lemma TerminalUnmasked(before: LoginState, line: string, c: Cycle)
    requires !before.Awaits() && IsWholeCycle(before, line, c) && c.Final().terminal.Some?
    ensures !c.Last().CollectsSecret()
  {
    hide Performed, LineStep, ResultStep;
    CycleSettles(before, line, c, |c.exchanges|);
  }

  lemma MaskingOf(masked: bool, change: Option<InputEcho>, block: Option<(string, OutputKind)>)
    ensures MaskedBy(masked, EchoOut(change) + Flushed(block)) == MaskedAfter(masked, change)
  {
    var outputs := EchoOut(change) + Flushed(block);
    if block.Some? {
      assert outputs[..|outputs| - 1] == EchoOut(change);
    } else {
      assert outputs == EchoOut(change);
    }
    if change.Some? { assert EchoOut(change)[..0] == []; }
  }

  // The same over a whole session.

  datatype Heard = Heard(line: string, cycle: Cycle, routing: Routing, asked: seq<Answer>, after: Option<SessionView>)
  {
    function Shown(): seq<LoginOutput> {
      if routing.LoginRouting? then routing.outputs else []
    }
  }

  /** These lines were put to the session one after another, starting from `before`. */
  ghost predicate Converses(render: Message -> string, before: Option<SessionView>, lines: seq<Heard>)
    decreases |lines|
  {
    lines == [] ||
    var h := lines[0];
    InputDone(render, before, h.line, h.cycle, h.routing, h.asked, h.after) && Converses(render, h.after, lines[1..])
  }

  function ShownBy(lines: seq<Heard>): seq<LoginOutput> {
    if lines == [] then [] else lines[0].Shown() + ShownBy(lines[1..])
  }

  function Latest(before: Option<SessionView>, lines: seq<Heard>): Option<SessionView> {
    if lines == [] then before else lines[|lines| - 1].after
  }

  /** From the greeting on, the echo changes a client has seen add up to masking exactly while a secret is awaited. */
  lemma SessionMasksSecretsOnly(render: Message -> string, lines: seq<Heard>)
    requires Converses(render, Some(AtLogin(Anon, [])), lines)
    ensures MaskedBy(false, Flushed(RenderBatch(render, [Banner, LoginInstructions])) + ShownBy(lines))
         == Masked(Latest(Some(AtLogin(Anon, [])), lines))
  {
    hide RenderBatch;
    NewIsIdle();
    var greeting := RenderBatch(render, [Banner, LoginInstructions]);
    MaskingOf(false, None, greeting);
    assert EchoOut(None) + Flushed(greeting) == Flushed(greeting);
    MaskedByConcat(false, Flushed(greeting), ShownBy(lines));
    ConversationMasks(render, Some(AtLogin(Anon, [])), lines);
  }

  lemma {:induction false} ConversationMasks(render: Message -> string, before: Option<SessionView>, lines: seq<Heard>)
    requires before.Some? ==> IsIdle(before.value)
    requires Converses(render, before, lines)
    ensures MaskedBy(Masked(before), ShownBy(lines)) == Masked(Latest(before, lines))
    decreases |lines|
  {
    hide LineDone, Masked, IsIdle;
    if lines != [] {
      HearingMasks(render, before, lines[0]);
      ConversationMasks(render, lines[0].after, lines[1..]);
      MaskedByConcat(Masked(before), lines[0].Shown(), ShownBy(lines[1..]));
    }
  }

  lemma {:induction false} MaskedByConcat(masked: bool, a: seq<LoginOutput>, b: seq<LoginOutput>)
    ensures MaskedBy(masked, a + b) == MaskedBy(MaskedBy(masked, a), b)
    decreases |b|
  {
    if b == [] {
      assert a + b == a;
    } else {
      assert (a + b)[..|a + b| - 1] == a + b[..|b| - 1];
      MaskedByConcat(masked, a, b[..|b| - 1]);
    }
  }

  lemma HearingMasks(render: Message -> string, before: Option<SessionView>, h: Heard)
    requires before.Some? ==> IsIdle(before.value)
    requires InputDone(render, before, h.line, h.cycle, h.routing, h.asked, h.after)
    ensures h.after.Some? ==> IsIdle(h.after.value)
    ensures MaskedBy(Masked(before), h.Shown()) == Masked(h.after)
  {
    hide LineDone, Masked, IsIdle;
    if before.Some? && before.value.AtLogin? {
      LineShows(render, before.value, h.line, h.cycle, h.routing, h.asked, h.after);
      LineKeepsIdle(render, before.value, h.line, h.cycle, h.routing, h.asked, h.after);
    }
  }

  lemma LineKeepsIdle(render: Message -> string, before: SessionView, line: string, c: Cycle, routing: Routing,
                      asked: seq<Answer>, after: Option<SessionView>)
    requires IsIdle(before) && LineDone(render, before, line, c, routing, asked, after)
    ensures routing.LoginRouting? && (after.Some? ==> IsIdle(after.value))
  {
    hide IsWholeCycle, Runs, Performed, LineStep, ResultStep, Sourced, TerminalSourced, AnswersOf, LineOutputs;
    BoundIsOffered(before.state, line, c, before.history);
    CycleEnds(before.state, line, c);
  }

  /** The account and puppet are ones the backend offered this login, and the entity its last answer for that puppet. */
  ghost predicate FromBackend(binding: Binding, offered: Option<(Account, seq<Puppet>)>, asked: seq<Answer>) {
    && offered.Some? && binding.account == offered.value.0.id
    && exists puppet :: puppet in offered.value.1 && puppet.name == binding.name
         && asked != [] && asked[|asked| - 1] == Resolving(puppet.key, Some(binding.puppet))
  }

  /** A session enters the world only as a puppet the backend listed or created for its account, and resolved. */
  lemma BoundFromBackend(render: Message -> string, before: SessionView, line: string, c: Cycle, routing: Routing,
                         asked: seq<Answer>, after: Option<SessionView>)
    requires IsIdle(before) && LineDone(render, before, line, c, routing, asked, after)
    ensures |c.exchanges| <= 2
    ensures after.Some? && after.value.Playing? ==>
      routing.bound == Some(after.value.binding.puppet)
      && FromBackend(after.value.binding, Offered(before.history + c.exchanges), asked)
  {
    hide IsWholeCycle, Runs, Performed, LineStep, ResultStep, Offered, AnswersOf, LineOutputs;
    WholeCycleShape(before.state, line, c);
    CycleEnds(before.state, line, c);
    BoundIsOffered(before.state, line, c, before.history);
    if routing.bound.Some? {
      var t := c.Final().terminal.value;
      assert Puppet(t.puppet, t.name) in Offered(before.history + c.exchanges).value.1;
    }
  }
}
