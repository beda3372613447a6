/** One input line run to its end: the effects asked for, the backend's answers, and what they lead to. */
module LoginRuns {
  import opened Wrappers
  import opened EntityIds
  import opened LoginModel

  /** One call to the backend and its answer; None is the opaque backend error. */
  datatype Answer =
    | Authenticating(username: Name, password: string, account: Option<Result<Account, LoginError>>)
    | Registering(username: Name, password: string, registered: Option<Option<Account>>)
    | Listing(owner: AccountId, puppets: Option<seq<Puppet>>)
    | Creating(creator: AccountId, name: Name, puppet: Option<Puppet>)
    | Resolving(key: EntityKey, entity: Option<EntityId>)

  /** The calls `effect` makes, and the result their answers amount to. */
  ghost predicate Performed(effect: Effect, answers: seq<Answer>, result: EffectResult) {
    && answers != []
    && match effect
       case Authenticate(username, password) =>
         && answers[0].Authenticating? && answers[0].username == username && answers[0].password == password
         && (match answers[0].account
             case None => |answers| == 1 && result == BackendError
             case Some(Err(reason)) => |answers| == 1 && result == LoginRejected(reason)
             case Some(Ok(account)) =>
               && |answers| == 2 && answers[1].Listing? && answers[1].owner == account.id
               && result == match answers[1].puppets case None => BackendError case Some(puppets) => Authenticated(account, puppets))
       case Register(username, password) =>
         && |answers| == 1 && answers[0].Registering? && answers[0].username == username && answers[0].password == password
         && result == (match answers[0].registered
                       case None => BackendError
                       case Some(None) => UsernameRejected
                       case Some(Some(account)) => Registered(account))
       case CreatePuppet(account, name) =>
         && |answers| == 1 && answers[0].Creating? && answers[0].creator == account && answers[0].name == name
         && (answers[0].puppet.Some? ==> answers[0].puppet.value.name == name)
         && result == (match answers[0].puppet case None => BackendError case Some(puppet) => Created(puppet))
       case Enter(_, key) =>
         && |answers| == 1 && answers[0].Resolving? && answers[0].key == key
         && result == (if answers[0].entity.Some? then Entered else BackendError)
  }

  datatype Exchange = Exchange(effect: Effect, answers: seq<Answer>, result: EffectResult)

  /** A line's run: the state and transition after the line, then after each result fed back. */
  datatype Cycle = Cycle(states: seq<LoginState>, transitions: seq<Transition>, exchanges: seq<Exchange>)
  {
    function Last(): LoginState
      requires states != []
    {
      states[|states| - 1]
    }

    function Final(): Transition
      requires transitions != []
    {
      transitions[|transitions| - 1]
    }
  }

  ghost predicate Runs(before: LoginState, line: string, c: Cycle) {
    && |c.states| == |c.transitions| == |c.exchanges| + 1
    && (c.states[0], c.transitions[0]) == LineStep(before, line)
    && forall i | 0 <= i < |c.exchanges| ::
         && c.transitions[i].effect == Some(c.exchanges[i].effect) && c.transitions[i].terminal.None?
         && Performed(c.exchanges[i].effect, c.exchanges[i].answers, c.exchanges[i].result)
         && (c.states[i + 1], c.transitions[i + 1]) == ResultStep(c.states[i], c.exchanges[i].result)
  }

  ghost predicate IsWholeCycle(before: LoginState, line: string, c: Cycle) {
    && Runs(before, line, c)
    && (c.Final().terminal.Some? || c.Final().effect.None?)
  }

  /** The state is waiting for this very effect. */
  predicate AwaitsThis(s: LoginState, effect: Effect) {
    match effect
    case Authenticate(_, _) => s.AwaitingAuth?
    case Register(_, _) => s.AwaitingRegister?
    case CreatePuppet(account, _) => s.AwaitingCreate? && s.account.id == account
    case Enter(account, key) => s.AwaitingEnter? && s.account.id == account && s.chosen == key
  }

  predicate Settled(s: LoginState, t: Transition) {
    match t.effect
    case Some(effect) => AwaitsThis(s, effect) && t.terminal.None?
    case None => !s.Awaits()
  }

  function EffectsLeft(s: LoginState): nat {
    if s.AwaitingCreate? then 2 else if s.Awaits() then 1 else 0
  }

  /** The result is one the state handles, so it is not put aside as stray. */
  predicate Handles(s: LoginState, result: EffectResult) {
    match s
    case AwaitingAuth => result.Authenticated? || result.LoginRejected? || result.BackendError?
    case AwaitingRegister => result.Registered? || result.UsernameRejected? || result.BackendError?
    case AwaitingCreate(_, _) => result.Created? || result.BackendError?
    case AwaitingEnter(_, _, _, _) => result.Entered? || result.BackendError?
    case _ => false
  }

  lemma LineSettles(s: LoginState, line: string)
    requires !s.Awaits()
    ensures Settled(LineStep(s, line).0, LineStep(s, line).1)
    ensures LineStep(s, line).1.terminal.Some? ==> !LineStep(s, line).0.CollectsSecret()
  {
  }

  lemma ResultSettles(s: LoginState, x: Exchange)
    requires AwaitsThis(s, x.effect) && Performed(x.effect, x.answers, x.result)
    ensures Handles(s, x.result)
    ensures var (next, t) := ResultStep(s, x.result);
            Settled(next, t) && EffectsLeft(next) < EffectsLeft(s) && t.echo.None? && !next.CollectsSecret()
  {
  }

  lemma {:induction false} CycleSettles(before: LoginState, line: string, c: Cycle, n: nat)
    requires !before.Awaits() && Runs(before, line, c) && n < |c.states|
    ensures Settled(c.states[n], c.transitions[n]) && n + EffectsLeft(c.states[n]) <= 2
    ensures n > 0 ==> c.transitions[n].echo.None? && !c.states[n].CollectsSecret()
    ensures n > 0 ==> Handles(c.states[n - 1], c.exchanges[n - 1].result)
    ensures c.transitions[n].terminal.Some? ==> !c.states[n].CollectsSecret()
    decreases n
  {
    hide Performed, LineStep, ResultStep;
    if n == 0 {
      LineSettles(before, line);
    } else {
      CycleSettles(before, line, c, n - 1);
      ResultSettles(c.states[n - 1], c.exchanges[n - 1]);
    }
  }

  /** A line takes at most two effects, every answer is one the machine was waiting for, and it ends waiting for none. */
  lemma CycleEnds(before: LoginState, line: string, c: Cycle)
    requires !before.Awaits() && IsWholeCycle(before, line, c)
    ensures |c.exchanges| <= 2 && !c.Last().Awaits()
    ensures forall i | 0 <= i < |c.exchanges| :: Handles(c.states[i], c.exchanges[i].result)
  {
    hide Performed, LineStep, ResultStep;
    forall i | 0 <= i < |c.exchanges| ensures Handles(c.states[i], c.exchanges[i].result) {
      CycleSettles(before, line, c, i + 1);
    }
    CycleSettles(before, line, c, |c.states| - 1);
  }

  // Where a bound account and puppet come from.

  /** What the backend has given this login so far: an account with its puppets, new ones last. */
  function Offered(history: seq<Exchange>): Option<(Account, seq<Puppet>)> {
    if history == [] then None
    else
      var earlier := Offered(history[..|history| - 1]);
      match history[|history| - 1].result
      case Authenticated(account, puppets) => Some((account, puppets))
      case Registered(account) => Some((account, []))
      case Created(puppet) => if earlier.None? then None else Some((earlier.value.0, earlier.value.1 + [puppet]))
      case _ => earlier
  }

  ghost predicate Sourced(s: LoginState, history: seq<Exchange>) {
    match s
    case PuppetSelect(account, puppets) => Offered(history) == Some((account, puppets))
    case AwaitingCreate(account, puppets) => Offered(history) == Some((account, puppets))
    case AwaitingEnter(account, puppets, chosen, name) =>
      Offered(history) == Some((account, puppets)) && Puppet(chosen, name) in puppets
    case _ => true
  }

  ghost predicate TerminalSourced(t: Transition, history: seq<Exchange>) {
    match t.terminal
    case Some(Bound(account, puppet, name)) =>
      && Offered(history).Some? && Offered(history).value.0.id == account
      && Puppet(puppet, name) in Offered(history).value.1
    case _ => true
  }

  lemma {:induction false} MatchedIsListed(puppets: seq<Puppet>, arg: string)
    ensures FindNamed(puppets, arg).Some? ==> FindNamed(puppets, arg).value in puppets
  {
    if puppets != [] && Lower(puppets[0].name) != Lower(arg) {
      MatchedIsListed(puppets[1..], arg);
    }
  }

  lemma LineKeepsSource(s: LoginState, line: string, history: seq<Exchange>)
    requires Sourced(s, history)
    ensures Sourced(LineStep(s, line).0, history) && TerminalSourced(LineStep(s, line).1, history)
  {
    hide Offered, SplitCommand, ParseOrdinal;
    if s.PuppetSelect? {
      var words := SplitCommand(line);
      if words.Some? {
        MatchedIsListed(s.puppets, words.value.1);
        var found := MatchPuppet(s.puppets, words.value.1);
        assert found.Some? ==> found.value in s.puppets && Puppet(found.value.key, found.value.name) == found.value;
      }
    }
  }

  lemma ResultKeepsSource(s: LoginState, x: Exchange, history: seq<Exchange>)
    requires Sourced(s, history) && AwaitsThis(s, x.effect) && Performed(x.effect, x.answers, x.result)
    ensures Sourced(ResultStep(s, x.result).0, history + [x]) && TerminalSourced(ResultStep(s, x.result).1, history + [x])
  {
    assert (history + [x])[..|history|] == history;
    if s.AwaitingCreate? && x.result.Created? {
      var puppet := x.result.puppet;
      assert Puppet(puppet.key, puppet.name) == puppet && puppet in s.puppets + [puppet];
    }
  }

  lemma {:induction false} CycleKeepsSource(before: LoginState, line: string, c: Cycle, history: seq<Exchange>, n: nat)
    requires !before.Awaits() && Runs(before, line, c) && Sourced(before, history) && n < |c.states|
    ensures Sourced(c.states[n], history + c.exchanges[..n]) && TerminalSourced(c.transitions[n], history + c.exchanges[..n])
    decreases n
  {
    hide Performed, LineStep, ResultStep, Offered, Sourced, TerminalSourced;
    if n == 0 {
      assert history + c.exchanges[..0] == history;
      LineKeepsSource(before, line, history);
    } else {
      CycleKeepsSource(before, line, c, history, n - 1);
      CycleSettles(before, line, c, n - 1);
      ResultKeepsSource(c.states[n - 1], c.exchanges[n - 1], history + c.exchanges[..n - 1]);
      assert history + c.exchanges[..n] == (history + c.exchanges[..n - 1]) + [c.exchanges[n - 1]];
    }
  }

  /** A login binds only an account the backend gave it and a puppet the backend listed or created for it. */
  lemma BoundIsOffered(before: LoginState, line: string, c: Cycle, history: seq<Exchange>)
    requires !before.Awaits() && IsWholeCycle(before, line, c) && Sourced(before, history)
    ensures Sourced(c.Last(), history + c.exchanges) && TerminalSourced(c.Final(), history + c.exchanges)
  {
    hide *;
    WholeCycleShape(before, line, c);
    CycleKeepsSource(before, line, c, history, |c.exchanges|);
    assert c.exchanges[..|c.exchanges|] == c.exchanges;
  }

  lemma WholeCycleShape(before: LoginState, line: string, c: Cycle)
    requires IsWholeCycle(before, line, c)
    ensures Runs(before, line, c) && |c.states| == |c.transitions| == |c.exchanges| + 1
    ensures c.Last() == c.states[|c.exchanges|] && c.Final() == c.transitions[|c.exchanges|]
  {
  }

  // Masking and prompts.

  function AllMessages(ts: seq<Transition>): seq<Message> {
    if ts == [] then [] else AllMessages(ts[..|ts| - 1]) + ts[|ts| - 1].messages
  }

  predicate IsPrompt(m: Message) {
    m.PasswordPrompt? || m.ConfirmPrompt?
  }

  predicate EndsInPrompt(messages: seq<Message>) {
    messages != [] && IsPrompt(messages[|messages| - 1])
  }

  /** Masking after a line, from masking before it and the one echo change sent. */
  function MaskedAfter(masked: bool, change: Option<InputEcho>): bool {
    match change case None => masked case Some(Suppressed) => true case Some(Enabled) => false
  }

  /** The one echo change of a line leaves the client masked exactly when a secret is being collected. */
  lemma MaskingTracksSecret(before: LoginState, line: string, c: Cycle)
    requires !before.Awaits() && IsWholeCycle(before, line, c)
    ensures MaskedAfter(before.CollectsSecret(), c.transitions[0].echo) == c.Last().CollectsSecret()
    ensures forall i | 0 < i < |c.transitions| :: c.transitions[i].echo.None?
  {
    hide Performed, ResultStep;
    forall i | 0 < i < |c.transitions| ensures c.transitions[i].echo.None? {
      CycleSettles(before, line, c, i);
    }
    CycleSettles(before, line, c, |c.states| - 1);
    assert c.states[0] == LineStep(before, line).0;
    if |c.exchanges| > 0 {
      CycleSettles(before, line, c, 0);
    }
  }

  lemma LineMessages(s: LoginState, line: string)
    requires !s.Awaits()
    ensures var (next, t) := LineStep(s, line);
            && (next.CollectsSecret() <==> EndsInPrompt(t.messages))
            && (t.effect.Some? ==> t.messages == [])
  {
  }

  lemma ResultMessages(s: LoginState, x: Exchange)
    requires AwaitsThis(s, x.effect) && Performed(x.effect, x.answers, x.result)
    ensures var t := ResultStep(s, x.result).1;
            t.messages != [] && forall m | m in t.messages :: !IsPrompt(m)
  {
  }

  lemma {:induction false} RepliesAreNoPrompts(before: LoginState, line: string, c: Cycle, n: nat)
    requires !before.Awaits() && Runs(before, line, c) && 0 < n <= |c.transitions|
    ensures n > 1 ==> AllMessages(c.transitions[..n]) != [] && forall m | m in AllMessages(c.transitions[..n]) :: !IsPrompt(m)
    ensures n == 1 ==> AllMessages(c.transitions[..n]) == c.transitions[0].messages
    decreases n
  {
    hide Performed, LineStep, ResultStep, IsPrompt;
    assert c.transitions[..n][..n - 1] == c.transitions[..n - 1];
    if n > 1 {
      RepliesAreNoPrompts(before, line, c, n - 1);
      CycleSettles(before, line, c, n - 2);
      ResultMessages(c.states[n - 2], c.exchanges[n - 2]);
      if n == 2 {
        LineMessages(before, line);
      }
    } else {
      assert c.transitions[..1][..0] == [];
      assert [] + c.transitions[0].messages == c.transitions[0].messages;
    }
  }

  /** What a line says ends in a password prompt exactly when the session now awaits a secret. */
  lemma PromptMeansSecret(before: LoginState, line: string, c: Cycle)
    requires !before.Awaits() && IsWholeCycle(before, line, c)
    ensures EndsInPrompt(AllMessages(c.transitions)) <==> c.Last().CollectsSecret()
  {
    hide Performed, ResultStep, OnLine;
    var n := |c.transitions|;
    assert c.transitions[..n] == c.transitions;
    RepliesAreNoPrompts(before, line, c, n);
    CycleSettles(before, line, c, n - 1);
    LineMessages(before, line);
    var all := AllMessages(c.transitions);
    if all != [] { assert all[|all| - 1] in all; }
  }
}
