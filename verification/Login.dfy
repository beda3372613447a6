/** Login as values: what a line or a finished effect does to the login state. */
module LoginModel {
  import opened Wrappers
  import opened EntityIds
  import opened LineSyntax

  const MAX_NAME := 32
  const MAX_ORDINAL := 0xFFFF_FFFF_FFFF_FFFF

  predicate IsDigit(c: char) {
    '0' <= c <= '9'
  }

  predicate IsNameChar(c: char) {
    'a' <= c <= 'z' || 'A' <= c <= 'Z' || IsDigit(c) || c == '-' || c == '_' || c == '\''
  }

  /** One to 32 letters, digits, hyphens, underscores and apostrophes, not all of them digits. */
  predicate IsName(s: string) {
    && 1 <= |s| <= MAX_NAME
    && (forall c | c in s :: IsNameChar(c))
    && !forall c | c in s :: IsDigit(c)
  }

  type Name = s: string | IsName(s) witness (assert "a"[0] in "a"; "a")
  type AccountId = n: nat | n > 0 witness 1

  datatype Account = Account(id: AccountId, username: Name)
  datatype Puppet = Puppet(key: EntityKey, name: Name)
  datatype LoginError = UnknownUser | BadPassword | Suspended | Banned

  datatype LoginState =
    | Anon
    | LoginPassword(username: Name)
    | AwaitingAuth
    | RegisterPassword(username: Name)
    | RegisterConfirm(username: Name, password: string)
    | AwaitingRegister
    | PuppetSelect(account: Account, puppets: seq<Puppet>)
    | AwaitingCreate(account: Account, puppets: seq<Puppet>)
    | AwaitingEnter(account: Account, puppets: seq<Puppet>, chosen: EntityKey, chosenName: Name)
  {
    predicate CollectsSecret() {
      LoginPassword? || RegisterPassword? || RegisterConfirm?
    }

    predicate Awaits() {
      AwaitingAuth? || AwaitingRegister? || AwaitingCreate? || AwaitingEnter?
    }
  }

  datatype Message =
    | Banner | LoginInstructions | PreLoginHelp | WhoStub | UnknownCommand | Goodbye
    | PasswordPrompt | ConfirmPrompt | LoginFailed | AccountSuspended | AccountBanned | ServerError
    | PuppetList(names: seq<Name>) | NoPuppetsYet | NoSuchPuppet | PasswordMismatch | NameInvalid
    | UsernameTaken | PuppetCreated(name: Name) | EnteredWorld

  datatype Effect =
    | Authenticate(username: Name, password: string)
    | Register(username: Name, password: string)
    | CreatePuppet(account: AccountId, name: Name)
    | Enter(account: AccountId, puppet: EntityKey)

  datatype EffectResult =
    | Authenticated(account: Account, puppets: seq<Puppet>)
    | LoginRejected(reason: LoginError)
    | Registered(account: Account)
    | UsernameRejected
    | BackendError
    | Created(puppet: Puppet)
    | Entered

  datatype InputEcho = Enabled | Suppressed
  datatype Terminal = Closed | Bound(account: AccountId, puppet: EntityKey, name: Name)

  datatype Transition = Transition(messages: seq<Message>, effect: Option<Effect>, terminal: Option<Terminal>, echo: Option<InputEcho>)

  function Say(messages: seq<Message>): Transition {
    Transition(messages, None, None, None)
  }

  function Ask(effect: Effect): Transition {
    Transition([], Some(effect), None, None)
  }

  function Part(message: Message): Transition {
    Transition([message], None, Some(Closed), None)
  }

  function LowerChar(c: char): char {
    if 'A' <= c <= 'Z' then (c as int + 32) as char else c
  }

  function Lower(s: string): string {
    seq(|s|, i requires 0 <= i < |s| => LowerChar(s[i]))
  }

  /** A lowercased command word and the trimmed rest. */
  function SplitCommand(line: string): Option<(string, string)> {
    var text := SkipSpace(line);
    var n := HeadLength(text);
    if n == 0 then None else Some((Lower(text[..n]), Trim(text[n..])))
  }

  function DigitValue(c: char): nat
    requires IsDigit(c)
  {
    (c - '0') as int
  }

  function Digits(s: string): (n: nat)
    requires forall c | c in s :: IsDigit(c)
  {
    if s == [] then 0
    else
      var last := s[|s| - 1];
      assert last in s;
      Digits(s[..|s| - 1]) * 10 + DigitValue(last)
  }

  /** Decimal digits after an optional plus sign, within 64 bits. */
  function ParseOrdinal(s: string): Option<nat> {
    var digits := if s != [] && s[0] == '+' then s[1..] else s;
    if digits == [] || (exists c | c in digits :: !IsDigit(c)) then None
    else if Digits(digits) > MAX_ORDINAL then None
    else Some(Digits(digits))
  }

  function FindNamed(puppets: seq<Puppet>, arg: string): Option<Puppet> {
    if puppets == [] then None
    else if Lower(puppets[0].name) == Lower(arg) then Some(puppets[0])
    else FindNamed(puppets[1..], arg)
  }

  /** A number counts from one down the displayed list; anything else is a name. */
  function MatchPuppet(puppets: seq<Puppet>, arg: string): Option<Puppet> {
    match ParseOrdinal(arg)
    case Some(n) => if 1 <= n <= |puppets| then Some(puppets[n - 1]) else None
    case None => FindNamed(puppets, arg)
  }

  function Rejection(reason: LoginError): Message {
    match reason
    case Suspended => AccountSuspended
    case Banned => AccountBanned
    case _ => LoginFailed
  }

  function NamesOf(puppets: seq<Puppet>): seq<Name> {
    seq(|puppets|, i requires 0 <= i < |puppets| => puppets[i].name)
  }

  function Choosing(account: Account, puppets: seq<Puppet>): (LoginState, Transition) {
    (PuppetSelect(account, puppets), Say([if puppets == [] then NoPuppetsYet else PuppetList(NamesOf(puppets))]))
  }

  function Entering(account: Account, puppets: seq<Puppet>, puppet: Puppet): (LoginState, Transition) {
    (AwaitingEnter(account, puppets, puppet.key, puppet.name), Ask(Enter(account.id, puppet.key)))
  }

  function AnonLine(word: string, rest: string): (LoginState, Transition) {
    if word == "help" || word == "?" then (Anon, Say([PreLoginHelp]))
    else if word == "who" then (Anon, Say([WhoStub]))
    else if word == "quit" then (Anon, Part(Goodbye))
    else if word == "login" then
      if IsName(rest) then (LoginPassword(rest), Say([PasswordPrompt])) else (Anon, Say([UnknownCommand]))
    else if word == "register" then
      if IsName(rest) then (RegisterPassword(rest), Say([PasswordPrompt])) else (Anon, Say([NameInvalid]))
    else (Anon, Say([UnknownCommand]))
  }

  function SelectLine(account: Account, puppets: seq<Puppet>, word: string, rest: string): (LoginState, Transition) {
    var stay := PuppetSelect(account, puppets);
    if word == "help" || word == "?" then (stay, Say([PreLoginHelp]))
    else if word == "quit" then (stay, Part(Goodbye))
    else if word == "play" then
      match MatchPuppet(puppets, rest)
      case None => (stay, Say([NoSuchPuppet]))
      case Some(puppet) => Entering(account, puppets, puppet)
    else if word == "new" then
      if IsName(rest) then (AwaitingCreate(account, puppets), Ask(CreatePuppet(account.id, rest))) else (stay, Say([NameInvalid]))
    else (stay, Say([UnknownCommand]))
  }

  function OnLine(s: LoginState, line: string): (LoginState, Transition) {
    match s
    case Anon =>
      (match SplitCommand(line) case None => (s, Say([])) case Some(words) => AnonLine(words.0, words.1))
    case LoginPassword(username) => (AwaitingAuth, Ask(Authenticate(username, line)))
    case RegisterPassword(username) => (RegisterConfirm(username, line), Say([ConfirmPrompt]))
    case RegisterConfirm(username, password) =>
      if password != line then (Anon, Say([PasswordMismatch])) else (AwaitingRegister, Ask(Register(username, password)))
    case PuppetSelect(account, puppets) =>
      (match SplitCommand(line) case None => (s, Say([])) case Some(words) => SelectLine(account, puppets, words.0, words.1))
    case _ => (s, Say([]))
  }

  function OnResult(s: LoginState, result: EffectResult): (LoginState, Transition) {
    match (s, result)
    case (AwaitingAuth, Authenticated(account, puppets)) => Choosing(account, puppets)
    case (AwaitingAuth, LoginRejected(reason)) => (Anon, Say([Rejection(reason)]))
    case (AwaitingAuth, BackendError) => (Anon, Say([ServerError]))
    case (AwaitingRegister, Registered(account)) => Choosing(account, [])
    case (AwaitingRegister, UsernameRejected) => (Anon, Say([UsernameTaken]))
    case (AwaitingRegister, BackendError) => (Anon, Say([ServerError]))
    case (AwaitingCreate(account, puppets), Created(puppet)) =>
      var (next, t) := Entering(account, puppets + [puppet], puppet);
      (next, t.(messages := [PuppetCreated(puppet.name)] + t.messages))
    case (AwaitingCreate(account, puppets), BackendError) => (PuppetSelect(account, puppets), Say([ServerError]))
    case (AwaitingEnter(account, puppets, chosen, name), Entered) =>
      (Anon, Transition([EnteredWorld], None, Some(Bound(account.id, chosen, name)), None))
    case (AwaitingEnter(account, puppets, chosen, name), BackendError) => (PuppetSelect(account, puppets), Say([ServerError]))
    case _ => (s, Say([]))
  }

  function EchoChange(was: bool, now: bool): Option<InputEcho> {
    if !was && now then Some(Suppressed) else if was && !now then Some(Enabled) else None
  }

  function WithEcho(before: LoginState, step: (LoginState, Transition)): (LoginState, Transition) {
    (step.0, step.1.(echo := EchoChange(before.CollectsSecret(), step.0.CollectsSecret())))
  }

  function LineStep(s: LoginState, line: string): (LoginState, Transition) {
    WithEcho(s, OnLine(s, line))
  }

  function ResultStep(s: LoginState, result: EffectResult): (LoginState, Transition) {
    WithEcho(s, OnResult(s, result))
  }

  lemma NameIsNoOrdinal(name: Name)
    ensures ParseOrdinal(name) == None
  {
    assert name[0] in name;
    assert IsNameChar(name[0]);
  }

  lemma {:induction false} NamedIsFound(puppets: seq<Puppet>, puppet: Puppet, arg: string)
    requires puppet in puppets && Lower(arg) == Lower(puppet.name)
    ensures FindNamed(puppets, arg).Some? && FindNamed(puppets, arg).value in puppets
    ensures Lower(FindNamed(puppets, arg).value.name) == Lower(arg)
  {
    if Lower(puppets[0].name) != Lower(arg) {
      assert puppet in puppets[1..];
      NamedIsFound(puppets[1..], puppet, arg);
    }
  }

  /** A name is never taken for a number: naming a listed puppet, in any case, plays a listed one of that name. */
  lemma PlayableByName(puppets: seq<Puppet>, puppet: Puppet, spelled: Name)
    requires puppet in puppets && Lower(spelled) == Lower(puppet.name)
    ensures var found := MatchPuppet(puppets, spelled);
            found.Some? && found.value in puppets && Lower(found.value.name) == Lower(puppet.name)
  {
    NameIsNoOrdinal(spelled);
    NamedIsFound(puppets, puppet, spelled);
  }
}

/** The login machine of one session. */
module LoginMachine {
  import opened Wrappers
  import opened LoginModel

  class SessionFsm {
    var state: LoginState

    constructor ()
      ensures state == Anon
    {
      state := Anon;
    }

    function OnConnect(): Transition {
      Say([Banner, LoginInstructions])
    }

    method OnInput(line: string) returns (t: Transition)
      modifies this
      ensures (state, t) == LineStep(old(state), line)
    {
      var wasSecret := state.CollectsSecret();
      t := DispatchInput(line);
      t := t.(echo := EchoChange(wasSecret, state.CollectsSecret()));
    }

    method DispatchInput(line: string) returns (t: Transition)
      modifies this
      ensures (state, t) == OnLine(old(state), line)
    {
      match state
      case Anon =>
        t := AnonInput(line);
      case LoginPassword(username) =>
        state := AwaitingAuth;
        t := Ask(Authenticate(username, line));
      case RegisterPassword(username) =>
        state := RegisterConfirm(username, line);
        t := Say([ConfirmPrompt]);
      case RegisterConfirm(username, password) =>
        state := Anon;
        if password != line {
          return Say([PasswordMismatch]);
        }
        state := AwaitingRegister;
        t := Ask(Register(username, password));
      case PuppetSelect(_, _) =>
        t := PuppetSelectInput(line);
      case _ =>
        t := Say([]);
    }

    method AnonInput(line: string) returns (t: Transition)
      requires state.Anon?
      modifies this
      ensures (state, t) == OnLine(old(state), line)
    {
      var words := SplitCommand(line);
      if words.None? {
        return Say([]);
      }
      var (command, rest) := words.value;
      if command == "help" || command == "?" {
        t := Say([PreLoginHelp]);
      } else if command == "who" {
        t := Say([WhoStub]);
      } else if command == "quit" {
        t := Part(Goodbye);
      } else if command == "login" {
        if IsName(rest) {
          state := LoginPassword(rest);
          t := Say([PasswordPrompt]);
        } else {
          t := Say([UnknownCommand]);
        }
      } else if command == "register" {
        if IsName(rest) {
          state := RegisterPassword(rest);
          t := Say([PasswordPrompt]);
        } else {
          t := Say([NameInvalid]);
        }
      } else {
        t := Say([UnknownCommand]);
      }
    }

    method PuppetSelectInput(line: string) returns (t: Transition)
      requires state.PuppetSelect?
      modifies this
      ensures (state, t) == OnLine(old(state), line)
    {
      var words := SplitCommand(line);
      if words.None? {
        return Say([]);
      }
      var (command, rest) := words.value;
      if command == "help" || command == "?" {
        t := Say([PreLoginHelp]);
      } else if command == "quit" {
        t := Part(Goodbye);
      } else if command == "play" {
        var chosen := MatchPuppet(state.puppets, rest);
        if chosen.None? {
          return Say([NoSuchPuppet]);
        }
        t := EnterAs(chosen.value);
      } else if command == "new" {
        if !IsName(rest) {
          return Say([NameInvalid]);
        }
        var account := state.account;
        state := AwaitingCreate(account, state.puppets);
        t := Ask(CreatePuppet(account.id, rest));
      } else {
        t := Say([UnknownCommand]);
      }
    }

    method EnterAs(chosen: Puppet) returns (t: Transition)
      requires state.PuppetSelect?
      modifies this
      ensures (state, t) == Entering(old(state).account, old(state).puppets, chosen)
    {
      var account := state.account;
      state := AwaitingEnter(account, state.puppets, chosen.key, chosen.name);
      t := Ask(Enter(account.id, chosen.key));
    }

    method EnterPuppetSelect(account: Account, puppets: seq<Puppet>) returns (t: Transition)
      modifies this
      ensures (state, t) == Choosing(account, puppets)
    {
      var message := if puppets == [] then NoPuppetsYet else PuppetList(NamesOf(puppets));
      state := PuppetSelect(account, puppets);
      t := Say([message]);
    }

    method OnEffect(result: EffectResult) returns (t: Transition)
      modifies this
      ensures (state, t) == ResultStep(old(state), result)
    {
      var wasSecret := state.CollectsSecret();
      t := DispatchEffect(result);
      t := t.(echo := EchoChange(wasSecret, state.CollectsSecret()));
    }

    method DispatchEffect(result: EffectResult) returns (t: Transition)
      modifies this
      ensures (state, t) == OnResult(old(state), result)
    {
      var awaited := state;
      state := Anon;
      match (awaited, result)
      case (AwaitingAuth, Authenticated(account, puppets)) =>
        t := EnterPuppetSelect(account, puppets);
      case (AwaitingAuth, LoginRejected(reason)) =>
        t := Say([Rejection(reason)]);
      case (AwaitingAuth, BackendError) =>
        t := Say([ServerError]);
      case (AwaitingRegister, Registered(account)) =>
        t := EnterPuppetSelect(account, []);
      case (AwaitingRegister, UsernameRejected) =>
        t := Say([UsernameTaken]);
      case (AwaitingRegister, BackendError) =>
        t := Say([ServerError]);
      case (AwaitingCreate(account, puppets), Created(puppet)) =>
        state := PuppetSelect(account, puppets + [puppet]);
        t := EnterAs(puppet);
        t := t.(messages := [PuppetCreated(puppet.name)] + t.messages);
      case (AwaitingCreate(account, puppets), BackendError) =>
        state := PuppetSelect(account, puppets);
        t := Say([ServerError]);
      case (AwaitingEnter(account, _, chosen, name), Entered) =>
        t := Transition([EnteredWorld], None, Some(Bound(account.id, chosen, name)), None);
      case (AwaitingEnter(account, puppets, _, _), BackendError) =>
        state := PuppetSelect(account, puppets);
        t := Say([ServerError]);
      case _ =>
        state := awaited;
        t := Say([]);
    }
  }
}
