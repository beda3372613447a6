/** Whole dialogs, told from the lines as they are typed: what is asked of the backend, what is shown, and where the session then stands. */
module Dialogs {
  import opened Wrappers
  import opened LineSyntax
  import opened LoginModel
  import opened LoginRuns
  import opened SessionDriver

  // Lines as they are typed.

  /** `typed` is this lower-case word, any of its letters capitalised. */
  predicate Capitalises(typed: string, word: string) {
    && |typed| == |word|
    && forall i | 0 <= i < |word| :: typed[i] == word[i] || ('a' <= word[i] <= 'z' && typed[i] as int == word[i] as int - 32)
  }

  predicate IsWord(word: string) {
    word != [] && forall c | c in word :: !IsSpace(c) && !('A' <= c <= 'Z')
  }

  /** A command word in any case and its argument, with any spacing around them. */
  ghost predicate Typed(line: string, word: string, arg: string) {
    exists lead, typed, gap, trail :: Capitalises(typed, word) && Spaced(line, lead, typed, gap, arg, trail)
  }

  lemma TypedMeansSplit(line: string, word: string, arg: string)
    requires IsWord(word) && Typed(line, word, arg)
    ensures SplitCommand(line) == Some((word, arg))
  {
    hide SkipSpace, DropSpace, IsSpace, HeadLength, IsWord, Capitalises, Lower, Trim;
    var lead, typed, gap, trail :| Capitalises(typed, word) && Spaced(line, lead, typed, gap, arg, trail);
    var text := typed + (gap + arg + trail);
    CapitalisedIsLower(typed, word);
    assert line == lead + text;
    SkipSpaceSkips(lead, text);
    var after := gap + arg + trail;
    assert after != [] ==> IsSpace(after[0]) by {
      if gap != [] { assert after[0] == gap[0]; } else if trail != [] { assert after == trail; }
    }
    HeadIsWord(typed, after);
    assert text[..|typed|] == typed && text[|typed|..] == after;
    TrimKeepsCore(gap, arg, trail);
  }

  lemma CapitalisedIsLower(typed: string, word: string)
    requires IsWord(word) && Capitalises(typed, word)
    ensures Lower(typed) == word && typed != [] && !IsSpace(typed[0]) && forall c | c in typed :: !IsSpace(c)
  {
    forall i | 0 <= i < |word| ensures LowerChar(typed[i]) == word[i] && !IsSpace(typed[i]) {
      assert word[i] in word;
    }
  }

  lemma SplitMeansTyped(line: string, word: string, arg: string)
    requires SplitCommand(line) == Some((word, arg))
    ensures Typed(line, word, arg)
  {
    hide IsSpace, SkipSpace, DropSpace, HeadLength;
    var lead, text := Leading(line);
    var n := HeadLength(text);
    HeadStops(text);
    var typed, after := text[..n], text[n..];
    var gap, core := Leading(after);
    var trail := Trailing(core);
    assert Capitalises(typed, word) by { hide *; LowerCapitalises(typed); }
    assert DropSpace(core) == arg && core == arg + trail;
    assert after == gap + arg + trail;
    if arg != [] {
      assert core[0] == arg[0];
      assert after[0] == (gap + core)[0] && IsSpace(after[0]);
    }
    assert line == lead + typed + gap + arg + trail;
    assert Spaced(line, lead, typed, gap, arg, trail);
  }

  lemma LowerCapitalises(typed: string)
    ensures Capitalises(typed, Lower(typed))
  {
  }

  // What one line comes to.

  /** The session stays at login: what it shows, what it asked, and its state. */
  ghost predicate Stays(h: Heard, outputs: seq<LoginOutput>, asked: seq<Answer>, state: LoginState) {
    && h.routing == LoginRouting(outputs, false, None) && h.asked == asked
    && h.after.Some? && h.after.value.AtLogin? && h.after.value.state == state
  }

  /** The line is heard by a session at login in this state. */
  ghost predicate HeardIn(render: Message -> string, s: LoginState, h: Heard) {
    exists history :: LineDone(render, AtLogin(s, history), h.line, h.cycle, h.routing, h.asked, h.after)
  }

  function Block(text: string): LoginOutput {
    Text(text, LineBlock)
  }

  function Prompting(text: string): LoginOutput {
    Text(text, PromptBlock)
  }

  /** A line that asks nothing. */
  lemma AsksNothing(render: Message -> string, s: LoginState, h: Heard)
    requires HeardIn(render, s, h) && LineStep(s, h.line).1.effect.None?
    ensures var (next, t) := LineStep(s, h.line);
            var outputs := EchoOut(t.echo) + Flushed(RenderBatch(render, t.messages));
            && (t.terminal.None? ==> Stays(h, outputs, [], next))
            && (t.terminal == Some(Closed) ==> h.routing == LoginRouting(outputs, true, None) && h.asked == [] && h.after == None)
  {
    hide LineStep, Performed, ResultStep, RenderBatch;
    var c := h.cycle;
    assert |c.exchanges| == 0;
    assert c.transitions == [c.transitions[0]];
    OneTransition(c.transitions[0]);
  }

  lemma OneTransition(t: Transition)
    ensures AllMessages([t]) == t.messages
  {
    assert [t][..0] == [];
  }

  lemma TwoTransitions(t: Transition, u: Transition)
    ensures AllMessages([t, u]) == t.messages + u.messages
  {
    assert [t, u][..1] == [t];
    OneTransition(t);
  }

  /** A line that asks once: the backend's answers, and what their result leads to. */
  lemma AsksOnce(render: Message -> string, s: LoginState, h: Heard) returns (x: Exchange)
    requires HeardIn(render, s, h) && LineStep(s, h.line).1.effect.Some? && LineStep(s, h.line).1.terminal.None?
    ensures h.cycle.exchanges != [] && x == h.cycle.exchanges[0]
    ensures var (next, t) := LineStep(s, h.line);
            var (last, u) := ResultStep(next, x.result);
            && Some(x.effect) == t.effect && Performed(x.effect, x.answers, x.result)
            && (u.effect.None? ==>
                  var outputs := EchoOut(t.echo) + Flushed(RenderBatch(render, t.messages + u.messages));
                  && (u.terminal.None? ==> Stays(h, outputs, x.answers, last))
                  && (u.terminal.Some? && u.terminal.value.Bound? ==> Binds(h, outputs, x.answers, u.terminal.value)))
  {
    hide LineStep, Performed, ResultStep, RenderBatch;
    var c := h.cycle;
    assert |c.exchanges| > 0;
    x := c.exchanges[0];
    var (last, u) := ResultStep(c.states[0], x.result);
    assert (c.states[1], c.transitions[1]) == (last, u);
    if u.effect.None? {
      forall i | 0 <= i < |c.exchanges| ensures c.transitions[i].effect.Some? {
      }
      assert |c.exchanges| == 1;
      assert c.exchanges == [x] && c.transitions == [c.transitions[0], u];
      TwoTransitions(c.transitions[0], u);
      assert [x][..0] == [] && AnswersOf([]) + x.answers == x.answers;
    }
  }

  /** A line whose first result leads to a second question. */
  lemma AsksTwice(render: Message -> string, s: LoginState, h: Heard, x: Exchange) returns (y: Exchange)
    requires HeardIn(render, s, h) && LineStep(s, h.line).1.effect.Some? && LineStep(s, h.line).1.terminal.None?
    requires h.cycle.exchanges != [] && x == h.cycle.exchanges[0]
    requires var u := ResultStep(LineStep(s, h.line).0, x.result).1; u.effect.Some? && u.terminal.None?
    ensures var (next, t) := LineStep(s, h.line);
            var (mid, u) := ResultStep(next, x.result);
            var (last, v) := ResultStep(mid, y.result);
            && Some(y.effect) == u.effect && Performed(y.effect, y.answers, y.result)
            && (v.effect.None? ==>
                  var outputs := EchoOut(t.echo) + Flushed(RenderBatch(render, t.messages + u.messages + v.messages));
                  && (v.terminal.None? ==> Stays(h, outputs, x.answers + y.answers, last))
                  && (v.terminal.Some? && v.terminal.value.Bound? ==> Binds(h, outputs, x.answers + y.answers, v.terminal.value)))
  {
    hide LineStep, Performed, ResultStep, RenderBatch;
    var c := h.cycle;
    var (mid, u) := ResultStep(c.states[0], x.result);
    assert (c.states[1], c.transitions[1]) == (mid, u);
    assert |c.exchanges| > 1;
    y := c.exchanges[1];
    var (last, v) := ResultStep(mid, y.result);
    assert (c.states[2], c.transitions[2]) == (last, v);
    if v.effect.None? {
      forall i | 0 <= i < |c.exchanges| ensures c.transitions[i].effect.Some? {
      }
      assert |c.exchanges| == 2;
      assert c.exchanges == [x, y] && c.transitions == [c.transitions[0], u, v];
      ThreeTransitions(c.transitions[0], u, v);
      TwoExchanges(x, y);
    }
  }

  lemma ThreeTransitions(t: Transition, u: Transition, v: Transition)
    ensures AllMessages([t, u, v]) == t.messages + u.messages + v.messages
  {
    assert [t, u, v][..2] == [t, u];
    TwoTransitions(t, u);
  }

  lemma TwoExchanges(x: Exchange, y: Exchange)
    ensures AnswersOf([x, y]) == x.answers + y.answers
  {
    assert [x, y][..1] == [x] && [x][..0] == [];
    assert AnswersOf([x]) == AnswersOf([]) + x.answers == x.answers;
  }

  /** The session enters the world as this puppet, or is closed if it can no longer be resolved. */
  ghost predicate Binds(h: Heard, outputs: seq<LoginOutput>, asked: seq<Answer>, t: Terminal)
    requires t.Bound?
  {
    && h.routing.LoginRouting? && h.routing.outputs == outputs && h.routing.close == h.routing.bound.None?
    && h.asked == asked + [Resolving(t.puppet, h.routing.bound)]
    && h.after == if h.routing.bound.None? then None else Some(Playing(Binding(t.account, h.routing.bound.value, t.name)))
  }

  lemma OneIsSaid(render: Message -> string, m: Message)
    ensures Flushed(RenderBatch(render, [m])) == [if m.PasswordPrompt? || m.ConfirmPrompt? then Prompting(render(m)) else Block(render(m))]
  {
    assert Rendered(render, [m]) == [render(m)];
    JoinOne(render(m));
  }

  lemma TwoAreSaid(render: Message -> string, m: Message, n: Message)
    requires !n.PasswordPrompt? && !n.ConfirmPrompt?
    ensures Flushed(RenderBatch(render, [m, n])) == [Block(render(m) + "\n" + render(n))]
  {
    assert Rendered(render, [m, n]) == [render(m)] + [render(n)];
    JoinOne(render(m));
    JoinOne(render(n));
    JoinConcat([render(m)], [render(n)]);
  }

  /** A block after a secret: echo comes back first. */
  function Unmasking(text: string): seq<LoginOutput> {
    [EchoMode(Enabled), Block(text)]
  }

  function Masking(text: string): seq<LoginOutput> {
    [EchoMode(Suppressed), Prompting(text)]
  }

  // The login dialog.

  /** What a login says of the puppets it has found: the k-th name listed is that of the k-th puppet. */
  function Menu(puppets: seq<Puppet>): Message {
    if puppets == [] then NoPuppetsYet else PuppetList(seq(|puppets|, i requires 0 <= i < |puppets| => puppets[i].name))
  }

  /** A password is checked for that very name, as typed; an unknown name and a wrong password are told alike. */
  ghost predicate ChecksPassword(render: Message -> string, u: Name, h: Heard) {
    && h.asked != [] && h.asked[0].Authenticating? && h.asked[0].username == u && h.asked[0].password == h.line
    && match h.asked[0].account
       case None => Stays(h, Unmasking(render(ServerError)), [h.asked[0]], Anon)
       case Some(Err(UnknownUser)) => Stays(h, Unmasking(render(LoginFailed)), [h.asked[0]], Anon)
       case Some(Err(BadPassword)) => Stays(h, Unmasking(render(LoginFailed)), [h.asked[0]], Anon)
       case Some(Err(Suspended)) => Stays(h, Unmasking(render(AccountSuspended)), [h.asked[0]], Anon)
       case Some(Err(Banned)) => Stays(h, Unmasking(render(AccountBanned)), [h.asked[0]], Anon)
       case Some(Ok(account)) =>
         && |h.asked| == 2 && h.asked[1].Listing? && h.asked[1].owner == account.id
         && match h.asked[1].puppets
            case None => Stays(h, Unmasking(render(ServerError)), h.asked, Anon)
            case Some(puppets) => Stays(h, Unmasking(render(Menu(puppets))), h.asked, PuppetSelect(account, puppets))
  }

  lemma PasswordLine(render: Message -> string, u: Name, h: Heard)
    requires HeardIn(render, LoginPassword(u), h)
    ensures ChecksPassword(render, u, h)
  {
    hide HeardIn, RenderBatch, Flushed;
    UnmasksToSay(render);
    var x := AsksOnce(render, LoginPassword(u), h);
  }

  lemma UnmasksToSay(render: Message -> string)
    ensures forall m: Message | !IsPrompt(m) :: EchoOut(Some(Enabled)) + Flushed(RenderBatch(render, [] + [m])) == Unmasking(render(m))
  {
    forall m: Message | !IsPrompt(m) ensures EchoOut(Some(Enabled)) + Flushed(RenderBatch(render, [] + [m])) == Unmasking(render(m)) {
      assert [] + [m] == [m];
      OneIsSaid(render, m);
    }
  }

  /** `login u`, then a line: the backend is asked about `u` with exactly that line. */
  lemma LoginDialog(render: Message -> string, history: seq<Exchange>, u: Name, first: Heard, second: Heard)
    requires Converses(render, Some(AtLogin(Anon, history)), [first, second]) && Typed(first.line, "login", u)
    ensures Stays(first, Masking(render(PasswordPrompt)), [], LoginPassword(u))
    ensures ChecksPassword(render, u, second)
  {
    hide LineDone, ChecksPassword, RenderBatch, Flushed;
    TypedMeansSplit(first.line, "login", u);
    assert HeardIn(render, Anon, first);
    AsksNothing(render, Anon, first);
    OneIsSaid(render, PasswordPrompt);
    assert [first, second][1..] == [second];
    assert HeardIn(render, LoginPassword(u), second);
    PasswordLine(render, u, second);
  }

  // The registration dialog.

  /** Passwords that differ ask nothing; the same one twice registers that very name with it. */
  ghost predicate ChecksConfirmation(render: Message -> string, u: Name, password: string, h: Heard) {
    if h.line != password then Stays(h, Unmasking(render(PasswordMismatch)), [], Anon)
    else
      && |h.asked| == 1 && h.asked[0].Registering? && h.asked[0].username == u && h.asked[0].password == password
      && match h.asked[0].registered
         case None => Stays(h, Unmasking(render(ServerError)), h.asked, Anon)
         case Some(None) => Stays(h, Unmasking(render(UsernameTaken)), h.asked, Anon)
         case Some(Some(account)) => Stays(h, Unmasking(render(NoPuppetsYet)), h.asked, PuppetSelect(account, []))
  }

  lemma FirstPasswordLine(render: Message -> string, u: Name, h: Heard)
    requires HeardIn(render, RegisterPassword(u), h)
    ensures Stays(h, [Prompting(render(ConfirmPrompt))], [], RegisterConfirm(u, h.line))
  {
    hide HeardIn, RenderBatch, Flushed;
    AsksNothing(render, RegisterPassword(u), h);
    OneIsSaid(render, ConfirmPrompt);
  }

  lemma ConfirmLine(render: Message -> string, u: Name, password: string, h: Heard)
    requires HeardIn(render, RegisterConfirm(u, password), h)
    ensures ChecksConfirmation(render, u, password, h)
  {
    hide HeardIn, RenderBatch, Flushed;
    UnmasksToSay(render);
    if h.line != password {
      AsksNothing(render, RegisterConfirm(u, password), h);
      assert [] + [PasswordMismatch] == [PasswordMismatch];
      assert IsPrompt(PasswordMismatch) == false;
    } else {
      var x := AsksOnce(render, RegisterConfirm(u, password), h);
    }
  }

  /** `register u`, then two lines: they must be the same, and are what `u` is registered with. */
  lemma RegisterDialog(render: Message -> string, history: seq<Exchange>, u: Name, first: Heard, second: Heard, third: Heard)
    requires Converses(render, Some(AtLogin(Anon, history)), [first, second, third]) && Typed(first.line, "register", u)
    ensures Stays(first, Masking(render(PasswordPrompt)), [], RegisterPassword(u))
    ensures Stays(second, [Prompting(render(ConfirmPrompt))], [], RegisterConfirm(u, second.line))
    ensures ChecksConfirmation(render, u, second.line, third)
  {
    hide LineDone, ChecksConfirmation, RenderBatch, Flushed;
    TypedMeansSplit(first.line, "register", u);
    assert HeardIn(render, Anon, first);
    AsksNothing(render, Anon, first);
    OneIsSaid(render, PasswordPrompt);
    var rest := [first, second, third][1..];
    assert rest == [second, third] && rest[1..] == [third];
    assert Converses(render, first.after, rest) && Converses(render, second.after, rest[1..]);
    assert HeardIn(render, RegisterPassword(u), second);
    FirstPasswordLine(render, u, second);
    assert HeardIn(render, RegisterConfirm(u, second.line), third);
    ConfirmLine(render, u, second.line, third);
  }

  // Other lines before a login.

  lemma BlankSplits(line: string)
    ensures SplitCommand(line) == None <==> AllSpace(line)
  {
    var lead, text := Leading(line);
    if text != [] {
      assert text[0] in line;
    }
  }

  lemma AnonLines(render: Message -> string, h: Heard, word: string, arg: string)
    requires HeardIn(render, Anon, h)
    ensures AllSpace(h.line) ==> Stays(h, [], [], Anon)
    ensures IsWord(word) && Typed(h.line, word, arg) ==>
              if word == "quit" then h.routing == LoginRouting([Block(render(Goodbye))], true, None) && h.asked == [] && h.after == None
              else if word in {"login", "register"} && IsName(arg) then
                Stays(h, Masking(render(PasswordPrompt)), [], if word == "login" then LoginPassword(arg) else RegisterPassword(arg))
              else
                Stays(h, [Block(render(if word in {"help", "?"} then PreLoginHelp else if word == "who" then WhoStub
                                       else if word == "register" then NameInvalid else UnknownCommand))], [], Anon)
  {
    hide HeardIn, RenderBatch, Flushed, Typed, SplitCommand, AllSpace;
    SaysPlainly(render);
    OneIsSaid(render, PasswordPrompt);
    BlankSplits(h.line);
    if IsWord(word) && Typed(h.line, word, arg) { TypedMeansSplit(h.line, word, arg); }
    AsksNothing(render, Anon, h);
  }

  lemma SaysPlainly(render: Message -> string)
    ensures forall m: Message | !IsPrompt(m) :: EchoOut(None) + Flushed(RenderBatch(render, [m])) == [Block(render(m))]
    ensures Flushed(RenderBatch(render, [])) == []
  {
    forall m: Message | !IsPrompt(m) ensures EchoOut(None) + Flushed(RenderBatch(render, [m])) == [Block(render(m))] {
      OneIsSaid(render, m);
    }
  }

  // The puppet menu.

  /** A number in decimal. */
  function Numeral(n: nat): string {
    (if n < 10 then "" else Numeral(n / 10)) + [('0' as int + n % 10) as char]
  }

  lemma {:induction false} NumeralIsRead(n: nat)
    ensures Numeral(n) != [] && forall c | c in Numeral(n) :: IsDigit(c)
    ensures Digits(Numeral(n)) == n
  {
    if n >= 10 {
      NumeralIsRead(n / 10);
      assert Numeral(n)[..|Numeral(n)| - 1] == Numeral(n / 10);
    } else {
      assert Numeral(n)[..0] == [];
    }
  }

  function Zeros(n: nat): string {
    seq(n, _ => '0')
  }

  /** A number as it may be typed: a plus sign and leading zeros do not matter. */
  ghost predicate Spells(arg: string, k: nat) {
    exists n: nat :: arg == Zeros(n) + Numeral(k) || arg == "+" + (Zeros(n) + Numeral(k))
  }

  lemma {:induction false} LeadingZeros(n: nat, s: string)
    requires forall c | c in s :: IsDigit(c)
    ensures (forall c | c in Zeros(n) + s :: IsDigit(c)) && Digits(Zeros(n) + s) == Digits(s)
    decreases n + |s|
  {
    var all := Zeros(n) + s;
    if s != [] {
      var front := s[..|s| - 1];
      forall c | c in front ensures IsDigit(c) { assert c in s; }
      LeadingZeros(n, front);
      assert all[..|all| - 1] == Zeros(n) + front;
      assert s[|s| - 1] in s;
    } else if n > 0 {
      LeadingZeros(n - 1, []);
      assert all == Zeros(n) && all[..|all| - 1] == Zeros(n - 1) + [];
    } else {
      assert all == [];
    }
  }

  lemma {:induction false} DigitsAreNumeral(s: string) returns (n: nat)
    requires s != [] && forall c | c in s :: IsDigit(c)
    ensures s == Zeros(n) + Numeral(Digits(s))
  {
    hide Numeral, IsDigit, DigitValue;
    var front, last := s[..|s| - 1], s[|s| - 1];
    assert last in s;
    if front == [] {
      n := 0;
      DigitIsNumeral(last);
      assert s == [last];
    } else {
      forall c | c in front ensures IsDigit(c) { assert c in s; }
      n := DigitsAreNumeral(front);
      NumeralGrows(Digits(front), last);
      assert s == front + [last];
      if Digits(front) == 0 {
        assert Zeros(n) + "0" == Zeros(n + 1);
        n := n + 1;
      }
    }
  }

  lemma DigitIsNumeral(c: char)
    requires IsDigit(c)
    ensures Numeral(DigitValue(c)) == [c] && Digits([c]) == DigitValue(c)
  {
    assert [c][..0] == [];
  }

  lemma NumeralGrows(v: nat, c: char)
    requires IsDigit(c)
    ensures Numeral(v * 10 + DigitValue(c)) == if v == 0 then [c] else Numeral(v) + [c]
    ensures Numeral(0) == "0"
  {
    hide Numeral;
    DigitIsNumeral(c);
    DigitIsNumeral('0');
    if v > 0 { LastDigit(v, DigitValue(c)); }
  }

  lemma LastDigit(v: nat, d: nat)
    requires v > 0 && d < 10
    ensures Numeral(v * 10 + d) == Numeral(v) + [('0' as int + d) as char]
  {
    var n := v * 10 + d;
    assert n / 10 == v && n % 10 == d;
  }

  lemma SpelledIsRead(arg: string, k: nat)
    requires Spells(arg, k)
    ensures ParseOrdinal(arg) == if k > MAX_ORDINAL then None else Some(k)
  {
    hide Digits, Numeral, Zeros, IsDigit;
    var n :| arg == Zeros(n) + Numeral(k) || arg == "+" + (Zeros(n) + Numeral(k));
    var digits := Zeros(n) + Numeral(k);
    NumeralIsRead(k);
    LeadingZeros(n, Numeral(k));
    assert digits != [] && IsDigit(digits[0]);
    PlusIsNoDigit();
    assert arg == digits || (arg[0] == '+' && arg[1..] == digits);
  }

  lemma PlusIsNoDigit()
    ensures !IsDigit('+')
  {
  }

  lemma ReadIsSpelled(arg: string)
    requires ParseOrdinal(arg).Some?
    ensures Spells(arg, ParseOrdinal(arg).value)
  {
    hide Digits, Numeral, Zeros;
    var digits := if arg[0] == '+' then arg[1..] else arg;
    var n := DigitsAreNumeral(digits);
    assert arg[0] == '+' ==> arg == "+" + digits;
    assert digits == Zeros(n) + Numeral(Digits(digits));
  }

  /** The puppet an argument chooses: by its number down the list, else the first of that name in any case. */
  ghost predicate Chooses(puppets: seq<Puppet>, arg: string, puppet: Puppet) {
    (exists k :: 1 <= k <= |puppets| && k <= MAX_ORDINAL && Spells(arg, k) && puppet == puppets[k - 1]) || FirstNamed(puppets, arg, puppet)
  }

  ghost predicate FirstNamed(puppets: seq<Puppet>, arg: string, puppet: Puppet) {
    exists i :: 0 <= i < |puppets| && puppet == puppets[i] && Lower(puppet.name) == Lower(arg)
      && forall j | 0 <= j < i :: Lower(puppets[j].name) != Lower(arg)
  }

  lemma {:induction false} FirstNamedIsFound(puppets: seq<Puppet>, arg: string, puppet: Puppet)
    ensures FindNamed(puppets, arg) == Some(puppet) <==> FirstNamed(puppets, arg, puppet)
  {
    if puppets != [] {
      FirstNamedIsFound(puppets[1..], arg, puppet);
      var here := Lower(puppets[0].name) == Lower(arg);
      if !here && FirstNamed(puppets[1..], arg, puppet) {
        var i :| 0 <= i < |puppets[1..]| && puppet == puppets[1..][i] && Lower(puppet.name) == Lower(arg)
          && forall j | 0 <= j < i :: Lower(puppets[1..][j].name) != Lower(arg);
        assert puppets[i + 1] == puppet;
        forall j | 0 <= j < i + 1 ensures Lower(puppets[j].name) != Lower(arg) {
          assert j > 0 ==> puppets[j] == puppets[1..][j - 1];
        }
      }
      if !here && FirstNamed(puppets, arg, puppet) {
        var i :| 0 <= i < |puppets| && puppet == puppets[i] && Lower(puppet.name) == Lower(arg)
          && forall j | 0 <= j < i :: Lower(puppets[j].name) != Lower(arg);
        assert puppets[1..][i - 1] == puppet;
        forall j | 0 <= j < i - 1 ensures Lower(puppets[1..][j].name) != Lower(arg) {
          assert puppets[1..][j] == puppets[j + 1];
        }
      }
    }
  }

  /** No name, in any case, reads as a number. */
  lemma NamedIsNoNumber(name: Name, arg: string)
    requires Lower(name) == Lower(arg)
    ensures ParseOrdinal(arg) == None
  {
    assert |Lower(name)| == |name| && |Lower(arg)| == |arg|;
    forall i | 0 <= i < |arg| ensures IsDigit(arg[i]) <==> IsDigit(name[i]) {
      assert Lower(arg)[i] == Lower(name)[i];
    }
    var c :| c in name && !IsDigit(c);
    var i :| 0 <= i < |name| && name[i] == c;
    assert arg[i] in arg;
    assert Lower(arg)[0] == Lower(name)[0] && name[0] in name && IsNameChar(name[0]);
    assert arg[0] != '+';
  }

  lemma ChoosesMatches(puppets: seq<Puppet>, arg: string, puppet: Puppet)
    ensures MatchPuppet(puppets, arg) == Some(puppet) <==> Chooses(puppets, arg, puppet)
  {
    hide ParseOrdinal, FindNamed, Lower, Spells, FirstNamed;
    FirstNamedIsFound(puppets, arg, puppet);
    if FirstNamed(puppets, arg, puppet) {
      assert exists i :: 0 <= i < |puppets| && Lower(puppets[i].name) == Lower(arg) by { NamedSomewhere(puppets, arg, puppet); }
      var i :| 0 <= i < |puppets| && Lower(puppets[i].name) == Lower(arg);
      NamedIsNoNumber(puppets[i].name, arg);
    }
    forall k: nat | Spells(arg, k) ensures ParseOrdinal(arg) == if k > MAX_ORDINAL then None else Some(k) {
      SpelledIsRead(arg, k);
    }
    if ParseOrdinal(arg).Some? {
      ReadIsSpelled(arg);
      OrdinalsFit(arg);
    }
  }

  lemma NamedSomewhere(puppets: seq<Puppet>, arg: string, puppet: Puppet)
    requires FirstNamed(puppets, arg, puppet)
    ensures exists i :: 0 <= i < |puppets| && Lower(puppets[i].name) == Lower(arg)
  {
  }

  lemma OrdinalsFit(arg: string)
    requires ParseOrdinal(arg).Some?
    ensures ParseOrdinal(arg).value <= MAX_ORDINAL
  {
  }

  /**
   * The puppet is looked up and, if it is there, entered under its name; if not, the menu stays. The one block
   * shown starts with what was said before, and the lookup comes after what was asked before.
   */
  ghost predicate Enters(render: Message -> string, account: Account, puppets: seq<Puppet>, puppet: Puppet, asked: seq<Answer>,
                         opening: string, h: Heard) {
    var n := |asked|;
    && |h.asked| > n && h.asked[..n] == asked && h.asked[n].Resolving? && h.asked[n].key == puppet.key
    && if h.asked[n].entity.None? then
         Stays(h, [Block(opening + render(ServerError))], asked + [h.asked[n]], PuppetSelect(account, puppets))
       else Binds(h, [Block(opening + render(EnteredWorld))], asked + [h.asked[n]], Bound(account.id, puppet.key, puppet.name))
  }

  lemma PlayLine(render: Message -> string, account: Account, puppets: seq<Puppet>, arg: string, h: Heard)
    requires HeardIn(render, PuppetSelect(account, puppets), h) && Typed(h.line, "play", arg)
    ensures forall puppet | Chooses(puppets, arg, puppet) :: Enters(render, account, puppets, puppet, [], "", h)
    ensures (forall puppet :: !Chooses(puppets, arg, puppet)) ==> Stays(h, [Block(render(NoSuchPuppet))], [], PuppetSelect(account, puppets))
  {
    hide HeardIn, RenderBatch, Flushed, Chooses, MatchPuppet, Typed, SplitCommand;
    var s := PuppetSelect(account, puppets);
    TypedMeansSplit(h.line, "play", arg);
    SaysPlainly(render);
    forall puppet ensures MatchPuppet(puppets, arg) == Some(puppet) <==> Chooses(puppets, arg, puppet) {
      ChoosesMatches(puppets, arg, puppet);
    }
    if MatchPuppet(puppets, arg).None? {
      AsksNothing(render, s, h);
    } else {
      var x := AsksOnce(render, s, h);
      assert [] + [ServerError] == [ServerError] && [] + [EnteredWorld] == [EnteredWorld];
      assert "" + render(ServerError) == render(ServerError) && "" + render(EnteredWorld) == render(EnteredWorld);
      assert [] + [h.asked[0]] == [h.asked[0]];
    }
  }

  /** A new puppet is made under that name for that account, then entered. */
  ghost predicate Makes(render: Message -> string, account: Account, puppets: seq<Puppet>, name: Name, h: Heard) {
    && h.asked != [] && h.asked[0].Creating? && h.asked[0].creator == account.id && h.asked[0].name == name
    && match h.asked[0].puppet
       case None => Stays(h, [Block(render(ServerError))], [h.asked[0]], PuppetSelect(account, puppets))
       case Some(puppet) =>
         puppet.name == name && Enters(render, account, puppets + [puppet], puppet, [h.asked[0]], render(PuppetCreated(name)) + "\n", h)
  }

  lemma NewLine(render: Message -> string, account: Account, puppets: seq<Puppet>, arg: string, h: Heard)
    requires HeardIn(render, PuppetSelect(account, puppets), h) && Typed(h.line, "new", arg)
    ensures if IsName(arg) then Makes(render, account, puppets, arg, h)
            else Stays(h, [Block(render(NameInvalid))], [], PuppetSelect(account, puppets))
  {
    hide HeardIn, RenderBatch, Flushed, Typed, SplitCommand;
    var s := PuppetSelect(account, puppets);
    TypedMeansSplit(h.line, "new", arg);
    SaysPlainly(render);
    if !IsName(arg) {
      AsksNothing(render, s, h);
    } else {
      var x := AsksOnce(render, s, h);
      assert [] + [ServerError] == [ServerError];
      if x.result.Created? { MadeIsEntered(render, account, puppets, arg, h, x); }
    }
  }

  lemma MadeIsEntered(render: Message -> string, account: Account, puppets: seq<Puppet>, name: Name, h: Heard, x: Exchange)
    requires HeardIn(render, PuppetSelect(account, puppets), h) && SplitCommand(h.line) == Some(("new", name))
    requires h.cycle.exchanges != [] && x == h.cycle.exchanges[0] && x.result.Created?
    requires Performed(CreatePuppet(account.id, name), x.answers, x.result)
    ensures Makes(render, account, puppets, name, h)
  {
    hide HeardIn, RenderBatch, Flushed, SplitCommand;
    SaysPlainly(render);
    var y := AsksTwice(render, PuppetSelect(account, puppets), h, x);
    var made := PuppetCreated(x.result.puppet.name);
    TwoAreSaid(render, made, ServerError);
    TwoAreSaid(render, made, EnteredWorld);
    assert [] + ([made] + []) + [ServerError] == [made, ServerError] && [] + ([made] + []) + [EnteredWorld] == [made, EnteredWorld];
  }

  lemma MenuLines(render: Message -> string, account: Account, puppets: seq<Puppet>, h: Heard, word: string, arg: string)
    requires HeardIn(render, PuppetSelect(account, puppets), h)
    ensures AllSpace(h.line) ==> Stays(h, [], [], PuppetSelect(account, puppets))
    ensures IsWord(word) && Typed(h.line, word, arg) && word !in {"play", "new"} ==>
              if word == "quit" then h.routing == LoginRouting([Block(render(Goodbye))], true, None) && h.asked == [] && h.after == None
              else Stays(h, [Block(render(if word in {"help", "?"} then PreLoginHelp else UnknownCommand))], [], PuppetSelect(account, puppets))
  {
    hide HeardIn, RenderBatch, Flushed, Typed, SplitCommand, AllSpace, MatchPuppet;
    SaysPlainly(render);
    BlankSplits(h.line);
    if IsWord(word) && Typed(h.line, word, arg) { TypedMeansSplit(h.line, word, arg); }
    if SplitCommand(h.line).None? || SplitCommand(h.line).value.0 !in {"play", "new"} {
      AsksNothing(render, PuppetSelect(account, puppets), h);
    }
  }

  // Over a whole conversation: what is asked was typed.

  /** Some answer in this line gives the session this account. */
  ghost predicate Gives(h: Heard, account: Account) {
    exists a | a in h.asked ::
      (a.Authenticating? && a.account == Some(Ok(account))) || (a.Registering? && a.registered == Some(Some(account)))
  }

  /** How a session came to be where it is, from the lines it has heard. */
  ghost predicate Explained(s: LoginState, past: seq<Heard>) {
    var n := |past|;
    match s
    case Anon => true
    case LoginPassword(u) => n >= 1 && Typed(past[n - 1].line, "login", u)
    case RegisterPassword(u) => n >= 1 && Typed(past[n - 1].line, "register", u)
    case RegisterConfirm(u, password) => n >= 2 && past[n - 1].line == password && Typed(past[n - 2].line, "register", u)
    case PuppetSelect(account, _) => exists h :: h in past && Gives(h, account)
    case _ => false
  }

  /** What was asked, read off this line and those before it. */
  ghost predicate Grounds(a: Answer, past: seq<Heard>, h: Heard) {
    var n := |past|;
    match a
    case Authenticating(u, password, _) => n >= 1 && password == h.line && Typed(past[n - 1].line, "login", u)
    case Registering(u, password, _) =>
      n >= 2 && password == h.line == past[n - 1].line && Typed(past[n - 2].line, "register", u)
    case Listing(owner, _) => exists account: Account :: Gives(h, account) && account.id == owner
    case Creating(creator, name, _) =>
      Typed(h.line, "new", name) && exists account: Account :: account.id == creator && exists g :: g in past && Gives(g, account)
    case Resolving(_, _) => exists arg :: Typed(h.line, "play", arg) || Typed(h.line, "new", arg)
  }

  /** One line: what it asks is grounded, and where it leads is explained. */
  lemma LineIsExplained(render: Message -> string, s: LoginState, past: seq<Heard>, h: Heard)
    requires HeardIn(render, s, h) && Explained(s, past)
    ensures forall a | a in h.asked :: Grounds(a, past, h)
    ensures h.after.Some? && h.after.value.AtLogin? ==> Explained(h.after.value.state, past + [h])
  {
    hide HeardIn, Typed, LoginRuns.Performed;
    assert h.asked != [] ==> h.asked[0] in h.asked && h in past + [h];
    match s
    case Anon => AnonExplained(render, past, h);
    case LoginPassword(u) => PasswordLine(render, u, h);
    case RegisterPassword(u) => FirstPasswordLine(render, u, h);
    case RegisterConfirm(u, password) => ConfirmLine(render, u, password, h);
    case PuppetSelect(account, puppets) => MenuExplained(render, account, puppets, past, h);
  }

  lemma AnonExplained(render: Message -> string, past: seq<Heard>, h: Heard)
    requires HeardIn(render, Anon, h)
    ensures h.asked == [] && (h.after.Some? && h.after.value.AtLogin? ==> Explained(h.after.value.state, past + [h]))
  {
    hide HeardIn, Typed, SplitCommand, RenderBatch, Flushed;
    AsksNothing(render, Anon, h);
    if SplitCommand(h.line).Some? { SplitMeansTyped(h.line, SplitCommand(h.line).value.0, SplitCommand(h.line).value.1); }
  }

  lemma MenuExplained(render: Message -> string, account: Account, puppets: seq<Puppet>, past: seq<Heard>, h: Heard)
    requires HeardIn(render, PuppetSelect(account, puppets), h)
    requires exists g :: g in past && Gives(g, account)
    ensures forall a | a in h.asked :: Grounds(a, past, h)
    ensures h.after.Some? && h.after.value.AtLogin? ==> Explained(h.after.value.state, past + [h])
  {
    hide HeardIn, Typed, SplitCommand, Gives, Chooses;
    var words := SplitCommand(h.line);
    if words.None? {
      BlankSplits(h.line);
      MenuLines(render, account, puppets, h, "", "");
    } else {
      var (word, arg) := words.value;
      SplitMeansTyped(h.line, word, arg);
      if word == "play" {
        PlayLine(render, account, puppets, arg, h);
      } else if word == "new" {
        NewLine(render, account, puppets, arg, h);
      } else {
        SplitIsWord(h.line);
        MenuLines(render, account, puppets, h, word, arg);
      }
    }
    var g :| g in past && Gives(g, account);
    assert g in past + [h];
  }

  lemma SplitIsWord(line: string)
    requires SplitCommand(line).Some?
    ensures IsWord(SplitCommand(line).value.0)
  {
    var text := SkipSpace(line);
    HeadStops(text);
    var head := text[..HeadLength(text)];
    forall i | 0 <= i < |head| ensures !IsSpace(LowerChar(head[i])) {
      assert !IsSpace(head[i]);
    }
  }

  lemma {:induction false} ConversesUpTo(render: Message -> string, before: Option<SessionView>, lines: seq<Heard>, i: nat)
    requires Converses(render, before, lines) && i <= |lines|
    ensures Converses(render, before, lines[..i]) && Converses(render, Latest(before, lines[..i]), lines[i..])
    decreases i
  {
    hide InputDone;
    if i == 0 {
      assert lines[..0] == [] && lines[0..] == lines;
    } else {
      ConversesUpTo(render, lines[0].after, lines[1..], i - 1);
      var front := lines[..i];
      assert front[0] == lines[0] && front[1..] == lines[1..][..i - 1] && lines[1..][i - 1..] == lines[i..];
      assert i > 1 ==> lines[1..][..i - 1][i - 2] == lines[i - 1];
    }
  }

  lemma {:induction false} ConversationExplained(render: Message -> string, lines: seq<Heard>)
    requires Converses(render, Some(AtLogin(Anon, [])), lines)
    ensures var now := Latest(Some(AtLogin(Anon, [])), lines);
            now.Some? && now.value.AtLogin? ==> Explained(now.value.state, lines)
    decreases |lines|
  {
    hide Explained, LineDone, Grounds;
    if lines == [] {
      assert Explained(Anon, lines) by { AnonIsExplained(); }
    } else {
      var n := |lines| - 1;
      var start := Some(AtLogin(Anon, []));
      ConversesUpTo(render, start, lines, n);
      ConversationExplained(render, lines[..n]);
      var before, last := Latest(start, lines[..n]), lines[n];
      assert lines[n..][0] == last && lines == lines[..n] + [last];
      if before.Some? && before.value.AtLogin? {
        assert HeardIn(render, before.value.state, last) by { IsHeard(render, before.value, last); }
        LineIsExplained(render, before.value.state, lines[..n], last);
      }
    }
  }

  lemma AnonIsExplained()
    ensures Explained(Anon, [])
  {
  }

  lemma IsHeard(render: Message -> string, before: SessionView, h: Heard)
    requires before.AtLogin? && InputDone(render, Some(before), h.line, h.cycle, h.routing, h.asked, h.after)
    ensures HeardIn(render, before.state, h)
  {
    hide LineDone;
    assert before == AtLogin(before.state, before.history);
    assert LineDone(render, AtLogin(before.state, before.history), h.line, h.cycle, h.routing, h.asked, h.after);
  }

  /**
   * Whatever a client types from its greeting on: a password is only checked that is the very line after `login u`, for
   * that `u`; only a password typed twice after `register u` registers anything; puppets are listed, made and looked
   * up only for an account the backend gave this session, at a `new` or `play` line.
   */
  lemma WhatIsAskedWasTyped(render: Message -> string, lines: seq<Heard>, i: nat, a: Answer)
    requires Converses(render, Some(AtLogin(Anon, [])), lines) && i < |lines| && a in lines[i].asked
    ensures Grounds(a, lines[..i], lines[i])
  {
    hide Explained, Grounds, LineDone;
    var start := Some(AtLogin(Anon, []));
    ConversesUpTo(render, start, lines, i);
    ConversationExplained(render, lines[..i]);
    var before := Latest(start, lines[..i]);
    assert lines[i..][0] == lines[i];
    IsHeard(render, before.value, lines[i]);
    LineIsExplained(render, before.value.state, lines[..i], lines[i]);
  }
}
