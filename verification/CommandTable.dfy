/** The merged table: surviving commands in name order, and the one owner of each token. */
module CommandTables {
  import opened Wrappers
  import opened TextOrder
  import opened CommandSets
  import opened LineSyntax
  import opened TrieStore

  /** Every canonical name contributed. */
  function NamesIn(es: seq<Entry>): set<string> {
    set e | e in es :: e.command.name
  }

  function RowsFor(es: seq<Entry>, names: seq<string>): seq<Row> {
    if names == [] then []
    else
      var name := names[|names| - 1];
      RowsFor(es, names[..|names| - 1])
      + match Resolve(es, name) case None => [] case Some(row) => [row]
  }

  /** The surviving commands, in name order. */
  function Rows(es: seq<Entry>): seq<Row> {
    RowsFor(es, InOrder(NamesIn(es)))
  }

  function CommandsOf(rows: seq<Row>): seq<Command> {
    seq(|rows|, i requires 0 <= i < |rows| => rows[i].command)
  }

  /** How strongly a command claims a token. */
  datatype Rank = Rank(priority: int, canonical: bool, index: nat)

  predicate Above(a: Rank, b: Rank) {
    || a.priority > b.priority
    || (a.priority == b.priority && a.canonical && !b.canonical)
    || (a.priority == b.priority && a.canonical == b.canonical && a.index < b.index)
  }

  ghost predicate Claims(rows: seq<Row>, token: string, rank: Rank) {
    && rank.index < |rows| && rank.priority == rows[rank.index].priority
    && if rank.canonical then token == rows[rank.index].command.name else token in rows[rank.index].command.aliases
  }

  /** The claim on `token` that is above every other. */
  ghost predicate IsTopClaim(rows: seq<Row>, token: string, rank: Rank) {
    && Claims(rows, token, rank)
    && forall other | Claims(rows, token, other) && other != rank :: Above(rank, other)
  }

  ghost predicate Settled(rows: seq<Row>, owner: map<string, nat>) {
    && (forall token, rank | Claims(rows, token, rank) :: token in owner)
    && (forall token | token in owner :: exists rank :: IsTopClaim(rows, token, rank) && rank.index == owner[token])
  }

  lemma TopClaimIsUnique(rows: seq<Row>, token: string, a: Rank, b: Rank)
    requires IsTopClaim(rows, token, a) && IsTopClaim(rows, token, b)
    ensures a == b
  {
  }

  lemma SettledIsUnique(rows: seq<Row>, a: map<string, nat>, b: map<string, nat>)
    requires Settled(rows, a) && Settled(rows, b)
    ensures a == b
  {
    forall token | token in a ensures token in b && a[token] == b[token] {
      var rank :| IsTopClaim(rows, token, rank) && rank.index == a[token];
      var other :| IsTopClaim(rows, token, other) && other.index == b[token];
      TopClaimIsUnique(rows, token, rank, other);
    }
    forall token | token in b ensures token in a {
      var rank :| IsTopClaim(rows, token, rank) && rank.index == b[token];
    }
  }

  /** A token and one claim on it. */
  datatype Claim = Claim(token: string, rank: Rank)

  ghost predicate Leads(owner: map<string, Rank>, seen: set<Claim>) {
    && (forall claim | claim in seen ::
          claim.token in owner && (claim.rank == owner[claim.token] || Above(owner[claim.token], claim.rank)))
    && (forall token | token in owner :: Claim(token, owner[token]) in seen)
  }

  /** Records one claim, keeping the higher rank. */
  function WithClaim(owner: map<string, Rank>, token: string, rank: Rank): map<string, Rank> {
    if token in owner && !Above(rank, owner[token]) then owner else owner[token := rank]
  }

  lemma WithClaimLeads(owner: map<string, Rank>, seen: set<Claim>, token: string, rank: Rank)
    requires Leads(owner, seen)
    ensures Leads(WithClaim(owner, token, rank), seen + {Claim(token, rank)})
  {
  }

  ghost predicate SeenThrough(rows: seq<Row>, seen: set<Claim>, n: nat) {
    forall claim :: claim in seen <==> claim.rank.index < n && Claims(rows, claim.token, claim.rank)
  }

  /** The tokens of one command in claiming order: its name, then its aliases. */
  function TokensOf(command: Command): seq<Token> {
    [command.name] + command.aliases
  }

  ghost predicate SeenWithin(rows: seq<Row>, seen: set<Claim>, n: nat, k: nat)
    requires n < |rows| && k <= |TokensOf(rows[n].command)|
  {
    forall claim :: claim in seen <==>
      || (claim.rank.index < n && Claims(rows, claim.token, claim.rank))
      || (claim.rank.index == n && claim.rank.priority == rows[n].priority
          && exists j :: 0 <= j < k && TokensOf(rows[n].command)[j] == claim.token && claim.rank.canonical == (j == 0))
  }

  lemma SeenOneMore(rows: seq<Row>, seen: set<Claim>, n: nat, k: nat)
    requires n < |rows| && k < |TokensOf(rows[n].command)|
    requires SeenWithin(rows, seen, n, k)
    ensures SeenWithin(rows, seen + {Claim(TokensOf(rows[n].command)[k], Rank(rows[n].priority, k == 0, n))}, n, k + 1)
  {
  }

  lemma SeenRow(rows: seq<Row>, seen: set<Claim>, n: nat)
    requires n < |rows|
    ensures SeenThrough(rows, seen, n) ==> SeenWithin(rows, seen, n, 0)
    ensures SeenWithin(rows, seen, n, |TokensOf(rows[n].command)|) ==> SeenThrough(rows, seen, n + 1)
  {
    var tokens := TokensOf(rows[n].command);
    if SeenWithin(rows, seen, n, |tokens|) {
      forall claim: Claim
        ensures claim in seen <==> claim.rank.index < n + 1 && Claims(rows, claim.token, claim.rank)
      {
        if claim.rank.index == n && Claims(rows, claim.token, claim.rank) {
          if claim.rank.canonical {
            assert tokens[0] == claim.token;
          } else {
            var k :| 0 <= k < |rows[n].command.aliases| && rows[n].command.aliases[k] == claim.token;
            assert tokens[k + 1] == claim.token;
          }
        }
      }
    }
  }

  /** Gives each token to its strongest claim and indexes the outcome. */
  method SettleTokenOwnership(rows: seq<Row>) returns (trie: PrefixTrie)
    ensures fresh(trie) && fresh(trie.root) && fresh(trie.root.repr)
    ensures trie.Valid() && Settled(rows, trie.tokens)
  {
    hide *;
    ghost var seen: set<Claim> := {};
    var owner: map<string, Rank> := map[];
    NothingClaimed(rows);
    for n := 0 to |rows|
      invariant Leads(owner, seen) && SeenThrough(rows, seen, n)
    {
      var tokens := TokensOf(rows[n].command);
      SeenRow(rows, seen, n);
      for k := 0 to |tokens|
        invariant Leads(owner, seen) && SeenWithin(rows, seen, n, k)
      {
        var rank := Rank(rows[n].priority, k == 0, n);
        WithClaimLeads(owner, seen, tokens[k], rank);
        SeenOneMore(rows, seen, n, k);
        owner := WithClaim(owner, tokens[k], rank);
        seen := seen + {Claim(tokens[k], rank)};
      }
      SeenRow(rows, seen, n);
    }
    LeadersSettle(rows, owner, seen);
    trie := IndexTokens(owner);
  }

  lemma NothingClaimed(rows: seq<Row>)
    ensures Leads(map[], {}) && SeenThrough(rows, {}, 0)
  {
  }

  function Indices(owner: map<string, Rank>): map<string, nat> {
    map token | token in owner :: owner[token].index
  }

  predicate InKeys(tokens: seq<string>, owner: map<string, Rank>) {
    forall token | token in tokens :: token in owner
  }

  /** The indices of some of the tokens, added one by one. */
  function Added(owner: map<string, Rank>, tokens: seq<string>): map<string, nat>
    requires InKeys(tokens, owner)
  {
    if tokens == [] then map[]
    else
      var last := tokens[|tokens| - 1];
      Added(owner, tokens[..|tokens| - 1])[last := owner[last].index]
  }

  lemma AddedOneMore(owner: map<string, Rank>, tokens: seq<string>, n: nat)
    requires InKeys(tokens, owner) && n < |tokens|
    ensures InKeys(tokens[..n], owner) && InKeys(tokens[..n + 1], owner) && tokens[n] in owner
    ensures Added(owner, tokens[..n + 1]) == Added(owner, tokens[..n])[tokens[n] := owner[tokens[n]].index]
  {
    assert tokens[..n + 1][..n] == tokens[..n];
  }

  lemma {:induction false} AddedAre(owner: map<string, Rank>, tokens: seq<string>)
    requires InKeys(tokens, owner)
    ensures Added(owner, tokens) == map token | token in tokens :: owner[token].index
  {
    if tokens != [] {
      var n := |tokens| - 1;
      AddedAre(owner, tokens[..n]);
      assert tokens == tokens[..n] + [tokens[n]];
    }
  }

  method IndexTokens(owner: map<string, Rank>) returns (trie: PrefixTrie)
    ensures fresh(trie) && fresh(trie.root) && fresh(trie.root.repr)
    ensures trie.Valid() && trie.tokens == Indices(owner)
  {
    var tokens := InOrder(owner.Keys);
    AddedAre(owner, tokens);
    trie := InsertAll(owner, tokens);
  }

  method InsertAll(owner: map<string, Rank>, tokens: seq<string>) returns (trie: PrefixTrie)
    requires InKeys(tokens, owner)
    ensures fresh(trie) && fresh(trie.root) && fresh(trie.root.repr)
    ensures trie.Valid() && trie.tokens == Added(owner, tokens)
  {
    hide *;
    trie := new PrefixTrie();
    NothingAdded(owner, tokens);
    for n := 0 to |tokens|
      invariant fresh(trie) && fresh(trie.root) && fresh(trie.root.repr) && trie.Valid()
      invariant InKeys(tokens[..n], owner) && trie.tokens == Added(owner, tokens[..n])
    {
      AddedOneMore(owner, tokens, n);
      trie.Insert(tokens[n], owner[tokens[n]].index);
    }
    assert tokens[..|tokens|] == tokens;
  }

  lemma NothingAdded(owner: map<string, Rank>, tokens: seq<string>)
    ensures InKeys(tokens[..0], owner) && Added(owner, tokens[..0]) == map[]
  {
  }

  lemma LeadersSettle(rows: seq<Row>, owner: map<string, Rank>, seen: set<Claim>)
    requires Leads(owner, seen) && SeenThrough(rows, seen, |rows|)
    ensures Settled(rows, Indices(owner))
  {
    forall token, rank | Claims(rows, token, rank) ensures token in owner {
      assert Claim(token, rank) in seen;
    }
    forall token | token in owner ensures IsTopClaim(rows, token, owner[token]) {
      assert Claim(token, owner[token]) in seen;
      forall other | Claims(rows, token, other) && other != owner[token] ensures Above(owner[token], other) {
        assert Claim(token, other) in seen;
      }
    }
  }

  /** A table as a value. */
  datatype Table = Table(commands: seq<Command>, owner: map<string, nat>)

  ghost predicate IsMerge(sets: seq<CmdSet>, table: Table) {
    && table.commands == CommandsOf(Rows(Entries(sets)))
    && Settled(Rows(Entries(sets)), table.owner)
  }

  datatype ParseOutcome =
    | BlankLine
    | NotFound
    | Ambiguous(names: seq<Token>)
    | BadSwitch(error: SwitchError)
    | Matched(command: Command, switches: seq<Token>, args: string)

  ghost predicate InRange(table: Table) {
    forall token | token in table.owner :: table.owner[token] < |table.commands|
  }

  lemma ListedInRange(table: Table, token: string, listed: seq<nat>)
    requires InRange(table) && Scan(table.owner, token) == Prefix(listed)
    ensures forall k | 0 <= k < |listed| :: listed[k] < |table.commands|
    ensures token != [] ==> listed != []
  {
    forall k | 0 <= k < |listed| ensures listed[k] < |table.commands| {
      assert listed[k] in listed;
    }
    assert token != [] ==> TrieModel.Candidates(table.owner, token) != {};
    assert |listed| == |TrieModel.Candidates(table.owner, token)|;
  }

  function NamesAt(commands: seq<Command>, indices: seq<nat>): (names: seq<Token>)
    requires forall k | 0 <= k < |indices| :: indices[k] < |commands|
    ensures |names| == |indices| && forall k | 0 <= k < |names| :: names[k] == commands[indices[k]].name
  {
    if indices == [] then [] else [commands[indices[0]].name] + NamesAt(commands, indices[1..])
  }

  /** What a command token resolves to, by scanning the owned tokens. */
  ghost function Answer(table: Table, token: string, switches: seq<Token>, args: string): ParseOutcome
    requires InRange(table)
  {
    match Scan(table.owner, token)
    case NoMatch => NotFound
    case Exact(i) => Matched(table.commands[i], switches, args)
    case Prefix(listed) =>
      ListedInRange(table, token, listed);
      if |listed| == 1 then Matched(table.commands[listed[0]], switches, args) else Ambiguous(NamesAt(table.commands, listed))
  }

  /** The meaning of an input line; `fold` is the lowercasing of a head. */
  ghost function ParseLine(table: Table, fold: string -> string, line: string): ParseOutcome
    requires InRange(table)
  {
    var trimmed := Trim(line);
    if Head(trimmed) == [] then BlankLine
    else
      var segments := Segments(fold(Head(trimmed)));
      if segments[0] == [] then NotFound
      else
        match ParseSwitches(segments[1..])
        case Err(e) => BadSwitch(e)
        case Ok(switches) => Answer(table, segments[0], switches, Remainder(trimmed))
  }

  /** The line, however spaced, has this argument and a head that folds to this token and these segments. */
  ghost predicate Reads(fold: string -> string, line: string, token: string, segments: seq<string>, args: string) {
    && NoSlash(token) && (forall i | 0 <= i < |segments| :: NoSlash(segments[i]))
    && exists lead, head, gap, trail :: Spaced(line, lead, head, gap, args, trail)
         && head != [] && (forall c | c in head :: !IsSpace(c)) && fold(head) == Written(token, segments)
  }

  /** What such a line is answered: a slash first names nothing, then the first segment that is no switch is named for its fault. */
  ghost predicate AnswersHead(table: Table, token: string, segments: seq<string>, args: string, outcome: ParseOutcome)
    requires InRange(table)
  {
    && (token == [] ==> outcome == NotFound)
    && (token != [] && (forall i | 0 <= i < |segments| :: IsToken(segments[i])) ==> outcome == Answer(table, token, segments, args))
    && forall k | 0 <= k < |segments| && token != [] && (forall j | 0 <= j < k :: IsToken(segments[j])) && !IsToken(segments[k]) ::
         outcome.BadSwitch? && Faults(segments[k], outcome.error)
  }

  lemma ReadsAnswers(table: Table, fold: string -> string, line: string, token: string, segments: seq<string>, args: string)
    requires InRange(table) && Reads(fold, line, token, segments, args)
    ensures AnswersHead(table, token, segments, args, ParseLine(table, fold, line))
    ensures ParseLine(table, fold, line) != BlankLine && !AllSpace(line)
  {
    hide Answer, Trim, Head, Remainder, Segments, Faults;
    var lead, head, gap, trail :| Spaced(line, lead, head, gap, args, trail)
      && head != [] && (forall c | c in head :: !IsSpace(c)) && fold(head) == Written(token, segments);
    LineSplits(lead, head, gap, args, trail);
    WrittenSplits(token, segments);
    assert ([token] + segments)[1..] == segments;
    forall switches ensures Answer(table, token, switches, args) != BlankLine { AnswerIsNotBlank(table, token, switches, args); }
    if forall i | 0 <= i < |segments| :: IsToken(segments[i]) { SwitchesRead(segments); }
    forall k | 0 <= k < |segments| && token != [] && (forall j | 0 <= j < k :: IsToken(segments[j])) && !IsToken(segments[k])
      ensures ParseLine(table, fold, line).BadSwitch? && Faults(segments[k], ParseLine(table, fold, line).error)
    {
      FaultRead(segments, k);
    }
    assert line[|lead|] == head[0] && line[|lead|] in line;
  }

  lemma BlankIsBlank(table: Table, fold: string -> string, line: string)
    requires InRange(table) && AllSpace(line)
    ensures ParseLine(table, fold, line) == BlankLine
  {
    hide Answer;
    TrimKeepsCore(line, [], []);
    assert line + [] + [] == line;
  }

  lemma AnswerIsNotBlank(table: Table, token: string, switches: seq<Token>, args: string)
    requires InRange(table)
    ensures Answer(table, token, switches, args) != BlankLine
  {
  }

  /** Every line that is not all space has such a reading. */
  lemma EveryLineReads(fold: string -> string, line: string) returns (token: string, segments: seq<string>, args: string)
    ensures !AllSpace(line) ==> Reads(fold, line, token, segments, args)
  {
    hide Written, SkipSpace, DropSpace, HeadLength, Segments, IsSpace, NoSlash;
    segments, args, token := [], [], [];
    if AllSpace(line) {
      return;
    }
    var lead, text := Leading(line);
    var n := HeadLength(text);
    HeadStops(text);
    var head, after := text[..n], text[n..];
    var gap, core := Leading(after);
    var trail := Trailing(core);
    args := DropSpace(core);
    var parts := Segments(fold(head));
    token, segments := parts[0], parts[1..];
    SegmentsAreWritten(fold(head));
    SegmentsHaveNoSlash(fold(head));
    assert line == lead + head + gap + args + trail;
    if args != [] {
      assert core[0] == args[0];
      assert after[0] == (gap + core)[0];
    }
    assert Spaced(line, lead, head, gap, args, trail);
    assert head == [] ==> line == lead;
  }

  lemma LineMeans(table: Table, fold: string -> string, line: string)
    requires InRange(table)
    ensures ParseLine(table, fold, line) == BlankLine <==> AllSpace(line)
    ensures forall token, segments, args | Reads(fold, line, token, segments, args) ::
              AnswersHead(table, token, segments, args, ParseLine(table, fold, line))
  {
    hide AnswersHead, Answer, Reads, ParseLine;
    var token, segments, args := EveryLineReads(fold, line);
    if AllSpace(line) {
      BlankIsBlank(table, fold, line);
    } else {
      ReadsAnswers(table, fold, line, token, segments, args);
    }
    forall token, segments, args | Reads(fold, line, token, segments, args)
      ensures AnswersHead(table, token, segments, args, ParseLine(table, fold, line))
    {
      ReadsAnswers(table, fold, line, token, segments, args);
    }
  }

  class CommandTable {
    const commands: seq<Command>
    const trie: PrefixTrie

    constructor (commands: seq<Command>, trie: PrefixTrie)
      ensures this.commands == commands && this.trie == trie
    {
      this.commands := commands;
      this.trie := trie;
    }

    ghost predicate Valid()
      reads trie, trie.root, trie.root.repr
    {
      && trie.Valid()
      && forall token | token in trie.tokens :: trie.tokens[token] < |commands|
    }

    ghost function Value(): Table
      reads trie
    {
      Table(commands, trie.tokens)
    }

    /** By exact name or alias. */
    method Get(name: Token) returns (r: Option<Command>)
      requires Valid()
      ensures r == if name in Value().owner then Some(commands[Value().owner[name]]) else None
    {
      var found := trie.Lookup(name);
      match found
      case Exact(index) => r := Some(commands[index]);
      case _ => r := None;
    }

    /** Walks the trie for the leading token; the answers for dangling indices are never given. */
    method Parse(fold: string -> string, line: string) returns (outcome: ParseOutcome)
      requires Valid()
      ensures outcome == ParseLine(Value(), fold, line)
      ensures outcome == BlankLine <==> AllSpace(line)
      ensures forall token, segments, args | Reads(fold, line, token, segments, args) ::
                AnswersHead(Value(), token, segments, args, outcome)
    {
      LineMeans(Value(), fold, line);
      var trimmed := Trim(line);
      var head := Head(trimmed);
      if head == [] {
        return BlankLine;
      }
      var args := Remainder(trimmed);
      var segments := Segments(fold(head));
      var token := segments[0];
      if token == [] {
        return NotFound;
      }
      var switches: seq<Token> := [];
      var given := segments[1..];
      for n := 0 to |given|
        invariant ParseSwitches(given[..n]) == Ok(switches)
      {
        assert given[..n + 1][..n] == given[..n];
        match ParseSwitch(given[n])
        case Err(e) =>
          FirstErrorWins(given, n + 1);
          return BadSwitch(e);
        case Ok(switch) =>
          switches := switches + [switch];
      }
      assert given[..|given|] == given;
      outcome := MatchToken(token, switches, args);
    }

    method MatchToken(token: string, switches: seq<Token>, args: string) returns (outcome: ParseOutcome)
      requires Valid() && token != []
      ensures outcome == Answer(Value(), token, switches, args)
    {
      var found := trie.Lookup(token);
      match found
      case Exact(index) =>
        outcome := Matched(commands[index], switches, args);
      case Prefix(indices) =>
        ListedInRange(Value(), token, indices);
        if |indices| == 0 {
          assert false;
          outcome := NotFound;
        } else if |indices| == 1 {
          outcome := Matched(commands[indices[0]], switches, args);
        } else {
          outcome := Ambiguous(NamesAt(commands, indices));
        }
      case NoMatch =>
        outcome := NotFound;
    }
  }

  lemma {:induction false} FirstErrorWins(segments: seq<string>, n: nat)
    requires n <= |segments| && ParseSwitches(segments[..n]).Err?
    ensures ParseSwitches(segments) == ParseSwitches(segments[..n])
    decreases |segments| - n
  {
    if n == |segments| {
      assert segments[..n] == segments;
    } else {
      assert segments[..n + 1][..n] == segments[..n];
      FirstErrorWins(segments, n + 1);
    }
  }

  method Merge(sets: seq<CmdSet>) returns (table: CommandTable)
    ensures fresh(table) && fresh(table.trie) && table.Valid()
    ensures IsMerge(sets, table.Value())
  {
    hide Settled, Entries, Resolve, PrefixTrie.Valid;
    ghost var es := Entries(sets);
    var names := CollectNames(sets);
    var rows := ResolveAll(sets, InOrder(names));
    var trie := SettleTokenOwnership(rows);
    SettledInRange(rows, trie.tokens);
    table := new CommandTable(CommandsOf(rows), trie);
  }

  method ResolveAll(sets: seq<CmdSet>, names: seq<string>) returns (rows: seq<Row>)
    ensures rows == RowsFor(Entries(sets), names)
  {
    hide Entries, Resolve;
    rows := [];
    for n := 0 to |names|
      invariant rows == RowsFor(Entries(sets), names[..n])
    {
      assert names[..n + 1][..n] == names[..n];
      var row := ResolveName(sets, names[n]);
      if row.Some? {
        rows := rows + [row.value];
      } else {
        assert rows + [] == rows;
      }
    }
    assert names[..|names|] == names;
  }

  lemma SettledInRange(rows: seq<Row>, owner: map<string, nat>)
    requires Settled(rows, owner)
    ensures forall token | token in owner :: owner[token] < |rows| && IsToken(token)
  {
    forall token | token in owner ensures owner[token] < |rows| && IsToken(token) {
      var rank :| IsTopClaim(rows, token, rank) && rank.index == owner[token];
      assert Claims(rows, token, rank);
      var command := rows[rank.index].command;
      if !rank.canonical { var k :| 0 <= k < |command.aliases| && command.aliases[k] == token; }
    }
  }

  method CollectNames(sets: seq<CmdSet>) returns (names: set<string>)
    ensures names == NamesIn(Entries(sets))
  {
    hide Entries, NamesIn;
    names := {};
    NoNames(sets);
    for s := 0 to |sets|
      invariant names == NamesIn(Entries(sets[..s]))
    {
      var group := sets[s];
      ghost var es, more := Entries(sets[..s]), EntriesOf(group);
      EntriesContinue(sets, s);
      assert es + more[..0] == es;
      for c := 0 to |group.commands|
        invariant names == NamesIn(es + more[..c])
      {
        assert es + more[..c + 1] == (es + more[..c]) + [more[c]];
        NamesInGrows(es + more[..c], more[c]);
        names := names + {group.commands[c].name};
      }
      assert more[..|group.commands|] == more;
    }
    assert sets[..|sets|] == sets;
  }

  lemma NoNames(sets: seq<CmdSet>)
    ensures NamesIn(Entries(sets[..0])) == {}
  {
  }

  lemma NamesInGrows(es: seq<Entry>, e: Entry)
    ensures NamesIn(es + [e]) == NamesIn(es) + {e.command.name}
  {
    forall name | name in NamesIn(es) + {e.command.name} ensures name in NamesIn(es + [e]) {
      if name == e.command.name {
        assert e in es + [e];
      } else {
        var x :| x in es && x.command.name == name;
        assert x in es + [e];
      }
    }
  }
}
