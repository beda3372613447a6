/** What a merge and a lookup promise, over every set of sources and every line. */
module MergeMeaning {
  import opened Wrappers
  import opened TextOrder
  import opened CommandSets
  import opened LineSyntax
  import opened CommandTables
  import opened TrieModel
  import Ascending

  lemma ResolvedHasTheName(es: seq<Entry>, name: string)
    requires Resolve(es, name).Some?
    ensures Resolve(es, name).value.command.name == name && name in NamesIn(es)
  {
    ResolvedByPrecedence(es, name);
    var i: nat :| Wins(es, name, i) && Resolve(es, name) == Some(Row(es[i].priority, es[i].command));
    assert es[i] in es;
  }

  ghost predicate NamesIncrease(rows: seq<Row>) {
    forall i, j | 0 <= i < j < |rows| :: Less(rows[i].command.name, rows[j].command.name)
  }

  lemma {:induction false} RowsForAreResolved(es: seq<Entry>, names: seq<string>)
    requires Increasing(names)
    ensures NamesIncrease(RowsFor(es, names))
    ensures forall row | row in RowsFor(es, names) :: row.command.name in names && Resolve(es, row.command.name) == Some(row)
    ensures forall name | name in names && Resolve(es, name).Some? :: Resolve(es, name).value in RowsFor(es, names)
    decreases |names|
  {
    hide Resolve;
    if names != [] {
      var n := |names| - 1;
      RowsForAreResolved(es, names[..n]);
      var name, front := names[n], RowsFor(es, names[..n]);
      if Resolve(es, name).Some? {
        ResolvedHasTheName(es, name);
        forall i | 0 <= i < |front| ensures Less(front[i].command.name, name) {
          assert front[i] in front;
          var k :| 0 <= k < n && names[k] == front[i].command.name;
        }
      }
      assert names == names[..n] + [name];
    }
  }

  /** The rows are exactly the names that resolve, each once, in name order. */
  lemma RowsAreTheResolved(es: seq<Entry>)
    ensures NamesIncrease(Rows(es))
    ensures forall row :: row in Rows(es) <==> Resolve(es, row.command.name) == Some(row)
  {
    RowsForAreResolved(es, InOrder(NamesIn(es)));
    forall row: Row | Resolve(es, row.command.name) == Some(row) ensures row in Rows(es) {
      ResolvedHasTheName(es, row.command.name);
    }
  }

  lemma NamedByKind(es: seq<Entry>, name: string)
    ensures name in NamesIn(es) <==> Best(es, Union, name).Some? || Best(es, Replace, name).Some? || Best(es, Remove, name).Some?
  {
    hide Best;
    forall kind ensures Best(es, kind, name).Some? <==> exists e :: e in es && e.Is(kind, name) {
      BestIsFirstHighest(es, kind, name);
      if Best(es, kind, name).Some? {
        var i: nat :| IsFirstHighest(es, kind, name, i);
        assert es[i] in es && es[i].Is(kind, name);
      }
    }
    if name in NamesIn(es) {
      var e :| e in es && e.command.name == name;
      assert e.Is(e.mergeType, name);
      assert Best(es, e.mergeType, name).Some?;
    }
  }

  lemma SameName(a: seq<CmdSet>, b: seq<CmdSet>, name: string)
    requires SameLevels(a, b)
    ensures name in NamesIn(Entries(a)) <==> name in NamesIn(Entries(b))
  {
    hide *;
    NamedByKind(Entries(a), name);
    NamedByKind(Entries(b), name);
    BestDependsOnLevels(a, b, Union, name);
    BestDependsOnLevels(a, b, Replace, name);
    BestDependsOnLevels(a, b, Remove, name);
  }

  /** Merging is settled by precedence: only the order among sets of equal priority can matter. */
  lemma MergeDependsOnLevels(a: seq<CmdSet>, b: seq<CmdSet>, first: Table, second: Table)
    requires SameLevels(a, b) && IsMerge(a, first) && IsMerge(b, second)
    ensures first == second
  {
    hide NamesIn, Entries, SameLevels, RowsFor, Settled;
    forall name ensures name in NamesIn(Entries(a)) <==> name in NamesIn(Entries(b)) {
      SameName(a, b, name);
    }
    assert NamesIn(Entries(a)) == NamesIn(Entries(b));
    SameRows(a, b, InOrder(NamesIn(Entries(a))));
    SettledIsUnique(Rows(Entries(a)), first.owner, second.owner);
  }

  lemma {:induction false} SameRows(a: seq<CmdSet>, b: seq<CmdSet>, names: seq<string>)
    requires SameLevels(a, b)
    ensures RowsFor(Entries(a), names) == RowsFor(Entries(b), names)
    decreases |names|
  {
    hide Resolve, Entries, SameLevels;
    if names != [] {
      SameRows(a, b, names[..|names| - 1]);
      ResolveDependsOnLevels(a, b, names[|names| - 1]);
    }
  }

  /** A command of higher priority that answers to this name as an alias. */
  ghost predicate Shadows(rows: seq<Row>, j: nat, i: nat) {
    && i < |rows| && j < |rows|
    && rows[j].priority > rows[i].priority && rows[i].command.name in rows[j].command.aliases
  }

  ghost predicate IsShadowed(rows: seq<Row>, i: nat) {
    exists j: nat :: Shadows(rows, j, i)
  }

  lemma OwnClaimIsTop(rows: seq<Row>, i: nat, top: Rank)
    requires i < |rows| && NamesIncrease(rows)
    requires IsTopClaim(rows, rows[i].command.name, top)
    ensures top.index == i <==> !IsShadowed(rows, i)
  {
    var name, own := rows[i].command.name, Rank(rows[i].priority, true, i);
    assert Claims(rows, name, own);
    if IsShadowed(rows, i) {
      var j: nat :| Shadows(rows, j, i);
      var taken := Rank(rows[j].priority, false, j);
      assert Claims(rows, name, taken);
      assert top == taken || Above(top, taken);
    } else {
      forall other | Claims(rows, name, other) && other != own ensures Above(own, other) {
        var j := other.index;
        if other.canonical {
          if i < j { LessIsStrict(name, name); } else if j < i { LessIsStrict(name, name); }
        } else {
          assert !Shadows(rows, j, i);
        }
      }
      TopClaimIsUnique(rows, name, top, own);
    }
  }

  /** A surviving command answers to its own name unless, and only unless, a higher-priority one takes it as an alias. */
  lemma OwnNameUnlessShadowed(sets: seq<CmdSet>, table: Table, i: nat)
    requires IsMerge(sets, table) && i < |table.commands|
    ensures var name := table.commands[i].name;
            && name in table.owner
            && (table.owner[name] == i <==> !IsShadowed(Rows(Entries(sets)), i))
  {
    hide Rows, Entries;
    var rows := Rows(Entries(sets));
    RowsAreTheResolved(Entries(sets));
    var name := rows[i].command.name;
    assert Claims(rows, name, Rank(rows[i].priority, true, i));
    assert name == table.commands[i].name && name in table.owner;
    var top :| IsTopClaim(rows, name, top) && top.index == table.owner[name];
    OwnClaimIsTop(rows, i, top);
  }

  const LOOK := Command("look", [], [])
  const SPY := Command("spy", ["look"], [])
  const SHADOWING: seq<CmdSet> := [CmdSet("far", 10, Union, [SPY]), CmdSet("near", 0, Union, [LOOK])]

  /** Asking these sets for `look` by its exact name gives `spy`, although `look` survives the merge. */
  lemma NameCanBeShadowed(table: Table)
    requires IsMerge(SHADOWING, table)
    ensures exists i :: 0 <= i < |table.commands| && table.commands[i] == LOOK && "look" in table.owner && table.owner["look"] != i
  {
    var es := Entries(SHADOWING);
    TwoEntries();
    RowsAreTheResolved(es);
    assert Row(10, SPY) in Rows(es) && Row(0, LOOK) in Rows(es);
    var i :| 0 <= i < |Rows(es)| && Rows(es)[i] == Row(0, LOOK);
    var j :| 0 <= j < |Rows(es)| && Rows(es)[j] == Row(10, SPY);
    OwnNameUnlessShadowed(SHADOWING, table, i);
    assert SPY.aliases[0] == "look";
    assert Shadows(Rows(es), j, i);
  }

  lemma TwoEntries()
    ensures Resolve(Entries(SHADOWING), "look") == Some(Row(0, LOOK))
    ensures Resolve(Entries(SHADOWING), "spy") == Some(Row(10, SPY))
  {
    var spy, look := Entry(Union, 10, SPY), Entry(Union, 0, LOOK);
    assert SHADOWING[..1] == [SHADOWING[0]] && SHADOWING[..1][..0] == [];
    assert Entries(SHADOWING[..1]) == [spy];
    assert Entries(SHADOWING) == [spy] + [look];
    assert "spy" != "look";
    forall kind, name
      ensures Best([spy], kind, name) == if spy.Is(kind, name) then Some(Row(10, SPY)) else None
    {
      assert [] + [spy] == [spy];
      BestGrows([], spy, kind, name);
    }
    forall kind, name { BestGrows([spy], look, kind, name); }
  }

  /** Matched when the token is owned or starts the tokens of one command only; ambiguous between those it starts; else not found. */
  lemma AnswerIsTheScan(table: Table, token: string, switches: seq<Token>, args: string)
    requires InRange(table) && token != []
    ensures var answer := Answer(table, token, switches, args);
            var started := Candidates(table.owner, token);
            && (answer.NotFound? <==> started == {})
            && (answer.Matched? <==> token in table.owner || |started| == 1)
            && (token in table.owner ==> answer == Matched(table.commands[table.owner[token]], switches, args))
            && (answer.Matched? && token !in table.owner ==>
                  forall i | i in started :: answer == Matched(table.commands[i], switches, args))
            && (answer.Ambiguous? ==> forall i | i in started :: table.commands[i].name in answer.names)
            && (answer.Ambiguous? ==> |answer.names| == |started| && forall n | n in answer.names ::
                  exists i :: i in started && i < |table.commands| && table.commands[i].name == n)
            && !answer.BlankLine? && !answer.BadSwitch?
  {
    var started := Candidates(table.owner, token);
    if token in table.owner {
      assert table.owner[token] in started;
    } else if started != {} {
      var listed := Ascending.Listing(started);
      ListedInRange(table, token, listed);
      if |listed| == 1 {
        forall i | i in started ensures i == listed[0] { assert i in listed; }
      } else {
        ListedNames(table.commands, started);
      }
    }
  }

  lemma ListedNames(commands: seq<Command>, started: set<nat>)
    requires forall k | 0 <= k < |Ascending.Listing(started)| :: Ascending.Listing(started)[k] < |commands|
    ensures var names := NamesAt(commands, Ascending.Listing(started));
            && |names| == |started|
            && (forall i | i in started :: i < |commands| && commands[i].name in names)
            && (forall n | n in names :: exists i :: i in started && i < |commands| && commands[i].name == n)
  {
    var listed := Ascending.Listing(started);
    var names := NamesAt(commands, listed);
    forall i | i in started ensures i < |commands| && commands[i].name in names {
      assert i in listed;
      var k :| 0 <= k < |listed| && listed[k] == i;
      assert names[k] == commands[i].name;
    }
    forall n | n in names ensures exists i :: i in started && i < |commands| && commands[i].name == n {
      var k :| 0 <= k < |names| && names[k] == n;
      assert listed[k] in listed;
    }
  }

  /** An ambiguity names its commands in name order, each once. */
  lemma AmbiguityIsInNameOrder(sets: seq<CmdSet>, table: Table, token: string, switches: seq<Token>, args: string)
    requires IsMerge(sets, table) && InRange(table) && token != []
    requires Answer(table, token, switches, args).Ambiguous?
    ensures Increasing(Answer(table, token, switches, args).names)
  {
    hide Rows, Entries, Settled, Candidates;
    RowsAreTheResolved(Entries(sets));
    var listed := Ascending.Listing(Candidates(table.owner, token));
    ListedInRange(table, token, listed);
    NamesAtIncrease(Rows(Entries(sets)), listed);
  }

  lemma NamesAtIncrease(rows: seq<Row>, listed: seq<nat>)
    requires NamesIncrease(rows)
    requires forall k | 0 <= k < |listed| :: listed[k] < |rows|
    requires forall i, j | 0 <= i < j < |listed| :: listed[i] < listed[j]
    ensures Increasing(NamesAt(CommandsOf(rows), listed))
  {
    var names := NamesAt(CommandsOf(rows), listed);
    forall i, j | 0 <= i < j < |names| ensures Less(names[i], names[j]) {
      assert listed[i] < listed[j];
    }
  }

  /** A command typed with its switches and argument means that command, however the line is spaced and the head capitalised. */
  lemma TypedLineIsAnswered(table: Table, fold: string -> string, lead: string, head: string, gap: string, args: string, trail: string,
                            token: Token, switches: seq<Token>)
    requires InRange(table)
    requires AllSpace(lead) && AllSpace(gap) && AllSpace(trail)
    requires head != [] && forall c | c in head :: !IsSpace(c)
    requires args != [] ==> gap != [] && !IsSpace(args[0]) && !IsSpace(args[|args| - 1])
    requires fold(head) == Written(token, switches)
    ensures ParseLine(table, fold, lead + head + gap + args + trail) == Answer(table, token, switches, args)
  {
    var line := lead + head + gap + args + trail;
    assert Spaced(line, lead, head, gap, args, trail);
    assert NoSlash(token) && forall i | 0 <= i < |switches| :: IsToken(switches[i]) && NoSlash(switches[i]);
    ReadsAnswers(table, fold, line, token, switches, args);
  }
}
