/** Prioritised command sets, and which command each name ends up with when they merge. */
module CommandSets {
  import opened Wrappers

  predicate IsTokenChar(c: char) {
    'a' <= c <= 'z' || '0' <= c <= '9' || c == '_' || c == '-'
  }

  predicate IsToken(s: string) {
    s != [] && forall c :: c in s ==> IsTokenChar(c)
  }

  type Token = s: string | IsToken(s) witness "a"

  datatype Command = Command(name: Token, aliases: seq<Token>, switches: seq<Token>)
  datatype MergeType = Union | Replace | Remove
  datatype CmdSet = CmdSet(key: Token, priority: int, mergeType: MergeType, commands: seq<Command>)

  /** One command as one set contributes it. */
  datatype Entry = Entry(mergeType: MergeType, priority: int, command: Command) {
    predicate Is(kind: MergeType, name: string) {
      mergeType == kind && command.name == name
    }
  }

  /** A surviving command with the priority that won it its name. */
  datatype Row = Row(priority: int, command: Command)

  function EntriesOf(group: CmdSet): seq<Entry> {
    seq(|group.commands|, i requires 0 <= i < |group.commands| =>
      Entry(group.mergeType, group.priority, group.commands[i]))
  }

  function Entries(sets: seq<CmdSet>): seq<Entry> {
    if sets == [] then [] else Entries(sets[..|sets| - 1]) + EntriesOf(sets[|sets| - 1])
  }

  /** Equal priorities keep the earlier winner. */
  function KeepHigher(best: Option<Row>, candidate: Row): Option<Row> {
    if best.None? || candidate.priority > best.value.priority then Some(candidate) else best
  }

  function Best(es: seq<Entry>, kind: MergeType, name: string): Option<Row> {
    if es == [] then None
    else
      var earlier, e := Best(es[..|es| - 1], kind, name), es[|es| - 1];
      if e.Is(kind, name) then KeepHigher(earlier, Row(e.priority, e.command)) else earlier
  }

  function Resolve(es: seq<Entry>, name: string): Option<Row> {
    if Best(es, Remove, name).Some? then None
    else if Best(es, Replace, name).Some? then Best(es, Replace, name)
    else Best(es, Union, name)
  }

  lemma BestGrows(es: seq<Entry>, e: Entry, kind: MergeType, name: string)
    ensures Best(es + [e], kind, name)
         == if e.Is(kind, name) then KeepHigher(Best(es, kind, name), Row(e.priority, e.command)) else Best(es, kind, name)
  {
    assert (es + [e])[..|es|] == es;
  }

  lemma BestGrowsPast(es: seq<Entry>, kind: MergeType, name: string, n: nat)
    requires n < |es|
    ensures Best(es[..n + 1], kind, name)
         == if es[n].Is(kind, name) then KeepHigher(Best(es[..n], kind, name), Row(es[n].priority, es[n].command))
            else Best(es[..n], kind, name)
  {
    BestGrows(es[..n], es[n], kind, name);
    assert es[..n + 1] == es[..n] + [es[n]];
  }

  lemma NothingYet(sets: seq<CmdSet>, name: string)
    ensures Entries(sets[..0]) == []
    ensures forall kind :: Best([], kind, name) == None
  {
  }

  method ResolveName(sets: seq<CmdSet>, name: string) returns (r: Option<Row>)
    ensures r == Resolve(Entries(sets), name)
  {
    hide Best, Entries;
    var bestUnion, bestReplace := None, None;
    ghost var es := Entries(sets);
    assert es[..0] == Entries(sets[..0]) == [] by { NothingYet(sets, name); }
    NothingYet(sets, name);
    ghost var done := 0;
    for s := 0 to |sets|
      invariant done == |Entries(sets[..s])| <= |es| && es[..done] == Entries(sets[..s])
      invariant bestUnion == Best(es[..done], Union, name)
      invariant bestReplace == Best(es[..done], Replace, name)
      invariant Best(es[..done], Remove, name) == None
    {
      var group := sets[s];
      ghost var start := done;
      EntriesContinue(sets, s);
      for c := 0 to |group.commands|
        invariant done == start + c <= |es|
        invariant bestUnion == Best(es[..done], Union, name)
        invariant bestReplace == Best(es[..done], Replace, name)
        invariant Best(es[..done], Remove, name) == None
      {
        var command := group.commands[c];
        assert es[done] == es[start..start + |group.commands|][c] == Entry(group.mergeType, group.priority, command);
        BestGrowsPast(es, Union, name, done);
        BestGrowsPast(es, Replace, name, done);
        BestGrowsPast(es, Remove, name, done);
        done := done + 1;
        if command.name != name {
          continue;
        }
        match group.mergeType
        case Remove =>
          BestPersists(es, Remove, name, done);
          return None;
        case Replace => bestReplace := KeepHigher(bestReplace, Row(group.priority, command));
        case Union => bestUnion := KeepHigher(bestUnion, Row(group.priority, command));
      }
    }
    assert sets[..|sets|] == sets && es[..|es|] == es;
    return if bestReplace.Some? then bestReplace else bestUnion;
  }

  lemma EntriesContinue(sets: seq<CmdSet>, s: nat)
    requires s < |sets|
    ensures var start := |Entries(sets[..s])|;
            && start + |sets[s].commands| <= |Entries(sets)|
            && Entries(sets)[start..start + |sets[s].commands|] == EntriesOf(sets[s])
            && Entries(sets[..s + 1]) == Entries(sets[..s]) + EntriesOf(sets[s])
            && Entries(sets)[..start + |sets[s].commands|] == Entries(sets[..s + 1])
  {
    assert sets[..s + 1][..s] == sets[..s];
    EntriesPrefix(sets, s + 1);
  }

  lemma {:induction false} EntriesPrefix(sets: seq<CmdSet>, n: nat)
    requires n <= |sets|
    ensures Entries(sets[..n]) <= Entries(sets)
    decreases |sets| - n
  {
    if n == |sets| {
      assert sets[..n] == sets;
    } else {
      assert sets[..n + 1][..n] == sets[..n];
      EntriesPrefix(sets, n + 1);
    }
  }

  lemma {:induction false} BestPersists(es: seq<Entry>, kind: MergeType, name: string, n: nat)
    requires n <= |es| && Best(es[..n], kind, name).Some?
    ensures Best(es, kind, name).Some?
    decreases |es| - n
  {
    if n == |es| {
      assert es[..n] == es;
    } else {
      BestGrowsPast(es, kind, name, n);
      BestPersists(es, kind, name, n + 1);
    }
  }

  // Precedence, stated over all entries at once.

  /** Entry `i` beats entry `j` for a name both carry: Replace over Union, then priority, then the earlier one. */
  predicate Outranks(es: seq<Entry>, i: nat, j: nat)
    requires i < |es| && j < |es|
  {
    || (es[i].mergeType.Replace? && es[j].mergeType.Union?)
    || (es[i].mergeType == es[j].mergeType
        && (es[i].priority > es[j].priority || (es[i].priority == es[j].priority && i < j)))
  }

  ghost predicate Wins(es: seq<Entry>, name: string, i: nat) {
    && i < |es| && es[i].command.name == name
    && forall j | 0 <= j < |es| && es[j].command.name == name ::
         !es[j].mergeType.Remove? && (j != i ==> Outranks(es, i, j))
  }

  ghost predicate IsFirstHighest(es: seq<Entry>, kind: MergeType, name: string, i: nat) {
    && i < |es| && es[i].Is(kind, name)
    && forall j | 0 <= j < |es| && es[j].Is(kind, name) && j != i ::
         es[i].priority > es[j].priority || (es[i].priority == es[j].priority && i < j)
  }

  lemma {:induction false} BestIsFirstHighest(es: seq<Entry>, kind: MergeType, name: string)
    ensures Best(es, kind, name).None? ==> forall j | 0 <= j < |es| :: !es[j].Is(kind, name)
    ensures Best(es, kind, name).Some? ==>
              exists i: nat :: IsFirstHighest(es, kind, name, i) && Best(es, kind, name) == Some(Row(es[i].priority, es[i].command))
    decreases |es|
  {
    if es != [] {
      var last := |es| - 1;
      var front := es[..last];
      BestIsFirstHighest(front, kind, name);
      if Best(front, kind, name).Some? {
        var i: nat :| IsFirstHighest(front, kind, name, i) && Best(front, kind, name) == Some(Row(front[i].priority, front[i].command));
        var winner: nat := if es[last].Is(kind, name) && es[last].priority > es[i].priority then last else i;
        forall j | 0 <= j < |es| && es[j].Is(kind, name) && j != winner
          ensures es[winner].priority > es[j].priority || (es[winner].priority == es[j].priority && winner < j)
        {
          if j < last { assert front[j].Is(kind, name); }
        }
        assert IsFirstHighest(es, kind, name, winner);
      } else {
        forall j | 0 <= j < last ensures !es[j].Is(kind, name) { assert !front[j].Is(kind, name); }
        if es[last].Is(kind, name) { assert IsFirstHighest(es, kind, name, last); }
      }
    }
  }

  /** A name goes to the one entry that beats every other; it goes to none when removed or never contributed. */
  lemma ResolvedByPrecedence(es: seq<Entry>, name: string)
    ensures Resolve(es, name).Some? ==> exists i: nat :: Wins(es, name, i) && Resolve(es, name) == Some(Row(es[i].priority, es[i].command))
    ensures Resolve(es, name).None? ==> forall i: nat :: !Wins(es, name, i)
    ensures forall i: nat, j: nat :: Wins(es, name, i) && Wins(es, name, j) ==> i == j
  {
    BestIsFirstHighest(es, Remove, name);
    BestIsFirstHighest(es, Replace, name);
    BestIsFirstHighest(es, Union, name);
    hide Best;
    if Resolve(es, name).Some? {
      var kind := if Best(es, Replace, name).Some? then Replace else Union;
      var i: nat :| IsFirstHighest(es, kind, name, i) && Resolve(es, name) == Some(Row(es[i].priority, es[i].command));
      assert Wins(es, name, i);
    }
  }

  // The outcome depends on each priority level alone.

  function SetsAt(sets: seq<CmdSet>, p: int): seq<CmdSet> {
    if sets == [] then []
    else
      SetsAt(sets[..|sets| - 1], p) + if sets[|sets| - 1].priority == p then [sets[|sets| - 1]] else []
  }

  function FirstAt(es: seq<Entry>, kind: MergeType, name: string, p: int): Option<Command> {
    if es == [] then None
    else if FirstAt(es[..|es| - 1], kind, name, p).Some? then FirstAt(es[..|es| - 1], kind, name, p)
    else if es[|es| - 1].Is(kind, name) && es[|es| - 1].priority == p then Some(es[|es| - 1].command)
    else None
  }

  lemma {:induction false} BestByLevels(es: seq<Entry>, kind: MergeType, name: string)
    ensures match Best(es, kind, name)
            case None => forall p :: FirstAt(es, kind, name, p).None?
            case Some(row) =>
              && FirstAt(es, kind, name, row.priority) == Some(row.command)
              && forall p | p > row.priority :: FirstAt(es, kind, name, p).None?
    decreases |es|
  {
    if es != [] {
      BestByLevels(es[..|es| - 1], kind, name);
    }
  }

  lemma {:induction false} FirstAtConcat(a: seq<Entry>, b: seq<Entry>, kind: MergeType, name: string, p: int)
    ensures FirstAt(a + b, kind, name, p)
         == if FirstAt(a, kind, name, p).Some? then FirstAt(a, kind, name, p) else FirstAt(b, kind, name, p)
    decreases |b|
  {
    if b == [] {
      assert a + b == a;
    } else {
      assert (a + b)[..|a + b| - 1] == a + b[..|b| - 1];
      FirstAtConcat(a, b[..|b| - 1], kind, name, p);
    }
  }

  lemma {:induction false} FirstAtOtherLevel(es: seq<Entry>, kind: MergeType, name: string, p: int)
    requires forall e :: e in es ==> e.priority != p
    ensures FirstAt(es, kind, name, p) == None
    decreases |es|
  {
    if es != [] {
      FirstAtOtherLevel(es[..|es| - 1], kind, name, p);
    }
  }

  lemma {:induction false} FirstAtIgnoresOtherLevels(sets: seq<CmdSet>, kind: MergeType, name: string, p: int)
    ensures FirstAt(Entries(sets), kind, name, p) == FirstAt(Entries(SetsAt(sets, p)), kind, name, p)
    decreases |sets|
  {
    if sets != [] {
      var front, last := sets[..|sets| - 1], sets[|sets| - 1];
      FirstAtIgnoresOtherLevels(front, kind, name, p);
      FirstAtConcat(Entries(front), EntriesOf(last), kind, name, p);
      var kept := SetsAt(front, p);
      if last.priority == p {
        assert (kept + [last])[..|kept|] == kept;
        FirstAtConcat(Entries(kept), EntriesOf(last), kind, name, p);
      } else {
        assert kept + [] == kept;
        FirstAtOtherLevel(EntriesOf(last), kind, name, p);
      }
    }
  }

  ghost predicate SameLevels(a: seq<CmdSet>, b: seq<CmdSet>) {
    forall p :: SetsAt(a, p) == SetsAt(b, p)
  }

  lemma SameAtLevel(a: seq<CmdSet>, b: seq<CmdSet>, p: int)
    requires SameLevels(a, b)
    ensures SetsAt(a, p) == SetsAt(b, p)
  {
  }

  lemma BestDependsOnLevels(a: seq<CmdSet>, b: seq<CmdSet>, kind: MergeType, name: string)
    requires SameLevels(a, b)
    ensures Best(Entries(a), kind, name) == Best(Entries(b), kind, name)
  {
    hide *;
    forall p ensures FirstAt(Entries(a), kind, name, p) == FirstAt(Entries(b), kind, name, p) {
      SameAtLevel(a, b, p);
      FirstAtIgnoresOtherLevels(a, kind, name, p);
      FirstAtIgnoresOtherLevels(b, kind, name, p);
    }
    BestByLevels(Entries(a), kind, name);
    BestByLevels(Entries(b), kind, name);
  }

  /** Any reordering that keeps the order among sets of equal priority resolves every name alike. */
  lemma ResolveDependsOnLevels(a: seq<CmdSet>, b: seq<CmdSet>, name: string)
    requires SameLevels(a, b)
    ensures Resolve(Entries(a), name) == Resolve(Entries(b), name)
  {
    BestDependsOnLevels(a, b, Remove, name);
    BestDependsOnLevels(a, b, Replace, name);
    BestDependsOnLevels(a, b, Union, name);
  }
}
