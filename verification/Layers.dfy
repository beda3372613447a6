/** The command sources of one caller, merged under a fixed order of precedence. */
module Layers {
  import opened Wrappers
  import opened CommandSets
  import opened CommandTables
  import MergeMeaning

  const ACCOUNT := 50
  const PUPPET := 40
  const CONTAINER := 30
  const LOCATION := 20
  const CHANNEL := 10
  const BUILTIN := 0

  /** Containers are innermost first. */
  datatype LayerCommands = LayerCommands(
    account: seq<Command>, puppet: seq<Command>, containers: seq<seq<Command>>,
    location: seq<Command>, channels: seq<Command>, builtins: seq<Command>)

  method PushLayer(sets: seq<CmdSet>, key: Token, level: int, commands: seq<Command>) returns (r: seq<CmdSet>)
    ensures Entries(r) == Entries(sets) + Layer(level, commands)
    ensures forall g | g in r :: g in sets || g.priority == level
    ensures |sets| <= |r| && r[..|sets|] == sets
  {
    if commands == [] {
      assert Layer(level, []) == [];
      return sets;
    }
    r := sets + [CmdSet(key, level, Union, commands)];
    assert r[..|sets|] == sets;
  }

  /** Merges every non-empty layer as a union at its level; a name goes to the first layer that has it. */
  method MergeLayers(layers: LayerCommands) returns (table: CommandTable, ghost sets: seq<CmdSet>)
    ensures fresh(table) && fresh(table.trie) && table.Valid()
    ensures IsMerge(sets, table.Value())
    ensures Entries(sets) == InPrecedence(layers)
    ensures forall name :: Resolve(Entries(sets), name) == FirstNamed(InPrecedence(layers), name)
    ensures forall c | c in table.commands :: Strongest(Sources(layers), c)
    ensures forall s, c | s in Sources(layers) && c in s :: exists d :: d in table.commands && d.name == c.name
  {
    hide Entries, Layer, ContainerLayers, InPrecedence, FirstNamed, Resolve, Rows, Settled, Strongest, Sources, CommandsOf;
    NoSets();
    NoContainers(layers.containers);
    var pushed: seq<CmdSet> := [];
    pushed := PushLayer(pushed, "account", ACCOUNT, layers.account);
    assert Entries(pushed) == Layer(ACCOUNT, layers.account);
    pushed := PushLayer(pushed, "puppet", PUPPET, layers.puppet);
    ghost var before := Entries(pushed);
    assert Entries(pushed) == before + ContainerLayers(layers.containers[..0]);
    for n := 0 to |layers.containers|
      invariant Entries(pushed) == before + ContainerLayers(layers.containers[..n])
    {
      OneMoreContainer(layers.containers, n);
      pushed := PushLayer(pushed, "container", CONTAINER, layers.containers[n]);
    }
    NoContainers(layers.containers);
    pushed := PushLayer(pushed, "location", LOCATION, layers.location);
    pushed := PushLayer(pushed, "channels", CHANNEL, layers.channels);
    pushed := PushLayer(pushed, "builtins", BUILTIN, layers.builtins);
    sets := pushed;
    InOrderOfStrength(layers);
    assert Entries(sets) == InPrecedence(layers);
    forall name ensures Resolve(Entries(sets), name) == FirstNamed(InPrecedence(layers), name) {
      FirstLayerWins(layers, name);
    }
    table := Merge(pushed);
    TableOfLayers(layers, Entries(sets));
  }

  lemma NoSets()
    ensures Entries([]) == []
  {
  }

  lemma NoContainers(containers: seq<seq<Command>>)
    ensures ContainerLayers(containers[..0]) == [] && containers[..|containers|] == containers
  {
  }

  lemma OneMoreContainer(containers: seq<seq<Command>>, n: nat)
    requires n < |containers|
    ensures ContainerLayers(containers[..n + 1]) == ContainerLayers(containers[..n]) + Layer(CONTAINER, containers[n])
  {
    assert containers[..n + 1][..n] == containers[..n];
  }

  lemma InOrderOfStrength(layers: LayerCommands)
    ensures InPrecedence(layers)
         == Layer(ACCOUNT, layers.account) + Layer(PUPPET, layers.puppet) + ContainerLayers(layers.containers)
            + Layer(LOCATION, layers.location) + Layer(CHANNEL, layers.channels) + Layer(BUILTIN, layers.builtins)
  {
  }

  function Layer(level: int, commands: seq<Command>): seq<Entry> {
    seq(|commands|, i requires 0 <= i < |commands| => Entry(Union, level, commands[i]))
  }

  function ContainerLayers(containers: seq<seq<Command>>): seq<Entry> {
    if containers == [] then []
    else ContainerLayers(containers[..|containers| - 1]) + Layer(CONTAINER, containers[|containers| - 1])
  }

  /** Every command of every layer, strongest layer first. */
  function InPrecedence(layers: LayerCommands): seq<Entry> {
    Layer(ACCOUNT, layers.account) + Layer(PUPPET, layers.puppet) + ContainerLayers(layers.containers)
    + Layer(LOCATION, layers.location) + Layer(CHANNEL, layers.channels) + Layer(BUILTIN, layers.builtins)
  }

  /** The first entry carrying the name. */
  function FirstNamed(es: seq<Entry>, name: string): Option<Row> {
    if es == [] then None
    else if es[0].command.name == name then Some(Row(es[0].priority, es[0].command))
    else FirstNamed(es[1..], name)
  }

  ghost predicate SortedUnions(es: seq<Entry>) {
    && (forall i | 0 <= i < |es| :: es[i].mergeType.Union?)
    && forall i, j | 0 <= i <= j < |es| :: es[i].priority >= es[j].priority
  }

  lemma {:induction false} FirstNamedGrows(es: seq<Entry>, e: Entry, name: string)
    ensures FirstNamed(es + [e], name)
         == if FirstNamed(es, name).Some? then FirstNamed(es, name)
            else if e.command.name == name then Some(Row(e.priority, e.command)) else None
  {
    if es != [] {
      assert (es + [e])[0] == es[0] && (es + [e])[1..] == es[1..] + [e];
      FirstNamedGrows(es[1..], e, name);
    }
  }

  lemma {:induction false} SortedUnionsResolveFirst(es: seq<Entry>, name: string)
    requires SortedUnions(es)
    ensures Best(es, Remove, name).None? && Best(es, Replace, name).None?
    ensures Best(es, Union, name) == FirstNamed(es, name)
    ensures FirstNamed(es, name).Some? ==> es != [] && FirstNamed(es, name).value.priority >= es[|es| - 1].priority
    decreases |es|
  {
    if es != [] {
      var n := |es| - 1;
      var front, e := es[..n], es[n];
      SortedUnionsResolveFirst(front, name);
      LastAdds(front, e, name);
      assert es == front + [e];
      hide Best, FirstNamed;
    }
  }

  lemma LastAdds(es: seq<Entry>, e: Entry, name: string)
    ensures forall kind :: (Best(es + [e], kind, name)
         == if e.Is(kind, name) then KeepHigher(Best(es, kind, name), Row(e.priority, e.command)) else Best(es, kind, name))
    ensures FirstNamed(es + [e], name)
         == if FirstNamed(es, name).Some? then FirstNamed(es, name)
            else if e.command.name == name then Some(Row(e.priority, e.command)) else None
  {
    hide Best, FirstNamed;
    FirstNamedGrows(es, e, name);
    forall kind { BestGrows(es, e, kind, name); }
  }

  lemma {:induction false} ContainersAreLevel(containers: seq<seq<Command>>)
    ensures forall e | e in ContainerLayers(containers) :: e.mergeType.Union? && e.priority == CONTAINER
  {
    if containers != [] {
      ContainersAreLevel(containers[..|containers| - 1]);
    }
  }

  lemma PrecedenceIsSorted(layers: LayerCommands)
    ensures SortedUnions(InPrecedence(layers))
  {
    ContainersAreLevel(layers.containers);
    var held := ContainerLayers(layers.containers);
    assert forall i | 0 <= i < |held| :: held[i] in held;
    hide ContainerLayers;
  }

  /** Under a union of layers, precedence is just first match. */
  lemma FirstLayerWins(layers: LayerCommands, name: string)
    ensures Resolve(InPrecedence(layers), name) == FirstNamed(InPrecedence(layers), name)
  {
    PrecedenceIsSorted(layers);
    SortedUnionsResolveFirst(InPrecedence(layers), name);
  }

  // The same on the layers themselves.

  /** Every layer there is, the strongest first. */
  function Sources(layers: LayerCommands): seq<seq<Command>> {
    [layers.account, layers.puppet] + layers.containers + [layers.location, layers.channels, layers.builtins]
  }

  /** No earlier layer has a command of this name, nor does this layer before it. */
  ghost predicate Strongest(sources: seq<seq<Command>>, c: Command) {
    exists i :: 0 <= i < |sources| && FirstIn(sources[i], c) && forall h | 0 <= h < i :: Lacks(sources[h], c.name)
  }

  ghost predicate FirstIn(commands: seq<Command>, c: Command) {
    exists j :: 0 <= j < |commands| && commands[j] == c && forall k | 0 <= k < j :: commands[k].name != c.name
  }

  ghost predicate Lacks(commands: seq<Command>, name: string) {
    forall c | c in commands :: c.name != name
  }

  /** Taking the first entry of a name takes the strongest command of that name, if any layer has one. */
  ghost predicate Agree(es: seq<Entry>, sources: seq<seq<Command>>) {
    forall name :: match FirstNamed(es, name)
                   case Some(row) => row.command.name == name && Strongest(sources, row.command)
                   case None => forall i | 0 <= i < |sources| :: Lacks(sources[i], name)
  }

  lemma {:induction false} FirstNamedConcat(a: seq<Entry>, b: seq<Entry>, name: string)
    ensures FirstNamed(a + b, name) == if FirstNamed(a, name).Some? then FirstNamed(a, name) else FirstNamed(b, name)
  {
    if a == [] {
      assert a + b == b;
    } else {
      assert (a + b)[1..] == a[1..] + b;
      FirstNamedConcat(a[1..], b, name);
    }
  }

  lemma {:induction false} FirstOfLayer(level: int, commands: seq<Command>, name: string)
    ensures match FirstNamed(Layer(level, commands), name)
            case Some(row) => row.command.name == name && FirstIn(commands, row.command)
            case None => Lacks(commands, name)
  {
    if commands != [] && commands[0].name != name {
      FirstOfLayer(level, commands[1..], name);
      assert Layer(level, commands)[1..] == Layer(level, commands[1..]);
      var found := FirstNamed(Layer(level, commands), name);
      if found.Some? {
        var j :| 0 <= j < |commands[1..]| && commands[1..][j] == found.value.command
          && forall k | 0 <= k < j :: commands[1..][k].name != found.value.command.name;
        assert commands[j + 1] == found.value.command;
        forall k | 0 <= k < j + 1 ensures commands[k].name != name {
          assert k > 0 ==> commands[k] == commands[1..][k - 1];
        }
      } else {
        assert commands == [commands[0]] + commands[1..];
      }
    } else if commands != [] {
      assert commands[0].name == name;
    }
  }

  lemma OneMoreLayer(es: seq<Entry>, sources: seq<seq<Command>>, level: int, commands: seq<Command>)
    requires Agree(es, sources)
    ensures Agree(es + Layer(level, commands), sources + [commands])
  {
    hide FirstNamed, Lacks, Layer;
    var all, more := es + Layer(level, commands), sources + [commands];
    forall name
      ensures match FirstNamed(all, name)
              case Some(row) => row.command.name == name && Strongest(more, row.command)
              case None => forall i | 0 <= i < |more| :: Lacks(more[i], name)
    {
      FirstNamedConcat(es, Layer(level, commands), name);
      FirstOfLayer(level, commands, name);
      if FirstNamed(es, name).Some? {
        StillStrongest(sources, commands, FirstNamed(es, name).value.command);
      } else if FirstNamed(all, name).Some? {
        assert more[|sources|] == commands;
      }
    }
  }

  lemma StillStrongest(sources: seq<seq<Command>>, commands: seq<Command>, c: Command)
    requires Strongest(sources, c)
    ensures Strongest(sources + [commands], c)
  {
    hide Lacks, FirstIn;
    var i :| 0 <= i < |sources| && FirstIn(sources[i], c) && forall h | 0 <= h < i :: Lacks(sources[h], c.name);
    var more := sources + [commands];
    assert more[i] == sources[i] && forall h | 0 <= h < i :: more[h] == sources[h];
  }

  lemma {:induction false} ContainersAgree(es: seq<Entry>, sources: seq<seq<Command>>, containers: seq<seq<Command>>)
    requires Agree(es, sources)
    ensures Agree(es + ContainerLayers(containers), sources + containers)
    decreases |containers|
  {
    hide Agree, Layer;
    if containers == [] {
      assert es + ContainerLayers(containers) == es && sources + containers == sources;
    } else {
      var n := |containers| - 1;
      ContainersAgree(es, sources, containers[..n]);
      OneMoreLayer(es + ContainerLayers(containers[..n]), sources + containers[..n], CONTAINER, containers[n]);
      assert es + ContainerLayers(containers) == es + ContainerLayers(containers[..n]) + Layer(CONTAINER, containers[n]);
      assert sources + containers == sources + containers[..n] + [containers[n]];
    }
  }

  lemma LayersAgree(layers: LayerCommands)
    ensures Agree(InPrecedence(layers), Sources(layers))
  {
    hide Agree, Layer, ContainerLayers;
    assert Agree([], []) by { NothingAgrees(); }
    OneMoreLayer([], [], ACCOUNT, layers.account);
    OneMoreLayer([] + Layer(ACCOUNT, layers.account), [] + [layers.account], PUPPET, layers.puppet);
    var es, sources := Layer(ACCOUNT, layers.account) + Layer(PUPPET, layers.puppet), [layers.account, layers.puppet];
    assert [] + Layer(ACCOUNT, layers.account) + Layer(PUPPET, layers.puppet) == es && [] + [layers.account] + [layers.puppet] == sources;
    ContainersAgree(es, sources, layers.containers);
    es, sources := es + ContainerLayers(layers.containers), sources + layers.containers;
    OneMoreLayer(es, sources, LOCATION, layers.location);
    es, sources := es + Layer(LOCATION, layers.location), sources + [layers.location];
    OneMoreLayer(es, sources, CHANNEL, layers.channels);
    es, sources := es + Layer(CHANNEL, layers.channels), sources + [layers.channels];
    OneMoreLayer(es, sources, BUILTIN, layers.builtins);
    assert sources + [layers.builtins] == Sources(layers);
  }

  lemma NothingAgrees()
    ensures Agree([], [])
  {
  }

  /** An inner container's command beats an outer one's, and each layer every later one; no name that a layer has is lost. */
  lemma TableOfLayers(layers: LayerCommands, es: seq<Entry>)
    requires forall name :: Resolve(es, name) == FirstNamed(InPrecedence(layers), name)
    ensures var commands := CommandsOf(Rows(es));
            && (forall c | c in commands :: Strongest(Sources(layers), c))
            && forall s, c | s in Sources(layers) && c in s :: exists d :: d in commands && d.name == c.name
  {
    hide Strongest, Sources, InPrecedence, FirstNamed, Resolve, Rows;
    LayersAgree(layers);
    MergeMeaning.RowsAreTheResolved(es);
    var rows, commands, sources := Rows(es), CommandsOf(Rows(es)), Sources(layers);
    forall c | c in commands ensures Strongest(sources, c) {
      var i :| 0 <= i < |commands| && commands[i] == c;
      assert rows[i] in rows && rows[i].command == c;
    }
    forall s, c | s in sources && c in s ensures exists d :: d in commands && d.name == c.name {
      var i :| 0 <= i < |sources| && sources[i] == s;
      var found := FirstNamed(InPrecedence(layers), c.name);
      assert found.None? ==> Lacks(sources[i], c.name);
      var row := found.value;
      assert row in rows;
      var k :| 0 <= k < |rows| && rows[k] == row;
      assert commands[k] == row.command;
    }
  }
}
