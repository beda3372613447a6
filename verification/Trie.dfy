/** A character trie as a value: where keys end, and what lies under a prefix. */
module TrieModel {
  import opened Wrappers

  datatype Node = Node(children: map<char, Node>, terminal: Option<nat>)

  const EMPTY := Node(map[], None)

  function Child(n: Node, c: char): Node {
    if c in n.children then n.children[c] else EMPTY
  }

  function Inserted(n: Node, key: string, index: nat): Node
    decreases |key|
  {
    if key == [] then n.(terminal := Some(index))
    else n.(children := n.children[key[0] := Inserted(Child(n, key[0]), key[1..], index)])
  }

  /** The node a key leads to. */
  function Walk(n: Node, key: string): Option<Node>
    decreases |key|
  {
    if key == [] then Some(n)
    else if key[0] in n.children then Walk(n.children[key[0]], key[1..])
    else None
  }

  function Owner(n: Node, key: string): Option<nat> {
    match Walk(n, key)
    case None => None
    case Some(end) => end.terminal
  }

  /** Every index in the subtree. */
  function Reach(n: Node): set<nat> {
    (if n.terminal.Some? then {n.terminal.value} else {})
    + set c, i | c in n.children && i in Reach(n.children[c]) :: i
  }

  /** No branch without a key at its end. */
  predicate Pruned(n: Node) {
    forall c | c in n.children :: Reach(n.children[c]) != {} && Pruned(n.children[c])
  }

  lemma {:induction false} ReachedHasKey(n: Node, i: nat) returns (key: string)
    requires i in Reach(n)
    ensures Owner(n, key) == Some(i)
    decreases n
  {
    if n.terminal == Some(i) {
      key := [];
    } else {
      var c :| c in n.children && i in Reach(n.children[c]);
      var tail := ReachedHasKey(n.children[c], i);
      key := [c] + tail;
      assert key[1..] == tail;
    }
  }

  lemma {:induction false} KeyIsReached(n: Node, key: string)
    requires Owner(n, key).Some?
    ensures Owner(n, key).value in Reach(n)
    decreases |key|
  {
    if key != [] {
      KeyIsReached(n.children[key[0]], key[1..]);
    }
  }

  lemma {:induction false} WalkSplits(n: Node, key: string, more: string)
    ensures Walk(n, key + more) == match Walk(n, key) case None => None case Some(end) => Walk(end, more)
    decreases |key|
  {
    if key == [] {
      assert key + more == more;
    } else if key[0] in n.children {
      assert (key + more)[0] == key[0] && (key + more)[1..] == key[1..] + more;
      WalkSplits(n.children[key[0]], key[1..], more);
    }
  }

  lemma {:induction false} InsertedOwner(n: Node, key: string, index: nat, other: string)
    ensures Owner(Inserted(n, key, index), other) == if other == key then Some(index) else Owner(n, other)
    decreases |key|
  {
    if key != [] && other != [] && key[0] == other[0] {
      InsertedOwner(Child(n, key[0]), key[1..], index, other[1..]);
      assert key == [key[0]] + key[1..] && other == [other[0]] + other[1..];
    }
  }

  lemma {:induction false} InsertedKeepsPruned(n: Node, key: string, index: nat)
    requires Pruned(n)
    ensures Pruned(Inserted(n, key, index)) && index in Reach(Inserted(n, key, index))
    decreases |key|
  {
    InsertedOwner(n, key, index, key);
    KeyIsReached(Inserted(n, key, index), key);
    if key != [] {
      InsertedKeepsPruned(Child(n, key[0]), key[1..], index);
    }
  }

  /** `n` holds exactly the keys of `m`, and nothing to wander into. */
  ghost predicate Indexes(n: Node, m: map<string, nat>) {
    && Pruned(n)
    && forall key :: Owner(n, key) == if key in m then Some(m[key]) else None
  }

  lemma EmptyIndexesNothing()
    ensures Indexes(EMPTY, map[])
  {
    forall key ensures Owner(EMPTY, key) == None { assert key == [] || key[0] !in EMPTY.children; }
  }

  lemma InsertIndexes(n: Node, m: map<string, nat>, key: string, index: nat)
    requires Indexes(n, m)
    ensures Indexes(Inserted(n, key, index), m[key := index])
  {
    InsertedKeepsPruned(n, key, index);
    forall other
      ensures Owner(Inserted(n, key, index), other) == if other in m[key := index] then Some(m[key := index][other]) else None
    {
      InsertedOwner(n, key, index, other);
    }
  }

  /** The owners of the keys that start with `token`. */
  function Candidates(m: map<string, nat>, token: string): set<nat> {
    set key | key in m && token <= key :: m[key]
  }

  lemma {:induction false} WalkKeepsPruned(n: Node, token: string)
    requires Pruned(n) && Walk(n, token).Some?
    ensures Pruned(Walk(n, token).value)
    ensures token != [] ==> Reach(Walk(n, token).value) != {}
    decreases |token|
  {
    if token != [] {
      var c := token[0];
      WalkKeepsPruned(n.children[c], token[1..]);
    }
  }

  lemma CandidateIsUnder(n: Node, m: map<string, nat>, token: string, key: string)
    requires Indexes(n, m) && key in m && token <= key
    ensures Walk(n, token).Some? && m[key] in Reach(Walk(n, token).value)
  {
    hide Reach, Pruned;
    var rest := key[|token|..];
    assert key == token + rest;
    WalkSplits(n, token, rest);
    assert Owner(n, key) == Some(m[key]);
    KeyIsReached(Walk(n, token).value, rest);
  }

  lemma UnderIsCandidate(n: Node, m: map<string, nat>, token: string, i: nat)
    requires Indexes(n, m) && Walk(n, token).Some? && i in Reach(Walk(n, token).value)
    ensures i in Candidates(m, token)
  {
    hide Reach, Pruned;
    var rest := ReachedHasKey(Walk(n, token).value, i);
    WalkSplits(n, token, rest);
    assert Owner(n, token + rest) == Some(i);
    assert token <= token + rest;
  }

  /** What lies under a prefix is what a scan of the keys would find. */
  lemma UnderPrefixIsTheScan(n: Node, m: map<string, nat>, token: string)
    requires Indexes(n, m)
    ensures Walk(n, token).Some? ==> Reach(Walk(n, token).value) == Candidates(m, token)
    ensures Walk(n, token).None? ==> Candidates(m, token) == {}
    ensures Walk(n, token).Some? && token != [] ==> Candidates(m, token) != {}
  {
    forall i | i in Candidates(m, token) ensures Walk(n, token).Some? && i in Reach(Walk(n, token).value) {
      var key :| key in m && token <= key && m[key] == i;
      CandidateIsUnder(n, m, token, key);
    }
    if Walk(n, token).Some? {
      WalkKeepsPruned(n, token);
      forall i | i in Reach(Walk(n, token).value) ensures i in Candidates(m, token) {
        UnderIsCandidate(n, m, token, i);
      }
      hide *;
    }
  }
}

/** The trie as it is built: nodes in memory, each owning its children. */
module TrieStore {
  import opened Wrappers
  import opened TrieModel
  import Ascending

  datatype TrieMatch = Exact(index: nat) | Prefix(indices: seq<nat>) | NoMatch

  /** Resolution by scanning every key: the exact owner, else the owners under the prefix in order. */
  function Scan(m: map<string, nat>, token: string): TrieMatch {
    if token in m then Exact(m[token])
    else if Candidates(m, token) == {} && token != [] then NoMatch
    else Prefix(Ascending.Listing(Candidates(m, token)))
  }

  class TrieNode {
    var children: map<char, TrieNode>
    var terminal: Option<nat>
    ghost var repr: set<object>

    ghost predicate Valid()
      reads this, repr
      decreases repr
    {
      && this in repr
      && (forall c <- children ::
            && children[c] in repr && children[c].repr < repr && this !in children[c].repr
            && children[c].Valid())
      && (forall c, d | c in children && d in children && c != d :: children[c].repr !! children[d].repr)
    }

    ghost function Value(): Node
      requires Valid()
      reads this, repr
      decreases repr
    {
      Node(map c | c in children :: children[c].Value(), terminal)
    }

    constructor ()
      ensures Valid() && fresh(repr) && Value() == EMPTY
    {
      children := map[];
      terminal := None;
      repr := {this};
    }

    /** A child is a whole trie of its own. */
    lemma ChildIsValid(c: char)
      requires Valid() && c in children
      ensures var child := children[c];
              && child.Valid() && child.repr < repr && this !in child.repr
              && c in Value().children && Value().children[c] == child.Value()
    {
    }

    /** Changing or adding one child, within it and fresh memory, changes nothing else. */
    twostate lemma ChildChanged(c: char, new child: TrieNode)
      requires old(Valid()) && terminal == old(terminal) && children == old(children)[c := child] && children[c] == child
      requires child.Valid() && this !in child.repr && repr == old(repr) + child.repr
      requires forall o | o in child.repr :: fresh(o) || (c in old(children) && o in old(children[c].repr))
      requires forall o | o in old(repr) && o != this && (c in old(children) ==> o !in old(children[c].repr)) :: unchanged(o)
      ensures Valid() && Value() == old(Value()).(children := old(Value()).children[c := child.Value()])
    {
      forall d | d in children && d != c
        ensures children[d].Valid() && children[d].repr == old(children[d].repr) && children[d].Value() == old(children[d].Value())
        ensures children[d].repr !! child.repr
      {
        assert c in old(children) ==> old(children[d].repr !! children[c].repr);
        assert children[d] == old(children[d]) && old(children[d].repr) <= old(repr);
        SubtrieKept(children[d]);
      }
      assert Valid();
      assert Value().children == old(Value()).children[c := child.Value()];
    }

    twostate lemma SubtrieKept(node: TrieNode)
      requires old(node.Valid()) && forall o | o in old(node.repr) :: unchanged(o)
      ensures node.repr == old(node.repr) && node.Valid() && node.Value() == old(node.Value())
    {
    }

    lemma ValueShape()
      requires Valid()
      ensures Value().terminal == terminal && Value().children.Keys == children.Keys
    {
    }

    /** The child under `c`, made empty if missing. */
    method Entry(c: char) returns (child: TrieNode)
      requires Valid()
      modifies this
      ensures Valid() && fresh(repr - old(repr)) && terminal == old(terminal)
      ensures children == old(children)[c := child] && children[c] == child
      ensures child.Valid() && child.repr < repr && this !in child.repr
      ensures child.Value() == Child(old(Value()), c)
      ensures Value() == old(Value()).(children := old(Value()).children[c := child.Value()])
    {
      hide Valid, Value;
      ValueShape();
      if c in children {
        child := children[c];
        ChildIsValid(c);
        assert Value().children == Value().children[c := child.Value()];
      } else {
        child := new TrieNode();
        children := children[c := child];
        repr := repr + child.repr;
        ChildChanged(c, child);
        ChildIsValid(c);
      }
    }

    method Insert(key: string, index: nat)
      requires Valid()
      modifies repr
      ensures Valid() && fresh(repr - old(repr))
      ensures Value() == Inserted(old(Value()), key, index)
      decreases |key|
    {
      if key == [] {
        terminal := Some(index);
      } else {
        InsertBelow(key, index);
      }
    }

    method InsertBelow(key: string, index: nat)
      requires Valid() && this in repr && key != []
      modifies repr
      ensures Valid() && fresh(repr - old(repr))
      ensures Value() == Inserted(old(Value()), key, index)
      decreases |key|, 0
    {
      hide Valid, Value;
      var child := Entry(key[0]);
      label Entered:
      child.Insert(key[1..], index);
      repr := repr + child.repr;
      ChildChanged@Entered(key[0], child);
    }

    /** Appends every index of the subtree to `found`. */
    method CollectTerminals(found: seq<nat>) returns (all: seq<nat>)
      requires Valid()
      ensures forall i :: i in all <==> i in found || i in Reach(Value())
      decreases repr
    {
      hide Valid, Value;
      ValueShape();
      all := found;
      if terminal.Some? {
        all := all + [terminal.value];
      }
      ghost var value := Value();
      var todo := children.Keys;
      while todo != {}
        invariant todo <= children.Keys
        invariant forall i :: i in all <==> i in found || terminal == Some(i)
                                            || exists c :: c in children.Keys - todo && i in Reach(value.children[c])
      {
        var c :| c in todo;
        ChildIsValid(c);
        ghost var before, left := all, todo;
        all := children[c].CollectTerminals(all);
        todo := todo - {c};
        forall i ensures i in all <==> i in found || terminal == Some(i)
                                       || exists d :: d in children.Keys - todo && i in Reach(value.children[d])
        {
          assert i in all <==> i in before || i in Reach(value.children[c]);
          assert c in children.Keys - todo;
          assert children.Keys - todo == (children.Keys - left) + {c};
        }
      }
    }
  }

  class PrefixTrie {
    var root: TrieNode
    ghost var tokens: map<string, nat>

    ghost predicate Valid()
      reads this, root, root.repr
    {
      && this !in root.repr
      && root.Valid()
      && Indexes(root.Value(), tokens)
    }

    constructor ()
      ensures Valid() && fresh(root) && fresh(root.repr) && tokens == map[]
    {
      root := new TrieNode();
      tokens := map[];
      EmptyIndexesNothing();
    }

    method Insert(key: string, index: nat)
      requires Valid()
      modifies this, root.repr
      ensures Valid() && root == old(root) && fresh(root.repr - old(root.repr))
      ensures tokens == old(tokens)[key := index]
    {
      InsertIndexes(root.Value(), tokens, key, index);
      root.Insert(key, index);
      tokens := tokens[key := index];
    }

    lemma RootWalkIsTheScan(token: string)
      requires Valid()
      ensures root.Valid()
      ensures Scan(tokens, token) ==
              match Walk(root.Value(), token)
              case None => NoMatch
              case Some(end) => if end.terminal.Some? then Exact(end.terminal.value) else Prefix(Ascending.Listing(Reach(end)))
    {
      WalkIsTheScan(root.Value(), tokens, token);
    }

    /** The walk down the trie answers as a scan of every token would. */
    method Lookup(token: string) returns (r: TrieMatch)
      requires Valid()
      ensures r == Scan(tokens, token)
    {
      hide *;
      RootWalkIsTheScan(token);
      ghost var top := root.Value();
      var node := root;
      assert Walk(top, token[..0]) == Some(top) by { WalkStops(top, token[..0]); }
      for n := 0 to |token|
        invariant node.Valid() && Walk(top, token[..n]) == Some(node.Value())
      {
        WalkSteps(top, token, n);
        node.ValueShape();
        if token[n] !in node.children {
          return NoMatch;
        }
        node.ChildIsValid(token[n]);
        node := node.children[token[n]];
      }
      assert token[..|token|] == token;
      node.ValueShape();
      if node.terminal.Some? {
        return Exact(node.terminal.value);
      }
      var indices := node.CollectTerminals([]);
      var unique := set i | i in indices;
      assert Reach(node.Value()) == unique;
      return Prefix(Ascending.Listing(unique));
    }
  }

  lemma WalkStops(n: Node, token: string)
    requires token == []
    ensures Walk(n, token) == Some(n)
  {
  }

  lemma WalkSteps(n: Node, token: string, k: nat)
    requires k < |token| && Walk(n, token[..k]).Some?
    ensures var at := Walk(n, token[..k]).value;
            if token[k] in at.children then Walk(n, token[..k + 1]) == Some(at.children[token[k]])
            else Walk(n, token).None?
  {
    WalkSplits(n, token[..k], token[k..]);
    assert token == token[..k] + token[k..];
    WalkSplits(n, token[..k], [token[k]]);
    assert token[..k + 1] == token[..k] + [token[k]];
    assert [token[k]][1..] == [];
  }

  lemma WalkIsTheScan(n: Node, m: map<string, nat>, token: string)
    requires Indexes(n, m)
    ensures Scan(m, token) ==
            match Walk(n, token)
            case None => NoMatch
            case Some(end) => if end.terminal.Some? then Exact(end.terminal.value) else Prefix(Ascending.Listing(Reach(end)))
  {
    UnderPrefixIsTheScan(n, m, token);
    assert Owner(n, token) == if token in m then Some(m[token]) else None;
    assert Walk(n, token).None? ==> token != [];
    hide Reach, Pruned, Candidates;
  }
}
