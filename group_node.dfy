/**
 * Routing a token list through the tree (CommandGroupNode.execute/tabComplete and the
 * override in CommandHybridNode.execute). A group consumes its first token as a child
 * name, looked up case-sensitively, and hands the rest to that child; an action node
 * parses what is left; a hybrid runs its own callback when nothing is left.
 */
module Dispatch {
  import opened Options
  import opened Text
  import opened TypedParameters
  import opened Invocation
  import opened ActionNodes
  import opened ExecutorNodes

  function MissingSubcommand(name: string): string {
    "Missing subcommand. Try /" + name + " help"
  }

  function UnknownSubcommand(token: string): string {
    "Unknown subcommand: " + token
  }

  /** node.execute(sender, tokens). */
  function Execute(n: Node, tokens: seq<string>, acceptsFloat: string -> bool): Outcome
    decreases |tokens|, 1
  {
    match n
    case Action(name, _, _, _, ps, executor) => ActionOutcome(name, ps, executor, tokens, acceptsFloat)
    case Group(name, _, _, _, cs) => GroupExecute(name, cs, tokens, acceptsFloat)
    case Hybrid(name, _, _, _, cs, executor) =>
      if tokens == [] then
        if executor.Some? then Invoked(executor.value, []) else Error(ExecutorNotSet(name))
      else GroupExecute(name, cs, tokens, acceptsFloat)
  }

  /** CommandGroupNode.execute for a group called `name` with children `cs`. */
  function GroupExecute(name: string, cs: seq<Node>, tokens: seq<string>, acceptsFloat: string -> bool): Outcome
    decreases |tokens|, 0
  {
    if tokens == [] then Error(MissingSubcommand(name))
    else match Lookup(cs, tokens[0])
      case None => Error(UnknownSubcommand(tokens[0]))
      case Some(child) => Execute(child, tokens[1..], acceptsFloat)
  }

  /** node.tabComplete(sender, tokens); the source indexes the first token, so there is one. */
  function Complete(n: Node, tokens: seq<string>): seq<string>
    requires |tokens| >= 1
    decreases |tokens|, 1
  {
    match n
    case Action(_, _, _, _, ps, _) => CompletionsFor(ps, tokens)
    case Group(_, _, _, _, cs) => GroupComplete(cs, tokens)
    case Hybrid(_, _, _, _, cs, _) => GroupComplete(cs, tokens)
  }

  /** The child names starting (case-sensitively) with the typed text, in child order. */
  function NamesStartingWith(cs: seq<Node>, typed: string): seq<string> {
    if cs == [] then []
    else (if StartsWith(cs[0].name, typed) then [cs[0].name] else []) + NamesStartingWith(cs[1..], typed)
  }

  /** CommandGroupNode.tabComplete. */
  function GroupComplete(cs: seq<Node>, tokens: seq<string>): seq<string>
    requires |tokens| >= 1
    decreases |tokens|, 0
  {
    if |tokens| == 1 then NamesStartingWith(cs, tokens[0])
    else match Lookup(cs, tokens[0])
      case None => []
      case Some(child) => Complete(child, tokens[1..])
  }

  // ---------------------------------------------------------------------------------------
  // A path of child names

  /** The node reached from n by following the names in path, if every step exists. */
  function Descend(n: Node, path: seq<string>): Option<Node> {
    if path == [] then Some(n)
    else if n.Action? then None
    else match Lookup(n.children, path[0])
      case None => None
      case Some(child) => Descend(child, path[1..])
  }

  // ---------------------------------------------------------------------------------------
  // Properties of one group step

  /** No tokens: the group reports the missing subcommand and delegates nowhere. */
  lemma EmptyIsMissingSubcommand(n: Node, acceptsFloat: string -> bool)
    requires n.Group?
    ensures Execute(n, [], acceptsFloat) == Error("Missing subcommand. Try /" + n.name + " help")
  {
  }

  /** A first token naming no child, compared case-sensitively, is reported as unknown. */
  lemma UnknownFirstToken(n: Node, tokens: seq<string>, acceptsFloat: string -> bool)
    requires !n.Action? && |tokens| >= 1
    requires forall c :: c in n.children ==> c.name != tokens[0]
    ensures Execute(n, tokens, acceptsFloat) == Error("Unknown subcommand: " + tokens[0])
  {
    assert tokens[0] !in Names(n.children);
  }

  /** "GIVE" does not select a child called "give". */
  lemma CaseSensitiveExample(give: Node, acceptsFloat: string -> bool)
    requires give.name == "give"
    ensures Execute(Group("root", "", "plugin", None, [give]), ["GIVE"], acceptsFloat) == Error("Unknown subcommand: GIVE")
  {
    UnknownFirstToken(Group("root", "", "plugin", None, [give]), ["GIVE"], acceptsFloat);
  }

  /** A first token naming a child runs that child on exactly the remaining tokens. */
  lemma KnownFirstToken(n: Node, child: Node, tokens: seq<string>, acceptsFloat: string -> bool)
    requires !n.Action? && |tokens| >= 1 && UniqueNames(n.children)
    requires child in n.children && child.name == tokens[0]
    ensures Execute(n, tokens, acceptsFloat) == Execute(child, tokens[1..], acceptsFloat)
    ensures |tokens[1..]| == |tokens| - 1
  {
    LookupFindsMember(n.children, child);
  }

  /** With unique names, the child found under a name is the one that has it. */
  lemma {:induction false} LookupFindsMember(cs: seq<Node>, child: Node)
    requires UniqueNames(cs) && child in cs
    ensures Lookup(cs, child.name) == Some(child)
  {
    if cs[0] != child {
      var k :| 0 <= k < |cs| && cs[k] == child;
      assert k != 0;
      assert cs[0].name != child.name;
      UniqueCons(cs[0], cs[1..]);
      assert cs == [cs[0]] + cs[1..];
      assert cs[1..][k - 1] == child;
      LookupFindsMember(cs[1..], child);
    }
  }

  /** With one token: the names starting with it, case-sensitively ... */
  lemma {:induction false} NamesStartingWithMembers(cs: seq<Node>, typed: string)
    ensures forall x :: x in NamesStartingWith(cs, typed) <==> x in Names(cs) && StartsWith(x, typed)
  {
    if cs != [] {
      NamesStartingWithMembers(cs[1..], typed);
      assert cs == [cs[0]] + cs[1..];
      NamesCons(cs[0], cs[1..]);
    }
  }

  /** ... each exactly once when the names are unique, as the keys of a map are. */
  lemma {:induction false} NamesStartingWithDistinct(cs: seq<Node>, typed: string)
    requires UniqueNames(cs)
    ensures forall i, j :: 0 <= i < j < |NamesStartingWith(cs, typed)| ==>
              NamesStartingWith(cs, typed)[i] != NamesStartingWith(cs, typed)[j]
  {
    if cs != [] {
      assert cs == [cs[0]] + cs[1..];
      UniqueCons(cs[0], cs[1..]);
      NamesStartingWithDistinct(cs[1..], typed);
      NamesStartingWithMembers(cs[1..], typed);
      var rest := NamesStartingWith(cs[1..], typed);
      assert cs[0].name !in rest;
      var r := NamesStartingWith(cs, typed);
      if StartsWith(cs[0].name, typed) {
        assert r == [cs[0].name] + rest;
        forall i, j | 0 <= i < j < |r| ensures r[i] != r[j] {
          assert r[j] == rest[j - 1];
          if i > 0 {
            assert r[i] == rest[i - 1];
          } else {
            assert r[j] in rest;
          }
        }
      } else {
        assert r == rest;
      }
    }
  }

  /** Group completion with one token, as a set fact: exactly the matching child names. */
  lemma OneTokenCompletion(n: Node, typed: string)
    requires !n.Action? && UniqueNames(n.children)
    ensures forall x :: x in Complete(n, [typed]) <==> x in Names(n.children) && StartsWith(x, typed)
    ensures forall i, j :: 0 <= i < j < |Complete(n, [typed])| ==> Complete(n, [typed])[i] != Complete(n, [typed])[j]
  {
    NamesStartingWithMembers(n.children, typed);
    NamesStartingWithDistinct(n.children, typed);
  }

  /** Two or more tokens: nothing for an unknown first token, else the child's completions. */
  lemma ManyTokenCompletion(n: Node, tokens: seq<string>)
    requires !n.Action? && |tokens| >= 2
    ensures tokens[0] !in Names(n.children) ==> Complete(n, tokens) == []
    ensures forall c :: c in n.children && UniqueNames(n.children) && c.name == tokens[0] ==>
              Complete(n, tokens) == Complete(c, tokens[1..])
  {
    forall c | c in n.children && UniqueNames(n.children) && c.name == tokens[0]
      ensures Complete(n, tokens) == Complete(c, tokens[1..])
    {
      LookupFindsMember(n.children, c);
    }
  }

  // ---------------------------------------------------------------------------------------
  // Whole paths

  /** Following a path of names and executing the rest is executing the whole token list. */
  lemma {:induction false} ExecuteAlongPath(n: Node, path: seq<string>, rest: seq<string>, target: Node,
                                            acceptsFloat: string -> bool)
    requires Descend(n, path) == Some(target)
    ensures Execute(n, path + rest, acceptsFloat) == Execute(target, rest, acceptsFloat)
  {
    if path != [] {
      var child := Lookup(n.children, path[0]).value;
      var tokens := path + rest;
      assert tokens[0] == path[0] && tokens[1..] == path[1..] + rest;
      assert GroupExecute(n.name, n.children, tokens, acceptsFloat) == Execute(child, tokens[1..], acceptsFloat);
      ExecuteAlongPath(child, path[1..], rest, target, acceptsFloat);
    } else {
      assert path + rest == rest;
    }
  }

  /** The same for completion, as long as something is left to complete. */
  lemma {:induction false} CompleteAlongPath(n: Node, path: seq<string>, rest: seq<string>, target: Node)
    requires Descend(n, path) == Some(target) && |rest| >= 1
    ensures Complete(n, path + rest) == Complete(target, rest)
  {
    if path != [] {
      var child := Lookup(n.children, path[0]).value;
      var tokens := path + rest;
      assert tokens[0] == path[0] && tokens[1..] == path[1..] + rest;
      assert GroupComplete(n.children, tokens) == Complete(child, tokens[1..]);
      CompleteAlongPath(child, path[1..], rest, target);
    } else {
      assert path + rest == rest;
    }
  }

  /**
   * Only a node's own callback is ever invoked: an invocation comes from an action node
   * reached by a prefix of the tokens, whose parse of the rest succeeded, or from a hybrid
   * node reached by all of them, with no values.
   */
  lemma {:induction false} InvokedComesFromPath(n: Node, tokens: seq<string>, acceptsFloat: string -> bool)
    returns (k: nat, target: Node)
    requires Execute(n, tokens, acceptsFloat).Invoked?
    ensures k <= |tokens| && Descend(n, tokens[..k]) == Some(target)
    ensures target.Action? ==> ActionOutcome(target.name, target.params, target.executor, tokens[k..], acceptsFloat)
                                 == Execute(n, tokens, acceptsFloat)
    ensures target.Group? ==> false
    ensures target.Hybrid? ==> k == |tokens| && target.executor.Some?
                                 && Execute(n, tokens, acceptsFloat) == Invoked(target.executor.value, [])
    decreases |tokens|
  {
    if n.Action? || tokens == [] {
      k, target := 0, n;
    } else {
      var child := Lookup(n.children, tokens[0]).value;
      var k', t' := InvokedComesFromPath(child, tokens[1..], acceptsFloat);
      k, target := k' + 1, t';
      assert tokens[..k][1..] == tokens[1..][..k'];
      assert tokens[k..] == tokens[1..][k'..];
    }
  }
}
