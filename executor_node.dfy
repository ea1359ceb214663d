/**
 * The command tree (ExecutorNode.java and its three subclasses) as a value. A node is a
 * leaf with typed parameters (CommandActionNode), a pure dispatcher over named children
 * (CommandGroupNode), or a dispatcher that also runs its own callback when called with no
 * tokens (CommandHybridNode, a subclass of the group node).
 *
 * A group's children are a HashMap keyed by child name; here they are a sequence whose
 * first entry with a given name is the one the map holds (ChildMap). addChild keeps the
 * names unique, so in every tree built with it the sequence is an association list.
 */
module ExecutorNodes {
  import opened Options
  import opened Text
  import opened TypedParameters
  import opened Invocation

  datatype Node =
    | Action(name: string, description: string, pluginName: string, permission: Option<string>,
             params: seq<TypedParameter>, executor: Option<Callback>)
    | Group(name: string, description: string, pluginName: string, permission: Option<string>,
            children: seq<Node>)
    | Hybrid(name: string, description: string, pluginName: string, permission: Option<string>,
             children: seq<Node>, executor: Option<Callback>)
  {
    /** hasSubCommands(): false for an action node, true for a group and (inherited) a hybrid. */
    predicate HasSubCommands() {
      !Action?
    }
  }

  // ---------------------------------------------------------------------------------------
  // Permissions

  /** The permission string a node is checked against: its own, or "<plugin>.<name>". */
  function PermissionString(n: Node): (s: string)
    ensures n.permission.None? ==> StartsWith(s, n.pluginName + ".") && EndsWith(s, n.name)
    ensures n.permission.Some? ==> s == n.permission.value
  {
    if n.permission.Some? then n.permission.value else n.pluginName + "." + n.name
  }

  /** hasPermission(sender): the sender's predicate applied to the chosen string. */
  predicate HasPermission(n: Node, granted: string -> bool) {
    granted(PermissionString(n))
  }

  /** The engine never interprets the string: predicates that agree on it agree on the node. */
  lemma PermissionIsOpaque(n: Node, g1: string -> bool, g2: string -> bool)
    ensures g1(PermissionString(n)) == g2(PermissionString(n)) ==> (HasPermission(n, g1) <==> HasPermission(n, g2))
  {
  }

  /** Without an explicit permission the check is on exactly "<plugin>.<name>". */
  lemma FallbackPermission(n: Node, granted: string -> bool)
    requires n.permission.None?
    ensures HasPermission(n, granted) <==> granted(n.pluginName + "." + n.name)
  {
  }

  // ---------------------------------------------------------------------------------------
  // The child map

  function Names(cs: seq<Node>): set<string> {
    set c | c in cs :: c.name
  }

  predicate UniqueNames(cs: seq<Node>) {
    forall i, j :: 0 <= i < j < |cs| ==> cs[i].name != cs[j].name
  }

  /** The map a child sequence stands for: the first entry under a name is the one held. */
  function ChildMap(cs: seq<Node>): (m: map<string, Node>)
    ensures m.Keys == Names(cs)
  {
    if cs == [] then map[] else ChildMap(cs[1..])[cs[0].name := cs[0]]
  }

  /** children.get(key): the first child with exactly that name (case-sensitive). */
  function Lookup(cs: seq<Node>, key: string): (r: Option<Node>)
    ensures r.Some? ==> r.value in cs && r.value.name == key
    ensures r.None? <==> key !in Names(cs)
  {
    if cs == [] then None else if cs[0].name == key then Some(cs[0]) else Lookup(cs[1..], key)
  }

  /** Looking a name up in the sequence is reading the map it stands for. */
  lemma {:induction false} LookupIsMapGet(cs: seq<Node>, key: string)
    ensures Lookup(cs, key) == if key in ChildMap(cs) then Some(ChildMap(cs)[key]) else None
  {
    if cs != [] {
      LookupIsMapGet(cs[1..], key);
    }
  }

  /** children.put(node.getName(), node): replace the entry under that name, or add one. */
  function Put(cs: seq<Node>, n: Node): (r: seq<Node>)
    ensures |r| == if n.name in Names(cs) then |cs| else |cs| + 1
  {
    if cs == [] then [n]
    else if cs[0].name == n.name then [n] + cs[1..]
    else [cs[0]] + Put(cs[1..], n)
  }

  /** addChild stores the node under its own name and leaves every other entry as it was. */
  lemma {:induction false} PutUpdatesMap(cs: seq<Node>, n: Node)
    ensures ChildMap(Put(cs, n)) == ChildMap(cs)[n.name := n]
  {
    if cs != [] && cs[0].name != n.name {
      PutUpdatesMap(cs[1..], n);
      assert Put(cs, n)[1..] == Put(cs[1..], n);
    } else if cs != [] {
      assert (Put(cs, n))[1..] == cs[1..];
    }
  }

  lemma NamesCons(c: Node, cs: seq<Node>)
    ensures Names([c] + cs) == {c.name} + Names(cs)
  {
    assert forall x :: x in [c] + cs <==> x == c || x in cs;
  }

  lemma UniqueCons(c: Node, cs: seq<Node>)
    ensures UniqueNames([c] + cs) <==> c.name !in Names(cs) && UniqueNames(cs)
  {
    var r := [c] + cs;
    if UniqueNames(r) {
      forall i, j | 0 <= i < j < |cs| ensures cs[i].name != cs[j].name {
        assert cs[i] == r[i + 1] && cs[j] == r[j + 1];
      }
      forall k | 0 <= k < |cs| ensures cs[k].name != c.name {
        assert r[k + 1] == cs[k] && r[0] == c;
        assert r[0].name != r[k + 1].name;
      }
    }
    if c.name !in Names(cs) && UniqueNames(cs) {
      forall i, j | 0 <= i < j < |r| ensures r[i].name != r[j].name {
        assert r[j] == cs[j - 1];
        if i > 0 {
          assert r[i] == cs[i - 1];
        } else {
          assert r[i] == c && r[j] in cs;
          assert r[j].name in Names(cs);
        }
      }
      assert UniqueNames(r);
    }

  }

  /** addChild adds the node's name to the names held ... */
  lemma {:induction false} PutNames(cs: seq<Node>, n: Node)
    ensures Names(Put(cs, n)) == Names(cs) + {n.name}
  {
    if cs != [] {
      assert cs == [cs[0]] + cs[1..];
      NamesCons(cs[0], cs[1..]);
      if cs[0].name == n.name {
        NamesCons(n, cs[1..]);
      } else {
        PutNames(cs[1..], n);
        NamesCons(cs[0], Put(cs[1..], n));
      }
    }
  }

  /** ... and keeps the names unique. */
  lemma {:induction false} PutKeepsNamesUnique(cs: seq<Node>, n: Node)
    requires UniqueNames(cs)
    ensures UniqueNames(Put(cs, n))
  {
    if cs != [] {
      assert cs == [cs[0]] + cs[1..];
      UniqueCons(cs[0], cs[1..]);
      if cs[0].name == n.name {
        UniqueCons(n, cs[1..]);
      } else {
        PutKeepsNamesUnique(cs[1..], n);
        PutNames(cs[1..], n);
        UniqueCons(cs[0], Put(cs[1..], n));
      }
    }
  }

  /** addChildren(nodes): put each node in order. */
  function PutAll(cs: seq<Node>, ns: seq<Node>): seq<Node> {
    if ns == [] then cs else Put(PutAll(cs, ns[..|ns| - 1]), ns[|ns| - 1])
  }

  /** The names of ns mapped to their nodes, where for a repeated name the LAST node counts. */
  function Collect(ns: seq<Node>): (m: map<string, Node>)
    ensures m.Keys == Names(ns)
  {
    if ns == [] then map[]
    else
      var init := ns[..|ns| - 1];
      assert ns == init + [ns[|ns| - 1]];
      Collect(init)[ns[|ns| - 1].name := ns[|ns| - 1]]
  }

  /** addChildren is addChild on each node in turn: the map gains ns, the last duplicate winning. */
  lemma {:induction false} PutAllUpdatesMap(cs: seq<Node>, ns: seq<Node>)
    ensures ChildMap(PutAll(cs, ns)) == ChildMap(cs) + Collect(ns)
  {
    if ns != [] {
      var init, last := ns[..|ns| - 1], ns[|ns| - 1];
      PutAllUpdatesMap(cs, init);
      PutUpdatesMap(PutAll(cs, init), last);
    }
  }

  /** Of several nodes given the same name, the one given last is the child held. */
  lemma LastDuplicateWins(cs: seq<Node>, ns: seq<Node>, j: nat)
    requires j < |ns|
    requires forall k :: j < k < |ns| ==> ns[k].name != ns[j].name
    ensures Lookup(PutAll(cs, ns), ns[j].name) == Some(ns[j])
  {
    CollectLast(ns, j);
    PutAllUpdatesMap(cs, ns);
    LookupIsMapGet(PutAll(cs, ns), ns[j].name);
  }

  lemma {:induction false} CollectLast(ns: seq<Node>, j: nat)
    requires j < |ns|
    requires forall k :: j < k < |ns| ==> ns[k].name != ns[j].name
    ensures ns[j].name in Collect(ns) && Collect(ns)[ns[j].name] == ns[j]
  {
    if j < |ns| - 1 {
      var init := ns[..|ns| - 1];
      assert init[j] == ns[j];
      forall k | j < k < |init| ensures init[k].name != init[j].name {
        assert init[k] == ns[k];
      }
      CollectLast(init, j);
    }
  }

  /** Putting into a sequence with unique names keeps them unique, node after node. */
  lemma {:induction false} PutAllKeepsNamesUnique(cs: seq<Node>, ns: seq<Node>)
    requires UniqueNames(cs)
    ensures UniqueNames(PutAll(cs, ns))
  {
    if ns != [] {
      PutAllKeepsNamesUnique(cs, ns[..|ns| - 1]);
      PutKeepsNamesUnique(PutAll(cs, ns[..|ns| - 1]), ns[|ns| - 1]);
    }
  }

  /** Children of a group or hybrid (getChildren); an action node has none. */
  function Children(n: Node): seq<Node> {
    if n.Action? then [] else n.children
  }
}
