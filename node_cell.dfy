/**
 * A node object as the source builds it and later mutates it: name, description and
 * plugin name are fixed at construction (final fields); the permission, a group's child
 * map and an action's or hybrid's callback are updated in place. Snapshot() is the value
 * of the object as an ExecutorNodes.Node, which is what dispatch reads.
 */
module NodeCells {
  import opened Options
  import opened TypedParameters
  import opened Invocation
  import opened ExecutorNodes

  /** Which of the three node classes an object is. */
  datatype Kind = ActionKind | GroupKind | HybridKind

  class NodeCell {
    const name: string
    const description: string
    const pluginName: string
    const kind: Kind
    const params: seq<TypedParameter>
    var permission: Option<string>
    var children: seq<Node>
    var executor: Option<Callback>

    /** Only groups and hybrids hold children, only actions and hybrids a callback. */
    ghost predicate Valid()
      reads this
    {
      (kind == ActionKind ==> children == [])
      && (kind == GroupKind ==> executor == None)
      && (kind != ActionKind ==> params == [])
      && UniqueNames(children)
    }

    /** The object's current value as a tree node. */
    function Snapshot(): (n: Node)
      reads this
      ensures n.name == name && n.description == description && n.pluginName == pluginName
      ensures n.permission == permission
      ensures Children(n) == (if kind == ActionKind then [] else children)
      ensures n.Action? <==> kind == ActionKind
      ensures n.Hybrid? <==> kind == HybridKind
      ensures kind == ActionKind ==> n.params == params
      ensures kind != GroupKind ==> n.executor == executor
    {
      match kind
      case ActionKind => Action(name, description, pluginName, permission, params, executor)
      case GroupKind => Group(name, description, pluginName, permission, children)
      case HybridKind => Hybrid(name, description, pluginName, permission, children, executor)
    }

    /** new CommandActionNode(name, description, pluginName, expectedArgs[, executor]). */
    constructor ActionNode(name: string, description: string, pluginName: string,
                           expectedArgs: seq<TypedParameter>, executor: Option<Callback>)
      ensures Valid()
      ensures Snapshot() == Action(name, description, pluginName, None, expectedArgs, executor)
    {
      this.name, this.description, this.pluginName := name, description, pluginName;
      this.kind, this.params := ActionKind, expectedArgs;
      this.permission, this.children, this.executor := None, [], executor;
    }

    /** new CommandGroupNode(name, description, pluginName): no children yet. */
    constructor GroupNode(name: string, description: string, pluginName: string)
      ensures Valid()
      ensures Snapshot() == Group(name, description, pluginName, None, [])
    {
      this.name, this.description, this.pluginName := name, description, pluginName;
      this.kind, this.params := GroupKind, [];
      this.permission, this.children, this.executor := None, [], None;
    }

    /** new CommandHybridNode(name, description, pluginName[, executor]): no children yet. */
    constructor HybridNode(name: string, description: string, pluginName: string, executor: Option<Callback>)
      ensures Valid()
      ensures Snapshot() == Hybrid(name, description, pluginName, None, [], executor)
    {
      this.name, this.description, this.pluginName := name, description, pluginName;
      this.kind, this.params := HybridKind, [];
      this.permission, this.children, this.executor := None, [], executor;
    }

    /** getPermission(). */
    method GetPermission() returns (p: Option<string>)
      ensures p == permission
    {
      p := permission;
    }

    /** setPermission(p): only the permission changes. */
    method SetPermission(p: Option<string>)
      requires Valid()
      modifies this
      ensures Valid()
      ensures permission == p
      ensures children == old(children) && executor == old(executor)
    {
      permission := p;
    }

    /** withPermission(p): as setPermission, and returns this same object for chaining. */
    method WithPermission(p: Option<string>) returns (self: NodeCell)
      requires Valid()
      modifies this
      ensures Valid()
      ensures self == this
      ensures permission == p
      ensures children == old(children) && executor == old(executor)
    {
      permission := p;
      self := this;
    }

    /** addExecutor(e) on an action or hybrid node: only the callback changes. */
    method AddExecutor(e: Option<Callback>)
      requires Valid() && kind != GroupKind
      modifies this
      ensures Valid()
      ensures executor == e
      ensures permission == old(permission) && children == old(children)
    {
      executor := e;
    }

    /** addChild(node): store the node under its own name, replacing any child so named. */
    method AddChild(node: Node)
      requires Valid() && kind != ActionKind
      modifies this
      ensures Valid()
      ensures children == Put(old(children), node)
      ensures ChildMap(children) == ChildMap(old(children))[node.name := node]
      ensures permission == old(permission) && executor == old(executor)
    {
      PutKeepsNamesUnique(children, node);
      PutUpdatesMap(children, node);
      children := Put(children, node);
    }

    /** addChildren(nodes...): addChild on each node in order, so a later duplicate wins. */
    method AddChildren(nodes: seq<Node>)
      requires Valid() && kind != ActionKind
      modifies this
      ensures Valid()
      ensures children == PutAll(old(children), nodes)
      ensures ChildMap(children) == ChildMap(old(children)) + Collect(nodes)
      ensures permission == old(permission) && executor == old(executor)
    {
      for i := 0 to |nodes|
        invariant Valid()
        invariant children == PutAll(old(children), nodes[..i])
        invariant permission == old(permission) && executor == old(executor)
      {
        assert nodes[..i + 1][..i] == nodes[..i];
        AddChild(nodes[i]);
      }
      assert nodes[..|nodes|] == nodes;
      PutAllUpdatesMap(old(children), nodes);
    }
  }

  /** After setPermission(p) with p present, the node is checked against p and nothing else. */
  lemma ExplicitPermission(n: Node, p: string, granted: string -> bool)
    requires n.permission == Some(p)
    ensures HasPermission(n, granted) <==> granted(p)
  {
  }
}
