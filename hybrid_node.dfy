/**
 * CommandHybridNode: a group node that runs its own callback when it is called with no
 * tokens. Routing is Dispatch.Execute's Hybrid case; these lemmas state how it relates to
 * the group node it extends.
 */
module HybridNodes {
  import opened Options
  import opened Invocation
  import opened ExecutorNodes
  import opened Dispatch

  /** With no tokens and a callback set, it is invoked once, with no values. */
  lemma ZeroTokensInvokesCallback(n: Node, cb: Callback, acceptsFloat: string -> bool)
    requires n.Hybrid? && n.executor == Some(cb)
    ensures Execute(n, [], acceptsFloat) == Invoked(cb, [])
  {
  }

  /** With no tokens and no callback, it reports the unset executor. */
  lemma ZeroTokensWithoutCallback(n: Node, acceptsFloat: string -> bool)
    requires n.Hybrid? && n.executor.None?
    ensures Execute(n, [], acceptsFloat) == Error("Executor for command " + n.name + " not set.")
  {
  }

  /** The group node with the same identity and children. */
  function AsGroup(n: Node): (g: Node)
    requires n.Hybrid?
    ensures g.Group? && g.name == n.name && g.children == n.children
  {
    Group(n.name, n.description, n.pluginName, n.permission, n.children)
  }

  /** With one or more tokens it behaves exactly as the group node does. */
  lemma TokensDispatchAsGroup(n: Node, tokens: seq<string>, acceptsFloat: string -> bool)
    requires n.Hybrid? && |tokens| >= 1
    ensures Execute(n, tokens, acceptsFloat) == Execute(AsGroup(n), tokens, acceptsFloat)
  {
  }

  /** Completion is inherited from the group node unchanged. */
  lemma CompletesAsGroup(n: Node, tokens: seq<string>)
    requires n.Hybrid? && |tokens| >= 1
    ensures Complete(n, tokens) == Complete(AsGroup(n), tokens)
  {
  }
}
