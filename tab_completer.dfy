/**
 * The tab-completion entry point (TabCompleterWrapper.java): the root's completions for
 * the whole token list, followed by at most one injected literal so the wrapper's own
 * "help" and "help tree" are offered. The root indexes the first token, so there is one.
 */
module TabCompletion {
  import opened ExecutorNodes
  import opened Dispatch

  /** onTabComplete(sender, cmd, alias, args). */
  function OnTabComplete(root: Node, args: seq<string>): seq<string>
    requires |args| >= 1
  {
    Complete(root, args) + (if |args| == 1 then ["help"] else if args[0] == "help" then ["tree"] else [])
  }

  /** The result always begins with the root's completions, in their order, and adds at most one. */
  lemma RootCompletionsFirst(root: Node, args: seq<string>)
    requires |args| >= 1
    ensures var r := OnTabComplete(root, args);
            |Complete(root, args)| <= |r| <= |Complete(root, args)| + 1
            && r[..|Complete(root, args)|] == Complete(root, args)
  {
  }

  /** One token: "help" is appended, whatever has been typed. */
  lemma OneTokenAddsHelp(root: Node, typed: string)
    ensures OnTabComplete(root, [typed]) == Complete(root, [typed]) + ["help"]
  {
  }

  /** Two or more tokens led by exactly "help": "tree" is appended. */
  lemma HelpLeadAddsTree(root: Node, args: seq<string>)
    requires |args| >= 2 && args[0] == "help"
    ensures OnTabComplete(root, args) == Complete(root, args) + ["tree"]
  {
  }

  /** Otherwise, including "HELP" in another case, nothing is appended. */
  lemma OtherwiseNothingAdded(root: Node, args: seq<string>)
    requires |args| >= 2 && args[0] != "help"
    ensures OnTabComplete(root, args) == Complete(root, args)
  {
  }

  /** "help" is offered even when the typed text does not start it. */
  lemma HelpIsUnfiltered(root: Node)
    ensures OnTabComplete(root, ["xyz"])[|OnTabComplete(root, ["xyz"])| - 1] == "help"
  {
  }
}
