/**
 * The command entry point (CommandExecutorWrapper.java): a permission gate on the root,
 * interception of "help" and "help tree" when the tree defines no "help" of its own, and
 * otherwise delegation of the whole token list to the root. Output to the sender is a
 * sequence of message strings, without the colour codes the source embeds.
 */
module CommandWrapper {
  import opened Options
  import opened Text
  import opened ParameterTypes
  import opened TypedParameters
  import opened Invocation
  import opened ExecutorNodes
  import opened Dispatch

  const NoPermission := "You do not have permission to use this command."
  const TreeHeader := "Command Tree:"
  const ListingHeader := "Available subcommands:"

  function HelpTreeHint(rootName: string): string {
    "Use '/" + rootName + " help tree' for more details."
  }

  /** What onCommand did: its return value, the messages sent, and the root's execution if any. */
  datatype Response = Response(handled: bool, messages: seq<string>, dispatched: Option<Outcome>)

  // ---------------------------------------------------------------------------------------
  // hasHelpSubcommand

  /** Some child, or a child's descendant, of this group is named exactly "help". */
  predicate HasHelpSubcommand(n: Node)
    decreases n, 1
  {
    !n.Action? && HelpAmong(n, 0)
  }

  /** The source's loop over the children, from the i-th on. */
  predicate HelpAmong(n: Node, i: nat)
    requires !n.Action?
    decreases n, 0, |n.children| - i
  {
    if i >= |n.children| then false
    else
      var c := n.children[i];
      assert c in n.children;
      c.name == "help" || HasHelpSubcommand(c) || HelpAmong(n, i + 1)
  }

  /** The names of all nodes strictly below n, at any depth. */
  function DescendantNames(n: Node): set<string>
    decreases n
  {
    if n.Action? then {}
    else set c, x | c in n.children && x in {c.name} + DescendantNames(c) :: x
  }

  /** hasHelpSubcommand finds "help" exactly when some descendant, not n itself, has that name. */
  lemma HasHelpIffDescendant(n: Node)
    ensures HasHelpSubcommand(n) <==> "help" in DescendantNames(n)
    decreases n, 1
  {
    if !n.Action? {
      HelpAmongIff(n, 0);
      if "help" in DescendantNames(n) {
        var c :| c in n.children && "help" in {c.name} + DescendantNames(c);
        var j :| 0 <= j < |n.children| && n.children[j] == c;
        assert "help" in {n.children[j].name} + DescendantNames(n.children[j]);
      }
    }
  }

  lemma HelpAmongIff(n: Node, i: nat)
    requires !n.Action?
    ensures HelpAmong(n, i) <==>
              exists j :: i <= j < |n.children| && "help" in {n.children[j].name} + DescendantNames(n.children[j])
    decreases n, 0, |n.children| - i
  {
    if i < |n.children| {
      var c := n.children[i];
      assert c in n.children;
      HasHelpIffDescendant(c);
      HelpAmongIff(n, i + 1);
    }
  }

  // ---------------------------------------------------------------------------------------
  // The listing of direct children

  /** The children that pass their own permission check, in order. */
  function Visible(cs: seq<Node>, granted: string -> bool): (vs: seq<Node>)
    ensures forall c :: c in vs <==> c in cs && HasPermission(c, granted)
    ensures |vs| <= |cs|
  {
    if cs == [] then []
    else Visible(cs[..|cs| - 1], granted) + (if HasPermission(cs[|cs| - 1], granted) then [cs[|cs| - 1]] else [])
  }

  /** A " <name>" for each parameter, in order. */
  function ParamNames(ps: seq<TypedParameter>): string {
    if ps == [] then "" else ParamNames(ps[..|ps| - 1]) + " <" + ps[|ps| - 1].name + ">"
  }

  function ParamNameList(ps: seq<TypedParameter>): seq<string> {
    seq(|ps|, i requires 0 <= i < |ps| => ps[i].name)
  }

  /** The parameter tags are the names, in order, each once between " <" and ">". */
  lemma {:induction false} ParamNamesJoin(ps: seq<TypedParameter>)
    requires ps != []
    ensures ParamNames(ps) == " <" + JoinWith(ParamNameList(ps), "> <") + ">"
  {
    var init := ps[..|ps| - 1];
    assert ParamNameList(ps)[..|ps| - 1] == ParamNameList(init);
    if init != [] {
      ParamNamesJoin(init);
    }
  }

  /** One listing line: "- /<label> <name>[ <param>...] - <description>". */
  function ListingLine(commandLabel: string, c: Node): string {
    "- /" + commandLabel + " " + c.name + (if c.Action? then ParamNames(c.params) else "") + " - " + c.description
  }

  /** The listing loop: one line per child that passes its permission check. */
  function Listing(cs: seq<Node>, commandLabel: string, granted: string -> bool): seq<string> {
    if cs == [] then []
    else
      var last := cs[|cs| - 1];
      Listing(cs[..|cs| - 1], commandLabel, granted) + (if HasPermission(last, granted) then [ListingLine(commandLabel, last)] else [])
  }

  /** The listing holds exactly the visible children's lines, in order, and nothing else. */
  lemma {:induction false} ListingIsVisibleLines(cs: seq<Node>, commandLabel: string, granted: string -> bool)
    ensures |Listing(cs, commandLabel, granted)| == |Visible(cs, granted)|
    ensures forall i :: 0 <= i < |Visible(cs, granted)| ==>
              Listing(cs, commandLabel, granted)[i] == ListingLine(commandLabel, Visible(cs, granted)[i])
  {
    if cs != [] {
      ListingIsVisibleLines(cs[..|cs| - 1], commandLabel, granted);
    }
  }

  // ---------------------------------------------------------------------------------------
  // printTree

  function Branch(isLast: bool): string {
    if isLast then "└─ " else "├─ "
  }

  function Indent(isLast: bool): string {
    if isLast then "   " else "│  "
  }

  /** "<name:type>" for each parameter, the type name lower-cased. */
  function TypeTags(ps: seq<TypedParameter>): string {
    if ps == [] then ""
    else TypeTags(ps[..|ps| - 1]) + "<" + ps[|ps| - 1].name + ":" + ToLower(ps[|ps| - 1].kind.Name()) + ">"
  }

  /** A parameter's "<name:type>" tag names its kind: two parameters of one name but different kinds get different tags. */
  lemma TypeTagShowsKind(p: TypedParameter, q: TypedParameter)
    requires p.name == q.name && TypeTags([p]) == TypeTags([q])
    ensures p.kind == q.kind
  {
    var head := "<" + p.name + ":";
    var lp, lq := ToLower(p.kind.Name()), ToLower(q.kind.Name());
    assert [p][..0] == [] && [q][..0] == [];
    assert TypeTags([p]) == head + lp + ">";
    assert TypeTags([q]) == head + lq + ">";
    assert |lp| == |lq|;
    assert (head + lp + ">")[|head|..|head| + |lp|] == lp;
    assert (head + lq + ">")[|head|..|head| + |lq|] == lq;
    NameIsCapitals(p.kind);
    NameIsCapitals(q.kind);
    ToLowerInjective(p.kind.Name(), q.kind.Name());
    NamesDistinct(p.kind, q.kind);
  }

  /** The line printed for an action child. */
  function ActionLine(c: Node, path: string, childPrefix: string, lastChild: bool): string
    requires c.Action?
  {
    var tags := TypeTags(c.params);
    childPrefix + Branch(lastChild) + path + " " + c.name + (if |tags| > 0 then " " + tags else "") + " - " + c.description
  }

  /** The lines printTree(node, path, prefix, isLast) sends. */
  function TreeLines(n: Node, path: string, prefix: string, isLast: bool, granted: string -> bool): seq<string>
    requires !n.Action?
    decreases n, 1
  {
    if !HasPermission(n, granted) then []
    else [prefix + Branch(isLast) + path + " - " + n.description]
         + ChildLines(n, Visible(n.children, granted), 0, path, prefix + Indent(isLast), granted)
  }

  /** The lines for the visible children from the i-th on; the last one is drawn with └─. */
  function ChildLines(n: Node, vis: seq<Node>, i: nat, path: string, childPrefix: string,
                      granted: string -> bool): seq<string>
    requires !n.Action? && forall c :: c in vis ==> c in n.children
    decreases n, 0, |vis| - i
  {
    if i >= |vis| then []
    else ChildBlock(n, vis, i, path, childPrefix, granted) + ChildLines(n, vis, i + 1, path, childPrefix, granted)
  }

  /** The lines for the i-th visible child: one line for an action, a subtree for a group. */
  function ChildBlock(n: Node, vis: seq<Node>, i: nat, path: string, childPrefix: string,
                      granted: string -> bool): seq<string>
    requires !n.Action? && forall c :: c in vis ==> c in n.children
    requires i < |vis|
    decreases n, 0, 0
  {
    var c := vis[i];
    assert c in n.children;
    var lastChild := |vis| - 1 == i;
    if c.Action? then [ActionLine(c, path, childPrefix, lastChild)]
    else TreeLines(c, path + " " + c.name, childPrefix, lastChild, granted)
  }

  /** A node that fails its check prints nothing, and so nothing of its subtree either. */
  lemma HiddenPrintsNothing(n: Node, path: string, prefix: string, isLast: bool, granted: string -> bool)
    requires !n.Action? && !HasPermission(n, granted)
    ensures TreeLines(n, path, prefix, isLast, granted) == []
  {
  }

  /**
   * Each visible child's block starts with one line: the children's prefix (see
   * TreeLinesChildren for how it extends the parent's), then └─ for the last visible child
   * and ├─ for the others, then the child's path.
   */
  lemma BlockHead(n: Node, vis: seq<Node>, i: nat, path: string, childPrefix: string, granted: string -> bool)
    requires !n.Action? && forall c :: c in vis ==> c in n.children && HasPermission(c, granted)
    requires i < |vis|
    ensures var block := ChildBlock(n, vis, i, path, childPrefix, granted);
            |block| >= 1 &&
            StartsWith(block[0], childPrefix + Branch(i == |vis| - 1) + path + " " + vis[i].name)
  {
    var c := vis[i];
    assert c in vis;
    var lastChild := i == |vis| - 1;
    if c.Action? {
      ActionLineHead(c, path, childPrefix, lastChild);
    } else {
      TreeLinesHead(c, path + " " + c.name, childPrefix, lastChild, granted);
      StartsWithConcat(childPrefix + Branch(lastChild) + path + " " + c.name, " - " + c.description);
    }
  }

  lemma ActionLineHead(c: Node, path: string, childPrefix: string, lastChild: bool)
    requires c.Action?
    ensures StartsWith(ActionLine(c, path, childPrefix, lastChild), childPrefix + Branch(lastChild) + path + " " + c.name)
  {
    var tags := TypeTags(c.params);
    StartsWithConcat(childPrefix + Branch(lastChild) + path + " " + c.name,
                     (if |tags| > 0 then " " + tags else "") + " - " + c.description);
  }

  /** A group that passes its check prints its own line first. */
  lemma TreeLinesHead(n: Node, path: string, prefix: string, isLast: bool, granted: string -> bool)
    requires !n.Action? && HasPermission(n, granted)
    ensures |TreeLines(n, path, prefix, isLast, granted)| >= 1
    ensures TreeLines(n, path, prefix, isLast, granted)[0] == prefix + Branch(isLast) + path + " - " + n.description
  {
  }

  /**
   * After its own line, a visible group prints its visible children's blocks with the
   * prefix extended by "   " when the group is drawn last and by "│  " otherwise; the first
   * child's line therefore starts with that prefix, its connector and its path.
   */
  lemma TreeLinesChildren(n: Node, path: string, prefix: string, isLast: bool, granted: string -> bool)
    requires !n.Action? && HasPermission(n, granted)
    ensures var lines := TreeLines(n, path, prefix, isLast, granted);
            var vis := Visible(n.children, granted);
            |lines| >= 1
            && lines[1..] == ChildLines(n, vis, 0, path, prefix + (if isLast then "   " else "│  "), granted)
            && (|vis| >= 1 ==>
                  |lines| >= 2
                  && StartsWith(lines[1], prefix + (if isLast then "   " else "│  ") + Branch(|vis| == 1) + path + " " + vis[0].name))
  {
    var vis := Visible(n.children, granted);
    var childPrefix := prefix + Indent(isLast);
    if |vis| >= 1 {
      BlockHead(n, vis, 0, path, childPrefix, granted);
      var block := ChildBlock(n, vis, 0, path, childPrefix, granted);
      assert ChildLines(n, vis, 0, path, childPrefix, granted) == block + ChildLines(n, vis, 1, path, childPrefix, granted);
      assert TreeLines(n, path, prefix, isLast, granted)[1] == block[0];
    }
  }

  /** How many lines a visible group prints: one for itself and for each visible action child. */
  function Shown(n: Node, granted: string -> bool): nat
    requires !n.Action?
    decreases n, 1
  {
    if !HasPermission(n, granted) then 0 else 1 + ShownAmong(n, Visible(n.children, granted), 0, granted)
  }

  function ShownAmong(n: Node, vis: seq<Node>, i: nat, granted: string -> bool): nat
    requires !n.Action? && forall c :: c in vis ==> c in n.children
    decreases n, 0, |vis| - i
  {
    if i >= |vis| then 0
    else
      var c := vis[i];
      assert c in n.children;
      (if c.Action? then 1 else Shown(c, granted)) + ShownAmong(n, vis, i + 1, granted)
  }

  /** printTree sends one line per shown node, whatever the prefixes and paths. */
  lemma TreeLineCount(n: Node, path: string, prefix: string, isLast: bool, granted: string -> bool)
    requires !n.Action?
    ensures |TreeLines(n, path, prefix, isLast, granted)| == Shown(n, granted)
    decreases n, 1
  {
    if HasPermission(n, granted) {
      ChildLineCount(n, Visible(n.children, granted), 0, path, prefix + Indent(isLast), granted);
    }
  }

  lemma ChildLineCount(n: Node, vis: seq<Node>, i: nat, path: string, childPrefix: string, granted: string -> bool)
    requires !n.Action? && forall c :: c in vis ==> c in n.children
    ensures |ChildLines(n, vis, i, path, childPrefix, granted)| == ShownAmong(n, vis, i, granted)
    decreases n, 0, |vis| - i
  {
    if i < |vis| {
      var c := vis[i];
      assert c in n.children;
      if !c.Action? {
        TreeLineCount(c, path + " " + c.name, childPrefix, |vis| - 1 == i, granted);
      }
      ChildLineCount(n, vis, i + 1, path, childPrefix, granted);
    }
  }

  // ---------------------------------------------------------------------------------------
  // onCommand

  /** The wrapper takes over "help" only for a group root with no "help" of its own. */
  predicate Intercepts(root: Node, args: seq<string>) {
    |args| >= 1 && EqualsIgnoreCase(args[0], "help") && !root.Action? && !HasHelpSubcommand(root)
  }

  /** What onCommand(sender, cmd, commandLabel, args) does. */
  function Respond(root: Node, commandLabel: string, args: seq<string>, granted: string -> bool,
                   acceptsFloat: string -> bool): Response
  {
    if !HasPermission(root, granted) then Response(true, [NoPermission], None)
    else if Intercepts(root, args) then
      if |args| >= 2 && EqualsIgnoreCase(args[1], "tree") then
        Response(true, [TreeHeader] + TreeLines(root, commandLabel, "", true, granted), None)
      else
        Response(true, [ListingHeader] + Listing(root.children, commandLabel, granted) + [HelpTreeHint(root.name)], None)
    else Response(true, [], Some(Execute(root, args, acceptsFloat)))
  }

  /** A root the sender may not use yields the one refusal and nothing else. */
  lemma RefusedRootOnly(root: Node, commandLabel: string, args: seq<string>, granted: string -> bool,
                        acceptsFloat: string -> bool)
    requires !HasPermission(root, granted)
    ensures Respond(root, commandLabel, args, granted, acceptsFloat) == Response(true, [NoPermission], None)
  {
  }

  /**
   * The root is executed unless the sender lacks permission or help is intercepted, which
   * happens exactly for a group root, a first token "help" in any case, and no node named
   * "help" anywhere below the root.
   */
  lemma InterceptionIff(root: Node, commandLabel: string, args: seq<string>, granted: string -> bool,
                        acceptsFloat: string -> bool)
    requires HasPermission(root, granted)
    ensures Respond(root, commandLabel, args, granted, acceptsFloat).dispatched.None? <==>
              |args| >= 1 && ToLower(args[0]) == "help" && root.HasSubCommands() && "help" !in DescendantNames(root)
  {
    HasHelpIffDescendant(root);
    assert ToLower("help") == "help";
  }

  /** Not intercepted: the root receives the whole token list, and nothing is printed. */
  lemma DelegatesUnchanged(root: Node, commandLabel: string, args: seq<string>, granted: string -> bool,
                           acceptsFloat: string -> bool)
    requires HasPermission(root, granted) && !Intercepts(root, args)
    ensures Respond(root, commandLabel, args, granted, acceptsFloat) == Response(true, [], Some(Execute(root, args, acceptsFloat)))
  {
  }

  /** Intercepted "help tree" (either word in any case) prints the header and then the tree,
      whose first line is the root's, drawn as last. */
  lemma HelpTreePrintsTree(root: Node, commandLabel: string, args: seq<string>, granted: string -> bool,
                           acceptsFloat: string -> bool)
    requires HasPermission(root, granted) && Intercepts(root, args)
    requires |args| >= 2 && ToLower(args[1]) == "tree"
    ensures var ms := Respond(root, commandLabel, args, granted, acceptsFloat).messages;
            ms == [TreeHeader] + TreeLines(root, commandLabel, "", true, granted)
            && |ms| >= 2 && ms[1] == "└─ " + commandLabel + " - " + root.description
  {
    assert ToLower("tree") == "tree";
    TreeLinesHead(root, commandLabel, "", true, granted);
    assert "" + "└─ " == "└─ ";
  }

  /** Any other intercepted "help" lists the visible children, then the hint. */
  lemma HelpListsVisibleChildren(root: Node, commandLabel: string, args: seq<string>, granted: string -> bool,
                                 acceptsFloat: string -> bool)
    requires HasPermission(root, granted) && Intercepts(root, args)
    requires |args| < 2 || ToLower(args[1]) != "tree"
    ensures var ms := Respond(root, commandLabel, args, granted, acceptsFloat).messages;
            var vis := Visible(root.children, granted);
            |ms| == |vis| + 2 && ms[0] == ListingHeader && ms[|ms| - 1] == HelpTreeHint(root.name)
            && forall i :: 0 <= i < |vis| ==> ms[i + 1] == ListingLine(commandLabel, vis[i])
  {
    assert ToLower("tree") == "tree";
    ListingIsVisibleLines(root.children, commandLabel, granted);
  }

  /** "HELP" is intercepted as "help" is. */
  lemma UpperCaseHelpExample(root: Node, granted: string -> bool, acceptsFloat: string -> bool)
    requires root.Group? && root.children == [] && HasPermission(root, granted)
    ensures Respond(root, "cmd", ["HELP"], granted, acceptsFloat) ==
              Response(true, [ListingHeader, HelpTreeHint(root.name)], None)
  {
    assert ToLower("HELP") == ToLower("help");
    assert !HasHelpSubcommand(root);
  }

  // ---------------------------------------------------------------------------------------
  // The source's loops

  /** printTree, sending its lines in order. */
  method PrintTree(node: Node, path: string, prefix: string, isLast: bool, granted: string -> bool)
    returns (sent: seq<string>)
    requires !node.Action?
    ensures sent == TreeLines(node, path, prefix, isLast, granted)
    decreases node, 1
  {
    if !HasPermission(node, granted) {
      return [];
    }
    var branch := prefix + Branch(isLast);
    var visibleChildren := Visible(node.children, granted);
    var rest := PrintChildren(node, visibleChildren, path, prefix + Indent(isLast), granted);
    sent := [branch + path + " - " + node.description] + rest;
  }

  /** The loop of printTree over the visible children, with its counter i. */
  method PrintChildren(node: Node, visibleChildren: seq<Node>, path: string, childPrefix: string,
                       granted: string -> bool)
    returns (sent: seq<string>)
    requires !node.Action? && forall c :: c in visibleChildren ==> c in node.children
    ensures sent == ChildLines(node, visibleChildren, 0, path, childPrefix, granted)
    decreases node, 0
  {
    sent := [];
    var i := 0;
    while i < |visibleChildren|
      invariant i <= |visibleChildren|
      invariant sent + ChildLines(node, visibleChildren, i, path, childPrefix, granted)
                == ChildLines(node, visibleChildren, 0, path, childPrefix, granted)
      decreases |visibleChildren| - i
    {
      var child := visibleChildren[i];
      assert child in node.children;
      var lastChild := |visibleChildren| - 1 == i;
      var block;
      if !child.Action? {
        block := PrintTree(child, path + " " + child.name, childPrefix, lastChild, granted);
      } else {
        var childLine := PrintAction(child, path, childPrefix, lastChild);
        block := [childLine];
      }
      assert block == ChildBlock(node, visibleChildren, i, path, childPrefix, granted);
      ChildLinesStep(node, visibleChildren, i, path, childPrefix, granted, sent);
      sent := sent + block;
      i := i + 1;
    }
  }

  lemma ChildLinesStep(n: Node, vis: seq<Node>, i: nat, path: string, childPrefix: string,
                       granted: string -> bool, sent: seq<string>)
    requires !n.Action? && forall c :: c in vis ==> c in n.children
    requires i < |vis|
    ensures sent + ChildLines(n, vis, i, path, childPrefix, granted)
            == (sent + ChildBlock(n, vis, i, path, childPrefix, granted)) + ChildLines(n, vis, i + 1, path, childPrefix, granted)
  {
  }

  /** The line for an action child, its parameter tags built up one by one. */
  method PrintAction(child: Node, path: string, childPrefix: string, lastChild: bool) returns (childLine: string)
    requires child.Action?
    ensures childLine == ActionLine(child, path, childPrefix, lastChild)
  {
    var params := "";
    for j := 0 to |child.params|
      invariant params == TypeTags(child.params[..j])
    {
      var arg := child.params[j];
      assert child.params[..j + 1][..j] == child.params[..j];
      params := params + "<" + arg.name + ":" + ToLower(arg.kind.Name()) + ">";
    }
    assert child.params[..|child.params|] == child.params;
    childLine := childPrefix + Branch(lastChild) + path + " " + child.name
                 + (if |params| > 0 then " " + params else "") + " - " + child.description;
  }

  /** The listing loop of onCommand. */
  method ListChildren(children: seq<Node>, commandLabel: string, granted: string -> bool) returns (sent: seq<string>)
    ensures sent == Listing(children, commandLabel, granted)
  {
    sent := [];
    for k := 0 to |children|
      invariant sent == Listing(children[..k], commandLabel, granted)
    {
      var child := children[k];
      assert children[..k + 1][..k] == children[..k];
      if HasPermission(child, granted) {
        var line := ListLine(child, commandLabel);
        sent := sent + [line];
      }
    }
    assert children[..|children|] == children;
  }

  /** One listing line, its parameter names appended one by one. */
  method ListLine(child: Node, commandLabel: string) returns (line: string)
    ensures line == ListingLine(commandLabel, child)
  {
    line := "- /" + commandLabel + " " + child.name;
    if child.Action? {
      for j := 0 to |child.params|
        invariant line == "- /" + commandLabel + " " + child.name + ParamNames(child.params[..j])
      {
        assert child.params[..j + 1][..j] == child.params[..j];
        line := line + " <" + child.params[j].name + ">";
      }
      assert child.params[..|child.params|] == child.params;
    }
    line := line + " - " + child.description;
  }

  /** onCommand: its return value and the messages it sends, or the root's execution. */
  method OnCommand(root: Node, commandLabel: string, args: seq<string>, granted: string -> bool,
                   acceptsFloat: string -> bool)
    returns (handled: bool, sent: seq<string>, dispatched: Option<Outcome>)
    ensures Response(handled, sent, dispatched) == Respond(root, commandLabel, args, granted, acceptsFloat)
  {
    if !HasPermission(root, granted) {
      return true, [NoPermission], None;
    }
    if |args| >= 1 && EqualsIgnoreCase(args[0], "help") && !root.Action? && !HasHelpSubcommand(root) {
      if |args| >= 2 && EqualsIgnoreCase(args[1], "tree") {
        var tree := PrintTree(root, commandLabel, "", true, granted);
        return true, [TreeHeader] + tree, None;
      }
      var listing := ListChildren(root.children, commandLabel, granted);
      return true, [ListingHeader] + listing + [HelpTreeHint(root.name)], None;
    }
    var outcome := Execute(root, args, acceptsFloat);
    return true, [], Some(outcome);
  }
}
