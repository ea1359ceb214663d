# Command-tree dispatch engine, modelled in Dafny

This project models the core of a Bukkit command library. The library routes a
command's token list through a tree of named nodes:

- **Group nodes** dispatch on the first token.
- **Hybrid nodes** are groups that run their own callback when no token is left.
- **Action nodes** are leaves. They turn the remaining tokens into typed values and invoke
  their callback.

The model covers four parts:

- the typed-parameter parser of the action node;
- routing and tab completion through the tree;
- the entry point, which checks the root's permission, intercepts `help` / `help tree`,
  prints the listing or the tree, and otherwise delegates;
- the tab-completion entry point, which injects the literals `help` and `tree`.

Nodes are values of the closed datatype `ExecutorNodes.Node` (`Action | Group | Hybrid`).

- **Mutation.** The in-place mutators (`addChild`, `addChildren`, `addExecutor`,
  `setPermission`, `withPermission`) are methods of the class `NodeCells.NodeCell`. Its
  `Snapshot()` is the node value that routing reads.
- **Children.** A group's child HashMap is a sequence of nodes, and `ChildMap` is the
  map that sequence stands for.
  - At most one node per name is an invariant of `NodeCell.Valid()`, which holds it for
    one cell's own children. `addChild` and `addChildren` preserve it.
  - The `Node` datatype itself allows repeated names at any depth. For such values
    `Lookup` takes the first match, and lemmas that need unique names (such as
    `KnownFirstToken`) require `UniqueNames`.
- **Loops.** Every loop of the source but one is a method proved equal to a specification
  function. The exception is hasHelpSubcommand's search: it is the recursive predicate
  `HelpAmong`, checked against `DescendantNames` by `HasHelpIffDescendant`. The
  properties are lemmas about those functions:
  - `ActionNodes.Execute`, `ReadQuoted`, `ReadGreedy` and `TabComplete`;
  - `NodeCell.AddChildren`;
  - `CommandWrapper.OnCommand` and `PrintTree`.

A few things are parameters rather than definitions:

- **Permissions.** The sender's permission test is a parameter `granted: string -> bool`.
- **Floats.** Java's `Float.parseFloat` / `Double.parseDouble` acceptance test is a
  parameter `acceptsFloat: string -> bool`.
- **Messages.** They are the source's texts without the colour codes and without the
  prefix the chat helper adds.
- **Outcomes.** An execution ends in `Invoked(callback, values)` or `Error(message)`.

Modules and files:

- `options.dfy`, `text.dfy` and `numbers.dfy` are helpers. They hold `Option`, the ASCII
  string operations and Java's bounded integer parsing.
- `parameter_type.dfy` and `typed_parameter.dfy` hold the parameter kinds and the
  parameter record.
- `invocation.dfy` holds the values, callbacks and outcomes.
- `action_node.dfy` and `action_properties.dfy` hold the action node.
- `executor_node.dfy` holds the node datatype, permissions and the child map.
- `group_node.dfy` holds routing and completion; `hybrid_node.dfy` holds the hybrid node.
- `node_cell.dfy` holds the mutable node objects.
- `executor_wrapper.dfy` holds `onCommand`, `printTree` and `hasHelpSubcommand`.
- `tab_completer.dfy` holds `onTabComplete`.

Two places in the source do not compile as written:

- **Enum class.** `CommandActionNode.execute` calls `expectedArg.enumClass()`, but
  `TypedParameter` defines no such member. The model supplies it: the parameter carries an
  optional enum domain, `enumDomain: Option<seq<string>>`. Both constructors leave it absent, which makes every
  ENUM parameter fail with "No enum class provided for parameter: ...". A bound domain is
  modelled by updating the field.
- **Stale class names.** `CommandExecutorWrapper` names `ParentExecutorNode`,
  `ParameterExecutorNode` and `TypedArgument`. They are read as the group node (including
  its hybrid subclass), the action node and `TypedParameter`.

## Model

| member | source | states |
|---|---|---|
| ParameterTypes.NamesDistinct | src/main/java/org/lilbrocodes/commander/api/argument/ParameterType.java:4-15 | the ten kinds have ten distinct upper-case names (`type.name()`); TypeTagShowsKind uses this so the tree's tags tell the kinds apart |
| ParameterTypes.NameIsCapitals | src/main/java/org/lilbrocodes/commander/api/argument/ParameterType.java:4-15 | every kind's name is written in capitals and underscores only, so lower-casing it loses nothing |
| TypedParameters.WithSuggestions | src/main/java/org/lilbrocodes/commander/api/argument/TypedParameter.java:22-26 | the three-argument constructor keeps the name, the kind and the supplied suggestions, and no enum domain |
| TypedParameters.Of | src/main/java/org/lilbrocodes/commander/api/argument/TypedParameter.java:34-42 | the two-argument constructor gives BOOL exactly ["true","false"] in that order and every other kind no suggestions |
| Numbers.ParseInteger | src/main/java/org/lilbrocodes/commander/api/executor/CommandActionNode.java:111-122 | a result is always within the width's signed range; the parse fails exactly on a non-literal or an out-of-range value |
| Numbers.ParseShowRoundTrip | src/main/java/org/lilbrocodes/commander/api/executor/CommandActionNode.java:111-122 | every value in range, written in decimal, is read back as itself at that width |
| Numbers.ParseWidens | src/main/java/org/lilbrocodes/commander/api/executor/CommandActionNode.java:111-122 | a literal accepted as a short is accepted with the same value as an int, and an int as a long |
| Numbers.RejectsNonLiterals | src/main/java/org/lilbrocodes/commander/api/executor/CommandActionNode.java:111-122 | the empty text, a lone sign and a decimal point are number-format errors |
| Numbers.ShortBoundary | src/main/java/org/lilbrocodes/commander/api/executor/CommandActionNode.java:111-114 | 32767 and -32768 are shorts, and 32768 is not a short but is an int |
| Numbers.ShowNatIsDigits | src/main/java/org/lilbrocodes/commander/api/executor/CommandActionNode.java:111-122 | the decimal rendering of n is a non-empty digit string whose value is n |
| Text.JoinStartsWithFirst | src/main/java/org/lilbrocodes/commander/api/executor/CommandActionNode.java:83-88 | a space-join of tokens begins with its first token, so a quoted span keeps its opening quote |
| Text.JoinEndsWithCharOfLast | src/main/java/org/lilbrocodes/commander/api/executor/CommandActionNode.java:90 | the joined quoted span ends with `"` exactly when its last token does |
| ActionNodes.QuoteEnd | src/main/java/org/lilbrocodes/commander/api/executor/CommandActionNode.java:84-88 | the quoted scan stops at the first token, from the start token on, that ends with `"`, or else at the last token |
| ActionNodes.QuotedStep | src/main/java/org/lilbrocodes/commander/api/executor/CommandActionNode.java:77-102 | a quoted string that succeeds yields a string value and advances the cursor within the tokens |
| ActionNodes.StepFor | src/main/java/org/lilbrocodes/commander/api/executor/CommandActionNode.java:68-166 | a filled parameter advances the cursor by at least one, stays within the tokens, and yields a value of the parameter's kind |
| ActionNodes.ParseParams | src/main/java/org/lilbrocodes/commander/api/executor/CommandActionNode.java:59-167 | a successful parse yields one value per parameter, in order, each of its parameter's kind, with the cursor at least one per parameter further on |
| ActionNodes.ReadQuoted | src/main/java/org/lilbrocodes/commander/api/executor/CommandActionNode.java:77-102 | the quoted-string loop with its StringBuilder returns exactly `QuotedStep`, whose value and errors QuotedSuccess, QuotedTook, QuotedNeedsOpening, QuotedUnterminated and LoneQuote state |
| ActionNodes.ReadGreedy | src/main/java/org/lilbrocodes/commander/api/executor/CommandActionNode.java:103-110 | the greedy loop builds the cursor token and every later token joined by single spaces |
| ActionNodes.ReadParameter | src/main/java/org/lilbrocodes/commander/api/executor/CommandActionNode.java:68-166 | the switch over the parameter kinds returns exactly `StepFor` for every kind, the function StepPrefix, IntegerRoundTrip, BoolAccepts, EnumAccepts and EnumUnknown are about |
| ActionNodes.Execute | src/main/java/org/lilbrocodes/commander/api/executor/CommandActionNode.java:57-174 | the execute loop over the parameters, with its argIndex cursor, produces exactly `ActionOutcome`, the function InvokedValues, MissingParameterStops, UnsetExecutor and TrailingTokensIgnored are about |
| ActionNodes.TabComplete | src/main/java/org/lilbrocodes/commander/api/executor/CommandActionNode.java:185-204 | the completion loop produces exactly `CompletionsFor`, which CompletionPastParameters and CompletionOfCurrentParameter characterise |
| ActionProperties.ParseSplit | src/main/java/org/lilbrocodes/commander/api/executor/CommandActionNode.java:60-167 | parsing a parameter list is parsing a prefix, then the rest from where the prefix's cursor stopped; a failure in the prefix is the whole result |
| ActionProperties.MissingParameterStops | src/main/java/org/lilbrocodes/commander/api/executor/CommandActionNode.java:62-66 | when the tokens run out at parameter k, the outcome is exactly "Missing parameter: " + name of parameter k, and no callback is invoked |
| ActionProperties.ShortInputNeverInvokes | src/main/java/org/lilbrocodes/commander/api/executor/CommandActionNode.java:62-66 | fewer tokens than parameters always ends in an error |
| ActionProperties.InvokedValues | src/main/java/org/lilbrocodes/commander/api/executor/CommandActionNode.java:62-173 | the callback is invoked iff it is set and every parameter parsed; it then gets one value per parameter, in order, each of its parameter's kind |
| ActionProperties.UnsetExecutor | src/main/java/org/lilbrocodes/commander/api/executor/CommandActionNode.java:169-173 | with every parameter filled and no callback, the outcome is "Executor for command <name> not set." |
| ActionProperties.QuoteEndPrefix | src/main/java/org/lilbrocodes/commander/api/executor/CommandActionNode.java:84-88 | the quoted scan's end does not depend on tokens after a closing quote |
| ActionProperties.StepPrefix | src/main/java/org/lilbrocodes/commander/api/executor/CommandActionNode.java:68-166 | a successful step does not depend on tokens after the ones it consumed |
| ActionProperties.ParsePrefix | src/main/java/org/lilbrocodes/commander/api/executor/CommandActionNode.java:62-167 | a successful parse does not depend on tokens after the ones it consumed |
| ActionProperties.TrailingTokensIgnored | src/main/java/org/lilbrocodes/commander/api/executor/CommandActionNode.java:62-170 | unconsumed trailing tokens are ignored: cutting them off gives the same outcome |
| ActionProperties.QuotedSuccess | src/main/java/org/lilbrocodes/commander/api/executor/CommandActionNode.java:83-101 | from an opening quote to the first token ending in `"`, the value is the span's space-join less its first and last character, and the cursor ends one past that token |
| ActionProperties.QuotedTook | src/main/java/org/lilbrocodes/commander/api/executor/CommandActionNode.java:78-101 | conversely, every successful quoted string is such a span, with an opening quote and a closing token |
| ActionProperties.QuotedNeedsOpening | src/main/java/org/lilbrocodes/commander/api/executor/CommandActionNode.java:78-81 | a start token not beginning with `"` fails with the start-quote error |
| ActionProperties.QuotedUnterminated | src/main/java/org/lilbrocodes/commander/api/executor/CommandActionNode.java:84-93 | with no token ending in `"`, the scan reaches the end and fails with the end-quote error |
| ActionProperties.LoneQuote | src/main/java/org/lilbrocodes/commander/api/executor/CommandActionNode.java:84-98 | a lone `"` fails with "missing content and end quote", whatever follows it |
| ActionProperties.EmptyQuoted | src/main/java/org/lilbrocodes/commander/api/executor/CommandActionNode.java:95-101 | the token `""` yields the empty string |
| ActionProperties.QuotedExample | src/main/java/org/lilbrocodes/commander/api/executor/CommandActionNode.java:83-101 | `"a` followed by `b"` yields `a b` and advances the cursor by 2 |
| ActionProperties.GreedyConsumesAll | src/main/java/org/lilbrocodes/commander/api/executor/CommandActionNode.java:103-110 | a greedy parameter takes the cursor token and every later one, joined by single spaces, and moves the cursor to the token count |
| ActionProperties.GreedyThenMissing | src/main/java/org/lilbrocodes/commander/api/executor/CommandActionNode.java:62-110 | the parameter after a greedy one always fails as a missing parameter |
| ActionProperties.GreedyAfterPrefix | src/main/java/org/lilbrocodes/commander/api/executor/CommandActionNode.java:103-110 | after a greedy parameter the parse's cursor is at the end of the tokens |
| ActionProperties.GreedyPrefixConsumesAll | src/main/java/org/lilbrocodes/commander/api/executor/CommandActionNode.java:103-110 | a list ending in a greedy parameter parses with its cursor at the end of the tokens |
| ActionProperties.GreedyExample | src/main/java/org/lilbrocodes/commander/api/executor/CommandActionNode.java:103-110 | `hello` `world` is the single greedy value `hello world` |
| ActionProperties.IntegerRoundTrip | src/main/java/org/lilbrocodes/commander/api/executor/CommandActionNode.java:111-122 | SHORT, INT and LONG accept every value of their width written in decimal, as that value |
| ActionProperties.IntegerRejects | src/main/java/org/lilbrocodes/commander/api/executor/CommandActionNode.java:111-166 | a text the width's parser refuses fails with "Invalid number for parameter '<name>': <raw>" |
| ActionProperties.ShortOverflowExample | src/main/java/org/lilbrocodes/commander/api/executor/CommandActionNode.java:111-166 | 32768 is an invalid number for SHORT and the value 32768 for INT |
| ActionProperties.BoolAccepts | src/main/java/org/lilbrocodes/commander/api/executor/CommandActionNode.java:131-141 | BOOL yields true iff the text is "true" in any case, and false iff "false"; anything else fails with the boolean message naming the parameter and the text |
| ActionProperties.BoolExamples | src/main/java/org/lilbrocodes/commander/api/executor/CommandActionNode.java:131-141 | "TRUE" is true, and "1" fails with the boolean message, not the number message |
| ActionProperties.EnumIgnoresCase | src/main/java/org/lilbrocodes/commander/api/executor/CommandActionNode.java:151-153 | "red", "Red" and "RED" all name RED |
| ActionProperties.EnumAccepts | src/main/java/org/lilbrocodes/commander/api/executor/CommandActionNode.java:150-153 | text whose upper-case form names a constant of the bound enum yields that constant and advances the cursor by one (with EnumUnknown, the whole if-and-only-if) |
| ActionProperties.EnumUnknown | src/main/java/org/lilbrocodes/commander/api/executor/CommandActionNode.java:150-159 | text naming no constant fails with the enum message listing the parameter's suggestions |
| ActionProperties.EnumUnknownExample | src/main/java/org/lilbrocodes/commander/api/executor/CommandActionNode.java:155-157 | the listed suggestions are joined by ", " |
| ActionProperties.EnumWithoutDomain | src/main/java/org/lilbrocodes/commander/api/executor/CommandActionNode.java:144-148 | an ENUM parameter with no enum class fails with "No enum class provided for parameter: <name>" |
| ActionProperties.EnumDefaultSuggestionsEmpty | src/main/java/org/lilbrocodes/commander/api/executor/CommandActionNode.java:155-157 | an ENUM built with the two-argument constructor lists nothing in its rejection |
| ActionProperties.FilterCounts | src/main/java/org/lilbrocodes/commander/api/executor/CommandActionNode.java:195-201 | completion keeps every copy of a matching suggestion and drops every other one |
| ActionProperties.FilterPreservesOrder | src/main/java/org/lilbrocodes/commander/api/executor/CommandActionNode.java:196-200 | the kept suggestions keep their order: they sit at strictly increasing positions of the source list |
| ActionProperties.CompletionPastParameters | src/main/java/org/lilbrocodes/commander/api/executor/CommandActionNode.java:188-191 | with n tokens and at most n-1 parameters, there are no completions |
| ActionProperties.CompletionOfCurrentParameter | src/main/java/org/lilbrocodes/commander/api/executor/CommandActionNode.java:193-201 | otherwise the completions are exactly parameter n-1's suggestions whose lower-case form starts with the lower-case last token |
| ActionProperties.BoolCompletionExample | src/main/java/org/lilbrocodes/commander/api/executor/CommandActionNode.java:193-201 | a default BOOL parameter completes "T" to exactly ["true"] |
| ExecutorNodes.PermissionString | src/main/java/org/lilbrocodes/commander/api/executor/ExecutorNode.java:45-48 | a node is checked against its explicit permission when one is set, and otherwise against a string beginning "<plugin>." and ending with its name |
| ExecutorNodes.FallbackPermission | src/main/java/org/lilbrocodes/commander/api/executor/ExecutorNode.java:45-48 | without an explicit permission, hasPermission is the sender's test of exactly pluginName + "." + name |
| ExecutorNodes.PermissionIsOpaque | src/main/java/org/lilbrocodes/commander/api/executor/ExecutorNode.java:47 | hasPermission depends only on the sender's answer for the chosen string, never on the string's contents |
| ExecutorNodes.ChildMap | src/main/java/org/lilbrocodes/commander/api/executor/CommandGroupNode.java:13 | the child map's keys are exactly the children's names |
| ExecutorNodes.Lookup | src/main/java/org/lilbrocodes/commander/api/executor/CommandGroupNode.java:62-86 | children.get finds a child with exactly that name, and finds nothing iff no child has it |
| ExecutorNodes.LookupIsMapGet | src/main/java/org/lilbrocodes/commander/api/executor/CommandGroupNode.java:62-86 | a lookup in the child sequence is a read of the map it stands for |
| ExecutorNodes.Put | src/main/java/org/lilbrocodes/commander/api/executor/CommandGroupNode.java:31-33 | adding a child grows the children by one exactly when its name is new |
| ExecutorNodes.PutUpdatesMap | src/main/java/org/lilbrocodes/commander/api/executor/CommandGroupNode.java:31-33 | addChild stores the node under its own name, replacing any child of that name, and leaves every other entry unchanged |
| ExecutorNodes.PutNames | src/main/java/org/lilbrocodes/commander/api/executor/CommandGroupNode.java:31-33 | after addChild the names held are the old names plus the node's |
| ExecutorNodes.PutKeepsNamesUnique | src/main/java/org/lilbrocodes/commander/api/executor/CommandGroupNode.java:31-33 | addChild keeps at most one child per name, as map keys are |
| ExecutorNodes.Collect | src/main/java/org/lilbrocodes/commander/api/executor/CommandGroupNode.java:40-44 | the map a node list builds has exactly the list's names as keys |
| ExecutorNodes.PutAllUpdatesMap | src/main/java/org/lilbrocodes/commander/api/executor/CommandGroupNode.java:40-44 | addChildren is addChild on each node in order: the map gains the nodes, and for a repeated name the last node wins |
| ExecutorNodes.LastDuplicateWins | src/main/java/org/lilbrocodes/commander/api/executor/CommandGroupNode.java:40-44 | of several added nodes with one name, the last is the child found under it |
| ExecutorNodes.PutAllKeepsNamesUnique | src/main/java/org/lilbrocodes/commander/api/executor/CommandGroupNode.java:40-44 | addChildren keeps at most one child per name |
| NodeCells.NodeCell.Snapshot | src/main/java/org/lilbrocodes/commander/api/executor/ExecutorNode.java:14-17 | the node value has the object's name, description, plugin name and permission; it is an action, group or hybrid as the object's kind says; an action's parameters and an action's or hybrid's callback are the object's; a group's or hybrid's children are the object's |
| NodeCells.NodeCell.ActionNode | src/main/java/org/lilbrocodes/commander/api/executor/CommandActionNode.java:29-48 | a new action node has the given identity, parameters and callback, and no explicit permission |
| NodeCells.NodeCell.GroupNode | src/main/java/org/lilbrocodes/commander/api/executor/CommandGroupNode.java:22-24 | a new group node has the given identity and no children |
| NodeCells.NodeCell.HybridNode | src/main/java/org/lilbrocodes/commander/api/executor/CommandHybridNode.java:25-39 | a new hybrid node has the given identity and callback, and no children |
| NodeCells.NodeCell.GetPermission | src/main/java/org/lilbrocodes/commander/api/executor/ExecutorNode.java:35 | getPermission returns the permission field, so it returns p after setPermission(p) |
| NodeCells.NodeCell.SetPermission | src/main/java/org/lilbrocodes/commander/api/executor/ExecutorNode.java:36 | setPermission changes the permission and nothing else; name, description and plugin name are constants |
| NodeCells.NodeCell.WithPermission | src/main/java/org/lilbrocodes/commander/api/executor/ExecutorNode.java:57-60 | withPermission sets the permission and returns the same object |
| NodeCells.NodeCell.AddExecutor | src/main/java/org/lilbrocodes/commander/api/executor/CommandHybridNode.java:59-61 | addExecutor on an action or hybrid node replaces the callback and changes nothing else (CommandActionNode.java:215-217 is the same) |
| NodeCells.NodeCell.AddChild | src/main/java/org/lilbrocodes/commander/api/executor/CommandGroupNode.java:31-33 | addChild updates the child map at the node's name, keeps the names unique and changes nothing else |
| NodeCells.NodeCell.AddChildren | src/main/java/org/lilbrocodes/commander/api/executor/CommandGroupNode.java:40-44 | the addChildren loop leaves the children equal to adding each node in turn, so the map gains the nodes with the last duplicate winning |
| NodeCells.ExplicitPermission | src/main/java/org/lilbrocodes/commander/api/executor/ExecutorNode.java:45-48 | once a permission p is set, the node is checked against p and nothing else |
| Dispatch.EmptyIsMissingSubcommand | src/main/java/org/lilbrocodes/commander/api/executor/CommandGroupNode.java:57-60 | a group given no tokens reports "Missing subcommand. Try /<name> help" and delegates nowhere |
| Dispatch.UnknownFirstToken | src/main/java/org/lilbrocodes/commander/api/executor/CommandGroupNode.java:62-66 | a first token that is no child's exact name is reported as "Unknown subcommand: <token>" |
| Dispatch.CaseSensitiveExample | src/main/java/org/lilbrocodes/commander/api/executor/CommandGroupNode.java:62-66 | "GIVE" does not select the child "give" |
| Dispatch.KnownFirstToken | src/main/java/org/lilbrocodes/commander/api/executor/CommandGroupNode.java:62-68 | a first token naming a child runs that child on the tokens minus the first, exactly one fewer |
| Dispatch.LookupFindsMember | src/main/java/org/lilbrocodes/commander/api/executor/CommandGroupNode.java:62 | with unique names, looking up a child's name finds that child |
| Dispatch.NamesStartingWithMembers | src/main/java/org/lilbrocodes/commander/api/executor/CommandGroupNode.java:80-82 | the one-token filter keeps exactly the child names that start with the token, case-sensitively |
| Dispatch.NamesStartingWithDistinct | src/main/java/org/lilbrocodes/commander/api/executor/CommandGroupNode.java:80-82 | each kept name appears once |
| Dispatch.OneTokenCompletion | src/main/java/org/lilbrocodes/commander/api/executor/CommandGroupNode.java:80-82 | completing one token gives exactly the child names starting with it, each once |
| Dispatch.ManyTokenCompletion | src/main/java/org/lilbrocodes/commander/api/executor/CommandGroupNode.java:84-86 | with two or more tokens: nothing for an unknown first token, else the child's completions of the tail |
| Dispatch.ExecuteAlongPath | src/main/java/org/lilbrocodes/commander/api/executor/CommandGroupNode.java:57-68 | executing a path of child names followed by the rest is executing the node reached on the rest |
| Dispatch.CompleteAlongPath | src/main/java/org/lilbrocodes/commander/api/executor/CommandGroupNode.java:84-86 | completing a path of child names followed by a non-empty rest is completing the rest at the node reached |
| Dispatch.InvokedComesFromPath | src/main/java/org/lilbrocodes/commander/api/executor/CommandHybridNode.java:48-56 | every invocation comes from an action node reached by a prefix of the tokens and parsing the rest, or from a hybrid node reached by all of them with no values; a group invokes nothing itself |
| HybridNodes.ZeroTokensInvokesCallback | src/main/java/org/lilbrocodes/commander/api/executor/CommandHybridNode.java:48-50 | with no tokens and a callback, the callback is invoked once with no values |
| HybridNodes.ZeroTokensWithoutCallback | src/main/java/org/lilbrocodes/commander/api/executor/CommandHybridNode.java:51-53 | with no tokens and no callback, the outcome is "Executor for command <name> not set." |
| HybridNodes.AsGroup | src/main/java/org/lilbrocodes/commander/api/executor/CommandHybridNode.java:14 | the group node a hybrid extends has the same name and children |
| HybridNodes.TokensDispatchAsGroup | src/main/java/org/lilbrocodes/commander/api/executor/CommandHybridNode.java:54-56 | with one or more tokens a hybrid executes exactly as the group node |
| HybridNodes.CompletesAsGroup | src/main/java/org/lilbrocodes/commander/api/executor/CommandHybridNode.java:14 | a hybrid's completion is inherited from the group node unchanged |
| CommandWrapper.HasHelpIffDescendant | src/main/java/org/lilbrocodes/commander/api/wrapper/CommandExecutorWrapper.java:111-117 | hasHelpSubcommand is true iff some descendant at any depth, not the node itself, is named exactly "help" |
| CommandWrapper.HelpAmongIff | src/main/java/org/lilbrocodes/commander/api/wrapper/CommandExecutorWrapper.java:112-116 | the loop from the i-th child finds "help" iff a later child or something below it has that name |
| CommandWrapper.Visible | src/main/java/org/lilbrocodes/commander/api/wrapper/CommandExecutorWrapper.java:88 | the visible children are exactly those passing their own permission check |
| CommandWrapper.ParamNamesJoin | src/main/java/org/lilbrocodes/commander/api/wrapper/CommandExecutorWrapper.java:56-60 | an action child's listing shows one <name> per parameter, in order |
| CommandWrapper.ListingIsVisibleLines | src/main/java/org/lilbrocodes/commander/api/wrapper/CommandExecutorWrapper.java:52-63 | the listing has one line per visible child, in order, and none for the others |
| CommandWrapper.HiddenPrintsNothing | src/main/java/org/lilbrocodes/commander/api/wrapper/CommandExecutorWrapper.java:82 | a node failing its permission check prints nothing, hence nothing of its subtree |
| CommandWrapper.BlockHead | src/main/java/org/lilbrocodes/commander/api/wrapper/CommandExecutorWrapper.java:90-104 | each visible child's first line starts with the children's prefix, then └─ for the last visible child and ├─ for the others, then the child's path |
| CommandWrapper.TreeLinesChildren | src/main/java/org/lilbrocodes/commander/api/wrapper/CommandExecutorWrapper.java:87-104 | after its own line, a visible group prints its visible children's blocks with its prefix extended by "   " when it is drawn last and by "│  " otherwise; the first child's line starts with that prefix, its connector and its path |
| CommandWrapper.TypeTagShowsKind | src/main/java/org/lilbrocodes/commander/api/wrapper/CommandExecutorWrapper.java:96-99 | a parameter's `<name:type>` tag determines its kind: two parameters of one name get the same tag only when their kinds agree |
| CommandWrapper.ActionLineHead | src/main/java/org/lilbrocodes/commander/api/wrapper/CommandExecutorWrapper.java:100-103 | an action child's line starts with its prefix, its connector and its path |
| CommandWrapper.TreeLinesHead | src/main/java/org/lilbrocodes/commander/api/wrapper/CommandExecutorWrapper.java:84-85 | a visible group prints its own line first: prefix, connector, path, description |
| CommandWrapper.TreeLineCount | src/main/java/org/lilbrocodes/commander/api/wrapper/CommandExecutorWrapper.java:81-108 | printTree sends one line for each group reached through visible nodes and for each visible action child |
| CommandWrapper.RefusedRootOnly | src/main/java/org/lilbrocodes/commander/api/wrapper/CommandExecutorWrapper.java:39-42 | a root failing its check yields only the no-permission message, no execution and the result true |
| CommandWrapper.InterceptionIff | src/main/java/org/lilbrocodes/commander/api/wrapper/CommandExecutorWrapper.java:44 | with permission, help is intercepted iff the root is a group, the first token is "help" in any case, and no node below the root is named "help" |
| CommandWrapper.DelegatesUnchanged | src/main/java/org/lilbrocodes/commander/api/wrapper/CommandExecutorWrapper.java:68-69 | otherwise the root executes the full token list unchanged, nothing is printed, and the result is true |
| CommandWrapper.HelpTreePrintsTree | src/main/java/org/lilbrocodes/commander/api/wrapper/CommandExecutorWrapper.java:45-49 | an intercepted "help tree" prints the header and then the tree, whose first line is the root drawn as last |
| CommandWrapper.HelpListsVisibleChildren | src/main/java/org/lilbrocodes/commander/api/wrapper/CommandExecutorWrapper.java:51-65 | any other intercepted help prints the header, one line per visible child, then the "help tree" hint with the root's name |
| CommandWrapper.UpperCaseHelpExample | src/main/java/org/lilbrocodes/commander/api/wrapper/CommandExecutorWrapper.java:44-65 | "HELP" is intercepted like "help" |
| CommandWrapper.PrintTree | src/main/java/org/lilbrocodes/commander/api/wrapper/CommandExecutorWrapper.java:81-109 | the recursive printTree sends exactly `TreeLines`, which TreeLinesHead, TreeLinesChildren, BlockHead, HiddenPrintsNothing and TreeLineCount describe |
| CommandWrapper.PrintChildren | src/main/java/org/lilbrocodes/commander/api/wrapper/CommandExecutorWrapper.java:87-108 | the loop over visible children with counter i sends exactly `ChildLines`, the visible children's blocks in order |
| CommandWrapper.PrintAction | src/main/java/org/lilbrocodes/commander/api/wrapper/CommandExecutorWrapper.java:96-104 | an action child's line, with its <name:type> tags appended in a loop, is exactly `ActionLine` (see ActionLineHead and TypeTagShowsKind) |
| CommandWrapper.ListChildren | src/main/java/org/lilbrocodes/commander/api/wrapper/CommandExecutorWrapper.java:52-63 | the listing loop sends exactly `Listing`, one line per visible child (ListingIsVisibleLines) |
| CommandWrapper.ListLine | src/main/java/org/lilbrocodes/commander/api/wrapper/CommandExecutorWrapper.java:55-61 | one listing line, its parameter names appended in a loop, is exactly `ListingLine`, whose parameter part ParamNamesJoin states |
| CommandWrapper.OnCommand | src/main/java/org/lilbrocodes/commander/api/wrapper/CommandExecutorWrapper.java:38-70 | onCommand's return value, messages and execution are exactly `Respond`, which RefusedRootOnly, InterceptionIff, DelegatesUnchanged, HelpTreePrintsTree and HelpListsVisibleChildren characterise |
| TabCompletion.RootCompletionsFirst | src/main/java/org/lilbrocodes/commander/api/wrapper/TabCompleterWrapper.java:38-47 | the result begins with the root's completions for the full token list, in their order, and adds at most one literal |
| TabCompletion.OneTokenAddsHelp | src/main/java/org/lilbrocodes/commander/api/wrapper/TabCompleterWrapper.java:41-42 | with exactly one token, "help" is appended |
| TabCompletion.HelpLeadAddsTree | src/main/java/org/lilbrocodes/commander/api/wrapper/TabCompleterWrapper.java:43-44 | with two or more tokens led by exactly "help", "tree" is appended |
| TabCompletion.OtherwiseNothingAdded | src/main/java/org/lilbrocodes/commander/api/wrapper/TabCompleterWrapper.java:39-46 | otherwise, "HELP" included, the result is the root's completions alone |
| TabCompletion.HelpIsUnfiltered | src/main/java/org/lilbrocodes/commander/api/wrapper/TabCompleterWrapper.java:41-42 | "help" is offered even when the typed text does not start it |

Specification functions without a row of their own have no `ensures`. The rows above state their properties:

- `Dispatch.Execute` and `Dispatch.GroupExecute` (CommandGroupNode.java:54-69, CommandHybridNode.java:47-57) are covered by:
  - EmptyIsMissingSubcommand, UnknownFirstToken, KnownFirstToken and ExecuteAlongPath;
  - InvokedComesFromPath;
  - ZeroTokensInvokesCallback, ZeroTokensWithoutCallback and TokensDispatchAsGroup.
- `Dispatch.Complete`, `Dispatch.GroupComplete` and `Dispatch.NamesStartingWith` (CommandGroupNode.java:79-87) are covered by NamesStartingWithMembers, NamesStartingWithDistinct, OneTokenCompletion, ManyTokenCompletion, CompleteAlongPath and CompletesAsGroup.
- `ActionNodes.ActionOutcome` is covered by ActionNodes.Execute, InvokedValues, MissingParameterStops, ShortInputNeverInvokes, UnsetExecutor and TrailingTokensIgnored.
- `ActionNodes.IntegerStep` is covered by IntegerRoundTrip, IntegerRejects and ShortOverflowExample.
- `ActionNodes.BoolStep` is covered by BoolAccepts and BoolExamples.
- `ActionNodes.EnumStep` is covered by EnumAccepts, EnumUnknown, EnumWithoutDomain and EnumIgnoresCase.
- `ActionNodes.FilterSuggestions` and `ActionNodes.CompletionsFor` are covered by ActionNodes.TabComplete, FilterCounts, FilterPreservesOrder, CompletionPastParameters and CompletionOfCurrentParameter.
- `ExecutorNodes.HasPermission` (ExecutorNode.java:45-48) is covered by PermissionString, FallbackPermission, PermissionIsOpaque and ExplicitPermission.
- `ExecutorNodes.PutAll` (CommandGroupNode.java:40-44) is covered by PutAllUpdatesMap, LastDuplicateWins, PutAllKeepsNamesUnique and NodeCell.AddChildren.
- `ExecutorNodes.Children` (getChildren, CommandGroupNode.java:94-96) is covered by NodeCell.Snapshot.
- `Node.HasSubCommands` (ExecutorNode.java:79, CommandActionNode.java:211-212, CommandGroupNode.java:89-92) is the guard `!Action?`. Completion, the tree and the help search take that guard as their precondition.
- `CommandWrapper.HasHelpSubcommand` and `CommandWrapper.HelpAmong` (CommandExecutorWrapper.java:111-117) are covered by HasHelpIffDescendant and HelpAmongIff.
- `CommandWrapper.Respond` (CommandExecutorWrapper.java:38-70) is covered by OnCommand, RefusedRootOnly, InterceptionIff, DelegatesUnchanged, HelpTreePrintsTree, HelpListsVisibleChildren and UpperCaseHelpExample.
- `CommandWrapper.TreeLines` (CommandExecutorWrapper.java:81-109) is covered by PrintTree, TreeLinesHead, TreeLinesChildren, BlockHead, HiddenPrintsNothing and TreeLineCount.
- `CommandWrapper.Listing` (CommandExecutorWrapper.java:51-65) is covered by ListChildren and ListingIsVisibleLines.
- `TabCompletion.OnTabComplete` (TabCompleterWrapper.java:38-47) is covered by RootCompletionsFirst, OneTokenAddsHelp, HelpLeadAddsTree, OtherwiseNothingAdded and HelpIsUnfiltered.

## Left out

- FLOAT and DOUBLE parsing (CommandActionNode.java:123-130) is the parameter `acceptsFloat`, the JDK's acceptance test. An accepted value is kept as its literal text, not as a floating-point number.
- Case mapping and digits are ASCII only: `toUpperCase`, `toLowerCase`, `equalsIgnoreCase` and the integer parsers' Unicode digits are restricted to ASCII.
- HashMap iteration order is unspecified in the source. The model iterates children in the order of their sequence. Group completion and the listing are proved as membership facts and hold for any order. The tree's └─ / ├─ placement follows whatever order is used.
- Child aliasing: a group holds its children by value. Mutating a child object after adding it does not reach the parent, whereas in the source the parent holds a reference.
- TypedParameters.WithSuggestions: the suggestion supplier is the list it returns, not a function called again on each `suggestions()` call. The supplier is only read, so "recomputed on every call" is not stated.
- Tab completion with no tokens throws in the source (`args.get(0)` / `get(-1)`). The model requires at least one token.
- The chat helpers (ChatUtil.java, StaticChatUtil.java) are not modelled: their colour codes and plugin-name prefix are dropped from every message. The wrapper's § codes are dropped too.
- Bukkit's CommandSender is not modelled: its `hasPermission` is the parameter `granted`, and its message sink is the returned message list.
- CommanderCommand.java is registration glue and is not part of this model.
- TypedExecutor.java is not modelled: a callback is an opaque handle, and running it is the recorded outcome `Invoked(callback, values)`.
- PseudoExecutorNode.java and TypedArgument.java are legacy duplicates of the hybrid node and of TypedParameter, and are not part of this model.
- Deferred `addExecutor` from another thread is concurrency, which is out of scope.
- Java's `instanceof` on `ParentExecutorNode` in printTree has no third case: the datatype is closed, so every child is either a group (or hybrid) or an action.
