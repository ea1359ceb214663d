/**
 * The leaf of the command tree (CommandActionNode.java): it walks its parameter list left to
 * right with a cursor into the tokens, turns tokens into typed values, and either invokes its
 * callback with one value per parameter or reports the first failure.
 *
 * The parse is specified by the functions StepFor/ParseParams/ActionOutcome; the method
 * Execute is the source's loop, proved to compute ActionOutcome.
 */
module ActionNodes {
  import opened Options
  import opened Text
  import opened Numbers
  import opened ParameterTypes
  import opened TypedParameters
  import opened Invocation

  // ---------------------------------------------------------------------------------------
  // Error messages (without the plugin-name prefix and colour codes the chat helper adds)

  function MissingParameter(name: string): string {
    "Missing parameter: " + name
  }

  const StartQuoteError := "Quoted string must start with a quote (\")."
  const EndQuoteError := "Quoted string must end with a quote (\")."
  const EmptyQuoteError := "Quoted string missing content and end quote."

  function InvalidNumber(name: string, raw: string): string {
    "Invalid number for parameter '" + name + "': " + raw
  }

  function InvalidBoolean(name: string, raw: string): string {
    "Invalid value for boolean parameter '" + name + "': '" + raw + "' - must be either 'true' or 'false'."
  }

  function NoEnumClass(name: string): string {
    "No enum class provided for parameter: " + name
  }

  function InvalidEnum(name: string, raw: string, valid: seq<string>): string {
    "Invalid value for enum parameter '" + name + "': " + raw + ". Expected one of: " + JoinWith(valid, ", ")
  }

  function ExecutorNotSet(name: string): string {
    "Executor for command " + name + " not set."
  }

  // ---------------------------------------------------------------------------------------
  // One parameter

  /** The result of filling one parameter: a value and the next cursor, or an error. */
  datatype Step = Took(value: Value, next: nat) | Refused(message: string)

  /** The result of filling a list of parameters. */
  datatype Parse = Parsed(values: seq<Value>, cursor: nat) | Failed(message: string)

  /** The value kind each parameter kind produces. */
  predicate Fits(p: TypedParameter, v: Value) {
    match p.kind
    case STRING => v.Str?
    case QUOTED_STRING => v.Str?
    case GREEDY_STRING => v.Str?
    case SHORT => v.Int? && InRange(v.number, Bits16)
    case INT => v.Int? && InRange(v.number, Bits32)
    case LONG => v.Int? && InRange(v.number, Bits64)
    case BOOL => v.Bool?
    case DOUBLE => v.Decimal?
    case FLOAT => v.Decimal?
    case ENUM => v.EnumName? && p.enumDomain.Some? && v.constant in p.enumDomain.value
  }

  /**
   * Where the quoted-string scanner stops, starting at token j: the first token that ends
   * with a quote, or the last token when none does.
   */
  function QuoteEnd(tokens: seq<string>, j: nat): (e: nat)
    requires j < |tokens|
    ensures j <= e < |tokens|
    ensures forall k :: j <= k < e ==> !EndsWith(tokens[k], "\"")
    ensures EndsWith(tokens[e], "\"") || e == |tokens| - 1
    decreases |tokens| - j
  {
    if EndsWith(tokens[j], "\"") || j + 1 >= |tokens| then j else QuoteEnd(tokens, j + 1)
  }

  /** The text between the first and the last character. */
  function Unquote(s: string): string
    requires |s| >= 2
  {
    s[1..|s| - 1]
  }

  /** QUOTED_STRING at the cursor. */
  function QuotedStep(tokens: seq<string>, cursor: nat): (r: Step)
    requires cursor < |tokens|
    ensures r.Took? ==> cursor < r.next <= |tokens| && r.value.Str?
  {
    var raw := tokens[cursor];
    if !StartsWith(raw, "\"") then Refused(StartQuoteError)
    else
      var e := QuoteEnd(tokens, cursor);
      var quoted := JoinWith(tokens[cursor..e + 1], " ");
      if !EndsWith(quoted, "\"") then Refused(EndQuoteError)
      else if quoted == "\"" then Refused(EmptyQuoteError)
      else
        JoinStartsWithFirst(tokens[cursor..e + 1], " ");
        Took(Str(Unquote(quoted)), e + 1)
  }

  /** BOOL at the cursor. */
  function BoolStep(p: TypedParameter, raw: string, cursor: nat): Step {
    if EqualsIgnoreCase(raw, "true") then Took(Bool(true), cursor + 1)
    else if EqualsIgnoreCase(raw, "false") then Took(Bool(false), cursor + 1)
    else Refused(InvalidBoolean(p.name, raw))
  }

  /** ENUM at the cursor: the upper-cased text must be a constant of the bound enum. */
  function EnumStep(p: TypedParameter, raw: string, cursor: nat): Step {
    if p.enumDomain.None? then Refused(NoEnumClass(p.name))
    else if ToUpper(raw) in p.enumDomain.value then Took(EnumName(ToUpper(raw)), cursor + 1)
    else Refused(InvalidEnum(p.name, raw, p.suggestions))
  }

  /** SHORT, INT or LONG at the cursor. */
  function IntegerStep(p: TypedParameter, raw: string, w: Width, cursor: nat): Step {
    var n := ParseInteger(raw, w);
    if n.Some? then Took(Int(n.value), cursor + 1) else Refused(InvalidNumber(p.name, raw))
  }

  /**
   * Fill parameter p from the tokens at the cursor. `acceptsFloat` is Java's
   * Float.parseFloat / Double.parseDouble acceptance test, which the model does not define.
   */
  function StepFor(p: TypedParameter, tokens: seq<string>, cursor: nat, acceptsFloat: string -> bool): (r: Step)
    requires cursor < |tokens|
    ensures r.Took? ==> cursor < r.next <= |tokens| && Fits(p, r.value)
  {
    var raw := tokens[cursor];
    match p.kind
    case STRING => Took(Str(raw), cursor + 1)
    case QUOTED_STRING => QuotedStep(tokens, cursor)
    case GREEDY_STRING => Took(Str(JoinWith(tokens[cursor..], " ")), |tokens|)
    case SHORT => IntegerStep(p, raw, Bits16, cursor)
    case INT => IntegerStep(p, raw, Bits32, cursor)
    case LONG => IntegerStep(p, raw, Bits64, cursor)
    case FLOAT => if acceptsFloat(raw) then Took(Decimal(raw), cursor + 1) else Refused(InvalidNumber(p.name, raw))
    case DOUBLE => if acceptsFloat(raw) then Took(Decimal(raw), cursor + 1) else Refused(InvalidNumber(p.name, raw))
    case BOOL => BoolStep(p, raw, cursor)
    case ENUM => EnumStep(p, raw, cursor)
  }

  // ---------------------------------------------------------------------------------------
  // The parameter list

  function Prepend(vs: seq<Value>, r: Parse): Parse {
    match r
    case Parsed(ws, c) => Parsed(vs + ws, c)
    case Failed(m) => Failed(m)
  }

  /**
   * Fill the parameters in order from the cursor on. A successful parse has one fitting value
   * per parameter and has consumed at least one token per parameter.
   */
  function ParseParams(ps: seq<TypedParameter>, tokens: seq<string>, cursor: nat, acceptsFloat: string -> bool): (r: Parse)
    requires cursor <= |tokens|
    ensures r.Parsed? ==> |r.values| == |ps| && cursor + |ps| <= r.cursor <= |tokens|
    ensures r.Parsed? ==> forall i :: 0 <= i < |ps| ==> Fits(ps[i], r.values[i])
    decreases |ps|
  {
    if |ps| == 0 then Parsed([], cursor)
    else if cursor >= |tokens| then Failed(MissingParameter(ps[0].name))
    else
      match StepFor(ps[0], tokens, cursor, acceptsFloat)
      case Refused(m) => Failed(m)
      case Took(v, next) => Prepend([v], ParseParams(ps[1..], tokens, next, acceptsFloat))
  }

  /** What execute does: invoke the callback with the parsed values, or report an error. */
  function ActionOutcome(name: string, ps: seq<TypedParameter>, executor: Option<Callback>,
                         tokens: seq<string>, acceptsFloat: string -> bool): Outcome
  {
    match ParseParams(ps, tokens, 0, acceptsFloat)
    case Failed(m) => Error(m)
    case Parsed(vs, _) => if executor.Some? then Invoked(executor.value, vs) else Error(ExecutorNotSet(name))
  }

  // ---------------------------------------------------------------------------------------
  // The source's loop

  /** One step of ParseParams, seen from parameter k on. */
  lemma ParseFrom(ps: seq<TypedParameter>, k: nat, tokens: seq<string>, c: nat, acceptsFloat: string -> bool)
    requires k < |ps| && c < |tokens|
    ensures ParseParams(ps[k..], tokens, c, acceptsFloat) ==
      match StepFor(ps[k], tokens, c, acceptsFloat)
      case Refused(m) => Failed(m)
      case Took(v, next) => Prepend([v], ParseParams(ps[k + 1..], tokens, next, acceptsFloat))
  {
    assert ps[k..][0] == ps[k];
    assert ps[k..][1..] == ps[k + 1..];
  }

  lemma PrependAppend(vs: seq<Value>, v: Value, r: Parse)
    ensures Prepend(vs, Prepend([v], r)) == Prepend(vs + [v], r)
  {
    if r.Parsed? {
      assert vs + ([v] + r.values) == (vs + [v]) + r.values;
    }
  }

  /** The quoted-string branch of execute: join tokens until one ends with a quote. */
  method ReadQuoted(args: seq<string>, start: nat) returns (step: Step)
    requires start < |args|
    ensures step == QuotedStep(args, start)
  {
    var argIndex := start;
    var raw := args[argIndex];
    if !StartsWith(raw, "\"") {
      return Refused(StartQuoteError);
    }
    var quoted := raw;
    while !EndsWith(raw, "\"") && argIndex + 1 < |args|
      invariant start <= argIndex < |args|
      invariant raw == args[argIndex]
      invariant quoted == JoinWith(args[start..argIndex + 1], " ")
      invariant QuoteEnd(args, start) == QuoteEnd(args, argIndex)
    {
      argIndex := argIndex + 1;
      raw := args[argIndex];
      assert args[start..argIndex + 1][..argIndex - start] == args[start..argIndex];
      quoted := quoted + " " + raw;
    }
    if !EndsWith(quoted, "\"") {
      return Refused(EndQuoteError);
    }
    if quoted == "\"" {
      return Refused(EmptyQuoteError);
    }
    JoinStartsWithFirst(args[start..argIndex + 1], " ");
    step := Took(Str(quoted[1..|quoted| - 1]), argIndex + 1);
  }

  /** The greedy-string branch of execute: join the cursor token and all later ones. */
  method ReadGreedy(args: seq<string>, argIndex: nat) returns (greedy: string)
    requires argIndex < |args|
    ensures greedy == JoinWith(args[argIndex..], " ")
  {
    greedy := args[argIndex];
    for j := argIndex + 1 to |args|
      invariant greedy == JoinWith(args[argIndex..j], " ")
    {
      assert args[argIndex..j + 1][..j - argIndex] == args[argIndex..j];
      greedy := greedy + " " + args[j];
    }
    assert args[argIndex..|args|] == args[argIndex..];
  }

  /** The switch of execute: fill one parameter at the cursor. */
  method ReadParameter(expectedArg: TypedParameter, args: seq<string>, argIndex: nat,
                       acceptsFloat: string -> bool) returns (step: Step)
    requires argIndex < |args|
    ensures step == StepFor(expectedArg, args, argIndex, acceptsFloat)
  {
    var raw := args[argIndex];
    match expectedArg.kind {
      case STRING =>
        step := Took(Str(raw), argIndex + 1);
      case QUOTED_STRING =>
        step := ReadQuoted(args, argIndex);
      case GREEDY_STRING =>
        var greedy := ReadGreedy(args, argIndex);
        step := Took(Str(greedy), |args|);
      case SHORT =>
        var n := ParseInteger(raw, Bits16);
        step := if n.Some? then Took(Int(n.value), argIndex + 1) else Refused(InvalidNumber(expectedArg.name, raw));
      case INT =>
        var n := ParseInteger(raw, Bits32);
        step := if n.Some? then Took(Int(n.value), argIndex + 1) else Refused(InvalidNumber(expectedArg.name, raw));
      case LONG =>
        var n := ParseInteger(raw, Bits64);
        step := if n.Some? then Took(Int(n.value), argIndex + 1) else Refused(InvalidNumber(expectedArg.name, raw));
      case FLOAT =>
        step := if acceptsFloat(raw) then Took(Decimal(raw), argIndex + 1) else Refused(InvalidNumber(expectedArg.name, raw));
      case DOUBLE =>
        step := if acceptsFloat(raw) then Took(Decimal(raw), argIndex + 1) else Refused(InvalidNumber(expectedArg.name, raw));
      case BOOL =>
        if EqualsIgnoreCase(raw, "true") {
          step := Took(Bool(true), argIndex + 1);
        } else if EqualsIgnoreCase(raw, "false") {
          step := Took(Bool(false), argIndex + 1);
        } else {
          step := Refused(InvalidBoolean(expectedArg.name, raw));
        }
      case ENUM =>
        if expectedArg.enumDomain.None? {
          step := Refused(NoEnumClass(expectedArg.name));
        } else {
          var upper := ToUpper(raw);
          if upper in expectedArg.enumDomain.value {
            step := Took(EnumName(upper), argIndex + 1);
          } else {
            step := Refused(InvalidEnum(expectedArg.name, raw, expectedArg.suggestions));
          }
        }
    }
  }

  /** execute (CommandActionNode.java): the cursor loop over the parameters, then the callback. */
  method Execute(name: string, params: seq<TypedParameter>, executor: Option<Callback>,
                 args: seq<string>, acceptsFloat: string -> bool) returns (outcome: Outcome)
    ensures outcome == ActionOutcome(name, params, executor, args, acceptsFloat)
  {
    var parsed: seq<Value> := [];
    var argIndex: nat := 0;
    var k := 0;
    while k < |params|
      invariant 0 <= k <= |params|
      invariant argIndex <= |args|
      invariant ParseParams(params, args, 0, acceptsFloat) ==
                Prepend(parsed, ParseParams(params[k..], args, argIndex, acceptsFloat))
    {
      var expectedArg := params[k];
      if argIndex >= |args| {
        return Error(MissingParameter(expectedArg.name));
      }
      ParseFrom(params, k, args, argIndex, acceptsFloat);
      var step := ReadParameter(expectedArg, args, argIndex, acceptsFloat);
      if step.Refused? {
        return Error(step.message);
      }
      PrependAppend(parsed, step.value, ParseParams(params[k + 1..], args, step.next, acceptsFloat));
      parsed := parsed + [step.value];
      argIndex := step.next;
      k := k + 1;
    }
    assert params[k..] == [];
    if executor.Some? {
      outcome := Invoked(executor.value, parsed);
    } else {
      outcome := Error(ExecutorNotSet(name));
    }
  }

  // ---------------------------------------------------------------------------------------
  // Completion

  /** The completion test: case-insensitive prefix. */
  predicate Suggests(suggestion: string, typed: string) {
    StartsWith(ToLower(suggestion), ToLower(typed))
  }

  /** The suggestions that pass the completion test, in their original order. */
  function FilterSuggestions(suggestions: seq<string>, typed: string): seq<string> {
    if |suggestions| == 0 then []
    else
      var last := suggestions[|suggestions| - 1];
      FilterSuggestions(suggestions[..|suggestions| - 1], typed) + (if Suggests(last, typed) then [last] else [])
  }

  /** tabComplete's answer: the filtered suggestions of the parameter being typed. */
  function CompletionsFor(ps: seq<TypedParameter>, tokens: seq<string>): seq<string>
    requires |tokens| >= 1
  {
    var i := |tokens| - 1;
    if i >= |ps| then [] else FilterSuggestions(ps[i].suggestions, tokens[i])
  }

  /** tabComplete (CommandActionNode.java). */
  method TabComplete(params: seq<TypedParameter>, currentArgs: seq<string>) returns (completions: seq<string>)
    requires |currentArgs| >= 1
    ensures completions == CompletionsFor(params, currentArgs)
  {
    completions := [];
    var argIndex := |currentArgs| - 1;
    if argIndex >= |params| {
      return;
    }
    var currentArg := params[argIndex];
    var suggestions := currentArg.suggestions;
    if |suggestions| != 0 {
      for i := 0 to |suggestions|
        invariant completions == FilterSuggestions(suggestions[..i], currentArgs[argIndex])
      {
        assert suggestions[..i + 1][..i] == suggestions[..i];
        if StartsWith(ToLower(suggestions[i]), ToLower(currentArgs[argIndex])) {
          completions := completions + [suggestions[i]];
        }
      }
      assert suggestions[..|suggestions|] == suggestions;
    }
  }
}
