/** What the action node's parser and completer promise, proved about their specifications. */
module ActionProperties {
  import opened Options
  import opened Text
  import opened Numbers
  import opened ParameterTypes
  import opened TypedParameters
  import opened Invocation
  import opened ActionNodes

  // ---------------------------------------------------------------------------------------
  // Left-to-right structure of the parse

  /** Parsing a list is parsing a prefix, then the rest from where the prefix stopped. */
  lemma {:induction false} ParseSplit(ps: seq<TypedParameter>, k: nat, tokens: seq<string>, c: nat, acceptsFloat: string -> bool)
    requires k <= |ps| && c <= |tokens|
    ensures ParseParams(ps, tokens, c, acceptsFloat) ==
      match ParseParams(ps[..k], tokens, c, acceptsFloat)
      case Failed(m) => Failed(m)
      case Parsed(vs, c1) => Prepend(vs, ParseParams(ps[k..], tokens, c1, acceptsFloat))
    decreases k
  {
    if k == 0 {
      assert ps[..0] == [] && ps[0..] == ps;
      var r := ParseParams(ps, tokens, c, acceptsFloat);
      if r.Parsed? { assert [] + r.values == r.values; }
    } else if c < |tokens| {
      assert ps[..k][0] == ps[0];
      assert ps[..k][1..] == ps[1..][..k - 1];
      assert ps[1..][k - 1..] == ps[k..];
      match StepFor(ps[0], tokens, c, acceptsFloat)
      case Refused(m) =>
      case Took(v, next) =>
        ParseSplit(ps[1..], k - 1, tokens, next, acceptsFloat);
        var head := ParseParams(ps[1..][..k - 1], tokens, next, acceptsFloat);
        if head.Parsed? {
          var rest := ParseParams(ps[k..], tokens, head.cursor, acceptsFloat);
          if rest.Parsed? { assert [v] + (head.values + rest.values) == ([v] + head.values) + rest.values; }
        }
    }
  }

  /**
   * When the tokens run out as parameter k is reached, the outcome is the missing-parameter
   * error naming parameter k; no later parameter is looked at and no callback is invoked.
   */
  lemma MissingParameterStops(name: string, ps: seq<TypedParameter>, executor: Option<Callback>,
                              tokens: seq<string>, k: nat, acceptsFloat: string -> bool)
    requires k < |ps|
    requires ParseParams(ps[..k], tokens, 0, acceptsFloat).Parsed?
    requires ParseParams(ps[..k], tokens, 0, acceptsFloat).cursor >= |tokens|
    ensures ParseParams(ps, tokens, 0, acceptsFloat) == Failed(MissingParameter(ps[k].name))
    ensures ActionOutcome(name, ps, executor, tokens, acceptsFloat) == Error(MissingParameter(ps[k].name))
  {
    ParseSplit(ps, k, tokens, 0, acceptsFloat);
    assert ps[k..][0] == ps[k];
  }

  /** Fewer tokens than parameters never reaches the callback. */
  lemma ShortInputNeverInvokes(name: string, ps: seq<TypedParameter>, executor: Option<Callback>,
                               tokens: seq<string>, acceptsFloat: string -> bool)
    requires |tokens| < |ps|
    ensures ActionOutcome(name, ps, executor, tokens, acceptsFloat).Error?
  {
  }

  /** On success the callback gets one fitting value per parameter, in parameter order. */
  lemma InvokedValues(name: string, ps: seq<TypedParameter>, executor: Option<Callback>,
                      tokens: seq<string>, acceptsFloat: string -> bool, cb: Callback, vs: seq<Value>)
    ensures ActionOutcome(name, ps, executor, tokens, acceptsFloat) == Invoked(cb, vs) <==>
              executor == Some(cb) && ParseParams(ps, tokens, 0, acceptsFloat).Parsed? &&
              ParseParams(ps, tokens, 0, acceptsFloat).values == vs
    ensures ActionOutcome(name, ps, executor, tokens, acceptsFloat) == Invoked(cb, vs) ==>
              |vs| == |ps| && forall i :: 0 <= i < |ps| ==> Fits(ps[i], vs[i])
  {
  }

  /** With every parameter filled but no callback set, the outcome is the executor-not-set error. */
  lemma UnsetExecutor(name: string, ps: seq<TypedParameter>, tokens: seq<string>, acceptsFloat: string -> bool)
    requires ParseParams(ps, tokens, 0, acceptsFloat).Parsed?
    ensures ActionOutcome(name, ps, None, tokens, acceptsFloat) == Error(ExecutorNotSet(name))
  {
  }

  // ---------------------------------------------------------------------------------------
  // Unconsumed trailing tokens are ignored

  lemma {:induction false} QuoteEndPrefix(t: seq<string>, j: nat, m: nat)
    requires j < m <= |t|
    requires QuoteEnd(t, j) < m && EndsWith(t[QuoteEnd(t, j)], "\"")
    ensures QuoteEnd(t[..m], j) == QuoteEnd(t, j)
    decreases m - j
  {
    if !EndsWith(t[j], "\"") {
      assert QuoteEnd(t, j) == QuoteEnd(t, j + 1);
      QuoteEndPrefix(t, j + 1, m);
    }
  }

  lemma StepPrefix(p: TypedParameter, t: seq<string>, c: nat, m: nat, acceptsFloat: string -> bool)
    requires c < m <= |t|
    requires StepFor(p, t, c, acceptsFloat).Took? && StepFor(p, t, c, acceptsFloat).next <= m
    ensures StepFor(p, t[..m], c, acceptsFloat) == StepFor(p, t, c, acceptsFloat)
  {
    assert t[..m][c] == t[c];
    if p.kind == GREEDY_STRING {
      assert t[..m] == t;
    } else if p.kind == QUOTED_STRING {
      var e := QuoteEnd(t, c);
      JoinEndsWithCharOfLast(t[c..e + 1], " ", '"');
      assert t[c..e + 1][e - c] == t[e];
      QuoteEndPrefix(t, c, m);
      assert t[..m][c..e + 1] == t[c..e + 1];
    }
  }

  lemma {:induction false} ParsePrefix(ps: seq<TypedParameter>, t: seq<string>, c: nat, m: nat, acceptsFloat: string -> bool)
    requires c <= m <= |t|
    requires ParseParams(ps, t, c, acceptsFloat).Parsed? && ParseParams(ps, t, c, acceptsFloat).cursor <= m
    ensures ParseParams(ps, t[..m], c, acceptsFloat) == ParseParams(ps, t, c, acceptsFloat)
    decreases |ps|
  {
    if |ps| > 0 {
      var s := StepFor(ps[0], t, c, acceptsFloat);
      ParsePrefix(ps[1..], t, s.next, m, acceptsFloat);
      StepPrefix(ps[0], t, c, m, acceptsFloat);
    }
  }

  /** A successful parse depends only on the tokens it consumed: dropping the rest changes nothing. */
  lemma TrailingTokensIgnored(name: string, ps: seq<TypedParameter>, executor: Option<Callback>,
                              tokens: seq<string>, acceptsFloat: string -> bool)
    requires ParseParams(ps, tokens, 0, acceptsFloat).Parsed?
    ensures var used := ParseParams(ps, tokens, 0, acceptsFloat).cursor;
            ActionOutcome(name, ps, executor, tokens[..used], acceptsFloat) ==
            ActionOutcome(name, ps, executor, tokens, acceptsFloat)
  {
    ParsePrefix(ps, tokens, 0, ParseParams(ps, tokens, 0, acceptsFloat).cursor, acceptsFloat);
  }

  // ---------------------------------------------------------------------------------------
  // QUOTED_STRING

  /**
   * A quoted string that opens at the cursor and first closes at token e (and is not the lone
   * token `"`) yields the space-joined tokens cursor..e without their outer quotes, and the
   * cursor moves to e + 1.
   */
  lemma QuotedSuccess(tokens: seq<string>, c: nat, e: nat)
    requires c <= e < |tokens|
    requires StartsWith(tokens[c], "\"") && tokens[c] != "\""
    requires EndsWith(tokens[e], "\"")
    requires forall k :: c <= k < e ==> !EndsWith(tokens[k], "\"")
    ensures var joined := JoinWith(tokens[c..e + 1], " ");
            |joined| >= 2 && QuotedStep(tokens, c) == Took(Str(joined[1..|joined| - 1]), e + 1)
  {
    var span := tokens[c..e + 1];
    assert QuoteEnd(tokens, c) == e;
    JoinEndsWithCharOfLast(span, " ", '"');
    JoinStartsWithFirst(span, " ");
    assert span[0] == tokens[c];
  }

  /** Conversely, a successful quoted string is exactly such a span. */
  lemma QuotedTook(tokens: seq<string>, c: nat)
    requires c < |tokens| && QuotedStep(tokens, c).Took?
    ensures var e := QuotedStep(tokens, c).next - 1;
            && StartsWith(tokens[c], "\"") && tokens[c] != "\""
            && EndsWith(tokens[e], "\"")
            && forall k :: c <= k < e ==> !EndsWith(tokens[k], "\"")
  {
    var e := QuoteEnd(tokens, c);
    var span := tokens[c..e + 1];
    var quoted := JoinWith(span, " ");
    assert StartsWith(tokens[c], "\"");
    assert EndsWith(quoted, "\"") && quoted != "\"";
    assert QuotedStep(tokens, c).next == e + 1;
    JoinEndsWithCharOfLast(span, " ", '"');
    assert span[|span| - 1] == tokens[e];
    if e == c {
      assert span == [tokens[c]];
    } else {
      assert !EndsWith(tokens[c], "\"");
    }
  }

  /** A start token without an opening quote fails with the start-quote error. */
  lemma QuotedNeedsOpening(tokens: seq<string>, c: nat)
    requires c < |tokens| && !StartsWith(tokens[c], "\"")
    ensures QuotedStep(tokens, c) == Refused(StartQuoteError)
  {
  }

  /** When no token from the cursor on ends with a quote, the scan reaches the end and fails. */
  lemma QuotedUnterminated(tokens: seq<string>, c: nat)
    requires c < |tokens| && StartsWith(tokens[c], "\"")
    requires forall k :: c <= k < |tokens| ==> !EndsWith(tokens[k], "\"")
    ensures QuotedStep(tokens, c) == Refused(EndQuoteError)
  {
    var e := QuoteEnd(tokens, c);
    JoinEndsWithCharOfLast(tokens[c..e + 1], " ", '"');
    assert tokens[c..e + 1][e - c] == tokens[e];
  }

  /** A lone `"` fails as missing content and end quote, whatever follows it. */
  lemma LoneQuote(tokens: seq<string>, c: nat)
    requires c < |tokens| && tokens[c] == "\""
    ensures QuotedStep(tokens, c) == Refused(EmptyQuoteError)
  {
    assert QuoteEnd(tokens, c) == c;
    assert tokens[c..c + 1] == [tokens[c]];
  }

  /** Two quotes make the empty string. */
  lemma EmptyQuoted(tokens: seq<string>, c: nat)
    requires c < |tokens| && tokens[c] == "\"\""
    ensures QuotedStep(tokens, c) == Took(Str(""), c + 1)
  {
    QuotedSuccess(tokens, c, c);
    assert tokens[c..c + 1] == [tokens[c]];
  }

  /** `"a` followed by `b"` is the string `a b` and uses both tokens. */
  lemma QuotedExample()
    ensures QuotedStep(["\"a", "b\""], 0) == Took(Str("a b"), 2)
  {
    var t := ["\"a", "b\""];
    QuotedSuccess(t, 0, 1);
    assert t[0..2] == t;
    assert t[..1] == ["\"a"];
    assert JoinWith(t, " ") == "\"a b\"";
  }

  // ---------------------------------------------------------------------------------------
  // GREEDY_STRING

  /** A greedy parameter alone consumes every remaining token as one value. */
  lemma GreedyConsumesAll(p: TypedParameter, tokens: seq<string>, c: nat, acceptsFloat: string -> bool)
    requires p.kind == GREEDY_STRING && c < |tokens|
    ensures ParseParams([p], tokens, c, acceptsFloat) == Parsed([Str(JoinWith(tokens[c..], " "))], |tokens|)
  {
    assert [p][1..] == [];
  }

  /** A greedy parameter joins every remaining token; any parameter after it is then missing. */
  lemma GreedyThenMissing(name: string, ps: seq<TypedParameter>, executor: Option<Callback>,
                          tokens: seq<string>, i: nat, acceptsFloat: string -> bool)
    requires i + 1 < |ps| && ps[i].kind == GREEDY_STRING
    requires ParseParams(ps[..i], tokens, 0, acceptsFloat).Parsed?
    requires ParseParams(ps[..i], tokens, 0, acceptsFloat).cursor < |tokens|
    ensures ActionOutcome(name, ps, executor, tokens, acceptsFloat) == Error(MissingParameter(ps[i + 1].name))
  {
    GreedyAfterPrefix(ps, tokens, i, acceptsFloat);
    MissingParameterStops(name, ps, executor, tokens, i + 1, acceptsFloat);
  }

  lemma GreedyAfterPrefix(ps: seq<TypedParameter>, tokens: seq<string>, i: nat, acceptsFloat: string -> bool)
    requires i < |ps| && ps[i].kind == GREEDY_STRING
    requires ParseParams(ps[..i], tokens, 0, acceptsFloat).Parsed?
    requires ParseParams(ps[..i], tokens, 0, acceptsFloat).cursor < |tokens|
    ensures ParseParams(ps[..i + 1], tokens, 0, acceptsFloat).Parsed?
    ensures ParseParams(ps[..i + 1], tokens, 0, acceptsFloat).cursor == |tokens|
  {
    var prefix := ps[..i + 1];
    assert prefix[..i] == ps[..i];
    GreedyPrefixConsumesAll(prefix, tokens, i, acceptsFloat);
  }

  lemma GreedyPrefixConsumesAll(prefix: seq<TypedParameter>, tokens: seq<string>, i: nat, acceptsFloat: string -> bool)
    requires i + 1 == |prefix| && prefix[i].kind == GREEDY_STRING
    requires ParseParams(prefix[..i], tokens, 0, acceptsFloat).Parsed?
    requires ParseParams(prefix[..i], tokens, 0, acceptsFloat).cursor < |tokens|
    ensures ParseParams(prefix, tokens, 0, acceptsFloat).Parsed?
    ensures ParseParams(prefix, tokens, 0, acceptsFloat).cursor == |tokens|
  {
    var head := ParseParams(prefix[..i], tokens, 0, acceptsFloat);
    ParseSplit(prefix, i, tokens, 0, acceptsFloat);
    assert prefix[i..] == [prefix[i]];
    GreedyConsumesAll(prefix[i], tokens, head.cursor, acceptsFloat);
  }

  /** `hello world` as two tokens is one greedy value. */
  lemma GreedyExample(acceptsFloat: string -> bool)
    ensures StepFor(Of("message", GREEDY_STRING), ["hello", "world"], 0, acceptsFloat) == Took(Str("hello world"), 2)
  {
    var t := ["hello", "world"];
    assert t[0..] == t && t[..1] == ["hello"];
  }

  // ---------------------------------------------------------------------------------------
  // SHORT, INT, LONG

  /** Every value of the parameter's width, written in decimal, is accepted as that value. */
  lemma IntegerRoundTrip(p: TypedParameter, v: int, acceptsFloat: string -> bool)
    requires p.kind.IsInteger() && InRange(v, p.kind.Width())
    ensures StepFor(p, [ShowInt(v)], 0, acceptsFloat) == Took(Int(v), 1)
  {
    ParseShowRoundTrip(v, p.kind.Width());
  }

  /** An integer parameter fails with the number error naming the parameter and the raw text. */
  lemma IntegerRejects(p: TypedParameter, tokens: seq<string>, c: nat, acceptsFloat: string -> bool)
    requires p.kind.IsInteger() && c < |tokens|
    requires ParseInteger(tokens[c], p.kind.Width()).None?
    ensures StepFor(p, tokens, c, acceptsFloat) == Refused(InvalidNumber(p.name, tokens[c]))
  {
  }

  /** 32768 is refused by SHORT and accepted by INT. */
  lemma ShortOverflowExample(acceptsFloat: string -> bool)
    ensures StepFor(Of("n", SHORT), ["32768"], 0, acceptsFloat) == Refused(InvalidNumber("n", "32768"))
    ensures StepFor(Of("n", INT), ["32768"], 0, acceptsFloat) == Took(Int(32768), 1)
  {
    ShortBoundary();
  }

  // ---------------------------------------------------------------------------------------
  // BOOL

  /** BOOL accepts exactly "true" and "false" in any letter case; anything else names the parameter and the text. */
  lemma BoolAccepts(p: TypedParameter, tokens: seq<string>, c: nat, acceptsFloat: string -> bool)
    requires p.kind == BOOL && c < |tokens|
    ensures StepFor(p, tokens, c, acceptsFloat) == Took(Bool(true), c + 1) <==> ToLower(tokens[c]) == "true"
    ensures StepFor(p, tokens, c, acceptsFloat) == Took(Bool(false), c + 1) <==> ToLower(tokens[c]) == "false"
    ensures StepFor(p, tokens, c, acceptsFloat).Refused? <==> ToLower(tokens[c]) != "true" && ToLower(tokens[c]) != "false"
    ensures StepFor(p, tokens, c, acceptsFloat).Refused? ==>
              StepFor(p, tokens, c, acceptsFloat).message == InvalidBoolean(p.name, tokens[c])
  {
    assert ToLower("true") == "true";
    assert ToLower("false") == "false";
  }

  /** "TRUE" is true; "1" is refused with the boolean message, not the number message. */
  lemma BoolExamples(acceptsFloat: string -> bool)
    ensures StepFor(Of("flag", BOOL), ["TRUE"], 0, acceptsFloat) == Took(Bool(true), 1)
    ensures StepFor(Of("flag", BOOL), ["1"], 0, acceptsFloat) == Refused(InvalidBoolean("flag", "1"))
  {
    BoolAccepts(Of("flag", BOOL), ["TRUE"], 0, acceptsFloat);
    BoolAccepts(Of("flag", BOOL), ["1"], 0, acceptsFloat);
    assert ToLower("TRUE") == "true";
    assert ToLower("1") == "1";
  }

  // ---------------------------------------------------------------------------------------
  // ENUM

  /** The text is upper-cased before lookup: "red", "Red" and "RED" all name RED. */
  lemma EnumIgnoresCase(p: TypedParameter, acceptsFloat: string -> bool)
    requires p.kind == ENUM && p.enumDomain.Some? && "RED" in p.enumDomain.value
    ensures StepFor(p, ["red"], 0, acceptsFloat) == Took(EnumName("RED"), 1)
    ensures StepFor(p, ["Red"], 0, acceptsFloat) == Took(EnumName("RED"), 1)
    ensures StepFor(p, ["RED"], 0, acceptsFloat) == Took(EnumName("RED"), 1)
  {
    assert ToUpper("red") == "RED";
    assert ToUpper("Red") == "RED";
    assert ToUpper("RED") == "RED";
    EnumAccepts(p, ["red"], 0, acceptsFloat);
    EnumAccepts(p, ["Red"], 0, acceptsFloat);
    EnumAccepts(p, ["RED"], 0, acceptsFloat);
  }

  /** A text whose upper-case form names a constant of the bound enum yields that constant and advances by one. */
  lemma EnumAccepts(p: TypedParameter, tokens: seq<string>, cursor: nat, acceptsFloat: string -> bool)
    requires p.kind == ENUM && p.enumDomain.Some? && cursor < |tokens|
    requires ToUpper(tokens[cursor]) in p.enumDomain.value
    ensures StepFor(p, tokens, cursor, acceptsFloat) == Took(EnumName(ToUpper(tokens[cursor])), cursor + 1)
  {
  }

  /** A text naming no constant of the bound enum fails, listing the parameter's suggestions. */
  lemma EnumUnknown(p: TypedParameter, tokens: seq<string>, cursor: nat, acceptsFloat: string -> bool)
    requires p.kind == ENUM && p.enumDomain.Some? && cursor < |tokens|
    requires ToUpper(tokens[cursor]) !in p.enumDomain.value
    ensures StepFor(p, tokens, cursor, acceptsFloat) == Refused(InvalidEnum(p.name, tokens[cursor], p.suggestions))
  {
  }

  /** The list in that message is the suggestions joined by ", ". */
  lemma EnumUnknownExample(acceptsFloat: string -> bool)
    ensures var colours := ["RED", "GREEN"];
            var p := WithSuggestions("colour", ENUM, colours).(enumDomain := Some(colours));
            StepFor(p, ["blue"], 0, acceptsFloat) == Refused(InvalidEnum("colour", "blue", colours))
    ensures JoinWith(["RED", "GREEN"], ", ") == "RED, GREEN"
  {
    var colours := ["RED", "GREEN"];
    assert ToUpper("blue") == "BLUE";
    assert colours[..1] == ["RED"];
  }

  /** Built with the two-argument constructor, an ENUM parameter has no enum class bound. */
  lemma EnumWithoutDomain(name: string, raw: string, acceptsFloat: string -> bool)
    ensures StepFor(Of(name, ENUM), [raw], 0, acceptsFloat) == Refused(NoEnumClass(name))
  {
  }

  /** ... and once a domain is bound, its rejection lists no suggestions at all. */
  lemma EnumDefaultSuggestionsEmpty(name: string, domain: seq<string>, raw: string, acceptsFloat: string -> bool)
    requires ToUpper(raw) !in domain
    ensures StepFor(Of(name, ENUM).(enumDomain := Some(domain)), [raw], 0, acceptsFloat) ==
              Refused("Invalid value for enum parameter '" + name + "': " + raw + ". Expected one of: ")
  {
  }

  // ---------------------------------------------------------------------------------------
  // Completion

  /** One kept copy of each matching suggestion, none of the others. */
  lemma {:induction false} FilterCounts(s: seq<string>, typed: string)
    ensures forall x :: multiset(FilterSuggestions(s, typed))[x] == if Suggests(x, typed) then multiset(s)[x] else 0
  {
    if |s| > 0 {
      var init := s[..|s| - 1];
      FilterCounts(init, typed);
      assert s == init + [s[|s| - 1]];
    }
  }

  /** Positions of the kept suggestions in the original list: strictly increasing. */
  ghost predicate Embeds(sub: seq<string>, s: seq<string>, idx: seq<nat>) {
    && |idx| == |sub|
    && (forall i :: 0 <= i < |idx| ==> idx[i] < |s| && sub[i] == s[idx[i]])
    && (forall i, j :: 0 <= i < j < |idx| ==> idx[i] < idx[j])
  }

  /** The kept suggestions appear in the order of the suggestion source. */
  lemma {:induction false} FilterPreservesOrder(s: seq<string>, typed: string) returns (idx: seq<nat>)
    ensures Embeds(FilterSuggestions(s, typed), s, idx)
  {
    if |s| == 0 {
      idx := [];
    } else {
      var init := s[..|s| - 1];
      idx := FilterPreservesOrder(init, typed);
      if Suggests(s[|s| - 1], typed) {
        idx := idx + [|s| - 1];
      }
    }
  }

  /** Past the last parameter there is nothing to suggest. */
  lemma CompletionPastParameters(ps: seq<TypedParameter>, tokens: seq<string>)
    requires |tokens| > |ps|
    ensures CompletionsFor(ps, tokens) == []
  {
  }

  /** For the parameter being typed: exactly its suggestions matching the typed text, case-insensitively. */
  lemma CompletionOfCurrentParameter(ps: seq<TypedParameter>, tokens: seq<string>)
    requires 1 <= |tokens| <= |ps|
    ensures var p := ps[|tokens| - 1];
            var typed := tokens[|tokens| - 1];
            forall x :: x in CompletionsFor(ps, tokens) <==> x in p.suggestions && Suggests(x, typed)
  {
    var p := ps[|tokens| - 1];
    FilterCounts(p.suggestions, tokens[|tokens| - 1]);
  }

  /** A BOOL parameter built with defaults completes "T" to "true" only. */
  lemma BoolCompletionExample()
    ensures CompletionsFor([Of("flag", BOOL)], ["T"]) == ["true"]
  {
    assert ToLower("T") == "t";
    assert ToLower("true")[..1] == "t";
    assert ToLower("false")[..1] == "f";
    assert ["true", "false"][..1] == ["true"];
    assert ["true"][..0] == [];
    assert Suggests("true", "T") && !Suggests("false", "T");
  }
}
