/**
 * A parameter slot of an action node (TypedParameter.java): a name, a kind, the list its
 * suggestion supplier yields, and, for ENUM, the constant names of the bound enum class.
 */
module TypedParameters {
  import opened Options
  import opened ParameterTypes

  datatype TypedParameter = TypedParameter(
    name: string,
    kind: ParameterType,
    suggestions: seq<string>,
    enumDomain: Option<seq<string>>)

  /** The three-argument constructor: suggestions come from the caller's supplier. */
  function WithSuggestions(name: string, kind: ParameterType, supplied: seq<string>): (p: TypedParameter)
    ensures p.name == name && p.kind == kind
    ensures p.suggestions == supplied
    ensures p.enumDomain == None
  {
    TypedParameter(name, kind, supplied, None)
  }

  /** The two-argument constructor: BOOL suggests "true" then "false", every other kind nothing. */
  function Of(name: string, kind: ParameterType): (p: TypedParameter)
    ensures p.name == name && p.kind == kind
    ensures kind == BOOL ==> p.suggestions == ["true", "false"]
    ensures kind != BOOL ==> p.suggestions == []
    ensures p.enumDomain == None
  {
    WithSuggestions(name, kind, if kind == BOOL then ["true", "false"] else [])
  }
}
