/** The ten parameter kinds an action node can expect (ParameterType.java). */
module ParameterTypes {
  import Numbers
  import opened Text

  datatype ParameterType =
    | STRING          // one token, verbatim
    | QUOTED_STRING   // tokens from an opening quote to a closing quote
    | GREEDY_STRING   // every remaining token
    | SHORT
    | INT
    | LONG
    | BOOL
    | DOUBLE
    | FLOAT
    | ENUM
  {
    /** The enum constant's name(), as the help tree prints it (after lower-casing). */
    function Name(): string {
      match this
      case STRING => "STRING"
      case QUOTED_STRING => "QUOTED_STRING"
      case GREEDY_STRING => "GREEDY_STRING"
      case SHORT => "SHORT"
      case INT => "INT"
      case LONG => "LONG"
      case BOOL => "BOOL"
      case DOUBLE => "DOUBLE"
      case FLOAT => "FLOAT"
      case ENUM => "ENUM"
    }

    predicate IsInteger() {
      SHORT? || INT? || LONG?
    }

    /** The width Short/Integer/Long parsing enforces. */
    function Width(): Numbers.Width
      requires IsInteger()
    {
      if SHORT? then Numbers.Bits16 else if INT? then Numbers.Bits32 else Numbers.Bits64
    }
  }

  /** Different kinds have different names, so the help tree tells them apart. */
  lemma NamesDistinct(a: ParameterType, b: ParameterType)
    ensures a.Name() == b.Name() ==> a == b
  {
  }

  /** The names are written in capitals and underscores only. */
  lemma NameIsCapitals(k: ParameterType)
    ensures NoLowerLetters(k.Name())
  {
  }
}
