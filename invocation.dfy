/**
 * What an execution produces: either the callback (a TypedExecutor) is invoked with the
 * parsed values, or an error message is reported to the sender.
 */
module Invocation {

  /** A parsed argument, one per parameter. */
  datatype Value =
    | Str(text: string)            // STRING, QUOTED_STRING, GREEDY_STRING
    | Int(number: int)             // SHORT, INT, LONG
    | Bool(truth: bool)            // BOOL
    | EnumName(constant: string)   // ENUM: the matched constant's name
    | Decimal(literal: string)     // FLOAT, DOUBLE: the accepted literal

  /** Stands for a TypedExecutor object; two handles are the same callback iff they are equal. */
  datatype Callback = Callback(id: string)

  datatype Outcome =
    | Invoked(callback: Callback, values: seq<Value>)
    | Error(message: string)
}
