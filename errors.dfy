/** The failures the mapper and the mediator raise, and their messages. */
module Errors {
  import opened Values

  datatype Error =
    | MissingAttribute(path: string)
    | MissingOneReference(path: string)
    | MissingManyReference(path: string)
    | UnknownComparator(name: string, valid: seq<string>)
    | DanglingMatch
    | NoActiveAttribute(modifier: string)
    | TypeError(reason: string)

  /** A value, or the error that was thrown instead. */
  datatype Result<T> = Ok(value: T) | Err(error: Error)

  /** The text of the thrown `Error`. A `TypeError` stands for the engine's
      own message, which is not modelled. */
  function Message(e: Error): string {
    match e
    case MissingAttribute(p) => "No value found for attribute \"" + p + "\""
    case MissingOneReference(p) => "No value found for attribute (one reference) \"" + p + "\""
    case MissingManyReference(p) => "No value found for attribute (many reference) \"" + p + "\""
    case UnknownComparator(n, valid) =>
      "Comparison method " + n + " not found. Please use: [" + JoinWith(valid, ", ") + "]"
    case DanglingMatch => "First use .where(<property-name>) and then use .match(<condition>)"
    case NoActiveAttribute(m) =>
      "First use .[attribute, one or many](<options>) and then use ." + m + "(<options>)"
    case TypeError(reason) => reason
  }
}
