/** Outcomes of parsing steps: JavaScript's `null` as `Option`, the thrown parse error as `Err`. */
module Outcomes {

  /** A JavaScript value that may be `null`. */
  datatype Option<+T> = None | Some(value: T)

  /** Why a parse produced no tree. */
  datatype ParseError =
    /** `assert` threw: a required token was missing. */
    | SyntaxError
    /** The string scanner met `{{` with no `}}` after it; `parseL20n` loops forever there. */
    | NeverTerminates

  /** Either a value or the error that aborted the whole parse. */
  datatype Result<+T> = Ok(value: T) | Err(error: ParseError) {
    predicate IsFailure() { Err? }
    function PropagateFailure<U>(): Result<U> requires Err? { Err(error) }
    function Extract(): T requires Ok? { value }
  }

  /** What a grammar rule produced and the text left to read after it. */
  datatype Parsed<+T> = Parsed(node: T, rest: string)

  /** The node of a parse that may have found nothing. */
  function Node<T>(p: Option<Parsed<T>>): (r: Option<T>)
    ensures r.Some? <==> p.Some?
    ensures p.Some? ==> r.value == p.value.node
  {
    if p.Some? then Some(p.value.node) else None
  }
}
