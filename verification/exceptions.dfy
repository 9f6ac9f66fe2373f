/** Python exceptions, as structured data, and the Ok/Err outcome of a call that may raise.

    A formatter in this library is any callable that either returns a value or raises. In the
    model it is a total function into `Result`, and the exception it raises is an `Error`:
    either one the formatter raised itself (`Raised`) or one of the exceptions the combinators
    raise, with structured fields in place of the message text (the sequence itself, shown in
    the arity messages, is reduced to its length).
 */
module Exceptions {

  /** The class of a raised exception, as far as the combinators tell classes apart. */
  datatype ExcType = TypeError | ValueError | IndexError | OtherType(name: string)
  {
    /** The two classes that `apply_formatters_to_dict` catches and raises again with context. */
    predicate IsReTagged() {
      TypeError? || ValueError?
    }
  }

  /** An exception. `O` is the type of the Python objects an exception can mention. */
  datatype Error<O> =
    | /** Raised by a user-supplied formatter; propagated as is unless re-tagged. */
      Raised(excType: ExcType, message: string)
    | /** IndexError: `apply_formatter_at_index` needs `need` values and got `got`. */
      NotEnoughValues(got: nat, need: nat)
    | /** IndexError: `apply_formatters_to_sequence` got more formatters than items;
          the message shows the sequence, of which only the length is kept. */
      TooManyFormatters(formatterCount: nat, itemCount: nat)
    | /** IndexError: `apply_formatters_to_sequence` got fewer formatters than items;
          the message shows the sequence, of which only the length is kept. */
      TooFewFormatters(formatterCount: nat, itemCount: nat)
    | /** ValueError: no condition given to `apply_one_of_formatters` held. */
      NoConditionSatisfied
    | /** A TypeError or ValueError raised while formatting the value `item` of field `field`,
          raised again as a new exception of class `excType` chained to `cause`. */
      FieldNotFormatted(excType: ExcType, item: O, field: O, cause: Error<O>)
  {
    /** `type(exc)`: the class an `except` clause matches against. */
    function Type(): ExcType {
      match this
      case Raised(t, _) => t
      case NotEnoughValues(_, _) => IndexError
      case TooManyFormatters(_, _) => IndexError
      case TooFewFormatters(_, _) => IndexError
      case NoConditionSatisfied => ValueError
      case FieldNotFormatted(t, _, _, _) => t
    }
  }

  /** The outcome of a call: the value it returned, or the exception it raised. */
  datatype Result<+T, +E> = Ok(value: T) | Err(error: E)
  {
    predicate IsFailure() {
      Err?
    }

    function PropagateFailure<U>(): Result<U, E>
      requires Err?
    {
      Err(error)
    }

    function Extract(): T
      requires Ok?
    {
      value
    }
  }
}
