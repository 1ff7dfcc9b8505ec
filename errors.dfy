/** The Python exceptions the core raises, and the dynamically typed values
    its validators inspect. */
module Errors {

  datatype Error =
    | ValueError
    | TypeError
    | AttributeError
    | KeyError
    | IndexError
    | RuntimeError
    | AssertionError
    | FileNotFoundError

  datatype Result<T> = Ok(value: T) | Err(error: Error) {
    predicate IsFailure() { Err? }
    function PropagateFailure<U>(): Result<U>
      requires Err?
    {
      Err(error)
    }
    function Extract(): T
      requires Ok?
    {
      value
    }
  }

  datatype Option<T> = None | Some(value: T)

  /** A Python number as a validator sees it: `isinstance(v, int)` holds
      only for the first kind. */
  datatype Num = Int(i: int) | Float(x: real) {
    function AsReal(): real {
      match this
      case Int(i) => i as real
      case Float(x) => x
    }
  }

  /** What a property setter receives: a value, or the `property` object
      itself, which a dataclass passes when no initial value was given. */
  datatype SetterArg<T> = Given(v: T) | PropertyObject {
    /** The setters substitute the class default for the property object. */
    function OrDefault(default: T): (r: T)
      ensures PropertyObject? ==> r == default
      ensures Given? ==> r == v
    {
      match this
      case Given(x) => x
      case PropertyObject => default
    }
  }
}
