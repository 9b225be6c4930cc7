// Option and Result wrappers shared by every module of the model, and the
// error kinds that stand for the exceptions and engine errors of the library.

module Wrappers {

  datatype Option<T> = None | Some(value: T)
  {
    function GetOr(default: T): T
    {
      if Some? then value else default
    }
  }

  /** The throwable conditions the modelled code can end in. */
  datatype Error =
    | ExtractionImpossible(message: string)   // ExtractionImpossibleException
    | InvalidArgument(message: string)        // \InvalidArgumentException
    | EngineError(message: string)            // PHP \Error / \TypeError (undefined method, bad argument type, ...)
    | ReflectionFailure(message: string)      // \ReflectionException
    | FuelExhausted                           // nesting deeper than the model's fuel bound
    | NotModelled(message: string)            // reached a part of the document the model keeps opaque

  datatype Result<T> = Success(value: T) | Failure(error: Error)
  {
    predicate IsFailure()
    {
      Failure?
    }

    function PropagateFailure<U>(): Result<U>
      requires Failure?
    {
      Failure(error)
    }

    function Extract(): T
      requires Success?
    {
      value
    }
  }
}
