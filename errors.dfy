/** Failure-carrying values shared by every module of the model. */
module Errors {

  datatype Option<+T> = None | Some(value: T)

  /** The Python exception that escapes an operation. */
  datatype Fault =
    | KeyError(key: string)   // `d[key]` on a dict without `key`
    | TypeError               // an operation applied to a value of the wrong type
    | AttributeError          // `.get` called on something that is not a dict
    | BinasciiError           // `base64.b64decode` given text that is not base64

  datatype Result<+T> = Ok(value: T) | Err(fault: Fault)

  /** The list `[x]` when an element is present, `[]` otherwise. */
  function OptionToSeq<T>(o: Option<T>): (s: seq<T>)
    ensures o.None? <==> s == []
    ensures o.Some? ==> s == [o.value]
  {
    match o
    case None => []
    case Some(x) => [x]
  }
}
