/** Failure-carrying results shared by every module of the model.

    The Python services signal failure by raising; the model names the exception kinds that the
    modelled code can raise and threads them through `Result`. */
module Wrappers {

  datatype Option<+T> = None | Some(value: T) {

    /** Python's `x or default` for values whose only falsy case is `None`. */
    function GetOr(default: T): T {
      match this
      case Some(v) => v
      case None => default
    }
  }

  /** The Python exceptions the modelled code lets escape. */
  datatype Error =
    | KeyError(key: string)              // dict lookup of a missing key
    | IndexError                         // list subscript out of range
    | UnboundLocalError(name: string)    // local read before any assignment
    | AttributeError(attribute: string)  // method missing on a value, e.g. `.get` on a list

  datatype Result<+T> = Success(value: T) | Failure(error: Error) {

    predicate IsFailure() {
      Failure?
    }

    function PropagateFailure<U>(): Result<U>
      requires Failure?
    {
      Failure(error)
    }

    function Extract(): T
      requires Success?
    {
      value
    }
  }

  /** Dictionary subscription `m[k]`: the value, or `KeyError(k)`. */
  function Lookup<V>(m: map<string, V>, k: string): (r: Result<V>)
    ensures k in m <==> r.Success?
    ensures r.Success? ==> r.value == m[k]
    ensures r.Failure? ==> r.error == KeyError(k)
  {
    if k in m then Success(m[k]) else Failure(KeyError(k))
  }
}
