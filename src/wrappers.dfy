/**
 * Optional values and error results shared by every module of the model.
 * Java's `null` becomes `None`; a thrown exception becomes `Err`.
 */
module Wrappers {

  datatype Option<T> = None | Some(value: T)
  {
    function GetOr(default: T): T
    {
      match this
      case None => default
      case Some(v) => v
    }
  }

  /** The exceptions the services throw, by class. */
  datatype Failure =
    | IllegalArgument(message: string)
    | IllegalState(message: string)
    | UsernameNotFound(message: string)

  datatype Result<T> = Ok(value: T) | Err(error: Failure)
  {
    predicate IsFailure() { Err? }
  }

  /** What an awaited client-side server call produced: its value, or the error's message. */
  datatype Fetched<T> = Loaded(value: T) | Failed(message: string)

  /** The outcome of a `void` operation that may throw. */
  datatype Outcome = Done | Fail(error: Failure)

  /** Some element of a non-empty set of ids: a hash collection hands its elements out in no particular order. */
  method AnyOf(s: set<int>) returns (x: int)
    requires s != {}
    ensures x in s
  {
    HasElement(s);
    x :| x in s;
  }

  lemma HasElement(s: set<int>)
    requires s != {}
    ensures exists x :: x in s
  {
    if forall x :: x !in s {
      assert false;
    }
  }
}
