/** Outcome types shared by every part of the model.

    The Python code signals failure in two ways: a parse that it gives up on
    returns `None`, and everything else raises an exception that nobody
    catches, so the process dies.  `Option` models the first, `Failure`
    names each exception the core can raise, and `Result` carries either a
    value or such a failure. */
module Common {

  datatype Option<+T> = None | Some(value: T)

  /** Each exception the core raises, named by what was missing. */
  datatype Failure =
    | MissingToken(index: nat)       // IndexError: fewer preamble tokens than the index read
    | MissingAttribute(key: string)  // KeyError: an attribute the event must carry is absent
    | NoAliases                      // IndexError: empty alias list on the proxy network
    | NotInspected                   // IndexError: bootstrap inspected a container that is gone
    | NotClaimed(name: string)       // KeyError: set.remove of a name not in the claiming set

  datatype Result<+T> = Ok(value: T) | Err(failure: Failure)

  /** The outcome of a procedure that returns nothing or raises. */
  datatype Outcome = Pass | Fail(failure: Failure)
}
