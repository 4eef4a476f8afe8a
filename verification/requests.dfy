/**
 * The per-call validation request: the violations recorded so far and the
 * stack of property names leading to the value being validated. Only the three
 * operations the adapters use are modelled.
 */
module Requests {
  import opened Values

  class ValidationRequest {
    var violations: seq<Violation>
    var path: seq<string>

    constructor ()
      ensures violations == [] && path == []
    {
      violations := [];
      path := [];
    }

    /** Records one violation at the current path. */
    method AddViolation(message: Message, propertyName: Option<string>)
      modifies this
      ensures violations == old(violations) + [Violation(message, old(path), propertyName)]
      ensures path == old(path)
    {
      violations := violations + [Violation(message, path, propertyName)];
    }

    method PushPath(segment: string)
      modifies this
      ensures path == old(path) + [segment]
      ensures violations == old(violations)
    {
      path := path + [segment];
    }

    method PopPath()
      requires path != []
      modifies this
      ensures path == old(path)[..|old(path)| - 1]
      ensures violations == old(violations)
    {
      path := path[..|path| - 1];
    }
  }
}
