/**
 * AbstractConstraintAdapter: the template every annotation-driven custom
 * adapter follows. Message and groups are fixed at construction; `isValid`
 * is the subclass's predicate. A call first asks the request whether the
 * constraint's groups are active, then consults `isValid`, then records a
 * violation on failure.
 */
module ConstraintAdapters {
  import opened Values
  import opened Requests

  class ConstraintAdapter<T> {
    const message: Message
    const groups: set<Group>
    /** The subclass's `isValid(value)`. */
    const isValid: T -> bool

    constructor (message: Message, groups: set<Group>, isValid: T -> bool)
      ensures this.message == message && this.groups == groups && this.isValid == isValid
    {
      this.message := message;
      this.groups := groups;
      this.isValid := isValid;
    }

    /** What one `validate(value, req, propertyName)` call does. */
    function Decide(value: T, path: seq<string>, propertyName: Option<string>, env: Env): Verdict
    {
      if !env.groupsActive(groups) then Accept()
      else if !isValid(value) then Reject(message, path, propertyName)
      else Accept()
    }

    method Validate(value: T, req: ValidationRequest, propertyName: Option<string>, env: Env) returns (keepGoing: bool)
      modifies req
      ensures keepGoing == Decide(value, old(req.path), propertyName, env).keepGoing
      ensures req.violations == old(req.violations) + Decide(value, old(req.path), propertyName, env).added
      ensures req.path == old(req.path)
    {
      if !env.groupsActive(groups) {
        return true;
      }
      if !isValid(value) {
        req.AddViolation(message, propertyName);
        return false;
      }
      return true;
    }
  }

  /** Inactive groups: the call passes, records nothing, and its outcome does not
      depend on `isValid` at all. */
  lemma InactiveGroupsSkip<T>(c: ConstraintAdapter<T>, other: ConstraintAdapter<T>, value: T,
                              path: seq<string>, p: Option<string>, env: Env)
    requires !env.groupsActive(c.groups)
    requires other.message == c.message && other.groups == c.groups
    ensures c.Decide(value, path, p, env) == Accept()
    ensures c.Decide(value, path, p, env) == other.Decide(value, path, p, env)
  {
  }

  /** Active groups: an invalid value records exactly one violation with the
      stored message and the property name and returns false; a valid one
      passes without touching the request. */
  lemma ActiveGroupsCheck<T>(c: ConstraintAdapter<T>, value: T, path: seq<string>, p: Option<string>, env: Env)
    requires env.groupsActive(c.groups)
    ensures !c.isValid(value) ==> c.Decide(value, path, p, env) == Verdict(false, [Violation(c.message, path, p)])
    ensures c.isValid(value) ==> c.Decide(value, path, p, env) == Accept()
  {
  }

  /** The result is false exactly when a violation was appended, and at most one is. */
  lemma FalseIffRecorded<T>(c: ConstraintAdapter<T>, value: T, path: seq<string>, p: Option<string>, env: Env)
    ensures var v := c.Decide(value, path, p, env);
      (!v.keepGoing <==> v.added != []) && |v.added| <= 1
  {
  }
}
