/**
 * ValidationAdapter and its `then` combinator. An adapter here is either a
 * built-in adapter, an AbstractConstraintAdapter over values, or `then` of two
 * adapters. `then(after)` runs the first adapter; if it returns true it runs
 * `after` and returns its result, otherwise it skips `after` and returns true.
 */
module ValidationAdapters {
  import opened Values
  import opened Requests
  import Basic = BasicAdapters
  import opened ConstraintAdapters

  datatype Chain =
    | Builtin(adapter: Basic.Adapter)
    | Constraint(constraint: ConstraintAdapter<Value>)
    | Then(first: Chain, after: Chain)

  /** `first.then(after)`: Objects.requireNonNull rejects a null `after`
      (`None` here) with an exception, modelled as no result. */
  function ThenOf(first: Chain, after: Option<Chain>): (r: Option<Chain>)
    ensures r.None? <==> after.None?
    ensures r.Some? ==> r.value.Then? && r.value.first == first && r.value.after == after.value
  {
    if after.None? then None else Some(Then(first, after.value))
  }

  /** Every built-in adapter in the chain admits the value's shape. */
  predicate Admits(c: Chain, value: Value)
  {
    match c
    case Builtin(a) => Basic.Admits(a, value)
    case Constraint(_) => true
    case Then(first, after) => Admits(first, value) && Admits(after, value)
  }

  /** What validating `value` with the chain does, all adapters seeing the
      same property name and path. */
  function Eval(c: Chain, value: Value, path: seq<string>, propertyName: Option<string>, env: Env): Verdict
    requires Admits(c, value)
  {
    match c
    case Builtin(a) => Basic.Decide(a, value, path, propertyName, env)
    case Constraint(k) => k.Decide(value, path, propertyName, env)
    case Then(first, after) =>
      var v := Eval(first, value, path, propertyName, env);
      if v.keepGoing then
        var w := Eval(after, value, path, propertyName, env);
        Verdict(w.keepGoing, v.added + w.added)
      else Verdict(true, v.added)
  }

  method Run(c: Chain, value: Value, req: ValidationRequest, propertyName: Option<string>, env: Env)
    returns (keepGoing: bool)
    requires Admits(c, value)
    modifies req
    ensures keepGoing == Eval(c, value, old(req.path), propertyName, env).keepGoing
    ensures req.violations == old(req.violations) + Eval(c, value, old(req.path), propertyName, env).added
    ensures req.path == old(req.path)
    decreases c
  {
    match c
    case Builtin(a) =>
      keepGoing := Basic.Validate(a, value, req, propertyName, env);
    case Constraint(k) =>
      keepGoing := k.Validate(value, req, propertyName, env);
    case Then(first, after) =>
      var ok := Run(first, value, req, propertyName, env);
      if ok {
        keepGoing := Run(after, value, req, propertyName, env);
      } else {
        keepGoing := true;
      }
  }

  /** When the first adapter returns true, `then` returns what `after` returns
      and records the first's violations followed by `after`'s. */
  lemma ThenFirstPassed(first: Chain, after: Chain, value: Value, path: seq<string>, p: Option<string>, env: Env)
    requires Admits(first, value) && Admits(after, value)
    requires Eval(first, value, path, p, env).keepGoing
    ensures Eval(Then(first, after), value, path, p, env).keepGoing == Eval(after, value, path, p, env).keepGoing
    ensures Eval(Then(first, after), value, path, p, env).added
      == Eval(first, value, path, p, env).added + Eval(after, value, path, p, env).added
  {
  }

  /** When the first adapter returns false, `after` has no effect and `then`
      returns true: `then` never reports the first adapter's failure. */
  lemma ThenFirstFailed(first: Chain, after: Chain, value: Value, path: seq<string>, p: Option<string>, env: Env)
    requires Admits(first, value) && Admits(after, value)
    requires !Eval(first, value, path, p, env).keepGoing
    ensures Eval(Then(first, after), value, path, p, env) == Verdict(true, Eval(first, value, path, p, env).added)
  {
  }

  /** `then` returns false only when the first adapter passed and `after` failed. */
  lemma ThenFalseOnlyFromAfter(first: Chain, after: Chain, value: Value, path: seq<string>, p: Option<string>, env: Env)
    requires Admits(first, value) && Admits(after, value)
    ensures !Eval(Then(first, after), value, path, p, env).keepGoing <==>
      Eval(first, value, path, p, env).keepGoing && !Eval(after, value, path, p, env).keepGoing
  {
  }

  /** NotNull then anything, on null: one violation, yet the chain returns true. */
  lemma NotNullThenOnNull(m: Message, after: Chain, path: seq<string>, p: Option<string>, env: Env)
    requires Admits(after, Null)
    ensures Eval(Then(Builtin(Basic.NotNullAdapter(m)), after), Null, path, p, env)
      == Verdict(true, [Violation(m, path, p)])
  {
  }

  /** `then` is not associative: with three NotNull adapters on null, grouping
      to the left runs the third adapter, grouping to the right does not. */
  lemma ThenNotAssociative(m1: Message, m2: Message, m3: Message, path: seq<string>, p: Option<string>, env: Env)
    ensures var a, b, c := Builtin(Basic.NotNullAdapter(m1)), Builtin(Basic.NotNullAdapter(m2)), Builtin(Basic.NotNullAdapter(m3));
      Admits(Then(Then(a, b), c), Null) && Admits(Then(a, Then(b, c)), Null)
      && Eval(Then(Then(a, b), c), Null, path, p, env) == Verdict(false, [Violation(m1, path, p), Violation(m3, path, p)])
      && Eval(Then(a, Then(b, c)), Null, path, p, env) == Verdict(true, [Violation(m1, path, p)])
  {
    var a, b, c := Builtin(Basic.NotNullAdapter(m1)), Builtin(Basic.NotNullAdapter(m2)), Builtin(Basic.NotNullAdapter(m3));
    var v1, v3 := Violation(m1, path, p), Violation(m3, path, p);
    assert Admits(a, Null) && Admits(b, Null) && Admits(c, Null);
    assert Eval(a, Null, path, p, env) == Verdict(false, [v1]);
    assert Eval(Then(a, b), Null, path, p, env) == Verdict(true, [v1]);
    assert Eval(c, Null, path, p, env) == Verdict(false, [v3]);
    assert [v1] + [v3] == [v1, v3];
  }

  function Leaves(c: Chain): nat
  {
    match c
    case Then(first, after) => Leaves(first) + Leaves(after)
    case _ => 1
  }

  /** A chain records at most one violation per adapter in it, each at the
      call's path and property name. */
  lemma {:induction false} ViolationsPerLeaf(c: Chain, value: Value, path: seq<string>, p: Option<string>, env: Env)
    requires Admits(c, value)
    ensures |Eval(c, value, path, p, env).added| <= Leaves(c)
    ensures forall v :: v in Eval(c, value, path, p, env).added ==> v.path == path && v.property == p
    decreases c
  {
    match c
    case Builtin(a) =>
      Basic.AtMostOneViolation(a, value, path, p, env);
    case Constraint(k) =>
      FalseIffRecorded(k, value, path, p, env);
    case Then(first, after) =>
      ViolationsPerLeaf(first, value, path, p, env);
      ViolationsPerLeaf(after, value, path, p, env);
  }
}
