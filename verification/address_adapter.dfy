/**
 * A hand-written cascading adapter for an Address: it pushes the caller's
 * property name (when there is one) onto the request's path, validates the
 * `line1` field under the name "line1" with its nested adapter, pops the
 * path again and always returns true.
 */
module AddressAdapters {
  import opened Values
  import opened Requests
  import opened ValidationAdapters

  /** An Address; `line1` is a nullable String. */
  datatype Address = Address(line1: Option<string>)

  function AsValue(s: Option<string>): Value
  {
    if s.None? then Null else Text(s.value)
  }

  /** The path the nested adapter sees: the caller's path, extended by the
      property name when it is not null. */
  function NestedPath(path: seq<string>, propertyName: Option<string>): (nested: seq<string>)
    ensures propertyName.None? ==> nested == path
    ensures propertyName.Some? ==> |nested| == |path| + 1 && nested[..|path|] == path && nested[|path|] == propertyName.value
  {
    if propertyName.Some? then path + [propertyName.value] else path
  }

  class AddressValidationAdapter {
    const line1Adapter: Chain

    constructor (line1Adapter: Chain)
      ensures this.line1Adapter == line1Adapter
    {
      this.line1Adapter := line1Adapter;
    }

    method Validate(pojo: Address, request: ValidationRequest, propertyName: Option<string>, env: Env) returns (r: bool)
      requires Admits(line1Adapter, AsValue(pojo.line1))
      modifies request
      ensures r
      ensures request.path == old(request.path)
      ensures request.violations == old(request.violations)
        + Eval(line1Adapter, AsValue(pojo.line1), NestedPath(old(request.path), propertyName), Some("line1"), env).added
    {
      if propertyName.Some? {
        request.PushPath(propertyName.value);
      }
      assert request.path == NestedPath(old(request.path), propertyName);
      var _ := Run(line1Adapter, AsValue(pojo.line1), request, Some("line1"), env);
      if propertyName.Some? {
        request.PopPath();
      }
      return true;
    }
  }

  /** Every violation the nested call records sits under the caller's property
      name (when it is not null) and names the property "line1". */
  lemma Line1ViolationsNested(line1Adapter: Chain, pojo: Address, path: seq<string>, propertyName: Option<string>, env: Env)
    requires Admits(line1Adapter, AsValue(pojo.line1))
    ensures var added := Eval(line1Adapter, AsValue(pojo.line1), NestedPath(path, propertyName), Some("line1"), env).added;
      forall v :: v in added ==> v.path == NestedPath(path, propertyName) && v.property == Some("line1")
  {
    ViolationsPerLeaf(line1Adapter, AsValue(pojo.line1), NestedPath(path, propertyName), Some("line1"), env);
  }
}
