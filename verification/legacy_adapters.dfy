/**
 * The older revision of the built-in adapters: the factory, and the Pattern,
 * Size, Future, Past, NotBlank, AssertTrue, AssertFalse and NotNull adapters.
 * It differs from the current revision in how Size treats null, in Pattern
 * testing the property name rather than the value, in reading "now" from
 * the clock for Future and Past, and in requiring a flag list for Pattern.
 */
module LegacyAdapters {
  import opened Values
  import opened JavaText
  import opened RegexFlags
  import opened Requests

  datatype Adapter =
    | PatternAdapter(message: Message, regexp: string, flags: bv32)
    | SizeAdapter(message: Message, min: int, max: int)
    | FutureAdapter(message: Message)
    | PastAdapter(message: Message)
    | NotBlankAdapter(message: Message)
    | AssertTrueAdapter(message: Message)
    | AssertFalseAdapter(message: Message)
    | NotNullAdapter(message: Message)

  /** The factory's result: an adapter, Java null for an unknown name, or the
      exception the constructor throws on a missing or ill-typed attribute. */
  datatype Creation = Created(adapter: Adapter) | NoAdapter | Thrown(attribute: string)

  /** The message the Size adapter records for a null value. */
  const CollectionNull: Message := Literal("CollectionNull")

  const Names: set<string> :=
    {"NotNull", "AssertTrue", "AssertFalse", "NotBlank", "Past", "PastOrPresent",
     "Future", "FutureOrPresent", "Pattern", "Size"}

  /** FACTORY: dispatch on the constraint's simple name. */
  function Create(name: string, attributes: Attributes): Creation
  {
    if name == "NotNull" then Created(NotNullAdapter(Keyed("NotNull")))
    else if name == "AssertTrue" then Created(AssertTrueAdapter(Keyed("AssertTrue")))
    else if name == "AssertFalse" then Created(AssertFalseAdapter(Keyed("AssertFalse")))
    else if name == "NotBlank" then Created(NotBlankAdapter(Keyed("NotBlank")))
    else if name == "Past" || name == "PastOrPresent" then Created(PastAdapter(Keyed("Past")))
    else if name == "Future" || name == "FutureOrPresent" then Created(FutureAdapter(Keyed("Future")))
    else if name == "Pattern" then CreatePattern(attributes)
    else if name == "Size" then CreateSize(attributes)
    else NoAdapter
  }

  /** PatternAdapter's constructor iterates the flag list without a null
      check, so a missing list throws as well as an ill-typed one. */
  function CreatePattern(attributes: Attributes): Creation
  {
    if "flags" !in attributes || !attributes["flags"].FlagsAttr? then Thrown("flags")
    else if "regexp" !in attributes || !attributes["regexp"].StringAttr? then Thrown("regexp")
    else Created(PatternAdapter(Keyed("Pattern"), attributes["regexp"].s, FlagBits(attributes["flags"].flags)))
  }

  function CreateSize(attributes: Attributes): Creation
  {
    if "min" !in attributes || !attributes["min"].IntAttr? then Thrown("min")
    else if "max" !in attributes || !attributes["max"].IntAttr? then Thrown("max")
    else Created(SizeAdapter(Keyed("Size"), attributes["min"].i, attributes["max"].i))
  }

  predicate Admits(a: Adapter, value: Value)
  {
    match a
    case PatternAdapter(_, _, _) => value.Null? || value.Text?
    case NotBlankAdapter(_) => value.Null? || value.Text?
    case AssertTrueAdapter(_) => value.Null? || value.Bool?
    case AssertFalseAdapter(_) => value.Null? || value.Bool?
    case _ => true
  }

  /** One call either completes with a verdict or throws a NullPointerException
      (the legacy Pattern adapter matching a null property name). */
  datatype Outcome = Completed(verdict: Verdict) | NullPointerThrown

  /** A date/time value that Future and Past compare against the clock. */
  predicate Compared(value: Value)
  {
    value.Temporal? && value.kind != OtherTemporal
  }

  /** Future's test: strictly before now, on the value's own time line. */
  predicate InThePast(value: Value, env: Env)
  {
    Compared(value) && value.t < env.now(value.kind)
  }

  /** Past's test: strictly after now, on the value's own time line. */
  predicate InTheFuture(value: Value, env: Env)
  {
    Compared(value) && value.t > env.now(value.kind)
  }

  function Decide(a: Adapter, value: Value, path: seq<string>, propertyName: Option<string>, env: Env): Outcome
    requires Admits(a, value)
  {
    match a
    case PatternAdapter(m, re, fl) =>
      if value.Null? then Completed(Reject(m, path, propertyName))
      else if propertyName.None? then NullPointerThrown
      else if !env.fullMatch(re, fl, propertyName.value) then Completed(Reject(m, path, propertyName))
      else Completed(Accept())
    case SizeAdapter(m, min, max) =>
      if value.Null? then
        Completed(Verdict(false, if min != -1 then [Violation(CollectionNull, path, propertyName)] else []))
      else if value.Text? && (|value.chars| > max || |value.chars| < min) then
        Completed(Reject(m, path, propertyName))
      else if (value.Coll? || value.MapV? || value.Arr?) && (value.size > max || value.size < min) then
        Completed(Verdict(value.size > 0, [Violation(m, path, propertyName)]))
      else Completed(Accept())
    case FutureAdapter(m) =>
      if value.Null? || InThePast(value, env) then Completed(Reject(m, path, propertyName)) else Completed(Accept())
    case PastAdapter(m) =>
      if value.Null? || InTheFuture(value, env) then Completed(Reject(m, path, propertyName)) else Completed(Accept())
    case NotBlankAdapter(m) =>
      if value.Null? || Blank(value.chars) then Completed(Reject(m, path, propertyName)) else Completed(Accept())
    case AssertTrueAdapter(m) =>
      if value == Bool(false) then Completed(Reject(m, path, propertyName)) else Completed(Accept())
    case AssertFalseAdapter(m) =>
      if value == Bool(true) then Completed(Reject(m, path, propertyName)) else Completed(Accept())
    case NotNullAdapter(m) =>
      if value.Null? then Completed(Reject(m, path, propertyName)) else Completed(Accept())
  }

  /** The violations a call leaves behind (none when it throws). */
  function Added(o: Outcome): seq<Violation>
  {
    if o.Completed? then o.verdict.added else []
  }

  /** `validate(value, req, propertyName)`; `None` stands for the exception. */
  method Validate(a: Adapter, value: Value, req: ValidationRequest, propertyName: Option<string>, env: Env)
    returns (r: Option<bool>)
    requires Admits(a, value)
    modifies req
    ensures r.None? <==> Decide(a, value, old(req.path), propertyName, env).NullPointerThrown?
    ensures r.Some? ==> r.value == Decide(a, value, old(req.path), propertyName, env).verdict.keepGoing
    ensures req.violations == old(req.violations) + Added(Decide(a, value, old(req.path), propertyName, env))
    ensures req.path == old(req.path)
  {
    match a
    case PatternAdapter(m, re, fl) =>
      if value.Null? {
        req.AddViolation(m, propertyName);
        return Some(false);
      }
      if propertyName.None? {
        return None;
      }
      if !env.fullMatch(re, fl, propertyName.value) {
        req.AddViolation(m, propertyName);
        return Some(false);
      }
      return Some(true);
    case SizeAdapter(m, min, max) =>
      if value.Null? {
        if min != -1 {
          req.AddViolation(CollectionNull, propertyName);
        }
        return Some(false);
      }
      if value.Text? {
        var len := |value.chars|;
        if len > max || len < min {
          req.AddViolation(m, propertyName);
          return Some(false);
        }
      }
      if value.Coll? || value.MapV? || value.Arr? {
        var len := value.size;
        if len > max || len < min {
          req.AddViolation(m, propertyName);
          return Some(len > 0);
        }
      }
      return Some(true);
    case FutureAdapter(m) =>
      if value.Null? {
        req.AddViolation(m, propertyName);
        return Some(false);
      }
      if value.Temporal? && value.kind != OtherTemporal && value.t < env.now(value.kind) {
        req.AddViolation(m, propertyName);
        return Some(false);
      }
      return Some(true);
    case PastAdapter(m) =>
      if value.Null? {
        req.AddViolation(m, propertyName);
        return Some(false);
      }
      if value.Temporal? && value.kind != OtherTemporal && value.t > env.now(value.kind) {
        req.AddViolation(m, propertyName);
        return Some(false);
      }
      return Some(true);
    case NotBlankAdapter(m) =>
      if value.Null? || Blank(value.chars) {
        req.AddViolation(m, propertyName);
        return Some(false);
      }
      return Some(true);
    case AssertTrueAdapter(m) =>
      if value == Bool(false) {
        req.AddViolation(m, propertyName);
        return Some(false);
      }
      return Some(true);
    case AssertFalseAdapter(m) =>
      if value == Bool(true) {
        req.AddViolation(m, propertyName);
        return Some(false);
      }
      return Some(true);
    case NotNullAdapter(m) =>
      if value.Null? {
        req.AddViolation(m, propertyName);
        return Some(false);
      }
      return Some(true);
  }

  // ----- The factory -----

  /** "Past" and "PastOrPresent" build the same adapter, and so do "Future" and
      "FutureOrPresent": the legacy revision has no inclusive variant. */
  lemma FactoryOrPresentAliases(attributes: Attributes)
    ensures Create("Past", attributes) == Create("PastOrPresent", attributes) == Created(PastAdapter(Keyed("Past")))
    ensures Create("Future", attributes) == Create("FutureOrPresent", attributes) == Created(FutureAdapter(Keyed("Future")))
  {
  }

  /** The factory returns null exactly for the names it does not know. */
  lemma FactoryUnknownName(name: string, attributes: Attributes)
    ensures Create(name, attributes) == NoAdapter <==> name !in Names
  {
  }

  /** A Pattern constraint without a flag list cannot be built. */
  lemma FactoryPatternNeedsFlags(attributes: Attributes)
    requires "flags" !in attributes
    ensures Create("Pattern", attributes) == Thrown("flags")
  {
  }

  /** A Pattern adapter is built exactly when the flag list and the regexp are
      both given; it keeps the regexp and the OR of the listed flags. */
  lemma FactoryPatternFlags(attributes: Attributes)
    ensures Create("Pattern", attributes).Created? <==>
      "flags" in attributes && attributes["flags"].FlagsAttr? && "regexp" in attributes && attributes["regexp"].StringAttr?
    ensures Create("Pattern", attributes).Created? ==>
      Create("Pattern", attributes).adapter
        == PatternAdapter(Keyed("Pattern"), attributes["regexp"].s, FlagBits(attributes["flags"].flags))
    ensures !Create("Pattern", attributes).Created? ==> Create("Pattern", attributes).Thrown?
  {
  }

  /** Building a Size adapter needs integer `min` and `max`, which it keeps;
      otherwise the constructor throws. */
  lemma FactorySizeAttributes(attributes: Attributes)
    ensures Create("Size", attributes).Created? <==>
      "min" in attributes && attributes["min"].IntAttr? && "max" in attributes && attributes["max"].IntAttr?
    ensures Create("Size", attributes).Created? ==>
      Create("Size", attributes).adapter == SizeAdapter(Keyed("Size"), attributes["min"].i, attributes["max"].i)
    ensures !Create("Size", attributes).Created? ==> Create("Size", attributes).Thrown?
  {
  }

  // ----- The adapters -----

  /** Pattern's verdict depends on the property name, never on the value's
      text: it fails on null, throws on a null property name, and otherwise
      fails exactly when the property name does not fully match. */
  lemma PatternTestsPropertyName(m: Message, re: string, flags: bv32, value: Value, path: seq<string>, p: Option<string>, env: Env)
    requires value.Null? || value.Text?
    ensures var o := Decide(PatternAdapter(m, re, flags), value, path, p, env);
      if value.Null? then o == Completed(Reject(m, path, p))
      else if p.None? then o == NullPointerThrown
      else if env.fullMatch(re, flags, p.value) then o == Completed(Accept())
      else o == Completed(Reject(m, path, p))
  {
  }

  /** Two texts always get the same Pattern verdict. */
  lemma PatternIgnoresText(a: Adapter, s1: string, s2: string, path: seq<string>, p: Option<string>, env: Env)
    requires a.PatternAdapter?
    ensures Decide(a, Text(s1), path, p, env) == Decide(a, Text(s2), path, p, env)
  {
  }

  /** Size on null always returns false; it records a "CollectionNull"
      violation exactly when `min` is not -1. */
  lemma SizeNullFails(m: Message, min: int, max: int, path: seq<string>, p: Option<string>, env: Env)
    ensures var o := Decide(SizeAdapter(m, min, max), Null, path, p, env);
      o.Completed? && !o.verdict.keepGoing
      && (o.verdict.added == if min != -1 then [Violation(CollectionNull, path, p)] else [])
  {
  }

  /** Future fails on null and on a value strictly before now on its own time
      line; a value equal to now passes. */
  lemma FutureVerdict(m: Message, value: Value, path: seq<string>, p: Option<string>, env: Env)
    ensures var o := Decide(FutureAdapter(m), value, path, p, env);
      var fails := value.Null? || (Compared(value) && value.t < env.now(value.kind));
      (fails ==> o == Completed(Reject(m, path, p))) && (!fails ==> o == Completed(Accept()))
    ensures forall k :: Decide(FutureAdapter(m), Temporal(k, env.now(k)), path, p, env) == Completed(Accept())
  {
  }

  /** Past fails on null and on a value strictly after now; a value equal to now passes. */
  lemma PastVerdict(m: Message, value: Value, path: seq<string>, p: Option<string>, env: Env)
    ensures var o := Decide(PastAdapter(m), value, path, p, env);
      var fails := value.Null? || (Compared(value) && value.t > env.now(value.kind));
      (fails ==> o == Completed(Reject(m, path, p))) && (!fails ==> o == Completed(Accept()))
    ensures forall k :: Decide(PastAdapter(m), Temporal(k, env.now(k)), path, p, env) == Completed(Accept())
  {
  }

  /** AssertTrue fails only on FALSE and AssertFalse only on TRUE; null passes both. */
  lemma AssertVerdicts(m: Message, value: Value, path: seq<string>, p: Option<string>, env: Env)
    requires value.Null? || value.Bool?
    ensures Decide(AssertTrueAdapter(m), value, path, p, env)
      == if value == Bool(false) then Completed(Reject(m, path, p)) else Completed(Accept())
    ensures Decide(AssertFalseAdapter(m), value, path, p, env)
      == if value == Bool(true) then Completed(Reject(m, path, p)) else Completed(Accept())
  {
  }

  /** Every adapter other than Size appends at most one violation, with its own
      message, and (when it returns) returns false exactly when it appends. */
  lemma OneViolationExceptSize(a: Adapter, value: Value, path: seq<string>, p: Option<string>, env: Env)
    requires Admits(a, value) && !a.SizeAdapter?
    ensures var o := Decide(a, value, path, p, env);
      o.Completed? ==>
        (o.verdict.added == [] || o.verdict.added == [Violation(a.message, path, p)])
        && (o.verdict.keepGoing <==> o.verdict.added == [])
  {
  }

  /** Only the Pattern adapter can throw. */
  lemma OnlyPatternThrows(a: Adapter, value: Value, path: seq<string>, p: Option<string>, env: Env)
    requires Admits(a, value)
    ensures Decide(a, value, path, p, env).NullPointerThrown? ==> a.PatternAdapter? && !value.Null? && p.None?
  {
  }
}
