/**
 * The built-in constraint adapters of the current runtime: the factory that
 * maps a constraint's simple name to an adapter, and the Pattern, Size,
 * NotBlank, NotEmpty, AssertTrue/AssertFalse, NotNull and Null adapters.
 *
 * An adapter is an immutable value. `Decide` says what one `validate` call
 * does (the boolean it returns and the violations it appends); the method
 * `Validate` performs the call against a request and is proved to do exactly that.
 */
module BasicAdapters {
  import opened Values
  import opened JavaText
  import opened RegexFlags
  import opened Requests

  datatype Adapter =
    | PatternAdapter(message: Message, regexp: string, flags: bv32)
    | SizeAdapter(message: Message, min: int, max: int)
    | NotBlankAdapter(message: Message)
    | NotEmptyAdapter(message: Message)
    | AssertBooleanAdapter(message: Message, assertBool: bool)
    | NotNullAdapter(message: Message)
    | NullAdapter(message: Message)

  /** Adapters the factory builds from classes defined outside this file
      (their behaviour is not part of this model). */
  datatype External =
    | EmailAdapter(message: Message, attributes: Attributes)
    | FuturePastAdapter(message: Message, past: bool, orPresent: bool)

  /** What the factory produces: one of the adapters above, an adapter of an
      outside class, Java null for a name it does not know, or the exception an
      adapter constructor throws on a missing or ill-typed attribute. */
  datatype Creation =
    | Created(adapter: Adapter)
    | CreatedElsewhere(external: External)
    | NoAdapter
    | Thrown(attribute: string)

  /** The names the factory knows. */
  const Names: set<string> :=
    {"Email", "Null", "NotNull", "NonNull", "AssertTrue", "AssertFalse", "NotBlank",
     "NotEmpty", "Past", "PastOrPresent", "Future", "FutureOrPresent", "Pattern", "Size"}

  const PatternMessage: string := "{avaje.Pattern.message}"

  /** FACTORY: dispatch on the constraint's simple name. */
  function Create(name: string, attributes: Attributes): Creation
  {
    if name == "Email" then CreatedElsewhere(EmailAdapter(Declared, attributes))
    else if name == "Null" then Created(NullAdapter(Declared))
    else if name == "NotNull" || name == "NonNull" then Created(NotNullAdapter(Declared))
    else if name == "AssertTrue" then Created(AssertBooleanAdapter(Declared, false))
    else if name == "AssertFalse" then Created(AssertBooleanAdapter(Declared, true))
    else if name == "NotBlank" then Created(NotBlankAdapter(Declared))
    else if name == "NotEmpty" then Created(NotEmptyAdapter(Declared))
    else if name == "Past" then CreatedElsewhere(FuturePastAdapter(Keyed("Past"), true, false))
    else if name == "PastOrPresent" then CreatedElsewhere(FuturePastAdapter(Keyed("PastOrPresent"), true, true))
    else if name == "Future" then CreatedElsewhere(FuturePastAdapter(Keyed("Future"), false, false))
    else if name == "FutureOrPresent" then CreatedElsewhere(FuturePastAdapter(Keyed("FutureOrPresent"), false, true))
    else if name == "Pattern" then CreatePattern(attributes)
    else if name == "Size" then CreateSize(attributes)
    else NoAdapter
  }

  /** PatternAdapter's constructor: an absent flag list means no flags; a
      present one must be a list, and the regexp must be a string. */
  function CreatePattern(attributes: Attributes): Creation
  {
    if "flags" in attributes && !attributes["flags"].FlagsAttr? then Thrown("flags")
    else if "regexp" !in attributes || !attributes["regexp"].StringAttr? then Thrown("regexp")
    else
      var bits := if "flags" in attributes then FlagBits(attributes["flags"].flags) else 0;
      Created(PatternAdapter(DeclaredOr(PatternMessage), attributes["regexp"].s, bits))
  }

  /** SizeAdapter's constructor: `min` and `max` are unboxed Integers. */
  function CreateSize(attributes: Attributes): Creation
  {
    if "min" !in attributes || !attributes["min"].IntAttr? then Thrown("min")
    else if "max" !in attributes || !attributes["max"].IntAttr? then Thrown("max")
    else Created(SizeAdapter(Declared, attributes["min"].i, attributes["max"].i))
  }

  /** The values an adapter's declared Java type admits. */
  predicate Admits(a: Adapter, value: Value)
  {
    match a
    case PatternAdapter(_, _, _) => value.Null? || value.Text?
    case NotBlankAdapter(_) => value.Null? || value.Text?
    case AssertBooleanAdapter(_, _) => value.Null? || value.Bool?
    case _ => true
  }

  predicate OutOfBounds(len: int, min: int, max: int)
  {
    len > max || len < min
  }

  /** A collection, map or array (the shapes whose size the Size adapter reads). */
  predicate IsContainer(value: Value)
  {
    value.Coll? || value.MapV? || value.Arr?
  }

  /** One `validate(value, req, propertyName)` call, with `path` the request's
      path stack at the time of the call. */
  function Decide(a: Adapter, value: Value, path: seq<string>, propertyName: Option<string>, env: Env): Verdict
    requires Admits(a, value)
  {
    match a
    case PatternAdapter(m, re, fl) =>
      if value.Null? || !env.fullMatch(re, fl, value.chars) then Reject(m, path, propertyName) else Accept()
    case SizeAdapter(m, min, max) =>
      if value.Text? && OutOfBounds(|value.chars|, min, max) then Reject(m, path, propertyName)
      else if IsContainer(value) && OutOfBounds(value.size, min, max) then
        Verdict(value.size > 0, [Violation(m, path, propertyName)])
      else Accept()
    case NotBlankAdapter(m) =>
      if value.Null? || Blank(value.chars) then Reject(m, path, propertyName) else Accept()
    case NotEmptyAdapter(m) =>
      if value.Null? || (IsContainer(value) && value.size == 0) || (value.Text? && value.chars == [])
      then Reject(m, path, propertyName) else Accept()
    case AssertBooleanAdapter(m, assertBool) =>
      if value == Bool(assertBool) then Reject(m, path, propertyName) else Accept()
    case NotNullAdapter(m) =>
      if value.Null? then Reject(m, path, propertyName) else Accept()
    case NullAdapter(m) =>
      if !value.Null? then Reject(m, path, propertyName) else Accept()
  }

  /** NotBlankAdapter.isBlank: scans for a non-whitespace character. */
  method IsBlank(cs: string) returns (blank: bool)
    ensures blank <==> Blank(cs)
  {
    var strLen := |cs|;
    if strLen == 0 {
      return true;
    }
    for i := 0 to strLen
      invariant forall j :: 0 <= j < i ==> IsWhitespace(cs[j])
    {
      if !IsWhitespace(cs[i]) {
        return false;
      }
    }
    return true;
  }

  /** `validate(value, req, propertyName)` of each adapter. */
  method Validate(a: Adapter, value: Value, req: ValidationRequest, propertyName: Option<string>, env: Env)
    returns (keepGoing: bool)
    requires Admits(a, value)
    modifies req
    ensures keepGoing == Decide(a, value, old(req.path), propertyName, env).keepGoing
    ensures req.violations == old(req.violations) + Decide(a, value, old(req.path), propertyName, env).added
    ensures req.path == old(req.path)
  {
    match a
    case PatternAdapter(m, re, fl) =>
      if value.Null? || !env.fullMatch(re, fl, value.chars) {
        req.AddViolation(m, propertyName);
        return false;
      }
      return true;
    case SizeAdapter(m, min, max) =>
      if value.Null? {
        return true;
      }
      if value.Text? {
        var len := |value.chars|;
        if len > max || len < min {
          req.AddViolation(m, propertyName);
          return false;
        }
      }
      if value.Coll? || value.MapV? || value.Arr? {
        var len := value.size;
        if len > max || len < min {
          req.AddViolation(m, propertyName);
          return len > 0;
        }
      }
      return true;
    case NotBlankAdapter(m) =>
      var blank := false;
      if !value.Null? {
        blank := IsBlank(value.chars);
      }
      if value.Null? || blank {
        req.AddViolation(m, propertyName);
        return false;
      }
      return true;
    case NotEmptyAdapter(m) =>
      if value.Null? || (value.Coll? && value.size == 0) || (value.MapV? && value.size == 0) {
        req.AddViolation(m, propertyName);
        return false;
      } else if value.Text? {
        if |value.chars| == 0 {
          req.AddViolation(m, propertyName);
          return false;
        }
      } else if value.Arr? {
        if value.size == 0 {
          req.AddViolation(m, propertyName);
          return false;
        }
      }
      return true;
    case AssertBooleanAdapter(m, assertBool) =>
      if value == Bool(assertBool) {
        req.AddViolation(m, propertyName);
        return false;
      }
      return true;
    case NotNullAdapter(m) =>
      if value.Null? {
        req.AddViolation(m, propertyName);
        return false;
      }
      return true;
    case NullAdapter(m) =>
      if !value.Null? {
        req.AddViolation(m, propertyName);
        return false;
      }
      return true;
  }

  // ----- The factory -----

  /** "NotNull" and "NonNull" build the same adapter. */
  lemma FactoryNotNullAliases(attributes: Attributes)
    ensures Create("NotNull", attributes) == Create("NonNull", attributes) == Created(NotNullAdapter(Declared))
  {
  }

  /** "AssertTrue" stores polarity false and so rejects exactly FALSE; "AssertFalse"
      stores polarity true and rejects exactly TRUE. */
  lemma FactoryAssertPolarity(attributes: Attributes, value: Value, path: seq<string>, p: Option<string>, env: Env)
    requires value.Null? || value.Bool?
    ensures Create("AssertTrue", attributes) == Created(AssertBooleanAdapter(Declared, false))
    ensures Create("AssertFalse", attributes) == Created(AssertBooleanAdapter(Declared, true))
    ensures !Decide(AssertBooleanAdapter(Declared, false), value, path, p, env).keepGoing <==> value == Bool(false)
    ensures !Decide(AssertBooleanAdapter(Declared, true), value, path, p, env).keepGoing <==> value == Bool(true)
  {
  }

  /** The factory returns null exactly for the names it does not know. */
  lemma FactoryUnknownName(name: string, attributes: Attributes)
    ensures Create(name, attributes) == NoAdapter <==> name !in Names
  {
  }

  /** A Pattern adapter is built exactly when the regexp is a string and any flag
      list is a list of flags; it keeps the regexp, and its flags are the OR of
      the listed flags, or 0 when no list is given. Otherwise the constructor
      throws on the flags first, then on the regexp. */
  lemma FactoryPatternFlags(attributes: Attributes)
    ensures Create("Pattern", attributes).Created? <==>
      ("flags" in attributes ==> attributes["flags"].FlagsAttr?)
      && "regexp" in attributes && attributes["regexp"].StringAttr?
    ensures Create("Pattern", attributes).Created? ==>
      var a := Create("Pattern", attributes).adapter;
      a.PatternAdapter? && a.regexp == attributes["regexp"].s
      && a.flags == (if "flags" in attributes then FlagBits(attributes["flags"].flags) else 0)
    ensures "flags" in attributes && !attributes["flags"].FlagsAttr? ==>
      Create("Pattern", attributes) == Thrown("flags")
    ensures (("flags" in attributes ==> attributes["flags"].FlagsAttr?)
             && !("regexp" in attributes && attributes["regexp"].StringAttr?)) ==>
      Create("Pattern", attributes) == Thrown("regexp")
  {
  }

  /** Building a Size adapter needs integer `min` and `max`, which it keeps;
      otherwise the constructor throws. */
  lemma FactorySizeAttributes(attributes: Attributes)
    ensures Create("Size", attributes).Created? <==>
      "min" in attributes && attributes["min"].IntAttr? && "max" in attributes && attributes["max"].IntAttr?
    ensures Create("Size", attributes).Created? ==>
      Create("Size", attributes).adapter == SizeAdapter(Declared, attributes["min"].i, attributes["max"].i)
    ensures !Create("Size", attributes).Created? ==> Create("Size", attributes).Thrown?
  {
  }

  // ----- The adapters -----

  /** Size treats null as valid: it returns true and records nothing. */
  lemma SizeNullPasses(m: Message, min: int, max: int, path: seq<string>, p: Option<string>, env: Env)
    ensures Decide(SizeAdapter(m, min, max), Null, path, p, env) == Accept()
  {
  }

  /** Text outside [min, max] records one violation and returns false; inside, it passes. */
  lemma SizeText(m: Message, min: int, max: int, s: string, path: seq<string>, p: Option<string>, env: Env)
    ensures var v := Decide(SizeAdapter(m, min, max), Text(s), path, p, env);
      if |s| < min || |s| > max then v == Reject(m, path, p) else v == Accept()
  {
  }

  /** A collection, map or array outside [min, max] records one violation but
      returns whether it is non-empty: an over-size non-empty container keeps going. */
  lemma SizeContainer(m: Message, min: int, max: int, value: Value, path: seq<string>, p: Option<string>, env: Env)
    requires value.Coll? || value.MapV? || value.Arr?
    ensures var v := Decide(SizeAdapter(m, min, max), value, path, p, env);
      if value.size < min || value.size > max
      then v.added == [Violation(m, path, p)] && v.keepGoing == (value.size > 0)
      else v == Accept()
  {
  }

  /** A shape with no size (boolean, temporal, other) always passes Size. */
  lemma SizeIgnoresSizelessShapes(m: Message, min: int, max: int, value: Value, path: seq<string>, p: Option<string>, env: Env)
    requires value.Bool? || value.Temporal? || value.Other?
    ensures Decide(SizeAdapter(m, min, max), value, path, p, env) == Accept()
  {
  }

  /** NotBlank fails (one violation, false) exactly on null or all-whitespace text. */
  lemma NotBlankVerdict(m: Message, value: Value, path: seq<string>, p: Option<string>, env: Env)
    requires value.Null? || value.Text?
    ensures var v := Decide(NotBlankAdapter(m), value, path, p, env);
      (v == Reject(m, path, p) <==> value.Null? || Blank(value.chars))
      && (!(value.Null? || Blank(value.chars)) ==> v == Accept())
      && (v.keepGoing ==> v == Accept())
  {
  }

  /** A single non-whitespace character anywhere makes NotBlank pass. */
  lemma NotBlankNonWhitespacePasses(m: Message, s: string, i: nat, path: seq<string>, p: Option<string>, env: Env)
    requires i < |s| && !IsWhitespace(s[i])
    ensures Decide(NotBlankAdapter(m), Text(s), path, p, env) == Accept()
  {
  }

  /** NotEmpty fails exactly on null, an empty collection or map, empty text and
      an empty array; every other value passes untouched. */
  lemma NotEmptyVerdict(m: Message, value: Value, path: seq<string>, p: Option<string>, env: Env)
    ensures var v := Decide(NotEmptyAdapter(m), value, path, p, env);
      var empty := value.Null? || value == Coll(0) || value == MapV(0) || value == Text("") || value == Arr(0);
      (empty ==> v == Reject(m, path, p)) && (!empty ==> v == Accept())
  {
  }

  /** AssertBoolean fails exactly when the value equals its polarity, so null passes. */
  lemma AssertBooleanVerdict(m: Message, assertBool: bool, value: Value, path: seq<string>, p: Option<string>, env: Env)
    requires value.Null? || value.Bool?
    ensures var v := Decide(AssertBooleanAdapter(m, assertBool), value, path, p, env);
      (value == Bool(assertBool) ==> v == Reject(m, path, p)) && (value != Bool(assertBool) ==> v == Accept())
    ensures Decide(AssertBooleanAdapter(m, assertBool), Null, path, p, env) == Accept()
  {
  }

  /** NotNull fails exactly on null; Null fails exactly on non-null. */
  lemma NullityVerdicts(m: Message, value: Value, path: seq<string>, p: Option<string>, env: Env)
    ensures Decide(NotNullAdapter(m), value, path, p, env) == if value.Null? then Reject(m, path, p) else Accept()
    ensures Decide(NullAdapter(m), value, path, p, env) == if value.Null? then Accept() else Reject(m, path, p)
  {
  }

  /** Pattern fails on null, and on text exactly when the text does not fully match. */
  lemma PatternVerdict(m: Message, re: string, flags: bv32, value: Value, path: seq<string>, p: Option<string>, env: Env)
    requires value.Null? || value.Text?
    ensures var v := Decide(PatternAdapter(m, re, flags), value, path, p, env);
      var fails := value.Null? || !env.fullMatch(re, flags, value.chars);
      (fails ==> v == Reject(m, path, p)) && (!fails ==> v == Accept())
  {
  }

  /** Every adapter appends at most one violation, carrying its message, the
      path and the property name; and, except Size on a container, it returns
      false exactly when it appends. */
  lemma AtMostOneViolation(a: Adapter, value: Value, path: seq<string>, p: Option<string>, env: Env)
    requires Admits(a, value)
    ensures var v := Decide(a, value, path, p, env);
      (v.added == [] || v.added == [Violation(a.message, path, p)])
      && (!(a.SizeAdapter? && IsContainer(value)) ==> (v.keepGoing <==> v.added == []))
  {
  }
}
