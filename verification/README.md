# avaje-validator core, modelled in Dafny

This project models the runtime core of the avaje-validator bean-validation
library and the string helpers of its annotation-processing code generator.

- **Built-in constraint adapters, current revision** (`BasicAdapters`): the
  factory that maps a constraint annotation's simple name to an adapter. The
  adapters modelled are Pattern, Size, NotBlank, NotEmpty, AssertTrue and
  AssertFalse (one adapter with a polarity), NotNull/NonNull and Null. An
  adapter is an immutable value. `Decide` says what one `validate(value,
  request, propertyName)` call returns and which violations it appends.
  `Validate` performs that call on a `ValidationRequest` object and is proved
  to do exactly what `Decide` says.
- **Built-in adapters, older revision** (`LegacyAdapters`): the same shape
  with its own behaviour:
  - Pattern matches the property name, not the value, and throws on a null
    property name.
  - Size fails on null, recording "CollectionNull" unless `min` is -1.
  - Future and Past compare against the clock.
  - the Pattern constructor demands a flag list.

  `Revisions` proves where the two revisions agree and where they differ.
- **AbstractConstraintAdapter** (`ConstraintAdapters`): a class with the
  message, the groups and the subclass's `isValid`. It runs the groups gate,
  then the predicate, and records a violation when the predicate fails.
- **`ValidationAdapter.then`** (`ValidationAdapters`): chains of adapters.
  Proved: `after` runs only when the first adapter passed, a failing first
  adapter makes the chain return true, and `then` is not associative.
- **A hand-written cascading adapter** (`AddressAdapters`): it pushes the
  property name onto the request's path when there is one, validates `line1`
  beneath it, pops it again and always returns true.
- **A custom adapter with a primitive and a boxed predicate**
  (`CustomAdapters`). The two accept different numbers.
- **Generator helpers** (`GeneratorUtil`): validImportType, packageOf,
  shortName, shortType, trimAnnotations, commonParent, initCap, initLower and
  baseTypeOfAdapter. The proofs include a package/name round trip, split/join
  round trips, the maximality of commonParent and what shortType keeps of a
  well-formed name.

Supporting modules:
- `Values`: values, messages, violations and the environment.
- `JavaText`: `Character.isWhitespace`, letter case, `indexOf`,
  `lastIndexOf` and `startsWith`.
- `RegexFlags`: the OR of regex flags.
- `Requests`: the request's violation list and path stack.

Inputs from outside the model become parameters in the `Env` value:
- the regex engine (`fullMatch`)
- the clock (`now`, one reading per date/time type)
- the request's group check (`groupsActive`)

The source does not catch its exceptions. Where one can be thrown, the model
returns a distinct result, so the caller sees that the call did not complete:
- `Thrown` from a factory whose adapter constructor meets a missing or
  ill-typed attribute;
- `NullPointerThrown` from the legacy Pattern adapter;
- `None` from `ThenOf` for a null `after`, which `Objects.requireNonNull`
  rejects;
- `None` from shortType and baseTypeOfAdapter when a string index is out of
  range.

A factory's `default -> null` for an unknown name is no exception; it is
modelled as `NoAdapter`.

Where the Javadoc and the code disagree, the model follows the code. The
`@Future` annotation's Javadoc (validator-constraints/src/main/java/io/avaje/validation/constraints/Future.java:39)
says null elements are considered valid. The older Future adapter and Past
adapter nevertheless record a violation and return false on null
(validator/src/main/java/io/avaje/validation/core/BasicAdapters.java:141-144 and 181-184).
The Javadoc also lists `Calendar` and `MonthDay`, which the older adapters do not compare; they pass.

## Model

| member | source | states |
|---|---|---|
| BasicAdapters.Create | validator/src/main/java/io/avaje/validation/core/adapters/BasicAdapters.java:19-35 | the factory switch: each known simple name to its adapter and message, unknown names to null (its properties are the Factory lemmas below) |
| BasicAdapters.Decide | validator/src/main/java/io/avaje/validation/core/adapters/BasicAdapters.java:56-241 | reference definition of one validate call per adapter: the returned boolean and the appended violations (its properties are the verdict lemmas below) |
| BasicAdapters.IsBlank | validator/src/main/java/io/avaje/validation/core/adapters/BasicAdapters.java:138-149 | the loop answers true exactly when every character is Java whitespace (so the empty string is blank) |
| BasicAdapters.Validate | validator/src/main/java/io/avaje/validation/core/adapters/BasicAdapters.java:56-241 | each adapter's validate returns `Decide`'s boolean, appends exactly `Decide`'s violations at the current path and leaves the path alone |
| BasicAdapters.FactoryNotNullAliases | validator/src/main/java/io/avaje/validation/core/adapters/BasicAdapters.java:23 | "NotNull" and "NonNull" build the same NotNull adapter |
| BasicAdapters.FactoryAssertPolarity | validator/src/main/java/io/avaje/validation/core/adapters/BasicAdapters.java:24-25 | AssertTrue stores polarity false and rejects exactly FALSE; AssertFalse stores true and rejects exactly TRUE |
| BasicAdapters.FactoryUnknownName | validator/src/main/java/io/avaje/validation/core/adapters/BasicAdapters.java:19-35 | the factory yields null if and only if the name is not one of the fourteen it knows |
| BasicAdapters.FactoryPatternFlags | validator/src/main/java/io/avaje/validation/core/adapters/BasicAdapters.java:43-53 | a Pattern adapter is built exactly when the regexp is a string and any flag list is well-typed; it keeps the regexp and the OR of all listed flags, or 0 when no flag list is given; otherwise the constructor throws on the flags first, then on the regexp |
| BasicAdapters.FactorySizeAttributes | validator/src/main/java/io/avaje/validation/core/adapters/BasicAdapters.java:72-76 | a Size adapter is built exactly when `min` and `max` are both integers; otherwise the constructor throws |
| BasicAdapters.SizeNullPasses | validator/src/main/java/io/avaje/validation/core/adapters/BasicAdapters.java:80-82 | Size on null returns true and records nothing |
| BasicAdapters.SizeText | validator/src/main/java/io/avaje/validation/core/adapters/BasicAdapters.java:84-90 | text whose length is outside [min, max] records one violation and returns false; inside, it passes |
| BasicAdapters.SizeContainer | validator/src/main/java/io/avaje/validation/core/adapters/BasicAdapters.java:92-115 | a collection, map or array outside [min, max] records one violation but returns whether it is non-empty |
| BasicAdapters.SizeIgnoresSizelessShapes | validator/src/main/java/io/avaje/validation/core/adapters/BasicAdapters.java:79-118 | booleans, dates and other objects always pass Size |
| BasicAdapters.NotBlankVerdict | validator/src/main/java/io/avaje/validation/core/adapters/BasicAdapters.java:130-136 | NotBlank records one violation and returns false if and only if the value is null or all whitespace; any other string passes with nothing recorded |
| BasicAdapters.NotBlankNonWhitespacePasses | validator/src/main/java/io/avaje/validation/core/adapters/BasicAdapters.java:143-147 | one non-whitespace character anywhere makes NotBlank pass |
| BasicAdapters.NotEmptyVerdict | validator/src/main/java/io/avaje/validation/core/adapters/BasicAdapters.java:161-183 | NotEmpty fails exactly on null, an empty collection, map, text or array, and passes every other value untouched |
| BasicAdapters.AssertBooleanVerdict | validator/src/main/java/io/avaje/validation/core/adapters/BasicAdapters.java:198-204 | AssertBoolean fails exactly when the value equals the stored polarity; null always passes |
| BasicAdapters.NullityVerdicts | validator/src/main/java/io/avaje/validation/core/adapters/BasicAdapters.java:216-240 | NotNull fails exactly on null and Null fails exactly on non-null |
| BasicAdapters.PatternVerdict | validator/src/main/java/io/avaje/validation/core/adapters/BasicAdapters.java:57-63 | Pattern fails on null and on text that does not fully match; a full match passes |
| BasicAdapters.AtMostOneViolation | validator/src/main/java/io/avaje/validation/core/adapters/BasicAdapters.java:56-241 | every adapter appends at most one violation, with its message, path and property; outside Size on a container, false is returned exactly when it appends |
| RegexFlags.CollectFlags | validator/src/main/java/io/avaje/validation/core/adapters/BasicAdapters.java:45-52 | the loop's result is the OR of all listed flags |
| RegexFlags.FlagBitsIncludesEach | validator/src/main/java/io/avaje/validation/core/adapters/BasicAdapters.java:49-51 | every listed flag's bits are set in the combined flags |
| RegexFlags.FlagBitsOnlyListed | validator/src/main/java/io/avaje/validation/core/adapters/BasicAdapters.java:49-51 | no bit outside all listed flags is set in the combined flags |
| LegacyAdapters.Create | validator/src/main/java/io/avaje/validation/core/BasicAdapters.java:29-44 | the legacy factory switch, with the OrPresent names aliased and null for unknown names |
| LegacyAdapters.Decide | validator/src/main/java/io/avaje/validation/core/BasicAdapters.java:62-279 | reference definition of one legacy validate call: a verdict, or the null-pointer exception of Pattern |
| LegacyAdapters.Validate | validator/src/main/java/io/avaje/validation/core/BasicAdapters.java:62-279 | each legacy validate returns `Decide`'s boolean or throws exactly when `Decide` throws, and appends exactly `Decide`'s violations |
| LegacyAdapters.FactoryOrPresentAliases | validator/src/main/java/io/avaje/validation/core/BasicAdapters.java:37-39 | "PastOrPresent" builds the same adapter as "Past", and "FutureOrPresent" the same as "Future" |
| LegacyAdapters.FactoryUnknownName | validator/src/main/java/io/avaje/validation/core/BasicAdapters.java:29-44 | the legacy factory yields null if and only if the name is not one of the ten it knows |
| LegacyAdapters.FactoryPatternNeedsFlags | validator/src/main/java/io/avaje/validation/core/BasicAdapters.java:51-60 | a Pattern constraint without a flag list cannot be built (the constructor throws) |
| LegacyAdapters.PatternTestsPropertyName | validator/src/main/java/io/avaje/validation/core/BasicAdapters.java:63-69 | legacy Pattern fails on null, throws on a null property name, and otherwise fails exactly when the property name does not fully match |
| LegacyAdapters.PatternIgnoresText | validator/src/main/java/io/avaje/validation/core/BasicAdapters.java:63-69 | any two texts get the same legacy Pattern outcome |
| LegacyAdapters.FactoryPatternFlags | validator/src/main/java/io/avaje/validation/core/BasicAdapters.java:51-60 | a Pattern adapter is built exactly when the flag list and the regexp are given, and keeps the regexp and the OR of the listed flags; otherwise the constructor throws |
| LegacyAdapters.FactorySizeAttributes | validator/src/main/java/io/avaje/validation/core/BasicAdapters.java:78-82 | a Size adapter is built exactly when `min` and `max` are both integers and keeps them; otherwise the constructor throws |
| LegacyAdapters.SizeNullFails | validator/src/main/java/io/avaje/validation/core/BasicAdapters.java:85-91 | legacy Size on null returns false, recording "CollectionNull" exactly when `min` is not -1 |
| LegacyAdapters.FutureVerdict | validator/src/main/java/io/avaje/validation/core/BasicAdapters.java:139-166 | Future fails on null and on a date/time strictly before now; a value equal to now passes |
| LegacyAdapters.PastVerdict | validator/src/main/java/io/avaje/validation/core/BasicAdapters.java:179-206 | Past fails on null and on a date/time strictly after now; a value equal to now passes |
| LegacyAdapters.AssertVerdicts | validator/src/main/java/io/avaje/validation/core/BasicAdapters.java:237-260 | AssertTrue fails only on FALSE and AssertFalse only on TRUE; null passes both |
| LegacyAdapters.OneViolationExceptSize | validator/src/main/java/io/avaje/validation/core/BasicAdapters.java:62-279 | every legacy adapter but Size appends at most one violation with its own message, and returns false exactly when it appends |
| LegacyAdapters.OnlyPatternThrows | validator/src/main/java/io/avaje/validation/core/BasicAdapters.java:63-69 | only Pattern, on a non-null value with a null property name, throws |
| Revisions.SizeNullPolicyDiffers | validator/src/main/java/io/avaje/validation/core/BasicAdapters.java:85-91 | on null the current Size passes silently (validator/src/main/java/io/avaje/validation/core/adapters/BasicAdapters.java:80-82) while the legacy Size returns false |
| Revisions.SizeAgreesOnValues | validator/src/main/java/io/avaje/validation/core/BasicAdapters.java:93-126 | on every non-null value the two Size adapters give the same outcome |
| Revisions.PatternRevisionsDisagree | validator/src/main/java/io/avaje/validation/core/BasicAdapters.java:63-69 | when only one of value and property name matches, the two Pattern revisions give opposite answers |
| Revisions.NotBlankAndNotNullAgree | validator/src/main/java/io/avaje/validation/core/BasicAdapters.java:219-224 | NotBlank (`isBlank` against the character loop) agrees across revisions on every string and null, and NotNull on every value; the legacy NotNull is at lines 272-279 of the same file, the current NotBlank and NotNull at validator/src/main/java/io/avaje/validation/core/adapters/BasicAdapters.java:130-136 and 216-226 |
| Revisions.AssertAdaptersAgree | validator/src/main/java/io/avaje/validation/core/BasicAdapters.java:228-261 | legacy AssertTrue/AssertFalse equal the current AssertBoolean with polarity false/true |
| ConstraintAdapters.ConstraintAdapter.constructor | validator/src/main/java/io/avaje/validation/adapter/AbstractConstraintAdapter.java:15-18 | message and groups are stored as given |
| ConstraintAdapters.ConstraintAdapter.Validate | validator/src/main/java/io/avaje/validation/adapter/AbstractConstraintAdapter.java:29-38 | validate returns `Decide`'s boolean and appends exactly its violations |
| ConstraintAdapters.InactiveGroupsSkip | validator/src/main/java/io/avaje/validation/adapter/AbstractConstraintAdapter.java:30-32 | with inactive groups the call passes, records nothing and does not depend on `isValid` |
| ConstraintAdapters.ActiveGroupsCheck | validator/src/main/java/io/avaje/validation/adapter/AbstractConstraintAdapter.java:33-37 | with active groups, an invalid value records one violation with the stored message and returns false; a valid one passes |
| ConstraintAdapters.FalseIffRecorded | validator/src/main/java/io/avaje/validation/adapter/AbstractConstraintAdapter.java:29-38 | false is returned exactly when a violation is appended, and at most one is |
| ValidationAdapters.ThenOf | validator/src/main/java/io/avaje/validation/adapter/ValidationAdapter.java:28-29 | a null `after` is rejected; otherwise the chain is the first adapter followed by `after` |
| ValidationAdapters.Eval | validator/src/main/java/io/avaje/validation/adapter/ValidationAdapter.java:28-36 | reference definition of a chain: `after` is evaluated only when the first adapter passes, and a failing first adapter yields true |
| ValidationAdapters.Run | validator/src/main/java/io/avaje/validation/adapter/ValidationAdapter.java:28-36 | running a chain returns `Eval`'s boolean and appends exactly its violations |
| ValidationAdapters.ThenFirstPassed | validator/src/main/java/io/avaje/validation/adapter/ValidationAdapter.java:31-32 | when the first adapter passes, `then` returns `after`'s result and records both adapters' violations in order |
| ValidationAdapters.ThenFirstFailed | validator/src/main/java/io/avaje/validation/adapter/ValidationAdapter.java:30-35 | when the first adapter fails, `after` has no effect and `then` returns true |
| ValidationAdapters.ThenFalseOnlyFromAfter | validator/src/main/java/io/avaje/validation/adapter/ValidationAdapter.java:30-35 | `then` returns false if and only if the first adapter passed and `after` failed |
| ValidationAdapters.NotNullThenOnNull | validator/src/main/java/io/avaje/validation/adapter/ValidationAdapter.java:30-35 | NotNull-then-anything on null records one violation yet returns true |
| ValidationAdapters.ThenNotAssociative | validator/src/main/java/io/avaje/validation/adapter/ValidationAdapter.java:28-36 | (a then b) then c and a then (b then c) differ on null with three NotNull adapters |
| ValidationAdapters.ViolationsPerLeaf | validator/src/main/java/io/avaje/validation/adapter/ValidationAdapter.java:28-36 | a chain records at most one violation per adapter, all at the call's path and property name |
| AddressAdapters.NestedPath | validator/src/test/java/io/avaje/validation/core/AddressValidationAdapter.java:28-30 | the nested path is the caller's path plus the property name, or unchanged when the name is null |
| AddressAdapters.AddressValidationAdapter.constructor | validator/src/test/java/io/avaje/validation/core/AddressValidationAdapter.java:18-24 | the line1 adapter is stored as given |
| AddressAdapters.AddressValidationAdapter.Validate | validator/src/test/java/io/avaje/validation/core/AddressValidationAdapter.java:27-38 | returns true, restores the path, and appends exactly the line1 chain's violations computed under the nested path |
| AddressAdapters.Line1ViolationsNested | validator/src/test/java/io/avaje/validation/core/AddressValidationAdapter.java:28-31 | every violation from line1 carries the nested path and the property name "line1" |
| CustomAdapters.IsValidPrimitive | blackbox-test/src/main/java/example/avaje/custom/adapter/MyCustomALongAdapter.java:16-18 | `isValid(long)` (its property is PrimitiveAcceptsFour) |
| CustomAdapters.IsValidBoxed | blackbox-test/src/main/java/example/avaje/custom/adapter/MyCustomALongAdapter.java:21-23 | `isValid(Long)` with null as `None` (its property is BoxedAcceptsNullOrThree) |
| CustomAdapters.PrimitiveAcceptsFour | blackbox-test/src/main/java/example/avaje/custom/adapter/MyCustomALongAdapter.java:16-18 | the primitive predicate accepts exactly 4 |
| CustomAdapters.BoxedAcceptsNullOrThree | blackbox-test/src/main/java/example/avaje/custom/adapter/MyCustomALongAdapter.java:21-23 | the boxed predicate accepts null, and a number exactly when it is 3 |
| CustomAdapters.PathsDisagree | blackbox-test/src/main/java/example/avaje/custom/adapter/MyCustomALongAdapter.java:15-23 | the two predicates disagree exactly on 3 and 4 |
| GeneratorUtil.ValidImportType | validator-generator/src/main/java/io/avaje/validation/generator/Util.java:27-29 | true if and only if the type contains a dot and does not start with one |
| GeneratorUtil.PackageOf | validator-generator/src/main/java/io/avaje/validation/generator/Util.java:31-34 | "" without a dot; otherwise a proper prefix ending right before the last dot |
| GeneratorUtil.ShortName | validator-generator/src/main/java/io/avaje/validation/generator/Util.java:36-43 | the dot-free suffix directly after a dot, so the text after the last dot; the whole name when it has no dot |
| GeneratorUtil.PackageAndShortName | validator-generator/src/main/java/io/avaje/validation/generator/Util.java:31-43 | package, dot and short name give back any name with a dot |
| GeneratorUtil.SplitQualifiedName | validator-generator/src/main/java/io/avaje/validation/generator/Util.java:31-43 | `pkg.Name` with a dot-free name splits back into `pkg` and `Name` |
| GeneratorUtil.Split | validator-generator/src/main/java/io/avaje/validation/generator/Util.java:54 | the parts of a split on dots contain no dot |
| GeneratorUtil.JoinPieces | validator-generator/src/main/java/io/avaje/validation/generator/Util.java:54 | joining the pieces between the dots gives back the string |
| GeneratorUtil.PiecesJoin | validator-generator/src/main/java/io/avaje/validation/generator/Util.java:54 | splitting a dot-join of dot-free parts gives back the parts |
| GeneratorUtil.ClassStart | validator-generator/src/main/java/io/avaje/validation/generator/Util.java:54-58 | the scan stops at the first part that is empty or capitalised, and at no earlier part |
| GeneratorUtil.ClassSegments | validator-generator/src/main/java/io/avaje/validation/generator/Util.java:52-60 | the loop yields the parts from the first capitalised one joined by dots, or fails on an empty part before it |
| GeneratorUtil.ShortType | validator-generator/src/main/java/io/avaje/validation/generator/Util.java:45-62 | identity without a dot, the short name for "java..." types, otherwise the class parts |
| GeneratorUtil.ShortTypeKeepsClassSegments | validator-generator/src/main/java/io/avaje/validation/generator/Util.java:45-62 | for a well-formed qualified name the scan keeps exactly the class segments |
| GeneratorUtil.TrimAnnotations | validator-generator/src/main/java/io/avaje/validation/generator/Util.java:64-70 | a type without '@' is returned unchanged |
| GeneratorUtil.TrimAnnotationsDropsAnnotation | validator-generator/src/main/java/io/avaje/validation/generator/Util.java:64-70 | `prefix @Ann name` becomes `prefix name` |
| GeneratorUtil.TrimAnnotationsKeepsUnspacedAnnotation | validator-generator/src/main/java/io/avaje/validation/generator/Util.java:64-70 | with no space after the first '@', the annotation is kept and the word before it is repeated |
| GeneratorUtil.CommonParent | validator-generator/src/main/java/io/avaje/validation/generator/Util.java:72-90 | null handling as written; otherwise the longest dot-cut of the current top that the package starts with, or the dot-free remainder when there is none |
| GeneratorUtil.InitCap | validator-generator/src/main/java/io/avaje/validation/generator/Util.java:92-98 | only the first character changes, to upper case |
| GeneratorUtil.UpperRun | validator-generator/src/main/java/io/avaje/validation/generator/Util.java:107-116 | the length of the leading run of upper-case letters |
| GeneratorUtil.InitLower | validator-generator/src/main/java/io/avaje/validation/generator/Util.java:104-120 | the leading upper-case run is lower-cased and every later character is unchanged |
| GeneratorUtil.BaseTypeOfAdapter | validator-generator/src/main/java/io/avaje/validation/generator/Util.java:126-141 | a name shorter than the suffix throws; a result is at least the suffix shorter than the name; a dot-free name just loses its suffix |
| GeneratorUtil.BaseTypeOfNestedAdapter | validator-generator/src/main/java/io/avaje/validation/generator/Util.java:126-141 | `pkg.sub.NameSuffix` maps to `pkg.Name` |
| GeneratorUtil.BaseTypeOfInnerClassAdapter | validator-generator/src/main/java/io/avaje/validation/generator/Util.java:126-141 | `pkg.sub.Outer$InnerSuffix` maps to the outer type `pkg.Outer`, cut at the '$' |
| GeneratorUtil.BaseTypeOfTopLevelAdapter | validator-generator/src/main/java/io/avaje/validation/generator/Util.java:126-132 | `sub.NameSuffix` maps to `Name` |

## Left out

- The Email adapter and the current Future/Past adapter are built by the factory. Their classes are not part of this model, so only the factory's choice of class, message and flags is modelled.
- Regular-expression compilation and matching are a parameter (`fullMatch`). `PatternSyntaxException` on a malformed regexp is not modelled.
- The clock is a parameter (`now`), read once per date/time type. The legacy Date branch and the TemporalAccessor branch are both modelled as one comparison on that type's time line.
- `checkGroups` and the rest of `ValidationRequest`: the request is reduced to its violation list and its path stack. Group activity is a parameter (`groupsActive`).
- Message interpolation, locales and the `message2` lookup are left out. A message is kept as a tag: declared, declared-or-default, keyed or literal.
- Fail-fast requests, the validator's adapter lookup and the Validator facade are not modelled.
- JavaText.IsUpperCase, JavaText.ToUpperCase and JavaText.ToLowerCase cover ASCII letters only. Java's full Unicode case mapping is not modelled; `Character.isWhitespace` is modelled exactly.
- Strings are sequences of characters, not of UTF-16 code units. A supplementary character counts as one unit for Size and NotEmpty.
- Util.escapeQuotes (a regex replace), Util.isValid and Util.isNullable (annotation-mirror queries on compiler elements) are not modelled.
- `andThen` on annotation adapters is not part of the source files modelled. AddressValidationAdapter therefore receives its line1 chain as a constructor argument.
- A null Address makes `pojo.line1` throw after the path push. That case is not modelled: the Address is a value.
- ValidationAdapter's two-argument `validate` and its three-argument use elsewhere are modelled as one call with an optional property name.
- Size's `min` and `max` are Java `int`s; the model uses unbounded integers.
- The remaining generator and inject-plugin files are not part of this model: ElementAnnotationContainer, SimpleComponentWriter, DefaultValidatorProvider and the type-use example.
