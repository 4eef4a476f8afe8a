/**
 * Shared vocabulary of the validation runtime: the shapes a validated value can
 * take, message references, recorded violations, the verdict an adapter reaches,
 * and the environment (regular-expression engine, clock, group test) that the
 * adapters consult instead of calling into the platform.
 */
module Values {

  datatype Option<+T> = None | Some(value: T)

  /** Kinds of date/time values the legacy Future and Past adapters distinguish.
      `Date` is java.util.Date (not a TemporalAccessor); `OtherTemporal` is any
      TemporalAccessor the adapters do not list (DayOfWeek, MonthDay, ...). */
  datatype TemporalKind =
    | Date | Instant | LocalDate | LocalDateTime | LocalTime
    | ZonedDateTime | OffsetDateTime | OffsetTime | Year | YearMonth
    | OtherTemporal

  /** A validated value, reduced to what the adapters inspect. A temporal value
      is a position `t` on the time line of its own kind. */
  datatype Value =
    | Null
    | Bool(b: bool)
    | Text(chars: string)            // any CharSequence
    | Coll(size: nat)                // any java.util.Collection
    | MapV(size: nat)                // any java.util.Map
    | Arr(size: nat)                 // any Java array
    | Temporal(kind: TemporalKind, t: int)
    | Other                          // any other object

  /** Where a violation's message comes from. The text itself is resolved
      elsewhere and is opaque here.
      - Declared: the constraint's own message attribute (`message2(attributes)`)
      - DeclaredOr(k): the message attribute, defaulting to key k (`message2(k, attributes)`)
      - Keyed(k): the message resolved under key k (`message(k, attributes)`)
      - Literal(s): a raw string handed to the request */
  datatype Message = Declared | DeclaredOr(default: string) | Keyed(key: string) | Literal(text: string)

  /** One recorded violation: its message, the request's path stack when it was
      recorded, and the property name it was recorded for (absent = Java null). */
  datatype Violation = Violation(message: Message, path: seq<string>, property: Option<string>)

  /** What one adapter call does: the boolean it returns ("keep going") and the
      violations it appends to the request, in order. */
  datatype Verdict = Verdict(keepGoing: bool, added: seq<Violation>)

  /** Passed with no violation. */
  function Accept(): Verdict
  {
    Verdict(true, [])
  }

  /** Failed, with exactly one violation carrying `message`, `path` and `property`. */
  function Reject(message: Message, path: seq<string>, property: Option<string>): Verdict
  {
    Verdict(false, [Violation(message, path, property)])
  }

  /** A constraint attribute as declared: an Integer, a String, a list of regex
      flags (each flag given by its java.util.regex.Pattern bit value), or
      anything else. */
  datatype Attribute = IntAttr(i: int) | StringAttr(s: string) | FlagsAttr(flags: seq<bv32>) | OtherAttr

  type Attributes = map<string, Attribute>

  /** A validation group, named by its class. */
  type Group = string

  /** What the adapters take from outside:
      - fullMatch(regexp, flags, input): whether `input` fully matches the
        pattern compiled from `regexp` with `flags`
      - now(kind): the current instant on the time line of `kind`
      - groupsActive(groups): the request's verdict on a constraint's groups */
  datatype Env = Env(
    fullMatch: (string, bv32, string) -> bool,
    now: TemporalKind -> int,
    groupsActive: set<Group> -> bool)
}
