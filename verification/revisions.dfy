/**
 * How the two revisions of the built-in adapters relate: where they agree
 * and where they give different answers for the same call.
 */
module Revisions {
  import opened Values
  import Current = BasicAdapters
  import Legacy = LegacyAdapters

  /** On null, the current Size passes silently while the legacy Size returns
      false and records "CollectionNull" unless `min` is -1. */
  lemma SizeNullPolicyDiffers(m: Message, min: int, max: int, path: seq<string>, p: Option<string>, env: Env)
    ensures Current.Decide(Current.SizeAdapter(m, min, max), Null, path, p, env) == Accept()
    ensures Legacy.Decide(Legacy.SizeAdapter(m, min, max), Null, path, p, env)
      == Legacy.Completed(Verdict(false, if min != -1 then [Violation(Legacy.CollectionNull, path, p)] else []))
  {
  }

  /** On every non-null value the two Size adapters agree. */
  lemma SizeAgreesOnValues(m: Message, min: int, max: int, value: Value, path: seq<string>, p: Option<string>, env: Env)
    requires !value.Null?
    ensures Legacy.Decide(Legacy.SizeAdapter(m, min, max), value, path, p, env)
      == Legacy.Completed(Current.Decide(Current.SizeAdapter(m, min, max), value, path, p, env))
  {
  }

  /** With a value that matches and a property name that does not, the current
      Pattern passes and the legacy one fails; with the roles swapped, the
      verdicts swap too. */
  lemma PatternRevisionsDisagree(m: Message, re: string, flags: bv32, s: string, name: string, path: seq<string>, env: Env)
    requires env.fullMatch(re, flags, s) != env.fullMatch(re, flags, name)
    ensures Current.Decide(Current.PatternAdapter(m, re, flags), Text(s), path, Some(name), env).keepGoing
      == env.fullMatch(re, flags, s)
    ensures Legacy.Decide(Legacy.PatternAdapter(m, re, flags), Text(s), path, Some(name), env).verdict.keepGoing
      == env.fullMatch(re, flags, name)
    ensures Current.Decide(Current.PatternAdapter(m, re, flags), Text(s), path, Some(name), env).keepGoing
      != Legacy.Decide(Legacy.PatternAdapter(m, re, flags), Text(s), path, Some(name), env).verdict.keepGoing
  {
  }

  /** NotBlank (the current character loop and the legacy String.isBlank) behaves
      identically in both revisions on the strings it accepts, and NotNull on
      every value. */
  lemma NotBlankAndNotNullAgree(m: Message, value: Value, path: seq<string>, p: Option<string>, env: Env)
    ensures value.Null? || value.Text? ==>
      Legacy.Decide(Legacy.NotBlankAdapter(m), value, path, p, env)
      == Legacy.Completed(Current.Decide(Current.NotBlankAdapter(m), value, path, p, env))
    ensures Legacy.Decide(Legacy.NotNullAdapter(m), value, path, p, env)
      == Legacy.Completed(Current.Decide(Current.NotNullAdapter(m), value, path, p, env))
  {
  }

  /** The legacy AssertTrue and AssertFalse are the current AssertBoolean with
      polarity false and true. */
  lemma AssertAdaptersAgree(m: Message, value: Value, path: seq<string>, p: Option<string>, env: Env)
    requires value.Null? || value.Bool?
    ensures Legacy.Decide(Legacy.AssertTrueAdapter(m), value, path, p, env)
      == Legacy.Completed(Current.Decide(Current.AssertBooleanAdapter(m, false), value, path, p, env))
    ensures Legacy.Decide(Legacy.AssertFalseAdapter(m), value, path, p, env)
      == Legacy.Completed(Current.Decide(Current.AssertBooleanAdapter(m, true), value, path, p, env))
  {
  }
}
