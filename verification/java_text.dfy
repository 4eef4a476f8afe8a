/**
 * The few java.lang.Character and java.lang.String operations the adapters and
 * the generator's helpers rely on, with their Java meaning stated as contracts.
 */
module JavaText {

  /** Character.isWhitespace(char) as of Java 17: the Unicode space, line and
      paragraph separators except the non-breaking ones (U+00A0, U+2007,
      U+202F), plus U+0009..U+000D and U+001C..U+001F. */
  predicate IsWhitespace(c: char)
  {
    var n := c as int;
    (0x09 <= n <= 0x0D) || (0x1C <= n <= 0x20) || n == 0x1680
    || (0x2000 <= n <= 0x2006) || (0x2008 <= n <= 0x200A)
    || n == 0x2028 || n == 0x2029 || n == 0x205F || n == 0x3000
  }

  /** Every character is whitespace (true of the empty string): String.isBlank. */
  predicate Blank(s: string)
  {
    forall i :: 0 <= i < |s| ==> IsWhitespace(s[i])
  }

  /** Character.isUpperCase, restricted to the ASCII letters. */
  predicate IsUpperCase(c: char)
  {
    'A' <= c <= 'Z'
  }

  /** Character.toUpperCase, restricted to the ASCII letters. */
  function ToUpperCase(c: char): (u: char)
    ensures 'a' <= c <= 'z' ==> IsUpperCase(u) && u as int == c as int - 32
    ensures !('a' <= c <= 'z') ==> u == c
  {
    if 'a' <= c <= 'z' then (c as int - 32) as char else c
  }

  /** Character.toLowerCase, restricted to the ASCII letters. */
  function ToLowerCase(c: char): (l: char)
    ensures IsUpperCase(c) ==> 'a' <= l <= 'z' && l as int == c as int + 32
    ensures !IsUpperCase(c) ==> l == c
  {
    if IsUpperCase(c) then (c as int + 32) as char else c
  }

  /** String.toUpperCase, character by character. */
  function UpperString(s: string): (u: string)
    ensures |u| == |s|
    ensures forall i :: 0 <= i < |s| ==> u[i] == ToUpperCase(s[i])
  {
    if s == [] then [] else [ToUpperCase(s[0])] + UpperString(s[1..])
  }

  /** String.indexOf(c): the first position of `c`, or -1. */
  function IndexOf(s: string, c: char): (i: int)
    ensures -1 <= i < |s|
    ensures i == -1 <==> c !in s
    ensures i >= 0 ==> s[i] == c && c !in s[..i]
  {
    if s == [] then -1
    else if s[0] == c then 0
    else
      var k := IndexOf(s[1..], c);
      if k == -1 then -1 else k + 1
  }

  /** String.lastIndexOf(c): the last position of `c`, or -1. */
  function LastIndexOf(s: string, c: char): (i: int)
    ensures -1 <= i < |s|
    ensures i == -1 <==> c !in s
    ensures i >= 0 ==> s[i] == c && c !in s[i + 1..]
  {
    if s == [] then -1
    else if s[|s| - 1] == c then |s| - 1
    else LastIndexOf(s[..|s| - 1], c)
  }

  /** String.lastIndexOf(c, from): the last position of `c` at or before `from`;
      a `from` past the end searches the whole string, a negative one finds nothing. */
  function LastIndexOfFrom(s: string, c: char, from: int): (i: int)
    ensures -1 <= i < |s|
    ensures i >= 0 ==> i <= from
    ensures i >= 0 ==> s[i] == c
    ensures forall j :: i < j < |s| && j <= from ==> s[j] != c
  {
    if from < 0 then -1
    else if from >= |s| then LastIndexOf(s, c)
    else LastIndexOf(s[..from + 1], c)
  }

  /** String.startsWith(prefix). */
  predicate StartsWith(s: string, prefix: string)
  {
    |prefix| <= |s| && s[..|prefix|] == prefix
  }

  /** The last occurrence of `c` in `a + [c] + b` is the one between them when `b` lacks `c`. */
  lemma {:induction false} LastIndexOfAt(a: string, c: char, b: string)
    requires c !in b
    ensures LastIndexOf(a + [c] + b, c) == |a|
    decreases |b|
  {
    var s := a + [c] + b;
    if b != [] {
      var b' := b[..|b| - 1];
      assert s[..|s| - 1] == a + [c] + b';
      assert s[|s| - 1] == b[|b| - 1];
      LastIndexOfAt(a, c, b');
    }
  }

  /** Text without `c` appended after `a` does not move the last occurrence of `c`. */
  lemma {:induction false} LastIndexOfBefore(a: string, c: char, b: string)
    requires c !in b
    ensures LastIndexOf(a + b, c) == LastIndexOf(a, c)
    decreases |b|
  {
    if b != [] {
      var b' := b[..|b| - 1];
      assert (a + b)[..|a + b| - 1] == a + b';
      assert (a + b)[|a + b| - 1] == b[|b| - 1];
      LastIndexOfBefore(a, c, b');
    } else {
      assert a + b == a;
    }
  }

  /** The first occurrence of `c` in `a + [c] + b` is the one between them when `a` lacks `c`. */
  lemma {:induction false} IndexOfAt(a: string, c: char, b: string)
    requires c !in a
    ensures IndexOf(a + [c] + b, c) == |a|
    decreases |a|
  {
    var s := a + [c] + b;
    if a != [] {
      assert s[1..] == a[1..] + [c] + b;
      assert s[0] == a[0];
      IndexOfAt(a[1..], c, b);
    }
  }
}
