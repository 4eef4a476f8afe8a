/**
 * String helpers of the code generator: splitting qualified type names into
 * package and simple name, shortening types for generated source, stripping
 * type-use annotations, finding a common parent package, and changing the
 * case of an identifier's first letters.
 */
module GeneratorUtil {
  import opened Values
  import opened JavaText

  // ----- Qualified names -----

  /** validImportType: the type has a dot, and not at its first position. */
  function ValidImportType(t: string): (ok: bool)
    ensures ok <==> '.' in t && t[0] != '.'
  {
    IndexOf(t, '.') > 0
  }

  /** packageOf: everything before the last dot, or "" when there is none. */
  function PackageOf(cls: string): (pkg: string)
    ensures '.' !in cls ==> pkg == ""
    ensures '.' in cls ==> |pkg| < |cls| && cls[..|pkg|] == pkg && cls[|pkg|] == '.' && '.' !in cls[|pkg| + 1..]
  {
    var pos := LastIndexOf(cls, '.');
    if pos == -1 then "" else cls[..pos]
  }

  /** shortName: everything after the last dot, or the whole name when there is none. */
  function ShortName(fullType: string): (name: string)
    ensures '.' !in name
    ensures |name| <= |fullType| && fullType[|fullType| - |name|..] == name
    ensures '.' !in fullType ==> name == fullType
    ensures '.' in fullType ==> |name| < |fullType| && fullType[|fullType| - |name| - 1] == '.'
  {
    var p := LastIndexOf(fullType, '.');
    if p == -1 then fullType else fullType[p + 1..]
  }

  /** With a dot present, the package, a dot and the short name give back the name. */
  lemma PackageAndShortName(s: string)
    requires '.' in s
    ensures PackageOf(s) + "." + ShortName(s) == s
  {
    var p := LastIndexOf(s, '.');
    assert s == s[..p] + [s[p]] + s[p + 1..];
  }

  /** Conversely, a package and a dot-free name split back into themselves. */
  lemma SplitQualifiedName(pkg: string, name: string)
    requires '.' !in name
    ensures PackageOf(pkg + "." + name) == pkg
    ensures ShortName(pkg + "." + name) == name
  {
    LastIndexOfAt(pkg, '.', name);
    assert pkg + "." + name == pkg + ['.'] + name;
  }

  // ----- shortType -----

  /** The substrings between the dots, in order (dots not included). */
  function Pieces(s: string): (ps: seq<string>)
    ensures |ps| >= 1
    ensures forall i :: 0 <= i < |ps| ==> '.' !in ps[i]
    decreases |s|
  {
    var i := IndexOf(s, '.');
    if i == -1 then [s] else [s[..i]] + Pieces(s[i + 1..])
  }

  /** The parts joined with dots. */
  function Join(ps: seq<string>): string
  {
    if |ps| == 0 then "" else if |ps| == 1 then ps[0] else ps[0] + "." + Join(ps[1..])
  }

  lemma JoinCons(head: string, ps: seq<string>)
    requires ps != []
    ensures Join([head] + ps) == head + "." + Join(ps)
  {
    assert ([head] + ps)[1..] == ps;
  }

  lemma AroundDot(s: string, i: nat)
    requires i < |s| && s[i] == '.'
    ensures s == s[..i] + "." + s[i + 1..]
  {
  }

  /** Joining the pieces gives back the string. */
  lemma {:induction false} JoinPieces(s: string)
    ensures Join(Pieces(s)) == s
    decreases |s|
  {
    var i := IndexOf(s, '.');
    if i != -1 {
      var rest := s[i + 1..];
      JoinPieces(rest);
      JoinCons(s[..i], Pieces(rest));
      AroundDot(s, i);
    }
  }

  /** Splitting at the first dot. */
  lemma PiecesAtFirstDot(head: string, rest: string)
    requires '.' !in head
    ensures Pieces(head + ['.'] + rest) == [head] + Pieces(rest)
  {
    var s := head + ['.'] + rest;
    IndexOfAt(head, '.', rest);
    assert s[..|head|] == head;
    assert s[|head| + 1..] == rest;
  }

  /** Splitting a join of dot-free parts gives back the parts. */
  lemma {:induction false} PiecesJoin(ps: seq<string>)
    requires |ps| >= 1
    requires forall i :: 0 <= i < |ps| ==> '.' !in ps[i]
    ensures Pieces(Join(ps)) == ps
    decreases |ps|
  {
    if |ps| > 1 {
      var tail := ps[1..];
      assert Join(ps) == ps[0] + ['.'] + Join(tail);
      PiecesAtFirstDot(ps[0], Join(tail));
      PiecesJoin(tail);
      assert ps == [ps[0]] + tail;
    }
  }

  lemma {:induction false} JoinSnoc(ps: seq<string>, x: string)
    requires ps != []
    ensures Join(ps + [x]) == Join(ps) + "." + x
    decreases |ps|
  {
    if |ps| == 1 {
      assert (ps + [x])[1..] == [x];
    } else {
      assert (ps + [x])[1..] == ps[1..] + [x];
      JoinSnoc(ps[1..], x);
    }
  }

  /** Drops the empty parts at the end. */
  function DropTrailingEmpty(ps: seq<string>): (r: seq<string>)
    ensures |r| <= |ps| && r == ps[..|r|]
    ensures r == [] || r[|r| - 1] != ""
    ensures forall i :: |r| <= i < |ps| ==> ps[i] == ""
  {
    if ps != [] && ps[|ps| - 1] == "" then DropTrailingEmpty(ps[..|ps| - 1]) else ps
  }

  /** String.split("\\."): with no dot, the string itself; otherwise the pieces
      between the dots without the trailing empty ones. */
  function Split(s: string): (parts: seq<string>)
    ensures forall i :: 0 <= i < |parts| ==> '.' !in parts[i]
  {
    if '.' !in s then [s] else DropTrailingEmpty(Pieces(s))
  }

  /** Where shortType's scan stops: the first part that is empty or starts with
      an upper-case letter, or the number of parts when there is none. */
  function ClassStart(parts: seq<string>): (k: nat)
    ensures k <= |parts|
    ensures forall i :: 0 <= i < k ==> parts[i] != "" && !IsUpperCase(parts[i][0])
    ensures k < |parts| ==> parts[k] == "" || IsUpperCase(parts[k][0])
  {
    if parts == [] || parts[0] == "" || IsUpperCase(parts[0][0]) then 0
    else 1 + ClassStart(parts[1..])
  }

  /** The loop of shortType over the parts: from the first capitalised part
      on, the parts are joined with dots. Reading the first letter of an empty
      part before that throws, which is `None`. */
  method ClassSegments(parts: seq<string>) returns (r: Option<string>)
    ensures var k := ClassStart(parts);
      r == if k < |parts| && parts[k] == "" then None else Some(Join(parts[k..]))
  {
    var result := "";
    var foundClass := false;
    ghost var k := ClassStart(parts);
    for i := 0 to |parts|
      invariant !foundClass ==> i <= k && result == ""
      invariant foundClass ==> k < i && parts[k] != "" && result == Join(parts[k..i])
    {
      var part := parts[i];
      if !foundClass && part == "" {
        return None;
      }
      if foundClass {
        assert parts[k..i + 1] == parts[k..i] + [part];
        JoinSnoc(parts[k..i], part);
        result := result + "." + part;
      } else if IsUpperCase(part[0]) {
        assert parts[k..i + 1] == [part];
        foundClass := true;
        result := part;
      }
    }
    if foundClass {
      assert parts[k..|parts|] == parts[k..];
    } else {
      assert parts[k..] == [];
    }
    return Some(result);
  }

  /** shortType: a name without dots is kept; a "java..." name keeps its simple
      name; any other keeps the parts from the first capitalised one on. */
  method ShortType(fullType: string) returns (r: Option<string>)
    ensures '.' !in fullType ==> r == Some(fullType)
    ensures '.' in fullType && StartsWith(fullType, "java") ==> r == Some(ShortName(fullType))
    ensures '.' in fullType && !StartsWith(fullType, "java") ==>
      var parts := Split(fullType);
      var k := ClassStart(parts);
      r == if k < |parts| && parts[k] == "" then None else Some(Join(parts[k..]))
  {
    var p := LastIndexOf(fullType, '.');
    if p == -1 {
      return Some(fullType);
    } else if StartsWith(fullType, "java") {
      return Some(fullType[p + 1..]);
    }
    r := ClassSegments(Split(fullType));
  }

  lemma {:induction false} ClassStartAfterPackage(pkg: seq<string>, cls: seq<string>)
    requires forall i :: 0 <= i < |pkg| ==> pkg[i] != "" && !IsUpperCase(pkg[i][0])
    requires cls != [] && cls[0] != "" && IsUpperCase(cls[0][0])
    ensures ClassStart(pkg + cls) == |pkg|
    decreases |pkg|
  {
    if pkg != [] {
      assert (pkg + cls)[1..] == pkg[1..] + cls;
      ClassStartAfterPackage(pkg[1..], cls);
    }
  }

  /** For a well-formed qualified name — non-empty dot-free segments, package
      segments not capitalised, a capitalised first class segment — the scan
      of shortType keeps exactly the class segments. */
  lemma ShortTypeKeepsClassSegments(pkg: seq<string>, cls: seq<string>)
    requires pkg != [] && cls != []
    requires forall i :: 0 <= i < |pkg| ==> pkg[i] != "" && '.' !in pkg[i] && !IsUpperCase(pkg[i][0])
    requires forall i :: 0 <= i < |cls| ==> cls[i] != "" && '.' !in cls[i]
    requires IsUpperCase(cls[0][0])
    ensures var s := Join(pkg + cls);
      var parts := Split(s);
      '.' in s && parts == pkg + cls && ClassStart(parts) == |pkg| && Join(parts[|pkg|..]) == Join(cls)
  {
    var ps := pkg + cls;
    var s := Join(ps);
    PiecesJoin(ps);
    assert Pieces(s) == ps;
    assert s == ps[0] + "." + Join(ps[1..]);
    assert s[|ps[0]|] == '.';
    assert ps[|ps| - 1] != "";
    ClassStartAfterPackage(pkg, cls);
    assert ps[|pkg|..] == cls;
  }

  // ----- trimAnnotations -----

  /** trimAnnotations: with an '@', the text before the first '@' followed by
      the text after the last space; without one, the type unchanged. */
  function TrimAnnotations(t: string): (r: string)
    ensures '@' !in t ==> r == t
  {
    var pos := IndexOf(t, '@');
    if pos == -1 then t else t[..pos] + t[LastIndexOf(t, ' ') + 1..]
  }

  /** A type-use annotation in front of the simple type is removed. */
  lemma TrimAnnotationsDropsAnnotation(prefix: string, annotation: string, name: string)
    requires '@' !in prefix && ' ' !in name
    ensures TrimAnnotations(prefix + "@" + annotation + " " + name) == prefix + name
  {
    var front := prefix + "@" + annotation;
    var t := front + " " + name;
    assert t == prefix + ['@'] + (annotation + " " + name);
    IndexOfAt(prefix, '@', annotation + " " + name);
    assert t == front + [' '] + name;
    LastIndexOfAt(front, ' ', name);
    assert t[..|prefix|] == prefix;
    assert t[|front| + 1..] == name;
  }

  /** An '@' with no space after it is not trimmed: the text after the last
      space before it is repeated, and the annotation stays. */
  lemma TrimAnnotationsKeepsUnspacedAnnotation(t: string, head: string, tail: string)
    requires t == head + "@" + tail
    requires '@' !in head && ' ' !in tail
    ensures TrimAnnotations(t) == head + head[LastIndexOf(head, ' ') + 1..] + "@" + tail
  {
    var rest := "@" + tail;
    assert t == head + ['@'] + tail;
    IndexOfAt(head, '@', tail);
    assert ' ' !in rest;
    assert t == head + rest;
    LastIndexOfBefore(head, ' ', rest);
    TrimAnnotationsAt(t, head, rest, LastIndexOf(head, ' ') + 1);
    JoinFour(head, head[LastIndexOf(head, ' ') + 1..], "@", tail);
  }

  /** Regrouping a join of four strings. */
  lemma JoinFour(a: string, b: string, c: string, d: string)
    ensures a + (b + (c + d)) == a + b + c + d
  {
  }

  /** trimAnnotations once the '@' and the last space are located. */
  lemma TrimAnnotationsAt(t: string, head: string, rest: string, k: nat)
    requires t == head + rest && k <= |head|
    requires IndexOf(t, '@') == |head| && LastIndexOf(t, ' ') + 1 == k
    ensures TrimAnnotations(t) == head + (head[k..] + rest)
  {
    SliceOfJoin(head, rest, k);
  }

  /** A suffix of `a + b` that starts inside `a`. */
  lemma SliceOfJoin(a: string, b: string, k: nat)
    requires k <= |a|
    ensures (a + b)[..|a|] == a && (a + b)[k..] == a[k..] + b
  {
  }

  // ----- commonParent -----

  /** `k` is a place where a package name may be cut: at a dot, or at its end. */
  predicate DotBoundary(top: string, k: int)
  {
    k == |top| || (0 <= k < |top| && top[k] == '.')
  }

  /** What commonParent finds for `top` and `pkg`: `top` cut at a dot (or whole),
      such that no longer cut is a prefix of `pkg`, and which either is a prefix
      of `pkg` itself or, having no dot left, is the shortest cut. */
  predicate IsCommonParent(top: string, pkg: string, parent: string)
  {
    && |parent| <= |top| && top[..|parent|] == parent && DotBoundary(top, |parent|)
    && (StartsWith(pkg, parent) || '.' !in parent)
    && forall k :: |parent| < k <= |top| && DotBoundary(top, k) ==> !StartsWith(pkg, top[..k])
  }

  /** commonParent: shorten `currentTop` one package level at a time until
      `aPackage` starts with it or no dot is left. */
  method CommonParent(currentTop: Option<string>, aPackage: Option<string>) returns (r: Option<string>)
    ensures aPackage.None? ==> r == currentTop
    ensures aPackage.Some? && currentTop.None? ==> r == Some(PackageOf(aPackage.value))
    ensures aPackage.Some? && currentTop.Some? ==> r.Some? && IsCommonParent(currentTop.value, aPackage.value, r.value)
  {
    if aPackage.None? {
      return currentTop;
    }
    if currentTop.None? {
      return Some(PackageOf(aPackage.value));
    }
    var pkg := aPackage.value;
    ghost var top := currentTop.value;
    var cur := currentTop.value;
    if StartsWith(pkg, cur) {
      return Some(cur);
    }
    var next := 0;
    while next > -1
      invariant |cur| <= |top| && top[..|cur|] == cur && DotBoundary(top, |cur|)
      invariant !StartsWith(pkg, cur)
      invariant forall k :: |cur| < k <= |top| && DotBoundary(top, k) ==> !StartsWith(pkg, top[..k])
      invariant next >= -1 && (next == -1 ==> '.' !in cur)
      decreases if next > -1 then |cur| + 1 else 0
    {
      next := LastIndexOf(cur, '.');
      if next > -1 {
        ghost var longer := cur;
        assert forall k :: next < k < |longer| ==> top[k] == longer[k];
        assert forall k :: next < k < |longer| ==> longer[k] == longer[next + 1..][k - next - 1];
        cur := cur[..next];
        assert top[..|cur|] == cur;
        if StartsWith(pkg, cur) {
          return Some(cur);
        }
      }
    }
    return Some(cur);
  }

  // ----- Letter case -----

  /** initCap: only the first character changes, to upper case. */
  function InitCap(input: string): (r: string)
    ensures |r| == |input|
    ensures |input| > 0 ==> r[0] == ToUpperCase(input[0]) && r[1..] == input[1..]
  {
    if |input| < 2 then UpperString(input) else [ToUpperCase(input[0])] + input[1..]
  }

  /** The length of the leading run of upper-case letters. */
  function UpperRun(s: string): (k: nat)
    ensures k <= |s|
    ensures forall i :: 0 <= i < k ==> IsUpperCase(s[i])
    ensures k < |s| ==> !IsUpperCase(s[k])
  {
    if s == [] || !IsUpperCase(s[0]) then 0 else 1 + UpperRun(s[1..])
  }

  /** initLower: the leading run of upper-case letters is lower-cased; from the
      first other character on, nothing changes. */
  method InitLower(name: string) returns (r: string)
    ensures |r| == |name|
    ensures forall i :: 0 <= i < UpperRun(name) ==> r[i] == ToLowerCase(name[i])
    ensures forall i :: UpperRun(name) <= i < |name| ==> r[i] == name[i]
  {
    var sb: string := [];
    var toLower := true;
    ghost var k := UpperRun(name);
    for i := 0 to |name|
      invariant |sb| == i
      invariant toLower <==> i <= k
      invariant forall j :: 0 <= j < i && j < k ==> sb[j] == ToLowerCase(name[j])
      invariant forall j :: k <= j < i ==> sb[j] == name[j]
    {
      var ch := name[i];
      if IsUpperCase(ch) {
        if toLower {
          sb := sb + [ToLowerCase(ch)];
        } else {
          sb := sb + [ch];
        }
      } else {
        sb := sb + [ch];
        toLower := false;
      }
    }
    r := sb;
  }

  // ----- baseTypeOfAdapter -----

  /** The length of the adapter-name suffix the helper cuts ("JsonAdapter"). */
  const SuffixLength := 11

  /** baseTypeOfAdapter: drop the last package level and the suffix, keeping the
      name up to any '$'. A name too short for its suffix throws, which is `None`. */
  function BaseTypeOfAdapter(adapterFullName: string): (r: Option<string>)
    ensures |adapterFullName| < SuffixLength ==> r.None?
    ensures r.Some? ==> |r.value| <= |adapterFullName| - SuffixLength
    ensures '.' !in adapterFullName && |adapterFullName| >= SuffixLength ==>
      r == Some(adapterFullName[..|adapterFullName| - SuffixLength])
  {
    var s := adapterFullName;
    var posLast := LastIndexOf(s, '.');
    var posPrior := LastIndexOfFrom(s, '.', posLast - 1);
    var nameEnd := |s| - SuffixLength;
    if posPrior == -1 then
      if posLast + 1 <= nameEnd then Some(s[posLast + 1..nameEnd]) else None
    else if posLast <= nameEnd then
      var className := s[..posPrior] + s[posLast..nameEnd];
      var d := IndexOf(className, '$');
      Some(if d != -1 then className[..d] else className)
    else None
  }

  /** Where the two last dots of `pkg.sub.NameSuffix` are found. */
  lemma LastTwoDots(s: string, pkg: string, sub: string, name: string, suffix: string)
    requires s == pkg + "." + sub + "." + name + suffix
    requires '.' !in sub && '.' !in name && '.' !in suffix
    ensures LastIndexOf(s, '.') == |pkg| + 1 + |sub|
    ensures LastIndexOfFrom(s, '.', |pkg| + |sub|) == |pkg|
  {
    var head := pkg + ['.'] + sub;
    assert s == head + ['.'] + (name + suffix);
    LastIndexOfAt(head, '.', name + suffix);
    assert s[..|pkg| + |sub| + 1] == head;
    LastIndexOfAt(pkg, '.', sub);
  }

  /** What lies around those dots. */
  lemma NestedAdapterSlices(s: string, pkg: string, sub: string, name: string, suffix: string)
    requires s == pkg + "." + sub + "." + name + suffix
    requires |suffix| == SuffixLength
    ensures s[..|pkg|] + s[|pkg| + 1 + |sub|..|s| - SuffixLength] == pkg + "." + name
  {
    assert s == (pkg + ['.'] + sub) + (['.'] + name) + suffix;
    assert s[..|pkg|] == pkg;
    assert s[|pkg| + 1 + |sub|..|s| - SuffixLength] == ['.'] + name;
  }

  /** With two dots before the suffix and no '$', the result is the name with
      its last package level cut out. */
  lemma BaseTypeBetweenDots(s: string, posPrior: int, posLast: int, className: string)
    requires LastIndexOf(s, '.') == posLast && LastIndexOfFrom(s, '.', posLast - 1) == posPrior
    requires 0 <= posPrior && posLast <= |s| - SuffixLength
    requires className == s[..posPrior] + s[posLast..|s| - SuffixLength] && '$' !in className
    ensures BaseTypeOfAdapter(s) == Some(className)
  {
  }

  /** With two dots before the suffix and a '$' in what is left, the result
      stops before the first '$'. */
  lemma BaseTypeCutAtDollar(s: string, posPrior: int, posLast: int, className: string)
    requires LastIndexOf(s, '.') == posLast && LastIndexOfFrom(s, '.', posLast - 1) == posPrior
    requires 0 <= posPrior && posLast <= |s| - SuffixLength
    requires className == s[..posPrior] + s[posLast..|s| - SuffixLength] && '$' in className
    ensures BaseTypeOfAdapter(s) == Some(className[..IndexOf(className, '$')])
  {
  }

  /** An adapter for a nested class, `pkg.sub.Outer$InnerSuffix`, is for the
      outer type `pkg.Outer`. */
  lemma BaseTypeOfInnerClassAdapter(adapter: string, pkg: string, sub: string, name: string, outer: string, inner: string, suffix: string)
    requires adapter == pkg + "." + sub + "." + name + suffix && name == outer + "$" + inner
    requires '.' !in sub && '.' !in name && '.' !in suffix && |suffix| == SuffixLength
    requires '$' !in pkg && '$' !in outer
    ensures BaseTypeOfAdapter(adapter) == Some(pkg + "." + outer)
  {
    LastTwoDots(adapter, pkg, sub, name, suffix);
    NestedAdapterSlices(adapter, pkg, sub, name, suffix);
    DollarAfterOuter(pkg + "." + name, pkg + "." + outer, pkg, name, outer, inner);
    BaseTypeCutAtDollar(adapter, |pkg|, |pkg| + 1 + |sub|, pkg + "." + name);
  }

  /** In `pkg.Outer$Inner` the first '$' ends `pkg.Outer`. */
  lemma DollarAfterOuter(className: string, front: string, pkg: string, name: string, outer: string, inner: string)
    requires className == pkg + "." + name && front == pkg + "." + outer
    requires name == outer + "$" + inner && '$' !in front
    ensures '$' in className && className[..IndexOf(className, '$')] == front
  {
    assert className == front + ['$'] + inner;
    IndexOfAt(front, '$', inner);
    assert className[..|front|] == front;
  }

  /** An adapter `pkg.sub.NameSuffix` is for the type `pkg.Name`. */
  lemma BaseTypeOfNestedAdapter(adapter: string, pkg: string, sub: string, name: string, suffix: string)
    requires adapter == pkg + "." + sub + "." + name + suffix
    requires '.' !in sub && '.' !in name && '.' !in suffix && |suffix| == SuffixLength
    requires '$' !in pkg && '$' !in name
    ensures BaseTypeOfAdapter(adapter) == Some(pkg + "." + name)
  {
    LastTwoDots(adapter, pkg, sub, name, suffix);
    NestedAdapterSlices(adapter, pkg, sub, name, suffix);
    BaseTypeBetweenDots(adapter, |pkg|, |pkg| + 1 + |sub|, pkg + "." + name);
  }

  /** An adapter with a single dot, `sub.NameSuffix`, is for the simple type `Name`. */
  lemma BaseTypeOfTopLevelAdapter(adapter: string, sub: string, name: string, suffix: string)
    requires adapter == sub + "." + name + suffix
    requires '.' !in sub && '.' !in name && '.' !in suffix && |suffix| == SuffixLength
    ensures BaseTypeOfAdapter(adapter) == Some(name)
  {
    assert adapter == sub + ['.'] + (name + suffix);
    LastIndexOfAt(sub, '.', name + suffix);
    assert adapter[..|sub|] == sub;
    assert adapter[|sub| + 1..|adapter| - SuffixLength] == name;
  }
}
