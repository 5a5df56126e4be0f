/** Joining an untrusted relative path onto a base directory (`security/path.rs`), with Unix component rules. */
module SafePath {
  import opened Prelude

  datatype PathError =
    | NulByte
    | BlankPath
    | ParentTraversal
    | AbsolutePath
    | ResolvesEmpty
    | EscapesBase

  datatype Component = RootDir | CurDir | ParentDir | Normal(part: string)

  predicate IsSeparator(c: char) {
    c == '/' || c == '\\'
  }

  /** The Unicode property White_Space, which is what trimming removes. */
  predicate IsWhitespace(c: char) {
    || c == ' ' || '\t' <= c <= '\r' || c == '\U{85}' || c == '\U{A0}' || c == '\U{1680}'
    || '\U{2000}' <= c <= '\U{200A}' || c == '\U{2028}' || c == '\U{2029}' || c == '\U{202F}'
    || c == '\U{205F}' || c == '\U{3000}'
  }

  predicate IsBlank(s: string) {
    forall i :: 0 <= i < |s| ==> IsWhitespace(s[i])
  }

  /** Backslashes become slashes. */
  function Normalize(s: string): string {
    seq(|s|, i requires 0 <= i < |s| => if s[i] == '\\' then '/' else s[i])
  }

  function SplitSlash(s: string): (segments: seq<string>)
    ensures segments != []
    decreases |s|
  {
    var head := Before(s, '/');
    if |head| == |s| then [head] else [head] + SplitSlash(s[|head| + 1..])
  }

  /** What one segment contributes: empty segments vanish, and a dot counts only in front. */
  function SegmentComponents(segment: string, first: bool): seq<Component> {
    if segment == "" then []
    else if segment == "." then (if first then [CurDir] else [])
    else if segment == ".." then [ParentDir]
    else [Normal(segment)]
  }

  function SegmentsComponents(segments: seq<string>, first: bool): seq<Component> {
    if segments == [] then []
    else SegmentComponents(segments[0], first) + SegmentsComponents(segments[1..], false)
  }

  function Components(s: string): seq<Component> {
    (if s != [] && s[0] == '/' then [RootDir] else []) + SegmentsComponents(SplitSlash(s), true)
  }

  predicate IsNormalSegment(segment: string) {
    segment != "" && segment != "." && segment != ".."
  }

  function NormalSegments(segments: seq<string>): Path {
    if segments == [] then []
    else (if IsNormalSegment(segments[0]) then [segments[0]] else []) + NormalSegments(segments[1..])
  }

  /** The segments of a path cut at separators of either kind. */
  function Segments(s: string): seq<string> {
    SplitSlash(Normalize(s))
  }

  /** When a relative path is accepted, said without components. */
  predicate Acceptable(s: string) {
    && '\0' !in s
    && !IsBlank(s)
    && !(s != [] && IsSeparator(s[0]))
    && ".." !in Segments(s)
    && NormalSegments(Segments(s)) != []
  }

  /** Where `SafeJoin` leads, if anywhere. */
  function Resolve(base: Path, s: string): Option<Path> {
    if Acceptable(s) then Some(base + NormalSegments(Segments(s))) else None
  }

  function NormalParts(components: seq<Component>): Path {
    if components == [] then []
    else (if components[0].Normal? then [components[0].part] else []) + NormalParts(components[1..])
  }

  lemma {:induction false} NormalPartsAppend(a: seq<Component>, b: seq<Component>)
    ensures NormalParts(a + b) == NormalParts(a) + NormalParts(b)
  {
    if a == [] {
      assert a + b == b;
    } else {
      assert (a + b)[0] == a[0] && (a + b)[1..] == a[1..] + b;
      NormalPartsAppend(a[1..], b);
    }
  }

  lemma {:induction false} ComponentsOfSegments(segments: seq<string>, first: bool)
    ensures NormalParts(SegmentsComponents(segments, first)) == NormalSegments(segments)
    ensures ParentDir in SegmentsComponents(segments, first) <==> ".." in segments
    ensures RootDir !in SegmentsComponents(segments, first)
  {
    if segments != [] {
      ComponentsOfSegments(segments[1..], false);
      var head := SegmentComponents(segments[0], first);
      NormalPartsAppend(head, SegmentsComponents(segments[1..], false));
      assert NormalParts(head) == if IsNormalSegment(segments[0]) then [segments[0]] else [];
    }
  }

  lemma ComponentsExact(s: string)
    ensures NormalParts(Components(s)) == NormalSegments(SplitSlash(s))
    ensures ParentDir in Components(s) <==> ".." in SplitSlash(s)
    ensures RootDir in Components(s) <==> s != [] && s[0] == '/'
  {
    ComponentsOfSegments(SplitSlash(s), true);
    var root := if s != [] && s[0] == '/' then [RootDir] else [];
    NormalPartsAppend(root, SegmentsComponents(SplitSlash(s), true));
  }

  lemma {:induction false} OnlyNormalSegmentsStay(segments: seq<string>)
    ensures forall part :: part in NormalSegments(segments) ==> part in segments && IsNormalSegment(part)
  {
    if segments != [] {
      OnlyNormalSegmentsStay(segments[1..]);
    }
  }

  /** Nothing resolved ever leaves the base: the result is base plus plain names, none of them a parent. */
  lemma ResolveStaysUnderBase(base: Path, s: string)
    requires Resolve(base, s).Some?
    ensures base < Resolve(base, s).value
    ensures forall part :: part in Resolve(base, s).value[|base|..] ==> IsNormalSegment(part)
  {
    OnlyNormalSegmentsStay(Segments(s));
    assert Resolve(base, s).value[|base|..] == NormalSegments(Segments(s));
  }

  /** `s` is these segments with one separator, of either kind, between neighbours. */
  predicate Spells(s: string, segments: seq<string>)
    decreases |segments|
  {
    && segments != []
    && if |segments| == 1 then s == segments[0]
       else
         var k := |segments[0]|;
         k < |s| && s[..k] == segments[0] && (s[k] == '/' || s[k] == '\\') && Spells(s[k + 1..], segments[1..])
  }

  predicate NoneSeparates(segments: seq<string>) {
    forall i :: 0 <= i < |segments| ==> '/' !in segments[i] && '\\' !in segments[i]
  }

  /** The first segment ends at the first separator. */
  lemma FirstSegment(s: string)
    ensures var k := |Before(Normalize(s), '/')|;
            && k <= |s| && Before(Normalize(s), '/') == s[..k] && '/' !in s[..k] && '\\' !in s[..k]
            && (k < |s| ==> (s[k] == '/' || s[k] == '\\') && Normalize(s)[k + 1..] == Normalize(s[k + 1..]))
  {
    var n := Normalize(s);
    var head := Before(n, '/');
    forall i | 0 <= i < |head| ensures head[i] == s[i] && s[i] != '/' && s[i] != '\\' {
      assert head[i] == n[i] && head[i] in head;
    }
  }

  lemma SegmentsMore(s: string)
    ensures var k := |Before(Normalize(s), '/')|;
            Segments(s) == if k < |s| then [s[..k]] + Segments(s[k + 1..]) else [s]
  {
    FirstSegment(s);
    assert s[..|s|] == s;
  }

  /** The segments of a path are the only way to cut it at every separator. */
  lemma {:induction false} SegmentsExact(s: string, segments: seq<string>)
    ensures NoneSeparates(segments) && Spells(s, segments) <==> segments == Segments(s)
    decreases |s|
  {
    FirstSegment(s);
    SegmentsMore(s);
    var k := |Before(Normalize(s), '/')|;
    hide Normalize, Before, Segments;
    if k < |s| {
      var rest := Segments(s[k + 1..]);
      SegmentsExact(s[k + 1..], rest);
      assert ([s[..k]] + rest)[1..] == rest;
      if NoneSeparates(segments) && Spells(s, segments) {
        FirstSegmentUnique(s, segments, k);
        SegmentsExact(s[k + 1..], segments[1..]);
        assert segments == [segments[0]] + segments[1..];
      }
    } else {
      assert s[..k] == s;
      OnlySegment(s, segments);
    }
  }

  lemma OnlySegment(s: string, segments: seq<string>)
    requires '/' !in s && '\\' !in s
    ensures NoneSeparates(segments) && Spells(s, segments) <==> segments == [s]
  {
  }

  lemma FirstSegmentUnique(s: string, segments: seq<string>, k: nat)
    requires NoneSeparates(segments) && Spells(s, segments) && k < |s|
    requires '/' !in s[..k] && '\\' !in s[..k] && (s[k] == '/' || s[k] == '\\')
    ensures |segments| > 1 && segments[0] == s[..k] && NoneSeparates(segments[1..]) && Spells(s[k + 1..], segments[1..])
  {
    assert forall i :: 0 <= i < |segments| - 1 ==> segments[1..][i] == segments[i + 1];
  }

  /** Which segments count, one by one and in order: all but the empty ones, the dot and the double dot. */
  lemma {:induction false} NormalSegmentsExact(a: seq<string>, b: seq<string>, x: string)
    ensures NormalSegments([]) == [] && NormalSegments(a + b) == NormalSegments(a) + NormalSegments(b)
    ensures NormalSegments([x]) == if x == "" || x == "." || x == ".." then [] else [x]
  {
    if a == [] {
      assert a + b == b;
    } else {
      assert (a + b)[0] == a[0] && (a + b)[1..] == a[1..] + b;
      NormalSegmentsExact(a[1..], b, x);
    }
    assert [x][1..] == [];
  }

  /** The blanks: Unicode's White_Space characters in full. */
  lemma BlanksListed(c: char)
    ensures IsWhitespace(c) <==>
            || c in "\U{9}\U{A}\U{B}\U{C}\U{D}\U{20}\U{85}\U{A0}\U{1680}"
            || c in "\U{2000}\U{2001}\U{2002}\U{2003}\U{2004}\U{2005}\U{2006}\U{2007}\U{2008}\U{2009}\U{200A}"
            || c in "\U{2028}\U{2029}\U{202F}\U{205F}\U{3000}"
  {
  }

  /** The component loop: normal parts are pushed in order, a parent or root component ends it. */
  method PushComponents(components: seq<Component>) returns (r: Result<Path, PathError>)
    ensures r.Ok? <==> ParentDir !in components && RootDir !in components
    ensures r.Ok? ==> r.value == NormalParts(components)
    ensures r.Err? ==> r.error == ParentTraversal || r.error == AbsolutePath
    ensures r == Err(ParentTraversal) ==> ParentDir in components
    ensures r == Err(AbsolutePath) ==> RootDir in components
  {
    var resolved: Path := [];
    for k := 0 to |components|
      invariant resolved == NormalParts(components[..k])
      invariant ParentDir !in components[..k] && RootDir !in components[..k]
    {
      NormalPartsAppend(components[..k], [components[k]]);
      assert components[..k + 1] == components[..k] + [components[k]];
      match components[k] {
        case Normal(part) =>
          resolved := resolved + [part];
        case CurDir =>
        case ParentDir =>
          return Err(ParentTraversal);
        case RootDir =>
          return Err(AbsolutePath);
      }
    }
    assert components[..|components|] == components;
    r := Ok(resolved);
  }

  /**
   * The whole of the source's join. It succeeds exactly on acceptable strings, with the normal
   * segments under the base, and the final "escapes base" rejection is never taken.
   */
  method SafeJoin(base: Path, untrusted: string) returns (r: Result<Path, PathError>)
    ensures r.Ok? <==> Acceptable(untrusted)
    ensures r.Ok? ==> Resolve(base, untrusted) == Some(r.value)
    ensures r.Err? ==> r.error != EscapesBase
    ensures r == Err(NulByte) <==> '\0' in untrusted
    ensures r == Err(BlankPath) <==> '\0' !in untrusted && IsBlank(untrusted)
    ensures r == Err(AbsolutePath) ==> untrusted != [] && IsSeparator(untrusted[0])
    ensures r == Err(ParentTraversal) ==> ".." in Segments(untrusted)
  {
    if '\0' in untrusted {
      return Err(NulByte);
    }
    if IsBlank(untrusted) {
      return Err(BlankPath);
    }
    var normalized := Normalize(untrusted);
    var components := Components(normalized);
    ComponentsExact(normalized);
    var pushed := PushComponents(components);
    if pushed.Err? {
      return Err(pushed.error);
    }
    var resolved := pushed.value;
    if resolved == [] {
      return Err(ResolvesEmpty);
    }
    var joined := base + resolved;
    r := if base <= joined then Ok(joined) else Err(EscapesBase);
  }
}
