/** Sanitizing a received file name (`security/filename.rs`). Header text is ASCII, so bytes are characters. */
module Filename {
  import opened Prelude
  import opened SafePath

  const MAX_FILENAME_LEN: nat := 255

  const FALLBACK_NAME := "unnamed_file"

  /** The device names `CON`, `PRN`, `AUX`, `NUL`, `COM1` to `COM9` and `LPT1` to `LPT9`. */
  predicate IsReservedName(s: string) {
    || s == "CON" || s == "PRN" || s == "AUX" || s == "NUL"
    || (|s| == 4 && (s[..3] == "COM" || s[..3] == "LPT") && '1' <= s[3] <= '9')
  }

  predicate IsControl(c: char) {
    c < ' ' || c == '\U{7f}'
  }

  predicate IsKept(c: char) {
    && c != '<' && c != '>' && c != ':' && c != '\"' && c != '|' && c != '?' && c != '*'
    && !IsControl(c)
  }

  predicate IsEdge(c: char) {
    c == '.' || IsWhitespace(c)
  }

  /** What follows the last separator. */
  function LastSegment(s: string): string {
    if s == [] || IsSeparator(s[|s| - 1]) then []
    else LastSegment(s[..|s| - 1]) + [s[|s| - 1]]
  }

  function FilterKept(s: string): string {
    if s == [] then []
    else (if IsKept(s[0]) then [s[0]] else []) + FilterKept(s[1..])
  }

  function TrimStart(s: string): string {
    if s != [] && IsEdge(s[0]) then TrimStart(s[1..]) else s
  }

  function TrimEnd(s: string): string {
    if s != [] && IsEdge(s[|s| - 1]) then TrimEnd(s[..|s| - 1]) else s
  }

  function AsciiUpper(s: string): string {
    seq(|s|, i requires 0 <= i < |s| =>
      if 'a' <= s[i] <= 'z' then (s[i] as int - 32) as char else s[i])
  }

  predicate HasReservedStem(s: string) {
    IsReservedName(AsciiUpper(Before(s, '.')))
  }

  function OrFallback(s: string): string {
    if s == [] then FALLBACK_NAME else s
  }

  function Unreserve(s: string): string {
    if HasReservedStem(s) then "_" + s else s
  }

  /** Everything up to the length check. */
  function BeforeTruncation(untrusted: string): string {
    Unreserve(OrFallback(TrimEnd(TrimStart(FilterKept(LastSegment(untrusted))))))
  }

  /** Where the last dot stands, or the length when there is none. */
  function LastDot(s: string): (k: nat)
    ensures k <= |s|
    ensures k < |s| ==> s[k] == '.' && '.' !in s[k + 1..]
    ensures k == |s| ==> '.' !in s
  {
    if s == [] then 0
    else if s[|s| - 1] == '.' then |s| - 1
    else
      var k := LastDot(s[..|s| - 1]);
      assert s == s[..|s| - 1] + [s[|s| - 1]];
      if k == |s| - 1 then |s| else assert s[k + 1..] == s[..|s| - 1][k + 1..] + [s[|s| - 1]]; k
  }

  /** Index at which the extension starts: a dot in first position starts none. */
  function ExtensionStart(s: string): (k: nat)
    ensures k <= |s|
  {
    if 0 < LastDot(s) then LastDot(s) else |s|
  }

  function Extension(s: string): string {
    s[ExtensionStart(s)..]
  }

  function SaturatingSub(a: nat, b: nat): nat {
    if a < b then 0 else a - b
  }

  function Truncate(s: string): string {
    if |s| <= MAX_FILENAME_LEN then s
    else
      var stem := s[..ExtensionStart(s)];
      var keep := SaturatingSub(MAX_FILENAME_LEN, |Extension(s)|);
      (if keep < |stem| then stem[..keep] else stem) + Extension(s)
  }

  function SanitizeFilename(untrusted: HeaderText): string {
    Truncate(BeforeTruncation(untrusted))
  }

  /** Characters that survive: header text that is neither filtered nor a separator. */
  predicate IsPlainChar(c: char) {
    IsHeaderChar(c) && IsKept(c) && !IsSeparator(c)
  }

  predicate IsPlain(s: string) {
    forall i :: 0 <= i < |s| ==> IsPlainChar(s[i])
  }

  lemma PlainPieces(s: string, i: nat, j: nat, t: string)
    requires i <= j <= |s| && IsPlain(s) && IsPlain(t)
    ensures IsPlain(s[i..j]) && IsPlain(s[i..]) && IsPlain(s[..j]) && IsPlain(s[..j] + t)
  {
    hide IsPlainChar;
  }

  predicate HasCleanEdges(s: string) {
    s != [] && !IsEdge(s[0]) && !IsEdge(s[|s| - 1])
  }

  lemma {:induction false} LastSegmentPlain(s: HeaderText)
    ensures forall c :: c in LastSegment(s) ==> IsHeaderChar(c) && !IsSeparator(c)
  {
    if s != [] && !IsSeparator(s[|s| - 1]) {
      LastSegmentPlain(s[..|s| - 1]);
    }
  }

  lemma {:induction false} FilterKeptPlain(s: string)
    requires forall c :: c in s ==> IsHeaderChar(c) && !IsSeparator(c)
    ensures IsPlain(FilterKept(s))
  {
    if s != [] {
      FilterKeptPlain(s[1..]);
    }
  }

  lemma {:induction false} TrimStartPlain(s: string)
    requires IsPlain(s)
    ensures IsPlain(TrimStart(s))
    ensures TrimStart(s) != [] ==> !IsEdge(TrimStart(s)[0])
  {
    if s != [] && IsEdge(s[0]) {
      TrimStartPlain(s[1..]);
    }
  }

  lemma {:induction false} TrimEndPlain(s: string)
    requires IsPlain(s) && (s != [] ==> !IsEdge(s[0]))
    ensures IsPlain(TrimEnd(s))
    ensures TrimEnd(s) != [] ==> HasCleanEdges(TrimEnd(s))
  {
    if s != [] && IsEdge(s[|s| - 1]) {
      TrimEndPlain(s[..|s| - 1]);
    }
  }

  lemma ReservedStemStartsWithLetter(s: string)
    requires HasReservedStem(s)
    ensures s != [] && s[0] != '_'
  {
    var stem := Before(s, '.');
    assert AsciiUpper(stem)[0] != '_';
  }

  lemma UnderscoreIsPlain()
    ensures IsPlain("_") && !IsEdge('_')
  {
  }

  lemma UnreserveClean(s: string)
    requires IsPlain(s) && HasCleanEdges(s)
    ensures IsPlain(Unreserve(s)) && HasCleanEdges(Unreserve(s)) && !HasReservedStem(Unreserve(s))
  {
    hide HasReservedStem, IsPlain, IsEdge;
    if HasReservedStem("_" + s) {
      ReservedStemStartsWithLetter("_" + s);
    }
    UnderscoreIsPlain();
    PlainPieces("_", 0, 1, s);
    assert "_"[..1] == "_";
  }

  /** Before truncation the name is plain, has clean ends and no reserved stem. */
  lemma BeforeTruncationClean(untrusted: HeaderText)
    ensures var p := BeforeTruncation(untrusted);
            IsPlain(p) && HasCleanEdges(p) && !HasReservedStem(p)
  {
    var segment := LastSegment(untrusted);
    LastSegmentPlain(untrusted);
    FilterKeptPlain(segment);
    TrimStartPlain(FilterKept(segment));
    TrimEndPlain(TrimStart(FilterKept(segment)));
    UnreserveClean(OrFallback(TrimEnd(TrimStart(FilterKept(segment)))));
  }

  lemma {:induction false} PlainIsKept(s: string)
    requires IsPlain(s)
    ensures LastSegment(s) == s && FilterKept(s) == s
  {
    if s != [] {
      PlainIsKept(s[..|s| - 1]);
      PlainFilters(s);
      assert s == s[..|s| - 1] + [s[|s| - 1]];
    }
  }

  lemma {:induction false} PlainFilters(s: string)
    requires IsPlain(s)
    ensures FilterKept(s) == s
  {
    if s != [] {
      PlainFilters(s[1..]);
    }
  }

  /** A plain name with clean ends and no reserved stem passes through unchanged. */
  lemma CleanIsFixed(s: string)
    requires IsPlain(s) && HasCleanEdges(s) && !HasReservedStem(s)
    ensures BeforeTruncation(s) == s
  {
    PlainIsKept(s);
  }

  /** How truncation shapes an over-long name. */
  lemma TruncateShape(s: string)
    requires |s| > MAX_FILENAME_LEN && s[0] != '.'
    ensures var ext := Extension(s);
            if |ext| < MAX_FILENAME_LEN
            then Truncate(s) == s[..MAX_FILENAME_LEN - |ext|] + ext && Truncate(s)[0] == s[0]
            else Truncate(s) == ext && ext[0] == '.'
    ensures Extension(s) == [] ==> '.' !in s
    ensures Extension(s) != [] ==> Extension(s)[0] == '.' && '.' !in Extension(s)[1..]
  {
    if Extension(s) != [] {
      assert Extension(s)[1..] == s[LastDot(s) + 1..];
    }
  }

  /**
   * The exact output length. The documented bound of 255 fails exactly when the name is too long and
   * its last extension alone exceeds the bound.
   */
  lemma SanitizedLength(untrusted: HeaderText)
    ensures var p := BeforeTruncation(untrusted);
            |SanitizeFilename(untrusted)| ==
            if |p| <= MAX_FILENAME_LEN then |p|
            else if |Extension(p)| <= MAX_FILENAME_LEN then MAX_FILENAME_LEN
            else |Extension(p)|
    ensures var p := BeforeTruncation(untrusted);
            |SanitizeFilename(untrusted)| <= MAX_FILENAME_LEN <==>
            |p| <= MAX_FILENAME_LEN || |Extension(p)| <= MAX_FILENAME_LEN
  {
    var p := BeforeTruncation(untrusted);
    BeforeTruncationClean(untrusted);
    if |p| > MAX_FILENAME_LEN {
      TruncateShape(p);
    }
  }

  /** Truncation keeps the extension, however long it is. */
  lemma ExtensionSurvives(untrusted: HeaderText)
    ensures var p := BeforeTruncation(untrusted);
            var out := SanitizeFilename(untrusted);
            |Extension(p)| <= |out| && out[|out| - |Extension(p)|..] == Extension(p)
  {
    var p := BeforeTruncation(untrusted);
    BeforeTruncationClean(untrusted);
    if |p| > MAX_FILENAME_LEN {
      TruncateShape(p);
    }
  }

  lemma TruncatePlain(p: string)
    requires IsPlain(p) && HasCleanEdges(p)
    ensures IsPlain(Truncate(p)) && Truncate(p) != []
    ensures IsEdge(Truncate(p)[0]) ==> |Truncate(p)| >= MAX_FILENAME_LEN && Truncate(p)[0] == '.'
  {
    if |p| > MAX_FILENAME_LEN {
      TruncateShape(p);
      hide IsPlain, Truncate, LastDot;
      var ext := Extension(p);
      PlainPieces(p, ExtensionStart(p), |p|, p);
      PlainPieces(p, 0, SaturatingSub(MAX_FILENAME_LEN, |ext|), ext);
    }
  }

  lemma SanitizedPlain(untrusted: HeaderText)
    ensures IsPlain(SanitizeFilename(untrusted))
    ensures SanitizeFilename(untrusted) != []
    ensures IsEdge(SanitizeFilename(untrusted)[0]) ==>
              |SanitizeFilename(untrusted)| >= MAX_FILENAME_LEN && SanitizeFilename(untrusted)[0] == '.'
  {
    BeforeTruncationClean(untrusted);
    TruncatePlain(BeforeTruncation(untrusted));
  }

  lemma PlainIsOneSegment(s: string)
    requires IsPlain(s)
    ensures '\0' !in s && Segments(s) == [s]
  {
    assert Normalize(s) == s;
    assert '/' !in s;
    BeforeUnique(s, '/', s);
  }

  /**
   * What the server relies on: every header name, over-long ones included, sanitizes to a single path
   * component directly under the directory it is joined to.
   */
  lemma SanitizedJoinsDirectlyUnderBase(base: Path, untrusted: HeaderText)
    ensures Resolve(base, SanitizeFilename(untrusted)) == Some(base + [SanitizeFilename(untrusted)])
  {
    var name := SanitizeFilename(untrusted);
    SanitizedPlain(untrusted);
    PlainIsOneSegment(name);
    assert NormalSegments([name]) == [name] by {
      assert NormalSegments([name]) == [name] + NormalSegments([name][1..]);
      assert IsNormalSegment(name);
    }
    assert !IsBlank(name) by {
      assert !IsWhitespace(name[0]);
    }
  }

  lemma {:induction false} FilterKeptAppend(a: string, b: string)
    ensures FilterKept(a + b) == FilterKept(a) + FilterKept(b)
  {
    hide IsKept;
    if a == [] {
      assert a + b == b;
    } else {
      assert (a + b)[0] == a[0] && (a + b)[1..] == a[1..] + b;
      FilterKeptAppend(a[1..], b);
    }
  }

  /** What the filter leaves of a text, character by character: all but the listed ones and control characters. */
  lemma FilterKeptExact(a: string, b: string, c: char)
    ensures FilterKept("") == "" && FilterKept(a + b) == FilterKept(a) + FilterKept(b)
    ensures FilterKept([c]) == if c in "<>:\"|?*" || c < ' ' || c == '\U{7F}' then "" else [c]
  {
    FilterKeptAppend(a, b);
    assert [c][1..] == "";
  }

  lemma {:induction false} LastSegmentIs(s: string)
    ensures var l := LastSegment(s);
            && |l| <= |s| && s[|s| - |l|..] == l && '/' !in l && '\\' !in l
            && (|l| < |s| ==> s[|s| - |l| - 1] == '/' || s[|s| - |l| - 1] == '\\')
  {
    if s != [] && !IsSeparator(s[|s| - 1]) {
      var init := s[..|s| - 1];
      LastSegmentIs(init);
      var l := LastSegment(init);
      assert s == init + [s[|s| - 1]];
      assert s[|init| - |l|..] == init[|init| - |l|..] + [s[|s| - 1]];
    }
  }

  lemma {:induction false} TrimStartTakes(s: string)
    ensures var t := TrimStart(s);
            && |t| <= |s| && s[|s| - |t|..] == t && (t != [] ==> !IsEdge(t[0]))
            && forall i :: 0 <= i < |s| - |t| ==> IsEdge(s[i])
  {
    if s != [] && IsEdge(s[0]) {
      TrimStartTakes(s[1..]);
      assert forall i :: 0 < i < |s| ==> s[i] == s[1..][i - 1];
    }
  }

  lemma {:induction false} TrimEndTakes(s: string)
    ensures var t := TrimEnd(s);
            && t <= s && (t != [] ==> !IsEdge(t[|t| - 1]))
            && forall i :: |t| <= i < |s| ==> IsEdge(s[i])
  {
    if s != [] && IsEdge(s[|s| - 1]) {
      TrimEndTakes(s[..|s| - 1]);
      assert forall i :: 0 <= i < |s| - 1 ==> s[i] == s[..|s| - 1][i];
    }
  }

  lemma CutTwice(s: string, u: string, t: string)
    requires |u| <= |s| && s[|s| - |u|..] == u && t <= u
    ensures s == s[..|s| - |u|] + t + u[|t|..]
  {
    assert u == t + u[|t|..];
    assert s == s[..|s| - |u|] + u;
  }

  /** Text cut into what trimming takes and what it leaves. */
  lemma TrimTakes(s: string) returns (l: string, t: string, r: string)
    ensures s == l + t + r && t == TrimEnd(TrimStart(s))
    ensures (forall c :: c in l ==> IsEdge(c)) && (forall c :: c in r ==> IsEdge(c))
    ensures t != "" ==> HasCleanEdges(t)
  {
    hide TrimStart, TrimEnd, IsEdge;
    var u := TrimStart(s);
    TrimStartTakes(s);
    TrimEndTakes(u);
    t := TrimEnd(u);
    l, r := s[..|s| - |u|], u[|t|..];
    CutTwice(s, u, t);
    PiecesAreEdges(s, |l|);
    PiecesAreEdges(u, |t|);
    if t != "" {
      assert t[0] == u[0];
    }
  }

  lemma PiecesAreEdges(s: string, k: nat)
    requires k <= |s|
    ensures (forall i :: 0 <= i < k ==> IsEdge(s[i])) ==> forall c :: c in s[..k] ==> IsEdge(c)
    ensures (forall i :: k <= i < |s| ==> IsEdge(s[i])) ==> forall c :: c in s[k..] ==> IsEdge(c)
  {
    hide IsEdge;
  }

  lemma {:induction false} FilteredCharacters(s: string)
    requires forall c :: c in s ==> IsHeaderChar(c)
    ensures forall c :: c in FilterKept(s) ==> ' ' <= c <= '~'
  {
    if s != [] {
      assert s[0] in s && forall c :: c in s[1..] ==> c in s;
      FilteredCharacters(s[1..]);
      assert FilterKept(s) == (if IsKept(s[0]) then [s[0]] else []) + FilterKept(s[1..]);
    }
  }

  lemma VisibleEdges(c: char)
    requires ' ' <= c <= '~'
    ensures IsEdge(c) <==> c == '.' || c == ' '
  {
  }

  /**
   * Which of the sender's characters make the name. It is the text after the last separator of either kind, less the
   * filtered characters and less the dots and blanks at its ends; with an underscore in front if that is reserved, and
   * the fallback name exactly if nothing is left.
   */
  lemma NameBeforeTheCut(untrusted: HeaderText)
    returns (front: string, segment: string, l: string, t: string, r: string)
    ensures untrusted == front + segment && '/' !in segment && '\\' !in segment
    ensures front == "" || front[|front| - 1] == '/' || front[|front| - 1] == '\\'
    ensures FilterKept(segment) == l + t + r && forall c :: c in l + r ==> c == '.' || c == ' '
    ensures t != "" ==> t[0] != '.' && t[0] != ' ' && t[|t| - 1] != '.' && t[|t| - 1] != ' '
    ensures BeforeTruncation(untrusted) ==
            if t == "" then "unnamed_file" else if HasReservedStem(t) then "_" + t else t
  {
    hide LastSegment, FilterKept, TrimStart, TrimEnd, HasReservedStem, IsEdge, IsSeparator;
    segment := LastSegment(untrusted);
    LastSegmentIs(untrusted);
    front := untrusted[..|untrusted| - |segment|];
    CharactersOfSegment(untrusted, segment);
    FilteredCharacters(segment);
    l, t, r := TrimTakes(FilterKept(segment));
    VisibleTrim(FilterKept(segment), l, t, r);
    FallbackIsFree();
  }

  lemma CharactersOfSegment(untrusted: HeaderText, segment: string)
    requires |segment| <= |untrusted| && untrusted[|untrusted| - |segment|..] == segment
    ensures forall c :: c in segment ==> IsHeaderChar(c)
  {
    assert forall i :: 0 <= i < |segment| ==> segment[i] == untrusted[|untrusted| - |segment| + i];
  }

  lemma VisibleTrim(s: string, l: string, t: string, r: string)
    requires s == l + t + r && (forall c :: c in s ==> ' ' <= c <= '~')
    requires (forall c :: c in l ==> IsEdge(c)) && (forall c :: c in r ==> IsEdge(c)) && (t != "" ==> HasCleanEdges(t))
    ensures forall c :: c in l + r ==> c == '.' || c == ' '
    ensures t != "" ==> t[0] != '.' && t[0] != ' ' && t[|t| - 1] != '.' && t[|t| - 1] != ' '
  {
    hide IsEdge;
    assert forall c :: c in l || c in t || c in r ==> c in s;
    forall c | c in l + r ensures c == '.' || c == ' ' {
      VisibleEdges(c);
    }
    if t != "" {
      VisibleEdges(t[0]);
      VisibleEdges(t[|t| - 1]);
    }
  }

  lemma FallbackIsFree()
    ensures !HasReservedStem("unnamed_file")
  {
    BeforeUnique("unnamed_file", '.', "unnamed_file");
    LongIsNotReserved("unnamed_file");
  }

  /** `s` spells `name`, with its letters in either case. */
  predicate SpellsName(s: string, name: string) {
    && |s| == |name|
    && forall i :: 0 <= i < |s| ==> s[i] == name[i] || ('A' <= name[i] <= 'Z' && s[i] as int == name[i] as int + 32)
  }

  lemma UpperSpells(s: string, name: string)
    requires forall i :: 0 <= i < |name| ==> 'A' <= name[i] <= 'Z' || '0' <= name[i] <= '9'
    ensures AsciiUpper(s) == name <==> SpellsName(s, name)
  {
    var u := AsciiUpper(s);
    if u == name {
      forall i | 0 <= i < |s|
        ensures s[i] == name[i] || ('A' <= name[i] <= 'Z' && s[i] as int == name[i] as int + 32)
      {
        assert u[i] == name[i];
      }
    }
    if SpellsName(s, name) {
      assert forall i :: 0 <= i < |s| ==> u[i] == name[i];
    }
  }

  /** The device names in full. */
  const DEVICE_NAMES: seq<string> := [
    "CON", "PRN", "AUX", "NUL",
    "COM1", "COM2", "COM3", "COM4", "COM5", "COM6", "COM7", "COM8", "COM9",
    "LPT1", "LPT2", "LPT3", "LPT4", "LPT5", "LPT6", "LPT7", "LPT8", "LPT9"]

  lemma NumberedDevices(d: char)
    requires '1' <= d <= '9'
    ensures "COM" + [d] in DEVICE_NAMES && "LPT" + [d] in DEVICE_NAMES
  {
    if d == '1' {
      assert DEVICE_NAMES[4] == "COM" + [d] && DEVICE_NAMES[13] == "LPT" + [d];
    } else if d == '2' {
      assert DEVICE_NAMES[5] == "COM" + [d] && DEVICE_NAMES[14] == "LPT" + [d];
    } else if d == '3' {
      assert DEVICE_NAMES[6] == "COM" + [d] && DEVICE_NAMES[15] == "LPT" + [d];
    } else if d == '4' {
      assert DEVICE_NAMES[7] == "COM" + [d] && DEVICE_NAMES[16] == "LPT" + [d];
    } else if d == '5' {
      assert DEVICE_NAMES[8] == "COM" + [d] && DEVICE_NAMES[17] == "LPT" + [d];
    } else if d == '6' {
      assert DEVICE_NAMES[9] == "COM" + [d] && DEVICE_NAMES[18] == "LPT" + [d];
    } else if d == '7' {
      assert DEVICE_NAMES[10] == "COM" + [d] && DEVICE_NAMES[19] == "LPT" + [d];
    } else if d == '8' {
      assert DEVICE_NAMES[11] == "COM" + [d] && DEVICE_NAMES[20] == "LPT" + [d];
    } else if d == '9' {
      assert DEVICE_NAMES[12] == "COM" + [d] && DEVICE_NAMES[21] == "LPT" + [d];
    }
  }

  lemma ReservedIsListed(s: string)
    requires IsReservedName(s)
    ensures s in DEVICE_NAMES
  {
    if |s| == 4 && (s[..3] == "COM" || s[..3] == "LPT") && '1' <= s[3] <= '9' {
      assert s == s[..3] + [s[3]];
      NumberedDevices(s[3]);
    } else {
      assert DEVICE_NAMES[0] == "CON" && DEVICE_NAMES[1] == "PRN";
      assert DEVICE_NAMES[2] == "AUX" && DEVICE_NAMES[3] == "NUL";
    }
  }

  lemma DeviceNamesListed(s: string)
    ensures IsReservedName(s) <==> s in DEVICE_NAMES
    ensures s in DEVICE_NAMES ==> forall i :: 0 <= i < |s| ==> 'A' <= s[i] <= 'Z' || '0' <= s[i] <= '9'
  {
    if k :| 0 <= k < |DEVICE_NAMES| && s == DEVICE_NAMES[k] {
      ListedAt(k);
    }
    if IsReservedName(s) {
      ReservedIsListed(s);
    }
  }

  lemma ListedAt(k: nat)
    requires k < |DEVICE_NAMES|
    ensures IsReservedName(DEVICE_NAMES[k])
    ensures forall i :: 0 <= i < |DEVICE_NAMES[k]| ==>
              'A' <= DEVICE_NAMES[k][i] <= 'Z' || '0' <= DEVICE_NAMES[k][i] <= '9'
  {
  }

  /** A stem is reserved iff what stands before the first dot spells a device name, in any case of letters. */
  lemma ReservedStemExact(s: string)
    ensures HasReservedStem(s) <==> exists name :: name in DEVICE_NAMES && SpellsName(Before(s, '.'), name)
  {
    var stem := Before(s, '.');
    DeviceNamesListed(AsciiUpper(stem));
    if HasReservedStem(s) {
      UpperSpells(stem, AsciiUpper(stem));
    }
    hide IsReservedName, AsciiUpper, Before;
    forall name | name in DEVICE_NAMES && SpellsName(stem, name) ensures HasReservedStem(s) {
      DeviceNamesListed(name);
      UpperSpells(stem, name);
    }
  }

  lemma {:induction false} TrimStartIsSuffix(s: string)
    ensures |TrimStart(s)| <= |s| && TrimStart(s) == s[|s| - |TrimStart(s)|..]
    ensures s != [] && IsEdge(s[0]) ==> |TrimStart(s)| < |s|
  {
    if s != [] && IsEdge(s[0]) {
      TrimStartIsSuffix(s[1..]);
    }
  }

  lemma {:induction false} TrimEndIsPrefix(s: string)
    ensures TrimEnd(s) <= s
    ensures s != [] && IsEdge(s[|s| - 1]) ==> |TrimEnd(s)| < |s|
  {
    if s != [] && IsEdge(s[|s| - 1]) {
      TrimEndIsPrefix(s[..|s| - 1]);
    }
  }

  /** Trimming only removes characters at the ends. */
  lemma TrimBounds(s: string)
    ensures var t := TrimEnd(TrimStart(s));
            && |t| <= |s|
            && (s != [] && IsEdge(s[0]) && '.' !in s[1..] ==> '.' !in t)
            && (s != [] && IsEdge(s[|s| - 1]) ==> |t| < |s|)
  {
    TrimStartIsSuffix(s);
    TrimEndIsPrefix(TrimStart(s));
    var u := TrimStart(s);
    if s != [] && IsEdge(s[0]) {
      assert u == s[1..][|s| - 1 - |u|..];
    }
    if u != [] {
      assert u[|u| - 1] == s[|s| - 1];
    }
  }

  lemma NamingAddsNoDot(s: string)
    requires '.' !in s
    ensures '.' !in OrFallback(s) && '.' !in Unreserve(s)
  {
    hide HasReservedStem;
  }

  /** A name without dots stays without them, up to the length check. */
  lemma NoDotIsAdded(out: HeaderText)
    requires IsPlain(out) && out != [] && out[0] == '.' && '.' !in out[1..]
    ensures '.' !in BeforeTruncation(out)
  {
    PlainIsKept(out);
    TrimBounds(out);
    hide IsPlain, Unreserve, OrFallback, TrimEnd, TrimStart, FilterKept, LastSegment;
    NamingAddsNoDot(TrimEnd(TrimStart(out)));
    NamingAddsNoDot(OrFallback(TrimEnd(TrimStart(out))));
  }

  /** A second pass strips the leading dot that an over-long extension leaves in front. */
  lemma LeadingDotIsNotFixed(out: HeaderText)
    requires IsPlain(out) && out != [] && out[0] == '.' && '.' !in out[1..]
    ensures SanitizeFilename(out) != out
  {
    hide IsPlain, BeforeTruncation;
    NoDotIsAdded(out);
    BeforeTruncationClean(out);
    var q := BeforeTruncation(out);
    if |q| > MAX_FILENAME_LEN {
      TruncateShape(q);
    }
  }

  /** A second pass strips a trailing space that truncation exposed. */
  lemma TrailingEdgeIsNotFixed(out: HeaderText)
    requires IsPlain(out) && |out| <= MAX_FILENAME_LEN && out != [] && IsEdge(out[|out| - 1])
    ensures SanitizeFilename(out) != out
  {
    PlainIsKept(out);
    TrimBounds(out);
    BeforeTruncationClean(out);
    assert |BeforeTruncation(out)| <= MAX_FILENAME_LEN;
  }

  /** A second pass prefixes a reserved stem that truncation exposed. */
  lemma ReservedStemIsNotFixed(out: HeaderText)
    requires IsPlain(out) && HasCleanEdges(out) && HasReservedStem(out)
    ensures SanitizeFilename(out) != out
  {
    PlainIsKept(out);
    var q := "_" + out;
    assert BeforeTruncation(out) == q;
    ReservedStemStartsWithLetter(out);
    hide BeforeTruncation, HasReservedStem, IsPlain;
    if |q| > MAX_FILENAME_LEN {
      TruncateShape(q);
    }
  }

  /** Strings that agree up to and including a dot have the same stem. */
  lemma SameStem(s: string, t: string, k: nat)
    requires k <= |s| && k <= |t| && s[..k] == t[..k] && '.' in s[..k]
    ensures Before(s, '.') == Before(t, '.')
  {
    var stem := Before(s, '.');
    assert |stem| < k by {
      var i :| 0 <= i < k && s[i] == '.';
      assert i < |stem| ==> stem[i] == s[i];
    }
    assert stem <= t by {
      assert stem == s[..k][..|stem|] == t[..k][..|stem|];
    }
    assert t[|stem|] == t[..k][|stem|] == s[..k][|stem|];
    BeforeUnique(t, '.', stem);
  }

  /** A name with a dot in it is no device name. */
  lemma DottedIsNotReserved(s: string)
    requires '.' in s
    ensures !IsReservedName(AsciiUpper(s))
  {
    var i :| 0 <= i < |s| && s[i] == '.';
    assert AsciiUpper(s)[i] == '.';
  }

  lemma DotHasNoReservedStem(s: string)
    requires s != [] && s[0] == '.'
    ensures !HasReservedStem(s)
  {
    assert Before(s, '.') == [];
  }

  /** Cutting `p` leaves a device name in front of the extension. */
  predicate CutsToReserved(p: string) {
    && |p| > MAX_FILENAME_LEN && |Extension(p)| < MAX_FILENAME_LEN
    && IsReservedName(AsciiUpper(p[..MAX_FILENAME_LEN - |Extension(p)|]))
  }

  /** Cutting `p`, which has no extension, leaves a blank at its end. */
  predicate CutsToBlank(p: string) {
    |p| > MAX_FILENAME_LEN && Extension(p) == [] && IsEdge(p[MAX_FILENAME_LEN - 1])
  }

  /** Nothing of `p` but its extension, dot first, survives the cut. */
  predicate CutsToExtension(p: string) {
    |p| > MAX_FILENAME_LEN && |Extension(p)| >= MAX_FILENAME_LEN
  }

  /** Behind a cut at `k` the stem is reserved just when all of the cut is. */
  lemma CutStem(p: string, k: nat, ext: string)
    requires k <= |p| && !HasReservedStem(p) && (ext == [] || ext[0] == '.')
    ensures HasReservedStem(p[..k] + ext) <==> IsReservedName(AsciiUpper(p[..k]))
  {
    hide IsReservedName, AsciiUpper;
    var out := p[..k] + ext;
    if '.' in p[..k] {
      assert out[..k] == p[..k];
      SameStem(p, out, k);
      DottedIsNotReserved(p[..k]);
    } else {
      BeforeUnique(out, '.', p[..k]);
    }
  }

  lemma TruncateReservedIff(p: string)
    requires HasCleanEdges(p) && !HasReservedStem(p)
    ensures HasReservedStem(Truncate(p)) <==> CutsToReserved(p)
  {
    hide IsWhitespace, Extension, IsReservedName, AsciiUpper, HasReservedStem;
    if |p| > MAX_FILENAME_LEN {
      hide Truncate;
      TruncateShape(p);
      if |Extension(p)| >= MAX_FILENAME_LEN {
        DotHasNoReservedStem(Truncate(p));
      } else {
        CutStem(p, MAX_FILENAME_LEN - |Extension(p)|, Extension(p));
      }
    }
  }

  lemma ExtensionIsSuffix(s: string)
    ensures Extension(s) != [] ==> Extension(s)[|Extension(s)| - 1] == s[|s| - 1]
    ensures |s| <= MAX_FILENAME_LEN ==> Truncate(s) == s
  {
    hide LastDot;
  }

  lemma TruncateEnds(p: string)
    requires HasCleanEdges(p)
    ensures var out := Truncate(p);
            && out != []
            && (IsEdge(out[0]) <==> CutsToExtension(p))
            && (IsEdge(out[|out| - 1]) <==> CutsToBlank(p))
  {
    hide IsWhitespace, Truncate, Extension;
    ExtensionIsSuffix(p);
    if |p| > MAX_FILENAME_LEN {
      TruncateShape(p);
    }
  }

  /**
   * Exactly which names come out with a reserved stem: those cut so that a device name is all that stays in
   * front of the extension.
   */
  lemma ReservedStemIff(untrusted: HeaderText)
    ensures HasReservedStem(SanitizeFilename(untrusted)) <==> CutsToReserved(BeforeTruncation(untrusted))
  {
    hide BeforeTruncation, HasReservedStem, Truncate, CutsToReserved;
    BeforeTruncationClean(untrusted);
    TruncateReservedIff(BeforeTruncation(untrusted));
  }

  /**
   * Exactly which names come out with a dot or blank at an end: in front, those of which only the extension
   * survives; at the back, those without an extension that are cut right behind a blank.
   */
  lemma UncleanEndsIff(untrusted: HeaderText)
    ensures var p := BeforeTruncation(untrusted);
            var out := SanitizeFilename(untrusted);
            && out != []
            && (IsEdge(out[0]) <==> CutsToExtension(p))
            && (IsEdge(out[|out| - 1]) <==> CutsToBlank(p))
  {
    hide BeforeTruncation, HasReservedStem, IsWhitespace, IsPlain;
    BeforeTruncationClean(untrusted);
    TruncateEnds(BeforeTruncation(untrusted));
  }

  /** Exactly when sanitizing again changes nothing, told from the name before the cut. */
  lemma SanitizeIdempotentIff(untrusted: HeaderText)
    ensures IsPlain(SanitizeFilename(untrusted))
    ensures var p := BeforeTruncation(untrusted);
            var out := SanitizeFilename(untrusted);
            SanitizeFilename(out) == out <==> !CutsToExtension(p) && !CutsToBlank(p) && !CutsToReserved(p)
  {
    var p := BeforeTruncation(untrusted);
    var out := SanitizeFilename(untrusted);
    BeforeTruncationClean(untrusted);
    SanitizedPlain(untrusted);
    UncleanEndsIff(untrusted);
    ReservedStemIff(untrusted);
    SanitizedLength(untrusted);
    if CutsToExtension(p) {
      TruncateShape(p);
      LeadingDotIsNotFixed(out);
    } else if CutsToBlank(p) {
      TrailingEdgeIsNotFixed(out);
    } else if CutsToReserved(p) {
      ReservedStemIsNotFixed(out);
    } else {
      CleanIsFixed(out);
    }
  }

  /** Names short enough not to be cut come out clean at both ends, not reserved, and stable. */
  lemma ShortNamesAreClean(untrusted: HeaderText)
    requires |BeforeTruncation(untrusted)| <= MAX_FILENAME_LEN
    ensures IsPlain(SanitizeFilename(untrusted))
    ensures HasCleanEdges(SanitizeFilename(untrusted)) && !HasReservedStem(SanitizeFilename(untrusted))
    ensures SanitizeFilename(SanitizeFilename(untrusted)) == SanitizeFilename(untrusted)
  {
    BeforeTruncationClean(untrusted);
    SanitizeIdempotentIff(untrusted);
  }

  lemma {:induction false} LastDotUnique(s: string, k: nat)
    requires k < |s| && s[k] == '.' && '.' !in s[k + 1..]
    ensures LastDot(s) == k
  {
    if k < |s| - 1 {
      assert s[..|s| - 1][k + 1..] == s[k + 1..][..|s| - k - 2];
      assert s[|s| - 1] == s[k + 1..][|s| - k - 2];
      LastDotUnique(s[..|s| - 1], k);
    }
  }

  lemma LettersArePlain(stem: string, n: nat)
    requires IsPlain(stem) && stem != [] && !IsEdge(stem[0]) && n > 0
    ensures IsPlain(stem + ("." + seq(n, _ => 'b'))) && HasCleanEdges(stem + ("." + seq(n, _ => 'b')))
  {
    assert IsPlainChar('b') && IsPlainChar('.') && !IsEdge('b');
    hide IsPlainChar, IsEdge;
  }

  /** A short stem and one extension of letters is left alone until it is cut. */
  lemma LetterNameIsFixed(stem: string, n: nat) returns (name: HeaderText)
    requires IsPlain(stem) && stem != [] && !IsEdge(stem[0]) && '.' !in stem && n > 0
    requires !IsReservedName(AsciiUpper(stem))
    ensures name == stem + ("." + seq(n, _ => 'b'))
    ensures BeforeTruncation(name) == name && Extension(name) == "." + seq(n, _ => 'b')
  {
    var letters := seq(n, _ => 'b');
    name := stem + ("." + letters);
    LettersArePlain(stem, n);
    hide IsPlain, IsEdge;
    assert name[|stem| + 1..] == letters;
    assert name[|stem|..] == "." + letters;
    hide IsPlain, IsReservedName;
    BeforeUnique(name, '.', stem);
    CleanIsFixed(name);
    LastDotUnique(name, |stem|);
  }

  /** The documented length bound fails on a name whose extension alone exceeds it. */
  lemma LongExtensionExceedsBound() returns (name: HeaderText)
    ensures name == "a." + seq(255, _ => 'b')
    ensures |SanitizeFilename(name)| == MAX_FILENAME_LEN + 1
  {
    hide BeforeTruncation, Extension, SanitizeFilename;
    assert |AsciiUpper("a")| == 1;
    name := LetterNameIsFixed("a", 255);
    hide IsPlain, IsReservedName, AsciiUpper, IsWhitespace;
    SanitizedLength(name);
  }

  /** Truncation can bring back a reserved device name: `CONx` is cut to `CON`. A second pass changes it again. */
  lemma TruncationExposesReservedStem() returns (name: HeaderText)
    ensures name == "CONx." + seq(251, _ => 'b')
    ensures HasReservedStem(SanitizeFilename(name)) && IsPlain(SanitizeFilename(name))
    ensures SanitizeFilename(SanitizeFilename(name)) != SanitizeFilename(name)
  {
    hide BeforeTruncation, HasReservedStem, Extension, SanitizeFilename;
    assert |AsciiUpper("CONx")| == 4 && AsciiUpper("CONx")[..3] == "CON";
    assert AsciiUpper("CON") == "CON";
    name := LetterNameIsFixed("CONx", 251);
    assert name[..3] == "CON";
    hide AsciiUpper, IsPlain;
    assert IsReservedName("CON");
    ReservedStemIff(name);
    SanitizeIdempotentIff(name);
  }

  /** Truncation can leave a trailing blank, which Windows does not allow. */
  lemma TruncationExposesBlank() returns (name: HeaderText)
    ensures name == seq(254, _ => 'b') + " b"
    ensures |SanitizeFilename(name)| == MAX_FILENAME_LEN && SanitizeFilename(name)[MAX_FILENAME_LEN - 1] == ' '
  {
    name := seq(254, _ => 'b') + " b";
    assert IsPlain(name) && HasCleanEdges(name) && '.' !in name by {
      assert IsPlainChar('b') && IsPlainChar(' ');
    }
    assert !HasReservedStem(name) by {
      hide IsReservedName, IsPlain;
      BeforeUnique(name, '.', name);
      LongIsNotReserved(name);
    }
    assert BeforeTruncation(name) == name by {
      hide BeforeTruncation, HasReservedStem, IsPlain;
      CleanIsFixed(name);
    }
    hide BeforeTruncation, HasReservedStem, IsPlain;
    TruncateShape(name);
    assert Extension(name) == [];
  }

  lemma LongIsNotReserved(s: string)
    requires |s| > 4
    ensures !IsReservedName(AsciiUpper(s))
  {
  }
}
