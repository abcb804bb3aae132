/** The field checks behind a package manifest: name, version, route path and module path. */
module SdkFields {
  import opened Strings
  import opened Wrappers
  import SdkPaths

  predicate IsLowerOrDigit(c: char) {
    'a' <= c <= 'z' || IsDigit(c)
  }

  // ----- Package names -----

  /** The pattern `[a-z0-9]([a-z0-9-]*[a-z0-9])?` that the source documents. */
  predicate MatchesNamePattern(s: string) {
    && s != ""
    && IsLowerOrDigit(s[0])
    && (|s| > 1 ==>
      && IsLowerOrDigit(s[|s| - 1])
      && forall i :: 1 <= i < |s| - 1 ==> IsLowerOrDigit(s[i]) || s[i] == '-')
  }

  predicate ValidPackageName(name: string) {
    MatchesNamePattern(name) && |name| <= 64
  }

  datatype NameError = NameLength | NameSeparator | NamePattern

  /** Go's `len` counts the bytes of the UTF-8 form. */
  function Utf8Length(s: string): nat {
    if s == "" then 0 else Utf8Length(s[..|s| - 1]) + Utf8Width(s[|s| - 1])
  }

  function Utf8Width(c: char): (w: nat)
    ensures 1 <= w <= 4 && (w == 1 <==> c as int < 0x80)
  {
    if c as int < 0x80 then 1
    else if c as int < 0x800 then 2
    else if c as int < 0x1_0000 then 3
    else 4
  }

  lemma {:induction false} AsciiLength(s: string)
    ensures |s| <= Utf8Length(s)
    ensures Utf8Length(s) == |s| <==> forall c :: c in s ==> c as int < 0x80
  {
    if s != "" {
      var front, last := s[..|s| - 1], s[|s| - 1];
      AsciiLength(front);
      assert s == front + [last];
      assert last in s && forall c :: c in front ==> c in s;
    }
  }

  predicate HasSeparator(name: string) {
    '/' in name || '\\' in name || name == "." || name == ".."
  }

  /** What is wrong with a name: its length in bytes first, then separators, then the pattern. */
  function NameFault(name: string): Option<NameError> {
    if name == "" || Utf8Length(name) > 64 then Some(NameLength)
    else if HasSeparator(name) then Some(NameSeparator)
    else if !MatchesNamePattern(name) then Some(NamePattern)
    else None
  }

  /** Of a name in the pattern the bytes are the characters, and it holds no separator. */
  lemma NoNameFault(name: string)
    ensures NameFault(name).None? <==> ValidPackageName(name)
  {
    if MatchesNamePattern(name) {
      NameCharacters(name);
      AsciiLength(name);
    }
  }

  /** A valid name is one path segment: it cannot leave the directory it is joined to. */
  method ValidateName(name: string) returns (error: Option<NameError>)
    ensures error == NameFault(name)
    ensures error.None? <==> ValidPackageName(name)
    ensures error.None? ==> SdkPaths.IsPlain(name) && '\\' !in name
  {
    NoNameFault(name);
    if name == "" || Utf8Length(name) > 64 {
      return Some(NameLength);
    }
    if '/' in name || '\\' in name || name == "." || name == ".." {
      return Some(NameSeparator);
    }
    var i := 0;
    while i < |name|
      invariant 0 <= i <= |name|
      invariant forall j :: 0 <= j < i ==>
        IsLowerOrDigit(name[j]) || (name[j] == '-' && 0 < j < |name| - 1)
    {
      if !IsLowerOrDigit(name[i]) && !(name[i] == '-' && i > 0 && i < |name| - 1) {
        return Some(NamePattern);
      }
      i := i + 1;
    }
    error := None;
  }

  lemma NameCharacters(name: string)
    requires MatchesNamePattern(name)
    ensures forall c :: c in name ==> IsLowerOrDigit(c) || c == '-'
    ensures !HasSeparator(name)
  {
    forall c | c in name ensures IsLowerOrDigit(c) || c == '-' {
      var i :| 0 <= i < |name| && name[i] == c;
      assert i == 0 || i == |name| - 1 || IsLowerOrDigit(name[i]) || name[i] == '-';
    }
    assert name[0] != '.';
  }

  // ----- Versions -----

  /** Three dot-separated numbers and nothing else. */
  ghost predicate IsVersion(v: string) {
    exists major, minor, patch ::
      && IsNumber(major) && IsNumber(minor) && IsNumber(patch)
      && v == Join([major, minor, patch], '.')
  }

  method IsDigits(part: string) returns (ok: bool)
    ensures ok <==> IsNumber(part)
  {
    if part == "" {
      return false;
    }
    var i := 0;
    while i < |part|
      invariant 0 <= i <= |part|
      invariant forall k :: 0 <= k < i ==> IsDigit(part[k])
    {
      if part[i] < '0' || part[i] > '9' {
        return false;
      }
      i := i + 1;
    }
    ok := true;
  }

  method IsSemver(v: string) returns (ok: bool)
    ensures ok <==> IsVersion(v)
  {
    var parts := Split(v, '.');
    VersionParts(v);
    if |parts| != 3 {
      return false;
    }
    var i := 0;
    while i < |parts|
      invariant 0 <= i <= |parts|
      invariant forall k :: 0 <= k < i ==> IsNumber(parts[k])
    {
      ok := IsDigits(parts[i]);
      if !ok {
        return;
      }
      i := i + 1;
    }
    ok := true;
  }

  lemma VersionParts(v: string)
    ensures
      var parts := Split(v, '.');
      IsVersion(v) <==> |parts| == 3 && IsNumber(parts[0]) && IsNumber(parts[1]) && IsNumber(parts[2])
  {
    var parts := Split(v, '.');
    JoinOfSplit(v, '.');
    if |parts| == 3 {
      assert parts == [parts[0], parts[1], parts[2]];
    }
    if major, minor, patch :|
      && IsNumber(major) && IsNumber(minor) && IsNumber(patch)
      && v == Join([major, minor, patch], '.')
    {
      NumbersHaveNoDot(major);
      NumbersHaveNoDot(minor);
      NumbersHaveNoDot(patch);
      SplitOfJoin([major, minor, patch], '.');
    }
  }

  lemma NumbersHaveNoDot(part: string)
    requires IsNumber(part)
    ensures '.' !in part
  {
  }

  // ----- Route paths -----

  predicate ValidRoutePath(p: string) {
    && SdkPaths.IsRooted(p)
    && (|p| > 1 ==> p[|p| - 1] != '/')
    && '?' !in p && '#' !in p
    && ".." !in Split(p, '/')
  }

  method CheckRoutePath(p: string) returns (ok: bool)
    ensures ok <==> ValidRoutePath(p)
  {
    if !HasPrefix(p, "/") {
      return false;
    }
    if |p| > 1 && HasSuffix(p, "/") {
      return false;
    }
    if '?' in p || '#' in p {
      return false;
    }
    var segs := Split(p, '/');
    var i := 0;
    while i < |segs|
      invariant 0 <= i <= |segs|
      invariant ".." !in segs[..i]
    {
      if segs[i] == ".." {
        return false;
      }
      assert segs[..i + 1] == segs[..i] + [segs[i]];
      i := i + 1;
    }
    assert segs[..i] == segs;
    ok := true;
  }

  // ----- Module paths -----

  const EXTENSIONS := {
    ".ts", ".tsx", ".js", ".jsx", ".mjs", ".cjs", ".json", ".css", ".png", ".jpg", ".jpeg", ".gif",
    ".svg", ".webp", ".woff", ".woff2", ".ttf", ".html", ".md", ".txt"}

  predicate IsAllowedExtension(ext: string) {
    ToLower(ext) in EXTENSIONS
  }

  /** `path.Ext`: from the last dot of the last segment on. */
  function Extension(p: string): (r: string)
    ensures r == "" || (HasSuffix(p, r) && r[0] == '.')
  {
    if p == "" || p[|p| - 1] == '/' then ""
    else if p[|p| - 1] == '.' then "."
    else
      var e := Extension(p[..|p| - 1]);
      if e == "" then "" else e + [p[|p| - 1]]
  }

  predicate HasTwoDots(p: string) {
    exists i :: 0 <= i < |p| - 1 && p[i] == '.' && p[i + 1] == '.'
  }

  predicate ValidModulePath(path: string) {
    var p := TrimSpace(path);
    && p != "" && !SdkPaths.IsRooted(p) && !HasPrefix(p, "./")
    && !HasTwoDots(p)
    && (Extension(p) == "" || IsAllowedExtension(Extension(p)))
  }

  lemma {:induction false} SegmentIsInside(p: string, seg: string)
    requires seg in Split(p, '/') && HasTwoDots(seg)
    ensures HasTwoDots(p)
  {
    if p != "" {
      var rest := Split(p[1..], '/');
      if seg in rest {
        SegmentIsInside(p[1..], seg);
        ShiftDots(p);
      } else if p[0] != '/' {
        assert seg == [p[0]] + rest[0] by {
          assert Split(p, '/') == [[p[0]] + rest[0]] + rest[1..];
          assert seg !in rest[1..];
        }
        var i :| 0 <= i < |seg| - 1 && seg[i] == '.' && seg[i + 1] == '.';
        if i == 0 {
          FirstCharOfSplit(p[1..]);
          assert p[1] == rest[0][0];
        } else {
          assert rest[0][i - 1] == '.' && rest[0][i] == '.';
          assert HasTwoDots(rest[0]);
          SegmentIsInside(p[1..], rest[0]);
          ShiftDots(p);
        }
      }
    }
  }

  lemma ShiftDots(p: string)
    requires p != "" && HasTwoDots(p[1..])
    ensures HasTwoDots(p)
  {
    var i :| 0 <= i < |p[1..]| - 1 && p[1..][i] == '.' && p[1..][i + 1] == '.';
    assert p[i + 1] == '.' && p[i + 2] == '.';
  }

  lemma FirstCharOfSplit(s: string)
    ensures Split(s, '/')[0] != "" ==> s != "" && s[0] == Split(s, '/')[0][0]
  {
  }
}
