/** Archive paths of `controllers/sdk_package_controller.go`, and the path cleaning they rest on. */
module SdkPaths {
  import opened Strings
  import opened Wrappers

  /** One segment against the stack of Go's `path.Clean`. */
  function Push(stack: seq<string>, seg: string, rooted: bool): seq<string> {
    if seg == "" || seg == "." then stack
    else if seg != ".." then stack + [seg]
    else if stack != [] && stack[|stack| - 1] != ".." then stack[..|stack| - 1]
    else if rooted then stack
    else stack + [".."]
  }

  function Stack(segs: seq<string>, rooted: bool): seq<string> {
    if segs == [] then []
    else Push(Stack(segs[..|segs| - 1], rooted), segs[|segs| - 1], rooted)
  }

  predicate IsRooted(p: string) {
    p != "" && p[0] == '/'
  }

  function Written(stack: seq<string>, rooted: bool): string {
    if rooted then "/" + Join(stack, '/')
    else if stack == [] then "."
    else Join(stack, '/')
  }

  /** `path.Clean`. */
  function Clean(p: string): string {
    Written(Stack(Split(p, '/'), IsRooted(p)), IsRooted(p))
  }

  /** `path.Join` of two elements: empty ones are skipped. */
  function JoinPaths(root: string, p: string): string {
    if root == "" then Clean(p) else Clean(root + "/" + p)
  }

  function Slashed(name: string): (r: string)
    ensures '\\' !in r
    ensures '\\' !in name ==> r == name
  {
    if name == "" then ""
    else [if name[0] == '\\' then '/' else name[0]] + Slashed(name[1..])
  }

  function TrimDotSlash(s: string): string {
    if HasPrefix(s, "./") then s[2..] else s
  }

  /** The path the archive entry asks for, before cleaning. */
  function Asked(name: string): string {
    TrimDotSlash(Slashed(name))
  }

  predicate Acceptable(name: string) {
    var asked := Asked(name);
    asked != "" && !IsRooted(asked) && ".." !in Split(asked, '/')
  }

  function Sanitized(name: string): Option<string> {
    if Acceptable(name) then Some(Clean(Asked(name))) else None
  }

  method SanitizeArchivePath(name: string) returns (r: Option<string>)
    ensures r == Sanitized(name)
    ensures r.Some? ==> IsNormal(r.value)
  {
    var clean := TrimDotSlash(Slashed(name));
    if clean == "" || HasPrefix(clean, "/") {
      return None;
    }
    var segs := Split(clean, '/');
    var i := 0;
    while i < |segs|
      invariant 0 <= i <= |segs|
      invariant ".." !in segs[..i]
    {
      if segs[i] == ".." {
        return None;
      }
      assert segs[..i + 1] == segs[..i] + [segs[i]];
      i := i + 1;
    }
    assert segs[..i] == segs;
    var norm := Clean(clean);
    CleanIsNormal(clean);
    NormalStaysBelow(norm);
    if norm == ".." || HasPrefix(norm, "../") {
      assert false;
    }
    r := Some(norm);
  }

  /** A segment that names something. */
  predicate IsPlain(seg: string) {
    seg != "" && seg != "." && seg != ".." && '/' !in seg
  }

  predicate AllPlain(segs: seq<string>) {
    forall seg :: seg in segs ==> IsPlain(seg)
  }

  /** A lexically normal relative path that does not climb. */
  predicate IsNormal(p: string) {
    && '\\' !in p
    && (p == "." || AllPlain(Split(p, '/')))
  }

  lemma {:induction false} StackIsPlain(segs: seq<string>)
    requires ".." !in segs && forall seg :: seg in segs ==> '/' !in seg
    ensures AllPlain(Stack(segs, false))
    ensures forall seg :: seg in Stack(segs, false) ==> seg in segs
  {
    if segs != [] {
      var front := segs[..|segs| - 1];
      StackIsPlain(front);
      assert segs[|segs| - 1] in segs;
      assert forall seg :: seg in front ==> seg in segs;
    }
  }

  /** Cleaning segments that are all plain changes nothing, after any stack. */
  lemma {:induction false} StackOfPlain(base: seq<string>, segs: seq<string>, rooted: bool)
    requires AllPlain(segs)
    ensures Stack(base + segs, rooted) == Stack(base, rooted) + segs
  {
    if segs == [] {
      assert base + segs == base;
    } else {
      var front, last := segs[..|segs| - 1], segs[|segs| - 1];
      StackOfPlain(base, front, rooted);
      assert IsPlain(last);
      assert (base + segs)[..|base + segs| - 1] == base + front;
      assert segs == front + [last];
    }
  }

  lemma {:induction false} JoinChars(segs: seq<string>, c: char)
    requires c in Join(segs, '/')
    ensures c == '/' || exists seg :: seg in segs && c in seg
  {
    if |segs| == 1 {
      assert c in segs[0];
    } else if |segs| > 1 && c !in segs[0] && c != '/' {
      JoinChars(segs[1..], c);
      var seg :| seg in segs[1..] && c in seg;
      assert seg in segs;
    } else if |segs| > 1 && c != '/' {
      assert segs[0] in segs && c in segs[0];
    }
  }

  lemma {:induction false} SplitChars(s: string, seg: string, c: char)
    requires seg in Split(s, '/') && c in seg
    ensures c in s
  {
    if s != "" && c != s[0] {
      var rest := Split(s[1..], '/');
      if s[0] != '/' && seg == [s[0]] + rest[0] {
        assert c in rest[0];
        SplitChars(s[1..], rest[0], c);
      } else {
        assert seg != "";
        if s[0] != '/' {
          assert seg in rest[1..];
        }
        assert seg in rest;
        SplitChars(s[1..], seg, c);
      }
    }
  }

  /** The segments that name something, in order. */
  function NamesOf(segs: seq<string>): seq<string> {
    if segs == [] then []
    else NamesOf(segs[..|segs| - 1]) + if IsPlain(segs[|segs| - 1]) then [segs[|segs| - 1]] else []
  }

  lemma {:induction false} StackIsNames(segs: seq<string>)
    requires ".." !in segs && forall seg :: seg in segs ==> '/' !in seg
    ensures Stack(segs, false) == NamesOf(segs)
  {
    if segs != [] {
      assert segs[|segs| - 1] in segs;
      StackIsNames(segs[..|segs| - 1]);
    }
  }

  /** Nothing the entry names is lost or reordered: only empty and "." segments go. */
  lemma SanitizedKeepsNames(name: string)
    requires Sanitized(name).Some?
    ensures
      var p, names := Sanitized(name).value, NamesOf(Split(Asked(name), '/'));
      if names == [] then p == "." else Split(p, '/') == names
  {
    var segs := Split(Asked(name), '/');
    StackIsNames(segs);
    if NamesOf(segs) != [] {
      StackIsPlain(segs);
      SplitOfJoin(NamesOf(segs), '/');
    }
  }

  lemma CleanIsNormal(asked: string)
    requires '\\' !in asked && !IsRooted(asked) && ".." !in Split(asked, '/')
    ensures IsNormal(Clean(asked))
  {
    var segs := Split(asked, '/');
    var stack := Stack(segs, false);
    StackIsPlain(segs);
    if stack != [] {
      SplitOfJoin(stack, '/');
      if '\\' in Join(stack, '/') {
        JoinChars(stack, '\\');
        var seg :| seg in stack && '\\' in seg;
        SplitChars(asked, seg, '\\');
        assert false;
      }
    }
  }

  lemma FirstSegment(p: string, head: string)
    requires '/' !in head && (p == head || HasPrefix(p, head + "/"))
    ensures head in Split(p, '/')
  {
    if p == head {
      SplitOfConcat(head, "", '/');
      assert Split(p, '/')[0] == head;
    } else {
      var tail := p[|head| + 1..];
      assert p == head + ['/'] + tail;
      SplitOfConcat(head, tail, '/');
      assert Split(p, '/')[0] == head;
    }
  }

  /** The source's last test can never fire. */
  lemma NormalStaysBelow(p: string)
    requires IsNormal(p)
    ensures p != ".." && !HasPrefix(p, "../") && !IsRooted(p) && p != "" && !HasPrefix(p, "./")
  {
    if p == ".." || HasPrefix(p, "../") {
      FirstSegment(p, "..");
    }
    if p == "" || HasPrefix(p, "/") {
      assert "" + "/" == "/";
      FirstSegment(p, "");
    }
    if HasPrefix(p, "./") {
      FirstSegment(p, ".");
    }
    assert IsRooted(p) ==> HasPrefix(p, "/");
  }

  lemma NormalIsClean(p: string)
    requires IsNormal(p)
    ensures Clean(p) == p
  {
    NormalStaysBelow(p);
    if p == "." {
      SplitOfConcat(".", "", '/');
      assert Stack([], false) == [];
    } else {
      var segs := Split(p, '/');
      StackOfPlain([], segs, false);
      assert [] + segs == segs;
      JoinOfSplit(p, '/');
    }
  }

  /** Exactly the normal paths are results, and sanitising one again gives it back. */
  lemma SanitizedIsNormal(p: string)
    ensures IsNormal(p) <==> exists name :: Sanitized(name) == Some(p)
    ensures IsNormal(p) ==> Sanitized(p) == Some(p)
  {
    if IsNormal(p) {
      NormalStaysBelow(p);
      NormalIsClean(p);
      if p == "." {
        SplitOfConcat(".", "", '/');
      }
      assert Asked(p) == p;
      assert Sanitized(p) == Some(p);
    }
    if name :| Sanitized(name) == Some(p) {
      SlashedStaysSlashed(name);
      CleanIsNormal(Asked(name));
    }
  }

  lemma SlashedStaysSlashed(name: string)
    ensures '\\' !in Asked(name)
  {
  }

  lemma {:induction false} SplitOfBoth(a: string, b: string)
    ensures Split(a + ['/'] + b, '/') == Split(a, '/') + Split(b, '/')
  {
    var all := a + ['/'] + b;
    if a == "" {
      assert all[0] == '/' && all[1..] == b;
    } else {
      SplitOfBoth(a[1..], b);
      assert all[0] == a[0] && all[1..] == a[1..] + ['/'] + b;
      SplitHead(a, all, Split(b, '/'));
    }
  }

  /** `Split` of a longer text, given `Split` of what follows its first character. */
  function WithHead(c: char, rest: seq<string>): seq<string>
    requires rest != []
  {
    if c == '/' then [""] + rest else [[c] + rest[0]] + rest[1..]
  }

  lemma WithHeadAndMore(c: char, rest: seq<string>, more: seq<string>)
    requires rest != []
    ensures WithHead(c, rest + more) == WithHead(c, rest) + more
  {
    if c == '/' {
      assert [""] + (rest + more) == ([""] + rest) + more;
    } else {
      assert (rest + more)[1..] == rest[1..] + more;
    }
  }

  lemma SplitHead(a: string, all: string, more: seq<string>)
    requires a != "" && all != "" && all[0] == a[0]
    requires Split(all[1..], '/') == Split(a[1..], '/') + more
    ensures Split(all, '/') == Split(a, '/') + more
  {
    assert Split(a, '/') == WithHead(a[0], Split(a[1..], '/'));
    assert Split(all, '/') == WithHead(a[0], Split(all[1..], '/'));
    WithHeadAndMore(a[0], Split(a[1..], '/'), more);
  }

  /** What the segments of a root and of an accepted path clean to together. */
  lemma JoinedStack(root: seq<string>, p: string, rooted: bool)
    requires IsNormal(p)
    ensures Stack(root + Split(p, '/'), rooted)
         == if p == "." then Stack(root, rooted) else Stack(root, rooted) + Split(p, '/')
  {
    if p == "." {
      SplitOfConcat(".", "", '/');
      assert (root + ["."])[..|root|] == root;
    } else {
      StackOfPlain(root, Split(p, '/'), rooted);
    }
  }

  /** Joined to any root, an accepted path lands exactly below the cleaned root. */
  lemma StaysUnderRoot(root: string, name: string)
    requires Sanitized(name).Some?
    ensures
      var p, top := Sanitized(name).value, Clean(root);
      JoinPaths(root, p)
      == if p == "." then top
         else if top == "." then p
         else if top == "/" then "/" + p
         else top + "/" + p
  {
    var p := Sanitized(name).value;
    SanitizedIsNormal(p);
    if root == "" {
      NormalIsClean(p);
      CleanOfNothing();
    } else {
      assert root + "/" + p == root + ['/'] + p;
      SplitOfBoth(root, p);
      JoinedStack(Split(root, '/'), p, IsRooted(root));
      StackIsNamed(Split(root, '/'), IsRooted(root));
      JoinOfSplit(p, '/');
      WrittenBelow(Stack(Split(root, '/'), IsRooted(root)), Split(p, '/'), IsRooted(root));
    }
  }

  lemma CleanOfNothing()
    ensures Clean("") == "."
  {
    assert Split("", '/') == [""];
    assert [""][..0] == [];
    assert Stack([""], false) == [];
  }

  /** A segment that cleaning keeps. */
  predicate IsNamed(seg: string) {
    seg != "" && seg != "." && '/' !in seg
  }

  predicate AllNamed(segs: seq<string>) {
    forall seg :: seg in segs ==> IsNamed(seg)
  }

  lemma WrittenBelow(base: seq<string>, segs: seq<string>, rooted: bool)
    requires segs != [] && AllNamed(base)
    ensures
      var top, p := Written(base, rooted), Join(segs, '/');
      Written(base + segs, rooted)
      == if top == "." then p else if top == "/" then "/" + p else top + "/" + p
  {
    JoinOfBoth(base, segs);
    JoinIsNamed(base);
    var b, p := Join(base, '/'), Join(segs, '/');
    if rooted {
      assert ("/" + b)[1..] == b;
      assert "/" + (b + "/" + p) == ("/" + b) + "/" + p;
    }
  }

  /** A cleaned path has no empty and no "." segment. */
  lemma {:induction false} StackIsNamed(segs: seq<string>, rooted: bool)
    requires forall seg :: seg in segs ==> '/' !in seg
    ensures AllNamed(Stack(segs, rooted))
  {
    if segs != [] {
      StackIsNamed(segs[..|segs| - 1], rooted);
      PushIsNamed(Stack(segs[..|segs| - 1], rooted), segs[|segs| - 1], rooted);
    }
  }

  lemma PushIsNamed(stack: seq<string>, seg: string, rooted: bool)
    requires AllNamed(stack) && '/' !in seg
    ensures AllNamed(Push(stack, seg, rooted))
  {
    forall s | s in Push(stack, seg, rooted) && s != ".." ensures IsNamed(s) {
      assert s in stack || s == seg;
    }
  }

  lemma JoinIsNamed(segs: seq<string>)
    requires AllNamed(segs)
    ensures Join(segs, '/') == "" <==> segs == []
    ensures Join(segs, '/') != "." && !IsRooted(Join(segs, '/'))
  {
    if segs != [] {
      assert IsNamed(segs[0]);
    }
  }

  lemma {:induction false} JoinOfBoth(a: seq<string>, b: seq<string>)
    requires b != []
    ensures Join(a + b, '/') == if a == [] then Join(b, '/') else Join(a, '/') + "/" + Join(b, '/')
  {
    if a == [] {
      assert a + b == b;
    } else {
      JoinOfBoth(a[1..], b);
      assert (a + b)[1..] == a[1..] + b;
    }
  }
}
