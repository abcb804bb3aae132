/** Module paths: validation reads them trimmed, the metadata keeps them as they were sent. */
module SdkModules {
  import opened SdkFields
  import opened SdkPaths
  import opened Strings

  // ----- What trimming takes away -----

  function Lead(s: string): string {
    s[..FirstKept(s, IsSpace, 0)]
  }

  function Trail(s: string): string {
    s[LastKept(s, IsSpace, FirstKept(s, IsSpace, 0), |s|)..]
  }

  predicate Blank(s: string) {
    forall c :: c in s ==> IsSpace(c)
  }

  lemma {:induction false} FirstKeptCuts(s: string, cut: char -> bool, i: nat)
    requires i <= |s|
    ensures forall k :: i <= k < FirstKept(s, cut, i) ==> cut(s[k])
    decreases |s| - i
  {
    if i < |s| && cut(s[i]) {
      FirstKeptCuts(s, cut, i + 1);
    }
  }

  lemma {:induction false} LastKeptCuts(s: string, cut: char -> bool, lo: nat, hi: nat)
    requires lo <= hi <= |s|
    ensures forall k :: LastKept(s, cut, lo, hi) <= k < hi ==> cut(s[k])
    decreases hi
  {
    if hi > lo && cut(s[hi - 1]) {
      LastKeptCuts(s, cut, lo, hi - 1);
    }
  }

  lemma TrimTakesBlanks(s: string)
    ensures s == Lead(s) + TrimSpace(s) + Trail(s)
    ensures Blank(Lead(s)) && Blank(Trail(s))
    ensures s == TrimSpace(s) <==> Lead(s) == "" && Trail(s) == ""
  {
    FirstKeptCuts(s, IsSpace, 0);
    LastKeptCuts(s, IsSpace, FirstKept(s, IsSpace, 0), |s|);
  }

  function Appended(segs: seq<string>, w: string): seq<string>
    requires segs != []
  {
    segs[..|segs| - 1] + [segs[|segs| - 1] + w]
  }

  lemma AppendedTail(head: string, rest: seq<string>, w: string, c: char)
    requires rest != []
    ensures Appended([head] + rest, w) == [head] + Appended(rest, w)
    ensures Appended([[c] + rest[0]] + rest[1..], w) == [[c] + Appended(rest, w)[0]] + Appended(rest, w)[1..]
  {
    if |rest| == 1 {
      assert [c] + (rest[0] + w) == ([c] + rest[0]) + w;
    }
  }

  lemma {:induction false} SplitOfAppended(s: string, w: string)
    requires '/' !in w
    ensures Split(s + w, '/') == Appended(Split(s, '/'), w)
  {
    if s == "" {
      assert s + w == w;
      SplitOfConcat(w, "", '/');
    } else {
      SplitOfAppended(s[1..], w);
      assert (s + w)[1..] == s[1..] + w;
      AppendedTail("", Split(s[1..], '/'), w, s[0]);
    }
  }

  lemma {:induction false} SplitOfPrepended(w: string, s: string)
    requires '/' !in w
    ensures Split(w + s, '/')[0] == w + Split(s, '/')[0]
    ensures Split(w + s, '/')[1..] == Split(s, '/')[1..]
  {
    if w == "" {
      assert w + s == s;
    } else {
      SplitOfPrepended(w[1..], s);
      assert (w + s)[1..] == w[1..] + s && (w + s)[0] == w[0] != '/';
      assert [w[0]] + (w[1..] + Split(s, '/')[0]) == w + Split(s, '/')[0];
    }
  }

  lemma BlanksSplit(s: string)
    requires Blank(s)
    ensures '/' !in s && '.' !in s
  {
  }

  // ----- Where a module path leads -----

  /** Two dots in the untrimmed path are two dots in the trimmed one. */
  lemma DotsAreKept(path: string)
    requires HasTwoDots(path)
    ensures HasTwoDots(TrimSpace(path))
  {
    TrimTakesBlanks(path);
    BlanksSplit(Lead(path));
    BlanksSplit(Trail(path));
    var i :| 0 <= i < |path| - 1 && path[i] == '.' && path[i + 1] == '.';
    var n, p := |Lead(path)|, TrimSpace(path);
    assert p[i - n] == '.' && p[i + 1 - n] == '.';
  }

  lemma NoDotsNoClimb(p: string)
    requires !HasTwoDots(p)
    ensures ".." !in Split(p, '/')
    ensures AllPlain(Stack(Split(p, '/'), false))
  {
    if ".." in Split(p, '/') {
      assert HasTwoDots("..") by {
        assert ".."[0] == '.' && ".."[1] == '.';
      }
      SegmentIsInside(p, "..");
    }
    StackIsPlain(Split(p, '/'));
  }

  /**
   * A module path resolves inside the package, both as it was validated and as
   * it is stored: it is relative, and cleaning it never climbs above where it
   * starts.
   */
  lemma ModuleStaysInPackage(path: string)
    requires ValidModulePath(path)
    ensures forall p :: p in {path, TrimSpace(path)} ==> !IsRooted(p) && AllPlain(Stack(Split(p, '/'), false))
  {
    if HasTwoDots(path) {
      DotsAreKept(path);
    }
    NoDotsNoClimb(path);
    NoDotsNoClimb(TrimSpace(path));
  }

  lemma {:induction false} StackKeepsFirst(segs: seq<string>)
    requires segs != [] && IsPlain(segs[0]) && ".." !in segs
    ensures Stack(segs, false) != [] && Stack(segs, false)[0] == segs[0]
  {
    if |segs| == 1 {
      assert segs[..0] == [] && Stack(segs[..0], false) == [];
    } else {
      assert segs[|segs| - 1] in segs;
      StackKeepsFirst(segs[..|segs| - 1]);
    }
  }

  /** The first segment of an accepted module, trimmed, names something. */
  lemma FirstSegmentIsPlain(path: string)
    requires ValidModulePath(path)
    ensures IsPlain(Split(TrimSpace(path), '/')[0])
  {
    var p := TrimSpace(path);
    var segs := Split(p, '/');
    NoDotsNoClimb(p);
    assert segs[0] in segs;
    JoinOfSplit(p, '/');
    DotFirst(p);
    OneDotIsNoExtension();
  }

  lemma DotFirst(p: string)
    ensures Split(p, '/')[0] == "." ==> p == "." || HasPrefix(p, "./")
  {
    var segs := Split(p, '/');
    JoinOfSplit(p, '/');
    if segs[0] == "." && |segs| > 1 {
      assert p == "." + "/" + Join(segs[1..], '/');
    }
  }

  lemma OneDotIsNoExtension()
    ensures Extension(".") == "." && !IsAllowedExtension(".")
  {
    assert ToLower(".") == "." by {
      assert "."[1..] == "";
    }
  }

  lemma PlainSegmentsJoin(stack: seq<string>)
    requires stack != [] && AllPlain(stack)
    ensures Split(Join(stack, '/'), '/') == stack
  {
    forall i | 0 <= i < |stack| ensures '/' !in stack[i] {
      assert IsPlain(stack[i]);
    }
    SplitOfJoin(stack, '/');
  }

  lemma SameCleanSameStack(p: string, q: string)
    requires !HasTwoDots(p) && !IsRooted(p) && !HasTwoDots(q) && !IsRooted(q)
    requires var s, t := Stack(Split(p, '/'), false), Stack(Split(q, '/'), false); s != [] && t != []
    requires Clean(p) == Clean(q)
    ensures Stack(Split(p, '/'), false) == Stack(Split(q, '/'), false)
  {
    NoDotsNoClimb(p);
    NoDotsNoClimb(q);
    PlainSegmentsJoin(Stack(Split(p, '/'), false));
    PlainSegmentsJoin(Stack(Split(q, '/'), false));
  }

  lemma PushShows(front: seq<string>, last: string, longer: string)
    requires longer != last && longer != "" && longer != "." && longer != ".."
    ensures Push(front, longer, false) != Push(front, last, false)
  {
    assert Push(front, longer, false) == front + [longer];
    if Push(front, last, false) == front + [last] {
      assert (front + [last])[|front|] != (front + [longer])[|front|];
    }
  }

  lemma BlankEndNames(last: string, w: string)
    requires w != "" && Blank(w)
    ensures last + w != last && last + w != "" && last + w != "." && last + w != ".."
  {
    var all := last + w;
    assert all[|all| - 1] == w[|w| - 1] && w[|w| - 1] in w;
  }

  /** Blanks behind the last segment stay in the cleaned path. */
  lemma TrailShows(t: string, w: string)
    requires w != "" && Blank(w)
    ensures Stack(Split(t + w, '/'), false) != Stack(Split(t, '/'), false)
  {
    BlanksSplit(w);
    SplitOfAppended(t, w);
    var segs := Split(t, '/');
    var front, last := segs[..|segs| - 1], segs[|segs| - 1];
    BlankEndNames(last, w);
    PushShows(Stack(front, false), last, last + w);
    assert (front + [last + w])[..|front|] == front;
  }

  /** The stored module leads where the checked one does exactly when trimming it changed nothing. */
  lemma TrimmingShows(path: string)
    requires ValidModulePath(path)
    ensures Clean(path) == Clean(TrimSpace(path)) <==> path == TrimSpace(path)
  {
    var p := TrimSpace(path);
    ModuleStaysInPackage(path);
    assert path in {path, p} && p in {path, p};
    TrimTakesBlanks(path);
    var lead, trail := Lead(path), Trail(path);
    if Clean(path) == Clean(p) {
      LeadShows(path);
      if HasTwoDots(path) {
        DotsAreKept(path);
      }
      SameCleanSameStack(path, p);
      if lead == "" && trail != "" {
        assert path == p + trail;
        TrailShows(p, trail);
      }
    }
  }

  /** Blanks before the first segment stay in the cleaned path. */
  lemma LeadShows(path: string)
    requires ValidModulePath(path)
    ensures
      var s, t := Stack(Split(path, '/'), false), Stack(Split(TrimSpace(path), '/'), false);
      s != [] && t != [] && (Lead(path) != "" ==> s != t)
  {
    var p := TrimSpace(path);
    FirstSegmentIsPlain(path);
    FirstSegmentGrows(path);
    if HasTwoDots(path) {
      DotsAreKept(path);
    }
    NoDotsNoClimb(path);
    NoDotsNoClimb(p);
    StackKeepsFirst(Split(path, '/'));
    StackKeepsFirst(Split(p, '/'));
  }

  lemma FirstSegmentGrows(path: string)
    requires IsPlain(Split(TrimSpace(path), '/')[0])
    ensures
      var first := Split(path, '/')[0];
      IsPlain(first) && (Lead(path) != "" ==> first != Split(TrimSpace(path), '/')[0])
  {
    var p := TrimSpace(path);
    var lead, trail := Lead(path), Trail(path);
    TrimTakesBlanks(path);
    BlanksSplit(lead);
    BlanksSplit(trail);
    SplitOfAppended(p, trail);
    SplitOfPrepended(lead, p + trail);
    assert path == lead + (p + trail);
    var first := Split(p, '/')[0];
    var rest := if |Split(p, '/')| == 1 then trail else "";
    assert Split(p + trail, '/')[0] == first + rest;
    NamesGrow(lead, first, rest);
  }

  lemma NamesGrow(lead: string, name: string, trail: string)
    requires IsPlain(name) && Blank(lead) && Blank(trail)
    ensures IsPlain(lead + (name + trail)) && (lead != "" ==> lead + (name + trail) != name)
  {
    var all := lead + (name + trail);
    BlanksSplit(lead);
    BlanksSplit(trail);
    if lead != "" {
      assert all[0] == lead[0];
    } else if trail != "" {
      assert all[|all| - 1] == trail[|trail| - 1];
    } else {
      assert all == name;
    }
  }
}
