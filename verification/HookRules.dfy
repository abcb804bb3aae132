/** Hook rules: their normal form, the paths they match, and the order they run in. */
module HookRules {
  import opened Wrappers
  import opened Strings

  datatype HookRule = HookRule(
    service: string, paths: seq<string>, phase: string, capability: string, priority: int,
    failPolicy: string, patchAllowlist: seq<string>, url: string)

  const OBSERVE := "observe"
  const PATCH := "patch"
  const VETO := "veto"
  const IGNORE := "ignore"
  const FAIL_OPEN := "fail_open"
  const FAIL_CLOSED := "fail_closed"
  const PASSWORD := "auth.password"
  const PASSWORD_ENCODING := "auth.password_encoding"
  const RISK_TAGS := "auth.risk_tags"
  const REQUIRED_SECOND_FACTOR := "auth.required_second_factor"

  predicate ValidPhase(s: string) {
    s == "auth.input" || s == "auth.risk" || s == "auth.post_verify"
  }

  predicate ValidCapability(s: string) {
    s == OBSERVE || s == PATCH || s == VETO
  }

  predicate ValidFailPolicy(s: string) {
    s == IGNORE || s == FAIL_OPEN || s == FAIL_CLOSED
  }

  predicate ValidPatchField(s: string) {
    s == PASSWORD || s == PASSWORD_ENCODING || s == RISK_TAGS || s == REQUIRED_SECOND_FACTOR
  }

  // ----- Path patterns -----

  /** A trimmed pattern ending in `*` matches by prefix, any other non-empty one by equality. */
  predicate PatternMatches(pattern: string, path: string) {
    && pattern != ""
    && if pattern[|pattern| - 1] == '*' then HasPrefix(path, pattern[..|pattern| - 1]) else path == pattern
  }

  predicate PathMatches(paths: seq<string>, path: string) {
    exists i :: 0 <= i < |paths| && PatternMatches(TrimSpace(paths[i]), path)
  }

  /** `HookRule.MatchPath`. */
  method MatchPath(rule: HookRule, path: string) returns (matches: bool)
    ensures matches <==> PathMatches(rule.paths, path)
  {
    for i := 0 to |rule.paths|
      invariant forall j :: 0 <= j < i ==> !PatternMatches(TrimSpace(rule.paths[j]), path)
    {
      var p := TrimSpace(rule.paths[i]);
      if p == "" {
        continue;
      }
      if p[|p| - 1] == '*' {
        if HasPrefix(path, p[..|p| - 1]) {
          return true;
        }
        continue;
      }
      if path == p {
        return true;
      }
    }
    return false;
  }

  // ----- Normal form -----

  /** A trimmed path with its leading slash; "" when nothing is left of it. */
  function CleanPath(path: string): string {
    var p := TrimSpace(path);
    if p == "" || p[0] == '/' then p else "/" + p
  }

  /** The non-empty results of `f`, in order. */
  function Kept(items: seq<string>, f: string -> string): seq<string> {
    if items == [] then []
    else
      var y := f(items[|items| - 1]);
      Kept(items[..|items| - 1], f) + if y == "" then [] else [y]
  }

  lemma {:induction false} KeptAgain(items: seq<string>, f: string -> string)
    requires forall x :: x in items ==> x != "" && f(x) == x
    ensures Kept(items, f) == items
  {
    if items != [] {
      var n := |items| - 1;
      assert items == items[..n] + [items[n]];
      assert forall x :: x in items[..n] ==> x in items;
      KeptAgain(items[..n], f);
    }
  }

  lemma {:induction false} KeptMembers(items: seq<string>, f: string -> string)
    ensures forall y :: y in Kept(items, f) ==> y != "" && exists x :: x in items && f(x) == y
  {
    if items != [] {
      var n := |items| - 1;
      assert items == items[..n] + [items[n]];
      KeptMembers(items[..n], f);
    }
  }

  function CleanPaths(paths: seq<string>): seq<string> {
    Kept(paths, CleanPath)
  }

  function CleanAllowlist(fields: seq<string>): seq<string> {
    KeptOnce(fields, TrimSpace, ValidPatchField)
  }

  /** Every cleaned path starts with a slash and ends in no blank. */
  lemma CleanPathsShape(paths: seq<string>, p: string)
    requires p in CleanPaths(paths)
    ensures p != "" && p[0] == '/' && !IsSpace(p[|p| - 1])
  {
    KeptMembers(paths, CleanPath);
    var x :| x in paths && CleanPath(x) == p;
  }

  /** The cleaned allowlist holds exactly the known fields mentioned, once each. */
  lemma CleanAllowlistShape(fields: seq<string>)
    ensures AllDistinct(CleanAllowlist(fields))
    ensures forall f :: f in CleanAllowlist(fields) <==> ValidPatchField(f) && exists x :: x in fields && TrimSpace(x) == f
  {
    KeptOnceMembers(fields, TrimSpace, ValidPatchField);
  }

  function NormalForm(rule: HookRule, service: string): HookRule {
    var policy := TrimSpace(rule.failPolicy);
    HookRule(service, CleanPaths(rule.paths), TrimSpace(rule.phase), TrimSpace(rule.capability), rule.priority,
             if policy == "" then IGNORE else policy, CleanAllowlist(rule.patchAllowlist), TrimSpace(rule.url))
  }

  predicate Acceptable(r: HookRule) {
    && r.url != "" && ValidPhase(r.phase) && ValidCapability(r.capability) && ValidFailPolicy(r.failPolicy)
    && r.paths != [] && (r.capability == PATCH ==> r.patchAllowlist != [])
  }

  function Normalized(rule: HookRule, service: string): Option<HookRule> {
    if Acceptable(NormalForm(rule, service)) then Some(NormalForm(rule, service)) else None
  }

  /** `normalizeHookRule`. */
  method NormalizeHookRule(rule: HookRule, service: string) returns (r: Option<HookRule>)
    ensures r == Normalized(rule, service)
  {
    var phase, capability := TrimSpace(rule.phase), TrimSpace(rule.capability);
    var failPolicy, url := TrimSpace(rule.failPolicy), TrimSpace(rule.url);
    if url == "" || !ValidPhase(phase) || !ValidCapability(capability) {
      return None;
    }
    if failPolicy == "" {
      failPolicy := IGNORE;
    }
    if !ValidFailPolicy(failPolicy) {
      return None;
    }
    r := NormalizeLists(rule, HookRule(service, [], phase, capability, rule.priority, failPolicy, [], url));
    assert NormalForm(rule, service) == HookRule(service, CleanPaths(rule.paths), phase, capability, rule.priority,
                                              failPolicy, CleanAllowlist(rule.patchAllowlist), url);
  }

  /** The second half of `normalizeHookRule`: the path list and the patch allowlist. */
  method NormalizeLists(rule: HookRule, head: HookRule) returns (r: Option<HookRule>)
    ensures var paths, allowlist := CleanPaths(rule.paths), CleanAllowlist(rule.patchAllowlist);
      r == if paths != [] && (head.capability == PATCH ==> allowlist != [])
           then Some(head.(paths := paths, patchAllowlist := allowlist)) else None
  {
    var cleanPaths := NormalizePaths(rule.paths);
    if |cleanPaths| == 0 {
      return None;
    }
    var allowlist := NormalizeAllowlist(rule.patchAllowlist);
    if head.capability == PATCH && |allowlist| == 0 {
      return None;
    }
    return Some(head.(paths := cleanPaths, patchAllowlist := allowlist));
  }

  method NormalizePaths(paths: seq<string>) returns (cleanPaths: seq<string>)
    ensures cleanPaths == CleanPaths(paths)
  {
    cleanPaths := [];
    for i := 0 to |paths|
      invariant cleanPaths == CleanPaths(paths[..i])
    {
      assert paths[..i + 1][..i] == paths[..i];
      var path := TrimSpace(paths[i]);
      if path == "" {
        continue;
      }
      if !HasPrefix(path, "/") {
        path := "/" + path;
      }
      cleanPaths := cleanPaths + [path];
    }
    assert paths[..|paths|] == paths;
  }

  method NormalizeAllowlist(fields: seq<string>) returns (allowlist: seq<string>)
    ensures allowlist == CleanAllowlist(fields)
  {
    allowlist := [];
    var seen: set<string> := {};
    for i := 0 to |fields|
      invariant allowlist == CleanAllowlist(fields[..i])
      invariant forall f :: f in seen <==> f in allowlist
    {
      assert fields[..i + 1][..i] == fields[..i];
      var field := TrimSpace(fields[i]);
      if field == "" || !ValidPatchField(field) {
        continue;
      }
      if field in seen {
        continue;
      }
      seen := seen + {field};
      allowlist := allowlist + [field];
    }
    assert fields[..|fields|] == fields;
  }

  // Normalising again changes nothing.

  lemma CleanPathAgain(p: string)
    requires p != "" && p[0] == '/' && !IsSpace(p[|p| - 1])
    ensures CleanPath(p) == p
  {
    TrimOfTight(p, IsSpace);
  }

  lemma CleanPathsAgain(paths: seq<string>)
    ensures CleanPaths(CleanPaths(paths)) == CleanPaths(paths)
  {
    forall p | p in CleanPaths(paths) ensures p != "" && CleanPath(p) == p {
      CleanPathsShape(paths, p);
      CleanPathAgain(p);
    }
    KeptAgain(CleanPaths(paths), CleanPath);
  }

  lemma PatchFieldsAreTight(f: string)
    requires ValidPatchField(f)
    ensures TrimSpace(f) == f
  {
    TrimOfTight(f, IsSpace);
  }

  lemma CleanAllowlistAgain(fields: seq<string>)
    ensures CleanAllowlist(CleanAllowlist(fields)) == CleanAllowlist(fields)
  {
    CleanAllowlistShape(fields);
    forall f | f in CleanAllowlist(fields) ensures TrimSpace(f) == f {
      PatchFieldsAreTight(f);
    }
    KeptOnceAgain(CleanAllowlist(fields), TrimSpace, ValidPatchField);
  }

  lemma IgnoreIsTight()
    ensures TrimSpace(IGNORE) == IGNORE
  {
    TrimOfTight(IGNORE, IsSpace);
  }

  lemma NormalFormIsStable(rule: HookRule, service: string)
    requires Acceptable(NormalForm(rule, service))
    ensures NormalForm(NormalForm(rule, service), service) == NormalForm(rule, service)
  {
    var r := NormalForm(rule, service);
    CleanPathsAgain(rule.paths);
    CleanAllowlistAgain(rule.patchAllowlist);
    TrimIsIdempotent(rule.phase, IsSpace);
    TrimIsIdempotent(rule.capability, IsSpace);
    TrimIsIdempotent(rule.url, IsSpace);
    TrimIsIdempotent(rule.failPolicy, IsSpace);
    IgnoreIsTight();
  }

  // ----- Run order -----

  /** Lower priority first, then service name; equal on both means registration order decides. */
  predicate RunsBefore(a: HookRule, b: HookRule) {
    if a.priority == b.priority then Less(a.service, b.service) else a.priority < b.priority
  }

  predicate SameRank(a: HookRule, b: HookRule) {
    a.priority == b.priority && a.service == b.service
  }

  lemma RunsBeforeIsAnOrder(a: HookRule, b: HookRule, c: HookRule)
    ensures RunsBefore(a, b) || SameRank(a, b) || RunsBefore(b, a)
    ensures !(RunsBefore(a, b) && RunsBefore(b, a))
    ensures SameRank(a, b) ==> !RunsBefore(a, b)
    ensures RunsBefore(a, b) && RunsBefore(b, c) ==> RunsBefore(a, c)
  {
    LessIsTotal(a.service, b.service);
    if Less(a.service, b.service) && Less(b.service, c.service) {
      LessIsTransitive(a.service, b.service, c.service);
    }
  }

  ghost predicate InRunOrder(s: seq<HookRule>) {
    forall i, j :: 0 <= i < j < |s| ==> !RunsBefore(s[j], s[i])
  }

  /** The rules of one priority and service, in the order they stand. */
  function Rank(s: seq<HookRule>, priority: int, service: string): seq<HookRule> {
    if s == [] then []
    else
      var last := s[|s| - 1];
      Rank(s[..|s| - 1], priority, service)
        + if last.priority == priority && last.service == service then [last] else []
  }

  lemma {:induction false} RankOfConcat(a: seq<HookRule>, b: seq<HookRule>, priority: int, service: string)
    ensures Rank(a + b, priority, service) == Rank(a, priority, service) + Rank(b, priority, service)
  {
    if b == [] {
      assert a + b == a;
    } else {
      var n := |b| - 1;
      RankOfConcat(a, b[..n], priority, service);
      assert (a + b)[..|a + b| - 1] == a + b[..n];
    }
  }

  lemma {:induction false} RankOfOthers(s: seq<HookRule>, priority: int, service: string)
    requires forall r :: r in s ==> r.priority != priority || r.service != service
    ensures Rank(s, priority, service) == []
  {
    if s != [] {
      assert s[|s| - 1] in s;
      RankOfOthers(s[..|s| - 1], priority, service);
    }
  }

  lemma {:induction false} RankMembers(s: seq<HookRule>, priority: int, service: string)
    ensures forall r :: r in Rank(s, priority, service) <==> r in s && r.priority == priority && r.service == service
  {
    if s != [] {
      RankMembers(s[..|s| - 1], priority, service);
      assert s == s[..|s| - 1] + [s[|s| - 1]];
    }
  }

  ghost predicate SameRanks(a: seq<HookRule>, b: seq<HookRule>) {
    forall priority, service :: Rank(a, priority, service) == Rank(b, priority, service)
  }

  lemma LastIsLatest(s: seq<HookRule>, r: HookRule)
    requires InRunOrder(s) && r in s
    ensures !RunsBefore(s[|s| - 1], r)
  {
    RunsBeforeIsAnOrder(r, r, r);
  }

  lemma LastOfRank(s: seq<HookRule>)
    requires s != []
    ensures
      var x := s[|s| - 1];
      var rank := Rank(s, x.priority, x.service);
      rank != [] && rank[|rank| - 1] == x
  {
  }

  /** Two lists in run order with the same ranks end in the same rule. */
  lemma SameLast(a: seq<HookRule>, b: seq<HookRule>)
    requires a != [] && b != [] && InRunOrder(a) && InRunOrder(b) && SameRanks(a, b)
    ensures a[|a| - 1] == b[|b| - 1]
  {
    var x, y := a[|a| - 1], b[|b| - 1];
    InTheOther(a, b);
    InTheOther(b, a);
    LastIsLatest(a, y);
    LastIsLatest(b, x);
    RunsBeforeIsAnOrder(x, y, x);
    assert x.priority == y.priority && x.service == y.service;
    LastOfRank(a);
    LastOfRank(b);
    assert Rank(a, x.priority, x.service) == Rank(b, x.priority, x.service);
  }

  lemma InTheOther(a: seq<HookRule>, b: seq<HookRule>)
    requires a != [] && SameRanks(a, b)
    ensures a[|a| - 1] in b
  {
    var x := a[|a| - 1];
    RankMembers(a, x.priority, x.service);
    RankMembers(b, x.priority, x.service);
    assert Rank(a, x.priority, x.service) == Rank(b, x.priority, x.service);
  }

  lemma EmptyTogether(a: seq<HookRule>, b: seq<HookRule>)
    requires SameRanks(a, b)
    ensures a == [] <==> b == []
  {
    if a != [] {
      InTheOther(a, b);
    }
    if b != [] {
      InTheOther(b, a);
    }
  }

  lemma RankWithoutLast(a: seq<HookRule>, b: seq<HookRule>, p: int, s: string)
    requires a != [] && b != [] && a[|a| - 1] == b[|b| - 1] && Rank(a, p, s) == Rank(b, p, s)
    ensures Rank(a[..|a| - 1], p, s) == Rank(b[..|b| - 1], p, s)
  {
    var x := a[|a| - 1];
    var mine := if x.priority == p && x.service == s then [x] else [];
    var k := |Rank(a, p, s)| - |mine|;
    assert Rank(a[..|a| - 1], p, s) == Rank(a, p, s)[..k];
    assert Rank(b[..|b| - 1], p, s) == Rank(b, p, s)[..k];
  }

  /** In run order with given ranks, a list of rules is determined to the last position. */
  lemma {:induction false} RunOrderIsUnique(a: seq<HookRule>, b: seq<HookRule>)
    requires InRunOrder(a) && InRunOrder(b) && SameRanks(a, b)
    ensures a == b
    decreases |a|
  {
    EmptyTogether(a, b);
    if a != [] {
      SameLast(a, b);
      var front, front' := a[..|a| - 1], b[..|b| - 1];
      forall p, s | true ensures Rank(front, p, s) == Rank(front', p, s) {
        RankWithoutLast(a, b, p, s);
      }
      RunOrderIsUnique(front, front');
      assert a == a[..|a| - 1] + [a[|a| - 1]] && b == b[..|b| - 1] + [b[|b| - 1]];
    }
  }

  /** Stable insertion: behind every rule that does not run after the new one. */
  method InsertStable(s: seq<HookRule>, x: HookRule) returns (r: seq<HookRule>)
    requires InRunOrder(s)
    ensures InRunOrder(r) && SameRanks(r, s + [x])
  {
    var j := |s|;
    while j > 0 && RunsBefore(x, s[j - 1])
      invariant 0 <= j <= |s|
      invariant forall k :: j <= k < |s| ==> RunsBefore(x, s[k])
    {
      j := j - 1;
    }
    r := s[..j] + [x] + s[j..];
    InsertedInOrder(s, x, j);
    forall p, v | true ensures Rank(r, p, v) == Rank(s + [x], p, v) {
      InsertedRanks(s, x, j, p, v);
    }
  }

  lemma InsertedInOrder(s: seq<HookRule>, x: HookRule, j: nat)
    requires InRunOrder(s) && j <= |s|
    requires forall k :: j <= k < |s| ==> RunsBefore(x, s[k])
    requires j > 0 ==> !RunsBefore(x, s[j - 1])
    ensures InRunOrder(s[..j] + [x] + s[j..])
  {
    forall k | 0 <= k < j ensures !RunsBefore(x, s[k]) {
      RunsBeforeIsAnOrder(x, s[k], s[j - 1]);
      RunsBeforeIsAnOrder(s[k], s[j - 1], s[k]);
      RunsBeforeIsAnOrder(x, s[j - 1], x);
    }
    forall k | j <= k < |s| ensures !RunsBefore(s[k], x) {
      RunsBeforeIsAnOrder(x, s[k], x);
    }
  }

  lemma NoneOfRank(b: seq<HookRule>, x: HookRule)
    requires forall r :: r in b ==> RunsBefore(x, r)
    ensures Rank(b, x.priority, x.service) == []
  {
    forall r | r in b ensures r.priority != x.priority || r.service != x.service {
      RunsBeforeIsAnOrder(x, r, x);
    }
    RankOfOthers(b, x.priority, x.service);
  }

  lemma OneIsOfNoOtherRank(b: seq<HookRule>, x: HookRule, p: int, v: string)
    requires forall r :: r in b ==> RunsBefore(x, r)
    ensures Rank(b, p, v) == [] || Rank([x], p, v) == []
  {
    if x.priority == p && x.service == v {
      NoneOfRank(b, x);
    } else {
      RankOfOthers([x], p, v);
    }
  }

  lemma SwapEmpty<T>(a: seq<T>, b: seq<T>, c: seq<T>)
    requires b == [] || c == []
    ensures a + c + b == a + b + c
  {
  }

  lemma RankOfThree(a: seq<HookRule>, b: seq<HookRule>, c: seq<HookRule>, p: int, v: string)
    ensures Rank(a + b + c, p, v) == Rank(a, p, v) + Rank(b, p, v) + Rank(c, p, v)
  {
    RankOfConcat(a + b, c, p, v);
    RankOfConcat(a, b, p, v);
  }

  lemma InsertedRanks(s: seq<HookRule>, x: HookRule, j: nat, p: int, v: string)
    requires j <= |s| && forall k :: j <= k < |s| ==> RunsBefore(x, s[k])
    ensures Rank(s[..j] + [x] + s[j..], p, v) == Rank(s + [x], p, v)
  {
    var a, b := s[..j], s[j..];
    assert s == a + b;
    RankOfThree(a, [x], b, p, v);
    RankOfThree(a, b, [x], p, v);
    OneIsOfNoOtherRank(b, x, p, v);
    SwapEmpty(Rank(a, p, v), Rank(b, p, v), Rank([x], p, v));
  }

  /** What `sort.SliceStable` promises of the hook comparison. */
  method SortStable(s: seq<HookRule>) returns (r: seq<HookRule>)
    ensures InRunOrder(r) && SameRanks(r, s)
  {
    r := [];
    for i := 0 to |s|
      invariant InRunOrder(r) && SameRanks(r, s[..i])
    {
      ghost var before := r;
      r := InsertStable(r, s[i]);
      assert s[..i + 1] == s[..i] + [s[i]];
      forall p, v | true ensures Rank(r, p, v) == Rank(s[..i + 1], p, v) {
        RankOfConcat(before, [s[i]], p, v);
        RankOfConcat(s[..i], [s[i]], p, v);
        assert Rank(r, p, v) == Rank(before + [s[i]], p, v);
        assert Rank(before, p, v) == Rank(s[..i], p, v);
      }
    }
    assert s[..|s|] == s;
  }
}
