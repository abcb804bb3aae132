/** The relay registry: forwarding rules by destination, longest-prefix matching, and the per-service persisted lists. */
module Relay {
  import opened Wrappers
  import opened Strings

  datatype RelayRule = RelayRule(service: string, dest: string, source: string)

  // ----- Destinations -----

  /** `normalizeDest`. */
  function NormalizeDest(dest: string): string {
    "/" + Trim(TrimSpace(dest), IsSlash)
  }

  lemma TrimAfterSlash(t: string)
    requires t != "" ==> !IsSlash(t[0]) && !IsSlash(t[|t| - 1])
    ensures Trim("/" + t, IsSlash) == t
  {
    var n := "/" + t;
    assert FirstKept(n, IsSlash, 0) == FirstKept(n, IsSlash, 1);
    assert n[1..] == t;
    if t != "" {
      assert n[|n| - 1] == t[|t| - 1] && n[1] == t[0];
    }
  }

  lemma TrimOfSlashed(n: string)
    requires n != "" && n[0] == '/'
    ensures |Trim(n, IsSlash)| < |n|
  {
    assert FirstKept(n, IsSlash, 0) >= 1;
  }

  lemma {:induction false} FirstKeptAtMost(s: string, cut: char -> bool, i: nat, k: nat)
    requires i <= k < |s| && !cut(s[k])
    ensures FirstKept(s, cut, i) <= k
    decreases |s| - i
  {
    if i < k && cut(s[i]) {
      FirstKeptAtMost(s, cut, i + 1, k);
    }
  }

  lemma {:induction false} LastKeptFrom(s: string, cut: char -> bool, lo: nat, hi: nat)
    requires lo <= hi <= |s|
    ensures LastKept(s, cut, lo, hi) == if LastKept(s, cut, 0, hi) > lo then LastKept(s, cut, 0, hi) else lo
    decreases hi
  {
    if hi > lo && cut(s[hi - 1]) {
      LastKeptFrom(s, cut, lo, hi - 1);
    }
  }

  /** `Trim` and `TrimEnd` end in the same character, and are empty together. */
  lemma TrimEndsAlike(s: string, cut: char -> bool)
    ensures Trim(s, cut) == "" <==> TrimEnd(s, cut) == ""
    ensures TrimEnd(s, cut) != "" ==>
      Trim(s, cut)[|Trim(s, cut)| - 1] == TrimEnd(s, cut)[|TrimEnd(s, cut)| - 1]
  {
    var i, n := FirstKept(s, cut, 0), LastKept(s, cut, 0, |s|);
    LastKeptFrom(s, cut, i, |s|);
    if n > 0 {
      FirstKeptAtMost(s, cut, 0, n - 1);
    }
  }

  /** No blank stands just inside the last slashes of a destination. */
  predicate EndsTight(dest: string) {
    var u := TrimEnd(TrimSpace(dest), IsSlash);
    u == "" || !IsSpace(u[|u| - 1])
  }

  /** Normalising twice is normalising once exactly when no blank stands inside the last slash of the input. */
  lemma NormalizeDestIsStable(dest: string)
    ensures NormalizeDest(NormalizeDest(dest)) == NormalizeDest(dest) <==> EndsTight(dest)
  {
    var t := Trim(TrimSpace(dest), IsSlash);
    var n := "/" + t;
    TrimEndsAlike(TrimSpace(dest), IsSlash);
    if t == "" || !IsSpace(t[|t| - 1]) {
      assert n[|n| - 1] == if t == "" then '/' else t[|t| - 1];
      TrimOfTight(n, IsSpace);
      TrimAfterSlash(t);
    } else {
      assert IsSpace(n[|n| - 1]) && !IsSpace(n[0]);
      BlankEndIsCut(n);
      TrimOfSlashed(TrimSpace(n));
    }
  }

  lemma BlankEndIsCut(n: string)
    requires n != "" && n[0] == '/' && IsSpace(n[|n| - 1])
    ensures TrimSpace(n) != "" && TrimSpace(n)[0] == '/' && |TrimSpace(n)| < |n|
  {
    assert FirstKept(n, IsSpace, 0) == 0;
    var k := LastKept(n, IsSpace, 0, |n|);
    assert k == LastKept(n, IsSpace, 0, |n| - 1);
    KeptAtLeast(n, |n| - 1);
  }

  lemma {:induction false} KeptAtLeast(n: string, hi: nat)
    requires 1 <= hi <= |n| && !IsSpace(n[0])
    ensures LastKept(n, IsSpace, 0, hi) >= 1
  {
    if hi > 1 {
      KeptAtLeast(n, hi - 1);
    }
  }

  /** A destination whose normal form is not its own normal form. */
  lemma NormalizeDestNeedNotBeStable()
    ensures NormalizeDest(NormalizeDest("a /")) != NormalizeDest("a /")
  {
    var d := "a /";
    TrimOfTight(d, IsSpace);
    assert LastKept(d, IsSlash, 0, 3) == LastKept(d, IsSlash, 0, 2) == 2;
    assert TrimEnd(d, IsSlash) == "a ";
    NormalizeDestIsStable(d);
  }

  // ----- Matching -----

  /** The path is the destination or lies below it. */
  predicate Covers(dest: string, path: string) {
    path == dest || HasPrefix(path, dest + "/")
  }

  /** The rule to use for a path: a covering one that no covering destination is longer than. */
  ghost predicate IsBest(rules: map<string, RelayRule>, path: string, best: RelayRule) {
    && best.dest in rules && rules[best.dest] == best && Covers(best.dest, path)
    && forall d :: d in rules && Covers(d, path) ==> |d| <= |best.dest|
  }

  ghost predicate KeyedByDest(rules: map<string, RelayRule>) {
    forall d :: d in rules ==> rules[d].dest == d && d != "" && rules[d].source != ""
  }

  lemma CoversIsSegmentPrefix(dest: string, path: string)
    ensures Covers(dest, path) <==> Split(dest, '/') <= Split(path, '/')
  {
    SplitPrefix(dest, path, '/');
    assert dest + "/" == dest + ['/'];
  }

  lemma LongerCoversMoreSegments(a: string, b: string, path: string)
    requires Covers(a, path) && Covers(b, path) && |a| < |b|
    ensures |Split(a, '/')| < |Split(b, '/')|
  {
    CoversIsSegmentPrefix(a, path);
    CoversIsSegmentPrefix(b, path);
    CoversIsSegmentPrefix(b, a);
  }

  lemma OneCoverPerLength(a: string, b: string, path: string)
    requires Covers(a, path) && Covers(b, path) && |a| == |b|
    ensures a == b
  {
    assert a == path[..|a|] && b == path[..|b|];
  }

  /**
   * The best rule is the one whose destination is the longest segment-list
   * prefix of the path; every other covering destination has fewer segments.
   */
  lemma BestIsLongestSegmentPrefix(rules: map<string, RelayRule>, path: string, best: RelayRule, d: string)
    requires IsBest(rules, path, best) && d in rules
    ensures Split(best.dest, '/') <= Split(path, '/')
    ensures Split(d, '/') <= Split(path, '/') && d != best.dest ==> |Split(d, '/')| < |Split(best.dest, '/')|
  {
    CoversIsSegmentPrefix(best.dest, path);
    CoversIsSegmentPrefix(d, path);
    if Covers(d, path) && d != best.dest {
      if |d| < |best.dest| {
        LongerCoversMoreSegments(d, best.dest, path);
      } else {
        OneCoverPerLength(d, best.dest, path);
      }
    }
  }

  /** There is at most one best rule, so the map's iteration order cannot show. */
  lemma BestIsUnique(rules: map<string, RelayRule>, path: string, a: RelayRule, b: RelayRule)
    requires IsBest(rules, path, a) && IsBest(rules, path, b)
    ensures a == b
  {
    OneCoverPerLength(a.dest, b.dest, path);
  }

  // ----- The registry and its persisted lists -----

  predicate ValidEntry(r: RelayRule) {
    r.dest != "" && r.source != ""
  }

  function WithoutService(rules: map<string, RelayRule>, service: string): map<string, RelayRule> {
    map d | d in rules && rules[d].service != service :: rules[d]
  }

  /** The valid entries entered one after the other under one service. */
  function Placed(rules: map<string, RelayRule>, service: string, list: seq<RelayRule>): map<string, RelayRule> {
    if list == [] then rules
    else
      var before, last := Placed(rules, service, list[..|list| - 1]), list[|list| - 1];
      if ValidEntry(last) then before[last.dest := RelayRule(service, last.dest, last.source)] else before
  }

  /** A persisted list of one service: its rules in memory, in some order, each once. */
  ghost predicate IsListing(rules: map<string, RelayRule>, service: string, list: seq<RelayRule>) {
    && (forall r :: r in list ==> r.service == service && r.dest in rules && rules[r.dest] == r)
    && (forall d :: d in rules && rules[d].service == service ==> rules[d] in list)
    && (forall i, j :: 0 <= i < j < |list| ==> list[i].dest != list[j].dest)
  }

  /** Service names `Load` accepts. */
  predicate Loadable(service: string) {
    service != "" && ':' !in service
  }

  /** `Load` over the scanned service names; a scan may report a name more than once. */
  function Loaded(rules: map<string, RelayRule>, store: map<string, seq<RelayRule>>, scan: seq<string>): map<string, RelayRule> {
    if scan == [] then rules
    else
      var before, s := Loaded(rules, store, scan[..|scan| - 1]), scan[|scan| - 1];
      if Loadable(s) && s in store then Placed(before, s, store[s]) else before
  }

  datatype State = State(rules: map<string, RelayRule>, store: map<string, seq<RelayRule>>)

  datatype Op = Upsert(service: string, list: seq<RelayRule>) | Delete(service: string, dest: string)

  predicate Hits(rules: map<string, RelayRule>, service: string, dest: string) {
    dest in rules && rules[dest].service == service
  }

  /** One registry call; the order of the list it persists is left open. */
  ghost predicate Next(s: State, op: Op, s': State) {
    match op
    case Upsert(service, list) =>
      && s'.rules == Placed(WithoutService(s.rules, service), service, list)
      && Persisted(s, service, s')
    case Delete(service, dest) =>
      if Hits(s.rules, service, dest) then s'.rules == s.rules - {dest} && Persisted(s, service, s')
      else s' == s
  }

  ghost predicate Persisted(s: State, service: string, s': State) {
    service in s'.store && IsListing(s'.rules, service, s'.store[service]) && s'.store == s.store[service := s'.store[service]]
  }

  class Registry {
    var rules: map<string, RelayRule>
    var store: map<string, seq<RelayRule>>

    ghost predicate Valid()
      reads this
    {
      KeyedByDest(rules)
    }

    ghost function View(): State
      reads this
    {
      State(rules, store)
    }

    constructor (store: map<string, seq<RelayRule>>)
      ensures Valid() && rules == map[] && this.store == store
    {
      rules, this.store := map[], store;
    }

    method UpsertRules(service: string, list: seq<RelayRule>)
      requires Valid()
      modifies this
      ensures Valid() && Next(old(View()), Upsert(service, list), View())
    {
      RemoveService(service);
      for i := 0 to |list|
        invariant Valid() && store == old(store)
        invariant rules == Placed(WithoutService(old(rules), service), service, list[..i])
      {
        assert list[..i + 1][..i] == list[..i];
        var rule := list[i];
        if rule.dest == "" || rule.source == "" {
          continue;
        }
        rules := rules[rule.dest := rule.(service := service)];
      }
      assert list[..|list|] == list;
      Persist(service);
    }

    /** The delete loop over the map. */
    method RemoveService(service: string)
      modifies this`rules
      ensures rules == WithoutService(old(rules), service)
    {
      var left := rules.Keys;
      ghost var all := rules;
      while left != {}
        invariant left <= all.Keys
        invariant rules == map d | d in all && !(d !in left && all[d].service == service) :: all[d]
        decreases |left|
      {
        var dest :| dest in left;
        if rules[dest].service == service {
          rules := rules - {dest};
        }
        left := left - {dest};
      }
    }

    /** `persist`: collects the service's rules from the map in whatever order it yields them. */
    method Persist(service: string)
      requires Valid()
      modifies this`store
      ensures Persisted(State(rules, old(store)), service, View())
    {
      var stored: seq<RelayRule> := [];
      var left := rules.Keys;
      while left != {}
        invariant left <= rules.Keys
        invariant forall r :: r in stored ==> r.service == service && r.dest in rules && r.dest !in left && rules[r.dest] == r
        invariant forall d :: d in rules && d !in left && rules[d].service == service ==> rules[d] in stored
        invariant forall i, j :: 0 <= i < j < |stored| ==> stored[i].dest != stored[j].dest
        decreases |left|
      {
        var dest :| dest in left;
        if rules[dest].service == service {
          stored := stored + [RelayRule(service, dest, rules[dest].source)];
        }
        left := left - {dest};
      }
      store := store[service := stored];
    }

    method DeleteRule(service: string, dest: string) returns (hit: bool)
      requires Valid()
      modifies this
      ensures Valid() && hit == Hits(old(rules), service, dest)
      ensures Next(old(View()), Delete(service, dest), View())
    {
      if dest !in rules || rules[dest].service != service {
        return false;
      }
      rules := rules - {dest};
      Persist(service);
      return true;
    }

    /** `Load`, over the names a scan of the store reports. */
    method Load(scan: seq<string>)
      requires Valid()
      modifies this`rules
      ensures Valid() && rules == Loaded(old(rules), store, scan)
    {
      for i := 0 to |scan|
        invariant Valid() && rules == Loaded(old(rules), store, scan[..i])
      {
        assert scan[..i + 1][..i] == scan[..i];
        var service := scan[i];
        if service == "" || ':' in service || service !in store {
          continue;
        }
        LoadList(service, store[service]);
      }
      assert scan[..|scan|] == scan;
    }

    method LoadList(service: string, list: seq<RelayRule>)
      requires Valid()
      modifies this`rules
      ensures Valid() && rules == Placed(old(rules), service, list)
    {
      for i := 0 to |list|
        invariant Valid() && rules == Placed(old(rules), service, list[..i])
      {
        assert list[..i + 1][..i] == list[..i];
        if list[i].dest == "" || list[i].source == "" {
          continue;
        }
        rules := rules[list[i].dest := list[i].(service := service)];
      }
      assert list[..|list|] == list;
    }

    /** `Match`: the rule for a path and what follows its destination. */
    method Match(path: string) returns (r: Option<(RelayRule, string)>)
      requires Valid()
      ensures r.None? <==> forall d :: d in rules ==> !Covers(d, path)
      ensures r.Some? ==> IsBest(rules, path, r.value.0)
      ensures r.Some? ==> path == r.value.0.dest + r.value.1 && (r.value.1 == "" || r.value.1[0] == '/')
    {
      var best, bestRest := RelayRule("", "", ""), "";
      var bestLen := -1;
      var left := rules.Keys;
      while left != {}
        invariant left <= rules.Keys && bestLen >= -1
        invariant bestLen < 0 ==> forall d :: d in rules && d !in left ==> !Covers(d, path)
        invariant bestLen >= 0 ==> best.dest in rules && rules[best.dest] == best && |best.dest| == bestLen
        invariant bestLen >= 0 ==> Covers(best.dest, path) && bestRest == path[bestLen..]
        invariant bestLen >= 0 ==> forall d :: d in rules && d !in left && Covers(d, path) ==> |d| <= bestLen
        decreases |left|
      {
        var key :| key in left;
        left := left - {key};
        var dest := rules[key].dest;
        var rest := "";
        if path == dest {
          rest := "";
        } else if HasPrefix(path, dest + "/") {
          rest := path[|dest|..];
        } else {
          continue;
        }
        if |dest| > bestLen {
          best, bestRest, bestLen := rules[key], rest, |dest|;
        }
      }
      if bestLen < 0 {
        return None;
      }
      return Some((best, bestRest));
    }
  }
}
