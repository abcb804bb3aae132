/** When the persisted relay lists rebuild the registry, and when they do not. */
module RelayReload {
  import opened Relay
  import opened Strings

  /** What every call keeps about the persisted lists, whatever its names and claims. */
  ghost predicate StoreOk(s: State) {
    && KeyedByDest(s.rules)
    && (forall d :: d in s.rules ==> s.rules[d].service in s.store && s.rules[d] in s.store[s.rules[d].service])
    && (forall n :: n in s.store ==> ListOk(n, s.store[n]))
  }

  ghost predicate ListOk(service: string, list: seq<RelayRule>) {
    && (forall r :: r in list ==> r.service == service && ValidEntry(r))
    && (forall i, j :: 0 <= i < j < |list| ==> list[i].dest != list[j].dest)
  }

  ghost predicate Current(s: State, r: RelayRule) {
    r.dest in s.rules && s.rules[r.dest] == r
  }

  /** Every persisted entry that `Load` reads is the rule in memory. */
  ghost predicate NothingStale(s: State) {
    forall n, r :: n in s.store && Loadable(n) && r in s.store[n] ==> Current(s, r)
  }

  /** Every rule is held under a name that `Load` accepts. */
  ghost predicate HoldersLoad(s: State) {
    forall d :: d in s.rules ==> Loadable(s.rules[d].service)
  }

  ghost predicate Scans(store: map<string, seq<RelayRule>>, scan: seq<string>) {
    forall n :: n in scan <==> n in store
  }

  /** Loading into an empty registry gives the rules in memory, whatever the scan order. */
  ghost predicate Reloadable(s: State) {
    forall scan :: Scans(s.store, scan) ==> Loaded(map[], s.store, scan) == s.rules
  }

  lemma LastEntry(service: string, list: seq<RelayRule>)
    requires ListOk(service, list) && list != []
    ensures var front, last := list[..|list| - 1], list[|list| - 1];
      && ListOk(service, front) && last.service == service && ValidEntry(last)
      && (forall r :: r in list <==> r in front || r == last)
      && (forall r :: r in front ==> r.dest != last.dest)
  {
    var n := |list| - 1;
    assert list == list[..n] + [list[n]] && list[n] in list;
  }

  lemma {:induction false} PlacedDistinct(rules: map<string, RelayRule>, service: string, list: seq<RelayRule>, d: string)
    requires ListOk(service, list)
    ensures d in Placed(rules, service, list) <==> d in rules || exists r :: r in list && r.dest == d
    ensures forall r :: r in list && r.dest == d ==> Placed(rules, service, list)[d] == r
    ensures d in rules && (forall r :: r in list ==> r.dest != d) ==> Placed(rules, service, list)[d] == rules[d]
  {
    if list != [] {
      var n := |list| - 1;
      var front, last := list[..n], list[n];
      LastEntry(service, list);
      PlacedDistinct(rules, service, front, d);
      assert Placed(rules, service, list) == Placed(rules, service, front)[last.dest := last];
      if d == last.dest {
        assert forall r :: r in list && r.dest == d ==> r == last;
      } else {
        assert forall r :: r in list && r.dest == d ==> r in front;
      }
    }
  }

  /** The rules that come from the lists of the services scanned so far. */
  lemma {:induction false} LoadedIsCurrent(s: State, scan: seq<string>, d: string)
    requires StoreOk(s) && NothingStale(s)
    requires forall n :: n in scan ==> n in s.store
    ensures var l := Loaded(map[], s.store, scan);
      && (d in l ==> d in s.rules && l[d] == s.rules[d])
      && (d in s.rules && s.rules[d].service in scan && Loadable(s.rules[d].service) ==> d in l)
  {
    if scan != [] {
      var n := |scan| - 1;
      assert scan == scan[..n] + [scan[n]] && scan[n] in scan;
      assert forall m :: m in scan[..n] ==> m in scan;
      LoadedIsCurrent(s, scan[..n], d);
      if Loadable(scan[n]) {
        assert ListOk(scan[n], s.store[scan[n]]);
        assert forall r :: r in s.store[scan[n]] ==> Current(s, r);
        PlacedDistinct(Loaded(map[], s.store, scan[..n]), scan[n], s.store[scan[n]], d);
      }
    }
  }

  /** Nothing is loaded under a name that `Load` skips. */
  lemma {:induction false} LoadedHoldersLoad(s: State, scan: seq<string>, d: string)
    requires StoreOk(s)
    ensures var l := Loaded(map[], s.store, scan); d in l ==> Loadable(l[d].service)
  {
    if scan != [] {
      var n := |scan| - 1;
      LoadedHoldersLoad(s, scan[..n], d);
      if Loadable(scan[n]) && scan[n] in s.store {
        assert ListOk(scan[n], s.store[scan[n]]);
        PlacedDistinct(Loaded(map[], s.store, scan[..n]), scan[n], s.store[scan[n]], d);
      }
    }
  }

  lemma FreshListsReload(s: State)
    requires StoreOk(s) && NothingStale(s) && HoldersLoad(s)
    ensures Reloadable(s)
  {
    forall scan | Scans(s.store, scan) ensures Loaded(map[], s.store, scan) == s.rules {
      var l := Loaded(map[], s.store, scan);
      forall d | d in l || d in s.rules ensures d in l && d in s.rules && l[d] == s.rules[d] {
        LoadedIsCurrent(s, scan, d);
      }
    }
  }

  /** A stale entry shows when its service is scanned last. */
  lemma StaleEntryShows(s: State, n: string, r: RelayRule)
    requires StoreOk(s) && n in s.store && Loadable(n) && r in s.store[n] && !Current(s, r)
    ensures !Reloadable(s)
  {
    var rest := SomeOrder(s.store.Keys - {n});
    var scan := rest + [n];
    assert Scans(s.store, scan);
    assert scan[..|scan| - 1] == rest;
    assert ListOk(n, s.store[n]);
    PlacedDistinct(Loaded(map[], s.store, rest), n, s.store[n], r.dest);
    assert Loaded(map[], s.store, scan)[r.dest] == r;
  }

  /** A rule held under a name that `Load` skips is lost in every scan order. */
  lemma SkippedHolderIsLost(s: State, d: string, scan: seq<string>)
    requires StoreOk(s) && d in s.rules && !Loadable(s.rules[d].service) && Scans(s.store, scan)
    ensures Loaded(map[], s.store, scan) != s.rules
  {
    LoadedHoldersLoad(s, scan, d);
  }

  /**
   * The persisted lists rebuild the registry in every scan order exactly when
   * no list that is read is stale and every rule is held under a readable name.
   */
  lemma ReloadIsExact(s: State)
    requires StoreOk(s)
    ensures Reloadable(s) <==> NothingStale(s) && HoldersLoad(s)
  {
    if !NothingStale(s) {
      var n, r :| n in s.store && Loadable(n) && r in s.store[n] && !Current(s, r);
      StaleEntryShows(s, n, r);
    } else if !HoldersLoad(s) {
      var d :| d in s.rules && !Loadable(s.rules[d].service);
      var scan := SomeOrder(s.store.Keys);
      SkippedHolderIsLost(s, d, scan);
      assert Scans(s.store, scan);
    } else {
      FreshListsReload(s);
    }
  }

  // ----- One call -----

  /** No entry of the list names a destination another service holds; a caller can check this first. */
  ghost predicate NoForeignClaim(rules: map<string, RelayRule>, service: string, list: seq<RelayRule>) {
    forall r :: r in list && ValidEntry(r) && r.dest in rules ==> rules[r.dest].service == service
  }

  /** No foreign claim, and no entry to hold under a name that `Load` skips. */
  ghost predicate Safe(rules: map<string, RelayRule>, service: string, list: seq<RelayRule>) {
    NoForeignClaim(rules, service, list) && (Loadable(service) || forall r :: r in list ==> !ValidEntry(r))
  }

  lemma {:induction false} PlacedShape(rules: map<string, RelayRule>, service: string, list: seq<RelayRule>, d: string)
    requires KeyedByDest(rules)
    ensures KeyedByDest(Placed(rules, service, list))
    ensures d in Placed(rules, service, list) <==> d in rules || exists r :: r in list && ValidEntry(r) && r.dest == d
    ensures (exists r :: r in list && ValidEntry(r) && r.dest == d) ==> Placed(rules, service, list)[d].service == service
    ensures d in rules && (forall r :: r in list && ValidEntry(r) ==> r.dest != d) ==>
      Placed(rules, service, list)[d] == rules[d]
  {
    if list != [] {
      var n := |list| - 1;
      assert list == list[..n] + [list[n]];
      PlacedShape(rules, service, list[..n], d);
    }
  }

  lemma PersistKeepsStoreOk(s: State, service: string, s': State)
    requires StoreOk(s) && KeyedByDest(s'.rules) && Persisted(s, service, s')
    requires forall d :: d in s'.rules && s'.rules[d].service != service ==> d in s.rules && s.rules[d] == s'.rules[d]
    ensures StoreOk(s')
  {
  }

  lemma CallKeepsStoreOk(s: State, op: Op, s': State)
    requires StoreOk(s) && Next(s, op, s')
    ensures StoreOk(s')
  {
    match op
    case Upsert(service, list) =>
      var base := WithoutService(s.rules, service);
      PlacedShape(base, service, list, "");
      forall d | d in s'.rules && s'.rules[d].service != service ensures d in s.rules && s.rules[d] == s'.rules[d] {
        PlacedShape(base, service, list, d);
      }
      PersistKeepsStoreOk(s, service, s');
    case Delete(service, dest) =>
      if Hits(s.rules, service, dest) {
        PersistKeepsStoreOk(s, service, s');
      }
  }

  lemma SafeUpsertReloads(s: State, service: string, list: seq<RelayRule>, s': State)
    requires StoreOk(s) && NothingStale(s) && HoldersLoad(s) && Next(s, Upsert(service, list), s')
    requires Safe(s.rules, service, list)
    ensures NothingStale(s') && HoldersLoad(s')
  {
    var base := WithoutService(s.rules, service);
    forall n, r | n in s'.store && Loadable(n) && r in s'.store[n] ensures Current(s', r) {
      if n != service {
        assert n in s.store && Current(s, r) && ListOk(n, s.store[n]);
        PlacedShape(base, service, list, r.dest);
      }
    }
    forall d | d in s'.rules ensures Loadable(s'.rules[d].service) {
      PlacedShape(base, service, list, d);
    }
  }

  lemma UnsafeUpsertDoesNot(s: State, service: string, list: seq<RelayRule>, s': State)
    requires StoreOk(s) && HoldersLoad(s) && Next(s, Upsert(service, list), s')
    requires !Safe(s.rules, service, list)
    ensures !NothingStale(s') || !HoldersLoad(s')
  {
    var base := WithoutService(s.rules, service);
    if NoForeignClaim(s.rules, service, list) {
      var r :| r in list && ValidEntry(r);
      PlacedShape(base, service, list, r.dest);
      assert !Loadable(s'.rules[r.dest].service);
    } else {
      var r :| r in list && ValidEntry(r) && r.dest in s.rules && s.rules[r.dest].service != service;
      var lost := s.rules[r.dest];
      PlacedShape(base, service, list, r.dest);
      assert lost.service in s'.store && lost in s'.store[lost.service];
      assert !Current(s', lost);
    }
  }

  /** From a reloadable registry, an upsert leaves a reloadable one exactly when it is safe. */
  lemma UpsertIsReloadableWhenSafe(s: State, service: string, list: seq<RelayRule>, s': State)
    requires StoreOk(s) && Reloadable(s) && Next(s, Upsert(service, list), s')
    ensures Reloadable(s') <==> Safe(s.rules, service, list)
  {
    CallKeepsStoreOk(s, Upsert(service, list), s');
    ReloadIsExact(s);
    ReloadIsExact(s');
    if Safe(s.rules, service, list) {
      SafeUpsertReloads(s, service, list, s');
    } else {
      UnsafeUpsertDoesNot(s, service, list, s');
    }
  }

  /** A delete always leaves a reloadable registry reloadable. */
  lemma DeleteStaysReloadable(s: State, service: string, dest: string, s': State)
    requires StoreOk(s) && Reloadable(s) && Next(s, Delete(service, dest), s')
    ensures Reloadable(s')
  {
    CallKeepsStoreOk(s, Delete(service, dest), s');
    ReloadIsExact(s);
    ReloadIsExact(s');
    forall n, r | n in s'.store && Loadable(n) && r in s'.store[n] ensures Current(s', r) {
      if n != service {
        assert n in s.store && Current(s, r) && ListOk(n, s.store[n]);
      }
    }
  }

  // ----- Whole runs -----

  ghost predicate IsRun(states: seq<State>, ops: seq<Op>) {
    && |states| == |ops| + 1
    && states[0] == State(map[], map[])
    && forall i :: 0 <= i < |ops| ==> Next(states[i], ops[i], states[i + 1])
  }

  ghost predicate AllSafe(states: seq<State>, ops: seq<Op>)
    requires |states| == |ops| + 1
  {
    forall i :: 0 <= i < |ops| && ops[i].Upsert? ==> Safe(states[i].rules, ops[i].service, ops[i].list)
  }

  /** In every run, whatever is claimed and under whatever names, the same condition decides. */
  lemma {:induction false} RunsReloadExactly(states: seq<State>, ops: seq<Op>)
    requires IsRun(states, ops)
    ensures var last := states[|ops|];
      StoreOk(last) && (Reloadable(last) <==> NothingStale(last) && HoldersLoad(last))
  {
    if ops != [] {
      var n := |ops| - 1;
      RunsReloadExactly(states[..n + 1], ops[..n]);
      CallKeepsStoreOk(states[n], ops[n], states[n + 1]);
    }
    ReloadIsExact(states[|ops|]);
  }

  /**
   * After any run of safe upserts and deletes, loading the persisted lists
   * into an empty registry, in any scan order, gives back exactly the rules
   * in memory.
   */
  lemma {:induction false} RunsReload(states: seq<State>, ops: seq<Op>)
    requires IsRun(states, ops) && AllSafe(states, ops)
    ensures Reloadable(states[|ops|])
  {
    if ops == [] {
      FreshListsReload(states[0]);
    } else {
      var n := |ops| - 1;
      RunsReload(states[..n + 1], ops[..n]);
      RunsReloadExactly(states[..n + 1], ops[..n]);
      match ops[n]
      case Upsert(service, list) => UpsertIsReloadableWhenSafe(states[n], service, list, states[n + 1]);
      case Delete(service, dest) => DeleteStaysReloadable(states[n], service, dest, states[n + 1]);
    }
  }

  /** The first upsert that is not safe breaks it. */
  lemma FirstUnsafeUpsertBreaksReload(states: seq<State>, ops: seq<Op>)
    requires |ops| > 0 && IsRun(states, ops) && ops[|ops| - 1].Upsert?
    requires AllSafe(states[..|ops|], ops[..|ops| - 1])
    requires var last := ops[|ops| - 1]; !Safe(states[|ops| - 1].rules, last.service, last.list)
    ensures !Reloadable(states[|ops|])
  {
    var n := |ops| - 1;
    RunsReload(states[..n + 1], ops[..n]);
    RunsReloadExactly(states[..n + 1], ops[..n]);
    UpsertIsReloadableWhenSafe(states[n], ops[n].service, ops[n].list, states[n + 1]);
  }

  lemma OneRuleIsPersisted(s: State, r: RelayRule)
    requires ValidEntry(r) && forall d :: d in s.rules ==> s.rules[d].service != r.service
    ensures Next(s, Upsert(r.service, [r]), State(s.rules[r.dest := r], s.store[r.service := [r]]))
  {
    PlacedOne(s.rules, r.service, r);
    assert WithoutService(s.rules, r.service) == s.rules;
    var rules := s.rules[r.dest := r];
    assert forall d :: d in rules && rules[d].service == r.service ==> d == r.dest && rules[d] in [r];
    assert IsListing(rules, r.service, [r]);
  }

  predicate ListsOnly(store: map<string, seq<RelayRule>>, r: RelayRule) {
    r.service in store && store[r.service] == [r] && Loadable(r.service) && ValidEntry(r)
  }

  lemma LastScannedWins(store: map<string, seq<RelayRule>>, r: RelayRule, r': RelayRule)
    requires ListsOnly(store, r) && ListsOnly(store, r') && r.dest == r'.dest
    ensures Loaded(map[], store, [r.service, r'.service]) == map[r.dest := r']
  {
    var scan := [r.service, r'.service];
    assert scan[..1] == [r.service] && [r.service][..0] == [];
    PlacedOne(map[], r.service, r);
    assert Loaded(map[], store, [r.service]) == map[r.dest := r];
    PlacedOne(map[r.dest := r], r'.service, r');
  }

  /** Two services that upsert one destination: the first one's persisted list brings its rule back. */
  lemma TwoClaimants()
    ensures
      var ra, rb := RelayRule("a", "/x", "http://a"), RelayRule("b", "/x", "http://b");
      var states := [
        State(map[], map[]),
        State(map["/x" := ra], map["a" := [ra]]),
        State(map["/x" := rb], map["a" := [ra], "b" := [rb]])];
      && IsRun(states, [Upsert("a", [ra]), Upsert("b", [rb])])
      && Loaded(map[], states[2].store, ["b", "a"]) == map["/x" := ra]
      && Loaded(map[], states[2].store, ["a", "b"]) == map["/x" := rb]
  {
    var ra, rb := RelayRule("a", "/x", "http://a"), RelayRule("b", "/x", "http://b");
    var s0 := State(map[], map[]);
    var s1 := State(map["/x" := ra], map["a" := [ra]]);
    var s2 := State(map["/x" := rb], map["a" := [ra], "b" := [rb]]);
    assert "a" != "b";
    OneRuleIsPersisted(s0, ra);
    OneRuleIsPersisted(s1, rb);
    assert s1 == State(s0.rules["/x" := ra], s0.store["a" := [ra]]);
    assert s2 == State(s1.rules["/x" := rb], s1.store["b" := [rb]]);
    LastScannedWins(s2.store, ra, rb);
    LastScannedWins(s2.store, rb, ra);
  }

  /** A service whose name holds a colon: its rule is in force and persisted, and no scan order loads it. */
  lemma ColonNameIsLost(scan: seq<string>)
    ensures
      var r := RelayRule("a:b", "/x", "http://a");
      var states := [State(map[], map[]), State(map["/x" := r], map["a:b" := [r]])];
      && IsRun(states, [Upsert("a:b", [r])])
      && NoForeignClaim(map[], "a:b", [r])
      && (Scans(states[1].store, scan) ==> Loaded(map[], states[1].store, scan) == map[])
  {
    var r := RelayRule("a:b", "/x", "http://a");
    var s0 := State(map[], map[]);
    OneRuleIsPersisted(s0, r);
    assert "a:b"[1] == ':';
    var store := map["a:b" := [r]];
    if Scans(store, scan) {
      NothingLoads(store, scan);
    }
  }

  lemma {:induction false} NothingLoads(store: map<string, seq<RelayRule>>, scan: seq<string>)
    requires forall n :: n in store ==> !Loadable(n)
    ensures Loaded(map[], store, scan) == map[]
  {
    if scan != [] {
      NothingLoads(store, scan[..|scan| - 1]);
    }
  }

  lemma PlacedOne(rules: map<string, RelayRule>, service: string, r: RelayRule)
    requires ValidEntry(r) && r.service == service
    ensures Placed(rules, service, [r]) == rules[r.dest := r]
  {
    assert [r][..0] == [];
  }
}
