/** Validating a package manifest, and building the stored metadata from it. */
module SdkManifest {
  import opened JsonTree
  import opened SdkFields
  import opened Strings
  import opened Wrappers

  type Fields = map<string, Json>

  /** A string field, or "" when it is missing or holds something else. */
  function StrOf(m: Fields, key: string): string {
    if key in m && m[key].JsonString? then m[key].s else ""
  }

  function BoolOf(m: Fields, key: string): bool {
    key in m && m[key].JsonBool? && m[key].b
  }

  predicate IsSet(m: Fields, key: string) {
    key in m && m[key] != JsonNull
  }

  /** The entries of a section that may be one object or an array. */
  function EntriesOf(v: Json): seq<Json> {
    if v.JsonArray? then v.items else if v.JsonObject? then [v] else []
  }

  function Entries(m: Fields, key: string): seq<Json> {
    if key in m then EntriesOf(m[key]) else []
  }

  function Routes(m: Fields): seq<Json> {
    if "routes" in m && m["routes"].JsonArray? then m["routes"].items else []
  }

  // ----- What a valid manifest is -----

  predicate IsRoute(r: Json) {
    && r.JsonObject?
    && ValidRoutePath(StrOf(r.fields, "path"))
    && StrOf(r.fields, "module") != "" && ValidModulePath(StrOf(r.fields, "module"))
  }

  /** The path an entry names. */
  function PathOf(r: Json): string {
    if r.JsonObject? then StrOf(r.fields, "path") else ""
  }

  predicate AllHold(items: seq<Json>, ok: Json -> bool) {
    forall i :: 0 <= i < |items| ==> ok(items[i])
  }

  predicate KeysDiffer(items: seq<Json>, key: Json -> string) {
    forall i, j :: 0 <= i < j < |items| ==> key(items[i]) != key(items[j])
  }

  function Keys(items: seq<Json>, key: Json -> string): set<string> {
    set i | 0 <= i < |items| :: key(items[i])
  }

  predicate AreRoutes(routes: seq<Json>) {
    AllHold(routes, IsRoute) && KeysDiffer(routes, PathOf)
  }

  function PathsOf(routes: seq<Json>): set<string> {
    Keys(routes, PathOf)
  }

  /** Every entry is an object whose path is one of `paths`. */
  predicate Refer(entries: seq<Json>, paths: set<string>) {
    forall i :: 0 <= i < |entries| ==> entries[i].JsonObject? && PathOf(entries[i]) in paths
  }

  predicate ValidSection(m: Fields, key: string, paths: set<string>) {
    IsSet(m, key) ==> (m[key].JsonArray? || m[key].JsonObject?) && Refer(EntriesOf(m[key]), paths)
  }

  predicate HasLabel(entry: Json) {
    entry.JsonObject? && TrimSpace(StrOf(entry.fields, "label")) != ""
  }

  /** The source's messages; a section is "menu", "dashboard" or "critical_operations". */
  datatype ManifestError =
    | BadSchema | BadName(name: NameError) | BadVersion
    | RoutesNotAnArray | RouteNotAnObject | RoutePathInvalid(path: string) | RoutePathDuplicated(path: string)
    | RouteMissingModule(path: string) | RouteModuleInvalid(path: string, mod: string)
    | SectionNotObjects(section: string) | EntryNotAnObject(section: string)
    | LabelMissing | UnknownPath(section: string, path: string)

  predicate SchemaIsOne(m: Fields) {
    "schema_version" in m && m["schema_version"] == JsonNumber(1.0)
  }

  /** The first fault among the first `n` entries. */
  function FirstFault(n: nat, fault: nat -> Option<ManifestError>): Option<ManifestError> {
    if n == 0 then None
    else if FirstFault(n - 1, fault).Some? then FirstFault(n - 1, fault)
    else fault(n - 1)
  }

  predicate NoFault(n: nat, fault: nat -> Option<ManifestError>) {
    forall i: nat :: i < n ==> fault(i).None?
  }

  predicate IsFirstFault(n: nat, fault: nat -> Option<ManifestError>, i: nat) {
    i < n && fault(i).Some? && NoFault(i, fault)
  }

  /** There is no first fault exactly when there is no fault, and otherwise nothing before it is one. */
  lemma {:induction false} FirstFaultIsFirst(n: nat, fault: nat -> Option<ManifestError>)
    ensures FirstFault(n, fault).None? <==> NoFault(n, fault)
    ensures FirstFault(n, fault).Some? ==>
      exists i: nat :: IsFirstFault(n, fault, i) && FirstFault(n, fault) == fault(i)
  {
    if n > 0 {
      FirstFaultIsFirst(n - 1, fault);
      if FirstFault(n - 1, fault).Some? {
        var i: nat :| IsFirstFault(n - 1, fault, i) && FirstFault(n - 1, fault) == fault(i);
        assert IsFirstFault(n, fault, i);
      } else if fault(n - 1).Some? {
        assert IsFirstFault(n, fault, n - 1);
      }
    }
  }

  lemma {:induction false} FirstFaultStays(i: nat, n: nat, fault: nat -> Option<ManifestError>)
    requires i <= n && FirstFault(i, fault).Some?
    ensures FirstFault(n, fault) == FirstFault(i, fault)
  {
    if i < n {
      FirstFaultStays(i, n - 1, fault);
    }
  }

  /** What is wrong with one route, given the paths of the routes before it and the test for a module path. */
  function RouteFault(r: Json, seen: set<string>, okModule: string -> bool): Option<ManifestError> {
    if !r.JsonObject? then Some(RouteNotAnObject)
    else
      var path, mod := StrOf(r.fields, "path"), StrOf(r.fields, "module");
      if !ValidRoutePath(path) then Some(RoutePathInvalid(path))
      else if path in seen then Some(RoutePathDuplicated(path))
      else if mod == "" then Some(RouteMissingModule(path))
      else if !okModule(mod) then Some(RouteModuleInvalid(path, mod))
      else None
  }

  function RouteFaults(routes: seq<Json>, okModule: string -> bool): nat -> Option<ManifestError> {
    (i: nat) => if i < |routes| then RouteFault(routes[i], PathsOf(routes[..i]), okModule) else None
  }

  /** What is wrong with one entry of a section. */
  function EntryFault(section: string, e: Json, paths: set<string>, hasLabel: Json -> bool): Option<ManifestError> {
    if !e.JsonObject? then Some(EntryNotAnObject(section))
    else if !hasLabel(e) then Some(LabelMissing)
    else if PathOf(e) !in paths then Some(UnknownPath(section, PathOf(e)))
    else None
  }

  function EntryFaults(section: string, entries: seq<Json>, paths: set<string>, hasLabel: Json -> bool)
    : nat -> Option<ManifestError>
  {
    (i: nat) => if i < |entries| then EntryFault(section, entries[i], paths, hasLabel) else None
  }

  function SectionFault(section: string, v: Json, paths: set<string>, hasLabel: Json -> bool): Option<ManifestError> {
    if !v.JsonArray? && !v.JsonObject? then Some(SectionNotObjects(section))
    else FirstFault(|EntriesOf(v)|, EntryFaults(section, EntriesOf(v), paths, hasLabel))
  }

  /** Menu and dashboard entries need no label. */
  predicate NeedsNoLabel(entry: Json) {
    true
  }

  function SectionComplaint(m: Fields, section: string, paths: set<string>, hasLabel: Json -> bool)
    : Option<ManifestError>
  {
    if IsSet(m, section) then SectionFault(section, m[section], paths, hasLabel) else None
  }

  function RoutesComplaint(m: Fields): Option<ManifestError> {
    if Routes(m) == [] then Some(RoutesNotAnArray) else FirstFault(|Routes(m)|, RouteFaults(Routes(m), ValidModulePath))
  }

  function Or(first: Option<ManifestError>, second: Option<ManifestError>): Option<ManifestError> {
    if first.Some? then first else second
  }

  /** The first complaint about a manifest, in the order the source looks, if there is one. */
  ghost function Complaint(m: Fields): Option<ManifestError> {
    var paths := PathsOf(Routes(m));
    if !SchemaIsOne(m) then Some(BadSchema)
    else if NameFault(StrOf(m, "name")).Some? then Some(BadName(NameFault(StrOf(m, "name")).value))
    else if !IsVersion(StrOf(m, "version")) then Some(BadVersion)
    else
      Or(RoutesComplaint(m),
        Or(SectionComplaint(m, "menu", paths, NeedsNoLabel),
          Or(SectionComplaint(m, "dashboard", paths, NeedsNoLabel),
            SectionComplaint(m, "critical_operations", paths, HasLabel))))
  }

  lemma OneMoreHolds(items: seq<Json>, i: nat, ok: Json -> bool)
    requires i < |items|
    ensures AllHold(items[..i + 1], ok) <==> AllHold(items[..i], ok) && ok(items[i])
    ensures AllHold(items, ok) ==> AllHold(items[..i + 1], ok)
  {
    assert items[..i + 1] == items[..i] + [items[i]];
    if AllHold(items[..i + 1], ok) {
      assert ok(items[..i + 1][i]);
      assert forall k :: 0 <= k < i ==> items[..i][k] == items[..i + 1][k];
    }
  }

  lemma OneMoreKey(items: seq<Json>, i: nat, key: Json -> string)
    requires i < |items|
    ensures Keys(items[..i + 1], key) == Keys(items[..i], key) + {key(items[i])}
  {
    var front, more := items[..i], items[..i + 1];
    forall s ensures s in Keys(more, key) <==> s in Keys(front, key) || s == key(items[i]) {
      if s in Keys(more, key) {
        var k :| 0 <= k < |more| && key(more[k]) == s;
        assert k < i ==> key(front[k]) == s;
      }
      if s in Keys(front, key) {
        var k :| 0 <= k < |front| && key(front[k]) == s;
        assert key(more[k]) == s;
      }
      assert key(more[i]) == key(items[i]);
    }
  }

  lemma OneMoreDiffers(items: seq<Json>, i: nat, key: Json -> string)
    requires i < |items|
    ensures KeysDiffer(items[..i + 1], key) <==> KeysDiffer(items[..i], key) && key(items[i]) !in Keys(items[..i], key)
    ensures KeysDiffer(items, key) ==> KeysDiffer(items[..i + 1], key)
  {
    var front, more := items[..i], items[..i + 1];
    assert forall k :: 0 <= k < i ==> more[k] == front[k];
    if KeysDiffer(more, key) {
      forall k | 0 <= k < i ensures key(front[k]) != key(items[i]) {
        assert key(more[k]) != key(more[i]);
      }
    }
    if key(items[i]) !in Keys(front, key) {
      forall k | 0 <= k < i ensures key(more[k]) != key(more[i]) {
        assert key(front[k]) in Keys(front, key);
      }
    }
  }

  /** Entries judged one by one, each against the keys before it, are sound and distinct together. */
  lemma {:induction false} FaultlessOneByOne(
    items: seq<Json>, n: nat, fault: nat -> Option<ManifestError>, ok: Json -> bool, key: Json -> string)
    requires n <= |items|
    requires forall i: nat :: i < |items| ==>
      (fault(i).None? <==> ok(items[i]) && key(items[i]) !in Keys(items[..i], key))
    ensures NoFault(n, fault) <==> AllHold(items[..n], ok) && KeysDiffer(items[..n], key)
  {
    if n > 0 {
      FaultlessOneByOne(items, n - 1, fault, ok, key);
      OneMoreHolds(items, n - 1, ok);
      OneMoreDiffers(items, n - 1, key);
      assert NoFault(n, fault) <==> NoFault(n - 1, fault) && fault(n - 1).None?;
    }
  }

  /** Without a fault the routes are valid with pairwise distinct paths, and the other way round. */
  lemma FaultlessRoutes(routes: seq<Json>)
    ensures NoFault(|routes|, RouteFaults(routes, ValidModulePath)) <==> AreRoutes(routes)
  {
    forall i: nat | i < |routes|
      ensures RouteFaults(routes, ValidModulePath)(i).None?
        <==> IsRoute(routes[i]) && PathOf(routes[i]) !in Keys(routes[..i], PathOf)
    {
      RouteFaultMeans(routes[i], PathsOf(routes[..i]));
    }
    FaultlessOneByOne(routes, |routes|, RouteFaults(routes, ValidModulePath), IsRoute, PathOf);
    assert routes[..|routes|] == routes;
  }

  lemma RouteFaultMeans(r: Json, seen: set<string>)
    ensures RouteFault(r, seen, ValidModulePath).None? <==> IsRoute(r) && PathOf(r) !in seen
  {
  }

  lemma FaultlessEntries(section: string, entries: seq<Json>, paths: set<string>, hasLabel: Json -> bool)
    ensures NoFault(|entries|, EntryFaults(section, entries, paths, hasLabel))
      <==> Refer(entries, paths) && AllHold(entries, hasLabel)
  {
    var fault := EntryFaults(section, entries, paths, hasLabel);
    forall i: nat | i < |entries|
      ensures fault(i).None? <==> entries[i].JsonObject? && PathOf(entries[i]) in paths && hasLabel(entries[i])
    {
    }
  }

  /** A section draws no complaint exactly when it is missing, or its entries refer to routes and are labelled. */
  lemma NoSectionComplaint(m: Fields, section: string, paths: set<string>, hasLabel: Json -> bool)
    ensures SectionComplaint(m, section, paths, hasLabel).None?
      <==> ValidSection(m, section, paths) && (IsSet(m, section) ==> AllHold(EntriesOf(m[section]), hasLabel))
  {
    if IsSet(m, section) {
      var entries := EntriesOf(m[section]);
      FaultlessEntries(section, entries, paths, hasLabel);
      FirstFaultIsFirst(|entries|, EntryFaults(section, entries, paths, hasLabel));
    }
  }

  lemma NoRoutesComplaint(m: Fields)
    ensures RoutesComplaint(m).None? <==> Routes(m) != [] && AreRoutes(Routes(m))
  {
    var routes := Routes(m);
    FaultlessRoutes(routes);
    FirstFaultIsFirst(|routes|, RouteFaults(routes, ValidModulePath));
    assert routes[..|routes|] == routes;
  }

  /** The source complains about nothing exactly when the manifest is valid. */
  lemma NoComplaintMeansValid(m: Fields)
    ensures var paths := PathsOf(Routes(m));
      Complaint(m).None? <==>
        && SchemaIsOne(m) && ValidPackageName(StrOf(m, "name")) && IsVersion(StrOf(m, "version"))
        && Routes(m) != [] && AreRoutes(Routes(m))
        && ValidSection(m, "menu", paths) && ValidSection(m, "dashboard", paths)
        && ValidSection(m, "critical_operations", paths)
        && AllHold(Entries(m, "critical_operations"), HasLabel)
  {
    var paths := PathsOf(Routes(m));
    NoNameFault(StrOf(m, "name"));
    NoRoutesComplaint(m);
    NoSectionComplaint(m, "menu", paths, NeedsNoLabel);
    NoSectionComplaint(m, "dashboard", paths, NeedsNoLabel);
    NoSectionComplaint(m, "critical_operations", paths, HasLabel);
    NothingUnset(m, "critical_operations");
    AllNeedNoLabel(EntriesIfSet(m, "menu"));
    AllNeedNoLabel(EntriesIfSet(m, "dashboard"));
  }

  function EntriesIfSet(m: Fields, section: string): seq<Json> {
    if IsSet(m, section) then EntriesOf(m[section]) else []
  }

  lemma AllNeedNoLabel(entries: seq<Json>)
    ensures AllHold(entries, NeedsNoLabel)
  {
  }

  /** A section that is not set has no entries. */
  lemma NothingUnset(m: Fields, section: string)
    ensures Entries(m, section) == EntriesIfSet(m, section)
  {
  }

  // ----- The source's loops -----

  /** The routes' first error, or their paths. */
  method ValidateRoutes(routes: seq<Json>) returns (error: Option<ManifestError>, seen: set<string>)
    ensures error == FirstFault(|routes|, RouteFaults(routes, ValidModulePath))
    ensures error.None? <==> AreRoutes(routes)
    ensures error.None? ==> seen == PathsOf(routes)
  {
    FaultlessMeansRoutes(routes);
    error, seen := RouteLoop(routes, ValidModulePath);
  }

  /** The route loop. */
  method RouteLoop(routes: seq<Json>, okModule: string -> bool) returns (error: Option<ManifestError>, seen: set<string>)
    ensures error == FirstFault(|routes|, RouteFaults(routes, okModule))
    ensures error.None? ==> seen == PathsOf(routes)
  {
    seen := {};
    error := None;
    var i := 0;
    while i < |routes|
      invariant 0 <= i <= |routes|
      invariant error.None? && FirstFault(i, RouteFaults(routes, okModule)) == error
      invariant seen == PathsOf(routes[..i])
    {
      error, seen := RouteTurn(routes, i, seen, okModule);
      if error.Some? {
        return;
      }
      i := i + 1;
    }
    assert routes[..i] == routes;
  }

  /** One turn of the route loop: the error, or the paths with one more. */
  method RouteTurn(routes: seq<Json>, i: nat, seen: set<string>, okModule: string -> bool)
    returns (error: Option<ManifestError>, more: set<string>)
    requires i < |routes| && seen == PathsOf(routes[..i]) && FirstFault(i, RouteFaults(routes, okModule)).None?
    ensures error == FirstFault(i + 1, RouteFaults(routes, okModule))
    ensures error.Some? ==> error == FirstFault(|routes|, RouteFaults(routes, okModule))
    ensures more == PathsOf(routes[..i + 1])
  {
    OneMoreKey(routes, i, PathOf);
    error := CheckRouteAt(routes, i, seen, okModule);
    NextFault(i, RouteFaults(routes, okModule));
    if error.Some? {
      FirstFaultStays(i + 1, |routes|, RouteFaults(routes, okModule));
    }
    more := seen + {PathOf(routes[i])};
  }

  lemma NextFault(i: nat, fault: nat -> Option<ManifestError>)
    requires FirstFault(i, fault).None?
    ensures FirstFault(i + 1, fault) == fault(i)
  {
  }

  method CheckRouteAt(routes: seq<Json>, i: nat, seen: set<string>, okModule: string -> bool)
    returns (error: Option<ManifestError>)
    requires i < |routes| && seen == PathsOf(routes[..i])
    ensures error == RouteFaults(routes, okModule)(i)
  {
    error := CheckRoute(routes[i], seen, okModule);
  }

  lemma FaultlessMeansRoutes(routes: seq<Json>)
    ensures FirstFault(|routes|, RouteFaults(routes, ValidModulePath)).None? <==> AreRoutes(routes)
  {
    FaultlessRoutes(routes);
    FirstFaultIsFirst(|routes|, RouteFaults(routes, ValidModulePath));
    assert routes[..|routes|] == routes;
  }

  /** The checks on one route. */
  method CheckRoute(r: Json, seen: set<string>, okModule: string -> bool) returns (error: Option<ManifestError>)
    ensures error == RouteFault(r, seen, okModule)
  {
    if !r.JsonObject? {
      return Some(RouteNotAnObject);
    }
    var path := StrOf(r.fields, "path");
    var ok := CheckRoutePath(path);
    if !ok {
      return Some(RoutePathInvalid(path));
    }
    if path in seen {
      return Some(RoutePathDuplicated(path));
    }
    var mod := StrOf(r.fields, "module");
    if mod == "" {
      return Some(RouteMissingModule(path));
    }
    if !okModule(mod) {
      return Some(RouteModuleInvalid(path, mod));
    }
    error := None;
  }

  /**
   * The loop the source writes out for each section.  Menu and dashboard
   * entries need no label; for those `hasLabel` holds of everything.
   */
  method ValidateSection(section: string, v: Json, paths: set<string>, hasLabel: Json -> bool)
    returns (error: Option<ManifestError>)
    ensures error == SectionFault(section, v, paths, hasLabel)
    ensures error.None? <==>
      (v.JsonArray? || v.JsonObject?) && Refer(EntriesOf(v), paths) && AllHold(EntriesOf(v), hasLabel)
  {
    var entries: seq<Json>;
    match v {
      case JsonArray(items) => entries := items;
      case JsonObject(_) => entries := [v];
      case _ => return Some(SectionNotObjects(section));
    }
    FaultlessEntries(section, entries, paths, hasLabel);
    FirstFaultIsFirst(|entries|, EntryFaults(section, entries, paths, hasLabel));
    error := EntryLoop(section, entries, paths, hasLabel);
  }

  method EntryLoop(section: string, entries: seq<Json>, paths: set<string>, hasLabel: Json -> bool)
    returns (error: Option<ManifestError>)
    ensures error == FirstFault(|entries|, EntryFaults(section, entries, paths, hasLabel))
  {
    ghost var fault := EntryFaults(section, entries, paths, hasLabel);
    var i := 0;
    while i < |entries|
      invariant 0 <= i <= |entries|
      invariant FirstFault(i, fault).None?
    {
      error := CheckEntry(section, entries[i], paths, hasLabel);
      NextFault(i, fault);
      if error.Some? {
        FirstFaultStays(i + 1, |entries|, fault);
        return;
      }
      i := i + 1;
    }
    error := None;
  }

  method CheckEntry(section: string, e: Json, paths: set<string>, hasLabel: Json -> bool)
    returns (error: Option<ManifestError>)
    ensures error == EntryFault(section, e, paths, hasLabel)
  {
    if !e.JsonObject? {
      return Some(EntryNotAnObject(section));
    }
    if !hasLabel(e) {
      return Some(LabelMissing);
    }
    var path := StrOf(e.fields, "path");
    if path !in paths {
      return Some(UnknownPath(section, path));
    }
    error := None;
  }

  /** What the source writes out twice, for the menu and for the dashboard. */
  method ValidateReferences(section: string, v: Json, paths: set<string>) returns (error: Option<ManifestError>)
    ensures error == SectionFault(section, v, paths, NeedsNoLabel)
    ensures error.None? <==> (v.JsonArray? || v.JsonObject?) && Refer(EntriesOf(v), paths)
  {
    AllNeedNoLabel(EntriesOf(v));
    error := ValidateSection(section, v, paths, NeedsNoLabel);
  }

  method ValidateCriticalOperations(v: Json, paths: set<string>) returns (error: Option<ManifestError>)
    ensures error == SectionFault("critical_operations", v, paths, HasLabel)
    ensures error.None? <==>
      (v.JsonArray? || v.JsonObject?) && Refer(EntriesOf(v), paths) && AllHold(EntriesOf(v), HasLabel)
  {
    error := ValidateSection("critical_operations", v, paths, HasLabel);
  }

  method ValidateManifest(m: Fields) returns (error: Option<ManifestError>)
    ensures error == Complaint(m)
  {
    if !("schema_version" in m && m["schema_version"].JsonNumber? && m["schema_version"].n == 1.0) {
      return Some(BadSchema);
    }
    var nameError := ValidateName(StrOf(m, "name"));
    if nameError.Some? {
      return Some(BadName(nameError.value));
    }
    var versionOk := IsSemver(StrOf(m, "version"));
    if !versionOk {
      return Some(BadVersion);
    }
    if !("routes" in m && m["routes"].JsonArray? && |m["routes"].items| > 0) {
      return Some(RoutesNotAnArray);
    }
    var seen;
    error, seen := ValidateRoutes(m["routes"].items);
    if error.Some? {
      return;
    }
    if IsSet(m, "menu") {
      error := ValidateReferences("menu", m["menu"], seen);
      if error.Some? {
        return;
      }
    }
    if IsSet(m, "dashboard") {
      error := ValidateReferences("dashboard", m["dashboard"], seen);
      if error.Some? {
        return;
      }
    }
    if IsSet(m, "critical_operations") {
      error := ValidateCriticalOperations(m["critical_operations"], seen);
    }
  }

  // ----- A manifest the source accepts -----

  function SmallRoute(): Json {
    JsonObject(map["path" := JsonString("/"), "module" := JsonString("m")])
  }

  function SmallManifest(): Fields {
    map["schema_version" := JsonNumber(1.0), "name" := JsonString("a"), "version" := JsonString("1.0.0"),
        "routes" := JsonArray([SmallRoute()])]
  }

  lemma SmallRouteIsRoute()
    ensures IsRoute(SmallRoute())
  {
    assert Split("/", '/') == ["", ""];
    TrimOfTight("m", IsSpace);
    assert "m"[..0] == "";
  }

  lemma SmallVersion()
    ensures IsVersion("1.0.0")
  {
    assert IsNumber("1") && IsNumber("0");
    assert ["1", "0", "0"][1..] == ["0", "0"] && ["0", "0"][1..] == ["0"];
    assert Join(["1", "0", "0"], '.') == "1.0.0";
  }

  /** A manifest without optional sections. */
  lemma PlainManifest(m: Fields)
    requires SchemaIsOne(m) && ValidPackageName(StrOf(m, "name")) && IsVersion(StrOf(m, "version"))
    requires Routes(m) == [SmallRoute()]
    requires "menu" !in m && "dashboard" !in m && "critical_operations" !in m
    ensures Complaint(m).None?
  {
    SmallRouteIsRoute();
    NoComplaintMeansValid(m);
  }

  /** The smallest kind of manifest: a name, a version and one route. */
  lemma SmallManifestIsAccepted()
    ensures Complaint(SmallManifest()).None?
  {
    SmallVersion();
    PlainManifest(SmallManifest());
  }
}
