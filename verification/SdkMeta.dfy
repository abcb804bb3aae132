/** The stored package metadata of `controllers/sdk_package_store.go`, and what it keeps of a manifest. */
module SdkMeta {
  import opened JsonTree
  import opened SdkFields
  import opened SdkManifest
  import opened Strings

  datatype RouteMeta = RouteMeta(path: string, mod: string, title: string)

  /** A menu, dashboard or critical-operation entry. */
  datatype EntryMeta = EntryMeta(text: string, path: string)

  function RouteOf(m: Fields): RouteMeta {
    RouteMeta(StrOf(m, "path"), StrOf(m, "module"), StrOf(m, "title"))
  }

  function EntryOf(m: Fields): EntryMeta {
    EntryMeta(StrOf(m, "label"), StrOf(m, "path"))
  }

  /** The objects among the items, each turned into a record, in their order. */
  function Collected<T>(items: seq<Json>, f: Fields -> T): seq<T> {
    if items == [] then []
    else
      var n := |items| - 1;
      Collected(items[..n], f) + if items[n].JsonObject? then [f(items[n].fields)] else []
  }

  /** The string values of a map field; a missing or other value reads as no entry. */
  function StringMapOf(m: Fields, key: string): map<string, string> {
    if key in m && m[key].JsonObject? then
      map k | k in m[key].fields && m[key].fields[k].JsonString? :: m[key].fields[k].s
    else map[]
  }

  class SdkPackageMeta {
    var name: string
    var version: string
    var sha256: string
    var size: nat
    var uploadedAt: int
    var manifestJson: Fields
    var routes: seq<RouteMeta>
    var menu: seq<EntryMeta>
    var dashboard: seq<EntryMeta>
    var criticalOperations: seq<EntryMeta>
    var dependencies: map<string, string>
    var runScripts: bool

    constructor (name: string, version: string, sha256: string, size: nat, uploadedAt: int,
                 dependencies: map<string, string>, runScripts: bool, manifestJson: Fields)
      ensures this.name == name && this.version == version && this.sha256 == sha256 && this.size == size
      ensures this.uploadedAt == uploadedAt && this.manifestJson == manifestJson
      ensures this.dependencies == dependencies && this.runScripts == runScripts
      ensures routes == [] && menu == [] && dashboard == [] && criticalOperations == []
    {
      this.name, this.version, this.sha256, this.size := name, version, sha256, size;
      this.dependencies, this.runScripts := dependencies, runScripts;
      this.uploadedAt, this.manifestJson := uploadedAt, manifestJson;
      routes, menu, dashboard, criticalOperations := [], [], [], [];
    }
  }

  /** `mapStringFromMap`: the map is read in any order. */
  method MapStringFromMap(m: Fields, key: string) returns (out: map<string, string>)
    ensures out == StringMapOf(m, key)
  {
    out := map[];
    if key in m && m[key].JsonObject? {
      var fields := m[key].fields;
      var left := fields.Keys;
      while left != {}
        invariant left <= fields.Keys
        invariant forall k :: k in out <==> k in fields && k !in left && fields[k].JsonString?
        invariant forall k :: k in out ==> out[k] == fields[k].s
      {
        var k :| k in left;
        left := left - {k};
        if fields[k].JsonString? {
          out := out[k := fields[k].s];
        }
      }
    }
  }

  /** The loop the source writes out for each of the three sections that may be one object. */
  method CollectEntries(v: Json) returns (all: seq<EntryMeta>)
    ensures all == Collected(EntriesOf(v), EntryOf)
  {
    all := [];
    if v.JsonArray? {
      var i := 0;
      while i < |v.items|
        invariant 0 <= i <= |v.items|
        invariant all == Collected(v.items[..i], EntryOf)
      {
        assert v.items[..i + 1][..i] == v.items[..i];
        if v.items[i].JsonObject? {
          var im := v.items[i].fields;
          all := all + [EntryMeta(StrOf(im, "label"), StrOf(im, "path"))];
        }
        i := i + 1;
      }
      assert v.items[..i] == v.items;
    } else if v.JsonObject? {
      all := all + [EntryMeta(StrOf(v.fields, "label"), StrOf(v.fields, "path"))];
      assert [v][..0] == [];
    }
  }

  method CollectSection(m: Fields, key: string) returns (all: seq<EntryMeta>)
    ensures all == Collected(Entries(m, key), EntryOf)
  {
    all := [];
    if IsSet(m, key) {
      all := CollectEntries(m[key]);
    }
  }

  method AppendRoutes(meta: SdkPackageMeta, items: seq<Json>)
    modifies meta`routes
    ensures meta.routes == old(meta.routes) + Collected(items, RouteOf)
  {
    var i := 0;
    while i < |items|
      invariant 0 <= i <= |items|
      invariant meta.routes == old(meta.routes) + Collected(items[..i], RouteOf)
    {
      assert items[..i + 1][..i] == items[..i];
      if items[i].JsonObject? {
        var rm := items[i].fields;
        meta.routes := meta.routes + [RouteMeta(StrOf(rm, "path"), StrOf(rm, "module"), StrOf(rm, "title"))];
      }
      i := i + 1;
    }
    assert items[..i] == items;
  }

  /** Size and digest of the archive, and the time, are inputs. */
  method BuildMeta(name: string, size: nat, manifest: Fields, digest: string, now: int)
    returns (meta: SdkPackageMeta)
    ensures fresh(meta) && meta.uploadedAt == now && meta.manifestJson == manifest
    ensures meta.name == name && meta.size == size && meta.sha256 == digest
    ensures meta.version == StrOf(manifest, "version") && meta.runScripts == BoolOf(manifest, "run_scripts")
    ensures meta.dependencies == StringMapOf(manifest, "dependencies")
    ensures meta.routes == Collected(Routes(manifest), RouteOf)
    ensures meta.menu == Collected(Entries(manifest, "menu"), EntryOf)
    ensures meta.dashboard == Collected(Entries(manifest, "dashboard"), EntryOf)
    ensures meta.criticalOperations == Collected(Entries(manifest, "critical_operations"), EntryOf)
  {
    var dependencies := MapStringFromMap(manifest, "dependencies");
    meta := new SdkPackageMeta(
      name, StrOf(manifest, "version"), digest, size, now, dependencies, BoolOf(manifest, "run_scripts"), manifest);
    CollectRoutes(meta, manifest);
    CollectSections(meta, manifest);
  }

  method CollectRoutes(meta: SdkPackageMeta, manifest: Fields)
    modifies meta`routes
    ensures meta.routes == old(meta.routes) + Collected(Routes(manifest), RouteOf)
  {
    if "routes" in manifest && manifest["routes"].JsonArray? {
      AppendRoutes(meta, manifest["routes"].items);
    }
  }

  /** The three sections that may be one object or an array. */
  method CollectSections(meta: SdkPackageMeta, manifest: Fields)
    modifies meta`menu, meta`dashboard, meta`criticalOperations
    ensures meta.menu == Collected(Entries(manifest, "menu"), EntryOf)
    ensures meta.dashboard == Collected(Entries(manifest, "dashboard"), EntryOf)
    ensures meta.criticalOperations == Collected(Entries(manifest, "critical_operations"), EntryOf)
  {
    meta.menu := CollectSection(manifest, "menu");
    meta.dashboard := CollectSection(manifest, "dashboard");
    meta.criticalOperations := CollectSection(manifest, "critical_operations");
  }

  // ----- What is kept of an accepted manifest -----

  predicate AllObjects(items: seq<Json>) {
    forall i :: 0 <= i < |items| ==> items[i].JsonObject?
  }

  lemma LastIsObject(items: seq<Json>)
    requires items != []
    ensures AllObjects(items) <==> AllObjects(items[..|items| - 1]) && items[|items| - 1].JsonObject?
  {
    assert items == items[..|items| - 1] + [items[|items| - 1]];
  }

  /** Among objects, nothing is dropped and the order is kept; and only then is nothing dropped. */
  lemma {:induction false} CollectedKeepsAll<T>(items: seq<Json>, f: Fields -> T)
    ensures |Collected(items, f)| <= |items|
    ensures |Collected(items, f)| == |items| <==> AllObjects(items)
    ensures AllObjects(items) ==> forall i :: 0 <= i < |items| ==> Collected(items, f)[i] == f(items[i].fields)
  {
    if items != [] {
      var n := |items| - 1;
      CollectedKeepsAll(items[..n], f);
      LastIsObject(items);
    }
  }

  /** The section is stored entry by entry, and every path in it is a stored route's. */
  predicate KeptAndClosed(stored: seq<EntryMeta>, entries: seq<Json>, routes: seq<RouteMeta>) {
    && |stored| == |entries|
    && (forall i :: 0 <= i < |entries| ==> entries[i].JsonObject? && stored[i] == EntryOf(entries[i].fields))
    && (forall i :: 0 <= i < |stored| ==> exists k :: 0 <= k < |routes| && routes[k].path == stored[i].path)
  }

  lemma StoredRoutes(items: seq<Json>)
    requires AllHold(items, IsRoute)
    ensures var routes := Collected(items, RouteOf);
      && |routes| == |items|
      && (forall i :: 0 <= i < |items| ==>
        routes[i] == RouteOf(items[i].fields) && routes[i].path == PathOf(items[i]) && IsRoute(items[i]))
  {
    RoutesAreObjects(items);
    CollectedKeepsAll(items, RouteOf);
    forall i | 0 <= i < |items| ensures IsRoute(items[i]) {
    }
  }

  lemma RoutesAreKept(m: Fields)
    requires Complaint(m).None?
    ensures
      var routes := Collected(Routes(m), RouteOf);
      && |routes| == |Routes(m)| > 0
      && (forall i :: 0 <= i < |routes| ==> IsRoute(Routes(m)[i]) && routes[i] == RouteOf(Routes(m)[i].fields))
      && (forall i, j :: 0 <= i < j < |routes| ==> routes[i].path != routes[j].path)
    ensures forall i :: 0 <= i < |Collected(Routes(m), RouteOf)| ==>
      && ValidRoutePath(Collected(Routes(m), RouteOf)[i].path)
      && ValidModulePath(Collected(Routes(m), RouteOf)[i].mod)
  {
    NothingToComplain(m);
    RoutesKeptOf(Routes(m));
  }

  lemma RoutesKeptOf(items: seq<Json>)
    requires AreRoutes(items)
    ensures
      var routes := Collected(items, RouteOf);
      && |routes| == |items|
      && (forall i :: 0 <= i < |routes| ==> IsRoute(items[i]) && routes[i] == RouteOf(items[i].fields))
      && (forall i, j :: 0 <= i < j < |routes| ==> routes[i].path != routes[j].path)
    ensures forall i :: 0 <= i < |Collected(items, RouteOf)| ==>
      && ValidRoutePath(Collected(items, RouteOf)[i].path)
      && ValidModulePath(Collected(items, RouteOf)[i].mod)
  {
    StoredRoutes(items);
    forall i | 0 <= i < |items|
      ensures ValidRoutePath(Collected(items, RouteOf)[i].path) && ValidModulePath(Collected(items, RouteOf)[i].mod)
    {
      RouteIsValid(items[i]);
    }
  }

  lemma RouteIsValid(r: Json)
    requires IsRoute(r)
    ensures ValidRoutePath(RouteOf(r.fields).path) && ValidModulePath(RouteOf(r.fields).mod)
  {
  }

  lemma PathsAreStored(items: seq<Json>, path: string)
    requires AllObjects(items) && path in PathsOf(items)
    ensures exists k :: 0 <= k < |Collected(items, RouteOf)| && Collected(items, RouteOf)[k].path == path
  {
    CollectedKeepsAll(items, RouteOf);
    var k :| 0 <= k < |items| && PathOf(items[k]) == path;
    assert Collected(items, RouteOf)[k].path == path;
  }

  lemma SectionIsClosed(entries: seq<Json>, items: seq<Json>)
    requires AllObjects(items) && Refer(entries, PathsOf(items))
    ensures KeptAndClosed(Collected(entries, EntryOf), entries, Collected(items, RouteOf))
  {
    var stored := Collected(entries, EntryOf);
    assert AllObjects(entries);
    CollectedKeepsAll(entries, EntryOf);
    forall i | 0 <= i < |stored|
      ensures exists k :: 0 <= k < |Collected(items, RouteOf)| && Collected(items, RouteOf)[k].path == stored[i].path
    {
      PathsAreStored(items, PathOf(entries[i]));
    }
  }

  lemma NothingToComplain(m: Fields)
    requires Complaint(m).None?
    ensures Routes(m) != [] && AreRoutes(Routes(m))
    ensures ValidSection(m, "menu", PathsOf(Routes(m)))
    ensures ValidSection(m, "dashboard", PathsOf(Routes(m)))
    ensures ValidSection(m, "critical_operations", PathsOf(Routes(m)))
    ensures AllHold(Entries(m, "critical_operations"), HasLabel)
  {
    NoComplaintMeansValid(m);
  }

  lemma RoutesAreObjects(items: seq<Json>)
    requires AllHold(items, IsRoute)
    ensures AllObjects(items)
  {
    forall i | 0 <= i < |items| ensures items[i].JsonObject? {
      assert IsRoute(items[i]);
    }
  }

  /** A section that is not set has no entries, so it refers to nothing else. */
  lemma SectionRefers(m: Fields, key: string, paths: set<string>)
    requires ValidSection(m, key, paths)
    ensures Refer(Entries(m, key), paths)
  {
  }

  lemma SectionIsKept(m: Fields, key: string, items: seq<Json>)
    requires AllObjects(items) && ValidSection(m, key, PathsOf(items))
    ensures KeptAndClosed(Collected(Entries(m, key), EntryOf), Entries(m, key), Collected(items, RouteOf))
  {
    SectionRefers(m, key, PathsOf(items));
    SectionIsClosed(Entries(m, key), items);
  }

  /** For an accepted manifest the metadata drops nothing, keeps every order, and refers only to its own routes. */
  lemma AcceptedManifestIsKept(m: Fields)
    requires Complaint(m).None?
    ensures
      var routes := Collected(Routes(m), RouteOf);
      && KeptAndClosed(Collected(Entries(m, "menu"), EntryOf), Entries(m, "menu"), routes)
      && KeptAndClosed(Collected(Entries(m, "dashboard"), EntryOf), Entries(m, "dashboard"), routes)
      && KeptAndClosed(
        Collected(Entries(m, "critical_operations"), EntryOf), Entries(m, "critical_operations"), routes)
    ensures forall i :: 0 <= i < |Collected(Entries(m, "critical_operations"), EntryOf)| ==>
      TrimSpace(Collected(Entries(m, "critical_operations"), EntryOf)[i].text) != ""
  {
    NothingToComplain(m);
    RoutesAreObjects(Routes(m));
    SectionIsKept(m, "menu", Routes(m));
    SectionIsKept(m, "dashboard", Routes(m));
    SectionIsKept(m, "critical_operations", Routes(m));
    LabelsAreKept(Entries(m, "critical_operations"));
  }

  lemma LabelsAreKept(entries: seq<Json>)
    requires AllHold(entries, HasLabel)
    ensures forall i :: 0 <= i < |Collected(entries, EntryOf)| ==> TrimSpace(Collected(entries, EntryOf)[i].text) != ""
  {
    CollectedKeepsAll(entries, EntryOf);
    assert forall i :: 0 <= i < |entries| ==> HasLabel(entries[i]);
  }
}
