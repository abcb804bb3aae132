/** The walk over an uploaded archive in `controllers/sdk_package_controller.go`. */
module SdkArchive {
  import opened Strings
  import opened Wrappers
  import SdkFields
  import SdkPaths

  const MANIFEST := "manifest.json"

  datatype Format = TarGz | Zip

  datatype Kind = File | Directory | Link

  /** One archive member; `raw` is what reading it gives. */
  datatype Entry = Entry(name: string, kind: Kind, raw: string)

  datatype ArchiveError = IllegalPath | DisallowedExtension | MissingManifest | MultipleManifests

  predicate AllowedExtension(p: string) {
    SdkFields.IsAllowedExtension(SdkFields.Extension(p))
  }

  /** A tar member says what it is; a zip member is a directory when its name ends in a slash. */
  predicate IsDirectory(format: Format, e: Entry) {
    if format.TarGz? then e.kind.Directory? else HasSuffix(e.name, "/")
  }

  /** The member the walk reads as the manifest, given what its name sanitises to. */
  predicate IsManifest(format: Format, e: Entry, path: Option<string>) {
    path == Some(MANIFEST) && (format.TarGz? ==> !e.kind.Directory?)
  }

  /** What is wrong with one member; only the tar walk looks for links. */
  function Fault(format: Format, e: Entry, path: Option<string>, allowed: string -> bool): Option<ArchiveError> {
    if (format.TarGz? && e.kind.Link?) || path.None? then Some(IllegalPath)
    else if IsManifest(format, e, path) || IsDirectory(format, e) || allowed(path.value) then None
    else Some(DisallowedExtension)
  }

  function Faults(format: Format, clean: string -> Option<string>, allowed: string -> bool)
    : Entry -> Option<ArchiveError>
  {
    (e: Entry) => Fault(format, e, clean(e.name), allowed)
  }

  function Manifests(format: Format, clean: string -> Option<string>): Entry -> bool {
    (e: Entry) => IsManifest(format, e, clean(e.name))
  }

  predicate Faultless(entries: seq<Entry>, fault: Entry -> Option<ArchiveError>) {
    forall i :: 0 <= i < |entries| ==> fault(entries[i]).None?
  }

  /** Reads as the last member that is a manifest. */
  predicate IsLast(entries: seq<Entry>, i: nat, picks: Entry -> bool) {
    i < |entries| && picks(entries[i]) && forall j :: i < j < |entries| ==> !picks(entries[j])
  }

  predicate NoneOf(entries: seq<Entry>, picks: Entry -> bool) {
    forall i :: 0 <= i < |entries| ==> !picks(entries[i])
  }

  /** One member of either walk: its fault, or whether it is the manifest. */
  method Visit(format: Format, e: Entry, path: Option<string>, allowed: string -> bool)
    returns (fault: Option<ArchiveError>, manifest: bool)
    ensures fault == Fault(format, e, path, allowed)
    ensures fault.None? ==> (manifest <==> IsManifest(format, e, path))
  {
    fault, manifest := None, false;
    if format.TarGz? && e.kind.Link? {
      return Some(IllegalPath), false;
    }
    if path.None? {
      return Some(IllegalPath), false;
    }
    if format.TarGz? && e.kind.Directory? {
      return;
    }
    if path.value == MANIFEST {
      manifest := true;
    } else if !(format.Zip? && HasSuffix(e.name, "/")) && !allowed(path.value) {
      fault := Some(DisallowedExtension);
    }
  }

  /** What the walk makes of the members: the last manifest's content, or the first fault. */
  ghost predicate IsOutcome(
      entries: seq<Entry>, fault: Entry -> Option<ArchiveError>, picks: Entry -> bool, r: Result<string, ArchiveError>) {
    match r
    case Ok(raw) => Faultless(entries, fault) && exists i: nat :: IsLast(entries, i, picks) && entries[i].raw == raw
    case Err(MissingManifest) => Faultless(entries, fault) && NoneOf(entries, picks)
    case Err(e) => exists i :: 0 <= i < |entries| && fault(entries[i]) == Some(e) && Faultless(entries[..i], fault)
  }

  /**
   * The two walks of the source, for a sanitiser and an extension check.  The set of root
   * manifests is keyed by the one path they can have, so it never holds two.
   */
  method Walk(format: Format, entries: seq<Entry>, clean: string -> Option<string>, allowed: string -> bool)
    returns (r: Result<string, ArchiveError>)
    ensures IsOutcome(entries, Faults(format, clean, allowed), Manifests(format, clean), r)
    ensures r != Err(MultipleManifests)
  {
    ghost var fault, picks := Faults(format, clean, allowed), Manifests(format, clean);
    var roots: set<string> := {};
    var manifestRaw := "";
    ghost var at: nat := 0;
    var i := 0;
    while i < |entries|
      invariant 0 <= i <= |entries|
      invariant Faultless(entries[..i], fault)
      invariant roots == if NoneOf(entries[..i], picks) then {} else {MANIFEST}
      invariant roots != {} ==> IsLast(entries[..i], at, picks) && entries[at].raw == manifestRaw
    {
      var wrong, manifest := Visit(format, entries[i], clean(entries[i].name), allowed);
      if wrong.Some? {
        assert fault(entries[i]) == wrong;
        return Err(wrong.value);
      }
      OneEntryMore(entries, i, at, fault, picks);
      if manifest {
        roots := roots + {MANIFEST};
        manifestRaw := entries[i].raw;
        at := i;
      }
      i := i + 1;
    }
    assert entries[..i] == entries;
    if |roots| != 1 {
      if |roots| == 0 {
        return Err(MissingManifest);
      }
      assert false;
    }
    r := Ok(manifestRaw);
  }

  lemma OneEntryMore(
      entries: seq<Entry>, i: nat, at: nat, fault: Entry -> Option<ArchiveError>, picks: Entry -> bool)
    requires i < |entries|
    ensures Faultless(entries[..i], fault) && fault(entries[i]).None? ==> Faultless(entries[..i + 1], fault)
    ensures NoneOf(entries[..i + 1], picks) <==> NoneOf(entries[..i], picks) && !picks(entries[i])
    ensures picks(entries[i]) ==> IsLast(entries[..i + 1], i, picks)
    ensures !picks(entries[i]) && IsLast(entries[..i], at, picks) ==> IsLast(entries[..i + 1], at, picks)
  {
    var front, more := entries[..i], entries[..i + 1];
    assert more == front + [entries[i]];
    if NoneOf(more, picks) {
      assert forall k :: 0 <= k < i ==> front[k] == more[k];
      assert !picks(more[i]);
    }
  }

  /** Every member of an accepted archive stays below any directory it is unpacked to, and is a known kind of file. */
  lemma AcceptedMembersAreSafe(format: Format, entries: seq<Entry>, i: nat, allowed: string -> bool)
    requires i < |entries| && Faultless(entries, Faults(format, SdkPaths.Sanitized, allowed))
    ensures
      var path := SdkPaths.Sanitized(entries[i].name);
      && path.Some? && SdkPaths.IsNormal(path.value)
      && (format.TarGz? ==> !entries[i].kind.Link?)
      && (IsDirectory(format, entries[i]) || path.value == MANIFEST || allowed(path.value))
  {
    assert Faults(format, SdkPaths.Sanitized, allowed)(entries[i]).None?;
    SdkPaths.SanitizedIsNormal(SdkPaths.Sanitized(entries[i].name).value);
  }

  /** More than one root manifest is not an error: the walk keeps the last one it reads. */
  lemma LastManifestWins(
      format: Format, first: Entry, second: Entry, clean: string -> Option<string>, allowed: string -> bool,
      r: Result<string, ArchiveError>)
    requires first.kind.File? && second.kind.File?
    requires clean(first.name) == Some(MANIFEST) == clean(second.name)
    requires IsOutcome([first, second], Faults(format, clean, allowed), Manifests(format, clean), r)
    ensures r == Ok(second.raw)
  {
    var entries := [first, second];
    var fault, picks := Faults(format, clean, allowed), Manifests(format, clean);
    assert fault(entries[0]).None? && fault(entries[1]).None? && picks(entries[1]);
  }

  function AsFile(e: Entry): Entry {
    e.(kind := File)
  }

  function AsFiles(entries: seq<Entry>): seq<Entry> {
    seq(|entries|, i requires 0 <= i < |entries| => AsFile(entries[i]))
  }

  /** The zip walk never asks what kind of member it reads: links pass as files do. */
  lemma ZipTreatsLinksAsFiles(
      entries: seq<Entry>, clean: string -> Option<string>, allowed: string -> bool, r: Result<string, ArchiveError>)
    ensures var fault, picks := Faults(Zip, clean, allowed), Manifests(Zip, clean);
      IsOutcome(entries, fault, picks, r) <==> IsOutcome(AsFiles(entries), fault, picks, r)
  {
    var fault, picks := Faults(Zip, clean, allowed), Manifests(Zip, clean);
    forall i | 0 <= i < |entries|
      ensures fault(AsFile(entries[i])) == fault(entries[i]) && picks(AsFile(entries[i])) == picks(entries[i])
    {
      SameAsFile(entries[i], clean, allowed);
    }
    if IsOutcome(entries, fault, picks, r) {
      SameOutcome(entries, AsFiles(entries), fault, picks, r);
    }
    if IsOutcome(AsFiles(entries), fault, picks, r) {
      SameOutcome(AsFiles(entries), entries, fault, picks, r);
    }
  }

  lemma SameAsFile(e: Entry, clean: string -> Option<string>, allowed: string -> bool)
    ensures Faults(Zip, clean, allowed)(AsFile(e)) == Faults(Zip, clean, allowed)(e)
    ensures Manifests(Zip, clean)(AsFile(e)) == Manifests(Zip, clean)(e)
  {
    assert AsFile(e).name == e.name;
    assert IsDirectory(Zip, AsFile(e)) == IsDirectory(Zip, e);
  }

  lemma SameOutcome(
      entries: seq<Entry>, others: seq<Entry>, fault: Entry -> Option<ArchiveError>, picks: Entry -> bool,
      r: Result<string, ArchiveError>)
    requires |others| == |entries|
    requires forall i :: 0 <= i < |entries| ==>
      && others[i].raw == entries[i].raw
      && fault(others[i]) == fault(entries[i]) && picks(others[i]) == picks(entries[i])
    requires IsOutcome(entries, fault, picks, r)
    ensures IsOutcome(others, fault, picks, r)
  {
    match r
    case Ok(raw) =>
      var i: nat :| IsLast(entries, i, picks) && entries[i].raw == raw;
      assert IsLast(others, i, picks);
    case Err(MissingManifest) =>
    case Err(e) =>
      var i :| 0 <= i < |entries| && fault(entries[i]) == Some(e) && Faultless(entries[..i], fault);
      assert forall k :: 0 <= k < i ==> entries[..i][k] == entries[k] && others[..i][k] == others[k];
      assert fault(others[i]) == Some(e) && Faultless(others[..i], fault);
  }

  /** In a tar, a link is refused wherever it stands. */
  lemma TarRefusesLinks(
      entries: seq<Entry>, k: nat, clean: string -> Option<string>, allowed: string -> bool,
      r: Result<string, ArchiveError>)
    requires k < |entries| && entries[k].kind.Link?
    requires IsOutcome(entries, Faults(TarGz, clean, allowed), Manifests(TarGz, clean), r)
    ensures r.Err? && r.error != MissingManifest
  {
    assert Faults(TarGz, clean, allowed)(entries[k]) == Some(IllegalPath);
  }

  lemma PlainNameIsKept(name: string)
    requires SdkPaths.IsPlain(name) && '\\' !in name
    ensures SdkPaths.Sanitized(name) == Some(name)
  {
    SplitOfJoin([name], '/');
    SdkPaths.SanitizedIsNormal(name);
  }

  function WithLink(): seq<Entry> {
    [Entry(MANIFEST, File, "{}"), Entry("a.ts", Link, "b.ts")]
  }

  /** One archive with a link in it: the zip is accepted, the tar refused. */
  lemma ZipLinkIsAccepted(zip: Result<string, ArchiveError>, tar: Result<string, ArchiveError>)
    requires IsOutcome(
      WithLink(), Faults(Zip, SdkPaths.Sanitized, AllowedExtension), Manifests(Zip, SdkPaths.Sanitized), zip)
    requires IsOutcome(
      WithLink(), Faults(TarGz, SdkPaths.Sanitized, AllowedExtension), Manifests(TarGz, SdkPaths.Sanitized), tar)
    ensures zip == Ok("{}")
    ensures tar == Err(IllegalPath)
  {
    PlainNameIsKept(MANIFEST);
    PlainNameIsKept("a.ts");
    SourceNameIsAllowed();
    LinkDecides(SdkPaths.Sanitized, AllowedExtension, zip, tar);
  }

  lemma LinkDecides(
      clean: string -> Option<string>, allowed: string -> bool,
      zip: Result<string, ArchiveError>, tar: Result<string, ArchiveError>)
    requires clean(MANIFEST) == Some(MANIFEST) && clean("a.ts") == Some("a.ts") && allowed("a.ts")
    requires IsOutcome(WithLink(), Faults(Zip, clean, allowed), Manifests(Zip, clean), zip)
    requires IsOutcome(WithLink(), Faults(TarGz, clean, allowed), Manifests(TarGz, clean), tar)
    ensures zip == Ok("{}")
    ensures tar == Err(IllegalPath)
  {
    var entries := WithLink();
    assert "a.ts" != MANIFEST by {
      assert |"a.ts"| != |MANIFEST|;
    }
    var fault, picks := Faults(Zip, clean, allowed), Manifests(Zip, clean);
    assert fault(entries[0]).None? && fault(entries[1]).None? && picks(entries[0]) && !picks(entries[1]);
    var strict := Faults(TarGz, clean, allowed);
    assert strict(entries[0]).None? && strict(entries[1]) == Some(IllegalPath);
  }

  lemma SourceNameIsAllowed()
    ensures AllowedExtension("a.ts")
  {
    var p := "a.ts";
    assert p[..3] == "a.t" && p[..2] == "a." && "a.t"[..2] == "a.";
    assert SdkFields.Extension("a.") == ".";
    assert SdkFields.Extension("a.t") == ".t";
    assert SdkFields.Extension(p) == ".ts";
    assert ToLower(".ts") == ".ts" by {
      assert ".ts"[1..] == "ts" && "ts"[1..] == "s" && "s"[1..] == "";
      assert ToLower("s") == "s" && ToLower("ts") == "ts";
    }
  }

  method Extract(format: Format, entries: seq<Entry>) returns (r: Result<string, ArchiveError>)
    ensures IsOutcome(
      entries, Faults(format, SdkPaths.Sanitized, AllowedExtension), Manifests(format, SdkPaths.Sanitized), r)
  {
    r := Walk(format, entries, SdkPaths.Sanitized, AllowedExtension);
  }
}
