/** The config tree as the migration code updates it: one method per step, and the loop that runs them. */
module ConfigFile {
  import opened Wrappers
  import opened Strings
  import opened ConfigSteps
  import opened ConfigChain

  datatype MigrateError = MissingVersion | NoPath(version: string)

  class Config {
    var cfg: Fields

    constructor (cfg: Fields)
      ensures this.cfg == cfg
    {
      this.cfg := cfg;
    }

    method MigrateV1ToV2()
      modifies this
      ensures cfg == At(V1ToV2(old(cfg)), "2")
    {
      if HasSection(cfg, "memcache") {
        var mem := cfg["memcache"].fields;
        var vc: Fields := map[];
        if "code_ttl" in mem {
          vc := vc["code_ttl" := mem["code_ttl"]];
        }
        if "storage_dir" in mem {
          vc := vc["storage_dir" := mem["storage_dir"]];
        }
        assert vc == Renamed(mem);
        cfg := cfg["verification_code" := Section(vc)];
        cfg := cfg - {"memcache"};
        assert cfg == (old(cfg) - {"memcache"})["verification_code" := Section(vc)];
      }
      if !HasSection(cfg, "verification_code") {
        cfg := cfg["verification_code" := Section(VerificationDefaults())];
      }
      if !HasSection(cfg, "redis") {
        cfg := cfg["redis" := Section(RedisDefaults())];
      }
      cfg := cfg["version" := Str("2")];
    }

    method MigrateV2ToV3(token: string)
      modifies this
      ensures cfg == At(V2ToV3(old(cfg), token), "3")
    {
      MoveSecurityFields();
      var manage := SectionOf(cfg, "manage");
      if StrOf(manage, "token") == "" {
        manage := manage["token" := Str(token)];
      }
      cfg := cfg["manage" := Section(manage)];
      if HasSection(cfg, "redis") {
        var redis := cfg["redis"].fields;
        if StrOf(redis, "prefix") == "" {
          redis := redis["prefix" := Str("hrpauth_")];
        }
        cfg := cfg["redis" := Section(redis)];
      }
      cfg := cfg["version" := Str("3")];
    }

    /** The first half of the 2 -> 3 step: yggdrasil.security fields move to the top level. */
    method MoveSecurityFields()
      modifies this
      ensures cfg == MoveSecurity(old(cfg))
    {
      MovedFieldsHaveDefaults();
      var ySec, topSec := MoveFields(YggSecurity(cfg), SectionOf(cfg, "security"), MovedFields(), SecurityDefaults());
      var ygg := SectionOf(cfg, "yggdrasil");
      if HasSection(ygg, "security") {
        ygg := ygg["security" := Section(ySec)];
        cfg := cfg["yggdrasil" := Section(ygg)];
      }
      cfg := cfg["security" := Section(topSec)];
    }

    method MigrateV3ToV4(token: string)
      modifies this
      ensures cfg == At(V3ToV4(old(cfg), token), "4")
    {
      var oauth2 := FillOAuth(cfg, token);
      cfg := cfg["oauth2" := Section(oauth2)];
      cfg := cfg["version" := Str("4")];
    }

    method MigrateV4ToV5()
      modifies this
      ensures cfg == At(V4ToV5(old(cfg)), "5")
    {
      var ygg := SectionOf(cfg, "yggdrasil");
      var sec := SectionOf(ygg, "security");
      if "max_texture_file_size" !in sec {
        sec := sec["max_texture_file_size" := Num(512000)];
      }
      assert sec == map["max_texture_file_size" := Num(512000)] + SectionOf(ygg, "security");
      ygg := ygg["security" := Section(sec)];
      cfg := cfg["yggdrasil" := Section(ygg)];
      cfg := cfg["version" := Str("5")];
    }

    method MigrateV5ToV6()
      modifies this
      ensures cfg == At(V5ToV6(old(cfg)), "6")
    {
      var storage := SectionOf(cfg, "storage");
      if "orphan_file_expiry_days" !in storage {
        storage := storage["orphan_file_expiry_days" := Num(7)];
      }
      assert storage == map["orphan_file_expiry_days" := Num(7)] + SectionOf(cfg, "storage");
      cfg := cfg["storage" := Section(storage)];
      cfg := cfg["version" := Str("6")];
    }

    method MigrateV6ToV7()
      modifies this
      ensures cfg == At(V6ToV7(old(cfg)), "7")
    {
      var oauth2 := SectionOf(cfg, "oauth2");
      if "super_client_extra_scopes" !in oauth2 {
        oauth2 := oauth2["super_client_extra_scopes" := List([])];
      }
      assert oauth2 == map["super_client_extra_scopes" := List([])] + SectionOf(cfg, "oauth2");
      cfg := cfg["oauth2" := Section(oauth2)];
      cfg := cfg["version" := Str("7")];
    }

    method MigrateV7ToV8(token: string)
      modifies this
      ensures cfg == At(V7ToV8(old(cfg), token), "8")
    {
      var core := SectionOf(cfg, "core_api");
      if StrOf(core, "internal_key") == "" {
        core := core["internal_key" := Str(token)];
      }
      cfg := cfg["core_api" := Section(core)];
      var yggApi := SectionOf(cfg, "yggdrasil_api");
      if StrOf(yggApi, "base_url") == "" {
        yggApi := yggApi["base_url" := Str(DefaultBaseUrl())];
      }
      if StrOf(yggApi, "internal_key") == "" {
        yggApi := yggApi["internal_key" := Str(core["internal_key"].s)];
      }
      cfg := cfg["yggdrasil_api" := Section(yggApi)];
      DeleteDeprecated();
      cfg := cfg["version" := Str("8")];
    }

    method DeleteDeprecated()
      modifies this
      ensures cfg == old(cfg) - {"yggdrasil", "storage", "keygen"}
    {
      cfg := cfg - {"yggdrasil"};
      cfg := cfg - {"storage"};
      cfg := cfg - {"keygen"};
    }

    method MigrateV8ToV9()
      modifies this
      ensures cfg == At(V8ToV9(old(cfg)), "9")
    {
      var sdk := SectionOf(cfg, "sdk_packages");
      if "storage_dir" !in sdk {
        sdk := sdk["storage_dir" := Str("./data/sdk_packages")];
      }
      if "max_package_size" !in sdk {
        sdk := sdk["max_package_size" := Num(20971520)];
      }
      if "max_packages" !in sdk {
        sdk := sdk["max_packages" := Num(128)];
      }
      assert sdk == SdkDefaults() + SectionOf(cfg, "sdk_packages");
      cfg := cfg["sdk_packages" := Section(sdk)];
      cfg := cfg["version" := Str("9")];
    }

    method MigrateV9ToV10()
      modifies this
      ensures cfg == At(V9ToV10(old(cfg)), "10")
    {
      if HasSection(cfg, "core_api") {
        cfg := cfg["core_api" := Section(cfg["core_api"].fields - {"internal_key"})];
      }
      if HasSection(cfg, "yggdrasil_api") {
        cfg := cfg["yggdrasil_api" := Section(cfg["yggdrasil_api"].fields - {"internal_key"})];
      }
      cfg := cfg["version" := Str("10")];
    }

    method MigrateV10ToV11()
      modifies this
      ensures cfg == At(V10ToV11(old(cfg)), "11")
    {
      var db := SectionOf(cfg, "database");
      if "retry_interval_sec" !in db {
        db := db["retry_interval_sec" := Num(3)];
      }
      if "max_retries" !in db {
        db := db["max_retries" := Num(5)];
      }
      if "next_round_delay_min" !in db {
        db := db["next_round_delay_min" := Num(5)];
      }
      assert db == RetryDefaults() + SectionOf(cfg, "database");
      cfg := cfg["database" := Section(db)];
      cfg := cfg["version" := Str("11")];
    }

    method MigrateV11ToV12()
      modifies this
      ensures cfg == At(V11ToV12(old(cfg)), "12")
    {
      var db := SectionOf(cfg, "database");
      if "port" !in db {
        db := db["port" := Num(0)];
      }
      assert db == map["port" := Num(0)] + SectionOf(cfg, "database");
      cfg := cfg["database" := Section(db)];
      cfg := cfg["version" := Str("12")];
    }

    method MigrateV12ToV13()
      modifies this
      ensures cfg == At(V12ToV13(old(cfg)), "13")
    {
      var oauth2 := SectionOf(cfg, "oauth2");
      if "service_clients" !in oauth2 {
        oauth2 := oauth2["service_clients" := List([])];
      }
      assert oauth2 == map["service_clients" := List([])] + SectionOf(cfg, "oauth2");
      cfg := cfg["oauth2" := Section(oauth2)];
      cfg := cfg["version" := Str("13")];
    }

    method MigrateV13ToV14()
      modifies this
      ensures cfg == At(V13ToV14(old(cfg)), "14")
    {
      var oauth2 := SectionOf(cfg, "oauth2");
      if "service_scope_allowlist" !in oauth2 {
        oauth2 := oauth2["service_scope_allowlist" := Section(map[])];
      }
      assert oauth2 == map["service_scope_allowlist" := Section(map[])] + SectionOf(cfg, "oauth2");
      cfg := cfg["oauth2" := Section(oauth2)];
      cfg := cfg["version" := Str("14")];
    }

    // Each in-place step against its entry in the chain.

    method RunFirstStep(token: string)
      modifies this
      ensures cfg == ApplyStep(0, old(cfg), token)
    {
      MigrateV1ToV2();
    }

    method RunSecondStep(token: string)
      modifies this
      ensures cfg == ApplyStep(1, old(cfg), token)
    {
      SecondEntry(cfg, token);
      MigrateV2ToV3(token);
    }

    method RunThirdStep(token: string)
      modifies this
      ensures cfg == ApplyStep(2, old(cfg), token)
    {
      ThirdEntry(cfg, token);
      MigrateV3ToV4(token);
    }

    method RunFourthStep(token: string)
      modifies this
      ensures cfg == ApplyStep(3, old(cfg), token)
    {
      MigrateV4ToV5();
    }

    method RunFifthStep(token: string)
      modifies this
      ensures cfg == ApplyStep(4, old(cfg), token)
    {
      MigrateV5ToV6();
    }

    method RunSixthStep(token: string)
      modifies this
      ensures cfg == ApplyStep(5, old(cfg), token)
    {
      MigrateV6ToV7();
    }

    method RunSeventhStep(token: string)
      modifies this
      ensures cfg == ApplyStep(6, old(cfg), token)
    {
      SeventhEntry(cfg, token);
      MigrateV7ToV8(token);
    }

    method RunEighthStep(token: string)
      modifies this
      ensures cfg == ApplyStep(7, old(cfg), token)
    {
      MigrateV8ToV9();
    }

    method RunNinthStep(token: string)
      modifies this
      ensures cfg == ApplyStep(8, old(cfg), token)
    {
      MigrateV9ToV10();
    }

    method RunTenthStep(token: string)
      modifies this
      ensures cfg == ApplyStep(9, old(cfg), token)
    {
      MigrateV10ToV11();
    }

    method RunEleventhStep(token: string)
      modifies this
      ensures cfg == ApplyStep(10, old(cfg), token)
    {
      MigrateV11ToV12();
    }

    method RunTwelfthStep(token: string)
      modifies this
      ensures cfg == ApplyStep(11, old(cfg), token)
    {
      MigrateV12ToV13();
    }

    method RunThirteenthStep(token: string)
      modifies this
      ensures cfg == ApplyStep(12, old(cfg), token)
    {
      MigrateV13ToV14();
    }

    /** One step of the chain, in place. */
    method RunStep(i: nat, token: string)
      requires i < LAST
      modifies this
      ensures cfg == ApplyStep(i, old(cfg), token)
    {
      match i
      case 0 => RunFirstStep(token);
      case 1 => RunSecondStep(token);
      case 2 => RunThirdStep(token);
      case 3 => RunFourthStep(token);
      case 4 => RunFifthStep(token);
      case 5 => RunSixthStep(token);
      case 6 => RunSeventhStep(token);
      case 7 => RunEighthStep(token);
      case 8 => RunNinthStep(token);
      case 9 => RunTenthStep(token);
      case 10 => RunEleventhStep(token);
      case 11 => RunTwelfthStep(token);
      case _ => RunThirteenthStep(token);
    }

    method RunEntry(chain: seq<Migration>, i: nat, token: string)
      requires chain == Chain() && i < |chain|
      modifies this
      ensures cfg == Applied(chain[i], old(cfg), token)
    {
      RunStep(i, token);
    }

    /** The loop of `MigrateConfig`; its two guards against a stuck chain are never taken. */
    method RunChain(chain: seq<Migration>, from: string, tokens: nat -> string) returns (r: Result<bool, MigrateError>)
      requires chain == Chain() && IsLinked(chain) && from == StrOf(cfg, "version") && from != "" && from != CONFIG_VERSION
      modifies this
      ensures var start := IndexFrom(chain, from, 0);
        && (start == |chain| ==> r == Err(NoPath(from)) && cfg == old(cfg))
        && (start < |chain| ==>
          r == Ok(true) && cfg == RunFrom(chain, start, old(cfg), tokens) && StrOf(cfg, "version") == CONFIG_VERSION)
    {
      ghost var start := IndexFrom(chain, from, 0);
      ghost var k := start;
      var current, changed, steps := from, false, 0;
      while current != CONFIG_VERSION
        invariant start <= k <= |chain| && steps == k - start && changed == (steps > 0)
        invariant start == |chain| ==> current == from && cfg == old(cfg)
        invariant start < |chain| ==> current == VersionAt(chain, k) && StrOf(cfg, "version") == current
        invariant start < |chain| ==> RunFrom(chain, k, cfg, tokens) == RunFrom(chain, start, old(cfg), tokens)
        decreases |chain| - k
      {
        var step := FindMigration(chain, current);
        if step.None? {
          return Err(NoPath(current));
        }
        IndexOfChainVersion(chain, k);
        VersionsAdvance(chain, k);
        RunEntry(chain, step.value, tokens(step.value));
        var next := StrOf(cfg, "version");
        if next == "" || next == current {
          assert false;
        }
        current := next;
        changed := true;
        steps := steps + 1;
        k := k + 1;
        if steps > |chain| + 1 {
          assert false;
        }
      }
      if k < |chain| {
        VersionsAdvance(chain, k);
      }
      return Ok(changed);
    }

    /**
     * `MigrateConfig`.  A version in the chain always reaches the current one;
     * the current version and anything with a newer major are left alone; a
     * missing version and any other version are errors that change nothing.
     */
    method MigrateConfig(tokens: nat -> string) returns (r: Result<bool, MigrateError>)
      modifies this
      ensures var v := StrOf(old(cfg), "version");
        var i := IndexFrom(Chain(), v, 0);
        && (v == "" ==> r == Err(MissingVersion) && cfg == old(cfg))
        && (v == CONFIG_VERSION || MajorOf(v) > 14 ==> r == Ok(false) && cfg == old(cfg))
        && (v != "" && v != CONFIG_VERSION && MajorOf(v) <= 14 && i == LAST ==> r == Err(NoPath(v)) && cfg == old(cfg))
        && (i < LAST ==>
          r == Ok(true) && cfg == RunFrom(Chain(), i, old(cfg), tokens) && StrOf(cfg, "version") == CONFIG_VERSION)
    {
      var current := StrOf(cfg, "version");
      ghost var start := IndexFrom(Chain(), current, 0);
      ChainIsLinked();
      ChainIsNotNewer(if start < LAST then start else 0);
      if start < LAST {
        VersionsAdvance(Chain(), start);
      }
      if current == "" {
        MajorOfNothing();
        return Err(MissingVersion);
      }
      if current == CONFIG_VERSION {
        return Ok(false);
      }
      var major := VersionMajor(current);
      var supported := VersionMajor(CONFIG_VERSION);
      if major > supported {
        return Ok(false);
      }
      r := RunChain(Chain(), current, tokens);
    }
  }

  /** `findMigration`: the first step that starts from this version. */
  method FindMigration(chain: seq<Migration>, version: string) returns (found: Option<nat>)
    ensures var i := IndexFrom(chain, version, 0); found == if i < |chain| then Some(i) else None
  {
    for i := 0 to |chain|
      invariant IndexFrom(chain, version, 0) == IndexFrom(chain, version, i)
    {
      if chain[i].fromVersion == version {
        return Some(i);
      }
    }
    return None;
  }

  /** `VersionMajor`. */
  method VersionMajor(version: string) returns (major: nat)
    ensures major == MajorOf(version)
  {
    var v := TrimSpace(version);
    var i := 0;
    while i < |v| && IsDigit(v[i])
      invariant i <= |v| && forall j :: 0 <= j < i ==> IsDigit(v[j])
    {
      i := i + 1;
    }
    assert v == v[..i] + v[i..];
    LeadingDigitsOf(v[..i], v[i..]);
    if i == 0 {
      return 0;
    }
    var n := DecimalValue(v[..i]);
    return if n > 0x7FFF_FFFF_FFFF_FFFF then 0 else n;
  }

  lemma MovedFieldsHaveDefaults()
    ensures Strings.AllDistinct(MovedFields())
    ensures forall k :: k in MovedFields() <==> k in SecurityDefaults()
  {
  }

  /** The move loop of the 2 -> 3 step: a field leaves `ySec` only when it arrives in `topSec`. */
  method MoveFields(ygg: Fields, top: Fields, moved: seq<string>, defaults: Fields) returns (ySec: Fields, topSec: Fields)
    requires Strings.AllDistinct(moved)
    requires forall k :: k in moved <==> k in defaults
    ensures topSec == MergedSecurity(top, ygg, moved, defaults)
    ensures ySec == LeftBehind(top, ygg, moved)
  {
    ySec, topSec := ygg, top;
    ghost var done: set<string> := {};
    for i := 0 to |moved|
      invariant forall k :: k in done <==> k in moved[..i]
      invariant MoveDone(ygg, top, defaults, done, ySec, topSec)
    {
      var key := moved[i];
      assert key in defaults && key !in moved[..i];
      assert moved[..i + 1] == moved[..i] + [key];
      ghost var ySec0, topSec0 := ySec, topSec;
      if key !in topSec {
        if key in ySec {
          topSec := topSec[key := ySec[key]];
          ySec := ySec - {key};
        } else {
          topSec := topSec[key := defaults[key]];
        }
      }
      MoveOneMore(ygg, top, defaults, done, key, ySec0, topSec0, ySec, topSec);
      done := done + {key};
    }
    assert moved[..|moved|] == moved;
    AllMoved(ygg, top, moved, defaults, done, ySec, topSec);
  }

  /** The fields in `done` have been looked at. */
  ghost predicate MoveDone(ygg: Fields, top: Fields, defaults: Fields, done: set<string>, ySec: Fields, topSec: Fields) {
    && (forall k :: k in topSec <==> k in top || k in done)
    && (forall k :: k in topSec ==> topSec[k] == Chosen(top, ygg, defaults, k))
    && ySec == ygg - (set k | k in done && k !in top)
  }

  lemma MoveOneMore(ygg: Fields, top: Fields, defaults: Fields, done: set<string>, key: string,
                    ySec: Fields, topSec: Fields, ySec': Fields, topSec': Fields)
    requires MoveDone(ygg, top, defaults, done, ySec, topSec) && key !in done && key in defaults
    requires key in topSec ==> topSec' == topSec && ySec' == ySec
    requires key !in topSec && key in ySec ==> topSec' == topSec[key := ySec[key]] && ySec' == ySec - {key}
    requires key !in topSec && key !in ySec ==> topSec' == topSec[key := defaults[key]] && ySec' == ySec
    ensures MoveDone(ygg, top, defaults, done + {key}, ySec', topSec')
  {
    var left := set k | k in done && k !in top;
    var left' := set k | k in done + {key} && k !in top;
    assert left' == if key in top then left else left + {key};
  }

  lemma AllMoved(ygg: Fields, top: Fields, moved: seq<string>, defaults: Fields, done: set<string>,
                 ySec: Fields, topSec: Fields)
    requires forall k :: k in moved <==> k in defaults
    requires MoveDone(ygg, top, defaults, done, ySec, topSec) && forall k :: k in done <==> k in moved
    ensures topSec == MergedSecurity(top, ygg, moved, defaults)
    ensures ySec == LeftBehind(top, ygg, moved)
  {
  }

  ghost function Chosen(top: Fields, ygg: Fields, defaults: Fields, k: string): Value {
    if k in top then top[k] else if k in ygg then ygg[k] else if k in defaults then defaults[k] else Null
  }

  method FillLifetimes(o: Fields) returns (oauth2: Fields)
    ensures oauth2 == FillTtls(o)
  {
    oauth2 := o;
    if "authorization_code_ttl_sec" !in oauth2 || oauth2["authorization_code_ttl_sec"] == Num(0) {
      oauth2 := oauth2["authorization_code_ttl_sec" := Num(300)];
    }
    if "access_token_ttl_sec" !in oauth2 || oauth2["access_token_ttl_sec"] == Num(0) {
      oauth2 := oauth2["access_token_ttl_sec" := Num(3600)];
    }
    if "refresh_token_ttl_sec" !in oauth2 || oauth2["refresh_token_ttl_sec"] == Num(0) {
      oauth2 := oauth2["refresh_token_ttl_sec" := Num(2592000)];
    }
  }

  method FillClientFields(o: Fields, token: string) returns (oauth2: Fields)
    ensures oauth2 == FillClients(o, token)
  {
    oauth2 := o;
    if StrOf(oauth2, "super_client_id") == "" {
      oauth2 := oauth2["super_client_id" := Str("hrpauth-internal-super")];
    }
    if StrOf(oauth2, "super_client_secret") == "" {
      oauth2 := oauth2["super_client_secret" := Str(token)];
    }
    if StrOf(oauth2, "public_client_id") == "" {
      oauth2 := oauth2["public_client_id" := Str("hrpauth-webui")];
    }
  }

  /** The field-by-field defaults of the 3 -> 4 step. */
  method FillOAuth(c: Fields, token: string) returns (oauth2: Fields)
    ensures oauth2 == OAuthAtV4(c, token)
  {
    oauth2 := SectionOf(c, "oauth2");
    var callback, frontend := SectionOf(c, "callback"), SectionOf(c, "frontend");
    if StrOf(oauth2, "issuer") == "" {
      if StrOf(callback, "url") != "" {
        oauth2 := oauth2["issuer" := Str(StrOf(callback, "url"))];
      }
    }
    oauth2 := FillLifetimes(oauth2);
    oauth2 := FillClientFields(oauth2, token);
    if "public_redirect_uris" !in oauth2 {
      var redirects: seq<Value> := [];
      if StrOf(frontend, "url") != "" {
        var uri := Str(TrimEnd(StrOf(frontend, "url"), IsSlash) + "/oauth/callback");
        redirects := redirects + [uri];
        assert redirects == [uri];
      }
      oauth2 := oauth2["public_redirect_uris" := List(redirects)];
    }
  }
}
