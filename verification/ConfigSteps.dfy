/**
 * The thirteen config migration steps, each as one function from the config
 * tree before to the config tree after, except for the version field.  A tree's nested maps are distinct
 * values, so an in-place update of one section never shows in another.
 */
module ConfigSteps {
  import opened Strings

  /** A decoded YAML value.  `Other` is any scalar the steps never look into. */
  datatype Value =
    | Null | Flag(b: bool) | Num(n: int) | Str(s: string) | Other(r: real)
    | List(items: seq<Value>) | Section(fields: map<string, Value>)

  type Fields = map<string, Value>

  predicate HasSection(c: Fields, k: string) {
    k in c && c[k].Section?
  }

  /** A section, or the empty map when the key is missing or holds something else. */
  function SectionOf(c: Fields, k: string): Fields {
    if HasSection(c, k) then c[k].fields else map[]
  }

  /** A string field, or "" when it is missing or holds something else. */
  function StrOf(c: Fields, k: string): string {
    if k in c && c[k].Str? then c[k].s else ""
  }

  /** Fields of the section win over the defaults; the section is made when it is missing. */
  function Filled(c: Fields, section: string, defaults: Fields): Fields {
    c[section := Section(defaults + SectionOf(c, section))]
  }

  function At(c: Fields, version: string): (r: Fields)
    ensures StrOf(r, "version") == version
    ensures forall k :: k != "version" ==> (k in r <==> k in c) && (k in c ==> r[k] == c[k])
  {
    c["version" := Str(version)]
  }

  // ----- 1.0 -> 2 -----

  function VerificationDefaults(): Fields {
    map["code_ttl" := Num(600), "storage_dir" := Str("./cache/verification_codes")]
  }

  function RedisDefaults(): Fields {
    map["host" := Str("127.0.0.1"), "port" := Num(6379), "password" := Str(""), "db" := Num(0),
        "prefix" := Str("hrpauth_")]
  }

  function Renamed(memcache: Fields): Fields {
    map k | k in memcache && k in {"code_ttl", "storage_dir"} :: memcache[k]
  }

  function V1ToV2(c: Fields): Fields {
    var c1 := if HasSection(c, "memcache")
              then (c - {"memcache"})["verification_code" := Section(Renamed(SectionOf(c, "memcache")))] else c;
    var c2 := if HasSection(c1, "verification_code") then c1
              else c1["verification_code" := Section(VerificationDefaults())];
    if HasSection(c2, "redis") then c2 else c2["redis" := Section(RedisDefaults())]
  }

  // ----- 2 -> 3 -----

  function MovedFields(): seq<string> {
    ["password_cost", "rate_limit_max_attempts", "rate_limit_window_sec", "enable_captcha", "captcha_ttl"]
  }

  function SecurityDefaults(): Fields {
    map["password_cost" := Num(10), "rate_limit_max_attempts" := Num(10), "rate_limit_window_sec" := Num(600),
        "enable_captcha" := Flag(true), "captcha_ttl" := Num(300)]
  }

  function YggSecurity(c: Fields): Fields {
    SectionOf(SectionOf(c, "yggdrasil"), "security")
  }

  /** Top level first, then the old place, then the default; other top-level fields stay. */
  function MergedSecurity(top: Fields, ygg: Fields, moved: seq<string>, defaults: Fields): Fields {
    defaults + (map k | k in ygg && k in moved :: ygg[k]) + top
  }

  function LeftBehind(top: Fields, ygg: Fields, moved: seq<string>): Fields {
    ygg - (set k | k in ygg && k in moved && k !in top)
  }

  function MoveSecurity(c: Fields): Fields {
    var top, ySec := SectionOf(c, "security"), YggSecurity(c);
    var c1 := if HasSection(SectionOf(c, "yggdrasil"), "security")
              then c["yggdrasil" := Section(SectionOf(c, "yggdrasil")["security" := Section(LeftBehind(top, ySec, MovedFields()))])]
              else c;
    c1["security" := Section(MergedSecurity(top, ySec, MovedFields(), SecurityDefaults()))]
  }

  function FillManage(c: Fields, token: string): Fields {
    c["manage" := Section(FillStr(SectionOf(c, "manage"), "token", token))]
  }

  function FillRedisPrefix(c: Fields): Fields {
    if HasSection(c, "redis") then c["redis" := Section(FillStr(c["redis"].fields, "prefix", "hrpauth_"))] else c
  }

  function V2ToV3(c: Fields, token: string): Fields {
    FillRedisPrefix(FillManage(MoveSecurity(c), token))
  }

  // ----- 3 -> 4 -----

  /** The default replaces a missing field and the number 0. */
  function FillTtl(o: Fields, k: string, default: int): Fields {
    if k !in o || o[k] == Num(0) then o[k := Num(default)] else o
  }

  /** The default replaces a missing field, the empty string and anything that is no string. */
  function FillStr(o: Fields, k: string, default: string): (r: Fields)
    ensures k in r && r[k].Str?
  {
    if StrOf(o, k) == "" then o[k := Str(default)] else o
  }

  function FillIssuer(o: Fields, callbackUrl: string): Fields {
    if StrOf(o, "issuer") == "" && callbackUrl != "" then o["issuer" := Str(callbackUrl)] else o
  }

  function FillRedirects(o: Fields, frontendUrl: string): Fields {
    if "public_redirect_uris" in o then o
    else o["public_redirect_uris" :=
      List(if frontendUrl == "" then [] else [Str(TrimEnd(frontendUrl, IsSlash) + "/oauth/callback")])]
  }

  function FillTtls(o: Fields): Fields {
    FillTtl(FillTtl(FillTtl(o, "authorization_code_ttl_sec", 300), "access_token_ttl_sec", 3600),
            "refresh_token_ttl_sec", 2592000)
  }

  function FillClients(o: Fields, token: string): Fields {
    FillStr(FillStr(FillStr(o, "super_client_id", "hrpauth-internal-super"), "super_client_secret", token),
            "public_client_id", "hrpauth-webui")
  }

  function OAuthAtV4(c: Fields, token: string): Fields {
    var issued := FillIssuer(SectionOf(c, "oauth2"), StrOf(SectionOf(c, "callback"), "url"));
    FillRedirects(FillClients(FillTtls(issued), token), StrOf(SectionOf(c, "frontend"), "url"))
  }

  function V3ToV4(c: Fields, token: string): Fields {
    c["oauth2" := Section(OAuthAtV4(c, token))]
  }

  // ----- 4 -> 5 ... 6 -> 7 -----

  function V4ToV5(c: Fields): Fields {
    var ygg := SectionOf(c, "yggdrasil");
    c["yggdrasil" := Section(Filled(ygg, "security", map["max_texture_file_size" := Num(512000)]))]
  }

  function V5ToV6(c: Fields): Fields {
    Filled(c, "storage", map["orphan_file_expiry_days" := Num(7)])
  }

  function V6ToV7(c: Fields): Fields {
    Filled(c, "oauth2", map["super_client_extra_scopes" := List([])])
  }

  // ----- 7 -> 8 -----

  function DefaultBaseUrl(): string {
    "http://localhost:2770"
  }

  function FillCore(c: Fields, token: string): Fields {
    FillStr(SectionOf(c, "core_api"), "internal_key", token)
  }

  function FillYggApi(ygg: Fields, key: string): Fields {
    FillStr(FillStr(ygg, "base_url", DefaultBaseUrl()), "internal_key", key)
  }

  function V7ToV8(c: Fields, token: string): Fields {
    var core := FillCore(c, token);
    var c1 := c["core_api" := Section(core)];
    var c2 := c1["yggdrasil_api" := Section(FillYggApi(SectionOf(c1, "yggdrasil_api"), core["internal_key"].s))];
    c2 - {"yggdrasil", "storage", "keygen"}
  }

  // ----- 8 -> 9 ... 13 -> 14 -----

  function SdkDefaults(): Fields {
    map["storage_dir" := Str("./data/sdk_packages"), "max_package_size" := Num(20971520), "max_packages" := Num(128)]
  }

  function V8ToV9(c: Fields): Fields {
    Filled(c, "sdk_packages", SdkDefaults())
  }

  function WithoutKey(c: Fields, section: string): Fields {
    if HasSection(c, section) then c[section := Section(c[section].fields - {"internal_key"})] else c
  }

  function V9ToV10(c: Fields): Fields {
    WithoutKey(WithoutKey(c, "core_api"), "yggdrasil_api")
  }

  function RetryDefaults(): Fields {
    map["retry_interval_sec" := Num(3), "max_retries" := Num(5), "next_round_delay_min" := Num(5)]
  }

  function V10ToV11(c: Fields): Fields {
    Filled(c, "database", RetryDefaults())
  }

  function V11ToV12(c: Fields): Fields {
    Filled(c, "database", map["port" := Num(0)])
  }

  function V12ToV13(c: Fields): Fields {
    Filled(c, "oauth2", map["service_clients" := List([])])
  }

  function V13ToV14(c: Fields): Fields {
    Filled(c, "oauth2", map["service_scope_allowlist" := Section(map[])])
  }
}
