/** What a config keeps, gains and loses on the way from an old version to the current one. */
module ConfigTheorems {
  import opened ConfigSteps
  import opened ConfigChain

  ghost predicate SameAt(a: Fields, b: Fields, k: string) {
    (k in a <==> k in b) && (k in a ==> a[k] == b[k])
  }

  /** The top-level sections step `i` may change. */
  ghost function Touches(i: nat): set<string> {
    if i == 0 then {"memcache", "verification_code", "redis"}
    else if i == 1 then {"security", "yggdrasil", "manage", "redis"}
    else if i == 3 then {"yggdrasil"}
    else if i == 4 then {"storage"}
    else if i == 6 then {"core_api", "yggdrasil_api", "yggdrasil", "storage", "keygen"}
    else if i == 7 then {"sdk_packages"}
    else if i == 8 then {"core_api", "yggdrasil_api"}
    else if i == 9 || i == 10 then {"database"}
    else {"oauth2"}
  }

  lemma EarlyStepTouchesOnly(i: nat, c: Fields, token: string, k: string)
    requires i < 6 && i != 1 && k !in Touches(i) && k != "version"
    ensures SameAt(c, ApplyStep(i, c, token), k)
  {
    if i == 0 {
      assert SameAt(c, V1ToV2(c), k);
    }
  }

  lemma SecondStepTouchesOnly(c: Fields, token: string, k: string)
    requires k !in Touches(1) && k != "version"
    ensures SameAt(c, ApplyStep(1, c, token), k)
  {
    assert SameAt(c, V2ToV3(c, token), k);
  }

  lemma SeventhStepTouchesOnly(c: Fields, token: string, k: string)
    requires k !in Touches(6) && k != "version"
    ensures SameAt(c, ApplyStep(6, c, token), k)
  {
    assert SameAt(c, V7ToV8(c, token), k);
  }

  lemma LateStepTouchesOnly(i: nat, c: Fields, token: string, k: string)
    requires 6 < i < LAST && k !in Touches(i) && k != "version"
    ensures SameAt(c, ApplyStep(i, c, token), k)
  {
  }

  lemma StepTouchesOnly(i: nat, c: Fields, token: string, k: string)
    requires i < LAST && k !in Touches(i) && k != "version"
    ensures SameAt(c, ApplyStep(i, c, token), k)
  {
    if i == 1 {
      SecondStepTouchesOnly(c, token, k);
    } else if i < 6 {
      EarlyStepTouchesOnly(i, c, token, k);
    } else if i == 6 {
      SeventhStepTouchesOnly(c, token, k);
    } else {
      LateStepTouchesOnly(i, c, token, k);
    }
  }

  /** The steps from `i` up to, not including, `j`. */
  function Between(i: nat, j: nat, c: Fields, tokens: nat -> string): Fields
    requires i <= j <= LAST
    decreases j - i
  {
    if i == j then c else Between(i + 1, j, ApplyStep(i, c, tokens(i)), tokens)
  }

  lemma {:induction false} BetweenThenRest(i: nat, j: nat, c: Fields, tokens: nat -> string)
    requires i <= j <= LAST
    ensures RunFrom(Chain(), i, c, tokens) == RunFrom(Chain(), j, Between(i, j, c, tokens), tokens)
    decreases j - i
  {
    if i < j {
      BetweenThenRest(i + 1, j, ApplyStep(i, c, tokens(i)), tokens);
    }
  }

  lemma {:induction false} BetweenTouchesOnly(i: nat, j: nat, c: Fields, tokens: nat -> string, k: string)
    requires i <= j <= LAST && k != "version"
    requires forall t :: i <= t < j ==> k !in Touches(t)
    ensures SameAt(c, Between(i, j, c, tokens), k)
    decreases j - i
  {
    if i < j {
      StepTouchesOnly(i, c, tokens(i), k);
      BetweenTouchesOnly(i + 1, j, ApplyStep(i, c, tokens(i)), tokens, k);
    }
  }

  lemma {:induction false} RestTouchesOnly(i: nat, c: Fields, tokens: nat -> string, k: string)
    requires i <= LAST && k != "version"
    requires forall t :: i <= t < LAST ==> k !in Touches(t)
    ensures SameAt(c, RunFrom(Chain(), i, c, tokens), k)
  {
    BetweenThenRest(i, LAST, c, tokens);
    BetweenTouchesOnly(i, LAST, c, tokens, k);
  }

  ghost function NamedSections(): set<string> {
    {"memcache", "verification_code", "redis", "security", "yggdrasil", "manage", "storage", "core_api",
     "yggdrasil_api", "keygen", "sdk_packages", "database", "oauth2", "version"}
  }

  /** Every top-level section the steps do not name is unchanged, present or absent. */
  lemma UnnamedSectionsUnchanged(i: nat, c: Fields, tokens: nat -> string, k: string)
    requires i <= LAST && k !in NamedSections()
    ensures SameAt(c, RunFrom(Chain(), i, c, tokens), k)
  {
    forall t | i <= t < LAST ensures k !in Touches(t) {
    }
    RestTouchesOnly(i, c, tokens, k);
  }

  // ----- Security: moved at 2 -> 3, its old home deleted at 7 -> 8 -----

  /** The value of a security field after migration. */
  function FinalSecurity(c: Fields, k: string): Value
    requires k in SecurityDefaults()
  {
    if k in SectionOf(c, "security") then SectionOf(c, "security")[k]
    else if k in YggSecurity(c) then YggSecurity(c)[k]
    else SecurityDefaults()[k]
  }

  lemma SecurityAfterMove(c: Fields, token: string, k: string)
    requires k in MovedFields()
    ensures k in SecurityDefaults()
    ensures HasSection(V2ToV3(c, token), "security")
    ensures k in SectionOf(V2ToV3(c, token), "security")
    ensures SectionOf(V2ToV3(c, token), "security")[k] == FinalSecurity(c, k)
  {
    var c1 := MoveSecurity(c);
    assert SectionOf(c1, "security")
      == MergedSecurity(SectionOf(c, "security"), YggSecurity(c), MovedFields(), SecurityDefaults());
    assert V2ToV3(c, token)["security"] == c1["security"];
  }

  lemma SecurityAfterStep(c: Fields, token: string, k: string)
    requires k in MovedFields()
    ensures k in SecurityDefaults()
    ensures var c2 := ApplyStep(1, c, token);
      HasSection(c2, "security") && k in c2["security"].fields && c2["security"].fields[k] == FinalSecurity(c, k)
  {
    SecurityAfterMove(c, token, k);
    SecondEntry(c, token);
    SecurityCarried(V2ToV3(c, token), "3", k, FinalSecurity(c, k));
  }

  /** Writing the version leaves the security section alone. */
  lemma SecurityCarried(c: Fields, version: string, k: string, v: Value)
    requires HasSection(c, "security") && k in c["security"].fields && c["security"].fields[k] == v
    ensures var c' := At(c, version);
      HasSection(c', "security") && k in c'["security"].fields && c'["security"].fields[k] == v
  {
  }

  lemma SecurityIsFoundUnmoved(start: nat, c: Fields, tokens: nat -> string, k: string)
    requires start <= 1 && k in SecurityDefaults()
    ensures FinalSecurity(Between(start, 1, c, tokens), k) == FinalSecurity(c, k)
  {
    BetweenTouchesOnly(start, 1, c, tokens, "security");
    BetweenTouchesOnly(start, 1, c, tokens, "yggdrasil");
  }

  /** Running up to step `i`, then step `i`, then the rest. */
  lemma ThroughStep(start: nat, i: nat, c: Fields, tokens: nat -> string, k: string) returns (before: Fields, after: Fields)
    requires start <= i < LAST && k != "version"
    requires forall t :: i < t < LAST ==> k !in Touches(t)
    ensures before == Between(start, i, c, tokens) && after == ApplyStep(i, before, tokens(i))
    ensures SameAt(after, RunFrom(Chain(), start, c, tokens), k)
  {
    before := Between(start, i, c, tokens);
    BetweenThenRest(start, i, c, tokens);
    after := ApplyStep(i, before, tokens(i));
    RestTouchesOnly(i + 1, after, tokens, k);
  }

  /** The old top-level value if there was one, else the old nested value, else the default. */
  lemma SecuritySurvives(start: nat, c: Fields, tokens: nat -> string, k: string)
    requires start <= 1 && k in MovedFields()
    ensures k in SecurityDefaults()
    ensures var final := RunFrom(Chain(), start, c, tokens);
      && HasSection(final, "security") && k in final["security"].fields
      && final["security"].fields[k] == FinalSecurity(c, k)
      && "yggdrasil" !in final
  {
    var c1, c2 := ThroughStep(start, 1, c, tokens, "security");
    SecurityAfterStep(c1, tokens(1), k);
    SecurityIsFoundUnmoved(start, c, tokens, k);
    DeprecatedSectionsGone(start, c, tokens, "yggdrasil");
  }

  lemma DeletedAtV8(c: Fields, token: string, k: string)
    requires k in {"yggdrasil", "storage", "keygen"}
    ensures k !in ApplyStep(6, c, token)
  {
    assert k !in V7ToV8(c, token);
  }

  lemma DeprecatedSectionsGone(start: nat, c: Fields, tokens: nat -> string, k: string)
    requires start <= 6 && k in {"yggdrasil", "storage", "keygen"}
    ensures k !in RunFrom(Chain(), start, c, tokens)
  {
    var c6, c7 := ThroughStep(start, 6, c, tokens, k);
    DeletedAtV8(c6, tokens(6), k);
  }

  // ----- Sections that only gain defaults -----

  lemma {:induction false} LastOfBetween(i: nat, j: nat, c: Fields, tokens: nat -> string)
    requires i <= j < LAST
    ensures Between(i, j + 1, c, tokens) == ApplyStep(j, Between(i, j, c, tokens), tokens(j))
    decreases j - i
  {
    if i < j {
      LastOfBetween(i + 1, j, ApplyStep(i, c, tokens(i)), tokens);
    } else {
      assert Between(i + 1, j + 1, ApplyStep(i, c, tokens(i)), tokens) == ApplyStep(i, c, tokens(i));
    }
  }

  lemma FillingSteps(c: Fields, token: string)
    ensures SectionOf(ApplyStep(7, c, token), "sdk_packages") == SdkDefaults() + SectionOf(c, "sdk_packages")
    ensures SectionOf(ApplyStep(9, c, token), "database") == RetryDefaults() + SectionOf(c, "database")
    ensures SectionOf(ApplyStep(10, c, token), "database") == map["port" := Num(0)] + SectionOf(c, "database")
  {
  }

  ghost predicate OnlyTouchedIn(k: string, lo: nat, hi: nat) {
    forall t: nat :: t < LAST && !(lo <= t < hi) ==> k !in Touches(t)
  }

  lemma WhoTouchesWhat()
    ensures OnlyTouchedIn("database", 9, 11) && OnlyTouchedIn("sdk_packages", 7, 8)
    ensures OnlyTouchedIn("core_api", 6, 9) && OnlyTouchedIn("yggdrasil_api", 6, 9)
  {
  }

  /** A section only steps `lo` to `hi` touch is, after all steps, what it was after those. */
  lemma SectionDecidedIn(start: nat, lo: nat, hi: nat, c: Fields, tokens: nat -> string, k: string)
    returns (before: Fields)
    requires start <= lo <= hi <= LAST && OnlyTouchedIn(k, lo, hi) && k != "version"
    ensures SectionOf(before, k) == SectionOf(c, k)
    ensures SectionOf(RunFrom(Chain(), start, c, tokens), k) == SectionOf(Between(lo, hi, before, tokens), k)
  {
    before := Between(start, lo, c, tokens);
    BetweenTouchesOnly(start, lo, c, tokens, k);
    BetweenThenRest(start, lo, c, tokens);
    BetweenThenRest(lo, hi, before, tokens);
    RestTouchesOnly(hi, Between(lo, hi, before, tokens), tokens, k);
  }

  /** The database section ends as it was, plus the retry settings and the port it did not have. */
  lemma DatabaseGainsDefaults(start: nat, c: Fields, tokens: nat -> string)
    requires start <= 9
    ensures SectionOf(RunFrom(Chain(), start, c, tokens), "database")
      == map["port" := Num(0)] + (RetryDefaults() + SectionOf(c, "database"))
  {
    WhoTouchesWhat();
    var c9 := SectionDecidedIn(start, 9, 11, c, tokens, "database");
    DatabaseSteps(c9, tokens);
  }

  lemma DatabaseSteps(c: Fields, tokens: nat -> string)
    ensures SectionOf(Between(9, 11, c, tokens), "database")
      == map["port" := Num(0)] + (RetryDefaults() + SectionOf(c, "database"))
  {
    var c10 := ApplyStep(9, c, tokens(9));
    FillingSteps(c, tokens(9));
    FillingSteps(c10, tokens(10));
    LastOfBetween(9, 10, c, tokens);
    LastOfBetween(9, 9, c, tokens);
  }

  /** The sdk_packages section ends as it was, plus the defaults it did not have. */
  lemma SdkPackagesGainDefaults(start: nat, c: Fields, tokens: nat -> string)
    requires start <= 7
    ensures SectionOf(RunFrom(Chain(), start, c, tokens), "sdk_packages") == SdkDefaults() + SectionOf(c, "sdk_packages")
  {
    WhoTouchesWhat();
    var c7 := SectionDecidedIn(start, 7, 8, c, tokens, "sdk_packages");
    LastOfBetween(7, 7, c7, tokens);
    FillingSteps(c7, tokens(7));
  }

  // ----- oauth2 -----

  function TtlFields(): map<string, int> {
    map["authorization_code_ttl_sec" := 300, "access_token_ttl_sec" := 3600, "refresh_token_ttl_sec" := 2592000]
  }

  ghost function StringFields(): set<string> {
    {"issuer", "super_client_id", "super_client_secret", "public_client_id"}
  }

  /** A value the 3 -> 4 step takes as already set: for some fields that means not zero, or a non-empty string. */
  ghost predicate IsSet(f: string, v: Value) {
    && (f in TtlFields() ==> v != Num(0))
    && (f in StringFields() ==> v.Str? && v.s != "")
  }

  ghost predicate Keeps(a: Fields, b: Fields, f: string) {
    f in a && IsSet(f, a[f]) ==> f in b && b[f] == a[f]
  }

  lemma OAuthStepKeeps(c: Fields, token: string, f: string)
    ensures Keeps(SectionOf(c, "oauth2"), OAuthAtV4(c, token), f)
  {
    var o0 := SectionOf(c, "oauth2");
    var o1 := FillIssuer(o0, StrOf(SectionOf(c, "callback"), "url"));
    var o2 := FillTtls(o1);
    var o3 := FillClients(o2, token);
    assert Keeps(o0, o1, f);
    assert Keeps(o1, o2, f);
    assert Keeps(o2, o3, f);
  }

  lemma StepKeepsOAuth(i: nat, c: Fields, token: string, f: string)
    requires i < LAST
    ensures Keeps(SectionOf(c, "oauth2"), SectionOf(ApplyStep(i, c, token), "oauth2"), f)
  {
    if i == 2 {
      OAuthStepKeeps(c, token, f);
      OAuthMade(c, token);
    } else if i == 5 || i == 11 || i == 12 {
      FillingStepKeeps(i, c, token, f);
    } else {
      StepTouchesOnly(i, c, token, "oauth2");
    }
  }

  lemma FillingStepKeeps(i: nat, c: Fields, token: string, f: string)
    requires i == 5 || i == 11 || i == 12
    ensures Keeps(SectionOf(c, "oauth2"), SectionOf(ApplyStep(i, c, token), "oauth2"), f)
  {
    if f in SectionOf(c, "oauth2") {
      FillingOAuthSteps(i, c, token, f);
    }
  }

  /** From any version, every oauth2 field that was set keeps its value to the end. */
  lemma {:induction false} OAuthFieldsKept(i: nat, c: Fields, tokens: nat -> string, f: string)
    requires i <= LAST
    ensures Keeps(SectionOf(c, "oauth2"), SectionOf(RunFrom(Chain(), i, c, tokens), "oauth2"), f)
    decreases LAST - i
  {
    if i < LAST {
      StepKeepsOAuth(i, c, tokens(i), f);
      OAuthFieldsKept(i + 1, ApplyStep(i, c, tokens(i)), tokens, f);
    }
  }

  lemma FilledStringFields(o: Fields, token: string)
    ensures forall f :: f !in {"super_client_id", "super_client_secret", "public_client_id"} ==> SameAt(o, FillClients(o, token), f)
    ensures forall f :: f !in TtlFields() ==> SameAt(o, FillTtls(o), f)
  {
  }

  /** The lifetimes after the 3 -> 4 step: the old value unless it was missing or 0. */
  lemma LifetimesAtV4(c: Fields, token: string, f: string)
    requires f in TtlFields()
    ensures var o, o' := SectionOf(c, "oauth2"), OAuthAtV4(c, token);
      f in o' && o'[f] == if f in o && o[f] != Num(0) then o[f] else Num(TtlFields()[f])
  {
    var o0 := SectionOf(c, "oauth2");
    var o1 := FillIssuer(o0, StrOf(SectionOf(c, "callback"), "url"));
    var o2 := FillTtls(o1);
    FilledStringFields(o2, token);
    assert SameAt(o0, o1, f);
    assert f in o2 && o2[f] == if f in o1 && o1[f] != Num(0) then o1[f] else Num(TtlFields()[f]);
    assert SameAt(o2, FillClients(o2, token), f);
  }

  lemma {:induction false} LaterStepsKeepOAuth(i: nat, c: Fields, tokens: nat -> string, f: string)
    requires 3 <= i <= LAST && f in SectionOf(c, "oauth2")
    ensures f in SectionOf(RunFrom(Chain(), i, c, tokens), "oauth2")
      && SectionOf(RunFrom(Chain(), i, c, tokens), "oauth2")[f] == SectionOf(c, "oauth2")[f]
    decreases LAST - i
  {
    if i < LAST {
      var c' := ApplyStep(i, c, tokens(i));
      if i == 5 || i == 11 || i == 12 {
        FillingOAuthSteps(i, c, tokens(i), f);
      } else {
        StepTouchesOnly(i, c, tokens(i), "oauth2");
      }
      LaterStepsKeepOAuth(i + 1, c', tokens, f);
    }
  }

  lemma FillingOAuthSteps(i: nat, c: Fields, token: string, f: string)
    requires (i == 5 || i == 11 || i == 12) && f in SectionOf(c, "oauth2")
    ensures f in SectionOf(ApplyStep(i, c, token), "oauth2")
      && SectionOf(ApplyStep(i, c, token), "oauth2")[f] == SectionOf(c, "oauth2")[f]
  {
  }

  lemma OAuthFoundUnchanged(start: nat, c: Fields, tokens: nat -> string)
    requires start <= 2
    ensures SectionOf(Between(start, 2, c, tokens), "oauth2") == SectionOf(c, "oauth2")
  {
    BetweenTouchesOnly(start, 2, c, tokens, "oauth2");
  }

  lemma OAuthMade(c: Fields, token: string)
    ensures SectionOf(ApplyStep(2, c, token), "oauth2") == OAuthAtV4(c, token)
  {
  }

  /** A config from before the oauth2 section ends with every lifetime set, its own where it had one. */
  lemma LifetimesAtTheEnd(start: nat, c: Fields, tokens: nat -> string, f: string)
    requires start <= 2 && f in TtlFields()
    ensures var o, o' := SectionOf(c, "oauth2"), SectionOf(RunFrom(Chain(), start, c, tokens), "oauth2");
      f in o' && o'[f] == if f in o && o[f] != Num(0) then o[f] else Num(TtlFields()[f])
  {
    var c2 := Between(start, 2, c, tokens);
    BetweenThenRest(start, 2, c, tokens);
    OAuthFoundUnchanged(start, c, tokens);
    OAuthMade(c2, tokens(2));
    LifetimesAtV4(c2, tokens(2), f);
    LaterStepsKeepOAuth(3, ApplyStep(2, c2, tokens(2)), tokens, f);
  }

  // ----- Static internal keys: made at 7 -> 8, removed at 9 -> 10 -----

  /** Both API sections end without their internal key and with every other field they had. */
  lemma InternalKeysGone(start: nat, c: Fields, tokens: nat -> string)
    requires start <= 6
    ensures var final := RunFrom(Chain(), start, c, tokens);
      && SectionOf(final, "core_api") == SectionOf(c, "core_api") - {"internal_key"}
      && SectionOf(final, "yggdrasil_api")
        == FillStr(SectionOf(c, "yggdrasil_api"), "base_url", DefaultBaseUrl()) - {"internal_key"}
  {
    WhoTouchesWhat();
    var c6 := SectionDecidedIn(start, 6, 9, c, tokens, "core_api");
    var c6' := SectionDecidedIn(start, 6, 9, c, tokens, "yggdrasil_api");
    KeyMadeAndRemoved(c6, tokens);
    KeyMadeAndRemoved(c6', tokens);
  }

  lemma CoreKeyMade(c: Fields, token: string)
    ensures SectionOf(ApplyStep(6, c, token), "core_api")
      == FillStr(SectionOf(c, "core_api"), "internal_key", token)
  {
  }

  lemma YggdrasilKeyMade(c: Fields, token: string)
    ensures SectionOf(ApplyStep(6, c, token), "yggdrasil_api") - {"internal_key"}
      == FillStr(SectionOf(c, "yggdrasil_api"), "base_url", DefaultBaseUrl()) - {"internal_key"}
  {
  }

  lemma KeyRemoved(c: Fields, token: string)
    ensures var c' := ApplyStep(8, c, token);
      && SectionOf(c', "core_api") == SectionOf(c, "core_api") - {"internal_key"}
      && SectionOf(c', "yggdrasil_api") == SectionOf(c, "yggdrasil_api") - {"internal_key"}
  {
  }

  lemma KeyMadeAndRemoved(c: Fields, tokens: nat -> string)
    ensures var c' := Between(6, 9, c, tokens);
      && SectionOf(c', "core_api") == SectionOf(c, "core_api") - {"internal_key"}
      && SectionOf(c', "yggdrasil_api")
        == FillStr(SectionOf(c, "yggdrasil_api"), "base_url", DefaultBaseUrl()) - {"internal_key"}
  {
    var c7 := ApplyStep(6, c, tokens(6));
    var c8 := ApplyStep(7, c7, tokens(7));
    CoreKeyMade(c, tokens(6));
    YggdrasilKeyMade(c, tokens(6));
    SectionsPassed(c7, tokens(7));
    KeyRemoved(c8, tokens(8));
    FilledThenRemoved(SectionOf(c, "core_api"), tokens(6));
    ThreeSteps(c, tokens);
  }

  lemma SectionsPassed(c: Fields, token: string)
    ensures SectionOf(ApplyStep(7, c, token), "core_api") == SectionOf(c, "core_api")
    ensures SectionOf(ApplyStep(7, c, token), "yggdrasil_api") == SectionOf(c, "yggdrasil_api")
  {
    StepTouchesOnly(7, c, token, "core_api");
    StepTouchesOnly(7, c, token, "yggdrasil_api");
  }

  lemma FilledThenRemoved(section: Fields, token: string)
    ensures FillStr(section, "internal_key", token) - {"internal_key"} == section - {"internal_key"}
  {
  }

  lemma ThreeSteps(c: Fields, tokens: nat -> string)
    ensures Between(6, 9, c, tokens)
      == ApplyStep(8, ApplyStep(7, ApplyStep(6, c, tokens(6)), tokens(7)), tokens(8))
  {
    LastOfBetween(6, 8, c, tokens);
    LastOfBetween(6, 7, c, tokens);
    LastOfBetween(6, 6, c, tokens);
  }

  // ----- Memcache, renamed at 1.0 -> 2 -----

  lemma RenamedAtV2(c: Fields, token: string)
    requires HasSection(c, "memcache")
    ensures "memcache" !in ApplyStep(0, c, token)
    ensures SectionOf(ApplyStep(0, c, token), "verification_code") == Renamed(c["memcache"].fields)
  {
  }

  lemma RenamedSectionsTouchedOnce()
    ensures OnlyTouchedIn("memcache", 0, 1) && OnlyTouchedIn("verification_code", 0, 1)
  {
  }

  /** The memcache section ends as verification_code, with the two fields that carry over and nothing else. */
  lemma MemcacheBecomesVerificationCode(c: Fields, tokens: nat -> string)
    requires HasSection(c, "memcache")
    ensures var final := RunFrom(Chain(), 0, c, tokens);
      && "memcache" !in final
      && SectionOf(final, "verification_code") == Renamed(c["memcache"].fields)
  {
    RenamedSectionsTouchedOnce();
    RenamedAtV2(c, tokens(0));
    var c1 := ApplyStep(0, c, tokens(0));
    RestTouchesOnly(1, c1, tokens, "memcache");
    RestTouchesOnly(1, c1, tokens, "verification_code");
  }
}
