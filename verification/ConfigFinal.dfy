/** How the oauth2, manage and redis sections end, field by field. */
module ConfigFinal {
  import opened Strings
  import opened ConfigSteps
  import opened ConfigChain
  import opened ConfigTheorems

  ghost function ClientDefaults(secret: string): Fields {
    map["super_client_id" := Str("hrpauth-internal-super"), "super_client_secret" := Str(secret),
        "public_client_id" := Str("hrpauth-webui")]
  }

  ghost function RedirectsFor(frontendUrl: string): Value {
    List(if frontendUrl == "" then [] else [Str(TrimEnd(frontendUrl, IsSlash) + "/oauth/callback")])
  }

  /** A field no step supplies anything to: the value it had, if it had one, and nothing otherwise. */
  ghost predicate IsPlainField(f: string) {
    f != "issuer" && f !in TtlFields() && f !in ClientDefaults("") && f != "public_redirect_uris"
  }

  /** Each oauth2 field after the 3 -> 4 step, by what kind of field it is. */
  ghost predicate OAuthFilled(o: Fields, o': Fields, callbackUrl: string, frontendUrl: string, secret: string) {
    && (forall f :: f in TtlFields() ==>
      f in o' && o'[f] == if f in o && o[f] != Num(0) then o[f] else Num(TtlFields()[f]))
    && (forall f :: f in ClientDefaults(secret) ==>
      f in o' && o'[f] == if StrOf(o, f) != "" then o[f] else ClientDefaults(secret)[f])
    && (if StrOf(o, "issuer") == "" && callbackUrl != "" then "issuer" in o' && o'["issuer"] == Str(callbackUrl)
        else SameAt(o, o', "issuer"))
    && (if "public_redirect_uris" in o then SameAt(o, o', "public_redirect_uris")
        else "public_redirect_uris" in o' && o'["public_redirect_uris"] == RedirectsFor(frontendUrl))
    && (forall f :: IsPlainField(f) ==> SameAt(o, o', f))
  }

  lemma ClientsFilled(o: Fields, token: string, f: string)
    ensures f in ClientDefaults(token) ==>
      f in FillClients(o, token)
      && FillClients(o, token)[f] == if StrOf(o, f) != "" then o[f] else ClientDefaults(token)[f]
    ensures f !in ClientDefaults(token) ==> SameAt(o, FillClients(o, token), f)
  {
  }

  lemma TtlsFilled(o: Fields, f: string)
    ensures f in TtlFields() ==>
      f in FillTtls(o) && FillTtls(o)[f] == if f in o && o[f] != Num(0) then o[f] else Num(TtlFields()[f])
    ensures f !in TtlFields() ==> SameAt(o, FillTtls(o), f)
  {
  }

  lemma FieldKindsDiffer(f: string, secret: string)
    ensures f in ClientDefaults(secret) <==> f in ClientDefaults("")
    ensures f in TtlFields() ==> f !in ClientDefaults(secret) && f != "issuer" && f != "public_redirect_uris"
    ensures f in ClientDefaults(secret) ==> f !in TtlFields() && f != "issuer" && f != "public_redirect_uris"
    ensures "issuer" !in TtlFields() && "issuer" !in ClientDefaults(secret) && "issuer" != "public_redirect_uris"
    ensures "public_redirect_uris" !in TtlFields() && "public_redirect_uris" !in ClientDefaults(secret)
  {
  }

  /** The four fills one after the other, seen at one field. */
  lemma FillsAt(o: Fields, callbackUrl: string, frontendUrl: string, secret: string, f: string)
    returns (o1: Fields, o2: Fields, o3: Fields, o4: Fields)
    ensures o1 == FillIssuer(o, callbackUrl) && o2 == FillTtls(o1)
    ensures o3 == FillClients(o2, secret) && o4 == FillRedirects(o3, frontendUrl)
    ensures f != "issuer" ==> SameAt(o, o1, f)
    ensures f !in TtlFields() ==> SameAt(o1, o2, f)
    ensures f !in ClientDefaults(secret) ==> SameAt(o2, o3, f)
    ensures f != "public_redirect_uris" ==> SameAt(o3, o4, f)
  {
    o1 := FillIssuer(o, callbackUrl);
    o2 := FillTtls(o1);
    o3 := FillClients(o2, secret);
    o4 := FillRedirects(o3, frontendUrl);
    TtlsFilled(o1, f);
    ClientsFilled(o2, secret, f);
  }

  lemma TtlAt(o: Fields, callbackUrl: string, frontendUrl: string, secret: string, f: string)
    requires f in TtlFields()
    ensures var o4 := FillRedirects(FillClients(FillTtls(FillIssuer(o, callbackUrl)), secret), frontendUrl);
      f in o4 && o4[f] == if f in o && o[f] != Num(0) then o[f] else Num(TtlFields()[f])
  {
    FieldKindsDiffer(f, secret);
    var o1, o2, o3, o4 := FillsAt(o, callbackUrl, frontendUrl, secret, f);
    TtlsFilled(o1, f);
  }

  lemma ClientAt(o: Fields, callbackUrl: string, frontendUrl: string, secret: string, f: string)
    requires f in ClientDefaults(secret)
    ensures var o4 := FillRedirects(FillClients(FillTtls(FillIssuer(o, callbackUrl)), secret), frontendUrl);
      f in o4 && o4[f] == if StrOf(o, f) != "" then o[f] else ClientDefaults(secret)[f]
  {
    FieldKindsDiffer(f, secret);
    var o1, o2, o3, o4 := FillsAt(o, callbackUrl, frontendUrl, secret, f);
    ClientsFilled(o2, secret, f);
  }

  lemma IssuerAt(o: Fields, callbackUrl: string, frontendUrl: string, secret: string)
    ensures var o4 := FillRedirects(FillClients(FillTtls(FillIssuer(o, callbackUrl)), secret), frontendUrl);
      if StrOf(o, "issuer") == "" && callbackUrl != "" then "issuer" in o4 && o4["issuer"] == Str(callbackUrl)
      else SameAt(o, o4, "issuer")
  {
    FieldKindsDiffer("issuer", secret);
    var o1, o2, o3, o4 := FillsAt(o, callbackUrl, frontendUrl, secret, "issuer");
  }

  lemma RedirectsAt(o: Fields, callbackUrl: string, frontendUrl: string, secret: string)
    ensures var o4 := FillRedirects(FillClients(FillTtls(FillIssuer(o, callbackUrl)), secret), frontendUrl);
      if "public_redirect_uris" in o then SameAt(o, o4, "public_redirect_uris")
      else "public_redirect_uris" in o4 && o4["public_redirect_uris"] == RedirectsFor(frontendUrl)
  {
    FieldKindsDiffer("public_redirect_uris", secret);
    var o1, o2, o3, o4 := FillsAt(o, callbackUrl, frontendUrl, secret, "public_redirect_uris");
  }

  lemma PlainAt(o: Fields, callbackUrl: string, frontendUrl: string, secret: string, f: string)
    requires IsPlainField(f)
    ensures SameAt(o, FillRedirects(FillClients(FillTtls(FillIssuer(o, callbackUrl)), secret), frontendUrl), f)
  {
    FieldKindsDiffer(f, secret);
    var o1, o2, o3, o4 := FillsAt(o, callbackUrl, frontendUrl, secret, f);
  }

  lemma FillsAreFilled(o: Fields, callbackUrl: string, frontendUrl: string, secret: string)
    ensures OAuthFilled(
      o, FillRedirects(FillClients(FillTtls(FillIssuer(o, callbackUrl)), secret), frontendUrl),
      callbackUrl, frontendUrl, secret)
  {
    forall f | f in TtlFields() {
      TtlAt(o, callbackUrl, frontendUrl, secret, f);
    }
    forall f | f in ClientDefaults(secret) {
      ClientAt(o, callbackUrl, frontendUrl, secret, f);
    }
    IssuerAt(o, callbackUrl, frontendUrl, secret);
    RedirectsAt(o, callbackUrl, frontendUrl, secret);
    forall f | IsPlainField(f) {
      PlainAt(o, callbackUrl, frontendUrl, secret, f);
    }
  }

  // ----- The three empty values the later steps add -----

  ghost function ExtraDefaults(): Fields {
    map["service_scope_allowlist" := Section(map[])]
    + map["service_clients" := List([])]
    + map["super_client_extra_scopes" := List([])]
  }

  lemma FillingStep(i: nat, c: Fields, token: string)
    requires i == 5 || i == 11 || i == 12
    ensures SectionOf(ApplyStep(i, c, token), "oauth2")
      == (if i == 5 then map["super_client_extra_scopes" := List([])]
          else if i == 11 then map["service_clients" := List([])]
          else map["service_scope_allowlist" := Section(map[])])
         + SectionOf(c, "oauth2")
  {
  }

  lemma OnlyThreeTouch()
    ensures forall t :: 3 <= t < 5 ==> "oauth2" !in Touches(t)
    ensures forall t :: 6 <= t < 11 ==> "oauth2" !in Touches(t)
  {
  }

  lemma LaterOAuth(c: Fields, tokens: nat -> string)
    ensures SectionOf(RunFrom(Chain(), 3, c, tokens), "oauth2") == ExtraDefaults() + SectionOf(c, "oauth2")
  {
    OnlyThreeTouch();
    var c5 := Between(3, 5, c, tokens);
    BetweenTouchesOnly(3, 5, c, tokens, "oauth2");
    BetweenThenRest(3, 5, c, tokens);
    var c6 := ApplyStep(5, c5, tokens(5));
    FillingStep(5, c5, tokens(5));
    var c11 := Between(6, 11, c6, tokens);
    BetweenTouchesOnly(6, 11, c6, tokens, "oauth2");
    BetweenThenRest(6, 11, c6, tokens);
    var c12 := ApplyStep(11, c11, tokens(11));
    FillingStep(11, c11, tokens(11));
    FillingStep(12, c12, tokens(12));
    LastTwo(c11, tokens);
    ThreeOver(SectionOf(c, "oauth2"));
  }

  lemma LastTwo(c: Fields, tokens: nat -> string)
    ensures RunFrom(Chain(), 11, c, tokens) == ApplyStep(12, ApplyStep(11, c, tokens(11)), tokens(12))
  {
    assert RunFrom(Chain(), 13, ApplyStep(12, ApplyStep(11, c, tokens(11)), tokens(12)), tokens)
      == ApplyStep(12, ApplyStep(11, c, tokens(11)), tokens(12));
  }

  lemma ThreeOver(o: Fields)
    ensures map["service_scope_allowlist" := Section(map[])]
      + (map["service_clients" := List([])] + (map["super_client_extra_scopes" := List([])] + o))
      == ExtraDefaults() + o
  {
  }

  // ----- The sections at the end -----

  /** The tree with which the steps after the third start. */
  lemma OAuthReached(start: nat, c: Fields, tokens: nat -> string) returns (c2: Fields, c3: Fields)
    requires start <= 2
    ensures c2 == Between(start, 2, c, tokens) && c3 == ApplyStep(2, c2, tokens(2))
    ensures RunFrom(Chain(), start, c, tokens) == RunFrom(Chain(), 3, c3, tokens)
  {
    c2 := Between(start, 2, c, tokens);
    BetweenThenRest(start, 2, c, tokens);
    c3 := ApplyStep(2, c2, tokens(2));
  }

  lemma NotTouchedEarly()
    ensures forall t :: 0 <= t < 2 ==> "oauth2" !in Touches(t) && "callback" !in Touches(t) && "frontend" !in Touches(t)
  {
  }

  lemma SectionReached(start: nat, c: Fields, tokens: nat -> string, k: string)
    requires start <= 2 && k != "version" && forall t :: 0 <= t < 2 ==> k !in Touches(t)
    ensures SectionOf(Between(start, 2, c, tokens), k) == SectionOf(c, k)
  {
    BetweenTouchesOnly(start, 2, c, tokens, k);
  }

  lemma OAuthStepFills(c2: Fields, secret: string)
    ensures OAuthFilled(
      SectionOf(c2, "oauth2"), SectionOf(ApplyStep(2, c2, secret), "oauth2"),
      StrOf(SectionOf(c2, "callback"), "url"), StrOf(SectionOf(c2, "frontend"), "url"), secret)
  {
    OAuthMade(c2, secret);
    FillsAreFilled(
      SectionOf(c2, "oauth2"), StrOf(SectionOf(c2, "callback"), "url"), StrOf(SectionOf(c2, "frontend"), "url"), secret);
  }

  /**
   * From any version up to "3" the oauth2 section ends as its old fields with
   * everything unset filled, and with the three values of the later steps
   * wherever it had none.
   */
  lemma OAuthAtTheEnd(start: nat, c: Fields, tokens: nat -> string) returns (filled: Fields)
    requires start <= 2
    ensures OAuthFilled(
      SectionOf(c, "oauth2"), filled, StrOf(SectionOf(c, "callback"), "url"), StrOf(SectionOf(c, "frontend"), "url"),
      tokens(2))
    ensures SectionOf(RunFrom(Chain(), start, c, tokens), "oauth2") == ExtraDefaults() + filled
  {
    var c2, c3 := OAuthReached(start, c, tokens);
    filled := SectionOf(c3, "oauth2");
    OAuthStepFills(c2, tokens(2));
    NotTouchedEarly();
    SectionReached(start, c, tokens, "oauth2");
    SectionReached(start, c, tokens, "callback");
    SectionReached(start, c, tokens, "frontend");
    LaterOAuth(c3, tokens);
  }

  lemma ManageStep(c: Fields, token: string)
    ensures SectionOf(ApplyStep(1, c, token), "manage") == FillStr(SectionOf(c, "manage"), "token", token)
  {
  }

  lemma RedisStep(c: Fields, token: string)
    ensures HasSection(c, "redis") ==>
      && HasSection(ApplyStep(1, c, token), "redis")
      && SectionOf(ApplyStep(1, c, token), "redis") == FillStr(SectionOf(c, "redis"), "prefix", "hrpauth_")
    ensures !HasSection(c, "redis") ==> SameAt(c, ApplyStep(1, c, token), "redis")
  {
  }

  lemma FilledField(o: Fields, k: string, default: string)
    ensures var o' := FillStr(o, k, default);
      && (forall f :: f != k ==> SameAt(o, o', f))
      && k in o' && o'[k] == if StrOf(o, k) != "" then o[k] else Str(default)
  {
  }

  lemma ManageReached(start: nat, c: Fields, tokens: nat -> string)
    requires start <= 1
    ensures SectionOf(RunFrom(Chain(), start, c, tokens), "manage")
      == FillStr(SectionOf(c, "manage"), "token", tokens(1))
  {
    var c1, c2 := ThroughStep(start, 1, c, tokens, "manage");
    BetweenTouchesOnly(start, 1, c, tokens, "manage");
    ManageStep(c1, tokens(1));
  }

  /** The manage section ends as it was, with the generated token where it had none. */
  lemma ManageAtTheEnd(start: nat, c: Fields, tokens: nat -> string)
    requires start <= 1
    ensures var m, m' := SectionOf(c, "manage"), SectionOf(RunFrom(Chain(), start, c, tokens), "manage");
      && (forall f :: f != "token" ==> SameAt(m, m', f))
      && "token" in m' && m'["token"] == if StrOf(m, "token") != "" then m["token"] else Str(tokens(1))
  {
    ManageReached(start, c, tokens);
    FilledField(SectionOf(c, "manage"), "token", tokens(1));
  }

  /** The redis section the second step finds: from "1.0" there always is one. */
  ghost predicate HasRedis(start: nat, c: Fields) {
    start == 0 || HasSection(c, "redis")
  }

  ghost function RedisFound(c: Fields): Fields {
    if HasSection(c, "redis") then SectionOf(c, "redis") else RedisDefaults()
  }

  lemma RedisBeforeSecond(start: nat, c: Fields, tokens: nat -> string)
    requires start <= 1
    ensures HasRedis(start, c) ==> HasSection(Between(start, 1, c, tokens), "redis")
    ensures HasRedis(start, c) ==> SectionOf(Between(start, 1, c, tokens), "redis") == RedisFound(c)
    ensures !HasRedis(start, c) ==> Between(start, 1, c, tokens) == c
  {
    if start == 0 {
      LastOfBetween(0, 0, c, tokens);
      FirstStepRedis(c, tokens(0));
    }
  }

  lemma FirstStepRedis(c: Fields, token: string)
    ensures HasSection(ApplyStep(0, c, token), "redis")
    ensures SectionOf(ApplyStep(0, c, token), "redis") == RedisFound(c)
  {
  }

  lemma RedisReached(start: nat, c: Fields, tokens: nat -> string)
    requires start <= 1
    ensures var final := RunFrom(Chain(), start, c, tokens);
      if HasRedis(start, c) then
        HasSection(final, "redis") && SectionOf(final, "redis") == FillStr(RedisFound(c), "prefix", "hrpauth_")
      else SameAt(c, final, "redis")
  {
    var c1, c2 := ThroughStep(start, 1, c, tokens, "redis");
    RedisBeforeSecond(start, c, tokens);
    RedisStep(c1, tokens(1));
  }

  /** The redis section ends as it was, or as the default from "1.0", with its prefix filled; from "2" none is made. */
  lemma RedisAtTheEnd(start: nat, c: Fields, tokens: nat -> string)
    requires start <= 1
    ensures var r, final := RedisFound(c), RunFrom(Chain(), start, c, tokens);
      if HasRedis(start, c) then
        && HasSection(final, "redis")
        && (forall f :: f != "prefix" ==> SameAt(r, SectionOf(final, "redis"), f))
        && "prefix" in SectionOf(final, "redis")
        && SectionOf(final, "redis")["prefix"] == if StrOf(r, "prefix") != "" then r["prefix"] else Str("hrpauth_")
      else SameAt(c, final, "redis")
  {
    RedisReached(start, c, tokens);
    FilledField(RedisFound(c), "prefix", "hrpauth_");
  }
}
