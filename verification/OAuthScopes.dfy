/** Scope lists and the three loops that decide which scopes a client may get. */
module OAuthScopes {
  import opened Wrappers
  import opened OAuthTables
  import opened Strings

  datatype OAuthError =
    | InvalidClient | InvalidGrant | InvalidScope | UnauthorizedClient | InvalidRedirectUri
    | InvalidCodeChallenge | InvalidTarget | InsufficientScope | InvalidClientMetadata
    | RegistrationConflict | DatabaseError

  function PublicSiteScopes(): seq<string> {
    ["user.read", "user.delete", "user.delete.list", "profile.change-username", "totp.setup", "totp.toggle",
     "webauthn.register", "webauthn.credentials", "webauthn.2fa", "email-2fa.toggle", "user.security.manage"]
  }

  function TargetedServiceScopes(): seq<string> {
    ["user.read.as-service", "user.delete.as-service", "user.delete.list.as-service",
     "profile.change-username.as-service", "totp.setup.as-service", "totp.toggle.as-service",
     "webauthn.register.as-service", "webauthn.credentials.as-service", "webauthn.2fa.as-service",
     "email-2fa.toggle.as-service", "user.security.manage.as-service"]
  }

  function ServiceSiteScopes(): seq<string> {
    ["user.claim.as-service", "user.force-bind.as-service"] + TargetedServiceScopes()
  }

  predicate Within(scopes: seq<string>, allowed: seq<string>) {
    forall s :: s in scopes ==> s in allowed
  }

  predicate Intersects(have: seq<string>, wants: seq<string>) {
    exists w :: w in wants && w in have
  }

  /** `containsAny`. */
  method ContainsAny(have: seq<string>, wants: seq<string>) returns (found: bool)
    ensures found <==> Intersects(have, wants)
  {
    for i := 0 to |wants|
      invariant forall j :: 0 <= j < i ==> wants[j] !in have
    {
      if wants[i] in have {
        return true;
      }
    }
    return false;
  }

  /**
   * What an authorization or client_credentials request is granted.  A request
   * is its scope string split on whitespace, so blank means the empty list.
   */
  function GrantedScopes(allowed: seq<string>, requested: seq<string>): (r: Result<seq<string>, OAuthError>)
    ensures r.Ok? ==> Within(r.value, allowed)
    ensures r.Err? <==> !Within(requested, allowed)
  {
    if requested == [] then Ok(allowed)
    else if Within(requested, allowed) then Ok(requested)
    else Err(InvalidScope)
  }

  /** `resolveRequestedScopes`. */
  method ResolveRequestedScopes(allowed: seq<string>, requested: seq<string>)
    returns (r: Result<seq<string>, OAuthError>)
    ensures r == GrantedScopes(allowed, requested)
  {
    if requested == [] {
      return Ok(allowed);
    }
    for i := 0 to |requested|
      invariant forall j :: 0 <= j < i ==> requested[j] in allowed
    {
      if requested[i] !in allowed {
        return Err(InvalidScope);
      }
    }
    return Ok(requested);
  }

  /** What registration grants: the request itself or, when blank, everything known on the allowlist; each once. */
  ghost predicate RegistrationGrant(allowlist: seq<string>, requested: seq<string>, granted: seq<string>) {
    && AllDistinct(granted)
    && Within(requested, ServiceSiteScopes()) && Within(requested, allowlist)
    && (requested != [] ==> forall s :: s in granted <==> s in requested)
    && (requested == [] ==> forall s :: s in granted <==> s in allowlist && s in ServiceSiteScopes())
  }

  function Same(s: string): string {
    s
  }

  predicate IsServiceScope(s: string) {
    s in ServiceSiteScopes()
  }

  /** The known service scopes of a list, each at its first mention. */
  function FirstMentions(items: seq<string>): seq<string> {
    KeptOnce(items, Same, IsServiceScope)
  }

  /**
   * `ServiceRegistrationScopes`: only known service scopes on the allowlist are
   * ever granted, each once; an empty request gets all of them, and a request
   * for anything else is refused rather than narrowed.
   */
  method ServiceRegistrationScopes(allowlist: seq<string>, requested: seq<string>)
    returns (r: Result<seq<string>, OAuthError>)
    ensures r.Err? <==> !Within(requested, ServiceSiteScopes()) || !Within(requested, allowlist)
    ensures r.Err? ==> r.error == InvalidClientMetadata
    ensures r.Ok? ==> RegistrationGrant(allowlist, requested, r.value)
    ensures r.Ok? ==> r.value == FirstMentions(if requested == [] then allowlist else requested)
  {
    var known := ServiceSiteScopes();
    var granted: seq<string> := [];
    if requested == [] {
      for i := 0 to |allowlist|
        invariant granted == KeptOnce(allowlist[..i], Same, IsServiceScope)
      {
        assert allowlist[..i + 1][..i] == allowlist[..i];
        if allowlist[i] in known && allowlist[i] !in granted {
          granted := granted + [allowlist[i]];
        }
        assert allowlist[..i + 1] == allowlist[..i] + [allowlist[i]];
      }
      assert allowlist[..|allowlist|] == allowlist;
      KeptOnceMembers(allowlist, Same, IsServiceScope);
      return Ok(granted);
    }
    for i := 0 to |requested|
      invariant Within(requested[..i], known) && Within(requested[..i], allowlist)
      invariant granted == KeptOnce(requested[..i], Same, IsServiceScope)
    {
      assert requested[..i + 1][..i] == requested[..i];
      if requested[i] !in known || requested[i] !in allowlist {
        return Err(InvalidClientMetadata);
      }
      if requested[i] !in granted {
        granted := granted + [requested[i]];
      }
      assert requested[..i + 1] == requested[..i] + [requested[i]];
    }
    assert requested[..|requested|] == requested;
    KeptOnceMembers(requested, Same, IsServiceScope);
    return Ok(granted);
  }

  /** The client may run the authorization code flow. */
  predicate RunsCodeFlow(clients: map<string, ClientRow>, clientId: string) {
    && clientId in clients && clients[clientId].isActive && clients[clientId].kind == Public
    && "authorization_code" in clients[clientId].grantTypes
  }

  /** `ValidateAuthorizationRequest`, as a function of the row `GetClient` finds. */
  function AuthorizedScopes(
    clients: map<string, ClientRow>, clientId: string, redirectUri: string, requested: seq<string>,
    challenge: string, methodIsS256: bool): (r: Result<seq<string>, OAuthError>)
    ensures r.Ok? <==>
      && RunsCodeFlow(clients, clientId) && challenge != "" && methodIsS256
      && redirectUri in clients[clientId].redirectUris && Within(requested, clients[clientId].scopes)
    ensures r.Ok? ==> Within(r.value, clients[clientId].scopes)
    ensures r.Ok? ==> r.value == if requested == [] then clients[clientId].scopes else requested
    ensures r == Err(InvalidClient) <==> clientId !in clients || !clients[clientId].isActive
    ensures r == Err(UnauthorizedClient) <==>
      clientId in clients && clients[clientId].isActive && !RunsCodeFlow(clients, clientId)
    ensures r == Err(InvalidCodeChallenge) <==>
      RunsCodeFlow(clients, clientId) && (challenge == "" || !methodIsS256)
    ensures r == Err(InvalidRedirectUri) <==>
      && RunsCodeFlow(clients, clientId) && challenge != "" && methodIsS256
      && redirectUri !in clients[clientId].redirectUris
    ensures r == Err(InvalidScope) <==>
      && RunsCodeFlow(clients, clientId) && challenge != "" && methodIsS256
      && redirectUri in clients[clientId].redirectUris && !Within(requested, clients[clientId].scopes)
  {
    if clientId !in clients || !clients[clientId].isActive then Err(InvalidClient)
    else
      var client := clients[clientId];
      if "authorization_code" !in client.grantTypes || client.kind != Public then Err(UnauthorizedClient)
      else if challenge == "" || !methodIsS256 then Err(InvalidCodeChallenge)
      else if redirectUri !in client.redirectUris then Err(InvalidRedirectUri)
      else GrantedScopes(client.scopes, requested)
  }

  /** The list a granted request ends with. */
  function ListFor(client: ClientRow, requested: seq<string>): seq<string> {
    if requested == [] then client.scopes else requested
  }

  /**
   * `IssueClientCredentialsToken` up to the insert.  `targeted` says that the
   * request names a target user, `resolved` is what the lookups make of it.
   */
  function ServiceTokenScopes(client: ClientRow, requested: seq<string>, targeted: bool, resolved: Option<Target>):
    (r: Result<seq<string>, OAuthError>)
    ensures r.Ok? <==>
      && "client_credentials" in client.grantTypes && Within(requested, client.scopes)
      && (targeted ==> Intersects(ListFor(client, requested), TargetedServiceScopes()) && resolved.Some?)
    ensures r.Ok? ==> r.value == ListFor(client, requested) && Within(r.value, client.scopes)
    ensures r == Err(UnauthorizedClient) <==> "client_credentials" !in client.grantTypes
    ensures r == Err(InvalidScope) <==> "client_credentials" in client.grantTypes && !Within(requested, client.scopes)
    ensures r == Err(InsufficientScope) <==>
      && "client_credentials" in client.grantTypes && Within(requested, client.scopes)
      && targeted && !Intersects(ListFor(client, requested), TargetedServiceScopes())
    ensures r == Err(InvalidTarget) <==>
      && "client_credentials" in client.grantTypes && Within(requested, client.scopes)
      && targeted && Intersects(ListFor(client, requested), TargetedServiceScopes()) && resolved.None?
  {
    if "client_credentials" !in client.grantTypes then Err(UnauthorizedClient)
    else
      var granted := GrantedScopes(client.scopes, requested);
      if granted.Err? then granted
      else if targeted && !Intersects(granted.value, TargetedServiceScopes()) then Err(InsufficientScope)
      else if targeted && resolved.None? then Err(InvalidTarget)
      else granted
  }

  // ----- The target of a service token -----

  /** The users the two lookups find. */
  datatype Directory = Directory(uids: set<nat>, emails: set<string>)

  /** `utils.ParseUintString`. */
  function ParseUint(raw: string): Option<nat> {
    var v := TrimSpace(raw);
    if IsNumber(v) && DecimalValue(v) <= 0xFFFF_FFFF_FFFF_FFFF then Some(DecimalValue(v)) else None
  }

  function NormalEmail(raw: string): string {
    TrimSpace(ToLower(raw))
  }

  predicate UidIsKnown(uid: string, directory: Directory) {
    ParseUint(uid).Some? && ParseUint(uid).value in directory.uids
  }

  predicate EmailIsKnown(email: string, directory: Directory) {
    NormalEmail(email) in directory.emails
  }

  /** Each part that is given must name a user; a part that is not given stays empty. */
  function ResolvedTarget(uid: string, email: string, directory: Directory): (r: Option<Target>)
    ensures r.Some? <==> (uid == "" || UidIsKnown(uid, directory)) && (email == "" || EmailIsKnown(email, directory))
    ensures r.Some? ==> (r.value == NO_TARGET <==> uid == "" && email == "")
  {
    if uid != "" && !UidIsKnown(uid, directory) then None
    else if email != "" && !EmailIsKnown(email, directory) then None
    else Some(Target(if uid == "" then None else ParseUint(uid), if email == "" then None else Some(NormalEmail(email))))
  }

  /** The two lookups of `IssueClientCredentialsToken`. */
  method LookUpTarget(targetUid: string, targetEmail: string, directory: Directory) returns (r: Option<Target>)
    ensures r == ResolvedTarget(targetUid, targetEmail, directory)
  {
    var target := NO_TARGET;
    if targetUid != "" {
      var uid := ParseUint(targetUid);
      if uid.None? || uid.value !in directory.uids {
        return None;
      }
      target := target.(uid := uid);
    }
    if targetEmail != "" {
      var email := NormalEmail(targetEmail);
      if email !in directory.emails {
        return None;
      }
      target := target.(email := Some(email));
    }
    r := Some(target);
  }

  /** What `IssueClientCredentialsToken` puts in the row, or why it refuses. */
  function ServiceDecision(
    client: ClientRow, requested: seq<string>, targetUid: string, targetEmail: string, directory: Directory)
    : Result<(seq<string>, Target), OAuthError>
  {
    var target := ResolvedTarget(targetUid, targetEmail, directory);
    match ServiceTokenScopes(client, requested, targetUid != "" || targetEmail != "", target)
    case Err(error) => Err(error)
    case Ok(scopes) => Ok((scopes, if target.Some? then target.value else NO_TARGET))
  }

  predicate NamesKnownUsers(target: Target, directory: Directory) {
    && (target.uid.Some? ==> target.uid.value in directory.uids)
    && (target.email.Some? ==> target.email.value in directory.emails)
  }

  /** A row with a target names known users and holds a targeted service scope. */
  lemma DecisionIsTargeted(
    client: ClientRow, requested: seq<string>, targetUid: string, targetEmail: string, directory: Directory)
    requires ServiceDecision(client, requested, targetUid, targetEmail, directory).Ok?
    ensures
      var (scopes, target) := ServiceDecision(client, requested, targetUid, targetEmail, directory).value;
      && Within(scopes, client.scopes)
      && (target == NO_TARGET <==> targetUid == "" && targetEmail == "")
      && (target != NO_TARGET ==> Intersects(scopes, TargetedServiceScopes()))
      && NamesKnownUsers(target, directory)
  {
  }

  method DecideServiceToken(
    client: ClientRow, requested: seq<string>, targetUid: string, targetEmail: string, directory: Directory)
    returns (r: Result<(seq<string>, Target), OAuthError>)
    ensures r == ServiceDecision(client, requested, targetUid, targetEmail, directory)
  {
    if "client_credentials" !in client.grantTypes {
      return Err(UnauthorizedClient);
    }
    var granted := ResolveRequestedScopes(client.scopes, requested);
    if granted.Err? {
      return Err(granted.error);
    }
    var targeted := ContainsAny(granted.value, TargetedServiceScopes());
    if (targetUid != "" || targetEmail != "") && !targeted {
      return Err(InsufficientScope);
    }
    var target := LookUpTarget(targetUid, targetEmail, directory);
    if target.None? {
      return Err(InvalidTarget);
    }
    r := Ok((granted.value, target.value));
  }
}
