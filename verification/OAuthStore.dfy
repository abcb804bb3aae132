/**
 * The token store as the service updates it: each method runs one handler's
 * statements in order, without interference.  What the statements do is stated
 * by the functions of OAuthTables, which are also the steps of the interleaved
 * protocol.
 */
module OAuthStore {
  import opened Wrappers
  import opened OAuthScopes
  import opened OAuthTables
  import Links = OAuthLinks
  import Protocol = OAuthProtocol

  datatype TokenPair = TokenPair(accessToken: string, refreshToken: string)

  class TokenStore {
    const cfg: Settings
    var clients: map<string, ClientRow>
    var codes: map<string, CodeRow>
    var access: map<nat, AccessRow>
    var refresh: map<string, RefreshRow>
    var nextId: nat

    constructor (cfg: Settings, clients: map<string, ClientRow>)
      ensures this.cfg == cfg && View() == Tables(clients, map[], map[], map[], 1)
      ensures Valid()
    {
      this.cfg, this.clients := cfg, clients;
      codes, access, refresh, nextId := map[], map[], map[], 1;
    }

    function View(): Tables
      reads this
    {
      Tables(clients, codes, access, refresh, nextId)
    }

    /** Every refresh row links to an existing access row of the same client, user and scopes. */
    ghost predicate Valid()
      reads this
    {
      Linked(View())
    }

    /** The conditional UPDATE; `rows` is RowsAffected. */
    method MarkConsumed(code: string, now: Instant) returns (rows: nat)
      requires Valid()
      modifies this`codes
      ensures Valid()
      ensures View() == ConsumeCode(old(View()), code, now)
      ensures rows == if CodeIsClaimable(old(View()), code, now) then 1 else 0
    {
      Links.MarksKeepLinks(View(), code, now);
      rows := 0;
      if code in codes && codes[code].consumedAt.None? && codes[code].expiresAt > now {
        codes := codes[code := codes[code].(consumedAt := Some(now))];
        rows := 1;
      }
    }

    method MarkRefreshRevoked(token: string, now: Instant) returns (rows: nat)
      requires Valid()
      modifies this`refresh
      ensures Valid()
      ensures View() == RevokeRefresh(old(View()), token, now)
      ensures rows == if RefreshIsClaimable(old(View()), token, now) then 1 else 0
    {
      Links.MarksKeepLinks(View(), token, now);
      rows := 0;
      if token in refresh && refresh[token].revokedAt.None? && refresh[token].expiresAt > now {
        refresh := refresh[token := refresh[token].(revokedAt := Some(now))];
        rows := 1;
      }
    }

    /**
     * `issueUserTokens`, given the two generated tokens: a new access row, a
     * refresh row linked to it, and every other row as it was.
     */
    method IssueUserTokens(clientId: string, userId: string, scopes: seq<string>, t1: string, t2: string, now: Instant)
      returns (pair: TokenPair)
      requires Valid()
      modifies this`access, this`refresh, this`nextId
      ensures Valid() && pair == TokenPair(t1, t2)
      ensures View() == InsertPair(old(View()), cfg, clientId, userId, scopes, t1, t2, now)
      ensures old(nextId) !in old(access) && access.Keys == old(access).Keys + {old(nextId)}
      ensures access[old(nextId)].token == t1 && access[old(nextId)].expiresAt == now + cfg.accessTtl
      ensures refresh.Keys == old(refresh).Keys + {t2} && refresh[t2].accessId == old(nextId)
      ensures LinkedRow(View(), refresh[t2]) && refresh[t2].revokedAt.None? && refresh[t2].userId == userId
      ensures forall id :: id in old(access) ==> access[id] == old(access)[id]
      ensures forall r :: r in old(refresh) && r != t2 ==> refresh[r] == old(refresh)[r]
    {
      Links.InsertsKeepLinks(View(), cfg, clientId, userId, scopes, t1, t2, now, NO_TARGET);
      var id := nextId;
      access := access[id := AccessRow(t1, clientId, Some(userId), scopes, NO_TARGET, now + cfg.accessTtl, None)];
      nextId := nextId + 1;
      refresh := refresh[t2 := RefreshRow(id, clientId, userId, scopes, now + cfg.refreshTtl, None)];
      pair := TokenPair(t1, t2);
    }

    /**
     * Succeeds exactly when the row is there, unconsumed and unexpired at both
     * times the handler looks, and the client, redirect URI and verifier fit.
     * A refusal changes nothing.
     */
    method ExchangeAuthorizationCode(
      clientId: string, code: string, redirectUri: string, verifier: string,
      readAt: Instant, claimAt: Instant, issueAt: Instant, t1: string, t2: string)
      returns (r: Result<TokenPair, OAuthError>)
      requires Valid()
      modifies this
      ensures Valid()
      ensures r.Ok? <==>
        && Protocol.CodeAccepted(cfg, old(View()), clientId, code, redirectUri, verifier, readAt)
        && claimAt < old(codes)[code].expiresAt
      ensures r.Ok? ==> r.value == TokenPair(t1, t2) && View() == InsertPair(
        ConsumeCode(old(View()), code, claimAt), cfg, clientId, old(codes)[code].userId, old(codes)[code].scopes,
        t1, t2, issueAt)
      ensures r.Err? ==> r.error == InvalidGrant && View() == old(View())
    {
      if code !in codes {
        return Err(InvalidGrant);
      }
      var row := codes[code];
      if row.clientId != clientId || row.redirectUri != redirectUri {
        return Err(InvalidGrant);
      }
      if row.consumedAt.Some? || readAt > row.expiresAt {
        return Err(InvalidGrant);
      }
      if cfg.challengeOf(verifier) != row.challenge {
        return Err(InvalidGrant);
      }
      var rows := MarkConsumed(code, claimAt);
      if rows == 0 {
        return Err(InvalidGrant);
      }
      var pair := IssueUserTokens(clientId, row.userId, row.scopes, t1, t2, issueAt);
      return Ok(pair);
    }

    method RefreshUserToken(
      clientId: string, token: string, readAt: Instant, claimAt: Instant, issueAt: Instant, t1: string, t2: string)
      returns (r: Result<TokenPair, OAuthError>)
      requires Valid()
      modifies this
      ensures Valid()
      ensures r.Ok? <==>
        && Protocol.RefreshAccepted(old(View()), clientId, token, readAt)
        && claimAt < old(refresh)[token].expiresAt
      ensures r.Ok? ==> r.value == TokenPair(t1, t2) && View() == InsertPair(
        RevokeRefresh(old(View()), token, claimAt), cfg, clientId, old(refresh)[token].userId,
        old(refresh)[token].scopes, t1, t2, issueAt)
      ensures r.Err? ==> r.error == InvalidGrant && View() == old(View())
    {
      if token !in refresh {
        return Err(InvalidGrant);
      }
      var row := refresh[token];
      if row.clientId != clientId || row.revokedAt.Some? || readAt > row.expiresAt {
        return Err(InvalidGrant);
      }
      var rows := MarkRefreshRevoked(token, claimAt);
      if rows == 0 {
        return Err(InvalidGrant);
      }
      var pair := IssueUserTokens(clientId, row.userId, row.scopes, t1, t2, issueAt);
      return Ok(pair);
    }

    method ValidateAuthorizationRequest(
      clientId: string, redirectUri: string, requested: seq<string>, challenge: string, methodIsS256: bool)
      returns (r: Result<seq<string>, OAuthError>)
      ensures r == AuthorizedScopes(clients, clientId, redirectUri, requested, challenge, methodIsS256)
    {
      if clientId !in clients || !clients[clientId].isActive {
        return Err(InvalidClient);
      }
      var client := clients[clientId];
      if "authorization_code" !in client.grantTypes {
        return Err(UnauthorizedClient);
      }
      if client.kind != Public {
        return Err(UnauthorizedClient);
      }
      if challenge == "" || !methodIsS256 {
        return Err(InvalidCodeChallenge);
      }
      if redirectUri !in client.redirectUris {
        return Err(InvalidRedirectUri);
      }
      r := ResolveRequestedScopes(client.scopes, requested);
    }

    /** The target is looked up only once the scopes allow one; a refusal changes nothing. */
    method IssueClientCredentialsToken(
      clientId: string, client: ClientRow, requested: seq<string>, targetUid: string, targetEmail: string,
      directory: Directory, token: string, now: Instant)
      returns (r: Result<string, OAuthError>)
      requires Valid()
      modifies this`access, this`nextId
      ensures Valid()
      ensures
        var decision := ServiceDecision(client, requested, targetUid, targetEmail, directory);
        && (decision.Err? ==> r == Err(decision.error) && View() == old(View()))
        && (decision.Ok? ==>
          && r == Ok(token)
          && View() == InsertServiceToken(
            old(View()), cfg, clientId, decision.value.0, decision.value.1, token, now))
      ensures r.Ok? ==>
        var row := access[old(nextId)];
        && old(nextId) !in old(access) && row.token == token && row.userId.None? && Within(row.scopes, client.scopes)
        && (row.target == NO_TARGET <==> targetUid == "" && targetEmail == "")
        && (row.target != NO_TARGET ==> Intersects(row.scopes, TargetedServiceScopes()))
        && NamesKnownUsers(row.target, directory)
    {
      var decision := DecideServiceToken(client, requested, targetUid, targetEmail, directory);
      if decision.Err? {
        return Err(decision.error);
      }
      DecisionIsTargeted(client, requested, targetUid, targetEmail, directory);
      InsertServiceRow(clientId, decision.value.0, decision.value.1, token, now);
      return Ok(token);
    }

    method InsertServiceRow(clientId: string, scopes: seq<string>, target: Target, token: string, now: Instant)
      requires Valid()
      modifies this`access, this`nextId
      ensures Valid() && View() == InsertServiceToken(old(View()), cfg, clientId, scopes, target, token, now)
      ensures old(nextId) !in old(access) && access.Keys == old(access).Keys + {old(nextId)}
      ensures access[old(nextId)] == AccessRow(token, clientId, None, scopes, target, now + cfg.accessTtl, None)
      ensures forall id :: id in old(access) ==> access[id] == old(access)[id]
    {
      Links.InsertsKeepLinks(View(), cfg, clientId, "", scopes, token, "", now, target);
      access := access[nextId := AccessRow(token, clientId, None, scopes, target, now + cfg.accessTtl, None)];
      nextId := nextId + 1;
    }

    /** Rows of this token end revoked, with the time of their first revocation; every other row stays. */
    method RevokeAccessToken(token: string, now: Instant)
      requires Valid()
      modifies this`access
      ensures Valid() && View() == RevokeAccess(old(View()), token, now)
      ensures access.Keys == old(access).Keys
      ensures forall id :: id in access && access[id].token == token ==> access[id].revokedAt.Some?
      ensures forall id :: id in access && (old(access)[id].token != token || old(access)[id].revokedAt.Some?) ==>
        access[id] == old(access)[id]
      ensures forall id :: id in access ==>
        access[id].(revokedAt := None) == old(access)[id].(revokedAt := None)
      ensures RevokeAccess(View(), token, now) == View()
    {
      Links.MarksKeepLinks(View(), token, now);
      RevokeTwice(View(), token, now, now);
      access := map id | id in access ::
        if access[id].token == token && access[id].revokedAt.None?
        then access[id].(revokedAt := Some(now)) else access[id];
    }

    /** Deletes expired and revoked access tokens, with the cascade; returns how many access rows went. */
    method CleanupExpiredAccessTokens(now: Instant) returns (deleted: nat)
      requires Valid()
      modifies this`access, this`refresh
      ensures Valid() && View() == CleanupAccess(old(View()), now)
      ensures deleted == |set id | id in old(access) && AccessIsStale(old(access)[id], now)|
      ensures forall id :: id in access <==> id in old(access) && !AccessIsStale(old(access)[id], now)
      ensures forall r :: r in refresh <==>
        r in old(refresh) && !AccessIsStale(old(access)[old(refresh)[r].accessId], now)
      ensures forall id :: id in access ==> access[id] == old(access)[id]
      ensures forall r :: r in refresh ==> refresh[r] == old(refresh)[r]
    {
      Links.CleanupKeepsLinks(View(), now);
      Links.CleanupRowByRow(View(), now);
      var doomed := set id | id in access && AccessIsStale(access[id], now);
      assert doomed == set id | id in old(access) && AccessIsStale(old(access)[id], now);
      deleted := |doomed|;
      var kept := access.Keys - doomed;
      assert kept == set id | id in access && !AccessIsStale(access[id], now);
      DeleteAllBut(kept);
    }

    /** The DELETE with its cascade. */
    method DeleteAllBut(kept: set<nat>)
      modifies this`access, this`refresh
      ensures View() == KeepAccess(old(View()), kept)
    {
      access := map id | id in access && id in kept :: access[id];
      refresh := map r | r in refresh && refresh[r].accessId in kept :: refresh[r];
    }

    /** Deletes the codes past their time, consumed or not; returns how many went. */
    method CleanupExpiredAuthorizationCodes(now: Instant) returns (deleted: nat)
      requires Valid()
      modifies this`codes
      ensures Valid() && View() == CleanupCodes(old(View()), now)
      ensures deleted == |set c | c in old(codes) && old(codes)[c].expiresAt < now|
      ensures forall c :: c in codes <==> c in old(codes) && !(old(codes)[c].expiresAt < now)
      ensures forall c :: c in codes ==> codes[c] == old(codes)[c]
    {
      Links.LinksQuiet(View(), CleanupCodes(View(), now));
      var doomed := set c | c in codes && codes[c].expiresAt < now;
      deleted := |doomed|;
      codes := map c | c in codes && c !in doomed :: codes[c];
    }
  }
}
