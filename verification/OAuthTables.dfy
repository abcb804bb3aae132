/**
 * The four OAuth2 tables and the single SQL statements that change them.
 *
 * A table is a map from a unique key to its row, so the unique indexes of the
 * schema hold by construction.  Each function is one statement (or one
 * transaction): it takes the tables before and gives the tables after.
 */
module OAuthTables {
  import opened Wrappers

  type Instant = int

  datatype ClientKind = Public | Confidential

  datatype ClientRow = ClientRow(
    secret: string, name: string, kind: ClientKind, grantTypes: seq<string>, redirectUris: seq<string>,
    scopes: seq<string>, isInternal: bool, isSuper: bool, isActive: bool)

  datatype CodeRow = CodeRow(
    clientId: string, userId: string, redirectUri: string, scopes: seq<string>, challenge: string,
    expiresAt: Instant, consumedAt: Option<Instant>)

  /** The user a service token acts on, by uid, by email, by both or by neither. */
  datatype Target = Target(uid: Option<nat>, email: Option<string>)

  const NO_TARGET := Target(None, None)

  datatype AccessRow = AccessRow(
    token: string, clientId: string, userId: Option<string>, scopes: seq<string>, target: Target,
    expiresAt: Instant, revokedAt: Option<Instant>)

  datatype RefreshRow = RefreshRow(
    accessId: nat, clientId: string, userId: string, scopes: seq<string>,
    expiresAt: Instant, revokedAt: Option<Instant>)

  /** `access` is keyed by its AUTO_INCREMENT id; `nextId` is the next id to hand out. */
  datatype Tables = Tables(
    clients: map<string, ClientRow>, codes: map<string, CodeRow>,
    access: map<nat, AccessRow>, refresh: map<string, RefreshRow>, nextId: nat)

  /** `challengeOf` stands for base64url(sha256(verifier)). */
  datatype Settings = Settings(
    challengeOf: string -> string, codeTtl: int, accessTtl: int, refreshTtl: int, publicClientId: string)

  function InsertCode(t: Tables, code: string, row: CodeRow): Tables {
    t.(codes := t.codes[code := row])
  }

  predicate CodeIsClaimable(t: Tables, code: string, now: Instant) {
    code in t.codes && t.codes[code].consumedAt.None? && t.codes[code].expiresAt > now
  }

  /** UPDATE ... SET consumed_at WHERE code = ? AND consumed_at IS NULL AND expires_at > ? */
  function ConsumeCode(t: Tables, code: string, now: Instant): Tables {
    if CodeIsClaimable(t, code, now) then
      t.(codes := t.codes[code := t.codes[code].(consumedAt := Some(now))])
    else t
  }

  predicate RefreshIsClaimable(t: Tables, token: string, now: Instant) {
    token in t.refresh && t.refresh[token].revokedAt.None? && t.refresh[token].expiresAt > now
  }

  /** UPDATE ... SET revoked_at WHERE refresh_token = ? AND revoked_at IS NULL AND expires_at > ? */
  function RevokeRefresh(t: Tables, token: string, now: Instant): Tables {
    if RefreshIsClaimable(t, token, now) then
      t.(refresh := t.refresh[token := t.refresh[token].(revokedAt := Some(now))])
    else t
  }

  /** The transaction that inserts an access token and the refresh token linked to it. */
  function InsertPair(
    t: Tables, cfg: Settings, clientId: string, userId: string, scopes: seq<string>,
    accessToken: string, refreshToken: string, now: Instant): Tables
  {
    t.(access := t.access[t.nextId :=
         AccessRow(accessToken, clientId, Some(userId), scopes, NO_TARGET, now + cfg.accessTtl, None)],
       refresh := t.refresh[refreshToken :=
         RefreshRow(t.nextId, clientId, userId, scopes, now + cfg.refreshTtl, None)],
       nextId := t.nextId + 1)
  }

  function InsertServiceToken(
    t: Tables, cfg: Settings, clientId: string, scopes: seq<string>, target: Target,
    accessToken: string, now: Instant): Tables
  {
    t.(access := t.access[t.nextId :=
         AccessRow(accessToken, clientId, None, scopes, target, now + cfg.accessTtl, None)],
       nextId := t.nextId + 1)
  }

  function RevokeAccess(t: Tables, token: string, now: Instant): Tables {
    t.(access := map id | id in t.access ::
         if t.access[id].token == token && t.access[id].revokedAt.None?
         then t.access[id].(revokedAt := Some(now)) else t.access[id])
  }

  /** Revoking again changes nothing: the first revocation's time stays. */
  lemma RevokeTwice(t: Tables, token: string, first: Instant, second: Instant)
    ensures RevokeAccess(RevokeAccess(t, token, first), token, second) == RevokeAccess(t, token, first)
  {
  }

  /** DELETE of access rows; the foreign key on access_token_id cascades to refresh rows. */
  function KeepAccess(t: Tables, keep: set<nat>): Tables {
    t.(access := map id | id in t.access && id in keep :: t.access[id],
       refresh := map r | r in t.refresh && t.refresh[r].accessId in keep :: t.refresh[r])
  }

  predicate AccessIsStale(row: AccessRow, now: Instant) {
    row.expiresAt < now || row.revokedAt.Some?
  }

  function CleanupAccess(t: Tables, now: Instant): Tables {
    KeepAccess(t, set id | id in t.access && !AccessIsStale(t.access[id], now))
  }

  function CleanupCodes(t: Tables, now: Instant): Tables {
    t.(codes := map c | c in t.codes && !(t.codes[c].expiresAt < now) :: t.codes[c])
  }

  /** Account deletion: codes, access tokens (with their cascade) and refresh tokens of one user. */
  function PurgeUser(t: Tables, userId: string): Tables {
    var kept := KeepAccess(t, set id | id in t.access && t.access[id].userId != Some(userId));
    kept.(codes := map c | c in t.codes && t.codes[c].userId != userId :: t.codes[c],
          refresh := map r | r in kept.refresh && kept.refresh[r].userId != userId :: kept.refresh[r])
  }

  /** Every refresh row links to an existing access row of the same client, user and scopes. */
  ghost predicate Linked(t: Tables) {
    && (forall id :: id in t.access ==> id < t.nextId)
    && forall r :: r in t.refresh ==> LinkedRow(t, t.refresh[r])
  }

  ghost predicate LinkedRow(t: Tables, row: RefreshRow) {
    && row.accessId in t.access
    && t.access[row.accessId].clientId == row.clientId
    && t.access[row.accessId].userId == Some(row.userId)
    && t.access[row.accessId].scopes == row.scopes
  }
}
