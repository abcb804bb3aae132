/**
 * The token endpoints as an interleaved protocol.
 *
 * Any number of requests run at once.  A request is a program counter; each of
 * its steps is one database statement, and between two of its steps any other
 * request, a cleanup, a revocation, an account deletion or the clock may move.
 * Generated tokens are values that were never generated before.  `created` and
 * `log` record every code row ever inserted and every token pair ever issued;
 * no step reads them to decide anything.
 */
module OAuthProtocol {
  import opened Wrappers
  import opened OAuthTables
  import opened OAuthScopes

  datatype AuthRequest = AuthRequest(
    clientId: string, redirectUri: string, requested: seq<string>, challenge: string, methodIsS256: bool)

  /** A request between two of its database statements. */
  datatype Thread =
    | Authorizing(request: AuthRequest, userId: string)
    | Authorized(request: AuthRequest, userId: string, scopes: seq<string>)
    | Exchanging(clientId: string, code: string, redirectUri: string, verifier: string)
    | CodeChecked(clientId: string, code: string, redirectUri: string, verifier: string, row: CodeRow)
    | CodeClaimed(clientId: string, code: string, redirectUri: string, verifier: string, row: CodeRow, at: Instant)
    | Refreshing(clientId: string, token: string)
    | RefreshChecked(clientId: string, token: string, held: RefreshRow)
    | RefreshClaimed(clientId: string, token: string, held: RefreshRow, at: Instant)
    | Crediting(clientId: string, requested: seq<string>, targeted: bool, resolved: Option<Target>)
    | Credited(clientId: string, scopes: seq<string>, target: Target)
    | Answered
    | Refused(error: OAuthError)

  datatype Origin =
    | FromCode(code: string, redirectUri: string, verifier: string, claimedAt: Instant)
    | FromRefresh(parent: string)
    | FirstParty

  /** One issued token pair. */
  datatype Grant = Grant(
    origin: Origin, clientId: string, userId: string, scopes: seq<string>, accessToken: string, refreshToken: string)

  datatype State = State(
    db: Tables, clock: Instant, threads: map<nat, Thread>, minted: set<string>,
    created: map<string, CodeRow>, log: seq<Grant>)

  datatype Event =
    | Tick(elapsed: nat)
    | Arrive(tid: nat, request: Thread)
    | Advance(tid: nat, now: Instant, t1: string, t2: string)
    | Abort(tid: nat)
    | IssueFirstParty(userId: string, now: Instant, t1: string, t2: string)
    | AddClient(clientId: string, row: ClientRow)
    | Revoke(token: string, now: Instant)
    | CleanAccess(now: Instant)
    | CleanCodes(now: Instant)
    | DeleteUser(userId: string)

  predicate IsArrival(t: Thread) {
    t.Authorizing? || t.Exchanging? || t.Refreshing? || t.Crediting?
  }

  function Put(s: State, tid: nat, t: Thread): State {
    s.(threads := s.threads[tid := t])
  }

  /** The read and the four checks of `ExchangeAuthorizationCode`. */
  predicate CodeAccepted(cfg: Settings, db: Tables, clientId: string, code: string, redirectUri: string,
                         verifier: string, now: Instant)
  {
    && code in db.codes
    && db.codes[code].clientId == clientId && db.codes[code].redirectUri == redirectUri
    && db.codes[code].consumedAt.None? && !(now > db.codes[code].expiresAt)
    && cfg.challengeOf(verifier) == db.codes[code].challenge
  }

  /** The read and the checks of `RefreshUserToken`. */
  predicate RefreshAccepted(db: Tables, clientId: string, token: string, now: Instant) {
    && token in db.refresh
    && db.refresh[token].clientId == clientId
    && db.refresh[token].revokedAt.None? && !(now > db.refresh[token].expiresAt)
  }

  function ReadCode(cfg: Settings, s: State, tid: nat, t: Thread, now: Instant): State
    requires t.Exchanging?
  {
    if CodeAccepted(cfg, s.db, t.clientId, t.code, t.redirectUri, t.verifier, now) then
      Put(s, tid, CodeChecked(t.clientId, t.code, t.redirectUri, t.verifier, s.db.codes[t.code]))
    else Put(s, tid, Refused(InvalidGrant))
  }

  function ClaimCode(s: State, tid: nat, t: Thread, now: Instant): State
    requires t.CodeChecked?
  {
    if CodeIsClaimable(s.db, t.code, now) then
      Put(s.(db := ConsumeCode(s.db, t.code, now)), tid,
          CodeClaimed(t.clientId, t.code, t.redirectUri, t.verifier, t.row, now))
    else Put(s, tid, Refused(InvalidGrant))
  }

  function ReadRefresh(s: State, tid: nat, t: Thread, now: Instant): State
    requires t.Refreshing?
  {
    if RefreshAccepted(s.db, t.clientId, t.token, now) then
      Put(s, tid, RefreshChecked(t.clientId, t.token, s.db.refresh[t.token]))
    else Put(s, tid, Refused(InvalidGrant))
  }

  function ClaimRefresh(s: State, tid: nat, t: Thread, now: Instant): State
    requires t.RefreshChecked?
  {
    if RefreshIsClaimable(s.db, t.token, now) then
      Put(s.(db := RevokeRefresh(s.db, t.token, now)), tid, RefreshClaimed(t.clientId, t.token, t.held, now))
    else Put(s, tid, Refused(InvalidGrant))
  }

  /** `issueUserTokens`, recorded in the log. */
  function Issue(cfg: Settings, s: State, origin: Origin, clientId: string, userId: string, scopes: seq<string>,
                 t1: string, t2: string, now: Instant): State
  {
    s.(db := InsertPair(s.db, cfg, clientId, userId, scopes, t1, t2, now),
       minted := s.minted + {t1, t2},
       log := s.log + [Grant(origin, clientId, userId, scopes, t1, t2)])
  }

  function ReadAuthorization(s: State, tid: nat, t: Thread): State
    requires t.Authorizing?
  {
    var r := t.request;
    match AuthorizedScopes(s.db.clients, r.clientId, r.redirectUri, r.requested, r.challenge, r.methodIsS256)
    case Ok(scopes) => Put(s, tid, Authorized(r, t.userId, scopes))
    case Err(error) => Put(s, tid, Refused(error))
  }

  function CreateCode(cfg: Settings, s: State, tid: nat, t: Thread, code: string, now: Instant): State
    requires t.Authorized?
  {
    var row := CodeRow(t.request.clientId, t.userId, t.request.redirectUri, t.scopes, t.request.challenge,
                       now + cfg.codeTtl, None);
    Put(s.(db := InsertCode(s.db, code, row), minted := s.minted + {code}, created := s.created[code := row]),
        tid, Answered)
  }

  function ReadClient(s: State, tid: nat, t: Thread): State
    requires t.Crediting?
  {
    if t.clientId !in s.db.clients || !s.db.clients[t.clientId].isActive then Put(s, tid, Refused(InvalidClient))
    else
      match ServiceTokenScopes(s.db.clients[t.clientId], t.requested, t.targeted, t.resolved)
      case Ok(scopes) =>
        Put(s, tid, Credited(t.clientId, scopes, if t.targeted then t.resolved.value else NO_TARGET))
      case Err(error) => Put(s, tid, Refused(error))
  }

  function IssueService(cfg: Settings, s: State, tid: nat, t: Thread, token: string, now: Instant): State
    requires t.Credited?
  {
    Put(s.(db := InsertServiceToken(s.db, cfg, t.clientId, t.scopes, t.target, token, now),
           minted := s.minted + {token}), tid, Answered)
  }

  predicate Fresh(s: State, t1: string, t2: string) {
    t1 !in s.minted && t2 !in s.minted && t1 != t2
  }

  /** The next statement of one request. */
  function AdvanceThread(cfg: Settings, s: State, tid: nat, t: Thread, now: Instant, t1: string, t2: string): State {
    match t
    case Authorizing(_, _) => ReadAuthorization(s, tid, t)
    case Authorized(_, _, _) => CreateCode(cfg, s, tid, t, t1, now)
    case Exchanging(_, _, _, _) => ReadCode(cfg, s, tid, t, now)
    case CodeChecked(_, _, _, _, _) => ClaimCode(s, tid, t, now)
    case CodeClaimed(clientId, code, redirectUri, verifier, row, at) =>
      Put(Issue(cfg, s, FromCode(code, redirectUri, verifier, at), clientId, row.userId, row.scopes, t1, t2, now),
          tid, Answered)
    case Refreshing(_, _) => ReadRefresh(s, tid, t, now)
    case RefreshChecked(_, _, _) => ClaimRefresh(s, tid, t, now)
    case RefreshClaimed(clientId, token, held, at) =>
      Put(Issue(cfg, s, FromRefresh(token), clientId, held.userId, held.scopes, t1, t2, now), tid, Answered)
    case Crediting(_, _, _, _) => ReadClient(s, tid, t)
    case Credited(_, _, _) => IssueService(cfg, s, tid, t, t1, now)
    case Answered => s
    case Refused(_) => s
  }

  /** A statement may use any time the clock has already reached. */
  function Apply(cfg: Settings, s: State, e: Event): State {
    match e
    case Tick(elapsed) => s.(clock := s.clock + elapsed)
    case Arrive(tid, request) => if tid !in s.threads && IsArrival(request) then Put(s, tid, request) else s
    case Advance(tid, now, t1, t2) =>
      if tid in s.threads && now <= s.clock && Fresh(s, t1, t2)
      then AdvanceThread(cfg, s, tid, s.threads[tid], now, t1, t2) else s
    case Abort(tid) => if tid in s.threads then Put(s, tid, Refused(DatabaseError)) else s
    case IssueFirstParty(userId, now, t1, t2) =>
      if now <= s.clock && Fresh(s, t1, t2)
      then Issue(cfg, s, FirstParty, cfg.publicClientId, userId, PublicSiteScopes(), t1, t2, now) else s
    case AddClient(clientId, row) =>
      if clientId in s.db.clients then s else s.(db := s.db.(clients := s.db.clients[clientId := row]))
    case Revoke(token, now) => if now <= s.clock then s.(db := RevokeAccess(s.db, token, now)) else s
    case CleanAccess(now) => if now <= s.clock then s.(db := CleanupAccess(s.db, now)) else s
    case CleanCodes(now) => if now <= s.clock then s.(db := CleanupCodes(s.db, now)) else s
    case DeleteUser(userId) => s.(db := PurgeUser(s.db, userId))
  }

  function Run(cfg: Settings, s: State, events: seq<Event>): State
    decreases |events|
  {
    if events == [] then s else Run(cfg, Apply(cfg, s, events[0]), events[1..])
  }

  /** Empty token tables and any client table holding the seeded public client. */
  ghost predicate Initial(cfg: Settings, s: State) {
    && s.db.codes == map[] && s.db.access == map[] && s.db.refresh == map[]
    && s.threads == map[] && s.created == map[] && s.log == []
    && cfg.publicClientId in s.db.clients
    && s.db.clients[cfg.publicClientId].scopes == PublicSiteScopes()
  }
}
