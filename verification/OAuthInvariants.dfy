/** What every step of the token protocol keeps, and so what every reachable state satisfies. */
module OAuthInvariants {
  import opened Wrappers
  import opened OAuthTables
  import opened OAuthScopes
  import opened OAuthProtocol

  /** Deletions and revocations: rows may go or be marked, none is added or rewritten. */
  ghost predicate Shrinks(a: Tables, b: Tables) {
    && b.clients == a.clients && b.nextId == a.nextId
    && (forall c :: c in b.codes ==> c in a.codes && b.codes[c] == a.codes[c])
    && (forall r :: r in b.refresh ==> r in a.refresh && b.refresh[r] == a.refresh[r])
    && (forall id :: id in b.access ==> id in a.access && b.access[id].(revokedAt := None) == a.access[id].(revokedAt := None))
  }

  lemma RevokeShrinks(t: Tables, token: string, now: Instant)
    ensures Shrinks(t, RevokeAccess(t, token, now))
  {
  }

  lemma CleanupShrinks(t: Tables, now: Instant)
    ensures Shrinks(t, CleanupAccess(t, now)) && Shrinks(t, CleanupCodes(t, now))
  {
  }

  lemma PurgeShrinks(t: Tables, userId: string)
    ensures Shrinks(t, PurgeUser(t, userId))
  {
  }

  predicate IsDeletion(e: Event) {
    e.Revoke? || e.CleanAccess? || e.CleanCodes? || e.DeleteUser?
  }

  lemma DeletionEvent(cfg: Settings, s: State, e: Event)
    requires IsDeletion(e)
    ensures Apply(cfg, s, e) == s.(db := Apply(cfg, s, e).db)
    ensures Shrinks(s.db, Apply(cfg, s, e).db)
  {
    if e.Revoke? {
      RevokeShrinks(s.db, e.token, e.now);
    } else if e.DeleteUser? {
      PurgeShrinks(s.db, e.userId);
    } else {
      CleanupShrinks(s.db, e.now);
    }
  }

  // ----- Freshness -----

  ghost predicate MintedCovers(s: State) {
    && (forall c :: c in s.created ==> c in s.minted)
    && (forall c :: c in s.db.codes ==> c in s.created)
    && (forall r :: r in s.db.refresh ==> r in s.minted)
    && (forall id :: id in s.db.access ==> s.db.access[id].token in s.minted)
    && (forall i :: 0 <= i < |s.log| ==> s.log[i].accessToken in s.minted && s.log[i].refreshToken in s.minted)
  }

  lemma MintedShrink(s: State, db: Tables)
    requires MintedCovers(s) && Shrinks(s.db, db)
    ensures MintedCovers(s.(db := db))
  {
    forall id | id in db.access ensures db.access[id].token in s.minted {
      assert db.access[id].(revokedAt := None).token == s.db.access[id].(revokedAt := None).token;
    }
  }

  lemma MintedIssue(cfg: Settings, s: State, o: Origin, c: string, u: string, sc: seq<string>, t1: string, t2: string, now: Instant)
    requires MintedCovers(s)
    ensures MintedCovers(Issue(cfg, s, o, c, u, sc, t1, t2, now))
  {
  }

  lemma MintedMarks(s: State, tid: nat, t: Thread, now: Instant)
    requires MintedCovers(s)
    ensures t.CodeChecked? ==> MintedCovers(ClaimCode(s, tid, t, now))
    ensures t.RefreshChecked? ==> MintedCovers(ClaimRefresh(s, tid, t, now))
  {
  }

  lemma MintedInserts(cfg: Settings, s: State, tid: nat, t: Thread, token: string, now: Instant)
    requires MintedCovers(s)
    ensures t.Authorized? ==> MintedCovers(CreateCode(cfg, s, tid, t, token, now))
    ensures t.Credited? ==> MintedCovers(IssueService(cfg, s, tid, t, token, now))
  {
  }

  lemma MintedQuiet(s: State, s': State)
    requires MintedCovers(s)
    requires s'.db == s.db && s'.minted == s.minted && s'.created == s.created && s'.log == s.log
    ensures MintedCovers(s')
  {
  }

  lemma MintedPairs(cfg: Settings, s: State, tid: nat, t: Thread, now: Instant, t1: string, t2: string)
    requires MintedCovers(s) && (t.CodeClaimed? || t.RefreshClaimed?)
    ensures MintedCovers(AdvanceThread(cfg, s, tid, t, now, t1, t2))
  {
    if t.CodeClaimed? {
      MintedIssue(cfg, s, FromCode(t.code, t.redirectUri, t.verifier, t.at), t.clientId, t.row.userId, t.row.scopes,
                  t1, t2, now);
    } else {
      MintedIssue(cfg, s, FromRefresh(t.token), t.clientId, t.held.userId, t.held.scopes, t1, t2, now);
    }
  }

  /** The requests whose next statement only reads. */
  predicate IsRead(t: Thread) {
    t.Authorizing? || t.Exchanging? || t.Refreshing? || t.Crediting? || t.Answered? || t.Refused?
  }

  lemma ReadsKeepTables(cfg: Settings, s: State, tid: nat, t: Thread, now: Instant, t1: string, t2: string)
    requires IsRead(t)
    ensures var s' := AdvanceThread(cfg, s, tid, t, now, t1, t2);
      s'.db == s.db && s'.minted == s.minted && s'.created == s.created && s'.log == s.log && s'.clock == s.clock
  {
  }

  lemma MintedThread(cfg: Settings, s: State, tid: nat, t: Thread, now: Instant, t1: string, t2: string)
    requires MintedCovers(s)
    ensures MintedCovers(AdvanceThread(cfg, s, tid, t, now, t1, t2))
  {
    if IsRead(t) {
      ReadsKeepTables(cfg, s, tid, t, now, t1, t2);
      MintedQuiet(s, AdvanceThread(cfg, s, tid, t, now, t1, t2));
    } else if t.CodeClaimed? || t.RefreshClaimed? {
      MintedPairs(cfg, s, tid, t, now, t1, t2);
    } else if t.Authorized? || t.Credited? {
      MintedInserts(cfg, s, tid, t, t1, now);
    } else {
      MintedMarks(s, tid, t, now);
    }
  }

  lemma MintedStep(cfg: Settings, s: State, e: Event)
    requires MintedCovers(s)
    ensures MintedCovers(Apply(cfg, s, e))
  {
    match e
    case Advance(tid, now, t1, t2) =>
      if tid in s.threads {
        MintedThread(cfg, s, tid, s.threads[tid], now, t1, t2);
      }
    case IssueFirstParty(userId, now, t1, t2) =>
      MintedIssue(cfg, s, FirstParty, cfg.publicClientId, userId, PublicSiteScopes(), t1, t2, now);
    case Tick(_) =>
    case Arrive(_, _) =>
    case Abort(_) =>
    case AddClient(_, _) =>
    case _ =>
      DeletionEvent(cfg, s, e);
      MintedShrink(s, Apply(cfg, s, e).db);
  }

  // ----- Authorization codes -----

  ghost predicate CodeSpent(db: Tables, code: string) {
    code in db.codes ==> db.codes[code].consumedAt.Some?
  }

  /** The request presented the client, redirect URI and verifier the code was created for. */
  ghost predicate Matches(cfg: Settings, row: CodeRow, clientId: string, redirectUri: string, verifier: string) {
    row.clientId == clientId && row.redirectUri == redirectUri && row.challenge == cfg.challengeOf(verifier)
  }

  /** A logged pair issued for a code: who won it, for whom, and when the code was marked. */
  ghost predicate WonFairly(cfg: Settings, created: map<string, CodeRow>, g: Grant)
    requires g.origin.FromCode?
  {
    && g.origin.code in created
    && var row := created[g.origin.code];
    && Matches(cfg, row, g.clientId, g.origin.redirectUri, g.origin.verifier)
    && g.userId == row.userId && g.scopes == row.scopes
    && g.origin.claimedAt < row.expiresAt
  }

  ghost predicate CodeUnissued(log: seq<Grant>, code: string) {
    forall i :: 0 <= i < |log| && log[i].origin.FromCode? ==> log[i].origin.code != code
  }

  ghost predicate CodeThreadOk(cfg: Settings, s: State, t: Thread) {
    && (t.CodeChecked? || t.CodeClaimed? ==>
      t.code in s.created && t.row == s.created[t.code] && Matches(cfg, t.row, t.clientId, t.redirectUri, t.verifier))
    && (t.CodeClaimed? ==> t.at < t.row.expiresAt && CodeSpent(s.db, t.code) && CodeUnissued(s.log, t.code))
  }

  ghost predicate CodeRowsOk(s: State) {
    forall c :: c in s.db.codes ==> c in s.created && s.created[c] == s.db.codes[c].(consumedAt := None)
  }

  ghost predicate CodeClaimsApart(threads: map<nat, Thread>) {
    forall a, b :: a in threads && b in threads && a != b && threads[a].CodeClaimed? && threads[b].CodeClaimed?
      ==> threads[a].code != threads[b].code
  }

  ghost predicate CodeLogOk(cfg: Settings, s: State) {
    && (forall i :: 0 <= i < |s.log| && s.log[i].origin.FromCode? ==>
      WonFairly(cfg, s.created, s.log[i]) && CodeSpent(s.db, s.log[i].origin.code))
    && (forall i, j :: 0 <= i < j < |s.log| && s.log[i].origin.FromCode? && s.log[j].origin.FromCode? ==>
      s.log[i].origin.code != s.log[j].origin.code)
  }

  ghost predicate CodesOk(cfg: Settings, s: State) {
    && CodeRowsOk(s)
    && (forall tid :: tid in s.threads ==> CodeThreadOk(cfg, s, s.threads[tid]))
    && CodeClaimsApart(s.threads)
    && CodeLogOk(cfg, s)
  }

  /** Steps that issue nothing, create no code and claim none. */
  lemma CodesQuiet(cfg: Settings, s: State, s': State)
    requires CodesOk(cfg, s)
    requires s'.created == s.created && s'.log == s.log
    requires forall c :: c in s'.db.codes ==> c in s.db.codes && s'.db.codes[c] == s.db.codes[c]
    requires forall tid :: tid in s'.threads ==>
      || (tid in s.threads && s'.threads[tid] == s.threads[tid])
      || (!s'.threads[tid].CodeClaimed? && CodeThreadOk(cfg, s, s'.threads[tid]))
    ensures CodesOk(cfg, s')
  {
    forall tid | tid in s'.threads ensures CodeThreadOk(cfg, s', s'.threads[tid]) {
      assert CodeThreadOk(cfg, s, s'.threads[tid]);
    }
  }

  lemma CodesReadCode(cfg: Settings, s: State, tid: nat, t: Thread, now: Instant)
    requires CodesOk(cfg, s) && t.Exchanging?
    ensures CodesOk(cfg, ReadCode(cfg, s, tid, t, now))
  {
    CodesQuiet(cfg, s, ReadCode(cfg, s, tid, t, now));
  }

  lemma CodesClaimCode(cfg: Settings, s: State, tid: nat, now: Instant)
    requires CodesOk(cfg, s) && tid in s.threads && s.threads[tid].CodeChecked?
    ensures CodesOk(cfg, ClaimCode(s, tid, s.threads[tid], now))
  {
    var t := s.threads[tid];
    var s' := ClaimCode(s, tid, t, now);
    assert CodeThreadOk(cfg, s, t);
    if CodeIsClaimable(s.db, t.code, now) {
      forall c | CodeSpent(s.db, c) ensures CodeSpent(s'.db, c) && c != t.code {
      }
      assert s.created[t.code] == s.db.codes[t.code];
      assert CodeUnissued(s.log, t.code);
      forall id | id in s'.threads ensures CodeThreadOk(cfg, s', s'.threads[id]) {
        assert id != tid ==> CodeThreadOk(cfg, s, s.threads[id]);
      }
    } else {
      CodesQuiet(cfg, s, s');
    }
  }

  lemma CodesCreate(cfg: Settings, s: State, tid: nat, t: Thread, code: string, now: Instant)
    requires CodesOk(cfg, s) && MintedCovers(s) && t.Authorized? && code !in s.minted
    ensures CodesOk(cfg, CreateCode(cfg, s, tid, t, code, now))
  {
    var s' := CreateCode(cfg, s, tid, t, code, now);
    forall id | id in s'.threads ensures CodeThreadOk(cfg, s', s'.threads[id]) {
      assert id != tid ==> CodeThreadOk(cfg, s, s.threads[id]);
    }
  }

  lemma CodesIssue(cfg: Settings, s: State, tid: nat, o: Origin, c: string, u: string, sc: seq<string>,
                   t1: string, t2: string, now: Instant)
    requires CodesOk(cfg, s)
    requires o.FromCode? ==>
      && CodeUnissued(s.log, o.code) && CodeSpent(s.db, o.code) && WonFairly(cfg, s.created, Grant(o, c, u, sc, t1, t2))
      && forall id :: id in s.threads && id != tid && s.threads[id].CodeClaimed? ==> s.threads[id].code != o.code
    ensures CodesOk(cfg, Put(Issue(cfg, s, o, c, u, sc, t1, t2, now), tid, Answered))
  {
    var s' := Put(Issue(cfg, s, o, c, u, sc, t1, t2, now), tid, Answered);
    forall id | id in s'.threads ensures CodeThreadOk(cfg, s', s'.threads[id]) {
      assert id != tid ==> CodeThreadOk(cfg, s, s.threads[id]);
    }
  }

  predicate TouchesCodes(t: Thread) {
    t.Exchanging? || t.CodeChecked? || t.CodeClaimed? || t.Authorized? || t.RefreshClaimed?
  }

  /** A request that gets an answer, and neither issues nor claims. */
  lemma CodesPut(cfg: Settings, s: State, tid: nat, t: Thread)
    requires CodesOk(cfg, s) && !t.CodeChecked? && !t.CodeClaimed?
    ensures CodesOk(cfg, Put(s, tid, t))
  {
    CodesQuiet(cfg, s, Put(s, tid, t));
  }

  lemma CodesReads(cfg: Settings, s: State, tid: nat, t: Thread, now: Instant)
    requires CodesOk(cfg, s)
    ensures t.Authorizing? ==> CodesOk(cfg, ReadAuthorization(s, tid, t))
    ensures t.Crediting? ==> CodesOk(cfg, ReadClient(s, tid, t))
    ensures t.Refreshing? ==> CodesOk(cfg, ReadRefresh(s, tid, t, now))
  {
    if t.Authorizing? {
      CodesPut(cfg, s, tid, ReadAuthorization(s, tid, t).threads[tid]);
    } else if t.Crediting? {
      CodesPut(cfg, s, tid, ReadClient(s, tid, t).threads[tid]);
    } else if t.Refreshing? {
      CodesPut(cfg, s, tid, ReadRefresh(s, tid, t, now).threads[tid]);
    }
  }

  lemma CodesWrites(cfg: Settings, s: State, tid: nat, t: Thread, now: Instant, t1: string)
    requires CodesOk(cfg, s)
    ensures t.RefreshChecked? ==> CodesOk(cfg, ClaimRefresh(s, tid, t, now))
    ensures t.Credited? ==> CodesOk(cfg, IssueService(cfg, s, tid, t, t1, now))
  {
    if t.RefreshChecked? {
      CodesQuiet(cfg, s, ClaimRefresh(s, tid, t, now));
    } else if t.Credited? {
      CodesQuiet(cfg, s, IssueService(cfg, s, tid, t, t1, now));
    }
  }

  lemma CodesOtherThread(cfg: Settings, s: State, tid: nat, now: Instant, t1: string, t2: string)
    requires CodesOk(cfg, s) && tid in s.threads && !TouchesCodes(s.threads[tid])
    ensures CodesOk(cfg, AdvanceThread(cfg, s, tid, s.threads[tid], now, t1, t2))
  {
    CodesReads(cfg, s, tid, s.threads[tid], now);
    CodesWrites(cfg, s, tid, s.threads[tid], now, t1);
  }

  lemma CodesIssueThread(cfg: Settings, s: State, tid: nat, now: Instant, t1: string, t2: string)
    requires CodesOk(cfg, s) && tid in s.threads && (s.threads[tid].CodeClaimed? || s.threads[tid].RefreshClaimed?)
    ensures CodesOk(cfg, AdvanceThread(cfg, s, tid, s.threads[tid], now, t1, t2))
  {
    var t := s.threads[tid];
    assert CodeThreadOk(cfg, s, t);
    if t.CodeClaimed? {
      CodesIssue(cfg, s, tid, FromCode(t.code, t.redirectUri, t.verifier, t.at), t.clientId, t.row.userId, t.row.scopes,
                 t1, t2, now);
    } else {
      CodesIssue(cfg, s, tid, FromRefresh(t.token), t.clientId, t.held.userId, t.held.scopes, t1, t2, now);
    }
  }

  lemma CodesThread(cfg: Settings, s: State, tid: nat, now: Instant, t1: string, t2: string)
    requires CodesOk(cfg, s) && MintedCovers(s) && tid in s.threads && Fresh(s, t1, t2)
    ensures CodesOk(cfg, AdvanceThread(cfg, s, tid, s.threads[tid], now, t1, t2))
  {
    var t := s.threads[tid];
    if !TouchesCodes(t) {
      CodesOtherThread(cfg, s, tid, now, t1, t2);
    } else if t.Exchanging? {
      CodesReadCode(cfg, s, tid, t, now);
    } else if t.CodeChecked? {
      CodesClaimCode(cfg, s, tid, now);
    } else if t.Authorized? {
      CodesCreate(cfg, s, tid, t, t1, now);
    } else {
      CodesIssueThread(cfg, s, tid, now, t1, t2);
    }
  }

  lemma CodesFirstParty(cfg: Settings, s: State, c: string, u: string, sc: seq<string>, t1: string, t2: string, now: Instant)
    requires CodesOk(cfg, s)
    ensures CodesOk(cfg, Issue(cfg, s, FirstParty, c, u, sc, t1, t2, now))
  {
    var s' := Issue(cfg, s, FirstParty, c, u, sc, t1, t2, now);
    forall id | id in s'.threads ensures CodeThreadOk(cfg, s', s'.threads[id]) {
      assert CodeThreadOk(cfg, s, s.threads[id]);
    }
  }

  lemma CodesShrink(cfg: Settings, s: State, db: Tables)
    requires CodesOk(cfg, s) && Shrinks(s.db, db)
    ensures CodesOk(cfg, s.(db := db))
  {
    CodesQuiet(cfg, s, s.(db := db));
  }

  lemma CodesStep(cfg: Settings, s: State, e: Event)
    requires CodesOk(cfg, s) && MintedCovers(s)
    ensures CodesOk(cfg, Apply(cfg, s, e))
  {
    match e
    case Advance(tid, now, t1, t2) =>
      if tid in s.threads && Fresh(s, t1, t2) {
        CodesThread(cfg, s, tid, now, t1, t2);
      }
    case IssueFirstParty(userId, now, t1, t2) =>
      CodesFirstParty(cfg, s, cfg.publicClientId, userId, PublicSiteScopes(), t1, t2, now);
    case Arrive(tid, request) =>
      if tid !in s.threads && IsArrival(request) {
        CodesPut(cfg, s, tid, request);
      }
    case Abort(tid) => CodesPut(cfg, s, tid, Refused(DatabaseError));
    case Tick(elapsed) => CodesQuiet(cfg, s, s.(clock := s.clock + elapsed));
    case AddClient(_, _) => CodesQuiet(cfg, s, Apply(cfg, s, e));
    case _ =>
      DeletionEvent(cfg, s, e);
      CodesShrink(cfg, s, Apply(cfg, s, e).db);
  }
}
