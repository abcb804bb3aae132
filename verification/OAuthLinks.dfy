/** Row links and scope containment across every step of the token protocol. */
module OAuthLinks {
  import opened Wrappers
  import opened OAuthTables
  import opened OAuthScopes
  import opened OAuthProtocol
  import opened OAuthInvariants
  import opened OAuthRefresh

  // ----- Links between access and refresh rows -----

  lemma MarksKeepLinks(t: Tables, key: string, now: Instant)
    requires Linked(t)
    ensures Linked(ConsumeCode(t, key, now)) && Linked(RevokeRefresh(t, key, now)) && Linked(RevokeAccess(t, key, now))
  {
    forall r | r in t.refresh ensures LinkedRow(RevokeAccess(t, key, now), t.refresh[r]) {
      assert LinkedRow(t, t.refresh[r]);
    }
  }

  lemma InsertsKeepLinks(t: Tables, cfg: Settings, key: string, user: string, scopes: seq<string>,
                         t1: string, t2: string, now: Instant, target: Target)
    requires Linked(t)
    ensures Linked(InsertPair(t, cfg, key, user, scopes, t1, t2, now))
    ensures Linked(InsertServiceToken(t, cfg, key, scopes, target, t1, now))
  {
    forall r | r in t.refresh
      ensures LinkedRow(InsertPair(t, cfg, key, user, scopes, t1, t2, now), t.refresh[r])
      ensures LinkedRow(InsertServiceToken(t, cfg, key, scopes, target, t1, now), t.refresh[r])
    {
      assert LinkedRow(t, t.refresh[r]);
    }
  }

  /** Deleting access rows leaves no dangling refresh row, because the foreign key cascades. */
  lemma DeletesKeepLinks(t: Tables, keep: set<nat>)
    requires Linked(t)
    ensures Linked(KeepAccess(t, keep))
  {
    forall r | r in KeepAccess(t, keep).refresh ensures LinkedRow(KeepAccess(t, keep), t.refresh[r]) {
      assert LinkedRow(t, t.refresh[r]);
    }
  }

  lemma CleanupKeepsLinks(t: Tables, now: Instant)
    requires Linked(t)
    ensures Linked(CleanupAccess(t, now))
  {
    DeletesKeepLinks(t, set id | id in t.access && !AccessIsStale(t.access[id], now));
  }

  /** What cleanup leaves, row by row: a refresh row goes exactly when the access row it links to does. */
  lemma CleanupRowByRow(t: Tables, now: Instant)
    requires Linked(t)
    ensures var t' := CleanupAccess(t, now);
      && (forall r :: r in t.refresh ==> t.refresh[r].accessId in t.access)
      && (forall id :: id in t'.access <==> id in t.access && !AccessIsStale(t.access[id], now))
      && (forall r :: r in t'.refresh <==> r in t.refresh && !AccessIsStale(t.access[t.refresh[r].accessId], now))
      && (forall id :: id in t'.access ==> t'.access[id] == t.access[id])
      && (forall r :: r in t'.refresh ==> t'.refresh[r] == t.refresh[r])
  {
    forall r | r in t.refresh ensures t.refresh[r].accessId in t.access {
      assert LinkedRow(t, t.refresh[r]);
    }
  }

  lemma PurgeKeepsLinks(t: Tables, userId: string)
    requires Linked(t)
    ensures Linked(PurgeUser(t, userId))
  {
    var keep := set id | id in t.access && t.access[id].userId != Some(userId);
    DeletesKeepLinks(t, keep);
    var kept := KeepAccess(t, keep);
    forall r | r in PurgeUser(t, userId).refresh ensures LinkedRow(PurgeUser(t, userId), kept.refresh[r]) {
      assert LinkedRow(kept, kept.refresh[r]);
    }
  }

  lemma LinksThread(cfg: Settings, s: State, tid: nat, t: Thread, now: Instant, t1: string, t2: string)
    requires Linked(s.db)
    ensures Linked(AdvanceThread(cfg, s, tid, t, now, t1, t2).db)
  {
    match t
    case CodeChecked(_, code, _, _, _) => MarksKeepLinks(s.db, code, now);
    case RefreshChecked(_, token, _) => MarksKeepLinks(s.db, token, now);
    case CodeClaimed(c, _, _, _, row, _) => InsertsKeepLinks(s.db, cfg, c, row.userId, row.scopes, t1, t2, now, NO_TARGET);
    case RefreshClaimed(c, _, held, _) => InsertsKeepLinks(s.db, cfg, c, held.userId, held.scopes, t1, t2, now, NO_TARGET);
    case Credited(c, scopes, target) => InsertsKeepLinks(s.db, cfg, c, "", scopes, t1, t2, now, target);
    case Authorized(_, _, _) => LinksQuiet(s.db, CreateCode(cfg, s, tid, t, t1, now).db);
    case _ => ReadsKeepTables(cfg, s, tid, t, now, t1, t2);
  }

  lemma LinksQuiet(a: Tables, b: Tables)
    requires Linked(a) && b.access == a.access && b.refresh == a.refresh && b.nextId == a.nextId
    ensures Linked(b)
  {
    forall r | r in b.refresh ensures LinkedRow(b, b.refresh[r]) {
      assert LinkedRow(a, a.refresh[r]);
    }
  }

  lemma LinksStep(cfg: Settings, s: State, e: Event)
    requires Linked(s.db)
    ensures Linked(Apply(cfg, s, e).db)
  {
    match e
    case Advance(tid, now, t1, t2) =>
      if tid in s.threads {
        LinksThread(cfg, s, tid, s.threads[tid], now, t1, t2);
      }
    case IssueFirstParty(userId, now, t1, t2) =>
      InsertsKeepLinks(s.db, cfg, cfg.publicClientId, userId, PublicSiteScopes(), t1, t2, now, NO_TARGET);
    case Revoke(token, now) => MarksKeepLinks(s.db, token, now);
    case CleanAccess(now) => CleanupKeepsLinks(s.db, now);
    case DeleteUser(userId) => PurgeKeepsLinks(s.db, userId);
    case _ => LinksQuiet(s.db, Apply(cfg, s, e).db);
  }

  // ----- Scopes -----

  /** The client exists and its stored scopes contain these. */
  ghost predicate Allowed(clients: map<string, ClientRow>, clientId: string, scopes: seq<string>) {
    clientId in clients && Within(scopes, clients[clientId].scopes)
  }

  /** A code made for a public client that may use codes, at one of its registered redirect URIs. */
  ghost predicate CodeLegit(clients: map<string, ClientRow>, row: CodeRow) {
    && Allowed(clients, row.clientId, row.scopes)
    && clients[row.clientId].kind == Public
    && "authorization_code" in clients[row.clientId].grantTypes
    && row.redirectUri in clients[row.clientId].redirectUris
    && row.challenge != ""
  }

  ghost predicate Targeted(target: Target, scopes: seq<string>) {
    target != NO_TARGET ==> Intersects(scopes, TargetedServiceScopes())
  }

  ghost predicate ScopeThreadOk(clients: map<string, ClientRow>, t: Thread) {
    && (t.Authorized? ==> CodeLegit(clients, CodeRow(t.request.clientId, t.userId, t.request.redirectUri, t.scopes,
                                                     t.request.challenge, 0, None)))
    && (t.Credited? ==> Allowed(clients, t.clientId, t.scopes) && Targeted(t.target, t.scopes))
  }

  ghost predicate ScopesOk(cfg: Settings, s: State) {
    && cfg.publicClientId in s.db.clients && s.db.clients[cfg.publicClientId].scopes == PublicSiteScopes()
    && (forall c :: c in s.created ==> CodeLegit(s.db.clients, s.created[c]))
    && (forall id :: id in s.db.access ==>
      && Allowed(s.db.clients, s.db.access[id].clientId, s.db.access[id].scopes)
      && Targeted(s.db.access[id].target, s.db.access[id].scopes))
    && (forall i :: 0 <= i < |s.log| ==> Allowed(s.db.clients, s.log[i].clientId, s.log[i].scopes))
    && (forall tid :: tid in s.threads ==> ScopeThreadOk(s.db.clients, s.threads[tid]))
  }

  /** Steps that insert no code and no access row; client rows may only be added. */
  lemma ScopesQuiet(cfg: Settings, s: State, s': State)
    requires ScopesOk(cfg, s)
    requires forall c :: c in s.db.clients ==> c in s'.db.clients && s'.db.clients[c] == s.db.clients[c]
    requires s'.created == s.created && s'.log == s.log
    requires forall id :: id in s'.db.access ==>
      id in s.db.access && s'.db.access[id].(revokedAt := None) == s.db.access[id].(revokedAt := None)
    requires forall tid :: tid in s'.threads ==>
      (tid in s.threads && s'.threads[tid] == s.threads[tid]) || ScopeThreadOk(s.db.clients, s'.threads[tid])
    ensures ScopesOk(cfg, s')
  {
    forall id | id in s'.db.access
      ensures Allowed(s'.db.clients, s'.db.access[id].clientId, s'.db.access[id].scopes)
      ensures Targeted(s'.db.access[id].target, s'.db.access[id].scopes)
    {
      var x, y := s'.db.access[id], s.db.access[id];
      assert x.clientId == x.(revokedAt := None).clientId == y.(revokedAt := None).clientId == y.clientId;
      assert x.scopes == x.(revokedAt := None).scopes == y.(revokedAt := None).scopes == y.scopes;
      assert x.target == x.(revokedAt := None).target == y.(revokedAt := None).target == y.target;
    }
    forall tid | tid in s'.threads ensures ScopeThreadOk(s'.db.clients, s'.threads[tid]) {
      assert ScopeThreadOk(s.db.clients, s'.threads[tid]);
    }
  }

  lemma ScopesIssue(cfg: Settings, s: State, s': State, o: Origin, c: string, u: string, sc: seq<string>,
                    t1: string, t2: string, now: Instant)
    requires ScopesOk(cfg, s) && Allowed(s.db.clients, c, sc)
    requires var i := Issue(cfg, s, o, c, u, sc, t1, t2, now);
      s'.db == i.db && s'.log == i.log && s'.created == s.created
    requires forall id :: id in s'.threads ==> s'.threads[id].Answered? || (id in s.threads && s'.threads[id] == s.threads[id])
    ensures ScopesOk(cfg, s')
  {
  }

  lemma ScopesOfHeldCode(cfg: Settings, s: State, t: Thread)
    requires ScopesOk(cfg, s) && t.CodeClaimed? && CodeThreadOk(cfg, s, t)
    ensures Allowed(s.db.clients, t.clientId, t.row.scopes)
  {
    assert CodeLegit(s.db.clients, s.created[t.code]);
  }

  lemma ScopesOfHeldRefresh(cfg: Settings, s: State, t: Thread)
    requires ScopesOk(cfg, s) && t.RefreshClaimed? && RefreshThreadOk(s, t)
    ensures Allowed(s.db.clients, t.clientId, t.held.scopes)
  {
    var i :| 0 <= i < |s.log| && s.log[i].refreshToken == t.token && s.log[i].clientId == t.clientId
      && s.log[i].userId == t.held.userId && s.log[i].scopes == t.held.scopes;
  }

  lemma ScopesCreate(cfg: Settings, s: State, tid: nat, now: Instant, code: string)
    requires ScopesOk(cfg, s) && tid in s.threads && s.threads[tid].Authorized?
    ensures ScopesOk(cfg, CreateCode(cfg, s, tid, s.threads[tid], code, now))
  {
    assert ScopeThreadOk(s.db.clients, s.threads[tid]);
  }

  lemma ScopesService(cfg: Settings, s: State, tid: nat, now: Instant, token: string)
    requires ScopesOk(cfg, s) && tid in s.threads && s.threads[tid].Credited?
    ensures ScopesOk(cfg, IssueService(cfg, s, tid, s.threads[tid], token, now))
  {
    assert ScopeThreadOk(s.db.clients, s.threads[tid]);
  }

  lemma ScopesPut(cfg: Settings, s: State, tid: nat, t: Thread)
    requires ScopesOk(cfg, s) && ScopeThreadOk(s.db.clients, t)
    ensures ScopesOk(cfg, Put(s, tid, t))
  {
    ScopesQuiet(cfg, s, Put(s, tid, t));
  }

  lemma ScopesAuthorize(cfg: Settings, s: State, tid: nat, t: Thread)
    requires ScopesOk(cfg, s) && t.Authorizing?
    ensures ScopesOk(cfg, ReadAuthorization(s, tid, t))
  {
    ScopesPut(cfg, s, tid, ReadAuthorization(s, tid, t).threads[tid]);
  }

  lemma ScopesCredit(cfg: Settings, s: State, tid: nat, t: Thread)
    requires ScopesOk(cfg, s) && t.Crediting?
    ensures ScopesOk(cfg, ReadClient(s, tid, t))
  {
    ScopesPut(cfg, s, tid, ReadClient(s, tid, t).threads[tid]);
  }

  lemma ScopesReads(cfg: Settings, s: State, tid: nat, t: Thread, now: Instant)
    requires ScopesOk(cfg, s)
    ensures t.Exchanging? ==> ScopesOk(cfg, ReadCode(cfg, s, tid, t, now))
    ensures t.Refreshing? ==> ScopesOk(cfg, ReadRefresh(s, tid, t, now))
  {
    if t.Exchanging? {
      ScopesPut(cfg, s, tid, ReadCode(cfg, s, tid, t, now).threads[tid]);
    } else if t.Refreshing? {
      ScopesPut(cfg, s, tid, ReadRefresh(s, tid, t, now).threads[tid]);
    }
  }

  lemma ScopesClaims(cfg: Settings, s: State, tid: nat, t: Thread, now: Instant)
    requires ScopesOk(cfg, s)
    ensures t.CodeChecked? ==> ScopesOk(cfg, ClaimCode(s, tid, t, now))
    ensures t.RefreshChecked? ==> ScopesOk(cfg, ClaimRefresh(s, tid, t, now))
  {
    if t.CodeChecked? {
      ScopesQuiet(cfg, s, ClaimCode(s, tid, t, now));
    } else if t.RefreshChecked? {
      ScopesQuiet(cfg, s, ClaimRefresh(s, tid, t, now));
    }
  }

  lemma ScopesThread(cfg: Settings, s: State, tid: nat, now: Instant, t1: string, t2: string)
    requires ScopesOk(cfg, s) && CodesOk(cfg, s) && RefreshOk(s) && tid in s.threads
    ensures ScopesOk(cfg, AdvanceThread(cfg, s, tid, s.threads[tid], now, t1, t2))
  {
    var t := s.threads[tid];
    if t.Authorizing? {
      ScopesAuthorize(cfg, s, tid, t);
    } else if t.Crediting? {
      ScopesCredit(cfg, s, tid, t);
    } else if t.Authorized? {
      ScopesCreate(cfg, s, tid, now, t1);
    } else if t.Credited? {
      ScopesService(cfg, s, tid, now, t1);
    } else if t.CodeClaimed? {
      ScopesOfHeldCode(cfg, s, t);
      ScopesIssue(cfg, s, AdvanceThread(cfg, s, tid, t, now, t1, t2), FromCode(t.code, t.redirectUri, t.verifier, t.at),
                  t.clientId, t.row.userId, t.row.scopes, t1, t2, now);
    } else if t.RefreshClaimed? {
      ScopesOfHeldRefresh(cfg, s, t);
      ScopesIssue(cfg, s, AdvanceThread(cfg, s, tid, t, now, t1, t2), FromRefresh(t.token),
                  t.clientId, t.held.userId, t.held.scopes, t1, t2, now);
    } else {
      ScopesReads(cfg, s, tid, t, now);
      ScopesClaims(cfg, s, tid, t, now);
    }
  }

  lemma ScopesShrink(cfg: Settings, s: State, db: Tables)
    requires ScopesOk(cfg, s) && Shrinks(s.db, db)
    ensures ScopesOk(cfg, s.(db := db))
  {
    ScopesQuiet(cfg, s, s.(db := db));
  }

  lemma ScopesFirstParty(cfg: Settings, s: State, userId: string, t1: string, t2: string, now: Instant)
    requires ScopesOk(cfg, s)
    ensures ScopesOk(cfg, Issue(cfg, s, FirstParty, cfg.publicClientId, userId, PublicSiteScopes(), t1, t2, now))
  {
    ScopesIssue(cfg, s, Issue(cfg, s, FirstParty, cfg.publicClientId, userId, PublicSiteScopes(), t1, t2, now),
                FirstParty, cfg.publicClientId, userId, PublicSiteScopes(), t1, t2, now);
  }

  lemma ScopesAddClient(cfg: Settings, s: State, clientId: string, row: ClientRow)
    requires ScopesOk(cfg, s)
    ensures ScopesOk(cfg, Apply(cfg, s, AddClient(clientId, row)))
  {
    ScopesQuiet(cfg, s, Apply(cfg, s, AddClient(clientId, row)));
  }

  lemma ScopesStep(cfg: Settings, s: State, e: Event)
    requires ScopesOk(cfg, s) && CodesOk(cfg, s) && RefreshOk(s)
    ensures ScopesOk(cfg, Apply(cfg, s, e))
  {
    match e
    case Advance(tid, now, t1, t2) =>
      if tid in s.threads {
        ScopesThread(cfg, s, tid, now, t1, t2);
      }
    case IssueFirstParty(userId, now, t1, t2) => ScopesFirstParty(cfg, s, userId, t1, t2, now);
    case AddClient(clientId, row) => ScopesAddClient(cfg, s, clientId, row);
    case Arrive(tid, request) =>
      if tid !in s.threads && IsArrival(request) {
        ScopesPut(cfg, s, tid, request);
      }
    case Abort(tid) => ScopesPut(cfg, s, tid, Refused(DatabaseError));
    case Tick(elapsed) => ScopesQuiet(cfg, s, s.(clock := s.clock + elapsed));
    case _ =>
      DeletionEvent(cfg, s, e);
      ScopesShrink(cfg, s, Apply(cfg, s, e).db);
  }
}
