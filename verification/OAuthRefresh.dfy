/** Refresh rotation: what every step keeps about refresh tokens, links and scopes. */
module OAuthRefresh {
  import opened OAuthTables
  import opened OAuthScopes
  import opened OAuthProtocol
  import opened OAuthInvariants

  ghost predicate RefreshSpent(db: Tables, token: string) {
    token in db.refresh ==> db.refresh[token].revokedAt.Some?
  }

  /** One of the first `n` logged pairs carries this refresh token, for this client, user and scopes. */
  ghost predicate IssuedBefore(log: seq<Grant>, n: nat, token: string, clientId: string, userId: string, scopes: seq<string>)
    requires n <= |log|
  {
    exists i :: 0 <= i < n && log[i].refreshToken == token
      && log[i].clientId == clientId && log[i].userId == userId && log[i].scopes == scopes
  }

  ghost predicate Unrefreshed(log: seq<Grant>, token: string) {
    forall i :: 0 <= i < |log| && log[i].origin.FromRefresh? ==> log[i].origin.parent != token
  }

  ghost predicate RefreshThreadOk(s: State, t: Thread) {
    && (t.RefreshChecked? || t.RefreshClaimed? ==>
      IssuedBefore(s.log, |s.log|, t.token, t.clientId, t.held.userId, t.held.scopes))
    && (t.RefreshClaimed? ==> RefreshSpent(s.db, t.token) && Unrefreshed(s.log, t.token))
  }

  ghost predicate RefreshRowsOk(s: State) {
    forall r :: r in s.db.refresh ==>
      IssuedBefore(s.log, |s.log|, r, s.db.refresh[r].clientId, s.db.refresh[r].userId, s.db.refresh[r].scopes)
  }

  ghost predicate RefreshClaimsApart(threads: map<nat, Thread>) {
    forall a, b :: a in threads && b in threads && a != b && threads[a].RefreshClaimed? && threads[b].RefreshClaimed?
      ==> threads[a].token != threads[b].token
  }

  /** The part of the invariant that speaks of the history alone. */
  ghost predicate Chained(log: seq<Grant>) {
    && (forall i, j :: 0 <= i < j < |log| ==> log[i].refreshToken != log[j].refreshToken)
    && (forall j :: 0 <= j < |log| && log[j].origin.FromRefresh? ==>
      IssuedBefore(log, j, log[j].origin.parent, log[j].clientId, log[j].userId, log[j].scopes))
    && (forall i, j :: 0 <= i < j < |log| && log[i].origin.FromRefresh? && log[j].origin.FromRefresh? ==>
      log[i].origin.parent != log[j].origin.parent)
  }

  ghost predicate ParentsSpent(s: State) {
    forall j :: 0 <= j < |s.log| && s.log[j].origin.FromRefresh? ==> RefreshSpent(s.db, s.log[j].origin.parent)
  }

  ghost predicate RefreshOk(s: State) {
    && RefreshRowsOk(s)
    && (forall tid :: tid in s.threads ==> RefreshThreadOk(s, s.threads[tid]))
    && RefreshClaimsApart(s.threads)
    && Chained(s.log)
    && ParentsSpent(s)
  }

  /** Steps that issue nothing and claim no refresh token. */
  lemma RefreshQuiet(s: State, s': State)
    requires RefreshOk(s)
    requires s'.log == s.log
    requires forall r :: r in s'.db.refresh ==> r in s.db.refresh && s'.db.refresh[r] == s.db.refresh[r]
    requires forall tid :: tid in s'.threads ==>
      || (tid in s.threads && s'.threads[tid] == s.threads[tid])
      || (!s'.threads[tid].RefreshClaimed? && RefreshThreadOk(s, s'.threads[tid]))
    ensures RefreshOk(s')
  {
    forall tid | tid in s'.threads ensures RefreshThreadOk(s', s'.threads[tid]) {
      assert RefreshThreadOk(s, s'.threads[tid]);
    }
  }

  lemma RefreshRead(s: State, tid: nat, t: Thread, now: Instant)
    requires RefreshOk(s) && t.Refreshing?
    ensures RefreshOk(ReadRefresh(s, tid, t, now))
  {
    RefreshQuiet(s, ReadRefresh(s, tid, t, now));
  }

  lemma RefreshClaim(s: State, tid: nat, now: Instant)
    requires RefreshOk(s) && tid in s.threads && s.threads[tid].RefreshChecked?
    ensures RefreshOk(ClaimRefresh(s, tid, s.threads[tid], now))
  {
    var t := s.threads[tid];
    var s' := ClaimRefresh(s, tid, t, now);
    assert RefreshThreadOk(s, t);
    if RefreshIsClaimable(s.db, t.token, now) {
      forall r | RefreshSpent(s.db, r) ensures RefreshSpent(s'.db, r) && r != t.token {
      }
      assert Unrefreshed(s.log, t.token);
      forall id | id in s'.threads ensures RefreshThreadOk(s', s'.threads[id]) {
        assert id != tid ==> RefreshThreadOk(s, s.threads[id]);
      }
      forall r | r in s'.db.refresh
        ensures IssuedBefore(s'.log, |s'.log|, r, s'.db.refresh[r].clientId, s'.db.refresh[r].userId, s'.db.refresh[r].scopes)
      {
        assert IssuedBefore(s.log, |s.log|, r, s.db.refresh[r].clientId, s.db.refresh[r].userId, s.db.refresh[r].scopes);
      }
    } else {
      RefreshQuiet(s, s');
    }
  }

  lemma IssuedAppend(log: seq<Grant>, g: Grant, n: nat, token: string, c: string, u: string, sc: seq<string>)
    requires n <= |log| && IssuedBefore(log, n, token, c, u, sc)
    ensures IssuedBefore(log + [g], n, token, c, u, sc)
    ensures IssuedBefore(log + [g], |log| + 1, token, c, u, sc)
  {
    var i :| 0 <= i < n && log[i].refreshToken == token
      && log[i].clientId == c && log[i].userId == u && log[i].scopes == sc;
    assert (log + [g])[i] == log[i];
  }

  lemma ChainedAppend(log: seq<Grant>, g: Grant)
    requires Chained(log)
    requires forall i :: 0 <= i < |log| ==> log[i].refreshToken != g.refreshToken
    requires g.origin.FromRefresh? ==>
      Unrefreshed(log, g.origin.parent) && IssuedBefore(log, |log|, g.origin.parent, g.clientId, g.userId, g.scopes)
    ensures Chained(log + [g])
  {
    var log' := log + [g];
    forall j | 0 <= j < |log'| && log'[j].origin.FromRefresh?
      ensures IssuedBefore(log', j, log'[j].origin.parent, log'[j].clientId, log'[j].userId, log'[j].scopes)
    {
      IssuedAppend(log, g, j, log'[j].origin.parent, log'[j].clientId, log'[j].userId, log'[j].scopes);
    }
  }

  /** Issuing a pair; the issuing request, if there is one, is answered in the same step. */
  lemma RefreshIssue(cfg: Settings, s: State, s': State, o: Origin, c: string, u: string, sc: seq<string>,
                     t1: string, t2: string, now: Instant)
    requires RefreshOk(s) && MintedCovers(s) && Fresh(s, t1, t2)
    requires o.FromRefresh? ==>
      Unrefreshed(s.log, o.parent) && IssuedBefore(s.log, |s.log|, o.parent, c, u, sc) && RefreshSpent(s.db, o.parent)
    requires s'.db == Issue(cfg, s, o, c, u, sc, t1, t2, now).db && s'.log == Issue(cfg, s, o, c, u, sc, t1, t2, now).log
    requires forall id :: id in s'.threads ==>
      || s'.threads[id].Answered?
      || (id in s.threads && s'.threads[id] == s.threads[id]
          && (o.FromRefresh? && s.threads[id].RefreshClaimed? ==> s.threads[id].token != o.parent))
    ensures RefreshOk(s')
  {
    var g := Grant(o, c, u, sc, t1, t2);
    assert o.FromRefresh? ==> o.parent in s.minted by {
      if o.FromRefresh? {
        var i :| 0 <= i < |s.log| && s.log[i].refreshToken == o.parent;
      }
    }
    ChainedAppend(s.log, g);
    forall r | r in s'.db.refresh
      ensures IssuedBefore(s'.log, |s'.log|, r, s'.db.refresh[r].clientId, s'.db.refresh[r].userId, s'.db.refresh[r].scopes)
    {
      if r == t2 {
        assert s'.log[|s.log|] == g;
      } else {
        IssuedAppend(s.log, g, |s.log|, r, s.db.refresh[r].clientId, s.db.refresh[r].userId, s.db.refresh[r].scopes);
      }
    }
    forall id | id in s'.threads ensures RefreshThreadOk(s', s'.threads[id]) {
      RefreshIssueThread(s, s', g, s'.threads[id]);
    }
    forall j | 0 <= j < |s'.log| && s'.log[j].origin.FromRefresh? ensures RefreshSpent(s'.db, s'.log[j].origin.parent) {
      if j < |s.log| {
        var p := s.log[j].origin.parent;
        assert IssuedBefore(s.log, j, p, s.log[j].clientId, s.log[j].userId, s.log[j].scopes);
        var i :| 0 <= i < j && s.log[i].refreshToken == p;
        assert p in s.minted && RefreshSpent(s.db, p);
      }
    }
  }

  lemma RefreshIssueThread(s: State, s': State, g: Grant, t: Thread)
    requires RefreshThreadOk(s, t) || t.Answered?
    requires MintedCovers(s) && g.refreshToken !in s.minted
    requires s'.log == s.log + [g]
    requires forall r :: r != g.refreshToken && r in s'.db.refresh ==> r in s.db.refresh && s'.db.refresh[r] == s.db.refresh[r]
    requires g.origin.FromRefresh? && t.RefreshClaimed? ==> t.token != g.origin.parent
    ensures RefreshThreadOk(s', t)
  {
    if t.RefreshChecked? || t.RefreshClaimed? {
      IssuedAppend(s.log, g, |s.log|, t.token, t.clientId, t.held.userId, t.held.scopes);
      var i :| 0 <= i < |s.log| && s.log[i].refreshToken == t.token;
      assert t.token in s.minted;
    }
  }

  /** A request that gets an answer, and neither issues nor claims. */
  lemma RefreshPut(s: State, tid: nat, t: Thread)
    requires RefreshOk(s) && !t.RefreshChecked? && !t.RefreshClaimed?
    ensures RefreshOk(Put(s, tid, t))
  {
    RefreshQuiet(s, Put(s, tid, t));
  }

  lemma RefreshReads(cfg: Settings, s: State, tid: nat, t: Thread, now: Instant)
    requires RefreshOk(s)
    ensures t.Authorizing? ==> RefreshOk(ReadAuthorization(s, tid, t))
    ensures t.Crediting? ==> RefreshOk(ReadClient(s, tid, t))
    ensures t.Exchanging? ==> RefreshOk(ReadCode(cfg, s, tid, t, now))
  {
    if t.Authorizing? {
      RefreshPut(s, tid, ReadAuthorization(s, tid, t).threads[tid]);
    } else if t.Crediting? {
      RefreshPut(s, tid, ReadClient(s, tid, t).threads[tid]);
    } else if t.Exchanging? {
      RefreshPut(s, tid, ReadCode(cfg, s, tid, t, now).threads[tid]);
    }
  }

  lemma RefreshWrites(cfg: Settings, s: State, tid: nat, t: Thread, now: Instant, t1: string)
    requires RefreshOk(s)
    ensures t.Authorized? ==> RefreshOk(CreateCode(cfg, s, tid, t, t1, now))
    ensures t.CodeChecked? ==> RefreshOk(ClaimCode(s, tid, t, now))
    ensures t.Credited? ==> RefreshOk(IssueService(cfg, s, tid, t, t1, now))
  {
    if t.Authorized? {
      RefreshQuiet(s, CreateCode(cfg, s, tid, t, t1, now));
    } else if t.CodeChecked? {
      RefreshQuiet(s, ClaimCode(s, tid, t, now));
    } else if t.Credited? {
      RefreshQuiet(s, IssueService(cfg, s, tid, t, t1, now));
    }
  }

  lemma RefreshOtherThread(cfg: Settings, s: State, tid: nat, now: Instant, t1: string, t2: string)
    requires RefreshOk(s) && tid in s.threads
    requires var t := s.threads[tid]; !t.Refreshing? && !t.RefreshChecked? && !t.RefreshClaimed? && !t.CodeClaimed?
    ensures RefreshOk(AdvanceThread(cfg, s, tid, s.threads[tid], now, t1, t2))
  {
    RefreshReads(cfg, s, tid, s.threads[tid], now);
    RefreshWrites(cfg, s, tid, s.threads[tid], now, t1);
  }

  lemma RefreshThread(cfg: Settings, s: State, tid: nat, now: Instant, t1: string, t2: string)
    requires RefreshOk(s) && MintedCovers(s) && tid in s.threads && Fresh(s, t1, t2)
    ensures RefreshOk(AdvanceThread(cfg, s, tid, s.threads[tid], now, t1, t2))
  {
    var t := s.threads[tid];
    assert RefreshThreadOk(s, t);
    if t.Refreshing? {
      RefreshRead(s, tid, t, now);
    } else if t.RefreshChecked? {
      RefreshClaim(s, tid, now);
    } else if t.RefreshClaimed? {
      RefreshIssue(cfg, s, AdvanceThread(cfg, s, tid, t, now, t1, t2), FromRefresh(t.token), t.clientId,
                   t.held.userId, t.held.scopes, t1, t2, now);
    } else if t.CodeClaimed? {
      RefreshIssue(cfg, s, AdvanceThread(cfg, s, tid, t, now, t1, t2), FromCode(t.code, t.redirectUri, t.verifier, t.at),
                   t.clientId, t.row.userId, t.row.scopes, t1, t2, now);
    } else {
      RefreshOtherThread(cfg, s, tid, now, t1, t2);
    }
  }

  lemma RefreshStep(cfg: Settings, s: State, e: Event)
    requires RefreshOk(s) && MintedCovers(s)
    ensures RefreshOk(Apply(cfg, s, e))
  {
    match e
    case Advance(tid, now, t1, t2) =>
      if tid in s.threads && Fresh(s, t1, t2) {
        RefreshThread(cfg, s, tid, now, t1, t2);
      }
    case IssueFirstParty(userId, now, t1, t2) =>
      if Fresh(s, t1, t2) {
        RefreshIssue(cfg, s, Issue(cfg, s, FirstParty, cfg.publicClientId, userId, PublicSiteScopes(), t1, t2, now),
                     FirstParty, cfg.publicClientId, userId, PublicSiteScopes(), t1, t2, now);
      }
    case Arrive(tid, request) =>
      if tid !in s.threads && IsArrival(request) {
        RefreshPut(s, tid, request);
      }
    case Abort(tid) => RefreshPut(s, tid, Refused(DatabaseError));
    case Tick(elapsed) => RefreshQuiet(s, s.(clock := s.clock + elapsed));
    case AddClient(_, _) => RefreshQuiet(s, Apply(cfg, s, e));
    case _ =>
      DeletionEvent(cfg, s, e);
      RefreshQuiet(s, Apply(cfg, s, e));
  }
}
