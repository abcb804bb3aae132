/** How long an access token is good, over whole runs, and what revoking one leaves behind. */
module OAuthAccess {
  import opened Wrappers
  import opened OAuthTables
  import opened OAuthScopes
  import opened OAuthProtocol
  import opened OAuthInvariants
  import opened OAuthTheorems
  import Lifetimes = OAuthLifetimes

  predicate Unrevoked(t: Tables, id: nat) {
    id in t.access && t.access[id].revokedAt.None?
  }

  /** What `ResolveAccessToken` asks of the row of a token. */
  predicate RowIsGood(t: Tables, id: nat, now: Instant) {
    Unrevoked(t, id) && !(now > t.access[id].expiresAt)
  }

  ghost predicate HasRow(t: Tables, token: string, id: nat) {
    id in t.access && t.access[id].token == token
  }

  ghost predicate IsGood(t: Tables, token: string, now: Instant) {
    exists id :: HasRow(t, token, id) && RowIsGood(t, id, now)
  }

  /** The unique index on the token column, which the model's tables do not have by construction. */
  ghost predicate OneRowPerToken(t: Tables) {
    forall i, j :: i in t.access && j in t.access && t.access[i].token == t.access[j].token ==> i == j
  }

  // ----- One event -----

  /** Access rows stay as they are, and a new one is under a new id and for a new token. */
  ghost predicate OnlyAdds(s: State, s': State) {
    && s.minted <= s'.minted && s.db.nextId <= s'.db.nextId
    && (forall id :: id in s.db.access ==> id in s'.db.access && s'.db.access[id] == s.db.access[id])
    && (forall id :: id in s'.db.access && id !in s.db.access ==>
      id == s.db.nextId && s'.db.access[id].token !in s.minted && s'.db.access[id].token in s'.minted)
  }

  predicate Ender(e: Event) {
    e.Revoke? || e.CleanAccess? || e.DeleteUser?
  }

  lemma IssueOnlyAdds(
    cfg: Settings, s: State, o: Origin, c: string, u: string, sc: seq<string>, t1: string, t2: string, now: Instant)
    requires s.db.nextId !in s.db.access && Fresh(s, t1, t2)
    ensures OnlyAdds(s, Issue(cfg, s, o, c, u, sc, t1, t2, now))
  {
  }

  lemma ThreadOnlyAdds(cfg: Settings, s: State, tid: nat, t: Thread, now: Instant, t1: string, t2: string)
    requires s.db.nextId !in s.db.access && Fresh(s, t1, t2)
    ensures OnlyAdds(s, AdvanceThread(cfg, s, tid, t, now, t1, t2))
  {
    if IsRead(t) {
      ReadsKeepTables(cfg, s, tid, t, now, t1, t2);
    } else if t.CodeClaimed? {
      IssueOnlyAdds(cfg, s, FromCode(t.code, t.redirectUri, t.verifier, t.at), t.clientId, t.row.userId, t.row.scopes,
                    t1, t2, now);
    } else if t.RefreshClaimed? {
      IssueOnlyAdds(cfg, s, FromRefresh(t.token), t.clientId, t.held.userId, t.held.scopes, t1, t2, now);
    }
  }

  lemma OthersKeepAccess(cfg: Settings, s: State, e: Event)
    requires !Ender(e) && !e.Advance? && !e.IssueFirstParty?
    ensures OnlyAdds(s, Apply(cfg, s, e))
  {
  }

  lemma EventOnlyAdds(cfg: Settings, s: State, e: Event)
    requires Linked(s.db) && !Ender(e)
    ensures OnlyAdds(s, Apply(cfg, s, e))
  {
    assert s.db.nextId !in s.db.access;
    match e
    case Advance(tid, now, t1, t2) =>
      if tid in s.threads && Fresh(s, t1, t2) {
        ThreadOnlyAdds(cfg, s, tid, s.threads[tid], now, t1, t2);
      }
    case IssueFirstParty(userId, now, t1, t2) =>
      if Fresh(s, t1, t2) {
        IssueOnlyAdds(cfg, s, FirstParty, cfg.publicClientId, userId, PublicSiteScopes(), t1, t2, now);
      }
    case _ => OthersKeepAccess(cfg, s, e);
  }

  /** The event ends the row: a revocation of its token, a cleanup that finds it dead, or the deletion of its user. */
  ghost predicate Ends(s: State, e: Event, id: nat) {
    && id in s.db.access
    && match e
       case Revoke(token, now) => now <= s.clock && s.db.access[id].token == token
       case CleanAccess(now) => now <= s.clock && AccessIsStale(s.db.access[id], now)
       case DeleteUser(userId) => s.db.access[id].userId == Some(userId)
       case _ => false
  }

  lemma EnderEnds(cfg: Settings, s: State, e: Event, id: nat)
    requires Ender(e) && Unrevoked(s.db, id)
    ensures Unrevoked(Apply(cfg, s, e).db, id) <==> !Ends(s, e, id)
  {
  }

  lemma EnderShrinks(cfg: Settings, s: State, e: Event, id: nat)
    requires Ender(e)
    ensures var s' := Apply(cfg, s, e);
      && s'.minted == s.minted && s'.db.nextId == s.db.nextId
      && (id in s'.db.access ==>
        && id in s.db.access && s'.db.access[id].token == s.db.access[id].token
        && (s'.db.access[id].revokedAt.None? ==> s'.db.access[id] == s.db.access[id]))
  {
  }

  /** One event, in any reachable state: an unrevoked row is no longer there unrevoked exactly when the event ends it. */
  lemma StepEnds(cfg: Settings, s: State, e: Event, id: nat)
    requires Linked(s.db) && Unrevoked(s.db, id)
    ensures var s' := Apply(cfg, s, e);
      && (Unrevoked(s'.db, id) <==> !Ends(s, e, id))
      && (Unrevoked(s'.db, id) ==> s'.db.access[id] == s.db.access[id])
  {
    if Ender(e) {
      EnderEnds(cfg, s, e, id);
      EnderShrinks(cfg, s, e, id);
    } else {
      EventOnlyAdds(cfg, s, e);
    }
  }

  /** No event brings a row back, and none inserts a row for a token that was generated before. */
  lemma StepBringsBackNothing(cfg: Settings, s: State, e: Event, token: string, now: Instant)
    requires Linked(s.db) && token in s.minted && !IsGood(s.db, token, now)
    ensures token in Apply(cfg, s, e).minted && !IsGood(Apply(cfg, s, e).db, token, now)
  {
    var s' := Apply(cfg, s, e);
    if !Ender(e) {
      EventOnlyAdds(cfg, s, e);
    } else {
      EnderShrinks(cfg, s, e, 0);
    }
    forall id | HasRow(s'.db, token, id) ensures !RowIsGood(s'.db, id, now) {
      if Ender(e) {
        EnderShrinks(cfg, s, e, id);
      }
      assert HasRow(s.db, token, id) && !RowIsGood(s.db, id, now);
    }
  }

  lemma StepKeepsOneRow(cfg: Settings, s: State, e: Event)
    requires Linked(s.db) && MintedCovers(s) && OneRowPerToken(s.db)
    ensures OneRowPerToken(Apply(cfg, s, e).db)
  {
    var s' := Apply(cfg, s, e);
    if Ender(e) {
      forall i, j | i in s'.db.access && j in s'.db.access && s'.db.access[i].token == s'.db.access[j].token ensures i == j {
        EnderShrinks(cfg, s, e, i);
        EnderShrinks(cfg, s, e, j);
      }
    } else {
      EventOnlyAdds(cfg, s, e);
    }
  }

  // ----- Whole runs -----

  lemma {:induction false} RunBringsBackNothing(cfg: Settings, s: State, events: seq<Event>, token: string, now: Instant)
    requires Inv(cfg, s) && token in s.minted && !IsGood(s.db, token, now)
    ensures !IsGood(Run(cfg, s, events).db, token, now)
    decreases |events|
  {
    if events != [] {
      StepInv(cfg, s, events[0]);
      StepBringsBackNothing(cfg, s, events[0], token, now);
      RunBringsBackNothing(cfg, Apply(cfg, s, events[0]), events[1..], token, now);
    }
  }

  /** In any run, a generated token that is not good at some instant is not good at any later one, whatever happens next. */
  lemma AccessEndsForGood(
    cfg: Settings, s0: State, before: seq<Event>, after: seq<Event>, token: string, now: Instant, later: Instant)
    requires Initial(cfg, s0) && now <= later
    requires var s := Run(cfg, s0, before); token in s.minted && !IsGood(s.db, token, now)
    ensures !IsGood(Run(cfg, Run(cfg, s0, before), after).db, token, later)
  {
    InitialInv(cfg, s0);
    RunInv(cfg, s0, before);
    var t := Run(cfg, Run(cfg, s0, before), after).db;
    RunBringsBackNothing(cfg, Run(cfg, s0, before), after, token, now);
    forall id | HasRow(t, token, id) ensures !RowIsGood(t, id, later) {
      assert !RowIsGood(t, id, now);
    }
  }

  /** Some event of the run ends the row. */
  ghost predicate EndedDuring(cfg: Settings, s: State, events: seq<Event>, id: nat)
    decreases |events|
  {
    events != [] && (Ends(s, events[0], id) || EndedDuring(cfg, Apply(cfg, s, events[0]), events[1..], id))
  }

  lemma {:induction false} GoodUntilEnded(cfg: Settings, s: State, events: seq<Event>, id: nat)
    requires Inv(cfg, s) && Unrevoked(s.db, id) && !EndedDuring(cfg, s, events, id)
    ensures var t := Run(cfg, s, events).db; Unrevoked(t, id) && t.access[id] == s.db.access[id]
    decreases |events|
  {
    if events != [] {
      StepInv(cfg, s, events[0]);
      StepEnds(cfg, s, events[0], id);
      GoodUntilEnded(cfg, Apply(cfg, s, events[0]), events[1..], id);
    }
  }

  lemma NotGoodOnceEnded(cfg: Settings, s: State, e: Event, id: nat, now: Instant)
    requires Linked(s.db) && OneRowPerToken(s.db) && Ender(e) && Unrevoked(s.db, id) && Ends(s, e, id)
    ensures !IsGood(Apply(cfg, s, e).db, s.db.access[id].token, now)
  {
    var t', token := Apply(cfg, s, e).db, s.db.access[id].token;
    EnderEnds(cfg, s, e, id);
    forall i | HasRow(t', token, i) ensures !RowIsGood(t', i, now) {
      EnderShrinks(cfg, s, e, i);
    }
  }

  lemma {:induction false} EndedStaysEnded(cfg: Settings, s: State, events: seq<Event>, id: nat, now: Instant)
    requires Inv(cfg, s) && OneRowPerToken(s.db) && Unrevoked(s.db, id) && EndedDuring(cfg, s, events, id)
    ensures !IsGood(Run(cfg, s, events).db, s.db.access[id].token, now)
    decreases |events|
  {
    var e, s' := events[0], Apply(cfg, s, events[0]);
    StepInv(cfg, s, e);
    if Ends(s, e, id) {
      NotGoodOnceEnded(cfg, s, e, id, now);
      EnderShrinks(cfg, s, e, id);
      RunBringsBackNothing(cfg, s', events[1..], s.db.access[id].token, now);
    } else {
      StepEnds(cfg, s, e, id);
      StepKeepsOneRow(cfg, s, e);
      EndedStaysEnded(cfg, s', events[1..], id, now);
    }
  }

  lemma {:induction false} RunKeepsOneRow(cfg: Settings, s: State, events: seq<Event>)
    requires Inv(cfg, s) && OneRowPerToken(s.db)
    ensures OneRowPerToken(Run(cfg, s, events).db)
    decreases |events|
  {
    if events != [] {
      StepInv(cfg, s, events[0]);
      StepKeepsOneRow(cfg, s, events[0]);
      RunKeepsOneRow(cfg, Apply(cfg, s, events[0]), events[1..]);
    }
  }

  /**
   * In any run, a token that is unrevoked is good at the end, at any instant,
   * exactly when that instant is not past its expiry and no event of the run
   * revoked it, cleaned its row up or deleted its user.
   */
  lemma AccessIsGoodUntilEnded(
    cfg: Settings, s0: State, before: seq<Event>, after: seq<Event>, id: nat, later: Instant)
    requires Initial(cfg, s0) && Unrevoked(Run(cfg, s0, before).db, id)
    ensures var s := Run(cfg, s0, before);
      IsGood(Run(cfg, s, after).db, s.db.access[id].token, later) <==>
        !(later > s.db.access[id].expiresAt) && !EndedDuring(cfg, s, after, id)
  {
    InitialInv(cfg, s0);
    RunInv(cfg, s0, before);
    RunKeepsOneRow(cfg, s0, before);
    var s := Run(cfg, s0, before);
    if EndedDuring(cfg, s, after, id) {
      EndedStaysEnded(cfg, s, after, id, later);
    } else {
      GoodUntilEnded(cfg, s, after, id);
      RunKeepsOneRow(cfg, s, after);
      assert HasRow(Run(cfg, s, after).db, s.db.access[id].token, id);
    }
  }

  // ----- What a revocation leaves behind -----

  lemma CleanupAfterRevocation(cfg: Settings, s: State, revoked: string, now: Instant, token: string, at: Instant)
    requires Linked(s.db) && token in s.db.refresh && HasRow(s.db, revoked, s.db.refresh[token].accessId)
    requires now <= s.clock && at <= s.clock
    ensures token !in Apply(cfg, Apply(cfg, s, Revoke(revoked, now)), CleanAccess(at)).db.refresh
  {
    Lifetimes.StaleTakes(RevokeAccess(s.db, revoked, now), at, token);
  }

  /**
   * Revoking an access token does not spend the refresh token issued with it:
   * as long as no cleanup comes in between, an uncontested refresh gets its
   * pair.  A cleanup takes the refresh token away.
   */
  lemma RevocationLeavesRefresh(
    cfg: Settings, s: State, revoked: string, now: Instant, tid: nat, clientId: string, token: string,
    t1: string, t2: string, at: Instant)
    requires Linked(s.db) && now <= s.clock && at <= s.clock && tid !in s.threads && Fresh(s, t1, t2)
    requires RefreshAccepted(s.db, clientId, token, s.clock) && s.clock < s.db.refresh[token].expiresAt
    requires HasRow(s.db, revoked, s.db.refresh[token].accessId)
    ensures
      var s1 := Apply(cfg, s, Revoke(revoked, now));
      var go := Advance(tid, s.clock, t1, t2);
      && !IsGood(s1.db, revoked, s.clock)
      && Run(cfg, s1, [Arrive(tid, Refreshing(clientId, token)), go, go, go]).log
        == s.log + [Grant(FromRefresh(token), clientId, s.db.refresh[token].userId, s.db.refresh[token].scopes, t1, t2)]
      && token !in Apply(cfg, s1, CleanAccess(at)).db.refresh
  {
    var s1 := Apply(cfg, s, Revoke(revoked, now));
    UncontestedRefreshSucceeds(cfg, s1, tid, clientId, token, t1, t2);
    CleanupAfterRevocation(cfg, s, revoked, now, token, at);
  }

  /** With the default lifetimes: a first-party pair, its access token revoked, and its refresh token used all the same. */
  lemma RevokedButRefreshed()
    ensures
      var cfg, s0 := Lifetimes.ShortAccess(), Lifetimes.OnlyWeb();
      var go := Advance(7, 0, "a2", "r2");
      var s := Run(cfg, s0, [IssueFirstParty("u", 0, "a", "r"), Revoke("a", 0)]);
      var s' := Run(cfg, s, [Arrive(7, Refreshing("web", "r")), go, go, go]);
      && Initial(cfg, s0)
      && !IsGood(s.db, "a", 0)
      && |s'.log| == 2 && s'.log[1].origin == FromRefresh("r") && IsGood(s'.db, "a2", 0)
  {
    var cfg, s0 := Lifetimes.ShortAccess(), Lifetimes.OnlyWeb();
    var issue, revoke := IssueFirstParty("u", 0, "a", "r"), Revoke("a", 0);
    assert "a" != "r" && |"a"| != |"a2"|;
    var s1 := Apply(cfg, s0, issue);
    assert [issue, revoke][1..] == [revoke] && [revoke][1..] == [];
    var s := Apply(cfg, s1, revoke);
    assert Run(cfg, s0, [issue, revoke]) == Run(cfg, s1, [revoke]) == s;
    assert s.db.refresh == s1.db.refresh == map["r" := RefreshRow(1, "web", "u", s0.db.clients["web"].scopes, 2592000, None)];
    UncontestedRefreshSucceeds(cfg, s, 7, "web", "r", "a2", "r2");
    var go := Advance(7, 0, "a2", "r2");
    var s' := Run(cfg, s, [Arrive(7, Refreshing("web", "r")), go, go, go]);
    assert HasRow(s'.db, "a2", 2) && RowIsGood(s'.db, 2, 0);
  }
}
