/** How long a refresh row lives: the only events that take it away, over whole runs. */
module OAuthLifetimes {
  import opened OAuthTables
  import opened OAuthScopes
  import opened OAuthProtocol
  import opened OAuthInvariants
  import opened OAuthLinks
  import opened OAuthTheorems

  /**
   * The event takes this refresh row away: an account deletion of its user, or
   * a cleanup that finds the access row it links to expired or revoked.  The
   * refresh row's own expiry and revocation play no part.
   */
  ghost predicate TakesAway(s: State, e: Event, r: string)
    requires r in s.db.refresh
  {
    match e
    case CleanAccess(now) =>
      && now <= s.clock && s.db.refresh[r].accessId in s.db.access
      && AccessIsStale(s.db.access[s.db.refresh[r].accessId], now)
    case DeleteUser(userId) => s.db.refresh[r].userId == userId
    case _ => false
  }

  lemma PurgeTakesOwn(t: Tables, userId: string, r: string)
    requires Linked(t) && r in t.refresh
    ensures r in PurgeUser(t, userId).refresh <==> t.refresh[r].userId != userId
  {
    assert LinkedRow(t, t.refresh[r]);
  }

  lemma ThreadKeepsRefresh(cfg: Settings, s: State, tid: nat, t: Thread, now: Instant, t1: string, t2: string, r: string)
    requires r in s.db.refresh
    ensures r in AdvanceThread(cfg, s, tid, t, now, t1, t2).db.refresh
  {
  }

  lemma OtherEventsKeepRefresh(cfg: Settings, s: State, e: Event, r: string)
    requires r in s.db.refresh && !e.Advance? && !e.CleanAccess? && !e.DeleteUser?
    ensures r in Apply(cfg, s, e).db.refresh
  {
  }

  lemma CleanupTakesStale(cfg: Settings, s: State, now: Instant, r: string)
    requires Linked(s.db) && r in s.db.refresh
    ensures r !in Apply(cfg, s, CleanAccess(now)).db.refresh <==> TakesAway(s, CleanAccess(now), r)
  {
    CleanupRowByRow(s.db, now);
  }

  lemma AdvanceKeepsRefresh(cfg: Settings, s: State, e: Event, r: string)
    requires r in s.db.refresh && e.Advance?
    ensures r in Apply(cfg, s, e).db.refresh
  {
    if e.tid in s.threads {
      ThreadKeepsRefresh(cfg, s, e.tid, s.threads[e.tid], e.now, e.t1, e.t2, r);
    }
  }

  /** One event, in any reachable state: cleanup takes a refresh row exactly when the linked access row is stale. */
  lemma CleanupTakesLinkedRefreshTokens(cfg: Settings, s: State, e: Event, r: string)
    requires Linked(s.db) && r in s.db.refresh
    ensures r !in Apply(cfg, s, e).db.refresh <==> TakesAway(s, e, r)
  {
    if e.CleanAccess? {
      CleanupTakesStale(cfg, s, e.now, r);
    } else if e.DeleteUser? {
      PurgeTakesOwn(s.db, e.userId, r);
    } else if e.Advance? {
      AdvanceKeepsRefresh(cfg, s, e, r);
    } else {
      OtherEventsKeepRefresh(cfg, s, e, r);
    }
  }

  /** Somewhere in the run an event takes the row away. */
  ghost predicate TakenDuring(cfg: Settings, s: State, events: seq<Event>, r: string) {
    exists i :: 0 <= i < |events| && TakenAt(cfg, s, events, i, r)
  }

  ghost predicate TakenAt(cfg: Settings, s: State, events: seq<Event>, i: int, r: string)
    requires 0 <= i < |events|
  {
    r in Run(cfg, s, events[..i]).db.refresh && TakesAway(Run(cfg, s, events[..i]), events[i], r)
  }

  /** A token value, once used, never comes back: no step inserts a refresh row under it again. */
  lemma {:induction false} GoneForGood(cfg: Settings, s: State, events: seq<Event>, r: string)
    requires Inv(cfg, s) && r in s.minted && r !in s.db.refresh
    ensures r !in Run(cfg, s, events).db.refresh
    decreases |events|
  {
    if events != [] {
      StepInv(cfg, s, events[0]);
      NotReborn(cfg, s, events[0], r);
      GoneForGood(cfg, Apply(cfg, s, events[0]), events[1..], r);
    }
  }

  lemma NotReborn(cfg: Settings, s: State, e: Event, r: string)
    requires Inv(cfg, s) && r in s.minted && r !in s.db.refresh
    ensures r in Apply(cfg, s, e).minted && r !in Apply(cfg, s, e).db.refresh
  {
    if IsDeletion(e) {
      DeletionEvent(cfg, s, e);
    } else if e.Advance? && e.tid in s.threads && Fresh(s, e.t1, e.t2) {
      ThreadBringsBackNothing(cfg, s, e.tid, s.threads[e.tid], e.now, e.t1, e.t2, r);
    }
  }

  lemma ThreadBringsBackNothing(
    cfg: Settings, s: State, tid: nat, t: Thread, now: Instant, t1: string, t2: string, r: string)
    requires Fresh(s, t1, t2) && r in s.minted && r !in s.db.refresh
    ensures var s' := AdvanceThread(cfg, s, tid, t, now, t1, t2);
      r in s'.minted && r !in s'.db.refresh
  {
  }

  /** Over a whole run: a refresh row is gone at the end exactly when some event of the run took it away. */
  lemma {:induction false} GoneOnlyWhenTaken(cfg: Settings, s: State, events: seq<Event>, r: string)
    requires Inv(cfg, s) && r in s.db.refresh
    ensures r !in Run(cfg, s, events).db.refresh <==> TakenDuring(cfg, s, events, r)
    decreases |events|
  {
    if events != [] {
      var e, rest := events[0], events[1..];
      var s' := Apply(cfg, s, e);
      assert events[..0] == [];
      CleanupTakesLinkedRefreshTokens(cfg, s, e, r);
      StepInv(cfg, s, e);
      if TakesAway(s, e, r) {
        assert TakenAt(cfg, s, events, 0, r);
        assert r in s.minted;
        NotMintedAway(cfg, s, e, r);
        GoneForGood(cfg, s', rest, r);
      } else {
        GoneOnlyWhenTaken(cfg, s', rest, r);
        TakenLater(cfg, s, events, r);
      }
    }
  }

  lemma NotMintedAway(cfg: Settings, s: State, e: Event, r: string)
    requires r in s.minted && (e.CleanAccess? || e.DeleteUser?)
    ensures r in Apply(cfg, s, e).minted
  {
  }

  lemma TakenLater(cfg: Settings, s: State, events: seq<Event>, r: string)
    requires events != [] && r in s.db.refresh && !TakesAway(s, events[0], r)
    ensures TakenDuring(cfg, s, events, r) <==> TakenDuring(cfg, Apply(cfg, s, events[0]), events[1..], r)
  {
    var s', rest := Apply(cfg, s, events[0]), events[1..];
    forall i | 0 <= i < |rest| ensures TakenAt(cfg, s', rest, i, r) <==> TakenAt(cfg, s, events, i + 1, r) {
      assert events[..i + 1][0] == events[0] && events[..i + 1][1..] == rest[..i];
      assert Run(cfg, s, events[..i + 1]) == Run(cfg, s', rest[..i]);
    }
    assert events[..0] == [];
    if TakenDuring(cfg, s, events, r) {
      var i :| 0 <= i < |events| && TakenAt(cfg, s, events, i, r);
      assert TakenAt(cfg, s', rest, i - 1, r);
    }
    if TakenDuring(cfg, s', rest, r) {
      var i :| 0 <= i < |rest| && TakenAt(cfg, s', rest, i, r);
      assert TakenAt(cfg, s, events, i + 1, r);
    }
  }

  /** From any start: the row present after `before` is gone after `after` exactly when an event took it. */
  lemma RefreshRowsGoOnlyWithTheirAccessRow(
    cfg: Settings, s0: State, before: seq<Event>, after: seq<Event>, r: string)
    requires Initial(cfg, s0) && r in Run(cfg, s0, before).db.refresh
    ensures var s := Run(cfg, s0, before);
      r !in Run(cfg, s, after).db.refresh <==> TakenDuring(cfg, s, after, r)
  {
    InitialInv(cfg, s0);
    RunInv(cfg, s0, before);
    GoneOnlyWhenTaken(cfg, Run(cfg, s0, before), after, r);
  }

  lemma StaleTakes(t: Tables, now: Instant, r: string)
    requires r in t.refresh && t.refresh[r].accessId in t.access && AccessIsStale(t.access[t.refresh[r].accessId], now)
    ensures r !in CleanupAccess(t, now).refresh
  {
  }

  // ----- A refresh token that goes before its time -----

  function ShortAccess(): Settings {
    Settings(verifier => verifier, 300, 3600, 2592000, "web")
  }

  function OnlyWeb(): State {
    var web := ClientRow("", "web", Public, ["authorization_code", "refresh_token"], [], PublicSiteScopes(), true, false, true);
    State(Tables(map["web" := web], map[], map[], map[], 1), 0, map[], {}, map[], [])
  }

  /** With the default lifetimes: an hour and a second after issue, cleanup takes an unexpired, unrevoked refresh token. */
  lemma CleanupTakesALiveRefreshToken()
    ensures
      var cfg, s0 := ShortAccess(), OnlyWeb();
      var issued := [IssueFirstParty("u", 0, "a", "r"), Tick(3601)];
      var s := Run(cfg, s0, issued);
      && Initial(cfg, s0)
      && Live(s.db, "r") && s.clock < s.db.refresh["r"].expiresAt
      && "r" !in Run(cfg, s0, issued + [CleanAccess(3601)]).db.refresh
  {
    var cfg, s0 := ShortAccess(), OnlyWeb();
    var issue, tick, clean := IssueFirstParty("u", 0, "a", "r"), Tick(3601), CleanAccess(3601);
    assert "a" != "r";
    var s1 := Apply(cfg, s0, issue);
    var s2 := Apply(cfg, s1, tick);
    assert [issue, tick][1..] == [tick] && [tick][1..] == [];
    assert Run(cfg, s0, [issue, tick]) == Run(cfg, s1, [tick]) == s2;
    var all := [issue, tick] + [clean];
    assert all[1..] == [tick, clean] && [tick, clean][1..] == [clean] && [clean][1..] == [];
    assert Run(cfg, s0, all) == Run(cfg, s1, [tick, clean]) == Run(cfg, s2, [clean]);
    assert s2.db.refresh["r"].accessId == 1 && AccessIsStale(s2.db.access[1], 3601);
    StaleTakes(s2.db, 3601, "r");
    assert Run(cfg, s2, [clean]) == Apply(cfg, s2, clean);
    assert Apply(cfg, s2, clean).db == CleanupAccess(s2.db, 3601);
  }
}
