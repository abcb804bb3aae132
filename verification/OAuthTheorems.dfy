/** What holds after every run of the token protocol, whatever the interleaving. */
module OAuthTheorems {
  import opened Wrappers
  import opened OAuthTables
  import opened OAuthScopes
  import opened OAuthProtocol
  import opened OAuthInvariants
  import opened OAuthRefresh
  import opened OAuthLinks

  ghost predicate Inv(cfg: Settings, s: State) {
    MintedCovers(s) && CodesOk(cfg, s) && RefreshOk(s) && Linked(s.db) && ScopesOk(cfg, s)
  }

  lemma InitialInv(cfg: Settings, s: State)
    requires Initial(cfg, s)
    ensures Inv(cfg, s)
  {
  }

  lemma StepInv(cfg: Settings, s: State, e: Event)
    requires Inv(cfg, s)
    ensures Inv(cfg, Apply(cfg, s, e))
  {
    MintedStep(cfg, s, e);
    CodesStep(cfg, s, e);
    RefreshStep(cfg, s, e);
    LinksStep(cfg, s, e);
    ScopesStep(cfg, s, e);
  }

  lemma {:induction false} RunInv(cfg: Settings, s: State, events: seq<Event>)
    requires Inv(cfg, s)
    ensures Inv(cfg, Run(cfg, s, events))
    decreases |events|
  {
    if events != [] {
      StepInv(cfg, s, events[0]);
      RunInv(cfg, Apply(cfg, s, events[0]), events[1..]);
    }
  }

  ghost predicate HistoryExtends(s: State, s': State) {
    s.log <= s'.log && forall c :: c in s.created ==> c in s'.created && s'.created[c] == s.created[c]
  }

  lemma ThreadExtendsHistory(cfg: Settings, s: State, tid: nat, t: Thread, now: Instant, t1: string, t2: string)
    requires MintedCovers(s) && Fresh(s, t1, t2)
    ensures HistoryExtends(s, AdvanceThread(cfg, s, tid, t, now, t1, t2))
  {
    var s' := AdvanceThread(cfg, s, tid, t, now, t1, t2);
    if t.Authorized? {
      assert t1 !in s.created;
      assert s'.log == s.log && s'.created == s.created[t1 := s'.created[t1]];
    } else {
      assert s'.created == s.created;
    }
  }

  lemma StepExtendsHistory(cfg: Settings, s: State, e: Event)
    requires MintedCovers(s)
    ensures HistoryExtends(s, Apply(cfg, s, e))
  {
    if e.Advance? {
      if e.tid in s.threads && Fresh(s, e.t1, e.t2) {
        ThreadExtendsHistory(cfg, s, e.tid, s.threads[e.tid], e.now, e.t1, e.t2);
      }
    } else {
      assert Apply(cfg, s, e).created == s.created;
    }
  }

  /** The history is append-only: nothing in it is ever rewritten to make a claim true. */
  lemma {:induction false} HistoryOnlyGrows(cfg: Settings, s: State, events: seq<Event>)
    requires Inv(cfg, s)
    ensures HistoryExtends(s, Run(cfg, s, events))
    decreases |events|
  {
    if events != [] {
      var s1 := Apply(cfg, s, events[0]);
      StepInv(cfg, s, events[0]);
      StepExtendsHistory(cfg, s, events[0]);
      HistoryOnlyGrows(cfg, s1, events[1..]);
      var s2 := Run(cfg, s1, events[1..]);
      forall c | c in s.created ensures c in s2.created && s2.created[c] == s.created[c] {
        assert s1.created[c] == s.created[c];
      }
    }
  }

  predicate IsCodePair(log: seq<Grant>, i: int) {
    0 <= i < |log| && log[i].origin.FromCode?
  }

  /**
   * An authorization code yields at most one token pair.  Whoever got it
   * presented the client, redirect URI and verifier the code was made for and
   * marked the row before it expired, and the pair is for the code's own user
   * and scopes.
   */
  lemma CodeYieldsAtMostOnePair(cfg: Settings, s0: State, events: seq<Event>)
    requires Initial(cfg, s0)
    ensures var s := Run(cfg, s0, events);
      && (forall i, j :: IsCodePair(s.log, i) && IsCodePair(s.log, j) && s.log[i].origin.code == s.log[j].origin.code ==>
        i == j)
      && (forall i :: IsCodePair(s.log, i) ==>
        && WonFairly(cfg, s.created, s.log[i])
        && CodeLegit(s.db.clients, s.created[s.log[i].origin.code]))
  {
    InitialInv(cfg, s0);
    RunInv(cfg, s0, events);
  }

  /** Every row and every logged pair stays within the stored scopes of its client. */
  lemma ScopesNeverGrow(cfg: Settings, s0: State, events: seq<Event>)
    requires Initial(cfg, s0)
    ensures var s := Run(cfg, s0, events);
      && (forall id :: id in s.db.access ==>
        && Allowed(s.db.clients, s.db.access[id].clientId, s.db.access[id].scopes)
        && (s.db.access[id].target != NO_TARGET ==> Intersects(s.db.access[id].scopes, TargetedServiceScopes())))
      && (forall r :: r in s.db.refresh ==> Allowed(s.db.clients, s.db.refresh[r].clientId, s.db.refresh[r].scopes))
      && (forall c :: c in s.db.codes ==> Allowed(s.db.clients, s.db.codes[c].clientId, s.db.codes[c].scopes))
      && (forall i :: 0 <= i < |s.log| ==> Allowed(s.db.clients, s.log[i].clientId, s.log[i].scopes))
  {
    InitialInv(cfg, s0);
    RunInv(cfg, s0, events);
    var s := Run(cfg, s0, events);
    forall r | r in s.db.refresh ensures Allowed(s.db.clients, s.db.refresh[r].clientId, s.db.refresh[r].scopes) {
      assert LinkedRow(s.db, s.db.refresh[r]);
    }
    forall c | c in s.db.codes ensures Allowed(s.db.clients, s.db.codes[c].clientId, s.db.codes[c].scopes) {
      assert CodeLegit(s.db.clients, s.created[c]);
      assert s.db.codes[c].scopes == s.db.codes[c].(consumedAt := None).scopes;
      assert s.db.codes[c].clientId == s.db.codes[c].(consumedAt := None).clientId;
    }
  }

  /** Every refresh row links to an existing access row with the same client, user and scopes. */
  lemma PairsStayLinked(cfg: Settings, s0: State, events: seq<Event>)
    requires Initial(cfg, s0)
    ensures Linked(Run(cfg, s0, events).db)
  {
    InitialInv(cfg, s0);
    RunInv(cfg, s0, events);
  }

  // ----- The refresh chain -----

  ghost predicate ParentOf(log: seq<Grant>, p: nat, j: nat) {
    p < j < |log| && log[j].origin.FromRefresh? && log[j].origin.parent == log[p].refreshToken
  }

  /** Pair `b` was obtained from pair `a` by zero or more refreshes. */
  ghost predicate Descends(log: seq<Grant>, a: nat, b: nat)
    decreases b
  {
    a == b || exists p: nat :: ParentOf(log, p, b) && Descends(log, a, p)
  }

  lemma {:induction false} DescendsForward(log: seq<Grant>, a: nat, b: nat)
    requires Descends(log, a, b)
    ensures a <= b
    decreases b
  {
    if a != b {
      var p: nat :| ParentOf(log, p, b) && Descends(log, a, p);
      DescendsForward(log, a, p);
    }
  }

  lemma {:induction false} ChildOnPath(log: seq<Grant>, a: nat, b: nat) returns (c: nat)
    requires Descends(log, a, b) && a != b
    ensures ParentOf(log, a, c) && Descends(log, c, b)
    decreases b
  {
    var p: nat :| ParentOf(log, p, b) && Descends(log, a, p);
    if p == a {
      c := b;
    } else {
      c := ChildOnPath(log, a, p);
    }
  }

  lemma OneRefreshPerToken(log: seq<Grant>, p: nat, c: nat, j: nat)
    requires Chained(log) && ParentOf(log, p, c) && ParentOf(log, p, j)
    ensures c == j
  {
  }

  /** Two descendants of one pair are never siblings: one descends from the other. */
  lemma {:induction false} DescendantsFormAChain(log: seq<Grant>, a: nat, i: nat, j: nat)
    requires Chained(log) && Descends(log, a, i) && Descends(log, a, j) && i <= j
    ensures Descends(log, i, j)
    decreases j
  {
    if i != j {
      DescendsForward(log, a, i);
      var p: nat :| ParentOf(log, p, j) && Descends(log, a, p);
      if i <= p {
        DescendantsFormAChain(log, a, i, p);
      } else {
        DescendantsFormAChain(log, a, p, i);
        var c := ChildOnPath(log, p, i);
        OneRefreshPerToken(log, p, c, j);
        DescendsForward(log, c, i);
      }
    }
  }

  lemma {:induction false} IdentityIsConstantAlong(log: seq<Grant>, a: nat, b: nat)
    requires Chained(log) && Descends(log, a, b) && b < |log|
    ensures a < |log| && log[a].clientId == log[b].clientId && log[a].userId == log[b].userId
      && log[a].scopes == log[b].scopes
    decreases b
  {
    if a != b {
      var p: nat :| ParentOf(log, p, b) && Descends(log, a, p);
      IdentityIsConstantAlong(log, a, p);
      assert IssuedBefore(log, b, log[b].origin.parent, log[b].clientId, log[b].userId, log[b].scopes);
      var q :| 0 <= q < b && log[q].refreshToken == log[b].origin.parent
        && log[q].clientId == log[b].clientId && log[q].userId == log[b].userId && log[q].scopes == log[b].scopes;
      assert q == p;
    }
  }

  ghost predicate Live(db: Tables, token: string) {
    token in db.refresh && db.refresh[token].revokedAt.None?
  }

  /**
   * The pairs descending from one grant form a single chain, the client, user
   * and scopes never change along it, and at most one of its refresh tokens is
   * unrevoked: the newest.
   */
  lemma RefreshTokensFormOneChain(cfg: Settings, s0: State, events: seq<Event>, root: nat, i: nat, j: nat)
    requires Initial(cfg, s0)
    requires var log := Run(cfg, s0, events).log;
      i <= j < |log| && Descends(log, root, i) && Descends(log, root, j)
    ensures var s := Run(cfg, s0, events);
      && Descends(s.log, i, j)
      && s.log[i].clientId == s.log[j].clientId && s.log[i].userId == s.log[j].userId && s.log[i].scopes == s.log[j].scopes
      && (Live(s.db, s.log[i].refreshToken) ==> i == j)
  {
    InitialInv(cfg, s0);
    RunInv(cfg, s0, events);
    var s := Run(cfg, s0, events);
    DescendantsFormAChain(s.log, root, i, j);
    IdentityIsConstantAlong(s.log, i, j);
    if i != j {
      var c := ChildOnPath(s.log, i, j);
      assert RefreshSpent(s.db, s.log[c].origin.parent);
    }
  }

  lemma RunOf4(cfg: Settings, s: State, a: Event, b: Event, c: Event, d: Event)
    ensures Run(cfg, s, [a, b, c, d]) == Apply(cfg, Apply(cfg, Apply(cfg, Apply(cfg, s, a), b), c), d)
  {
    assert [a, b, c, d][1..] == [b, c, d] && [b, c, d][1..] == [c, d] && [c, d][1..] == [d];
    assert Run(cfg, s, [a, b, c, d]) == Run(cfg, Apply(cfg, s, a), [b, c, d]);
    assert Run(cfg, Apply(cfg, s, a), [b, c, d]) == Run(cfg, Apply(cfg, Apply(cfg, s, a), b), [c, d]);
    var s2 := Apply(cfg, Apply(cfg, s, a), b);
    assert Run(cfg, s2, [c, d]) == Run(cfg, Apply(cfg, s2, c), [d]) == Apply(cfg, Apply(cfg, s2, c), d);
  }

  /** The protocol is not safe by refusing: an uncontested request for a live code gets its pair. */
  lemma UncontestedExchangeSucceeds(cfg: Settings, s: State, tid: nat, clientId: string, code: string,
                                    redirectUri: string, verifier: string, t1: string, t2: string)
    requires tid !in s.threads && Fresh(s, t1, t2)
    requires CodeAccepted(cfg, s.db, clientId, code, redirectUri, verifier, s.clock) && s.clock < s.db.codes[code].expiresAt
    ensures var row := s.db.codes[code];
      var go := Advance(tid, s.clock, t1, t2);
      var s' := Run(cfg, s, [Arrive(tid, Exchanging(clientId, code, redirectUri, verifier)), go, go, go]);
      && s'.log == s.log + [Grant(FromCode(code, redirectUri, verifier, s.clock), clientId, row.userId, row.scopes, t1, t2)]
      && s'.db == InsertPair(ConsumeCode(s.db, code, s.clock), cfg, clientId, row.userId, row.scopes, t1, t2, s.clock)
  {
    var arrive := Arrive(tid, Exchanging(clientId, code, redirectUri, verifier));
    var go := Advance(tid, s.clock, t1, t2);
    RunOf4(cfg, s, arrive, go, go, go);
    var s1 := Apply(cfg, s, arrive);
    var s2 := Apply(cfg, s1, go);
    assert s2.threads[tid] == CodeChecked(clientId, code, redirectUri, verifier, s.db.codes[code]);
    var s3 := Apply(cfg, s2, go);
    assert s3.threads[tid] == CodeClaimed(clientId, code, redirectUri, verifier, s.db.codes[code], s.clock);
  }

  /** Nor is refresh: an uncontested request with a live token gets its pair, and the old token is spent. */
  lemma UncontestedRefreshSucceeds(
    cfg: Settings, s: State, tid: nat, clientId: string, token: string, t1: string, t2: string)
    requires tid !in s.threads && Fresh(s, t1, t2)
    requires RefreshAccepted(s.db, clientId, token, s.clock) && s.clock < s.db.refresh[token].expiresAt
    ensures var held := s.db.refresh[token];
      var go := Advance(tid, s.clock, t1, t2);
      var s' := Run(cfg, s, [Arrive(tid, Refreshing(clientId, token)), go, go, go]);
      && s'.log == s.log + [Grant(FromRefresh(token), clientId, held.userId, held.scopes, t1, t2)]
      && s'.db == InsertPair(RevokeRefresh(s.db, token, s.clock), cfg, clientId, held.userId, held.scopes, t1, t2, s.clock)
  {
    var arrive := Arrive(tid, Refreshing(clientId, token));
    var go := Advance(tid, s.clock, t1, t2);
    RunOf4(cfg, s, arrive, go, go, go);
    var s1 := Apply(cfg, s, arrive);
    var s2 := Apply(cfg, s1, go);
    assert s2.threads[tid] == RefreshChecked(clientId, token, s.db.refresh[token]);
    var s3 := Apply(cfg, s2, go);
    assert s3.threads[tid] == RefreshClaimed(clientId, token, s.db.refresh[token], s.clock);
  }
}
