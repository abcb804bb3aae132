/**
 * Self-registration and the token protocol over one client table: their steps
 * interleave freely, and the tokens of a registered client stay within what
 * registration may grant.
 */
module OAuthRegistration {
  import opened Wrappers
  import opened OAuthTables
  import opened OAuthScopes
  import opened OAuthLinks
  import Protocol = OAuthProtocol
  import Theorems = OAuthTheorems
  import Registration

  datatype Config = Config(tokens: Settings, registration: Registration.RegistrationSettings)

  /** The two protocols' own states; they agree on the client table. */
  datatype State = State(tokens: Protocol.State, registration: Registration.State)

  datatype Event =
    | TokenEvent(t: Protocol.Event)
    | RegistrationEvent(r: Registration.Event)

  /** Client rows come from registration and seeding only, and the built-in clients are already in place. */
  predicate IsAllowed(e: Event) {
    match e
    case TokenEvent(t) => !t.AddClient?
    case RegistrationEvent(r) => !r.UpsertBuiltIn?
  }

  function WithClients(s: Protocol.State, clients: map<string, ClientRow>): Protocol.State {
    s.(db := s.db.(clients := clients))
  }

  ghost function Apply(cfg: Config, s: State, e: Event): State {
    match e
    case TokenEvent(t) => s.(tokens := Protocol.Apply(cfg.tokens, s.tokens, t))
    case RegistrationEvent(r) =>
      var registration := Registration.Apply(cfg.registration, s.registration, r);
      State(WithClients(s.tokens, registration.clients), registration)
  }

  ghost function Run(cfg: Config, s: State, events: seq<Event>): State
    decreases |events|
  {
    if events == [] then s else Run(cfg, Apply(cfg, s, events[0]), events[1..])
  }

  ghost predicate Initial(cfg: Config, s: State) {
    && Protocol.Initial(cfg.tokens, s.tokens)
    && Registration.Initial(cfg.registration, s.registration)
    && s.tokens.db.clients == s.registration.clients
  }

  ghost predicate Inv(cfg: Config, r0: Registration.State, s: State) {
    && Theorems.Inv(cfg.tokens, s.tokens)
    && Registration.Inv(cfg.registration, r0, s.registration)
    && s.tokens.db.clients == s.registration.clients
  }

  lemma TokensKeepClients(cfg: Settings, s: Protocol.State, e: Protocol.Event)
    requires !e.AddClient?
    ensures Protocol.Apply(cfg, s, e).db.clients == s.db.clients
  {
    if e.Advance? && e.tid in s.threads {
      ThreadKeepsClients(cfg, s, e.tid, s.threads[e.tid], e.now, e.t1, e.t2);
    }
  }

  lemma ThreadKeepsClients(
    cfg: Settings, s: Protocol.State, tid: nat, t: Protocol.Thread, now: Instant, t1: string, t2: string)
    ensures Protocol.AdvanceThread(cfg, s, tid, t, now, t1, t2).db.clients == s.db.clients
  {
  }

  /** A registration step is, for the token protocol, the arrival of at most one client row. */
  lemma RegistrationAddsClients(cfg: Config, r0: Registration.State, s: State, e: Registration.Event)
    requires Inv(cfg, r0, s) && !e.UpsertBuiltIn?
    ensures Theorems.Inv(cfg.tokens, Apply(cfg, s, RegistrationEvent(e)).tokens)
  {
    var clients, clients' := s.registration.clients, Apply(cfg, s, RegistrationEvent(e)).registration.clients;
    Registration.OnlyAddsClients(cfg.registration, s.registration, e);
    if clients' == clients {
      assert WithClients(s.tokens, clients') == s.tokens;
    } else {
      var n :| Registration.AddsRow(clients, clients', n);
      Theorems.StepInv(cfg.tokens, s.tokens, Protocol.AddClient(n, clients'[n]));
      assert WithClients(s.tokens, clients')
        == Protocol.Apply(cfg.tokens, s.tokens, Protocol.AddClient(n, clients'[n]));
    }
  }

  lemma StepInv(cfg: Config, r0: Registration.State, s: State, e: Event)
    requires Inv(cfg, r0, s) && IsAllowed(e)
    ensures Inv(cfg, r0, Apply(cfg, s, e))
  {
    match e
    case TokenEvent(t) =>
      Theorems.StepInv(cfg.tokens, s.tokens, t);
      TokensKeepClients(cfg.tokens, s.tokens, t);
    case RegistrationEvent(r) =>
      RegistrationAddsClients(cfg, r0, s, r);
      Registration.InvStep(cfg.registration, r0, s.registration, r);
  }

  lemma {:induction false} RunInv(cfg: Config, r0: Registration.State, s: State, events: seq<Event>)
    requires Inv(cfg, r0, s) && forall i :: 0 <= i < |events| ==> IsAllowed(events[i])
    ensures Inv(cfg, r0, Run(cfg, s, events))
    decreases |events|
  {
    if events != [] {
      StepInv(cfg, r0, s, events[0]);
      RunInv(cfg, r0, Apply(cfg, s, events[0]), events[1..]);
    }
  }

  /** Some registration or seeding answered that it made this client. */
  ghost predicate IsRegistered(cfg: Config, s: State, name: string) {
    exists i :: 0 <= i < |s.registration.outcomes| && Makes(cfg, s.registration.outcomes[i], name)
  }

  ghost predicate Makes(cfg: Config, o: Registration.Outcome, name: string) {
    Registration.IsNewRow(cfg.registration, o) && o.name == name
  }

  /** What registration may ever grant to a service of this name. */
  ghost predicate Grantable(cfg: Config, name: string, scopes: seq<string>) {
    Within(scopes, ServiceSiteScopes()) && Within(scopes, Registration.AllowlistOf(cfg.registration, name))
  }

  lemma RegisteredRow(cfg: Config, r0: Registration.State, s: State, name: string)
    requires Inv(cfg, r0, s) && IsRegistered(cfg, s, name)
    ensures
      && name in s.tokens.db.clients && s.tokens.db.clients[name].kind == Confidential
      && Grantable(cfg, name, s.tokens.db.clients[name].scopes)
  {
    var i :| 0 <= i < |s.registration.outcomes| && Makes(cfg, s.registration.outcomes[i], name);
    assert Registration.OutcomeOk(cfg.registration, r0, s.registration, s.registration.outcomes[i]);
  }

  /** Every token and pair of this client is one registration may grant, and it holds no code. */
  ghost predicate HoldsOnlyGrantable(cfg: Config, s: Protocol.State, name: string) {
    && (forall id :: id in s.db.access && s.db.access[id].clientId == name ==>
      Grantable(cfg, name, s.db.access[id].scopes))
    && (forall r :: r in s.db.refresh && s.db.refresh[r].clientId == name ==>
      Grantable(cfg, name, s.db.refresh[r].scopes))
    && (forall i :: 0 <= i < |s.log| && s.log[i].clientId == name ==> Grantable(cfg, name, s.log[i].scopes))
    && (forall c :: c in s.db.codes ==> s.db.codes[c].clientId != name)
  }

  lemma ServiceRowLimits(cfg: Config, s: Protocol.State, name: string)
    requires Theorems.Inv(cfg.tokens, s) && name in s.db.clients && s.db.clients[name].kind == Confidential
    requires Grantable(cfg, name, s.db.clients[name].scopes)
    ensures HoldsOnlyGrantable(cfg, s, name)
  {
    forall r | r in s.db.refresh && s.db.refresh[r].clientId == name ensures Grantable(cfg, name, s.db.refresh[r].scopes) {
      assert LinkedRow(s.db, s.db.refresh[r]);
    }
    forall c | c in s.db.codes ensures s.db.codes[c].clientId != name {
      assert CodeLegit(s.db.clients, s.created[c]);
      assert s.db.codes[c].clientId == s.db.codes[c].(consumedAt := None).clientId;
    }
  }

  /**
   * In any interleaving of token requests, registrations and seedings, every
   * access token, refresh token and pair of a client that registration or
   * seeding made carries known service scopes on its allowlist and nothing
   * else, and the client never holds an authorization code.
   */
  lemma RegisteredClientsStayWithinTheirAllowlist(cfg: Config, s0: State, events: seq<Event>, name: string)
    requires Initial(cfg, s0) && forall i :: 0 <= i < |events| ==> IsAllowed(events[i])
    requires IsRegistered(cfg, Run(cfg, s0, events), name)
    ensures HoldsOnlyGrantable(cfg, Run(cfg, s0, events).tokens, name)
  {
    Theorems.InitialInv(cfg.tokens, s0.tokens);
    RunInv(cfg, s0.registration, s0, events);
    var s := Run(cfg, s0, events);
    RegisteredRow(cfg, s0.registration, s, name);
    ServiceRowLimits(cfg, s.tokens, name);
  }
}
