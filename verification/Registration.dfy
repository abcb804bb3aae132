/**
 * Get-or-create registration of service clients racing with config seeding.
 *
 * `RegisterServiceClient` and `ensureConfiguredServiceClients` are split into
 * their lookup, create and re-lookup statements; any number of either may run
 * at once.  A seeding insert is one step, the commit of its transaction: until
 * then the unique index makes other inserts of the same client_id wait.
 * `outcomes` records what callers were told and which rows were inserted.
 */
module Registration {
  import opened OAuthTables
  import opened OAuthScopes

  datatype RegistrationSettings = RegistrationSettings(superSecret: string, builtIn: set<string>, allowlist: map<string, seq<string>>)

  datatype Thread =
    | Looking(name: string, scopes: seq<string>)
    | Missing(name: string, scopes: seq<string>)
    | Rechecking(name: string, scopes: seq<string>)
    | SeedLooking(name: string, secret: string, title: string)
    | SeedMissing(name: string, secret: string, title: string)
    | SeedRechecking(name: string)
    | Closed

  datatype Outcome =
    | Registered(name: string, row: ClientRow, created: bool)
    | Seeded(name: string, row: ClientRow)
    | Conflicted(name: string)

  datatype State = State(
    clients: map<string, ClientRow>, used: set<string>, threads: map<nat, Thread>, outcomes: seq<Outcome>)

  datatype Event =
    | Register(tid: nat, name: string, requested: seq<string>, scopes: seq<string>)
    | Seed(tid: nat, name: string, secret: string, title: string)
    | Advance(tid: nat, databaseFails: bool, secret: string)
    | Abort(tid: nat)
    | UpsertBuiltIn(name: string, row: ClientRow)

  /** `isSuperClientSecret`. */
  predicate IsSuperSecret(cfg: RegistrationSettings, secret: string) {
    cfg.superSecret != "" && secret != "" && secret == cfg.superSecret
  }

  function AllowlistOf(cfg: RegistrationSettings, name: string): seq<string> {
    if name in cfg.allowlist then cfg.allowlist[name] else []
  }

  function RegisteredRow(name: string, secret: string, scopes: seq<string>): ClientRow {
    ClientRow(secret, name, Confidential, ["client_credentials"], [], scopes, true, false, true)
  }

  function SeededRow(name: string, secret: string, title: string): ClientRow {
    ClientRow(secret, if title == "" then name else title, Confidential, ["client_credentials"], [], [],
              true, false, true)
  }

  function Put(s: State, tid: nat, t: Thread): State {
    s.(threads := s.threads[tid := t])
  }

  function Tell(s: State, tid: nat, o: Outcome): State {
    s.(threads := s.threads[tid := Closed], outcomes := s.outcomes + [o])
  }

  /** Answer with the row that is there, unless it carries the super secret. */
  function AnswerExisting(cfg: RegistrationSettings, s: State, tid: nat, name: string): State
    requires name in s.clients
  {
    if IsSuperSecret(cfg, s.clients[name].secret) then Tell(s, tid, Conflicted(name))
    else Tell(s, tid, Registered(name, s.clients[name], false))
  }

  function AdvanceThread(cfg: RegistrationSettings, s: State, tid: nat, t: Thread, databaseFails: bool, secret: string): State {
    match t
    case Looking(name, scopes) =>
      if databaseFails then Put(s, tid, Closed)
      else if name in s.clients then AnswerExisting(cfg, s, tid, name)
      else Put(s, tid, Missing(name, scopes))
    case Missing(name, scopes) =>
      if databaseFails || name in s.clients then Put(s, tid, Rechecking(name, scopes))
      else
        var row := RegisteredRow(name, secret, scopes);
        Tell(s.(clients := s.clients[name := row], used := s.used + {secret}), tid, Registered(name, row, true))
    case Rechecking(name, _) =>
      if !databaseFails && name in s.clients then AnswerExisting(cfg, s, tid, name) else Put(s, tid, Closed)
    case SeedLooking(name, seedSecret, title) =>
      if name == "" || seedSecret == "" || IsSuperSecret(cfg, seedSecret) || databaseFails || name in s.clients
      then Put(s, tid, Closed)
      else Put(s, tid, SeedMissing(name, seedSecret, title))
    case SeedMissing(name, seedSecret, title) =>
      if databaseFails || name in s.clients then Put(s, tid, SeedRechecking(name))
      else
        var row := SeededRow(name, seedSecret, title);
        Tell(s.(clients := s.clients[name := row]), tid, Seeded(name, row))
    case SeedRechecking(_) => Put(s, tid, Closed)
    case Closed => s
  }

  /** The generated secret was never seen before, so in particular it is not the super secret. */
  ghost function Apply(cfg: RegistrationSettings, s: State, e: Event): State {
    match e
    case Register(tid, name, requested, scopes) =>
      if tid !in s.threads && RegistrationGrant(AllowlistOf(cfg, name), requested, scopes)
      then Put(s, tid, Looking(name, scopes)) else s
    case Seed(tid, name, secret, title) =>
      if tid !in s.threads then Put(s, tid, SeedLooking(name, secret, title)) else s
    case Advance(tid, databaseFails, secret) =>
      if tid in s.threads && secret !in s.used
      then AdvanceThread(cfg, s, tid, s.threads[tid], databaseFails, secret) else s
    case Abort(tid) => if tid in s.threads then Put(s, tid, Closed) else s
    case UpsertBuiltIn(name, row) => if name in cfg.builtIn then s.(clients := s.clients[name := row]) else s
  }

  ghost function Run(cfg: RegistrationSettings, s: State, events: seq<Event>): State
    decreases |events|
  {
    if events == [] then s else Run(cfg, Apply(cfg, s, events[0]), events[1..])
  }

  /** Any client table, legacy rows included; nobody has asked yet. */
  ghost predicate Initial(cfg: RegistrationSettings, s: State) {
    s.threads == map[] && s.outcomes == [] && cfg.superSecret in s.used
  }

  predicate IsCreation(o: Outcome) {
    o.Seeded? || (o.Registered? && o.created)
  }

  predicate IsNewRow(cfg: RegistrationSettings, o: Outcome) {
    IsCreation(o) && o.name !in cfg.builtIn
  }

  /** A row as the registration path makes it. */
  ghost predicate OrdinaryRow(cfg: RegistrationSettings, name: string, row: ClientRow) {
    && row.kind == Confidential && !row.isSuper && row.grantTypes == ["client_credentials"]
    && Within(row.scopes, ServiceSiteScopes()) && Within(row.scopes, AllowlistOf(cfg, name))
  }

  ghost predicate ThreadOk(cfg: RegistrationSettings, t: Thread) {
    && (t.Looking? || t.Missing? || t.Rechecking? ==>
      Within(t.scopes, ServiceSiteScopes()) && Within(t.scopes, AllowlistOf(cfg, t.name)))
    && (t.SeedMissing? ==> !IsSuperSecret(cfg, t.secret))
  }

  ghost predicate OutcomeOk(cfg: RegistrationSettings, s0: State, s: State, o: Outcome) {
    o.name !in cfg.builtIn && !o.Conflicted? ==>
      && o.name in s.clients && s.clients[o.name] == o.row && !IsSuperSecret(cfg, o.row.secret)
      && (IsCreation(o) ==> OrdinaryRow(cfg, o.name, o.row) && o.name !in s0.clients)
  }

  ghost predicate Inv(cfg: RegistrationSettings, s0: State, s: State) {
    && cfg.superSecret in s.used
    && (forall n :: n in s0.clients && n !in cfg.builtIn ==> n in s.clients && s.clients[n] == s0.clients[n])
    && (forall tid :: tid in s.threads ==> ThreadOk(cfg, s.threads[tid]))
    && (forall i :: 0 <= i < |s.outcomes| ==> OutcomeOk(cfg, s0, s, s.outcomes[i]))
    && (forall i, j :: 0 <= i < j < |s.outcomes| && IsNewRow(cfg, s.outcomes[i]) && IsNewRow(cfg, s.outcomes[j]) ==>
      s.outcomes[i].name != s.outcomes[j].name)
  }

  /** Telling a caller about a row that is now in the table. */
  lemma InvTell(cfg: RegistrationSettings, s0: State, s: State, s': State, o: Outcome)
    requires Inv(cfg, s0, s)
    requires cfg.superSecret in s'.used && s'.outcomes == s.outcomes + [o]
    requires forall n :: n in s.clients ==> n in s'.clients && s'.clients[n] == s.clients[n]
    requires forall tid :: tid in s'.threads ==> ThreadOk(cfg, s'.threads[tid])
    requires OutcomeOk(cfg, s0, s', o)
    requires IsCreation(o) ==> o.name !in s.clients
    ensures Inv(cfg, s0, s')
  {
    forall i | 0 <= i < |s'.outcomes| ensures OutcomeOk(cfg, s0, s', s'.outcomes[i]) {
      if i < |s.outcomes| {
        assert OutcomeOk(cfg, s0, s, s.outcomes[i]);
      }
    }
    forall i, j | 0 <= i < j < |s'.outcomes| && IsNewRow(cfg, s'.outcomes[i]) && IsNewRow(cfg, s'.outcomes[j])
      ensures s'.outcomes[i].name != s'.outcomes[j].name
    {
      if j == |s.outcomes| {
        assert OutcomeOk(cfg, s0, s, s.outcomes[i]);
      }
    }
  }

  /** A step that tells nobody anything and leaves the table alone. */
  lemma InvPut(cfg: RegistrationSettings, s0: State, s: State, tid: nat, t: Thread)
    requires Inv(cfg, s0, s) && ThreadOk(cfg, t)
    ensures Inv(cfg, s0, Put(s, tid, t))
  {
    forall i | 0 <= i < |s.outcomes| ensures OutcomeOk(cfg, s0, Put(s, tid, t), s.outcomes[i]) {
      assert OutcomeOk(cfg, s0, s, s.outcomes[i]);
    }
  }

  lemma InvAnswer(cfg: RegistrationSettings, s0: State, s: State, tid: nat, name: string)
    requires Inv(cfg, s0, s) && name in s.clients
    ensures Inv(cfg, s0, AnswerExisting(cfg, s, tid, name))
  {
    var s' := AnswerExisting(cfg, s, tid, name);
    InvTell(cfg, s0, s, s', s'.outcomes[|s.outcomes|]);
  }

  lemma InvCreate(cfg: RegistrationSettings, s0: State, s: State, tid: nat, secret: string)
    requires Inv(cfg, s0, s) && tid in s.threads && secret !in s.used
    requires (s.threads[tid].Missing? || s.threads[tid].SeedMissing?) && s.threads[tid].name !in s.clients
    ensures Inv(cfg, s0, AdvanceThread(cfg, s, tid, s.threads[tid], false, secret))
  {
    var s' := AdvanceThread(cfg, s, tid, s.threads[tid], false, secret);
    assert ThreadOk(cfg, s.threads[tid]);
    InvTell(cfg, s0, s, s', s'.outcomes[|s.outcomes|]);
  }

  lemma InvAdvance(cfg: RegistrationSettings, s0: State, s: State, tid: nat, databaseFails: bool, secret: string)
    requires Inv(cfg, s0, s) && tid in s.threads && secret !in s.used
    ensures Inv(cfg, s0, AdvanceThread(cfg, s, tid, s.threads[tid], databaseFails, secret))
  {
    var t := s.threads[tid];
    assert ThreadOk(cfg, t);
    if (t.Looking? || t.Rechecking?) && !databaseFails && t.name in s.clients {
      InvAnswer(cfg, s0, s, tid, t.name);
    } else if (t.Missing? || t.SeedMissing?) && !databaseFails && t.name !in s.clients {
      InvCreate(cfg, s0, s, tid, secret);
    } else if !t.Closed? {
      InvPut(cfg, s0, s, tid, AdvanceThread(cfg, s, tid, t, databaseFails, secret).threads[tid]);
    }
  }

  lemma InvStep(cfg: RegistrationSettings, s0: State, s: State, e: Event)
    requires Inv(cfg, s0, s)
    ensures Inv(cfg, s0, Apply(cfg, s, e))
  {
    var s' := Apply(cfg, s, e);
    if e.Advance? {
      if e.tid in s.threads && e.secret !in s.used {
        InvAdvance(cfg, s0, s, e.tid, e.databaseFails, e.secret);
      }
    } else {
      forall i | 0 <= i < |s.outcomes| ensures OutcomeOk(cfg, s0, s', s.outcomes[i]) {
        assert OutcomeOk(cfg, s0, s, s.outcomes[i]);
      }
    }
  }

  lemma {:induction false} RunInv(cfg: RegistrationSettings, s0: State, s: State, events: seq<Event>)
    requires Inv(cfg, s0, s)
    ensures Inv(cfg, s0, Run(cfg, s, events))
    decreases |events|
  {
    if events != [] {
      InvStep(cfg, s0, s, events[0]);
      RunInv(cfg, s0, Apply(cfg, s, events[0]), events[1..]);
    }
  }

  /**
   * For a name that is not built in, whatever the interleaving: the row is
   * inserted at most once and not at all if it was there before; everyone who
   * is answered gets that one row; at most one caller is told it was created,
   * and none if it was seeded; and nobody is handed the super secret.
   */
  lemma OneRowPerService(cfg: RegistrationSettings, s0: State, events: seq<Event>, i: nat, j: nat)
    requires Initial(cfg, s0)
    requires var o := Run(cfg, s0, events).outcomes;
      i < |o| && j < |o| && !o[i].Conflicted? && !o[j].Conflicted? && o[i].name == o[j].name && o[i].name !in cfg.builtIn
    ensures var s := Run(cfg, s0, events);
      var o := s.outcomes;
      && o[i].row == o[j].row && o[i].name in s.clients && s.clients[o[i].name] == o[i].row
      && !IsSuperSecret(cfg, o[i].row.secret)
      && (IsCreation(o[i]) && IsCreation(o[j]) ==> i == j)
      && (IsCreation(o[i]) ==> o[i].name !in s0.clients && OrdinaryRow(cfg, o[i].name, o[i].row))
  {
    RunInv(cfg, s0, s0, events);
    var s := Run(cfg, s0, events);
    assert OutcomeOk(cfg, s0, s, s.outcomes[i]) && OutcomeOk(cfg, s0, s, s.outcomes[j]);
  }

  /** A row once present is never changed or removed, not even a drifted or poisoned one. */
  lemma RowsNeverChange(cfg: RegistrationSettings, s0: State, before: seq<Event>, after: seq<Event>, name: string)
    requires Initial(cfg, s0) && name !in cfg.builtIn && name in Run(cfg, s0, before).clients
    ensures var s := Run(cfg, s0, before);
      name in Run(cfg, s, after).clients && Run(cfg, s, after).clients[name] == s.clients[name]
  {
    RunInv(cfg, s0, s0, before);
    RowKept(cfg, Run(cfg, s0, before), after, name);
  }

  lemma {:induction false} RowKept(cfg: RegistrationSettings, s: State, events: seq<Event>, name: string)
    requires name in s.clients && name !in cfg.builtIn
    ensures name in Run(cfg, s, events).clients && Run(cfg, s, events).clients[name] == s.clients[name]
    decreases |events|
  {
    if events != [] {
      var s' := Apply(cfg, s, events[0]);
      assert name in s'.clients && s'.clients[name] == s.clients[name];
      RowKept(cfg, s', events[1..], name);
    }
  }

  predicate AddsRow(a: map<string, ClientRow>, b: map<string, ClientRow>, n: string) {
    n !in a && n in b && b == a[n := b[n]]
  }

  /** Seen from the token protocol, registration and seeding only ever add a client row. */
  lemma OnlyAddsClients(cfg: RegistrationSettings, s: State, e: Event)
    requires !e.UpsertBuiltIn?
    ensures var s' := Apply(cfg, s, e);
      s'.clients == s.clients || exists n :: AddsRow(s.clients, s'.clients, n)
  {
    if e.Advance? && e.tid in s.threads && e.secret !in s.used && Apply(cfg, s, e).clients != s.clients {
      var t := s.threads[e.tid];
      assert t.Missing? || t.SeedMissing?;
      assert AddsRow(s.clients, Apply(cfg, s, e).clients, t.name);
    }
  }
}
