/** The client table as registration and seeding update it, one handler at a time. */
module ClientStore {
  import opened Wrappers
  import opened Strings
  import opened OAuthTables
  import opened OAuthScopes
  import Registration

  datatype SeedEntry = SeedEntry(clientId: string, clientSecret: string, name: string)

  datatype Offer = Skipped | Offered(clientId: string, row: ClientRow)

  /** What one config entry asks for; blank entries and the super secret ask for nothing. */
  function OfferOf(cfg: Registration.RegistrationSettings, e: SeedEntry): Offer {
    var clientId, clientSecret := TrimSpace(e.clientId), TrimSpace(e.clientSecret);
    if clientId == "" || clientSecret == "" || Registration.IsSuperSecret(cfg, clientSecret) then Skipped
    else Offered(clientId, Registration.SeededRow(clientId, clientSecret, TrimSpace(e.name)))
  }

  ghost function Offers(cfg: Registration.RegistrationSettings, entries: seq<SeedEntry>): seq<Offer> {
    seq(|entries|, i requires 0 <= i < |entries| => OfferOf(cfg, entries[i]))
  }

  predicate Names(o: Offer, clientId: string) {
    o.Offered? && o.clientId == clientId
  }

  /** Offer `i` seeds this client: it is the first one naming it. */
  ghost predicate IsSeedFor(offers: seq<Offer>, i: nat, clientId: string) {
    i < |offers| && Names(offers[i], clientId) && forall j :: 0 <= j < i ==> !Names(offers[j], clientId)
  }

  ghost predicate IsNamed(offers: seq<Offer>, clientId: string) {
    exists i :: 0 <= i < |offers| && Names(offers[i], clientId)
  }

  /** Existing rows stay; every name on offer gets a row, from the first offer that names it. */
  ghost predicate SeededFrom(offers: seq<Offer>, a: map<string, ClientRow>, b: map<string, ClientRow>) {
    && (forall n :: n in a ==> n in b && b[n] == a[n])
    && (forall n :: n in b <==> n in a || IsNamed(offers, n))
    && (forall i: nat, n :: n !in a && IsSeedFor(offers, i, n) ==> n in b && b[n] == offers[i].row)
  }

  lemma FirstSeed(offers: seq<Offer>, n: string) returns (i: nat)
    requires IsNamed(offers, n)
    ensures IsSeedFor(offers, i, n)
  {
    i := 0;
    while !Names(offers[i], n)
      invariant i < |offers| && forall j :: 0 <= j < i ==> !Names(offers[j], n)
      invariant exists k :: i <= k < |offers| && Names(offers[k], n)
      decreases |offers| - i
    {
      i := i + 1;
    }
  }

  /** The contract fixes the outcome: two seedings of one table agree on every row. */
  lemma SeedingIsDeterministic(
    offers: seq<Offer>, a: map<string, ClientRow>, b: map<string, ClientRow>, c: map<string, ClientRow>)
    requires SeededFrom(offers, a, b) && SeededFrom(offers, a, c)
    ensures b == c
  {
    forall n | n in b ensures n in c && b[n] == c[n] {
      if n !in a {
        var i := FirstSeed(offers, n);
      }
    }
    assert forall n :: n in c ==> n in b;
  }

  /** Seeding is idempotent: from its own result it adds and changes nothing. */
  lemma SeedingTwiceIsSeedingOnce(
    offers: seq<Offer>, a: map<string, ClientRow>, b: map<string, ClientRow>, c: map<string, ClientRow>)
    requires SeededFrom(offers, a, b) && SeededFrom(offers, b, c)
    ensures c == b
  {
    assert forall n :: n in c ==> n in b;
  }

  lemma SeededOneMore(
    offers: seq<Offer>, k: nat, a: map<string, ClientRow>, b: map<string, ClientRow>, c: map<string, ClientRow>)
    requires k < |offers| && SeededFrom(offers[..k], a, b)
    requires var o := offers[k];
      c == if o.Offered? && o.clientId !in b then b[o.clientId := o.row] else b
    ensures SeededFrom(offers[..k + 1], a, c)
  {
    var all, some, o := offers[..k + 1], offers[..k], offers[k];
    assert all == some + [o];
    forall n | true ensures IsNamed(all, n) <==> IsNamed(some, n) || Names(o, n) {
      assert all[k] == o;
      if IsNamed(some, n) {
        var i :| 0 <= i < k && Names(some[i], n);
        assert all[i] == some[i];
      }
    }
    forall i: nat, n | n !in a && IsSeedFor(all, i, n) ensures n in c && c[n] == all[i].row {
      assert forall j :: 0 <= j < k ==> all[j] == some[j];
      if i < k {
        assert IsSeedFor(some, i, n);
      } else {
        assert !IsNamed(some, n);
      }
    }
  }

  class ClientTable {
    const cfg: Registration.RegistrationSettings
    var clients: map<string, ClientRow>

    constructor (cfg: Registration.RegistrationSettings, clients: map<string, ClientRow>)
      ensures this.cfg == cfg && this.clients == clients
    {
      this.cfg, this.clients := cfg, clients;
    }

    /** `ensureConfiguredServiceClients`. */
    method EnsureConfiguredServiceClients(entries: seq<SeedEntry>)
      modifies this`clients
      ensures SeededFrom(Offers(cfg, entries), old(clients), clients)
    {
      ghost var offers := Offers(cfg, entries);
      for i := 0 to |entries|
        invariant SeededFrom(offers[..i], old(clients), clients)
      {
        ghost var before := clients;
        ghost var o := SeedOne(entries[i]);
        assert o == offers[i];
        SeededOneMore(offers, i, old(clients), before, clients);
      }
      assert offers[..|entries|] == offers;
    }

    /** One turn of the seeding loop. */
    method SeedOne(entry: SeedEntry) returns (ghost o: Offer)
      modifies this`clients
      ensures o == OfferOf(cfg, entry)
      ensures clients == if o.Offered? && o.clientId !in old(clients)
                         then old(clients)[o.clientId := o.row] else old(clients)
    {
      o := OfferOf(cfg, entry);
      var clientId := TrimSpace(entry.clientId);
      var clientSecret := TrimSpace(entry.clientSecret);
      if clientId == "" || clientSecret == "" {
        return;
      }
      if Registration.IsSuperSecret(cfg, clientSecret) {
        return;
      }
      if clientId in clients {
        return;
      }
      var name := TrimSpace(entry.name);
      if name == "" {
        name := clientId;
      }
      clients := clients[clientId :=
        ClientRow(clientSecret, name, Confidential, ["client_credentials"], [], [], true, false, true)];
    }

    /** What another caller, or the database, does while the handler runs. */
    method Interfere(serviceName: string, raced: Option<ClientRow>)
      modifies this`clients
      ensures clients == WithRaced(old(clients), serviceName, raced)
    {
      if raced.Some? && serviceName !in clients {
        clients := clients[serviceName := raced.value];
      }
    }

    /**
     * `RegisterServiceClient`.  Between the lookup and the create another
     * caller may insert the row (`raced`), and each of the three statements may
     * fail in the database.  An existing row, found first or raced in, is
     * returned as it is unless it carries the super secret; a row is created
     * only when there is none, and then it is the answer.
     */
    method RegisterServiceClient(
      serviceName: string, scopes: seq<string>, secret: string, raced: Option<ClientRow>,
      lookupFails: bool, createFails: bool, recheckFails: bool)
      returns (r: Result<(ClientRow, bool), OAuthError>)
      modifies this`clients
      ensures lookupFails ==> r == Err(DatabaseError) && clients == old(clients)
      ensures !lookupFails && serviceName in old(clients) ==>
        clients == old(clients) && r == Existing(cfg, old(clients)[serviceName])
      ensures !lookupFails && serviceName !in old(clients) && raced.Some? ==>
        && clients == old(clients)[serviceName := raced.value]
        && r == if recheckFails then Err(DatabaseError) else Existing(cfg, raced.value)
      ensures !lookupFails && serviceName !in old(clients) && raced.None? && createFails ==>
        clients == old(clients) && r == Err(DatabaseError)
      ensures !lookupFails && serviceName !in old(clients) && raced.None? && !createFails ==>
        && clients == old(clients)[serviceName := Registration.RegisteredRow(serviceName, secret, scopes)]
        && r == Ok((clients[serviceName], true))
      ensures r.Ok? ==> serviceName in clients && clients[serviceName] == r.value.0
      ensures forall n :: n in old(clients) ==> n in clients && clients[n] == old(clients)[n]
    {
      if lookupFails {
        return Err(DatabaseError);
      }
      if serviceName in clients {
        var existing := clients[serviceName];
        if Registration.IsSuperSecret(cfg, existing.secret) {
          return Err(RegistrationConflict);
        }
        return Ok((existing, false));
      }
      var row := ClientRow(secret, serviceName, Confidential, ["client_credentials"], [], scopes, true, false, true);
      Interfere(serviceName, raced);
      if serviceName in clients || createFails {
        if !recheckFails && serviceName in clients {
          if Registration.IsSuperSecret(cfg, clients[serviceName].secret) {
            return Err(RegistrationConflict);
          }
          return Ok((clients[serviceName], false));
        }
        return Err(DatabaseError);
      }
      clients := clients[serviceName := row];
      return Ok((row, true));
    }
  }

  function WithRaced(clients: map<string, ClientRow>, name: string, raced: Option<ClientRow>): map<string, ClientRow> {
    if raced.Some? && name !in clients then clients[name := raced.value] else clients
  }

  /** The answer for a row that is already there. */
  function Existing(cfg: Registration.RegistrationSettings, row: ClientRow): Result<(ClientRow, bool), OAuthError> {
    if Registration.IsSuperSecret(cfg, row.secret) then Err(RegistrationConflict) else Ok((row, false))
  }
}
