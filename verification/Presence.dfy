/** The presence registry of `registry/presence.go`, against a registry that evicts at once. */
module Presence {
  import opened Wrappers

  /** Metadata is stored and handed back unread, so its values are opaque. */
  type Metadata = map<string, string>

  datatype Scope = Scope(name: string, frontendAreas: seq<string>)

  /** Instants count nanoseconds from Go's zero time, so 0 is the instant that means "never". */
  datatype Record = Record(
    name: string,
    scope: Option<Scope>,
    securityLevel: int,
    rootMetadata: Metadata,
    interactsWith: seq<string>,
    internalKey: string,
    firstSeen: int,
    lastSeen: int,
    expiresAt: int)

  type Records = map<string, Record>

  predicate Expired(r: Record, now: int) {
    r.expiresAt != 0 && now > r.expiresAt
  }

  /** A signed 64-bit product of a number of seconds and `time.Second`, as Go wraps it. */
  function Offset(ttlSeconds: int): int {
    (ttlSeconds * 1_000_000_000 + 0x8000_0000_0000_0000) % 0x1_0000_0000_0000_0000 - 0x8000_0000_0000_0000
  }

  /** The lifetime is the one asked for exactly up to 292 years; the next 292 wrap into the past. */
  lemma OffsetIsExact(ttlSeconds: int)
    requires 0 < ttlSeconds < 0x8000_0000_0000_0000
    ensures Offset(ttlSeconds) == ttlSeconds * 1_000_000_000 <==> ttlSeconds <= 9_223_372_036
    ensures 9_223_372_036 < ttlSeconds <= 18_446_744_073 ==> Offset(ttlSeconds) < 0
  {
    var x := ttlSeconds * 1_000_000_000 + 0x8000_0000_0000_0000;
    if ttlSeconds <= 9_223_372_036 {
      assert 0 <= x < 0x1_0000_0000_0000_0000;
    } else if ttlSeconds <= 18_446_744_073 {
      assert x % 0x1_0000_0000_0000_0000 == x - 0x1_0000_0000_0000_0000;
    }
  }

  datatype Request = Request(
    ttlSeconds: int, scope: Option<Scope>, securityLevel: int, interactsWith: seq<string>, rootMetadata: Metadata)

  /** The record a registration leaves; a record already there lends its scope, key and first sighting. */
  function Registered(held: Option<Record>, name: string, q: Request, now: int): (r: Record)
    ensures r.lastSeen == now && r.securityLevel == q.securityLevel
    ensures held.None? ==> r.firstSeen == now && r.internalKey == "" && r.scope == q.scope
  {
    var base := if held.Some? then held.value else Record(name, None, 0, map[], [], "", now, 0, 0);
    base.(
      lastSeen := now,
      scope := if q.scope.Some? then q.scope else base.scope,
      securityLevel := q.securityLevel,
      interactsWith := q.interactsWith,
      rootMetadata := q.rootMetadata,
      expiresAt := if q.ttlSeconds > 0 then now + Offset(q.ttlSeconds) else 0)
  }

  function Lookup(m: Records, name: string): Option<Record> {
    if name in m then Some(m[name]) else None
  }

  class PresenceRegistry {
    var records: Records

    constructor ()
      ensures records == map[]
    {
      records := map[];
    }

    /** `now` is read before the lock is taken, so it may lag behind the clock. */
    method Register(name: string, q: Request, now: int) returns (record: Record)
      modifies this
      ensures Step(old(records), now, Op.Register(name, q, now)) == (records, Seen(Some(ViewOf(record))))
      ensures record == Registered(Lookup(old(records), name), name, q, now)
      ensures records == old(records)[name := record]
    {
      if name in records {
        record := records[name];
      } else {
        record := Record(name, None, 0, map[], [], "", now, 0, 0);
      }
      record := record.(lastSeen := now);
      if q.scope.Some? {
        record := record.(scope := q.scope);
      }
      record := record.(securityLevel := q.securityLevel);
      record := record.(interactsWith := q.interactsWith);
      record := record.(rootMetadata := q.rootMetadata);
      if q.ttlSeconds > 0 {
        record := record.(expiresAt := now + Offset(q.ttlSeconds));
      } else {
        record := record.(expiresAt := 0);
      }
      records := records[name := record];
    }

    /** The fresh key is a parameter; the record's expiry is not looked at. */
    method RegisterAuthKey(name: string, key: string, at: int) returns (issued: Option<string>)
      modifies this
      ensures Step(old(records), at, Op.RegisterAuthKey(name, key)) == (records, Issued(issued))
      ensures issued.Some? <==> name in old(records)
      ensures issued.Some? ==>
        && issued.value == key
        && records == old(records)[name := old(records)[name].(internalKey := key)]
      ensures issued.None? ==> records == old(records)
    {
      if name !in records {
        return None;
      }
      records := records[name := records[name].(internalKey := key)];
      issued := Some(key);
    }

    method RevokeAuthKey(name: string, at: int)
      modifies this
      ensures Step(old(records), at, Op.RevokeAuthKey(name)) == (records, Nothing)
      ensures records.Keys == old(records).Keys
      ensures forall n :: n in records ==>
        records[n] == if n == name then old(records)[n].(internalKey := "") else old(records)[n]
    {
      if name !in records {
        return;
      }
      records := records[name := records[name].(internalKey := "")];
    }

    /** Deletes the record when it finds it expired. */
    method Get(name: string, now: int) returns (found: Option<Record>)
      modifies this
      ensures Step(old(records), now, Op.Get(name)) == (records, Seen(ViewOfOption(found)))
      ensures found == if name in old(records) && !Expired(old(records)[name], now) then Some(old(records)[name]) else None
      ensures records == if found.Some? then old(records) else old(records) - {name}
    {
      if name !in records {
        assert records == records - {name};
        return None;
      }
      var record := records[name];
      if record.expiresAt != 0 && now > record.expiresAt {
        records := records - {name};
        return None;
      }
      found := Some(record);
    }

    /** Lists every record, whether or not it has expired, in the map's arbitrary order. */
    method GetAllRecords() returns (all: seq<Record>)
      ensures |all| == |records|
      ensures forall n :: n in records ==> records[n] in all
      ensures forall r :: r in all ==> exists n :: n in records && records[n] == r
    {
      all := [];
      var left := records.Keys;
      while left != {}
        invariant left <= records.Keys
        invariant |all| + |left| == |records.Keys|
        invariant forall n :: n in records && n !in left ==> records[n] in all
        invariant forall r :: r in all ==> exists n :: n in records && records[n] == r
      {
        var n :| n in left;
        left := left - {n};
        all := all + [records[n]];
      }
    }
  }

  // One step of the registry as a function, on any record map.

  /** What a reader is promised of a record. */
  datatype View = View(
    securityLevel: int, interactsWith: seq<string>, rootMetadata: Metadata, lastSeen: int, expiresAt: int)

  function ViewOf(r: Record): View {
    View(r.securityLevel, r.interactsWith, r.rootMetadata, r.lastSeen, r.expiresAt)
  }

  function ViewOfOption(r: Option<Record>): Option<View> {
    if r.Some? then Some(ViewOf(r.value)) else None
  }

  datatype Op =
    | Register(name: string, q: Request, sampled: int)
    | RegisterAuthKey(name: string, key: string)
    | RevokeAuthKey(name: string)
    | Get(name: string)
    | GetAllRecords

  datatype Output = Nothing | Issued(key: Option<string>) | Seen(view: Option<View>) | Listed(views: map<string, View>)

  function Step(m: Records, at: int, op: Op): (Records, Output) {
    match op
    case Register(n, q, sampled) =>
      var r := Registered(Lookup(m, n), n, q, sampled);
      (m[n := r], Seen(Some(ViewOf(r))))
    case RegisterAuthKey(n, key) =>
      if n in m then (m[n := m[n].(internalKey := key)], Issued(Some(key))) else (m, Issued(None))
    case RevokeAuthKey(n) =>
      (if n in m then m[n := m[n].(internalKey := "")] else m, Nothing)
    case Get(n) =>
      if n in m && !Expired(m[n], at) then (m, Seen(Some(ViewOf(m[n])))) else (m - {n}, Seen(None))
    case GetAllRecords => (m, Listed(map n | n in m :: ViewOf(m[n])))
  }

  /** What the registry would hold had every record left the moment it expired. */
  function Evicted(m: Records, now: int): Records {
    map n | n in m && !Expired(m[n], now) :: m[n]
  }

  /** Everything about a record map that counts at an instant. */
  function Views(m: Records, now: int): map<string, View> {
    map n | n in m && !Expired(m[n], now) :: ViewOf(m[n])
  }

  datatype Event = Event(at: int, op: Op)

  function Lazy(m: Records, events: seq<Event>): Records {
    if events == [] then m
    else
      var e := events[|events| - 1];
      Step(Lazy(m, events[..|events| - 1]), e.at, e.op).0
  }

  function Eager(m: Records, events: seq<Event>): Records {
    if events == [] then m
    else
      var e := events[|events| - 1];
      Step(Evicted(Eager(m, events[..|events| - 1]), e.at), e.at, e.op).0
  }

  /** Time does not run backwards. */
  predicate InOrder(events: seq<Event>) {
    forall i, j :: 0 <= i <= j < |events| ==> events[i].at <= events[j].at
  }

  /** There is a record, it has expired, and nothing has removed it yet. */
  predicate Stale(m: Records, name: string, now: int) {
    name in m && Expired(m[name], now)
  }

  lemma ViewsOfEvicted(m: Records, now: int)
    ensures Views(Evicted(m, now), now) == Views(m, now)
  {
  }

  /** Equal views stay equal as time passes. */
  lemma ViewsLater(a: Records, b: Records, t: int, now: int)
    requires t <= now && Views(a, t) == Views(b, t)
    ensures Views(a, now) == Views(b, now)
  {
    forall n | n in Views(a, now) ensures n in Views(b, now) && Views(a, now)[n] == Views(b, now)[n] {
      assert n in Views(a, t);
      assert Views(b, t)[n] == Views(a, t)[n];
    }
    forall n | n in Views(b, now) ensures n in Views(a, now) {
      assert n in Views(b, t);
      assert Views(b, t)[n] == Views(a, t)[n];
    }
  }

  /** The view of one record, if it counts. */
  function ViewAt(m: Records, name: string, now: int): Option<View> {
    if name in m && !Expired(m[name], now) then Some(ViewOf(m[name])) else None
  }

  lemma ViewsPointwise(a: Records, b: Records, now: int)
    ensures Views(a, now) == Views(b, now) <==> forall n :: ViewAt(a, n, now) == ViewAt(b, n, now)
  {
    var x, y := Views(a, now), Views(b, now);
    if x == y {
      forall n ensures ViewAt(a, n, now) == ViewAt(b, n, now) {
        assert n in x <==> n in y;
        if n in x {
          assert x[n] == y[n];
        }
      }
    }
    if forall n :: ViewAt(a, n, now) == ViewAt(b, n, now) {
      forall n ensures n in x <==> n in y {
        assert ViewAt(a, n, now) == ViewAt(b, n, now);
      }
      forall n | n in x ensures x[n] == y[n] {
        assert ViewAt(a, n, now) == ViewAt(b, n, now);
      }
    }
  }

  /** What is seen of a record after a step depends only on what was seen of it before. */
  lemma StepKeepsViewAt(a: Records, b: Records, at: int, op: Op, n: string)
    requires ViewAt(a, n, at) == ViewAt(b, n, at)
    ensures ViewAt(Step(a, at, op).0, n, at) == ViewAt(Step(b, at, op).0, n, at)
  {
  }

  lemma StepKeepsViews(a: Records, b: Records, at: int, op: Op)
    requires Views(a, at) == Views(b, at)
    ensures Views(Step(a, at, op).0, at) == Views(Step(b, at, op).0, at)
  {
    ViewsPointwise(a, b, at);
    var a', b' := Step(a, at, op).0, Step(b, at, op).0;
    forall n ensures ViewAt(a', n, at) == ViewAt(b', n, at) {
      StepKeepsViewAt(a, b, at, op, n);
    }
    ViewsPointwise(a', b', at);
  }

  /** After the same events the two registries show the same at every later instant. */
  lemma {:induction false} SameViews(m: Records, events: seq<Event>, now: int)
    requires InOrder(events)
    requires events != [] ==> events[|events| - 1].at <= now
    ensures Views(Lazy(m, events), now) == Views(Eager(m, events), now)
  {
    if events != [] {
      var before, e := events[..|events| - 1], events[|events| - 1];
      SameViews(m, before, e.at);
      var lazy, eager := Lazy(m, before), Eager(m, before);
      ViewsOfEvicted(eager, e.at);
      StepKeepsViews(lazy, Evicted(eager, e.at), e.at, e.op);
      ViewsLater(Lazy(m, events), Eager(m, events), e.at, now);
    }
  }

  /** What the lazy registry answers. */
  function LazyAnswer(m: Records, events: seq<Event>, e: Event): Output {
    Step(Lazy(m, events), e.at, e.op).1
  }

  /** What a registry that evicts at once answers. */
  function EagerAnswer(m: Records, events: seq<Event>, e: Event): Output {
    Step(Evicted(Eager(m, events), e.at), e.at, e.op).1
  }

  /**
   * Lazy expiry refines eager expiry: after any events, from any loaded records, registrations,
   * revocations and reads are answered alike. Issuing a key is answered alike exactly when the
   * record is not stale, and listing exactly when no record is.
   */
  lemma LazyRefinesEager(m: Records, events: seq<Event>, e: Event)
    requires InOrder(events + [e])
    ensures
      var same := LazyAnswer(m, events, e) == EagerAnswer(m, events, e);
      match e.op
      case RegisterAuthKey(name, _) => same <==> !Stale(Lazy(m, events), name, e.at)
      case GetAllRecords => same <==> forall n :: !Stale(Lazy(m, events), n, e.at)
      case _ => same
  {
    var all := events + [e];
    assert forall i :: 0 <= i < |events| ==> all[i] == events[i];
    assert all[|events|] == e;
    SameViews(m, events, e.at);
    var lazy, eager := Lazy(m, events), Evicted(Eager(m, events), e.at);
    ViewsOfEvicted(Eager(m, events), e.at);
    SameAnswer(lazy, eager, e);
  }

  lemma SameAnswer(lazy: Records, eager: Records, e: Event)
    requires Views(lazy, e.at) == Views(eager, e.at)
    requires forall n :: !Stale(eager, n, e.at)
    ensures
      var same := Step(lazy, e.at, e.op).1 == Step(eager, e.at, e.op).1;
      match e.op
      case RegisterAuthKey(name, _) => same <==> !Stale(lazy, name, e.at)
      case GetAllRecords => same <==> forall n :: !Stale(lazy, n, e.at)
      case _ => same
  {
    SameLive(lazy, eager, e.at);
    match e.op
    case GetAllRecords =>
      var a, b := map n | n in lazy :: ViewOf(lazy[n]), map n | n in eager :: ViewOf(eager[n]);
      if n :| Stale(lazy, n, e.at) {
        assert n in a && n !in b by {
          assert !Stale(eager, n, e.at);
        }
      } else {
        assert a == b by {
          forall n ensures n in a <==> n in b {
            assert !Stale(lazy, n, e.at) && !Stale(eager, n, e.at);
          }
          forall n | n in a ensures a[n] == b[n] {
            assert !Stale(lazy, n, e.at);
          }
        }
      }
    case RegisterAuthKey(name, _) =>
      assert !Stale(eager, name, e.at);
    case _ =>
  }

  lemma SameLive(a: Records, b: Records, at: int)
    requires Views(a, at) == Views(b, at)
    ensures forall n :: (n in a && !Expired(a[n], at)) <==> (n in b && !Expired(b[n], at))
    ensures forall n :: n in a && !Expired(a[n], at) ==> n in b && ViewOf(a[n]) == ViewOf(b[n])
  {
    forall n ensures (n in a && !Expired(a[n], at)) <==> (n in b && !Expired(b[n], at)) {
      assert n in Views(a, at) <==> n in Views(b, at);
    }
    forall n | n in a && !Expired(a[n], at) ensures n in b && ViewOf(a[n]) == ViewOf(b[n]) {
      assert n in Views(a, at);
      assert Views(a, at)[n] == Views(b, at)[n];
    }
  }

  /** A stale record does reach `RegisterAuthKey`: it hands a key to a service that reads as absent. */
  lemma KeyForAnAbsentService()
    ensures
      var q := Request(1, None, 0, [], map[]);
      var events := [Event(5, Register("svc", q, 5))];
      var late := 2_000_000_000;
      && LazyAnswer(map[], events, Event(late, RegisterAuthKey("svc", "k"))) == Issued(Some("k"))
      && LazyAnswer(map[], events, Event(late, Get("svc"))) == Seen(None)
      && EagerAnswer(map[], events, Event(late, RegisterAuthKey("svc", "k"))) == Issued(None)
  {
    var q := Request(1, None, 0, [], map[]);
    var e := Event(5, Register("svc", q, 5));
    var r := Registered(None, "svc", q, 5);
    assert [e][..0] == [];
    assert Lazy(map[], [e]) == map["svc" := r] == Eager(map[], [e]);
    assert r.expiresAt == 1_000_000_005;
  }

  /** Every record is filed under its own name. */
  predicate KeyedByName(m: Records) {
    forall n :: n in m ==> m[n].name == n
  }

  lemma {:induction false} StaysKeyedByName(m: Records, events: seq<Event>)
    requires KeyedByName(m)
    ensures KeyedByName(Lazy(m, events))
  {
    if events != [] {
      StaysKeyedByName(m, events[..|events| - 1]);
    }
  }

  /**
   * All a stale record lends to a registration is what it is filed with: its
   * name, first sighting, key and scope.  The name is the one registered when
   * the loaded records are filed under their own names.
   */
  lemma StaleRecordLends(m: Records, events: seq<Event>, name: string, q: Request, sampled: int, now: int)
    requires Stale(Lazy(m, events), name, now)
    ensures
      var before := Lazy(m, events);
      var lazy := Step(before, now, Register(name, q, sampled)).0[name];
      var eager := Step(Evicted(before, now), now, Register(name, q, sampled)).0[name];
      && lazy == eager.(
        name := before[name].name,
        firstSeen := before[name].firstSeen,
        internalKey := before[name].internalKey,
        scope := if q.scope.Some? then q.scope else before[name].scope)
      && (KeyedByName(m) ==> lazy.name == eager.name == name)
  {
    if KeyedByName(m) {
      StaysKeyedByName(m, events);
    }
  }
}
