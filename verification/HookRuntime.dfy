/**
 * Running the matched hooks over one request: each may stop the request or, if
 * it is a patch hook, change the fields its allowlist names.  The replies of the
 * hook services are inputs.
 */
module HookRuntime {
  import opened Wrappers
  import opened Strings
  import opened HookRules
  import opened JsonTree

  /** What a hook call came back with; a 2xx reply with a blank body reads as "ok". */
  datatype Reply = CallFailed | Replied(result: string, patch: map<string, Json>)

  /** The four fields a patch may change. */
  datatype Patchable = Patchable(password: string, passwordEncoding: string, riskTags: seq<string>, requiredSecondFactor: string)

  /** The rest of the payload, which no hook may change. */
  datatype Fixed = Fixed(requestId: string, path: string, method_: string, email: string, userUuid: string,
                         availableFactors: seq<string>)

  class Payload {
    var fixed: Fixed
    var password: string
    var passwordEncoding: string
    var riskTags: seq<string>
    var requiredSecondFactor: string

    constructor (fixed: Fixed, fields: Patchable)
      ensures this.fixed == fixed && View() == fields
    {
      this.fixed := fixed;
      password, passwordEncoding := fields.password, fields.passwordEncoding;
      riskTags, requiredSecondFactor := fields.riskTags, fields.requiredSecondFactor;
    }

    function View(): Patchable
      reads this
    {
      Patchable(password, passwordEncoding, riskTags, requiredSecondFactor)
    }
  }

  // ----- One patch -----

  predicate AllStrings(items: seq<Json>) {
    forall i :: 0 <= i < |items| ==> items[i].JsonString?
  }

  /** The non-empty strings after trimming. */
  function NonBlank(items: seq<Json>, trim: string -> string): seq<string>
    requires AllStrings(items)
  {
    if items == [] then []
    else
      var tag := trim(items[|items| - 1].s);
      NonBlank(items[..|items| - 1], trim) + if tag == "" then [] else [tag]
  }

  function Tags(items: seq<Json>): seq<string>
    requires AllStrings(items)
  {
    NonBlank(items, TrimSpace)
  }

  method NonBlankStrings(items: seq<Json>, trim: string -> string) returns (r: Option<seq<string>>)
    ensures r.Some? <==> AllStrings(items)
    ensures r.Some? ==> r.value == NonBlank(items, trim)
  {
    var out: seq<string> := [];
    for i := 0 to |items|
      invariant AllStrings(items[..i]) && out == NonBlank(items[..i], trim)
    {
      assert items[..i + 1][..i] == items[..i];
      if !items[i].JsonString? {
        return None;
      }
      var raw := trim(items[i].s);
      if raw == "" {
        continue;
      }
      out := out + [raw];
    }
    assert items[..|items|] == items;
    return Some(out);
  }

  /** `parseHookStringSlice`. */
  method ParseHookStringSlice(value: Json) returns (r: Option<seq<string>>)
    ensures r.Some? <==> value.JsonArray? && AllStrings(value.items)
    ensures r.Some? ==> r.value == Tags(value.items)
  {
    if !value.JsonArray? {
      return None;
    }
    r := NonBlankStrings(value.items, TrimSpace);
  }

  /** The value has the type its field needs; keys the code does not know are not looked at. */
  predicate WellTyped(key: string, value: Json) {
    && (key == PASSWORD || key == PASSWORD_ENCODING || key == REQUIRED_SECOND_FACTOR ==> value.JsonString?)
    && (key == RISK_TAGS ==> value.JsonArray? && AllStrings(value.items))
  }

  /** The walk stops at this entry. */
  predicate Stops(allowlist: seq<string>, key: string, value: Json) {
    key in allowlist && !WellTyped(key, value)
  }

  /** Some key the allowlist lets through carries a value of the wrong type. */
  ghost predicate IllTyped(allowlist: seq<string>, patch: map<string, Json>) {
    exists k :: k in patch && Stops(allowlist, k, patch[k])
  }

  /** The entries a failing walk may reach before it fails. */
  ghost function Harmless(allowlist: seq<string>, patch: map<string, Json>): set<string> {
    set k | k in patch && !Stops(allowlist, k, patch[k])
  }

  predicate Lets(keys: set<string>, allowlist: seq<string>, patch: map<string, Json>, field: string) {
    field in keys && field in patch && field in allowlist && WellTyped(field, patch[field])
  }

  /** The fields after the well-typed allowed entries among `keys` are applied. */
  function Patched(p: Patchable, allowlist: seq<string>, patch: map<string, Json>, keys: set<string>): Patchable {
    Patchable(
      if Lets(keys, allowlist, patch, PASSWORD) then patch[PASSWORD].s else p.password,
      if Lets(keys, allowlist, patch, PASSWORD_ENCODING) then TrimSpace(patch[PASSWORD_ENCODING].s) else p.passwordEncoding,
      if Lets(keys, allowlist, patch, RISK_TAGS) then Tags(patch[RISK_TAGS].items) else p.riskTags,
      if Lets(keys, allowlist, patch, REQUIRED_SECOND_FACTOR) then TrimSpace(patch[REQUIRED_SECOND_FACTOR].s)
      else p.requiredSecondFactor)
  }

  /** One order in which the map may yield its keys. */
  ghost predicate IsOrder(patch: map<string, Json>, order: seq<string>) {
    AllDistinct(order) && forall k :: k in order <==> k in patch
  }

  /** The loop of `applyHookPatch` over the keys in this order: it stops at the first ill-typed allowed entry. */
  function Walked(p: Patchable, allowlist: seq<string>, patch: map<string, Json>, order: seq<string>): Patchable
    requires forall k :: k in order ==> k in patch
    decreases |order|
  {
    if order == [] || Stops(allowlist, order[0], patch[order[0]]) then p
    else Walked(Entered(p, allowlist, order[0], patch[order[0]]), allowlist, patch, order[1..])
  }

  function Entered(p: Patchable, allowlist: seq<string>, key: string, value: Json): Patchable
    requires key in allowlist ==> WellTyped(key, value)
  {
    if key !in allowlist then p
    else if key == PASSWORD then p.(password := value.s)
    else if key == PASSWORD_ENCODING then p.(passwordEncoding := TrimSpace(value.s))
    else if key == REQUIRED_SECOND_FACTOR then p.(requiredSecondFactor := TrimSpace(value.s))
    else if key == RISK_TAGS then p.(riskTags := Tags(value.items))
    else p
  }

  lemma OneEntryMore(p: Patchable, allowlist: seq<string>, patch: map<string, Json>, keys: set<string>, key: string)
    requires key in patch && key !in keys && (key in allowlist ==> WellTyped(key, patch[key]))
    ensures Patched(p, allowlist, patch, keys + {key})
      == Entered(Patched(p, allowlist, patch, keys), allowlist, key, patch[key])
  {
  }

  /** One turn of the loop: the entry is skipped, refused or assigned. */
  method ApplyEntry(payload: Payload, allowlist: seq<string>, key: string, value: Json) returns (fits: bool)
    modifies payload
    ensures fits <==> (key in allowlist ==> WellTyped(key, value))
    ensures payload.fixed == old(payload.fixed)
    ensures payload.View() == if fits then Entered(old(payload.View()), allowlist, key, value) else old(payload.View())
  {
    if key !in allowlist {
      return true;
    }
    if key == PASSWORD {
      if !value.JsonString? {
        return false;
      }
      payload.password := value.s;
    } else if key == PASSWORD_ENCODING {
      if !value.JsonString? {
        return false;
      }
      payload.passwordEncoding := TrimSpace(value.s);
    } else if key == REQUIRED_SECOND_FACTOR {
      if !value.JsonString? {
        return false;
      }
      payload.requiredSecondFactor := TrimSpace(value.s);
    } else if key == RISK_TAGS {
      var tags := ParseHookStringSlice(value);
      if tags.None? {
        return false;
      }
      payload.riskTags := tags.value;
    }
    return true;
  }

  /** The source's loop, for the order in which the map yields its keys. */
  method WalkPatch(payload: Payload, allowlist: seq<string>, patch: map<string, Json>, order: seq<string>)
    returns (ok: bool)
    requires IsOrder(patch, order)
    modifies payload
    ensures ok <==> !IllTyped(allowlist, patch)
    ensures payload.fixed == old(payload.fixed)
    ensures payload.View() == Walked(old(payload.View()), allowlist, patch, order)
  {
    var i := 0;
    assert order[0..] == order;
    while i < |order|
      invariant 0 <= i <= |order|
      invariant payload.fixed == old(payload.fixed)
      invariant forall j :: 0 <= j < i ==> !Stops(allowlist, order[j], patch[order[j]])
      invariant Walked(payload.View(), allowlist, patch, order[i..])
        == Walked(old(payload.View()), allowlist, patch, order)
    {
      assert order[i..][0] == order[i] && order[i..][1..] == order[i + 1..];
      var fits := ApplyEntry(payload, allowlist, order[i], patch[order[i]]);
      if !fits {
        assert order[i] in patch && order[i] in allowlist;
        return false;
      }
      i := i + 1;
    }
    return true;
  }

  /** A map yields its keys in no particular order. */
  method YieldKeys(patch: map<string, Json>) returns (order: seq<string>)
    ensures IsOrder(patch, order)
  {
    order := [];
    var left := patch.Keys;
    while left != {}
      invariant left <= patch.Keys
      invariant AllDistinct(order) && forall k :: k in order <==> k in patch && k !in left
      decreases |left|
    {
      var key :| key in left;
      order := order + [key];
      left := left - {key};
    }
  }

  /**
   * `applyHookPatch`.  The map is walked in no particular order.  It fails
   * exactly when an allowed entry is ill typed; otherwise every allowed entry
   * has been applied.  When it fails, `applied` are the entries that were
   * reached first, and those stay applied.
   */
  method ApplyHookPatch(payload: Payload, allowlist: seq<string>, patch: map<string, Json>)
    returns (ok: bool, ghost applied: set<string>)
    modifies payload
    ensures ok <==> !IllTyped(allowlist, patch)
    ensures payload.fixed == old(payload.fixed)
    ensures applied <= Harmless(allowlist, patch) && (ok ==> applied == patch.Keys)
    ensures payload.View() == Patched(old(payload.View()), allowlist, patch, applied)
    ensures exists order ::
      && IsOrder(patch, order)
      && payload.View() == Walked(old(payload.View()), allowlist, patch, order)
  {
    var order := YieldKeys(patch);
    ok := WalkPatch(payload, allowlist, patch, order);
    applied := WalkIsPatched(old(payload.View()), allowlist, patch, order);
  }

  // ----- What the order of a walk can show -----

  /** One turn of a walk that does not stop. */
  lemma WalkOn(
    p: Patchable, allowlist: seq<string>, patch: map<string, Json>, reached: set<string>, order: seq<string>)
    requires order != [] && forall k :: k in order ==> k in patch
    requires order[0] !in reached && !Stops(allowlist, order[0], patch[order[0]])
    ensures Walked(Patched(p, allowlist, patch, reached), allowlist, patch, order)
      == Walked(Patched(p, allowlist, patch, reached + {order[0]}), allowlist, patch, order[1..])
  {
    OneEntryMore(p, allowlist, patch, reached, order[0]);
  }

  lemma OneKeyMore(reached: set<string>, order: seq<string>)
    requires order != []
    ensures reached + (set k | k in order) == reached + {order[0]} + (set k | k in order[1..])
  {
    assert order == [order[0]] + order[1..];
  }

  /** A walk that starts when the entries in `reached` are applied ends with some harmless ones applied. */
  lemma {:induction false} WalkFrom(
    p: Patchable, allowlist: seq<string>, patch: map<string, Json>, reached: set<string>, order: seq<string>)
    returns (applied: set<string>)
    requires AllDistinct(order) && forall k :: k in order ==> k in patch && k !in reached
    requires reached <= Harmless(allowlist, patch)
    ensures applied <= Harmless(allowlist, patch)
    ensures Walked(Patched(p, allowlist, patch, reached), allowlist, patch, order)
      == Patched(p, allowlist, patch, applied)
    ensures (forall k :: k in order ==> k in Harmless(allowlist, patch)) ==> applied == reached + (set k | k in order)
    decreases |order|
  {
    if order == [] {
      applied := reached;
      assert reached + (set k | k in order) == reached;
    } else if Stops(allowlist, order[0], patch[order[0]]) {
      applied := reached;
      assert order[0] in order;
    } else {
      var k, rest := order[0], order[1..];
      assert k in order && forall j :: j in rest ==> j in order && j != k;
      WalkOn(p, allowlist, patch, reached, order);
      OneKeyMore(reached, order);
      applied := WalkFrom(p, allowlist, patch, reached + {k}, rest);
    }
  }

  lemma WalkIsPatched(p: Patchable, allowlist: seq<string>, patch: map<string, Json>, order: seq<string>)
    returns (applied: set<string>)
    requires IsOrder(patch, order)
    ensures applied <= Harmless(allowlist, patch)
    ensures Walked(p, allowlist, patch, order) == Patched(p, allowlist, patch, applied)
    ensures !IllTyped(allowlist, patch) ==> applied == patch.Keys
  {
    NothingApplied(p, allowlist, patch);
    applied := WalkFrom(p, allowlist, patch, {}, order);
    assert (set k | k in order) == patch.Keys;
  }

  /** The harmless entries first, then an ill-typed one: all of the former are applied. */
  lemma {:induction false} HarmlessFirst(
    p: Patchable, allowlist: seq<string>, patch: map<string, Json>, reached: set<string>,
    good: seq<string>, bad: string, rest: seq<string>)
    requires AllDistinct(good) && reached <= Harmless(allowlist, patch)
    requires forall k :: k in good ==> k in Harmless(allowlist, patch) && k !in reached
    requires bad in patch && Stops(allowlist, bad, patch[bad]) && forall k :: k in rest ==> k in patch
    ensures Walked(Patched(p, allowlist, patch, reached), allowlist, patch, good + [bad] + rest)
      == Patched(p, allowlist, patch, reached + (set k | k in good))
    decreases |good|
  {
    var order := good + [bad] + rest;
    if good == [] {
      assert order[0] == bad;
      assert reached + (set k | k in good) == reached;
    } else {
      var k := good[0];
      assert k in good && forall j :: j in good[1..] ==> j in good && j != k;
      assert order[0] == k && order[1..] == good[1..] + [bad] + rest;
      WalkOn(p, allowlist, patch, reached, order);
      OneKeyMore(reached, good);
      HarmlessFirst(p, allowlist, patch, reached + {k}, good[1..], bad, rest);
    }
  }

  lemma BadFirstIsOrder(patch: map<string, Json>, bad: string) returns (order: seq<string>)
    requires bad in patch
    ensures IsOrder(patch, order) && order != [] && order[0] == bad
  {
    var others := SomeOrder(patch.Keys - {bad});
    order := [bad] + others;
    forall i, j | 0 <= i < j < |order| ensures order[i] != order[j] {
      assert order[j] == others[j - 1] && others[j - 1] in others;
    }
    assert forall k :: k in order <==> k == bad || k in others;
  }

  lemma GoodFirstIsOrder(patch: map<string, Json>, good: seq<string>, bad: string) returns (rest: seq<string>)
    requires bad in patch && bad !in good && AllDistinct(good) && forall k :: k in good ==> k in patch
    ensures IsOrder(patch, good + [bad] + rest) && forall k :: k in rest ==> k in patch
  {
    rest := SomeOrder(patch.Keys - (set k | k in good) - {bad});
    var order := good + [bad] + rest;
    forall i, j | 0 <= i < j < |order| ensures order[i] != order[j] {
      if j > |good| {
        assert order[j] == rest[j - |good| - 1] && rest[j - |good| - 1] in rest;
      }
      if i < |good| {
        assert order[i] == good[i] && good[i] in good;
      }
    }
    assert forall k :: k in order <==> k in good || k == bad || k in rest;
  }

  /** A failing patch has an order that applies nothing and one that applies all its harmless entries. */
  lemma ExtremeOrders(p: Patchable, allowlist: seq<string>, patch: map<string, Json>)
    returns (first: seq<string>, last: seq<string>)
    requires IllTyped(allowlist, patch)
    ensures IsOrder(patch, first) && Walked(p, allowlist, patch, first) == p
    ensures IsOrder(patch, last)
      && Walked(p, allowlist, patch, last) == Patched(p, allowlist, patch, Harmless(allowlist, patch))
  {
    var bad :| bad in patch && Stops(allowlist, bad, patch[bad]);
    first := BadFirstIsOrder(patch, bad);
    var good := SomeOrder(Harmless(allowlist, patch));
    var rest := GoodFirstIsOrder(patch, good, bad);
    last := good + [bad] + rest;
    NothingApplied(p, allowlist, patch);
    HarmlessFirst(p, allowlist, patch, {}, good, bad, rest);
    assert {} + (set k | k in good) == Harmless(allowlist, patch);
  }

  lemma NothingApplied(p: Patchable, allowlist: seq<string>, patch: map<string, Json>)
    ensures Patched(p, allowlist, patch, {}) == p
  {
  }

  /**
   * A failing patch leaves traces that depend on the walk: every order leaves
   * the same fields exactly when its harmless allowed entries change nothing.
   */
  lemma FailedPatchDependsOnOrder(p: Patchable, allowlist: seq<string>, patch: map<string, Json>)
    requires IllTyped(allowlist, patch)
    ensures
      (forall a, b :: IsOrder(patch, a) && IsOrder(patch, b) ==>
        Walked(p, allowlist, patch, a) == Walked(p, allowlist, patch, b))
      <==> Patched(p, allowlist, patch, Harmless(allowlist, patch)) == p
  {
    var first, last := ExtremeOrders(p, allowlist, patch);
    if Patched(p, allowlist, patch, Harmless(allowlist, patch)) == p {
      forall order | IsOrder(patch, order) ensures Walked(p, allowlist, patch, order) == p {
        var applied := WalkIsPatched(p, allowlist, patch, order);
        OnlyHarmlessMatter(p, allowlist, patch, applied);
      }
    }
  }

  /** A patch without an ill-typed allowed entry ends the same in every order. */
  lemma CleanPatchIgnoresOrder(p: Patchable, allowlist: seq<string>, patch: map<string, Json>, order: seq<string>)
    requires !IllTyped(allowlist, patch) && IsOrder(patch, order)
    ensures Walked(p, allowlist, patch, order) == Patched(p, allowlist, patch, patch.Keys)
  {
    var applied := WalkIsPatched(p, allowlist, patch, order);
  }

  lemma OnlyHarmlessMatter(p: Patchable, allowlist: seq<string>, patch: map<string, Json>, a: set<string>)
    requires a <= Harmless(allowlist, patch) && Patched(p, allowlist, patch, Harmless(allowlist, patch)) == p
    ensures Patched(p, allowlist, patch, a) == p
  {
  }

  /** A patch whose two orders leave different passwords. */
  lemma OrderShows(p: Patchable)
    requires p.password != "new"
    ensures
      var patch := map[PASSWORD := JsonString("new"), RISK_TAGS := JsonNull];
      var allowlist := [PASSWORD, RISK_TAGS];
      && IsOrder(patch, [PASSWORD, RISK_TAGS]) && IsOrder(patch, [RISK_TAGS, PASSWORD])
      && Walked(p, allowlist, patch, [PASSWORD, RISK_TAGS]).password == "new"
      && Walked(p, allowlist, patch, [RISK_TAGS, PASSWORD]) == p
  {
    var patch := map[PASSWORD := JsonString("new"), RISK_TAGS := JsonNull];
    var allowlist := [PASSWORD, RISK_TAGS];
    assert PASSWORD != RISK_TAGS by {
      assert |PASSWORD| != |RISK_TAGS|;
    }
    assert [PASSWORD, RISK_TAGS][1..] == [RISK_TAGS];
  }

  // ----- One hook -----

  datatype Outcome = Continue | Denied | HookFailed

  function OnFailure(rule: HookRule): Outcome {
    if rule.failPolicy == FAIL_CLOSED then HookFailed else Continue
  }

  predicate IsPass(word: string) {
    word == "" || word == "ok" || word == "observe"
  }

  predicate IsDenial(word: string) {
    word == "deny" || word == "veto"
  }

  function Word(result: string): string {
    ToLower(TrimSpace(result))
  }

  /** The reply patches the request: a patch hook answered "patch". */
  predicate Patches(rule: HookRule, reply: Reply) {
    reply.Replied? && Word(reply.result) == "patch" && rule.capability == PATCH
  }

  /** What one hook does to the request, whatever the payload holds. */
  ghost function Verdict(rule: HookRule, reply: Reply): Outcome {
    if reply.CallFailed? then OnFailure(rule)
    else
      var word := Word(reply.result);
      if IsPass(word) then Continue
      else if IsDenial(word) then Denied
      else if Patches(rule, reply) && !IllTyped(rule.patchAllowlist, reply.patch) then Continue
      else OnFailure(rule)
  }

  /** How one hook's reply turns the patchable fields `p` into `q`: a patch is walked in some order. */
  ghost predicate Effect(rule: HookRule, reply: Reply, p: Patchable, q: Patchable) {
    if Patches(rule, reply) then
      exists order :: IsOrder(reply.patch, order) && q == Walked(p, rule.patchAllowlist, reply.patch, order)
    else q == p
  }

  lemma EffectIsPatched(rule: HookRule, reply: Reply, p: Patchable, q: Patchable) returns (applied: set<string>)
    requires Effect(rule, reply, p, q) && Patches(rule, reply)
    ensures applied <= Harmless(rule.patchAllowlist, reply.patch)
    ensures q == Patched(p, rule.patchAllowlist, reply.patch, applied)
    ensures !IllTyped(rule.patchAllowlist, reply.patch) ==> applied == reply.patch.Keys
  {
    var order :| IsOrder(reply.patch, order) && q == Walked(p, rule.patchAllowlist, reply.patch, order);
    applied := WalkIsPatched(p, rule.patchAllowlist, reply.patch, order);
  }

  /** `runRule`, given the reply of its call. */
  method RunRule(rule: HookRule, reply: Reply, payload: Payload) returns (outcome: Outcome)
    modifies payload
    ensures outcome == Verdict(rule, reply)
    ensures payload.fixed == old(payload.fixed)
    ensures Effect(rule, reply, old(payload.View()), payload.View())
  {
    if reply.CallFailed? {
      return OnFailure(rule);
    }
    var word := Word(reply.result);
    if IsPass(word) {
      return Continue;
    }
    if IsDenial(word) {
      return Denied;
    }
    if word == "patch" {
      if rule.capability != PATCH {
        return OnFailure(rule);
      }
      ghost var applied;
      var ok;
      ok, applied := ApplyHookPatch(payload, rule.patchAllowlist, reply.patch);
      if !ok {
        return OnFailure(rule);
      }
      return Continue;
    }
    return OnFailure(rule);
  }

  // ----- The pipeline -----

  /** How many hooks are called: up to and including the first that stops the request. */
  ghost function Called(rules: seq<HookRule>, replies: seq<Reply>): (n: nat)
    requires |rules| == |replies|
    ensures n <= |rules|
    ensures forall i :: 0 <= i < n - 1 ==> Verdict(rules[i], replies[i]).Continue?
    ensures n < |rules| ==> n > 0 && !Verdict(rules[n - 1], replies[n - 1]).Continue?
  {
    if rules == [] then 0
    else if !Verdict(rules[0], replies[0]).Continue? then 1
    else 1 + Called(rules[1..], replies[1..])
  }

  /** One of the hooks called may change this field: a patch hook that answered "patch" and has it on its list. */
  ghost predicate MayChange(rules: seq<HookRule>, replies: seq<Reply>, n: nat, field: string)
    requires n <= |rules| == |replies|
  {
    exists i :: 0 <= i < n && Patches(rules[i], replies[i]) && field in rules[i].patchAllowlist
  }

  /** Every patch among the first `n` replies is well typed. */
  ghost predicate CleanPatches(rules: seq<HookRule>, replies: seq<Reply>, n: nat)
    requires n <= |rules| == |replies|
  {
    forall i :: 0 <= i < n && Patches(rules[i], replies[i]) ==> !IllTyped(rules[i].patchAllowlist, replies[i].patch)
  }

  /** The patches of the first `n` replies, applied one after the other. */
  ghost function Folded(p: Patchable, rules: seq<HookRule>, replies: seq<Reply>, n: nat): Patchable
    requires n <= |rules| == |replies|
  {
    if n == 0 then p
    else
      var q := Folded(p, rules, replies, n - 1);
      var rule, reply := rules[n - 1], replies[n - 1];
      if Patches(rule, reply) then Patched(q, rule.patchAllowlist, reply.patch, reply.patch.Keys) else q
  }

  ghost predicate Attributed(p: Patchable, q: Patchable, rules: seq<HookRule>, replies: seq<Reply>, n: nat)
    requires n <= |rules| == |replies|
  {
    && (q.password != p.password ==> MayChange(rules, replies, n, PASSWORD))
    && (q.passwordEncoding != p.passwordEncoding ==> MayChange(rules, replies, n, PASSWORD_ENCODING))
    && (q.riskTags != p.riskTags ==> MayChange(rules, replies, n, RISK_TAGS))
    && (q.requiredSecondFactor != p.requiredSecondFactor ==> MayChange(rules, replies, n, REQUIRED_SECOND_FACTOR))
  }

  lemma EffectIsAttributed(rule: HookRule, reply: Reply, p: Patchable, q: Patchable)
    requires Effect(rule, reply, p, q)
    ensures q.password != p.password ==> Patches(rule, reply) && PASSWORD in rule.patchAllowlist
    ensures q.passwordEncoding != p.passwordEncoding ==> Patches(rule, reply) && PASSWORD_ENCODING in rule.patchAllowlist
    ensures q.riskTags != p.riskTags ==> Patches(rule, reply) && RISK_TAGS in rule.patchAllowlist
    ensures q.requiredSecondFactor != p.requiredSecondFactor ==>
      Patches(rule, reply) && REQUIRED_SECOND_FACTOR in rule.patchAllowlist
  {
    if Patches(rule, reply) {
      var applied := EffectIsPatched(rule, reply, p, q);
    }
  }

  /** The fields after each hook called, from the start. */
  ghost predicate IsTrail(rules: seq<HookRule>, replies: seq<Reply>, n: nat, trail: seq<Patchable>)
    requires n <= |rules| == |replies|
  {
    |trail| == n + 1 && forall i :: 0 <= i < n ==> Effect(rules[i], replies[i], trail[i], trail[i + 1])
  }

  lemma {:induction false} TrailIsAttributed(rules: seq<HookRule>, replies: seq<Reply>, n: nat, trail: seq<Patchable>)
    requires n <= |rules| == |replies| && IsTrail(rules, replies, n, trail)
    ensures Attributed(trail[0], trail[n], rules, replies, n)
  {
    if n > 0 {
      TrailIsAttributed(rules, replies, n - 1, trail[..n]);
      EffectIsAttributed(rules[n - 1], replies[n - 1], trail[n - 1], trail[n]);
      forall f | MayChange(rules, replies, n - 1, f) ensures MayChange(rules, replies, n, f) {
      }
    }
  }

  lemma {:induction false} TrailIsFolded(rules: seq<HookRule>, replies: seq<Reply>, n: nat, trail: seq<Patchable>)
    requires n <= |rules| == |replies| && IsTrail(rules, replies, n, trail) && CleanPatches(rules, replies, n)
    ensures trail[n] == Folded(trail[0], rules, replies, n)
  {
    if n > 0 {
      TrailIsFolded(rules, replies, n - 1, trail[..n]);
      assert Effect(rules[n - 1], replies[n - 1], trail[n - 1], trail[n]);
      if Patches(rules[n - 1], replies[n - 1]) {
        var applied := EffectIsPatched(rules[n - 1], replies[n - 1], trail[n - 1], trail[n]);
      }
    }
  }

  lemma RunFollowsTrail(rules: seq<HookRule>, replies: seq<Reply>, n: nat, trail: seq<Patchable>)
    requires n <= |rules| == |replies| && IsTrail(rules, replies, n, trail)
    ensures Attributed(trail[0], trail[n], rules, replies, n)
    ensures CleanPatches(rules, replies, n) ==> trail[n] == Folded(trail[0], rules, replies, n)
  {
    TrailIsAttributed(rules, replies, n, trail);
    if CleanPatches(rules, replies, n) {
      TrailIsFolded(rules, replies, n, trail);
    }
  }

  /**
   * `Run`.  The request goes on exactly when no hook stops it, and otherwise
   * the first that does decides how.  Only the four patchable fields can
   * change, each only through a hook that was called and lists it; and when no
   * patch is ill typed the final fields are the patches in run order.
   */
  method Run(rules: seq<HookRule>, replies: seq<Reply>, payload: Payload) returns (outcome: Outcome)
    requires |rules| == |replies|
    modifies payload
    ensures outcome.Continue? <==> forall i :: 0 <= i < |rules| ==> Verdict(rules[i], replies[i]).Continue?
    ensures var n := Called(rules, replies);
      && (!outcome.Continue? ==> n > 0 && outcome == Verdict(rules[n - 1], replies[n - 1]))
      && Attributed(old(payload.View()), payload.View(), rules, replies, n)
      && (CleanPatches(rules, replies, n) ==> payload.View() == Folded(old(payload.View()), rules, replies, n))
    ensures payload.fixed == old(payload.fixed)
  {
    ghost var n;
    outcome, n := RunAll(rules, replies, payload);
    StopIsSeen(rules, replies, n, outcome);
    SummaryAtCalled(rules, replies, n, outcome, old(payload.View()), payload.View());
  }

  lemma SummaryAtCalled(
    rules: seq<HookRule>, replies: seq<Reply>, n: nat, outcome: Outcome, p: Patchable, q: Patchable)
    requires n <= |rules| == |replies|
    requires forall i :: 0 <= i < n - 1 ==> Verdict(rules[i], replies[i]).Continue?
    requires outcome.Continue? ==> n == |rules|
    requires !outcome.Continue? ==> n > 0 && outcome == Verdict(rules[n - 1], replies[n - 1])
    requires Attributed(p, q, rules, replies, n)
    requires CleanPatches(rules, replies, n) ==> q == Folded(p, rules, replies, n)
    ensures var m := Called(rules, replies);
      && (!outcome.Continue? ==> m > 0 && outcome == Verdict(rules[m - 1], replies[m - 1]))
      && Attributed(p, q, rules, replies, m)
      && (CleanPatches(rules, replies, m) ==> q == Folded(p, rules, replies, m))
  {
    CalledIs(rules, replies, n);
  }

  lemma StopIsSeen(rules: seq<HookRule>, replies: seq<Reply>, n: nat, outcome: Outcome)
    requires n <= |rules| == |replies|
    requires outcome.Continue? ==> n == |rules| && forall i :: 0 <= i < n ==> Verdict(rules[i], replies[i]).Continue?
    requires !outcome.Continue? ==> n > 0 && outcome == Verdict(rules[n - 1], replies[n - 1])
    ensures outcome.Continue? <==> forall i :: 0 <= i < |rules| ==> Verdict(rules[i], replies[i]).Continue?
  {
  }

  method RunAll(rules: seq<HookRule>, replies: seq<Reply>, payload: Payload) returns (outcome: Outcome, ghost n: nat)
    requires |rules| == |replies|
    modifies payload
    ensures n <= |rules| && forall i :: 0 <= i < n - 1 ==> Verdict(rules[i], replies[i]).Continue?
    ensures outcome.Continue? ==> n == |rules| && forall i :: 0 <= i < n ==> Verdict(rules[i], replies[i]).Continue?
    ensures !outcome.Continue? ==> n > 0 && outcome == Verdict(rules[n - 1], replies[n - 1])
    ensures Attributed(old(payload.View()), payload.View(), rules, replies, n)
    ensures CleanPatches(rules, replies, n) ==> payload.View() == Folded(old(payload.View()), rules, replies, n)
    ensures payload.fixed == old(payload.fixed)
  {
    ghost var trail := [payload.View()];
    n := 0;
    for i := 0 to |rules|
      invariant forall j :: 0 <= j < i ==> Verdict(rules[j], replies[j]).Continue?
      invariant payload.fixed == old(payload.fixed)
      invariant n == i && IsTrail(rules, replies, n, trail)
      invariant trail[0] == old(payload.View()) && trail[n] == payload.View()
    {
      outcome := RunRule(rules[i], replies[i], payload);
      trail := trail + [payload.View()];
      n := n + 1;
      if !outcome.Continue? {
        RunFollowsTrail(rules, replies, n, trail);
        return outcome, n;
      }
    }
    RunFollowsTrail(rules, replies, n, trail);
    return Continue, n;
  }

  lemma CalledIs(rules: seq<HookRule>, replies: seq<Reply>, n: nat)
    requires n <= |rules| == |replies|
    requires forall i :: 0 <= i < n - 1 ==> Verdict(rules[i], replies[i]).Continue?
    requires n < |rules| ==> n > 0 && !Verdict(rules[n - 1], replies[n - 1]).Continue?
    requires n == |rules| || !Verdict(rules[n - 1], replies[n - 1]).Continue?
    ensures Called(rules, replies) == n
  {
    var m := Called(rules, replies);
  }
}
