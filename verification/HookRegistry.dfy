/** The hook registry: rule lists by service in an unordered map, matched into one run order. */
module HookRegistry {
  import opened Wrappers
  import opened Strings
  import opened HookRules

  /** A rule runs for a request when its phase and a path fit and it has somewhere to call. */
  predicate Applies(rule: HookRule, path: string, phase: string) {
    rule.phase == phase && PathMatches(rule.paths, path) && TrimSpace(rule.url) != ""
  }

  /** The applying rules of one list, in the order they stand. */
  function Applying(rules: seq<HookRule>, path: string, phase: string): (r: seq<HookRule>)
    ensures forall x :: x in r ==> x in rules && Applies(x, path, phase)
  {
    if rules == [] then []
    else
      var last := rules[|rules| - 1];
      Applying(rules[..|rules| - 1], path, phase) + if Applies(last, path, phase) then [last] else []
  }

  /** Each rule is filed under its own service. */
  ghost predicate FiledByService(rules: map<string, seq<HookRule>>) {
    forall s, r :: s in rules && r in rules[s] ==> r.service == s
  }

  function ListOf(rules: map<string, seq<HookRule>>, service: string): seq<HookRule> {
    if service in rules then rules[service] else []
  }

  /**
   * The answer to a match: in run order, and for each priority and service the
   * applying rules of that service in registration order, no more and no fewer.
   */
  ghost predicate IsMatch(rules: map<string, seq<HookRule>>, path: string, phase: string, matched: seq<HookRule>) {
    && InRunOrder(matched)
    && forall priority, service :: Rank(matched, priority, service)
         == Rank(Applying(ListOf(rules, service), path, phase), priority, service)
  }

  /** There is only one answer, so the map's iteration order cannot show. */
  lemma MatchIsUnique(rules: map<string, seq<HookRule>>, path: string, phase: string, a: seq<HookRule>, b: seq<HookRule>)
    requires IsMatch(rules, path, phase, a) && IsMatch(rules, path, phase, b)
    ensures a == b
  {
    RunOrderIsUnique(a, b);
  }

  /** The answer holds exactly the registered rules that apply. */
  lemma MatchIsExactlyTheApplyingRules(
    rules: map<string, seq<HookRule>>, path: string, phase: string, matched: seq<HookRule>, r: HookRule)
    requires FiledByService(rules) && IsMatch(rules, path, phase, matched)
    ensures r in matched <==> (exists s :: s in rules && r in rules[s]) && Applies(r, path, phase)
  {
    var list := ListOf(rules, r.service);
    RankMembers(matched, r.priority, r.service);
    RankMembers(Applying(list, path, phase), r.priority, r.service);
    ApplyingMembers(list, path, phase, r);
    assert r in matched <==> r in Applying(list, path, phase) by {
      assert Rank(matched, r.priority, r.service) == Rank(Applying(list, path, phase), r.priority, r.service);
    }
  }

  lemma {:induction false} ApplyingMembers(rules: seq<HookRule>, path: string, phase: string, r: HookRule)
    ensures r in Applying(rules, path, phase) <==> r in rules && Applies(r, path, phase)
  {
    if rules != [] {
      var n := |rules| - 1;
      ApplyingMembers(rules[..n], path, phase, r);
      assert rules == rules[..n] + [rules[n]];
    }
  }

  /** What has been collected when only the services in `visited` have been looked at. */
  ghost predicate Collected(rules: map<string, seq<HookRule>>, path: string, phase: string,
                            visited: set<string>, matched: seq<HookRule>)
  {
    forall priority, service :: Rank(matched, priority, service)
      == if service in visited then Rank(Applying(ListOf(rules, service), path, phase), priority, service) else []
  }

  lemma CollectOne(rules: map<string, seq<HookRule>>, path: string, phase: string,
                   visited: set<string>, matched: seq<HookRule>, s: string)
    requires FiledByService(rules) && s in rules && s !in visited
    requires Collected(rules, path, phase, visited, matched)
    ensures Collected(rules, path, phase, visited + {s}, matched + Applying(rules[s], path, phase))
  {
    var more := Applying(rules[s], path, phase);
    forall p, v | true
      ensures Rank(matched + more, p, v)
        == if v in visited + {s} then Rank(Applying(ListOf(rules, v), path, phase), p, v) else []
    {
      RankOfConcat(matched, more, p, v);
      if v != s {
        RankOfOthers(more, p, v);
      }
      assert Rank(matched, p, v)
        == if v in visited then Rank(Applying(ListOf(rules, v), path, phase), p, v) else [];
    }
  }

  lemma AllCollected(rules: map<string, seq<HookRule>>, path: string, phase: string,
                     visited: set<string>, matched: seq<HookRule>, sorted: seq<HookRule>)
    requires Collected(rules, path, phase, visited, matched)
    requires forall s :: s in rules ==> s in visited
    requires InRunOrder(sorted) && SameRanks(sorted, matched)
    ensures IsMatch(rules, path, phase, sorted)
  {
    forall p, v | true ensures Rank(sorted, p, v) == Rank(Applying(ListOf(rules, v), path, phase), p, v) {
      assert Rank(sorted, p, v) == Rank(matched, p, v);
    }
  }

  /** The results of `f` in order, or nothing if one of them is missing. */
  function AllOf(items: seq<HookRule>, f: HookRule -> Option<HookRule>): (r: Option<seq<HookRule>>)
    ensures r.Some? ==> |r.value| == |items|
  {
    if items == [] then Some([])
    else
      var n := |items| - 1;
      var init, last := AllOf(items[..n], f), f(items[n]);
      if init.Some? && last.Some? then Some(init.value + [last.value]) else None
  }

  lemma {:induction false} AllOfPointwise(items: seq<HookRule>, f: HookRule -> Option<HookRule>)
    ensures AllOf(items, f).Some? <==> forall i :: 0 <= i < |items| ==> f(items[i]).Some?
    ensures AllOf(items, f).Some? ==> forall i :: 0 <= i < |items| ==> f(items[i]) == Some(AllOf(items, f).value[i])
  {
    if items != [] {
      var n := |items| - 1;
      AllOfPointwise(items[..n], f);
      assert forall i :: 0 <= i < n ==> items[..n][i] == items[i];
    }
  }

  lemma {:induction false} AllOfStopsEarly(items: seq<HookRule>, f: HookRule -> Option<HookRule>, i: nat)
    requires i < |items| && f(items[i]).None?
    ensures AllOf(items, f).None?
  {
    AllOfPointwise(items, f);
  }

  function Normalizer(name: string): HookRule -> Option<HookRule> {
    rule => Normalized(rule, name)
  }

  /** Every rule in normal form under this service, or nothing if one is not acceptable. */
  function AllNormalized(hooks: seq<HookRule>, name: string): Option<seq<HookRule>> {
    AllOf(hooks, Normalizer(name))
  }

  lemma NormalizedIsFiled(hooks: seq<HookRule>, name: string)
    requires AllNormalized(hooks, name).Some?
    ensures forall r :: r in AllNormalized(hooks, name).value ==> r.service == name && Acceptable(r)
  {
    AllOfPointwise(hooks, Normalizer(name));
  }

  method NormalizeOne(rule: HookRule, name: string) returns (r: Option<HookRule>)
    ensures r == Normalizer(name)(rule)
  {
    r := NormalizeHookRule(rule, name);
  }

  method NormalizeAll(hooks: seq<HookRule>, name: string) returns (r: Option<seq<HookRule>>)
    ensures r == AllNormalized(hooks, name)
  {
    var list: seq<HookRule> := [];
    ghost var f := Normalizer(name);
    for i := 0 to |hooks|
      invariant AllOf(hooks[..i], f) == Some(list)
    {
      assert hooks[..i + 1][..i] == hooks[..i];
      var normalized := NormalizeOne(hooks[i], name);
      if normalized.None? {
        AllOfStopsEarly(hooks, f, i);
        return None;
      }
      list := list + [normalized.value];
    }
    assert hooks[..|hooks|] == hooks;
    return Some(list);
  }

  datatype Answer = Registered(count: nat) | NameMissing | ServiceNotRegistered | InvalidRule

  /** The refusals in the handler's order. */
  function AnswerTo(name: string, hooks: seq<HookRule>, present: set<string>): Answer {
    if name == "" then NameMissing
    else if name !in present then ServiceNotRegistered
    else if AllNormalized(hooks, name).None? then InvalidRule
    else Registered(|hooks|)
  }

  class Registry {
    var rules: map<string, seq<HookRule>>

    ghost predicate Valid()
      reads this
    {
      FiledByService(rules)
    }

    constructor ()
      ensures Valid() && rules == map[]
    {
      rules := map[];
    }

    /** Replaces the whole list of one service. */
    method Upsert(service: string, list: seq<HookRule>)
      requires Valid() && forall r :: r in list ==> r.service == service
      modifies this
      ensures Valid() && rules == old(rules)[service := list]
    {
      rules := rules[service := list];
    }

    /** The registration handler; `present` are the services the presence registry answers for. */
    method Register(reqName: string, hooks: seq<HookRule>, present: set<string>) returns (answer: Answer)
      requires Valid()
      modifies this
      ensures Valid()
      ensures answer == AnswerTo(TrimSpace(reqName), hooks, present)
      ensures answer.Registered? ==>
        && answer.count == |hooks|
        && rules == old(rules)[TrimSpace(reqName) := AllNormalized(hooks, TrimSpace(reqName)).value]
      ensures !answer.Registered? ==> rules == old(rules)
    {
      var name := TrimSpace(reqName);
      if name == "" {
        return NameMissing;
      }
      answer := RegisterTrimmed(name, hooks, present);
    }

    /** All rules are accepted, in normal form, or none is stored. */
    method RegisterTrimmed(name: string, hooks: seq<HookRule>, present: set<string>) returns (answer: Answer)
      requires Valid() && name != ""
      modifies this
      ensures Valid() && answer == AnswerTo(name, hooks, present)
      ensures answer.Registered? ==> rules == old(rules)[name := AllNormalized(hooks, name).value]
      ensures !answer.Registered? ==> rules == old(rules)
    {
      if name !in present {
        return ServiceNotRegistered;
      }
      var list := NormalizeAll(hooks, name);
      if list.None? {
        return InvalidRule;
      }
      NormalizedIsFiled(hooks, name);
      Upsert(name, list.value);
      return Registered(|list.value|);
    }

    /** `Match`: collects in whatever order the map yields its services, then sorts stably. */
    method Match(path: string, phase: string) returns (matched: seq<HookRule>)
      requires Valid()
      ensures IsMatch(rules, path, phase, matched)
    {
      var collected: seq<HookRule> := [];
      var left := rules.Keys;
      ghost var visited: set<string> := {};
      RankOfNothing();
      while left != {}
        invariant left <= rules.Keys && visited == rules.Keys - left
        invariant Collected(rules, path, phase, visited, collected)
        decreases |left|
      {
        var service :| service in left;
        ghost var before := collected;
        collected := AppendApplying(collected, rules[service], path, phase);
        CollectOne(rules, path, phase, visited, before, service);
        left := left - {service};
        visited := visited + {service};
      }
      matched := SortStable(collected);
      AllCollected(rules, path, phase, visited, collected, matched);
    }
  }

  lemma RankOfNothing()
    ensures forall p, s :: Rank([], p, s) == []
  {
  }

  /** The inner loop of `Match`. */
  method AppendApplying(collected: seq<HookRule>, rules: seq<HookRule>, path: string, phase: string)
    returns (r: seq<HookRule>)
    ensures r == collected + Applying(rules, path, phase)
  {
    r := collected;
    for i := 0 to |rules|
      invariant r == collected + Applying(rules[..i], path, phase)
    {
      assert rules[..i + 1][..i] == rules[..i];
      var rule := rules[i];
      if rule.phase != phase || TrimSpace(rule.url) == "" {
        continue;
      }
      var fits := MatchPath(rule, path);
      if fits {
        r := r + [rule];
      }
    }
    assert rules[..|rules|] == rules;
  }
}
