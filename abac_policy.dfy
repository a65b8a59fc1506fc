/** The attribute-based access control engine `AbacPolicyEngine`: an ordered
    list of policies, matched on agent and tool, gated on the caller's trust
    level and on a sliding-window rate limit kept per agent. */
module AbacPolicy {
  import opened Wrappers
  import opened Text
  import opened AgentIdentity

  datatype RateLimit = RateLimit(requests: int, windowMs: int)

  /** Declared by the policy format but never consulted by the engine. */
  datatype TimeWindow = TimeWindow(start: string, end: string)

  datatype Conditions = Conditions(
    trustLevel: Option<seq<TrustLevel>>,
    timeWindow: Option<TimeWindow>,
    rateLimit: Option<RateLimit>)

  datatype Policy = Policy(
    id: string,
    name: string,
    agents: seq<string>,   // agent ids, or "*" for every agent
    tools: seq<string>,    // tool names, "prefix*" patterns, or "*"
    conditions: Option<Conditions>)

  datatype Decision = Decision(allowed: bool, reason: Option<string>, policy: Option<Policy>)

  /** `rateLimitCache`: the request timestamps recorded per agent id. */
  type RateCache = map<string, seq<int>>

  const NoMatchingPolicy := "No matching policy found"
  const ConditionsNotMet := "Policy conditions not met"
  const RateLimitExceeded := "Rate limit exceeded"

  const AdminPolicy := Policy(
    "policy-admin-full", "Admin Full Access",
    ["admin-agent", "operator-agent"], ["*"],
    Some(Conditions(Some([High]), None, None)))

  const ReadOnlyPolicy := Policy(
    "policy-readonly", "Read-Only Access",
    ["readonly-agent"], ["get*", "list*", "describe*"],
    Some(Conditions(Some([Medium, High]), None, Some(RateLimit(100, 60000)))))

  const DefaultAgentPolicy := Policy(
    "policy-default", "Default Agent Access",
    ["*"], ["get*", "list*"],
    Some(Conditions(Some([Medium, High]), None, Some(RateLimit(50, 60000)))))

  /** The three built-in policies, in their evaluation order. */
  function DefaultPolicies(): seq<Policy> {
    [AdminPolicy, ReadOnlyPolicy, DefaultAgentPolicy]
  }

  /** `matchesAgent` */
  predicate MatchesAgent(p: Policy, agentId: string) {
    "*" in p.agents || agentId in p.agents
  }

  /** One tool pattern of `matchesTool`: `'*'`, a trailing-`*` prefix
      pattern, or an exact, case-sensitive name. */
  predicate PatternMatches(pattern: string, toolName: string) {
    if pattern == "*" then true
    else if |pattern| > 0 && pattern[|pattern| - 1] == '*' then
      StartsWith(toolName, pattern[..|pattern| - 1])
    else pattern == toolName
  }

  /** `matchesTool`: some pattern of the policy matches. */
  predicate MatchesTool(p: Policy, toolName: string) {
    exists i :: 0 <= i < |p.tools| && PatternMatches(p.tools[i], toolName)
  }

  predicate Matches(p: Policy, agentId: string, toolName: string) {
    MatchesAgent(p, agentId) && MatchesTool(p, toolName)
  }

  /** The policy declares a trust-level condition that excludes `level`. */
  predicate TrustExcluded(p: Policy, level: TrustLevel) {
    p.conditions.Some? && p.conditions.value.trustLevel.Some?
    && level !in p.conditions.value.trustLevel.value
  }

  function RateLimitOf(p: Policy): Option<RateLimit> {
    if p.conditions.Some? then p.conditions.value.rateLimit else None
  }

  /** The `filter` at the start of `evaluateAccess`: the policies that match
      both agent and tool, in their stored order. */
  function MatchingPolicies(policies: seq<Policy>, agentId: string, toolName: string): (ms: seq<Policy>)
    ensures |ms| <= |policies|
    ensures forall p :: p in ms <==> p in policies && Matches(p, agentId, toolName)
  {
    if policies == [] then []
    else
      var rest := MatchingPolicies(policies[1..], agentId, toolName);
      assert forall p :: p in policies <==> p == policies[0] || p in policies[1..];
      if Matches(policies[0], agentId, toolName) then [policies[0]] + rest else rest
  }

  /** The index of the first policy of `ms` whose trust condition does not
      exclude `level`: the policy the loop of `evaluateAccess` stops at. */
  function FirstEligible(ms: seq<Policy>, level: TrustLevel): (r: Option<nat>)
    ensures r.Some? ==> r.value < |ms| && !TrustExcluded(ms[r.value], level)
    ensures r.Some? ==> forall j :: 0 <= j < r.value ==> TrustExcluded(ms[j], level)
    ensures r.None? ==> forall j :: 0 <= j < |ms| ==> TrustExcluded(ms[j], level)
  {
    if ms == [] then None
    else if !TrustExcluded(ms[0], level) then Some(0)
    else match FirstEligible(ms[1..], level)
      case None => None
      case Some(i) => Some(i + 1)
  }

  /** The timestamps an agent has recorded; `get(key) || []`. */
  function Timestamps(cache: RateCache, agentId: string): seq<int> {
    if agentId in cache then cache[agentId] else []
  }

  /** The local `filter` of `checkRateLimit`: the timestamps still inside the
      window, in their stored order. */
  function RecentTimestamps(ts: seq<int>, now: int, windowMs: int): (r: seq<int>)
    ensures |r| <= |ts|
    ensures forall t :: t in r <==> t in ts && now - t < windowMs
    ensures forall t :: multiset(r)[t] == if now - t < windowMs then multiset(ts)[t] else 0
  {
    if ts == [] then []
    else
      var rest := RecentTimestamps(ts[1..], now, windowMs);
      assert ts == [ts[0]] + ts[1..];
      assert forall t :: t in ts <==> t == ts[0] || t in ts[1..];
      if now - ts[0] < windowMs then [ts[0]] + rest else rest
  }

  /** How many of the timestamps `ts` are younger than the window, counted
      from the most recent one backwards. */
  function CountInWindow(ts: seq<int>, now: int, windowMs: int): nat {
    if ts == [] then 0
    else
      var last := if now - ts[|ts| - 1] < windowMs then 1 else 0;
      CountInWindow(ts[..|ts| - 1], now, windowMs) + last
  }

  /** Filtering a concatenation filters each part. */
  lemma {:induction false} RecentAppend(a: seq<int>, b: seq<int>, now: int, windowMs: int)
    ensures RecentTimestamps(a + b, now, windowMs)
         == RecentTimestamps(a, now, windowMs) + RecentTimestamps(b, now, windowMs)
  {
    if a == [] {
      assert a + b == b;
    } else {
      assert (a + b)[0] == a[0] && (a + b)[1..] == a[1..] + b;
      RecentAppend(a[1..], b, now, windowMs);
      var ra, rb := RecentTimestamps(a[1..], now, windowMs), RecentTimestamps(b, now, windowMs);
      assert [a[0]] + (ra + rb) == [a[0]] + ra + rb;
    }
  }

  /** The filtered list is as long as the number of timestamps in the window. */
  lemma {:induction false} RecentCount(ts: seq<int>, now: int, windowMs: int)
    ensures |RecentTimestamps(ts, now, windowMs)| == CountInWindow(ts, now, windowMs)
  {
    if ts != [] {
      var init, last := ts[..|ts| - 1], ts[|ts| - 1];
      assert ts == init + [last];
      RecentAppend(init, [last], now, windowMs);
      RecentCount(init, now, windowMs);
    }
  }

  /** `checkRateLimit`: fewer than `requests` recorded timestamps fall within
      the window that ends at `now`. */
  predicate WithinRateLimit(cache: RateCache, agentId: string, limit: RateLimit, now: int) {
    |RecentTimestamps(Timestamps(cache, agentId), now, limit.windowMs)| < limit.requests
  }

  /** `recordRequest`: append `now` to the agent's timestamps. */
  function Record(cache: RateCache, agentId: string, now: int): RateCache {
    cache[agentId := Timestamps(cache, agentId) + [now]]
  }

  /** `evaluateAccess` as a function of the policies and the cache before the
      call: the decision and the cache after the call. */
  function Evaluate(policies: seq<Policy>, cache: RateCache, agentId: string,
                    toolName: string, level: TrustLevel, now: int): (RateCache, Decision)
  {
    var ms := MatchingPolicies(policies, agentId, toolName);
    if ms == [] then (cache, Decision(false, Some(NoMatchingPolicy), None))
    else
      match FirstEligible(ms, level)
      case None => (cache, Decision(false, Some(ConditionsNotMet), None))
      case Some(i) =>
        var p := ms[i];
        if RateLimitOf(p).Some? && !WithinRateLimit(cache, agentId, RateLimitOf(p).value, now) then
          (cache, Decision(false, Some(RateLimitExceeded), Some(p)))
        else
          (Record(cache, agentId, now), Decision(true, None, Some(p)))
  }

  class AbacPolicyEngine {
    var policies: seq<Policy>
    var rateLimitCache: RateCache

    constructor ()
      ensures policies == DefaultPolicies() && rateLimitCache == map[]
    {
      policies := [];
      rateLimitCache := map[];
      new;
      LoadDefaultPolicies();
    }

    method LoadDefaultPolicies()
      modifies this`policies
      ensures policies == DefaultPolicies()
    {
      policies := DefaultPolicies();
    }

    /** `checkRateLimit`: a read of the cache that filters stale timestamps
        into a local copy and never changes the cache. */
    function CheckRateLimit(agentId: string, limit: RateLimit, now: int): (ok: bool)
      reads this
      ensures ok <==> CountInWindow(Timestamps(rateLimitCache, agentId), now, limit.windowMs) < limit.requests
      ensures ok == WithinRateLimit(rateLimitCache, agentId, limit, now)
    {
      RecentCount(Timestamps(rateLimitCache, agentId), now, limit.windowMs);
      WithinRateLimit(rateLimitCache, agentId, limit, now)
    }

    method RecordRequest(agentId: string, now: int)
      modifies this`rateLimitCache
      ensures rateLimitCache == Record(old(rateLimitCache), agentId, now)
    {
      var timestamps := Timestamps(rateLimitCache, agentId);
      timestamps := timestamps + [now];
      rateLimitCache := rateLimitCache[agentId := timestamps];
    }

    method EvaluateAccess(agentId: string, toolName: string, level: TrustLevel, now: int)
      returns (d: Decision)
      modifies this`rateLimitCache
      ensures (rateLimitCache, d) == Evaluate(policies, old(rateLimitCache), agentId, toolName, level, now)
    {
      var matching := MatchingPolicies(policies, agentId, toolName);
      if |matching| == 0 {
        return Decision(false, Some(NoMatchingPolicy), None);
      }
      for i := 0 to |matching|
        invariant forall j :: 0 <= j < i ==> TrustExcluded(matching[j], level)
        invariant rateLimitCache == old(rateLimitCache)
      {
        var policy := matching[i];
        if policy.conditions.Some? && policy.conditions.value.trustLevel.Some? {
          if level !in policy.conditions.value.trustLevel.value {
            continue;
          }
        }
        assert FirstEligible(matching, level) == Some(i);
        if policy.conditions.Some? && policy.conditions.value.rateLimit.Some? {
          if !CheckRateLimit(agentId, policy.conditions.value.rateLimit.value, now) {
            return Decision(false, Some(RateLimitExceeded), Some(policy));
          }
        }
        RecordRequest(agentId, now);
        return Decision(true, None, Some(policy));
      }
      return Decision(false, Some(ConditionsNotMet), None);
    }

    /** `getPolicies` */
    method GetPolicies() returns (ps: seq<Policy>)
      ensures ps == policies
    {
      ps := policies;
    }
  }

  /* ----- Properties of the decision procedure ----- */

  /** A matched policy whose trust condition admits the caller. */
  predicate Applicable(p: Policy, agentId: string, toolName: string, level: TrustLevel) {
    Matches(p, agentId, toolName) && !TrustExcluded(p, level)
  }

  /** Index `k` holds the first applicable policy of the stored list. */
  predicate FirstApplicableAt(policies: seq<Policy>, agentId: string, toolName: string,
                              level: TrustLevel, k: int) {
    && 0 <= k < |policies|
    && Applicable(policies[k], agentId, toolName, level)
    && forall j :: 0 <= j < k ==> !Applicable(policies[j], agentId, toolName, level)
  }

  /** Skipping a policy that is not applicable shifts the first applicable
      index by one. */
  lemma FirstApplicableShift(policies: seq<Policy>, agentId: string, toolName: string,
                             level: TrustLevel, k: int)
    requires policies != [] && !Applicable(policies[0], agentId, toolName, level)
    requires FirstApplicableAt(policies[1..], agentId, toolName, level, k)
    ensures FirstApplicableAt(policies, agentId, toolName, level, k + 1)
  {
    forall j | 0 <= j < k + 1
      ensures !Applicable(policies[j], agentId, toolName, level)
    {
      if j > 0 { assert policies[j] == policies[1..][j - 1]; }
    }
  }

  /** One step of the filter: the head policy is kept iff it matches. */
  lemma MatchingUnfold(policies: seq<Policy>, agentId: string, toolName: string)
    requires policies != []
    ensures Matches(policies[0], agentId, toolName) ==>
      MatchingPolicies(policies, agentId, toolName)
        == [policies[0]] + MatchingPolicies(policies[1..], agentId, toolName)
    ensures !Matches(policies[0], agentId, toolName) ==>
      MatchingPolicies(policies, agentId, toolName) == MatchingPolicies(policies[1..], agentId, toolName)
  {
  }

  /** A trust-excluded head does not stop the loop. */
  lemma FirstEligibleSkip(ms: seq<Policy>, level: TrustLevel)
    requires ms != [] && TrustExcluded(ms[0], level)
    ensures FirstEligible(ms, level).None? <==> FirstEligible(ms[1..], level).None?
    ensures FirstEligible(ms[1..], level).Some? ==>
      FirstEligible(ms, level) == Some(FirstEligible(ms[1..], level).value + 1)
  {
  }

  /** The loop over the filtered list of `policies` finds nothing iff no
      stored policy is applicable, and otherwise stops at the first
      applicable one. */
  ghost predicate EligibleAgrees(policies: seq<Policy>, agentId: string, toolName: string, level: TrustLevel) {
    var ms := MatchingPolicies(policies, agentId, toolName);
    && (FirstEligible(ms, level).None? ==>
          forall k :: 0 <= k < |policies| ==> !Applicable(policies[k], agentId, toolName, level))
    && (FirstEligible(ms, level).Some? ==>
          exists k :: FirstApplicableAt(policies, agentId, toolName, level, k)
                      && ms[FirstEligible(ms, level).value] == policies[k])
  }

  /** The loop over the filtered list stops exactly at the first applicable
      policy of the stored list. */
  lemma {:induction false} FirstEligibleIsFirstApplicable(
    policies: seq<Policy>, agentId: string, toolName: string, level: TrustLevel)
    ensures var ms := MatchingPolicies(policies, agentId, toolName);
      FirstEligible(ms, level).None? ==>
        forall k :: 0 <= k < |policies| ==> !Applicable(policies[k], agentId, toolName, level)
    ensures var ms := MatchingPolicies(policies, agentId, toolName);
      FirstEligible(ms, level).Some? ==>
        exists k :: FirstApplicableAt(policies, agentId, toolName, level, k)
                    && ms[FirstEligible(ms, level).value] == policies[k]
  {
    EligibleAgreesByInduction(policies, agentId, toolName, level);
  }

  /** `EligibleAgrees`, by induction on the stored list. */
  lemma {:induction false} EligibleAgreesByInduction(
    policies: seq<Policy>, agentId: string, toolName: string, level: TrustLevel)
    ensures EligibleAgrees(policies, agentId, toolName, level)
  {
    if policies != [] {
      EligibleAgreesByInduction(policies[1..], agentId, toolName, level);
      if Applicable(policies[0], agentId, toolName, level) {
        MatchingUnfold(policies, agentId, toolName);
        assert FirstApplicableAt(policies, agentId, toolName, level, 0);
      } else {
        SkipInapplicableHead(policies, agentId, toolName, level);
      }
    }
  }

  /** A head policy that is not applicable changes nothing about where the
      loop stops, except for the shift by one. */
  lemma SkipInapplicableHead(policies: seq<Policy>, agentId: string, toolName: string, level: TrustLevel)
    requires policies != [] && !Applicable(policies[0], agentId, toolName, level)
    requires EligibleAgrees(policies[1..], agentId, toolName, level)
    ensures EligibleAgrees(policies, agentId, toolName, level)
  {
    var p0, rest := policies[0], policies[1..];
    MatchingUnfold(policies, agentId, toolName);
    var msr := MatchingPolicies(rest, agentId, toolName);
    var ms := MatchingPolicies(policies, agentId, toolName);
    if Matches(p0, agentId, toolName) {
      assert ms[1..] == msr;
      FirstEligibleSkip(ms, level);
    }
    if FirstEligible(msr, level).None? {
      forall k | 0 <= k < |policies|
        ensures !Applicable(policies[k], agentId, toolName, level)
      {
        if k > 0 { assert policies[k] == rest[k - 1]; }
      }
    } else {
      var i := FirstEligible(msr, level).value;
      var k' :| FirstApplicableAt(rest, agentId, toolName, level, k') && msr[i] == rest[k'];
      FirstApplicableShift(policies, agentId, toolName, level, k');
    }
  }

  /** There is at most one first applicable policy. */
  lemma FirstApplicableUnique(policies: seq<Policy>, agentId: string, toolName: string,
                              level: TrustLevel, k1: int, k2: int)
    requires FirstApplicableAt(policies, agentId, toolName, level, k1)
    requires FirstApplicableAt(policies, agentId, toolName, level, k2)
    ensures k1 == k2
  {
  }

  /** Tool patterns: `'*'` matches everything, `prefix*` matches exactly the
      names that start with `prefix`, and any other pattern only itself. */
  lemma ToolPatternSemantics(prefix: string, pattern: string, toolName: string)
    ensures PatternMatches("*", toolName)
    ensures PatternMatches(prefix + "*", toolName) <==> StartsWith(toolName, prefix)
    ensures (|pattern| == 0 || pattern[|pattern| - 1] != '*') ==>
              (PatternMatches(pattern, toolName) <==> pattern == toolName)
  {
    var p := prefix + "*";
    assert p[..|p| - 1] == prefix;
    if prefix == [] {
      assert p == "*";
    }
  }

  /** A policy is only ever reported, allowed or denied, when it matches both
      agent and tool and its trust condition admits the caller. */
  lemma SelectedPolicyMatches(policies: seq<Policy>, cache: RateCache, agentId: string,
                              toolName: string, level: TrustLevel, now: int)
    ensures var d := Evaluate(policies, cache, agentId, toolName, level, now).1;
      d.policy.Some? ==> d.policy.value in policies
                         && Matches(d.policy.value, agentId, toolName)
                         && !TrustExcluded(d.policy.value, level)
  {
  }

  /** No policy matches agent and tool iff the answer is "No matching policy
      found"; the cache is then unchanged. */
  lemma NoMatchingPolicyIff(policies: seq<Policy>, cache: RateCache, agentId: string,
                            toolName: string, level: TrustLevel, now: int)
    ensures var (cache', d) := Evaluate(policies, cache, agentId, toolName, level, now);
      (d.reason == Some(NoMatchingPolicy))
        <==> (forall p :: p in policies ==> !Matches(p, agentId, toolName))
    ensures (forall p :: p in policies ==> !Matches(p, agentId, toolName)) ==>
      Evaluate(policies, cache, agentId, toolName, level, now)
        == (cache, Decision(false, Some(NoMatchingPolicy), None))
  {
    var ms := MatchingPolicies(policies, agentId, toolName);
    if ms != [] {
      assert ms[0] in ms;
    }
  }

  /** Some policy matches but every matched one excludes the caller's trust
      level iff the answer is "Policy conditions not met"; nothing is then
      recorded. */
  lemma ConditionsNotMetIff(policies: seq<Policy>, cache: RateCache, agentId: string,
                            toolName: string, level: TrustLevel, now: int)
    ensures var (cache', d) := Evaluate(policies, cache, agentId, toolName, level, now);
      (d.reason == Some(ConditionsNotMet))
        <==> ((exists p :: p in policies && Matches(p, agentId, toolName))
              && forall p :: p in policies && Matches(p, agentId, toolName) ==> TrustExcluded(p, level))
    ensures var (cache', d) := Evaluate(policies, cache, agentId, toolName, level, now);
      d.reason == Some(ConditionsNotMet) ==> cache' == cache && !d.allowed && d.policy.None?
  {
    var ms := MatchingPolicies(policies, agentId, toolName);
    FirstEligibleIsFirstApplicable(policies, agentId, toolName, level);
    if ms != [] {
      assert ms[0] in ms;
    }
    if FirstEligible(ms, level).None? {
      forall p | p in policies && Matches(p, agentId, toolName)
        ensures TrustExcluded(p, level)
      {
        var k :| 0 <= k < |policies| && policies[k] == p;
        assert !Applicable(policies[k], agentId, toolName, level);
      }
    } else {
      var i := FirstEligible(ms, level).value;
      assert ms[i] in ms;
    }
  }

  /** The request is allowed iff the first applicable policy of the stored
      list has no rate limit or is under it. It is then that policy that is
      reported, and exactly one timestamp is recorded. */
  lemma AllowedIff(policies: seq<Policy>, cache: RateCache, agentId: string,
                   toolName: string, level: TrustLevel, now: int)
    ensures var (cache', d) := Evaluate(policies, cache, agentId, toolName, level, now);
      d.allowed <==> exists k ::
        && FirstApplicableAt(policies, agentId, toolName, level, k)
        && (RateLimitOf(policies[k]).None? || WithinRateLimit(cache, agentId, RateLimitOf(policies[k]).value, now))
    ensures var (cache', d) := Evaluate(policies, cache, agentId, toolName, level, now);
      d.allowed ==> cache' == Record(cache, agentId, now) && d.reason.None?
                    && exists k :: FirstApplicableAt(policies, agentId, toolName, level, k)
                                   && d.policy == Some(policies[k])
  {
    FirstEligibleIsFirstApplicable(policies, agentId, toolName, level);
    var ms := MatchingPolicies(policies, agentId, toolName);
    if FirstEligible(ms, level).Some? {
      var i := FirstEligible(ms, level).value;
      var k :| FirstApplicableAt(policies, agentId, toolName, level, k) && ms[i] == policies[k];
      forall k2 | FirstApplicableAt(policies, agentId, toolName, level, k2)
        ensures k2 == k
      {
        FirstApplicableUnique(policies, agentId, toolName, level, k, k2);
      }
    } else {
      forall k | FirstApplicableAt(policies, agentId, toolName, level, k)
        ensures false
      {
      }
    }
  }

  /** The rate limit is authoritative: the request is refused with "Rate limit
      exceeded" iff the first applicable policy has a rate limit whose window
      already holds `requests` timestamps. That policy is reported, no later
      policy is tried, and nothing is recorded. */
  lemma RateLimitDeniedIff(policies: seq<Policy>, cache: RateCache, agentId: string,
                           toolName: string, level: TrustLevel, now: int)
    ensures var (cache', d) := Evaluate(policies, cache, agentId, toolName, level, now);
      d.reason == Some(RateLimitExceeded) <==> exists k ::
        && FirstApplicableAt(policies, agentId, toolName, level, k)
        && RateLimitOf(policies[k]).Some?
        && |RecentTimestamps(Timestamps(cache, agentId), now, RateLimitOf(policies[k]).value.windowMs)|
             >= RateLimitOf(policies[k]).value.requests
    ensures var (cache', d) := Evaluate(policies, cache, agentId, toolName, level, now);
      d.reason == Some(RateLimitExceeded) ==>
        cache' == cache && !d.allowed
        && exists k :: FirstApplicableAt(policies, agentId, toolName, level, k)
                       && d.policy == Some(policies[k])
  {
    FirstEligibleIsFirstApplicable(policies, agentId, toolName, level);
    var ms := MatchingPolicies(policies, agentId, toolName);
    if FirstEligible(ms, level).Some? {
      var i := FirstEligible(ms, level).value;
      var k :| FirstApplicableAt(policies, agentId, toolName, level, k) && ms[i] == policies[k];
      forall k2 | FirstApplicableAt(policies, agentId, toolName, level, k2)
        ensures k2 == k
      {
        FirstApplicableUnique(policies, agentId, toolName, level, k, k2);
      }
    } else {
      forall k | FirstApplicableAt(policies, agentId, toolName, level, k)
        ensures false
      {
      }
    }
  }

  /** `recordRequest` appends one timestamp to this agent's list and leaves
      every other agent's list as it was. */
  lemma RecordAppendsOne(cache: RateCache, agentId: string, now: int)
    ensures Record(cache, agentId, now).Keys == cache.Keys + {agentId}
    ensures Timestamps(Record(cache, agentId, now), agentId) == Timestamps(cache, agentId) + [now]
    ensures forall a :: a != agentId ==> Timestamps(Record(cache, agentId, now), a) == Timestamps(cache, a)
  {
  }

  /** Every evaluation leaves each stored list as a prefix of its new value:
      stale timestamps are never pruned from the cache, and a denial changes
      nothing. */
  lemma CacheOnlyGrows(policies: seq<Policy>, cache: RateCache, agentId: string,
                       toolName: string, level: TrustLevel, now: int)
    ensures var (cache', d) := Evaluate(policies, cache, agentId, toolName, level, now);
      forall a :: a in cache ==> a in cache' && cache[a] <= cache'[a]
    ensures var (cache', d) := Evaluate(policies, cache, agentId, toolName, level, now);
      !d.allowed ==> cache' == cache
    ensures var (cache', d) := Evaluate(policies, cache, agentId, toolName, level, now);
      d.allowed ==> |Timestamps(cache', agentId)| == |Timestamps(cache, agentId)| + 1
  {
  }

  /** When every stored timestamp is inside the window, none is filtered out. */
  lemma {:induction false} RecentKeepsAll(ts: seq<int>, now: int, windowMs: int)
    requires forall i :: 0 <= i < |ts| ==> now - ts[i] < windowMs
    ensures RecentTimestamps(ts, now, windowMs) == ts
  {
    if ts != [] {
      RecentKeepsAll(ts[1..], now, windowMs);
    }
  }

  /* ----- The built-in policies ----- */

  /** `admin-agent` at high trust may call any tool. */
  lemma AdminFullAccess(cache: RateCache, toolName: string, now: int)
    ensures Evaluate(DefaultPolicies(), cache, "admin-agent", toolName, High, now)
         == (Record(cache, "admin-agent", now), Decision(true, None, Some(AdminPolicy)))
  {
    assert PatternMatches(AdminPolicy.tools[0], toolName);
    assert Matches(AdminPolicy, "admin-agent", toolName);
  }

  /** A name that differs from a prefix at some index of the prefix does
      not start with it. */
  lemma NotStartsWith(s: string, prefix: string, j: nat)
    requires j < |prefix| && (j >= |s| || s[j] != prefix[j])
    ensures !StartsWith(s, prefix)
  {
    if |prefix| <= |s| {
      assert s[..|prefix|][j] == s[j];
    }
  }

  /** The patterns of the built-in policies are prefix patterns. */
  lemma DefaultPatterns(toolName: string)
    ensures PatternMatches("get*", toolName) <==> StartsWith(toolName, "get")
    ensures PatternMatches("list*", toolName) <==> StartsWith(toolName, "list")
    ensures PatternMatches("describe*", toolName) <==> StartsWith(toolName, "describe")
  {
    ToolPatternSemantics("get", "", toolName);
    ToolPatternSemantics("list", "", toolName);
    ToolPatternSemantics("describe", "", toolName);
    assert "get" + "*" == "get*";
    assert "list" + "*" == "list*";
    assert "describe" + "*" == "describe*";
  }

  /** `admin-agent` at low trust is refused on a tool no other policy covers. */
  lemma AdminLowTrustRefused(cache: RateCache, now: int)
    ensures Evaluate(DefaultPolicies(), cache, "admin-agent", "sensitive-tool", Low, now)
         == (cache, Decision(false, Some(ConditionsNotMet), None))
  {
    var t := "sensitive-tool";
    DefaultPatterns(t);
    NotStartsWith(t, "get", 0);
    NotStartsWith(t, "list", 0);
    NotStartsWith(t, "describe", 0);
    assert PatternMatches(AdminPolicy.tools[0], t);
    assert Matches(AdminPolicy, "admin-agent", t);
    assert !MatchesTool(ReadOnlyPolicy, t);
    assert !MatchesTool(DefaultAgentPolicy, t);
    assert MatchingPolicies(DefaultPolicies(), "admin-agent", t) == [AdminPolicy];
  }

  /** `readonly-agent` at medium trust may list tools. */
  lemma ReadOnlyMayList(cache: RateCache, now: int)
    requires |Timestamps(cache, "readonly-agent")| < 100
    ensures Evaluate(DefaultPolicies(), cache, "readonly-agent", "listTools", Medium, now).1.allowed
  {
    DefaultPatterns("listTools");
    assert "listTools"[..4] == "list";
    assert PatternMatches(ReadOnlyPolicy.tools[1], "listTools");
    assert Matches(ReadOnlyPolicy, "readonly-agent", "listTools");
    assert !MatchesAgent(AdminPolicy, "readonly-agent");
    assert MatchingPolicies(DefaultPolicies(), "readonly-agent", "listTools")[0] == ReadOnlyPolicy;
  }

  /** `readonly-agent` has no policy for `deleteData`. */
  lemma ReadOnlyMayNotDelete(cache: RateCache, now: int)
    ensures Evaluate(DefaultPolicies(), cache, "readonly-agent", "deleteData", Medium, now)
         == (cache, Decision(false, Some(NoMatchingPolicy), None))
  {
    var t := "deleteData";
    assert !MatchesAgent(AdminPolicy, "readonly-agent");
    DefaultPatterns(t);
    NotStartsWith(t, "get", 0);
    NotStartsWith(t, "list", 0);
    NotStartsWith(t, "describe", 2);
    assert !MatchesTool(ReadOnlyPolicy, t);
    assert !MatchesTool(DefaultAgentPolicy, t);
    NoMatchingPolicyIff(DefaultPolicies(), cache, "readonly-agent", t, Medium, now);
  }

  /** Any agent other than the three named ones, at medium trust, on `getTool`,
      is governed by the default policy alone and its 50-per-minute limit. */
  lemma DefaultAgentGetTool(agentId: string, cache: RateCache, now: int)
    requires agentId != "admin-agent" && agentId != "operator-agent" && agentId != "readonly-agent"
    ensures var recent := RecentTimestamps(Timestamps(cache, agentId), now, 60000);
      Evaluate(DefaultPolicies(), cache, agentId, "getTool", Medium, now)
        == if |recent| < 50 then (Record(cache, agentId, now), Decision(true, None, Some(DefaultAgentPolicy)))
           else (cache, Decision(false, Some(RateLimitExceeded), Some(DefaultAgentPolicy)))
  {
    assert !MatchesAgent(AdminPolicy, agentId);
    assert !MatchesAgent(ReadOnlyPolicy, agentId);
    DefaultPatterns("getTool");
    assert "getTool"[..3] == "get";
    assert PatternMatches(DefaultAgentPolicy.tools[0], "getTool");
    assert Matches(DefaultAgentPolicy, agentId, "getTool");
    assert MatchingPolicies(DefaultPolicies(), agentId, "getTool") == [DefaultAgentPolicy];
  }

  /** The rate-limit scenario of the engine's unit test: from a fresh engine,
      50 `getTool` calls by `test-agent` at medium trust within one minute are
      allowed and the 51st is refused with "Rate limit exceeded". */
  method DefaultRateLimitScenario(times: seq<int>) returns (decisions: seq<Decision>)
    requires |times| == 51
    requires forall i, j :: 0 <= i <= j < |times| ==> times[i] <= times[j]
    requires times[50] - times[0] < 60000
    ensures |decisions| == 51
    ensures forall i :: 0 <= i < 50 ==> decisions[i] == Decision(true, None, Some(DefaultAgentPolicy))
    ensures decisions[50] == Decision(false, Some(RateLimitExceeded), Some(DefaultAgentPolicy))
  {
    var engine := new AbacPolicyEngine();
    decisions := [];
    for i := 0 to 51
      invariant engine.policies == DefaultPolicies()
      invariant Timestamps(engine.rateLimitCache, "test-agent") == times[..if i <= 50 then i else 50]
      invariant |decisions| == i
      invariant forall j :: 0 <= j < i && j < 50 ==> decisions[j] == Decision(true, None, Some(DefaultAgentPolicy))
      invariant i == 51 ==> decisions[50] == Decision(false, Some(RateLimitExceeded), Some(DefaultAgentPolicy))
    {
      var stored := Timestamps(engine.rateLimitCache, "test-agent");
      RecentKeepsAll(stored, times[i], 60000);
      DefaultAgentGetTool("test-agent", engine.rateLimitCache, times[i]);
      var d := engine.EvaluateAccess("test-agent", "getTool", Medium, times[i]);
      if i < 50 {
        assert times[..i + 1] == times[..i] + [times[i]];
      }
      decisions := decisions + [d];
    }
  }
}
