/** Rule evaluation: `Config.genRateLimitReq` in main.go. It turns the
    configured rules, the optional global limit and the request's header
    and route lookups into a batch of check requests, or fails as a whole
    when an enabled rule's header is missing or empty. */
module RuleEval {
  import opened Options
  import opened GoInt
  import opened Seqs
  import opened Gubernator
  import opened PluginConfig

  /** The request's headers as `GetHeader` sees them: a name that is not a
      key is a lookup error. */
  type Headers = map<string, string>

  predicate Enabled(rule: ThrottleRule) {
    rule.limit >= 0
  }

  predicate IsRequestsRule(rule: ThrottleRule) {
    Enabled(rule) && rule.limitType == RequestsType
  }

  predicate IsTokensRule(rule: ThrottleRule) {
    Enabled(rule) && rule.limitType == TokensType
  }

  function Lookup(headers: Headers, name: string): Option<string> {
    if name in headers then Some(headers[name]) else None
  }

  /** The lookup of the rule's header succeeded with a non-empty value. */
  predicate HeaderUsable(rule: ThrottleRule, headers: Headers) {
    rule.headerName in headers && |headers[rule.headerName]| > 0
  }

  /** An enabled rule whose header cannot be used voids the whole batch. */
  predicate Voids(rule: ThrottleRule, headers: Headers) {
    Enabled(rule) && !HeaderUsable(rule, headers)
  }

  function HeaderValue(rule: ThrottleRule, headers: Headers): string {
    if rule.headerName in headers then headers[rule.headerName] else ""
  }

  /** `fmt.Sprintf("%s:%s", prefix, value)`. */
  function UniqueKey(prefix: string, value: string): string {
    prefix + ":" + value
  }

  /** `int64(seconds) * gubernator.Second`, wrapping on overflow. */
  function Duration(seconds: Int64, second: TimeUnit): Int64 {
    Wrap64(seconds * second)
  }

  /** The check request one enabled rule contributes. */
  function RuleRequest(rule: ThrottleRule, value: string, second: TimeUnit): RateLimitReq {
    RateLimitReq(
      rule.name, UniqueKey(rule.keyPrefix, value), 0, rule.limit,
      Duration(rule.durationSeconds, second), LeakyBucket, GlobalOrDrainOverLimit)
  }

  /** `route.Id` when the route lookup succeeds, the empty string otherwise. */
  function RouteKey(route: Option<string>): string {
    match route
    case Some(id) => id
    case None => ""
  }

  function GlobalRequest(conf: Config, route: Option<string>, second: TimeUnit): RateLimitReq {
    RateLimitReq(
      "global", UniqueKey("global", RouteKey(route)), 0, conf.globalLimit,
      Duration(conf.globalDurationSeconds, second), LeakyBucket, GlobalAndDrainOverLimit)
  }

  /** The global request, when the global limit is enabled. */
  function GlobalRequests(conf: Config, route: Option<string>, second: TimeUnit): seq<RateLimitReq> {
    if conf.globalLimit >= 0 then [GlobalRequest(conf, route, second)] else []
  }

  /** Files `req` at the front of `batch`: always in `all`, and in the
      subset its limit type names, if any. */
  function Prepend(req: RateLimitReq, limitType: string, batch: RequestsByType): RequestsByType {
    RequestsByType(
      if limitType == RequestsType then [req] + batch.requests else batch.requests,
      if limitType == TokensType then [req] + batch.tokens else batch.tokens,
      [req] + batch.all)
  }

  /** The rule loop of `genRateLimitReq`: the per-rule part of the batch, or
      `None` as soon as an enabled rule's header is missing or empty.
      Prepending to the batch of the remaining rules yields the same
      sequences as main.go's in-order appends. */
  function EvalRules(rules: seq<ThrottleRule>, headers: Headers, second: TimeUnit): (r: Option<RequestsByType>)
    ensures r.None? <==> exists i :: 0 <= i < |rules| && Voids(rules[i], headers)
    ensures r.Some? ==> |r.value.all| == |Filter(rules, Enabled)|
    decreases |rules|
  {
    if |rules| == 0 then Some(EmptyBatch)
    else
      var rule := rules[0];
      assert forall i :: 1 <= i < |rules| ==> rules[i] == rules[1..][i - 1];
      if !Enabled(rule) then EvalRules(rules[1..], headers, second)
      else if !HeaderUsable(rule, headers) then None
      else
        match EvalRules(rules[1..], headers, second)
        case None => None
        case Some(rest) =>
          Some(Prepend(RuleRequest(rule, HeaderValue(rule, headers), second), rule.limitType, rest))
  }

  /** The pair `(RequestsByType, bool)` that `genRateLimitReq` returns. */
  datatype Evaluation = Evaluation(batch: RequestsByType, ok: bool)

  /** `genRateLimitReq`: the batch succeeds exactly when every enabled rule
      has a usable header, and a failure carries no partial batch. */
  function GenRateLimitReq(conf: Config, headers: Headers, route: Option<string>, second: TimeUnit): (e: Evaluation)
    ensures e.ok <==> forall i :: 0 <= i < |conf.rules| && Enabled(conf.rules[i]) ==> HeaderUsable(conf.rules[i], headers)
    ensures !e.ok ==> e.batch == EmptyBatch
  {
    match EvalRules(conf.rules, headers, second)
    case None => Evaluation(EmptyBatch, false)
    case Some(b) => Evaluation(b.(requests := b.requests + GlobalRequests(conf, route, second)), true)
  }

  // ---------------------------------------------------------------------
  // Reference definition: each subset is a map over a filter of the rules.
  // ---------------------------------------------------------------------

  /** One rule request per rule, in rule order. */
  function RuleRequests(rules: seq<ThrottleRule>, headers: Headers, second: TimeUnit): (reqs: seq<RateLimitReq>)
    ensures |reqs| == |rules|
  {
    seq(|rules|, i requires 0 <= i < |rules| => RuleRequest(rules[i], HeaderValue(rules[i], headers), second))
  }

  lemma RuleRequestsCons(rule: ThrottleRule, rules: seq<ThrottleRule>, headers: Headers, second: TimeUnit)
    ensures RuleRequests([rule] + rules, headers, second)
         == [RuleRequest(rule, HeaderValue(rule, headers), second)] + RuleRequests(rules, headers, second)
  {
  }

  /** The batch the rules contribute, stated without the single pass:
      `all` is one request per enabled rule, `requests` and `tokens` one per
      enabled rule of that limit type, each in rule order. */
  function ExpectedRuleBatch(rules: seq<ThrottleRule>, headers: Headers, second: TimeUnit): RequestsByType {
    RequestsByType(
      RuleRequests(Filter(rules, IsRequestsRule), headers, second),
      RuleRequests(Filter(rules, IsTokensRule), headers, second),
      RuleRequests(Filter(rules, Enabled), headers, second))
  }

  lemma {:induction false} EvalRulesMatchesReference(rules: seq<ThrottleRule>, headers: Headers, second: TimeUnit)
    requires EvalRules(rules, headers, second).Some?
    ensures EvalRules(rules, headers, second).value == ExpectedRuleBatch(rules, headers, second)
    decreases |rules|
  {
    if |rules| > 0 {
      var rule := rules[0];
      var tail := rules[1..];
      EvalRulesMatchesReference(tail, headers, second);
      if Enabled(rule) {
        RuleRequestsCons(rule, Filter(tail, Enabled), headers, second);
        if rule.limitType == RequestsType {
          RuleRequestsCons(rule, Filter(tail, IsRequestsRule), headers, second);
        }
        if rule.limitType == TokensType {
          RuleRequestsCons(rule, Filter(tail, IsTokensRule), headers, second);
        }
      }
    }
  }

  /** On success the whole batch equals the reference: the subsets of the
      enabled rules, and `requests` followed by the global request when the
      global limit is enabled. */
  lemma GenRateLimitReqShape(conf: Config, headers: Headers, route: Option<string>, second: TimeUnit)
    requires GenRateLimitReq(conf, headers, route, second).ok
    ensures var b := GenRateLimitReq(conf, headers, route, second).batch;
      && b.all == RuleRequests(Filter(conf.rules, Enabled), headers, second)
      && b.tokens == RuleRequests(Filter(conf.rules, IsTokensRule), headers, second)
      && b.requests == RuleRequests(Filter(conf.rules, IsRequestsRule), headers, second)
                       + GlobalRequests(conf, route, second)
  {
    EvalRulesMatchesReference(conf.rules, headers, second);
  }

  /** Sizes of the subsets. `all` counts only the enabled rules: the global
      request is not part of it. */
  lemma BatchSizes(conf: Config, headers: Headers, route: Option<string>, second: TimeUnit)
    requires GenRateLimitReq(conf, headers, route, second).ok
    ensures var b := GenRateLimitReq(conf, headers, route, second).batch;
      && |b.all| == |Filter(conf.rules, Enabled)|
      && |b.tokens| == |Filter(conf.rules, IsTokensRule)|
      && |b.requests| == |Filter(conf.rules, IsRequestsRule)| + (if conf.globalLimit >= 0 then 1 else 0)
  {
    GenRateLimitReqShape(conf, headers, route, second);
  }

  /** Each request of `all` is built from the enabled rule at the same
      position: key `prefix:value` from the rule's header, zero hits, the
      rule's limit and the rule's duration converted to the service unit. */
  lemma RuleRequestFields(conf: Config, headers: Headers, route: Option<string>, second: TimeUnit)
    requires GenRateLimitReq(conf, headers, route, second).ok
    ensures var b := GenRateLimitReq(conf, headers, route, second).batch;
      var enabled := Filter(conf.rules, Enabled);
      && |b.all| == |enabled|
      && forall i :: 0 <= i < |b.all| ==>
           && enabled[i].headerName in headers
           && b.all[i].name == enabled[i].name
           && b.all[i].uniqueKey == enabled[i].keyPrefix + ":" + headers[enabled[i].headerName]
           && b.all[i].hits == 0
           && b.all[i].limit == enabled[i].limit
           && b.all[i].duration == Wrap64(enabled[i].durationSeconds * second)
           && b.all[i].algorithm == LeakyBucket
  {
    GenRateLimitReqShape(conf, headers, route, second);
    var enabled := Filter(conf.rules, Enabled);
    forall i | 0 <= i < |enabled|
      ensures enabled[i].headerName in headers
    {
      assert enabled[i] in enabled;
      var j :| 0 <= j < |conf.rules| && conf.rules[j] == enabled[i];
    }
  }

  /** The global request: added last to `requests` exactly when the global
      limit is enabled, keyed by the route id (empty when the route lookup
      fails), and never among the requests the check call sends. */
  lemma GlobalRequestPlacement(conf: Config, headers: Headers, route: Option<string>, second: TimeUnit)
    requires GenRateLimitReq(conf, headers, route, second).ok
    ensures var b := GenRateLimitReq(conf, headers, route, second).batch;
      var g := GlobalRequest(conf, route, second);
      && (conf.globalLimit >= 0 ==>
            && |b.requests| > 0
            && b.requests[|b.requests| - 1] == g
            && g.name == "global"
            && g.uniqueKey == "global:" + RouteKey(route)
            && g.hits == 0
            && g.limit == conf.globalLimit)
      && (conf.globalLimit < 0 ==> g !in b.requests)
      && g !in b.all
  {
    GenRateLimitReqShape(conf, headers, route, second);
    var b := GenRateLimitReq(conf, headers, route, second).batch;
    var g := GlobalRequest(conf, route, second);
    assert forall x :: x in b.all ==> x.behavior == GlobalOrDrainOverLimit;
    if conf.globalLimit < 0 {
      assert forall x :: x in b.requests ==> x.behavior == GlobalOrDrainOverLimit;
    }
  }

  /** Every request of the batch asks for zero hits: the check is a peek. */
  lemma CheckedRequestsHaveZeroHits(conf: Config, headers: Headers, route: Option<string>, second: TimeUnit)
    requires GenRateLimitReq(conf, headers, route, second).ok
    ensures var b := GenRateLimitReq(conf, headers, route, second).batch;
      && (forall x :: x in b.all ==> x.hits == 0)
      && (forall x :: x in b.requests ==> x.hits == 0)
      && (forall x :: x in b.tokens ==> x.hits == 0)
  {
    GenRateLimitReqShape(conf, headers, route, second);
  }

  // ---------------------------------------------------------------------
  // Disabled rules are never consulted.
  // ---------------------------------------------------------------------

  lemma {:induction false} EvalRulesIgnoresDisabled(rules: seq<ThrottleRule>, headers: Headers, second: TimeUnit)
    ensures EvalRules(Filter(rules, Enabled), headers, second) == EvalRules(rules, headers, second)
    decreases |rules|
  {
    if |rules| > 0 {
      var tail := rules[1..];
      EvalRulesIgnoresDisabled(tail, headers, second);
      if Enabled(rules[0]) {
        var f := Filter(rules, Enabled);
        assert f == [rules[0]] + Filter(tail, Enabled);
        assert f[0] == rules[0] && f[1..] == Filter(tail, Enabled);
      }
    }
  }

  /** Dropping the disabled rules from the configuration changes nothing. */
  lemma DisabledRulesIrrelevant(conf: Config, headers: Headers, route: Option<string>, second: TimeUnit)
    ensures GenRateLimitReq(conf.(rules := Filter(conf.rules, Enabled)), headers, route, second)
         == GenRateLimitReq(conf, headers, route, second)
  {
    EvalRulesIgnoresDisabled(conf.rules, headers, second);
  }

  /** Two header maps that agree on the headers of the enabled rules. */
  predicate AgreeOnEnabled(rules: seq<ThrottleRule>, h1: Headers, h2: Headers) {
    forall i :: 0 <= i < |rules| && Enabled(rules[i]) ==>
      Lookup(h1, rules[i].headerName) == Lookup(h2, rules[i].headerName)
  }

  lemma {:induction false} EvalRulesReadsOnlyEnabledHeaders(rules: seq<ThrottleRule>, h1: Headers, h2: Headers, second: TimeUnit)
    requires AgreeOnEnabled(rules, h1, h2)
    ensures EvalRules(rules, h1, second) == EvalRules(rules, h2, second)
    decreases |rules|
  {
    if |rules| > 0 {
      var tail := rules[1..];
      assert forall i :: 0 <= i < |tail| ==> tail[i] == rules[i + 1];
      assert AgreeOnEnabled(tail, h1, h2) by {
        forall i | 0 <= i < |tail| && Enabled(tail[i])
          ensures Lookup(h1, tail[i].headerName) == Lookup(h2, tail[i].headerName)
        {
          assert tail[i] == rules[i + 1];
        }
      }
      EvalRulesReadsOnlyEnabledHeaders(tail, h1, h2, second);
      if Enabled(rules[0]) {
        assert Lookup(h1, rules[0].headerName) == Lookup(h2, rules[0].headerName);
      }
    }
  }

  /** The headers of disabled rules are never consulted: the evaluation
      depends on the headers of the enabled rules only, so a disabled
      rule can never make it fail. */
  lemma DisabledHeadersNeverConsulted(conf: Config, h1: Headers, h2: Headers, route: Option<string>, second: TimeUnit)
    requires AgreeOnEnabled(conf.rules, h1, h2)
    ensures GenRateLimitReq(conf, h1, route, second) == GenRateLimitReq(conf, h2, route, second)
  {
    EvalRulesReadsOnlyEnabledHeaders(conf.rules, h1, h2, second);
  }

  /** Different header values under the same prefix never share a bucket,
      and equal ones always do. */
  lemma {:induction false} UniqueKeyInjective(prefix: string, v1: string, v2: string)
    ensures UniqueKey(prefix, v1) == UniqueKey(prefix, v2) <==> v1 == v2
  {
    if UniqueKey(prefix, v1) == UniqueKey(prefix, v2) {
      var n := |prefix| + 1;
      assert v1 == UniqueKey(prefix, v1)[n..];
      assert v2 == UniqueKey(prefix, v2)[n..];
    }
  }
}
