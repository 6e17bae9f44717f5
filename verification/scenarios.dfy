/** Worked examples: one REQUESTS rule keyed by a client-id header, with the
    global limit disabled. */
module Scenarios {
  import opened Options
  import opened Gubernator
  import opened PluginConfig
  import opened RuleEval
  import opened Admission

  const IpLimit: ThrottleRule := ThrottleRule("ip-limit", "x-client-id", "ip", 10, 60, RequestsType)

  const IpConfig: Config := Config("", -1, 0, [IpLimit])

  /** The header value becomes the bucket key; the request is counted in
      `requests` and not in `tokens`. */
  lemma IpLimitKeyed(route: Option<string>, second: TimeUnit)
    ensures var e := GenRateLimitReq(IpConfig, map["x-client-id" := "abc"], route, second);
      && e.ok
      && |e.batch.all| == 1
      && e.batch.all[0].uniqueKey == "ip:abc"
      && e.batch.requests == e.batch.all
      && e.batch.tokens == []
  {
    var headers := map["x-client-id" := "abc"];
    assert [IpLimit][1..] == [];
    assert EvalRules(IpConfig.rules, headers, second)
        == Some(Prepend(RuleRequest(IpLimit, "abc", second), RequestsType, EmptyBatch));
  }

  /** Without the header the request is rejected with 400 and the check
      service is never called. */
  lemma IpLimitHeaderAbsent(route: Option<string>, second: TimeUnit, check: seq<RateLimitReq> -> CheckResult)
    ensures Access(IpConfig, map[], route, second, check) == AccessTrace(None, Reject(StatusBadRequest, ""), None)
  {
  }

  /** An empty header value counts as missing. */
  lemma IpLimitHeaderEmpty(route: Option<string>, second: TimeUnit, check: seq<RateLimitReq> -> CheckResult)
    ensures Access(IpConfig, map["x-client-id" := ""], route, second, check).verdict == Reject(StatusBadRequest, "")
  {
  }

  /** An over-limit answer for the sole request denies with 429 and commits
      nothing. */
  lemma IpLimitOverLimit(route: Option<string>, second: TimeUnit, check: seq<RateLimitReq> -> CheckResult)
    requires forall reqs :: check(reqs) == CheckOk([RateLimitResp(OverLimit, 3)])
    ensures var t := Access(IpConfig, map["x-client-id" := "abc"], route, second, check);
      t.verdict == Reject(StatusTooManyRequests, "") && t.committed == None
  {
  }

  /** An under-limit answer with no units left also denies. */
  lemma IpLimitExhausted(route: Option<string>, second: TimeUnit, check: seq<RateLimitReq> -> CheckResult)
    requires forall reqs :: check(reqs) == CheckOk([RateLimitResp(UnderLimit, 0)])
    ensures Access(IpConfig, map["x-client-id" := "abc"], route, second, check).verdict
         == Reject(StatusTooManyRequests, "")
  {
  }

  /** An under-limit answer with room admits the request and commits its one
      request with a single hit. */
  lemma IpLimitAdmitted(route: Option<string>, second: TimeUnit, check: seq<RateLimitReq> -> CheckResult)
    requires forall reqs :: check(reqs) == CheckOk([RateLimitResp(UnderLimit, 9)])
    ensures var t := Access(IpConfig, map["x-client-id" := "abc"], route, second, check);
      && t.verdict == Proceed
      && t.committed.Some?
      && |t.committed.value| == 1
      && t.committed.value[0].uniqueKey == "ip:abc"
      && t.committed.value[0].hits == 1
  {
    IpLimitKeyed(route, second);
  }
}
