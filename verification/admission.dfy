/** The admission decision of `Config.Access` and the commit preparation of
    `consume` in main.go. The Kong calls become values: the header and
    route lookups are inputs, the check call is a function from the batch
    sent to its result, and the response the plugin sets is a `Verdict`. */
module Admission {
  import opened Options
  import opened GoInt
  import opened Seqs
  import opened Gubernator
  import opened PluginConfig
  import opened RuleEval

  /** `hits := int64(1)` in `Access`: each admitted request costs one unit. */
  const Hits: Int64 := 1

  const StatusBadRequest: int := 400
  const StatusTooManyRequests: int := 429
  const StatusInternalError: int := 500

  /** A response that denies a request about to apply `hits` units. */
  predicate Exceeds(res: RateLimitResp, hits: int) {
    res.status == OverLimit || res.remaining < hits
  }

  /** The response loop of `Access`: it stops at the first response that
      exceeds and admits when none does, the empty list included. */
  function Admit(responses: seq<RateLimitResp>, hits: int): (allow: bool)
    ensures allow <==> forall j :: 0 <= j < |responses| ==> !Exceeds(responses[j], hits)
    decreases |responses|
  {
    if |responses| == 0 then true
    else if Exceeds(responses[0], hits) then false
    else
      assert forall j :: 1 <= j < |responses| ==> responses[j] == responses[1..][j - 1];
      Admit(responses[1..], hits)
  }

  /** The most restrictive rule wins: a batch is admitted exactly when each
      of its parts is. */
  lemma {:induction false} AdmitSplits(a: seq<RateLimitResp>, b: seq<RateLimitResp>, hits: int)
    ensures Admit(a + b, hits) == (Admit(a, hits) && Admit(b, hits))
  {
    assert forall j :: 0 <= j < |a| ==> (a + b)[j] == a[j];
    assert forall j :: 0 <= j < |b| ==> (a + b)[|a| + j] == b[j];
  }

  /** `consume` before its call: every request carries `hits`, and nothing
      else about it changes. */
  function Consume(hits: Int64, reqs: seq<RateLimitReq>): (sent: seq<RateLimitReq>)
    ensures |sent| == |reqs|
    ensures forall i :: 0 <= i < |reqs| ==> sent[i] == reqs[i].(hits := hits)
    decreases |reqs|
  {
    if |reqs| == 0 then []
    else [reqs[0].(hits := hits)] + Consume(hits, reqs[1..])
  }

  /** Setting the hits back to what the requests carried before undoes
      `Consume`: the commit and the check name the same buckets. */
  lemma ConsumeRoundTrip(h0: Int64, hits: Int64, reqs: seq<RateLimitReq>)
    requires forall x :: x in reqs ==> x.hits == h0
    ensures Consume(h0, Consume(hits, reqs)) == reqs
  {
  }

  /** What the plugin tells Kong: short-circuit with a status (and, for a
      transport error, the error text as body), or let the request through. */
  datatype Verdict = Reject(status: int, body: string) | Proceed

  /** What one `Access` call does: the batch it sends to the check call (if
      any), the verdict, and the batch the detached `consume` sends (if
      any). */
  datatype AccessTrace = AccessTrace(
    checked: Option<seq<RateLimitReq>>,
    verdict: Verdict,
    committed: Option<seq<RateLimitReq>>)

  /** `Config.Access`. A failed evaluation short-circuits with 400 before any
      check call; a check error gives 500; a denying response gives 429;
      otherwise the request proceeds and the `requests` subset is committed
      with one hit each. */
  function Access(conf: Config, headers: Headers, route: Option<string>, second: TimeUnit,
                  check: seq<RateLimitReq> -> CheckResult): (t: AccessTrace)
    ensures t.checked.None? <==> t.verdict == Reject(StatusBadRequest, "")
    ensures t.committed.Some? <==> t.verdict == Proceed
  {
    var e := GenRateLimitReq(conf, headers, route, second);
    if !e.ok then AccessTrace(None, Reject(StatusBadRequest, ""), None)
    else
      var sent := e.batch.all;
      match check(sent)
      case CheckError(message) => AccessTrace(Some(sent), Reject(StatusInternalError, message), None)
      case CheckOk(responses) =>
        if Admit(responses, Hits) then AccessTrace(Some(sent), Proceed, Some(Consume(Hits, e.batch.requests)))
        else AccessTrace(Some(sent), Reject(StatusTooManyRequests, ""), None)
  }

  /** 400 exactly when some enabled rule's header is missing or empty; then
      no check call is made and nothing is committed. */
  lemma AccessRejectsMissingHeader(conf: Config, headers: Headers, route: Option<string>, second: TimeUnit,
                                   check: seq<RateLimitReq> -> CheckResult)
    ensures var t := Access(conf, headers, route, second, check);
      && (t.verdict == Reject(StatusBadRequest, "") <==> exists i :: 0 <= i < |conf.rules| && Voids(conf.rules[i], headers))
      && (t.verdict == Reject(StatusBadRequest, "") ==> t.checked.None? && t.committed.None?)
  {
  }

  /** The check call sends one request per enabled rule, in rule order, and
      never the global request. */
  lemma AccessChecksRuleRequestsOnly(conf: Config, headers: Headers, route: Option<string>, second: TimeUnit,
                                     check: seq<RateLimitReq> -> CheckResult)
    ensures var t := Access(conf, headers, route, second, check);
      t.checked.Some? ==>
        && t.checked.value == RuleRequests(Filter(conf.rules, Enabled), headers, second)
        && GlobalRequest(conf, route, second) !in t.checked.value
  {
    if GenRateLimitReq(conf, headers, route, second).ok {
      GenRateLimitReqShape(conf, headers, route, second);
      GlobalRequestPlacement(conf, headers, route, second);
    }
  }

  /** The decision once the check call was made: 500 with the error text on
      a transport error; 429 when some response is over the limit or has
      fewer than one unit left; otherwise proceed. */
  lemma AccessDecision(conf: Config, headers: Headers, route: Option<string>, second: TimeUnit,
                       check: seq<RateLimitReq> -> CheckResult)
    requires Access(conf, headers, route, second, check).checked.Some?
    ensures var t := Access(conf, headers, route, second, check);
      var res := check(t.checked.value);
      && (res.CheckError? ==> t.verdict == Reject(StatusInternalError, res.message))
      && (res.CheckOk? && (exists j :: 0 <= j < |res.responses| && Exceeds(res.responses[j], Hits)) ==>
            t.verdict == Reject(StatusTooManyRequests, ""))
      && (t.verdict == Proceed <==>
            res.CheckOk? && forall j :: 0 <= j < |res.responses| ==> !Exceeds(res.responses[j], Hits))
  {
  }

  /** An empty response list admits the request. */
  lemma EmptyResponsesAdmit(conf: Config, headers: Headers, route: Option<string>, second: TimeUnit,
                            check: seq<RateLimitReq> -> CheckResult)
    requires GenRateLimitReq(conf, headers, route, second).ok
    requires check(GenRateLimitReq(conf, headers, route, second).batch.all) == CheckOk([])
    ensures Access(conf, headers, route, second, check).verdict == Proceed
  {
  }

  /** On admission the commit sends the `requests` subset, the REQUESTS
      rules followed by the global request, with one hit each; the TOKENS
      rules are never committed. */
  lemma AccessCommit(conf: Config, headers: Headers, route: Option<string>, second: TimeUnit,
                     check: seq<RateLimitReq> -> CheckResult)
    requires Access(conf, headers, route, second, check).verdict == Proceed
    ensures var t := Access(conf, headers, route, second, check);
      var committed := RuleRequests(Filter(conf.rules, IsRequestsRule), headers, second)
                       + GlobalRequests(conf, route, second);
      && t.committed == Some(Consume(Hits, committed))
      && Consume(0, t.committed.value) == committed
      && forall x :: x in t.committed.value ==> x.hits == Hits
  {
    GenRateLimitReqShape(conf, headers, route, second);
    CheckedRequestsHaveZeroHits(conf, headers, route, second);
    var b := GenRateLimitReq(conf, headers, route, second).batch;
    ConsumeRoundTrip(0, Hits, b.requests);
  }

  /** The global limit never takes part in the decision: whatever the
      global limit, its duration and the route lookup, `Access` sends the
      same check batch and reaches the same verdict. The global request is
      only ever committed, and only when the global limit is enabled. */
  lemma GlobalLimitIrrelevantToDecision(conf: Config, headers: Headers, route: Option<string>, second: TimeUnit,
                                        check: seq<RateLimitReq> -> CheckResult,
                                        limit: Int64, duration: Int64, route2: Option<string>)
    ensures var t := Access(conf, headers, route, second, check);
      var t2 := Access(conf.(globalLimit := limit, globalDurationSeconds := duration), headers, route2, second, check);
      t.checked == t2.checked && t.verdict == t2.verdict
  {
  }

  /** An instance of the above: a global limit of zero with no enabled
      rules sends an empty check batch, and when that check answers with no
      responses the request proceeds and only the global request is
      committed. */
  lemma GlobalLimitNeverDenies(conf: Config, headers: Headers, route: Option<string>, second: TimeUnit,
                               check: seq<RateLimitReq> -> CheckResult)
    requires conf.globalLimit == 0
    requires forall i :: 0 <= i < |conf.rules| ==> !Enabled(conf.rules[i])
    requires check([]) == CheckOk([])
    ensures var t := Access(conf, headers, route, second, check);
      && t.checked == Some([])
      && t.verdict == Proceed
      && t.committed == Some([GlobalRequest(conf, route, second).(hits := Hits)])
  {
    FilterNone(conf.rules, Enabled);
    FilterNone(conf.rules, IsRequestsRule);
    GenRateLimitReqShape(conf, headers, route, second);
    var g := GlobalRequest(conf, route, second);
    assert GenRateLimitReq(conf, headers, route, second).batch.requests == [g];
    assert Consume(Hits, [g]) == [g.(hits := Hits)];
  }
}
