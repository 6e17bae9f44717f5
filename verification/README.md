# Kong gubernator plugin: admission model

A Dafny model of the admission logic of the kong-gubernator plugin
(`main.go`). The plugin sits in front of a gubernator rate-limiting service.
For each inbound request it does four things:

1. It evaluates the configured throttle rules and the optional global
   limit against the request's headers and route. The result is a batch
   of check requests (`genRateLimitReq`).
2. It sends the batch in one `GetRateLimits` check call.
3. It turns the responses into 400, 500, 429 or "proceed" (`Access`).
4. On "proceed" it commits one hit per request of the REQUESTS subset
   (`consume`).

Modules:

- `Options`, `GoInt`, `Seqs` (base.dfy) hold three helpers. `Option` models
  Go's `(value, err)` lookups. `Int64` and `Wrap64` model Go's `int64` and
  its silent wrap-around. `Filter` takes the subsequence of elements that
  pass a predicate.
- `Gubernator` (types.dfy) holds the client-side wire types:
  `RateLimitReq`, `RateLimitResp`, `Status`, and `CheckResult`, which is
  either a transport error or a list of responses. The behaviour flags are
  kept symbolic.
- `PluginConfig` (types.dfy) holds `ThrottleRule`, `Config` and
  `RequestsByType`.
- `RuleEval` (evaluate.dfy) models `genRateLimitReq` as `EvalRules` and
  `GenRateLimitReq`. It also gives a reference definition of the batch:
  each subset is a map over a filter of the rules. Lemmas connect the
  reference to the single pass.
- `Admission` (admission.dfy) models the response loop (`Admit`),
  `consume` (`Consume`) and `Access`. `Access` returns a trace of three
  things: the batch sent to the check call, the verdict, and the batch the
  commit sends.
- `Scenarios` (scenarios.dfy) works through examples with one REQUESTS
  rule keyed by a client-id header.

The environment becomes explicit inputs:

- Headers are a `map<string, string>`. A name that is not a key stands
  for a `GetHeader` error.
- The route lookup is an `Option<string>`.
- The check call is a total function from the batch sent to its
  `CheckResult`.
- `gubernator.Second` is a parameter of type `TimeUnit`, a positive int64.

One would expect `all` to include the global request, so that
`|all| == enabled rules + (1 if the global limit is enabled)`. main.go:208
appends it to `Requests` only, never to `All`. The model follows the code:

- `BatchSizes` proves `|all|` equals the number of enabled rules.
- `GlobalRequestPlacement` and `AccessChecksRuleRequestsOnly` prove the
  global request is never checked.
- `GlobalLimitIrrelevantToDecision` shows the consequence for all inputs.
  Changing the global limit, its duration or the route lookup changes
  neither the check batch nor the verdict. When the global limit is
  enabled (`globalLimit >= 0`), the global request is committed on every
  admission. It never takes part in a decision.
- `GlobalLimitNeverDenies` is one instance: a global limit of zero with no
  enabled rules.

## Model

| member | source | states |
|---|---|---|
| GoInt.Wrap64 | main.go:189 | the duration product is the int64 congruent to the mathematical product modulo 2^64, and equals it when it fits |
| RuleEval.EvalRules | main.go:178-201 | the rule loop fails exactly when some enabled rule's header lookup errs or yields an empty value; on success `all` has one entry per enabled rule |
| RuleEval.GenRateLimitReq | main.go:171-219 | evaluation succeeds iff every enabled rule has a usable header; a failure returns the empty batch, never a partial one |
| RuleEval.EvalRulesMatchesReference | main.go:178-201 | the single pass equals the reference: `all`, `requests` and `tokens` are the rule requests of the enabled rules, of the enabled REQUESTS rules and of the enabled TOKENS rules, in rule order |
| RuleEval.GenRateLimitReqShape | main.go:171-219 | on success `all` and `tokens` hold the requests of the matching enabled rules; `requests` holds those of the REQUESTS rules followed by the global request when the global limit is enabled |
| RuleEval.BatchSizes | main.go:193-216 | `all` counts the enabled rules only; `tokens` the enabled TOKENS rules; `requests` the enabled REQUESTS rules plus one when the global limit is enabled |
| RuleEval.RuleRequestFields | main.go:184-193 | the i-th request of `all` comes from the i-th enabled rule: key `prefix:headerValue`, zero hits, the rule's limit, duration `seconds * Second` wrapped to int64, leaky bucket |
| RuleEval.GlobalRequestPlacement | main.go:203-216 | with the global limit enabled the global request comes last in `requests`, named `global`, keyed `global:` + route id (empty on lookup failure), zero hits, the global limit; with it disabled it is absent; it is never in `all` |
| RuleEval.CheckedRequestsHaveZeroHits | main.go:184-216 | every request in every subset asks for zero hits |
| RuleEval.EvalRulesIgnoresDisabled | main.go:178-201 | the rule loop gives the same result on the enabled rules alone |
| RuleEval.DisabledRulesIrrelevant | main.go:178-201 | removing the disabled rules from the configuration leaves the evaluation unchanged |
| RuleEval.EvalRulesReadsOnlyEnabledHeaders | main.go:179-183 | two header maps that agree on the enabled rules' headers give the same rule-loop result |
| RuleEval.DisabledHeadersNeverConsulted | main.go:179-183 | the evaluation depends only on the headers of enabled rules, so a disabled rule can never cause a failure |
| RuleEval.UniqueKeyInjective | main.go:186 | under one prefix two header values share a key iff they are equal |
| Admission.Admit | main.go:110-115 | the response loop admits iff no response is OVER_LIMIT or has `Remaining < hits`; an empty list admits |
| Admission.AdmitSplits | main.go:110-115 | a concatenated response list is admitted iff each part is (worst case wins) |
| Admission.Consume | main.go:162-165 | the sent requests are the given ones, same length and order, each with `Hits` set and every other field unchanged |
| Admission.ConsumeRoundTrip | main.go:162-165 | setting hits back to their former common value undoes `Consume` |
| Admission.Access | main.go:88-121 | no check call happens exactly when the verdict is 400; a commit happens exactly when the request proceeds |
| Admission.AccessRejectsMissingHeader | main.go:100-102 | the verdict is 400 iff some enabled rule's header is missing or empty, and then nothing is checked or committed |
| Admission.AccessChecksRuleRequestsOnly | main.go:105-107 | the check call sends exactly the enabled rules' requests in rule order and never the global request |
| Admission.AccessDecision | main.go:109-119 | after the check: a transport error gives 500 with the error text as body; any exceeding response gives 429; the request proceeds iff the call succeeded and no response exceeds with one hit |
| Admission.EmptyResponsesAdmit | main.go:109-116 | a successful check with no responses lets the request proceed |
| Admission.AccessCommit | main.go:116 | on proceed the commit sends the REQUESTS rules' requests then the global request, all with one hit; with hits reset to zero they are the checked `requests` subset; TOKENS rules are never committed |
| Admission.GlobalLimitIrrelevantToDecision | main.go:100-119 | for every configuration and request, changing the global limit, its duration or the route lookup changes neither the batch sent to the check call nor the verdict |
| Admission.GlobalLimitNeverDenies | main.go:203-216 | with global limit 0 and no enabled rules, the check sends an empty batch; if that check answers with no responses the request proceeds and the global request is committed |
| Scenarios.IpLimitKeyed | main.go:178-199 | header `x-client-id: abc` under prefix `ip` gives key `ip:abc`, one request in `requests`, none in `tokens` |
| Scenarios.IpLimitHeaderAbsent | main.go:100-102 | without the header the verdict is 400, with no check call and no commit |
| Scenarios.IpLimitHeaderEmpty | main.go:181-182 | an empty header value is treated as missing and gives 400 |
| Scenarios.IpLimitOverLimit | main.go:110-113 | an OVER_LIMIT response gives 429 and no commit |
| Scenarios.IpLimitExhausted | main.go:111 | an UNDER_LIMIT response with zero remaining still gives 429 |
| Scenarios.IpLimitAdmitted | main.go:109-116 | a response with room lets the request proceed and commits `ip:abc` with one hit |

## Left out

- `main` and `setupThrottlingDaemon` (main.go:52-86) are left out. They are
  process bootstrap: flag parsing, config-file I/O, daemon spawn and gRPC
  dial.
- The gubernator service behind `GetRateLimits` is a foreign system. Its
  leaky-bucket accounting is not modelled; its answer is an input.
- The `go consume(...)` detachment is left out. So is any ordering between
  concurrent commits, and so is the commit call's discarded result. The
  model records only the batch the commit sends.
- The `host` header read, the `x-hello-from-go` header, the `message`
  default and the `x-gubernation-latency` header are informational Kong
  calls with no effect on the decision. `time.Now` goes with them.
- `DummyResponse` / `processResponse` (main.go:123-160) are left out: the
  body of `processResponse` is commented out.
- Only the symbolic form of the behaviour flags is kept. The values of
  `Behavior_*`, `Algorithm_*` and `gubernator.Second` are not visible, so
  nothing is claimed about what `Behavior_GLOBAL & Behavior_DRAIN_OVER_LIMIT`
  evaluates to. The model does assume that the rule requests'
  `GLOBAL | DRAIN_OVER_LIMIT` differs from the global request's
  `GLOBAL & DRAIN_OVER_LIMIT`. This holds whenever the two flags differ.
  `RuleEval.GlobalRequestPlacement` uses the assumption for `g !in all`.
  A rule named `global` with key prefix `global`, whose header value equals
  the route id and whose limit and duration match the global ones, builds
  a request that differs from the global one only in this field.
- Go's `int` is taken to be 64 bits wide. On that target the `int64(...)`
  conversions are the identity. 32-bit targets are not modelled.
- Kong's header lookup ignores case and treats `_` and `-` in header
  names alike. The model uses plain map keys.
- The pointer sharing between `all` and `requests` is not modelled.
  `consume` writes `Hits` through shared pointers, so it also changes the
  entries of `all`. `all` has already been sent by then, so only the
  committed values are modelled.
- `RuleEval.EvalRules` prepends to the batch of the remaining rules instead
  of appending in a loop. The sequences are the same, and so is the
  all-or-nothing failure. Which rule's lookup is done first has no
  observable effect once lookups are values.
