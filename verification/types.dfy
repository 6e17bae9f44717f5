/** The part of the gubernator client API the plugin uses: the request it
    builds, the per-request response it reads and the outcome of one
    batched `GetRateLimits` call. The service behind the call is not part
    of this model. */
module Gubernator {
  import opened GoInt

  /** `gubernator.Second`: the service's native duration unit per second.
      Its value is not part of this model; only that it is a positive
      int64. */
  type TimeUnit = x: int | 0 < x <= MaxInt64 witness 1

  /** Only the leaky-bucket algorithm is ever requested. */
  datatype Algorithm = LeakyBucket

  /** The behaviour bitflags, kept symbolic: the two expressions main.go
      builds are `Behavior_GLOBAL | Behavior_DRAIN_OVER_LIMIT` (rule
      requests) and `Behavior_GLOBAL & Behavior_DRAIN_OVER_LIMIT` (the
      global request). Their numeric values are not modelled; keeping them
      as two distinct constructors assumes the two expressions differ, which
      holds whenever the two flags differ (`a | b == a & b` only when
      `a == b`). */
  datatype Behavior = GlobalOrDrainOverLimit | GlobalAndDrainOverLimit

  datatype RateLimitReq = RateLimitReq(
    name: string,
    uniqueKey: string,
    hits: Int64,
    limit: Int64,
    duration: Int64,
    algorithm: Algorithm,
    behavior: Behavior)

  datatype Status = UnderLimit | OverLimit

  datatype RateLimitResp = RateLimitResp(status: Status, remaining: Int64)

  /** The outcome of one `GetRateLimits` call: a transport error, or one
      response per request sent. */
  datatype CheckResult =
    | CheckError(message: string)
    | CheckOk(responses: seq<RateLimitResp>)
}

/** The plugin's own configuration and the batch it derives from it. */
module PluginConfig {
  import opened GoInt
  import opened Gubernator

  /** One per-header limit. `limit < 0` disables the rule. */
  datatype ThrottleRule = ThrottleRule(
    name: string,
    headerName: string,
    keyPrefix: string,
    limit: Int64,
    durationSeconds: Int64,
    limitType: string)

  /** The per-route plugin configuration. `globalLimit < 0` disables the
      global limit. `message` only feeds an informational header, which is
      not modelled. */
  datatype Config = Config(
    message: string,
    globalLimit: Int64,
    globalDurationSeconds: Int64,
    rules: seq<ThrottleRule>)

  /** The batch built for one inbound request: `all` is what the check call
      sends; `requests` and `tokens` are the subsets by limit type. */
  datatype RequestsByType = RequestsByType(
    requests: seq<RateLimitReq>,
    tokens: seq<RateLimitReq>,
    all: seq<RateLimitReq>)

  const EmptyBatch: RequestsByType := RequestsByType([], [], [])

  const RequestsType: string := "REQUESTS"
  const TokensType: string := "TOKENS"
}
