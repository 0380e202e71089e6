/** Per-message options: what a message requests, what a consumer group fills in, and the bounds it clamps to.
    Durations are integers in nanoseconds; a zero field is unset. */
module MessageOptions {
  import opened Concurrency
  import opened Wrappers

  const SECOND := 1_000_000_000
  const MINUTE := 60 * SECOND

  datatype RetryPolicy = RetryPolicy(maxRetries: int, maxDelays: int, baseDelay: int, maxDelay: int, exponent: int)

  const UNSET_RETRY := RetryPolicy(0, 0, 0, 0, 0)

  const DEFAULT_RETRY := RetryPolicy(6, 0, SECOND, 5 * MINUTE, 2)

  datatype MessageOptions = MessageOptions(
    concurrency: ConcurrencyPolicy, timeout: int, retry: Option<RetryPolicy>, scheduledAt: int)

  const UNSET_OPTIONS := MessageOptions(Unset, 0, None, 0)

  // ---- Fill, Clamp, ResolveConcurrency ----

  function Or<T>(o: Option<T>, default: T): T {
    if o.Some? then o.value else default
  }

  function FillInt(value: int, default: int): int {
    if value == 0 then default else value
  }

  function FillPolicy(policy: Option<RetryPolicy>, defaults: Option<RetryPolicy>): Option<RetryPolicy> {
    if policy.None? && defaults.None? then None
    else
      var p, d := Or(policy, UNSET_RETRY), Or(defaults, UNSET_RETRY);
      Some(RetryPolicy(
             FillInt(p.maxRetries, d.maxRetries),
             FillInt(p.maxDelays, d.maxDelays),
             FillInt(p.baseDelay, d.baseDelay),
             FillInt(p.maxDelay, d.maxDelay),
             FillInt(p.exponent, d.exponent)))
  }

  function Fill(o: Option<MessageOptions>, defaults: Option<MessageOptions>): Option<MessageOptions> {
    if o.None? && defaults.None? then None
    else
      var filled, d := Or(o, UNSET_OPTIONS), Or(defaults, UNSET_OPTIONS);
      Some(MessageOptions(
             if filled.concurrency.Unset? then d.concurrency else filled.concurrency,
             FillInt(filled.timeout, d.timeout),
             FillPolicy(filled.retry, d.retry),
             filled.scheduledAt))
  }

  function ClampInt(value: int, minimum: int, maximum: int): int {
    var raised := if minimum > 0 && value < minimum then minimum else value;
    if maximum > 0 && raised > maximum then maximum else raised
  }

  function ClampPolicy(policy: Option<RetryPolicy>, minimum: Option<RetryPolicy>, maximum: Option<RetryPolicy>)
    : Option<RetryPolicy>
  {
    match policy
    case None => None
    case Some(p) =>
      var lo, hi := Or(minimum, UNSET_RETRY), Or(maximum, UNSET_RETRY);
      Some(RetryPolicy(
             ClampInt(p.maxRetries, lo.maxRetries, hi.maxRetries),
             ClampInt(p.maxDelays, lo.maxDelays, hi.maxDelays),
             ClampInt(p.baseDelay, lo.baseDelay, hi.baseDelay),
             ClampInt(p.maxDelay, lo.maxDelay, hi.maxDelay),
             ClampInt(p.exponent, lo.exponent, hi.exponent)))
  }

  function Clamp(o: Option<MessageOptions>, minimum: Option<MessageOptions>, maximum: Option<MessageOptions>)
    : Option<MessageOptions>
  {
    match o
    case None => None
    case Some(options) =>
      var lo, hi := Or(minimum, UNSET_OPTIONS), Or(maximum, UNSET_OPTIONS);
      Some(options.(
           timeout := ClampInt(options.timeout, lo.timeout, hi.timeout),
           retry := ClampPolicy(options.retry, lo.retry, hi.retry)))
  }

  function ResolveConcurrency(o: Option<MessageOptions>, override: ConcurrencyPolicy): MessageOptions {
    var resolved := Or(o, UNSET_OPTIONS);
    if !override.Unset? then resolved.(concurrency := override)
    else if resolved.concurrency.Unset? then resolved.(concurrency := Parallel)
    else resolved
  }

  /** What a consumer group resolves a message's requested options to. */
  function ResolveMessageOptions(group: GroupConfig, requested: Option<MessageOptions>): MessageOptions {
    ResolveConcurrency(
      Clamp(Fill(requested, group.message), group.messageMin, group.messageMax), group.concurrencyOverride)
  }

  // ---- Defaults and validation ----

  function PolicyWithDefaults(policy: Option<RetryPolicy>): RetryPolicy {
    match policy
    case None => DEFAULT_RETRY
    case Some(p) =>
      RetryPolicy(
        FillInt(p.maxRetries, DEFAULT_RETRY.maxRetries),
        p.maxDelays,
        FillInt(p.baseDelay, DEFAULT_RETRY.baseDelay),
        FillInt(p.maxDelay, DEFAULT_RETRY.maxDelay),
        FillInt(p.exponent, DEFAULT_RETRY.exponent))
  }

  /** A consumer's Message defaults: 30s, and 3 retries over the default curve. */
  function OptionsWithDefaults(o: Option<MessageOptions>): MessageOptions {
    var options := Or(o, UNSET_OPTIONS);
    var retry := Or(options.retry, UNSET_RETRY);
    options.(
    timeout := FillInt(options.timeout, 30 * SECOND),
    retry := Some(PolicyWithDefaults(Some(retry.(maxRetries := FillInt(retry.maxRetries, 3))))))
  }

  predicate ValidSparsePolicy(p: RetryPolicy) {
    && p.maxRetries >= 0 && p.maxDelays >= 0 && p.baseDelay >= 0 && p.maxDelay >= 0
    && !(p.baseDelay > 0 && p.maxDelay > 0 && p.maxDelay < p.baseDelay)
    && p.exponent >= 0
  }

  predicate ValidOptions(o: Option<MessageOptions>) {
    o.Some? ==> o.value.timeout >= 0 && (o.value.retry.Some? ==> ValidSparsePolicy(o.value.retry.value))
  }

  /** The options a consumer group declares, in the fields its messages are resolved against. */
  datatype GroupConfig = GroupConfig(
    message: Option<MessageOptions>,
    messageMin: Option<MessageOptions>,
    messageMax: Option<MessageOptions>,
    concurrencyOverride: ConcurrencyPolicy)
  {
    /** Ceilings always exist after defaulting: MessageMax falls back to Message, less its concurrency. */
    function WithDefaults(): GroupConfig {
      var m := OptionsWithDefaults(message);
      this.(message := Some(m), messageMax := Fill(messageMax, Some(m.(concurrency := Unset))))
    }
  }
}
