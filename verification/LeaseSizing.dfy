/** Why a claim's lease is long enough for every message of the range it covers. */
module LeaseSizing {
  import opened Concurrency
  import opened Int64
  import opened MessageOptions
  import Backoff = Retry
  import opened Wrappers

  /** The margins of a message consumer, and the shutdown budget it declares (0: none). */
  datatype Margins = Margins(timeoutGrace: int, queueMargin: int, recordMargin: int, shutdownTimeout: int)

  /** A group as a runner sees it: resolved to defaults, Message and MessageMax validated. */
  predicate Resolved(declared: GroupConfig, group: GroupConfig) {
    group == declared.WithDefaults() && ValidOptions(group.message) && ValidOptions(group.messageMax)
  }

  function Field(o: Option<MessageOptions>): MessageOptions {
    Or(o, UNSET_OPTIONS)
  }

  function PolicyOf(o: Option<MessageOptions>): RetryPolicy {
    Or(Field(o).retry, UNSET_RETRY)
  }

  // ---- Ceilings always exist, and hold ----

  lemma CeilingExists(declared: GroupConfig, group: GroupConfig)
    requires Resolved(declared, group)
    ensures group.messageMax.Some? && group.messageMax.value.timeout > 0 && group.messageMax.value.retry.Some?
  {
  }

  /** Whatever a message asks for, even out of any range, its run is never longer than the group's ceiling. */
  lemma TimeoutIsCapped(declared: GroupConfig, group: GroupConfig, requested: Option<MessageOptions>)
    requires Resolved(declared, group)
    ensures ResolveMessageOptions(group, requested).timeout <= group.messageMax.value.timeout
  {
    CeilingExists(declared, group);
  }

  /** validateMessageBounds: MessageMin <= Message <= MessageMax in every bounded field. */
  predicate BoundsOrdered(lo: int, value: int, hi: int) {
    lo <= value <= hi
  }

  predicate ValidBounds(group: GroupConfig) {
    var m, lo, hi := PolicyOf(group.message), PolicyOf(group.messageMin), PolicyOf(group.messageMax);
    && BoundsOrdered(Field(group.messageMin).timeout, Field(group.message).timeout, Field(group.messageMax).timeout)
    && BoundsOrdered(lo.maxRetries, m.maxRetries, hi.maxRetries)
    && BoundsOrdered(lo.baseDelay, m.baseDelay, hi.baseDelay)
    && BoundsOrdered(lo.maxDelay, m.maxDelay, hi.maxDelay)
    && BoundsOrdered(lo.exponent, m.exponent, hi.exponent)
  }

  /** A resolved value respects a floor that is set and a ceiling. */
  predicate Within(value: int, lo: int, hi: int) {
    (lo > 0 ==> value >= lo) && value <= hi
  }

  lemma ClampedWithin(value: int, lo: int, hi: int)
    requires lo <= hi && hi > 0
    ensures Within(ClampInt(value, lo, hi), lo, hi)
  {
  }

  /** Of a validated group every message resolves inside the bounds: timeout, retries, base, cap and exponent. */
  lemma ResolvesWithinBounds(declared: GroupConfig, group: GroupConfig, requested: Option<MessageOptions>)
    requires Resolved(declared, group) && ValidBounds(group)
    ensures var o := ResolveMessageOptions(group, requested);
            var lo, hi := PolicyOf(group.messageMin), PolicyOf(group.messageMax);
            && Within(o.timeout, Field(group.messageMin).timeout, Field(group.messageMax).timeout)
            && o.retry.Some?
            && Within(o.retry.value.maxRetries, lo.maxRetries, hi.maxRetries)
            && Within(o.retry.value.baseDelay, lo.baseDelay, hi.baseDelay)
            && Within(o.retry.value.maxDelay, lo.maxDelay, hi.maxDelay)
            && Within(o.retry.value.exponent, lo.exponent, hi.exponent)
  {
    CeilingExists(declared, group);
    var lo, hi := PolicyOf(group.messageMin), PolicyOf(group.messageMax);
    var filled := Fill(requested, group.message);
    assert filled.Some? && filled.value.retry.Some?;
    var f := filled.value.retry.value;
    ClampedWithin(filled.value.timeout, Field(group.messageMin).timeout, Field(group.messageMax).timeout);
    ClampedWithin(f.maxRetries, lo.maxRetries, hi.maxRetries);
    ClampedWithin(f.baseDelay, lo.baseDelay, hi.baseDelay);
    ClampedWithin(f.maxDelay, lo.maxDelay, hi.maxDelay);
    ClampedWithin(f.exponent, lo.exponent, hi.exponent);
  }

  /** What becomes of one field: unset takes the group's default, a value inside the bounds stands, and one
      outside them moves to the bound it crossed. */
  predicate Honours(resolved: int, requested: int, default: int, lo: int, hi: int) {
    if requested == 0 then resolved == default
    else if Within(requested, lo, hi) then resolved == requested
    else resolved == if requested > hi then hi else lo
  }

  lemma FieldIsHonoured(requested: int, default: int, lo: int, hi: int)
    requires BoundsOrdered(lo, default, hi) && hi > 0
    ensures Honours(ClampInt(FillInt(requested, default), lo, hi), requested, default, lo, hi)
  {
  }

  /** A validated group changes what a message asks for no more than its bounds make it; the scheduled time passes
      through, and the concurrency is the group's override, or the message's, or the default, or parallel. */
  lemma RequestsAreHonoured(declared: GroupConfig, group: GroupConfig, requested: Option<MessageOptions>)
    requires Resolved(declared, group) && ValidBounds(group)
    ensures var o := ResolveMessageOptions(group, requested);
            var asked, m := PolicyOf(requested), PolicyOf(group.message);
            var lo, hi := PolicyOf(group.messageMin), PolicyOf(group.messageMax);
            && Honours(o.timeout, Field(requested).timeout, Field(group.message).timeout,
                       Field(group.messageMin).timeout, Field(group.messageMax).timeout)
            && o.retry.Some?
            && Honours(o.retry.value.maxRetries, asked.maxRetries, m.maxRetries, lo.maxRetries, hi.maxRetries)
            && Honours(o.retry.value.baseDelay, asked.baseDelay, m.baseDelay, lo.baseDelay, hi.baseDelay)
            && Honours(o.retry.value.maxDelay, asked.maxDelay, m.maxDelay, lo.maxDelay, hi.maxDelay)
            && Honours(o.retry.value.exponent, asked.exponent, m.exponent, lo.exponent, hi.exponent)
            && o.scheduledAt == Field(requested).scheduledAt
            && !o.concurrency.Unset?
            && o.concurrency in {
                 group.concurrencyOverride, Field(requested).concurrency, Field(group.message).concurrency, Parallel}
            && (!group.concurrencyOverride.Unset? ==> o.concurrency == group.concurrencyOverride)
            && (group.concurrencyOverride.Unset? && !Field(requested).concurrency.Unset? ==>
                  o.concurrency == Field(requested).concurrency)
            && (group.concurrencyOverride.Unset? && Field(requested).concurrency.Unset? ==>
                  o.concurrency == if Field(group.message).concurrency.Unset? then Parallel
                                   else Field(group.message).concurrency)
  {
    CeilingExists(declared, group);
    var asked, m := PolicyOf(requested), PolicyOf(group.message);
    var lo, hi := PolicyOf(group.messageMin), PolicyOf(group.messageMax);
    assert Fill(requested, group.message).value.retry.Some?;
    FieldIsHonoured(
      Field(requested).timeout, Field(group.message).timeout,
      Field(group.messageMin).timeout, Field(group.messageMax).timeout);
    FieldIsHonoured(asked.maxRetries, m.maxRetries, lo.maxRetries, hi.maxRetries);
    FieldIsHonoured(asked.baseDelay, m.baseDelay, lo.baseDelay, hi.baseDelay);
    FieldIsHonoured(asked.maxDelay, m.maxDelay, lo.maxDelay, hi.maxDelay);
    FieldIsHonoured(asked.exponent, m.exponent, lo.exponent, hi.exponent);
  }

  // ---- The one bound that is not enforced ----

  /** How many handler-requested delays a resolved MaxDelays admits; 0 caps nothing. */
  predicate AdmitsDelays(maxDelays: int, n: nat) {
    maxDelays == 0 || n <= maxDelays
  }

  /** A ceiling on MaxDelays binds exactly when the message, the group's default or a floor sets the field:
      left unset everywhere it stays 0, which is no cap, under any ceiling. */
  lemma DelayCeilingBinds(declared: GroupConfig, group: GroupConfig, requested: Option<MessageOptions>)
    requires Resolved(declared, group) && ValidOptions(requested) && ValidOptions(group.messageMin)
    requires PolicyOf(group.messageMax).maxDelays > 0
    ensures var o := ResolveMessageOptions(group, requested);
            var ceiling := PolicyOf(group.messageMax).maxDelays;
            o.retry.Some? &&
            ((forall n: nat :: AdmitsDelays(o.retry.value.maxDelays, n) ==> n <= ceiling) <==>
             PolicyOf(requested).maxDelays != 0 || PolicyOf(group.message).maxDelays != 0 ||
             PolicyOf(group.messageMin).maxDelays != 0)
  {
    CeilingExists(declared, group);
    var o := ResolveMessageOptions(group, requested);
    var hi := PolicyOf(group.messageMax).maxDelays;
    assert o.retry.value.maxDelays == 0 ==> AdmitsDelays(o.retry.value.maxDelays, hi + 1);
    assert Fill(requested, group.message).value.retry.Some?;
  }

  /** A concrete group: a ceiling of two delays, and a message that may still be delayed a third time. */
  lemma DelayCeilingMissed()
    ensures var ceiling := UNSET_OPTIONS.(retry := Some(UNSET_RETRY.(maxDelays := 2)));
            var declared := GroupConfig(None, None, Some(ceiling), Unset);
            var group := declared.WithDefaults();
            Resolved(declared, group) && ValidBounds(group) &&
            AdmitsDelays(ResolveMessageOptions(group, None).retry.value.maxDelays, 3)
  {
  }

  // ---- Whether a resolved retry policy is well formed ----

  /** The delay cap a message is left with, as asked for or defaulted and raised to its floor, reaches the base it
      is left with: the base asked for or defaulted and its floor, or else the ceiling on the base. */
  predicate CapReachesBase(group: GroupConfig, requested: Option<MessageOptions>) {
    var asked, m := PolicyOf(requested), PolicyOf(group.message);
    var lo, hi := PolicyOf(group.messageMin), PolicyOf(group.messageMax);
    var base, wanted := FillInt(asked.baseDelay, m.baseDelay), FillInt(asked.maxDelay, m.maxDelay);
    var cap := if wanted < lo.maxDelay then lo.maxDelay else wanted;
    (base <= cap && lo.baseDelay <= cap) || hi.baseDelay <= cap
  }

  /** The retry policy of a message is resolved field by field. */
  lemma RetryIsFieldwise(group: GroupConfig, requested: Option<MessageOptions>)
    requires Fill(requested, group.message).Some? && Fill(requested, group.message).value.retry.Some?
    ensures var asked, m := PolicyOf(requested), PolicyOf(group.message);
            var lo, hi := PolicyOf(group.messageMin), PolicyOf(group.messageMax);
            ResolveMessageOptions(group, requested).retry == Some(RetryPolicy(
              ClampInt(FillInt(asked.maxRetries, m.maxRetries), lo.maxRetries, hi.maxRetries),
              ClampInt(FillInt(asked.maxDelays, m.maxDelays), lo.maxDelays, hi.maxDelays),
              ClampInt(FillInt(asked.baseDelay, m.baseDelay), lo.baseDelay, hi.baseDelay),
              ClampInt(FillInt(asked.maxDelay, m.maxDelay), lo.maxDelay, hi.maxDelay),
              ClampInt(FillInt(asked.exponent, m.exponent), lo.exponent, hi.exponent)))
  {
  }

  /** In a validated group a valid request resolves to a well-formed policy exactly when the cap reaches the base:
      each field is resolved by itself, so a request for one of the two can leave them in the wrong order. */
  lemma ResolvedPolicyIsWellFormed(declared: GroupConfig, group: GroupConfig, requested: Option<MessageOptions>)
    requires Resolved(declared, group) && ValidBounds(group) && Backoff.WellFormed(PolicyOf(group.message))
    requires ValidOptions(group.messageMin) && ValidOptions(requested)
    ensures var o := ResolveMessageOptions(group, requested);
            o.retry.Some? && (Backoff.WellFormed(o.retry.value) <==> CapReachesBase(group, requested))
  {
    CeilingExists(declared, group);
    RetryIsFieldwise(group, requested);
  }

  /** A request that sets neither delay, or both without floors, is always well formed. */
  lemma PlainRequestsAreWellFormed(declared: GroupConfig, group: GroupConfig, requested: Option<MessageOptions>)
    requires Resolved(declared, group) && ValidBounds(group) && Backoff.WellFormed(PolicyOf(group.message))
    requires ValidOptions(group.messageMin) && ValidOptions(requested)
    requires var asked := PolicyOf(requested);
             || (asked.baseDelay == 0 && asked.maxDelay == 0)
             || (asked.baseDelay != 0 && asked.maxDelay != 0 && PolicyOf(group.messageMin).baseDelay == 0)
    ensures var o := ResolveMessageOptions(group, requested);
            o.retry.Some? && Backoff.WellFormed(o.retry.value)
  {
    ResolvedPolicyIsWellFormed(declared, group, requested);
  }

  /** A concrete group and request: a base of 5s over a cap of 2s. */
  lemma BaseAboveCap()
    ensures var message := UNSET_OPTIONS.(retry := Some(UNSET_RETRY.(baseDelay := SECOND, maxDelay := 2 * SECOND)));
            var high := UNSET_RETRY.(baseDelay := 10 * SECOND, maxDelay := 20 * SECOND);
            var ceiling := UNSET_OPTIONS.(retry := Some(high));
            var declared := GroupConfig(Some(message), None, Some(ceiling), Unset);
            var group := declared.WithDefaults();
            var requested := Some(UNSET_OPTIONS.(retry := Some(UNSET_RETRY.(baseDelay := 5 * SECOND))));
            var o := ResolveMessageOptions(group, requested);
            && Resolved(declared, group) && ValidBounds(group) && Backoff.WellFormed(PolicyOf(group.message))
            && ValidOptions(requested)
            && o.retry.Some? && o.retry.value.baseDelay == 5 * SECOND && o.retry.value.maxDelay == 2 * SECOND
            && !Backoff.WellFormed(o.retry.value)
  {
  }

  // ---- Leases ----

  /** The margins are int64 durations, validated to be positive. */
  predicate ValidMargins(m: Margins) {
    0 < m.timeoutGrace <= MAX_INT64 && 0 < m.queueMargin <= MAX_INT64 && 0 < m.recordMargin <= MAX_INT64
  }

  function Ceiling(group: GroupConfig): int {
    Field(group.messageMax).timeout
  }

  /** What a run of some timeout needs: the run, the unwinding of a cancelled handler, recording the outcome. */
  function Needs(timeout: int, m: Margins): int {
    timeout + m.timeoutGrace + m.recordMargin
  }

  /** The lease a claim should have, and the one the unguarded sum gives it. */
  function LeaseSum(group: GroupConfig, m: Margins): int {
    Needs(Ceiling(group), m) + m.queueMargin
  }

  function LeaseDuration(group: GroupConfig, m: Margins): int {
    Wrap(LeaseSum(group, m))
  }

  /** processClaim leaves the message unresolved: the rest of the lease is below the unguarded sum. */
  predicate Stale(expiresAt: int, now: int, o: MessageOptions, m: Margins) {
    Sub(expiresAt, now) < Wrap(Needs(o.timeout, m))
  }

  /** A delivery that keeps to its timeout, grace and record margin. */
  predicate Keeps(o: MessageOptions, m: Margins, run: int, record: int) {
    0 <= run <= o.timeout + m.timeoutGrace && 0 <= record <= m.recordMargin
  }

  predicate EndsBy(expiresAt: int, start: int, run: int, record: int) {
    start + run + record <= expiresAt
  }

  /** Whatever a delivery that keeps to its bounds takes, its outcome is recorded while the lease is held. */
  ghost predicate Covered(expiresAt: int, start: int, o: MessageOptions, m: Margins) {
    forall run, record :: Keeps(o, m, run, record) ==> EndsBy(expiresAt, start, run, record)
  }

  lemma CoveredMeansLongEnough(expiresAt: int, start: int, o: MessageOptions, m: Margins)
    requires ValidMargins(m)
    ensures start + Needs(o.timeout, m) <= expiresAt ==> Covered(expiresAt, start, o, m)
    ensures o.timeout >= 0 && Covered(expiresAt, start, o, m) ==> start + Needs(o.timeout, m) <= expiresAt
  {
    if o.timeout >= 0 {
      assert Keeps(o, m, o.timeout + m.timeoutGrace, m.recordMargin);
    }
  }

  /** The staleness test starts exactly the messages whose delivery is covered. */
  ghost predicate TestIsRight(expiresAt: int, start: int, o: MessageOptions, m: Margins) {
    !Stale(expiresAt, start, o, m) <==> Covered(expiresAt, start, o, m)
  }

  /** The staleness test is right at all times exactly when what the message needs is an int64. */
  lemma StalenessIsExact(o: MessageOptions, m: Margins)
    requires ValidMargins(m) && 0 <= o.timeout <= MAX_INT64
    ensures (forall expiresAt, start :: TestIsRight(expiresAt, start, o, m)) <==> Needs(o.timeout, m) <= MAX_INT64
  {
    forall expiresAt, start ensures Needs(o.timeout, m) <= MAX_INT64 ==> TestIsRight(expiresAt, start, o, m) {
      CoveredMeansLongEnough(expiresAt, start, o, m);
    }
    var wrapped := Wrap(Needs(o.timeout, m));
    CoveredMeansLongEnough(wrapped, 0, o, m);
    assert TestIsRight(wrapped, 0, o, m) ==> Needs(o.timeout, m) <= MAX_INT64;
  }

  /** A message dispatched within the queue margin of a fresh claim is started, and covered. */
  ghost predicate FreshIsCovered(
    group: GroupConfig, m: Margins, requested: Option<MessageOptions>, claimedAt: int, now: int)
  {
    var o := ResolveMessageOptions(group, requested);
    var expiresAt := claimedAt + LeaseDuration(group, m);
    IsInt64(Field(requested).timeout) && claimedAt <= now <= claimedAt + m.queueMargin ==>
      !Stale(expiresAt, now, o, m) && Covered(expiresAt, now, o, m)
  }

  lemma ResolvedTimeout(declared: GroupConfig, group: GroupConfig, requested: Option<MessageOptions>)
    requires Resolved(declared, group)
    ensures Field(requested).timeout >= 0 ==> 0 <= ResolveMessageOptions(group, requested).timeout
    ensures IsInt64(Field(requested).timeout) ==> MIN_INT64 <= ResolveMessageOptions(group, requested).timeout
    ensures ResolveMessageOptions(group, requested).timeout <= Ceiling(group)
    ensures Field(requested).timeout == Ceiling(group) ==>
              ResolveMessageOptions(group, requested).timeout == Ceiling(group)
  {
    CeilingExists(declared, group);
  }

  /** The lease is long enough for every message, whatever it asks for, exactly when its sum is an int64. */
  lemma LeaseIsLongEnough(declared: GroupConfig, group: GroupConfig, m: Margins)
    requires Resolved(declared, group) && ValidMargins(m) && Ceiling(group) <= MAX_INT64
    ensures (forall requested, claimedAt, now :: FreshIsCovered(group, m, requested, claimedAt, now)) <==>
            LeaseSum(group, m) <= MAX_INT64
  {
    CeilingExists(declared, group);
    if LeaseSum(group, m) <= MAX_INT64 {
      forall requested, claimedAt, now ensures FreshIsCovered(group, m, requested, claimedAt, now) {
        FreshOne(declared, group, m, requested, claimedAt, now);
      }
    } else {
      var longest := Some(UNSET_OPTIONS.(timeout := Ceiling(group)));
      ResolvedTimeout(declared, group, longest);
      CoveredMeansLongEnough(LeaseDuration(group, m), m.queueMargin, ResolveMessageOptions(group, longest), m);
      assert !FreshIsCovered(group, m, longest, 0, m.queueMargin);
    }
  }

  lemma FreshOne(
    declared: GroupConfig, group: GroupConfig, m: Margins, requested: Option<MessageOptions>, claimedAt: int, now: int)
    requires Resolved(declared, group) && ValidMargins(m) && LeaseSum(group, m) <= MAX_INT64
    ensures FreshIsCovered(group, m, requested, claimedAt, now)
  {
    if IsInt64(Field(requested).timeout) {
      ResolvedTimeout(declared, group, requested);
      CoveredMeansLongEnough(claimedAt + LeaseDuration(group, m), now, ResolveMessageOptions(group, requested), m);
    }
  }

  /** A concrete group that validates and whose every claim is born expired: the longest timeout there is, with
      any margins that suit the default one. */
  lemma LeaseBornExpired(m: Margins)
    requires ValidMargins(m) && LeaseSum(GroupConfig(None, None, None, Unset).WithDefaults(), m) <= MAX_INT64
    ensures var declared := GroupConfig(None, None, Some(UNSET_OPTIONS.(timeout := MAX_INT64)), Unset);
            var group := declared.WithDefaults();
            Resolved(declared, group) && ValidBounds(group) && LeaseDuration(group, m) < 0
  {
  }

  // ---- Shutdown ----

  /** shutdownBudget: how long a shutdown waits for in-flight work. */
  function ShutdownBudget(group: GroupConfig, m: Margins): int {
    if m.shutdownTimeout != 0 then m.shutdownTimeout else Wrap(Needs(Ceiling(group), m))
  }

  /** A run is resolved against the group as claimed, the budget against the group at shutdown, which a refresh
      may have changed between. An undeclared budget covers a run exactly when the run's timeout is within the
      ceiling at shutdown, and what that ceiling needs is an int64. */
  lemma BudgetCoversRun(
    before: GroupConfig, claimed: GroupConfig, after: GroupConfig, current: GroupConfig, m: Margins,
    requested: Option<MessageOptions>)
    requires Resolved(before, claimed) && Resolved(after, current) && Ceiling(current) <= MAX_INT64
    requires ValidMargins(m) && m.shutdownTimeout == 0 && ValidOptions(requested)
    ensures var timeout := ResolveMessageOptions(claimed, requested).timeout;
            Needs(timeout, m) <= ShutdownBudget(current, m) <==>
            timeout <= Ceiling(current) && Needs(Ceiling(current), m) <= MAX_INT64
  {
    ResolvedTimeout(before, claimed, requested);
    CeilingExists(after, current);
  }

  /** A concrete refresh: claimed under a timeout of ten minutes, shut down under the defaults. */
  lemma BudgetMissesRefreshedRun(m: Margins)
    requires ValidMargins(m) && m.shutdownTimeout == 0 && Needs(30 * SECOND, m) <= MAX_INT64
    ensures var before := GroupConfig(Some(UNSET_OPTIONS.(timeout := 10 * MINUTE)), None, None, Unset).WithDefaults();
            var after := GroupConfig(None, None, None, Unset).WithDefaults();
            Needs(ResolveMessageOptions(before, None).timeout, m) > ShutdownBudget(after, m)
  {
  }
}
