/** The pending decision of an alert: whether its condition held long enough over the retained history.
    Times are nanoseconds since the zero time, durations are int64 nanoseconds. */
module AlertEvaluation {
  import opened Int64
  import opened Wrappers

  /** The zero time, which stands for an absent one. */
  const ZERO_TIME: int := 0

  // ---- The policy ----

  datatype JobPayload = JobPayload(
    threshold: int, maximumAge: int, pendingDuration: int, maximumGap: int, disablePending: bool)
  {
    predicate InRange() {
      IsInt64(threshold) && IsInt64(maximumAge) && IsInt64(pendingDuration) && IsInt64(maximumGap)
    }

    predicate Validate() {
      && threshold >= 0 && maximumAge >= 0 && pendingDuration > 0 && maximumGap > 0
      && (disablePending || maximumGap <= (MAX_INT64 - pendingDuration) / 2)
    }

    /** How much history the evaluation reads. */
    function Window(): int {
      if disablePending then maximumGap else pendingDuration + 2 * maximumGap
    }
  }

  /** The overflow guard is exact: it admits a policy exactly when its window is a duration. */
  lemma GuardIsExact(p: JobPayload)
    requires p.InRange() && p.threshold >= 0 && p.maximumAge >= 0 && p.pendingDuration > 0 && p.maximumGap > 0
    ensures p.Validate() <==> p.Window() <= MAX_INT64
  {
  }

  // ---- Snapshots and samples ----

  datatype State = Healthy | Pending | Active | InsufficientEvidence | Unrecognized(name: string)

  /** A finding, as far as its validity goes: whether its status is active. */
  datatype Finding = Finding(id: int, active: bool)

  datatype Reason = NoReason | NoMeasurement | AfterEvaluation | ExceedsGap | CannotEstablish

  datatype Snapshot = Snapshot(
    state: State, finding: Option<Finding>, evaluatedAt: int, observedAt: int, unhealthySince: int,
    observedDuration: int, pendingDuration: int, maximumGap: int, disablePending: bool, reason: Reason)
  {
    predicate Validate() {
      match state
      case Healthy | InsufficientEvidence => finding.None?
      case Pending | Active => finding.Some? && finding.value.active
      case Unrecognized(_) => false
    }
  }

  datatype Sample = Sample(at: int, message: Snapshot)

  /** Samples are ordered newest first. */
  predicate NewestFirst(samples: seq<Sample>) {
    forall i, j :: 0 <= i < j < |samples| ==> samples[i].at >= samples[j].at
  }

  function Checked(s: Snapshot): Result<Snapshot> {
    if s.Validate() then Ok(s) else Err("invalid snapshot")
  }

  function Insufficient(current: int, observedAt: int, p: JobPayload, reason: Reason): Result<Snapshot> {
    Checked(Snapshot(
              InsufficientEvidence, None, current, observedAt, ZERO_TIME, 0,
              p.pendingDuration, p.maximumGap, p.disablePending, reason))
  }

  // ---- The backward walk ----

  /** Sample k ends the walk: it is the first row of its timestamp, and too old, too far from the previous
      timestamp, or not active. */
  predicate Breaks(samples: seq<Sample>, gap: int, start: int, k: nat)
    requires 0 < k < |samples|
  {
    && samples[k].at != samples[k - 1].at
    && (samples[k].at < start || Sub(samples[k - 1].at, samples[k].at) > gap || !samples[k].message.state.Active?)
  }

  /** The samples up to k are one run: active, without a gap, and none before the start. */
  ghost predicate Unbroken(samples: seq<Sample>, gap: int, start: int, k: nat) {
    k < |samples| && forall j :: 0 < j <= k ==> !Breaks(samples, gap, start, j)
  }

  /** The last sample of the maximal run. */
  function RunEnd(samples: seq<Sample>, gap: int, start: int, k: nat): (end: nat)
    requires Unbroken(samples, gap, start, k)
    ensures k <= end && Unbroken(samples, gap, start, end)
    ensures end + 1 < |samples| ==> Breaks(samples, gap, start, end + 1)
    decreases |samples| - k
  {
    if k + 1 == |samples| || Breaks(samples, gap, start, k + 1) then k else RunEnd(samples, gap, start, k + 1)
  }

  /** What the walk decides, from the earliest time of the run. */
  function Decided(samples: seq<Sample>, current: int, p: JobPayload, earliest: int): Result<Snapshot>
    requires samples != []
  {
    var observed := Sub(samples[0].at, earliest);
    Checked(Snapshot(
              if observed < p.pendingDuration then Pending else Active, samples[0].message.finding, current,
              samples[0].at, earliest, observed, p.pendingDuration, p.maximumGap, p.disablePending, NoReason))
  }

  /** A newest sample that lets the condition be judged. */
  predicate Fresh(samples: seq<Sample>, current: int, p: JobPayload) {
    samples != [] && samples[0].at <= current && Sub(current, samples[0].at) <= p.maximumGap
  }

  /** The evaluation, with the run given by its definition instead of a walk, and taken back to the start. */
  ghost function EvaluationFrom(
    samples: seq<Sample>, current: int, policy: Option<JobPayload>, start: int): Result<Snapshot>
  {
    if policy.None? then Err("policy must not be nil")
    else
      var p := policy.value;
      if !p.Validate() then Err("invalid policy")
      else if current == ZERO_TIME then Err("current must not be zero")
      else if samples == [] then Insufficient(current, ZERO_TIME, p, NoMeasurement)
      else if samples[0].at > current then Insufficient(current, samples[0].at, p, AfterEvaluation)
      else if !Fresh(samples, current, p) then Insufficient(current, samples[0].at, p, ExceedsGap)
      else
        var newest := samples[0].message;
        if !newest.Validate() then Err("invalid sample")
        else if newest.state.InsufficientEvidence? then Insufficient(current, samples[0].at, p, CannotEstablish)
        else if !newest.state.Active? || p.disablePending then
          Checked(Snapshot(
                    newest.state, newest.finding, current, samples[0].at, ZERO_TIME, 0,
                    p.pendingDuration, p.maximumGap, p.disablePending, NoReason))
        else Decided(samples, current, p, samples[RunEnd(samples, p.maximumGap, start, 0)].at)
  }

  /** The run is taken back to where the policy's window starts. */
  ghost function Evaluation(samples: seq<Sample>, current: int, policy: Option<JobPayload>): Result<Snapshot> {
    EvaluationFrom(samples, current, policy, if policy.Some? then current - policy.value.Window() else current)
  }

  /** Applies pending to samples ordered newest first. */
  method EvaluateHistory(samples: seq<Sample>, current: int, policy: Option<JobPayload>) returns (r: Result<Snapshot>)
    ensures r == Evaluation(samples, current, policy)
  {
    if policy.None? {
      return Err("policy must not be nil");
    }
    var p := policy.value;
    if !p.Validate() {
      return Err("invalid policy");
    }
    if current == ZERO_TIME {
      return Err("current must not be zero");
    }
    if |samples| == 0 {
      return Insufficient(current, ZERO_TIME, p, NoMeasurement);
    }
    var newest := samples[0];
    var reason := NoReason;
    if newest.at > current {
      reason := AfterEvaluation;
    } else if Sub(current, newest.at) > p.maximumGap {
      reason := ExceedsGap;
    } else {
      if !newest.message.Validate() {
        return Err("invalid sample");
      }
      if newest.message.state.InsufficientEvidence? {
        reason := CannotEstablish;
      }
    }
    if reason != NoReason {
      return Insufficient(current, newest.at, p, reason);
    }
    if !newest.message.state.Active? || p.disablePending {
      return Checked(Snapshot(
                       newest.message.state, newest.message.finding, current, newest.at, ZERO_TIME, 0,
                       p.pendingDuration, p.maximumGap, p.disablePending, NoReason));
    }
    var earliestAt := newest.at;
    var windowStart := current - p.Window();
    var i := 1;
    while i < |samples|
      invariant 1 <= i <= |samples|
      invariant Unbroken(samples, p.maximumGap, windowStart, i - 1)
      invariant earliestAt == samples[i - 1].at
    {
      var sample := samples[i];
      if sample.at == earliestAt {
        i := i + 1;
        continue;
      }
      if sample.at < windowStart {
        break;
      }
      if Sub(earliestAt, sample.at) > p.maximumGap {
        break;
      }
      if !sample.message.state.Active? {
        break;
      }
      earliestAt := sample.at;
      i := i + 1;
    }
    RunEndIsMaximal(samples, p.maximumGap, windowStart, i - 1);
    var observed := Sub(newest.at, earliestAt);
    var state := if observed < p.pendingDuration then Pending else Active;
    r := Checked(Snapshot(
                   state, newest.message.finding, current, newest.at, earliestAt, observed,
                   p.pendingDuration, p.maximumGap, p.disablePending, NoReason));
  }

  /** No run reaches past a sample that breaks it. */
  lemma RunStops(samples: seq<Sample>, gap: int, start: int, k: nat, end: nat)
    requires Unbroken(samples, gap, start, k)
    requires end + 1 < |samples| ==> Breaks(samples, gap, start, end + 1)
    requires end < |samples|
    ensures k <= end
  {
  }

  /** A run that cannot be extended is the maximal one. */
  lemma RunEndIsMaximal(samples: seq<Sample>, gap: int, start: int, k: nat)
    requires Unbroken(samples, gap, start, k)
    requires k + 1 < |samples| ==> Breaks(samples, gap, start, k + 1)
    ensures RunEnd(samples, gap, start, 0) == k
  {
    var end := RunEnd(samples, gap, start, 0);
    RunStops(samples, gap, start, k, end);
    RunStops(samples, gap, start, end, k);
  }

  // ---- What the decision means ----

  /** Judged by the history: the newest sample is fresh, valid and active, and pending is enabled. */
  predicate Judged(samples: seq<Sample>, current: int, p: JobPayload) {
    && p.Validate() && !p.disablePending && current != ZERO_TIME
    && Fresh(samples, current, p) && samples[0].message.Validate() && samples[0].message.state.Active?
  }

  /** Some unbroken run back from the newest sample, none of it before the start, spans the pending duration. */
  ghost predicate SpansPending(samples: seq<Sample>, p: JobPayload, start: int) {
    exists k: nat {:trigger Unbroken(samples, p.maximumGap, start, k)} ::
      Unbroken(samples, p.maximumGap, start, k) && Sub(samples[0].at, samples[k].at) >= p.pendingDuration
  }

  /** The time is that of some unbroken run's end, and no unbroken run reaches further back. */
  ghost predicate EarliestOfRun(samples: seq<Sample>, p: JobPayload, start: int, time: int) {
    && (exists k: nat {:trigger Unbroken(samples, p.maximumGap, start, k)} ::
          Unbroken(samples, p.maximumGap, start, k) && samples[k].at == time)
    && (forall k: nat {:trigger Unbroken(samples, p.maximumGap, start, k)} ::
          Unbroken(samples, p.maximumGap, start, k) ==> samples[k].at >= time)
  }

  /** The snapshot is the decision on the runs that do not reach before the start. */
  ghost predicate DecidedByRuns(samples: seq<Sample>, p: JobPayload, start: int, s: Snapshot)
    requires samples != []
  {
    && s.state == (if SpansPending(samples, p, start) then Active else Pending)
    && EarliestOfRun(samples, p, start, s.unhealthySince)
    && s.observedDuration == Sub(samples[0].at, s.unhealthySince)
  }

  lemma RunEndDecides(samples: seq<Sample>, p: JobPayload, start: int)
    requires NewestFirst(samples) && samples != []
    ensures var end := RunEnd(samples, p.maximumGap, start, 0);
            && EarliestOfRun(samples, p, start, samples[end].at)
            && (SpansPending(samples, p, start) <==> Sub(samples[0].at, samples[end].at) >= p.pendingDuration)
  {
    var end := RunEnd(samples, p.maximumGap, start, 0);
    forall k: nat | Unbroken(samples, p.maximumGap, start, k) ensures samples[k].at >= samples[end].at {
      RunStops(samples, p.maximumGap, start, k, end);
    }
  }

  lemma DecidedIsByRuns(samples: seq<Sample>, current: int, p: JobPayload, start: int)
    requires NewestFirst(samples) && samples != [] && samples[0].message.Validate() && samples[0].message.state.Active?
    ensures var d := Decided(samples, current, p, samples[RunEnd(samples, p.maximumGap, start, 0)].at);
            d.Ok? && DecidedByRuns(samples, p, start, d.value)
  {
    RunEndDecides(samples, p, start);
  }

  lemma JudgedIsDecided(samples: seq<Sample>, current: int, p: JobPayload)
    requires Judged(samples, current, p)
    ensures Evaluation(samples, current, Some(p)) ==
            Decided(samples, current, p, samples[RunEnd(samples, p.maximumGap, current - p.Window(), 0)].at)
  {
  }

  /** The condition is active exactly when some unbroken run back from the newest sample spans the pending
      duration; otherwise it is pending. UnhealthySince is the earliest time of any such run. */
  lemma ActiveMeansLongRun(samples: seq<Sample>, current: int, p: JobPayload)
    requires NewestFirst(samples) && Judged(samples, current, p)
    ensures var e := Evaluation(samples, current, Some(p));
            e.Ok? && DecidedByRuns(samples, p, current - p.Window(), e.value)
  {
    JudgedIsDecided(samples, current, p);
    DecidedIsByRuns(samples, current, p, current - p.Window());
  }

  // ---- The window loses nothing ----

  /** The first n samples are those no older than the start. */
  ghost predicate Retains(samples: seq<Sample>, start: int, n: nat) {
    && n <= |samples|
    && (forall i :: 0 <= i < n ==> samples[i].at >= start)
    && (n < |samples| ==> samples[n].at < start)
  }

  /** Of samples ordered newest first, a window always retains a first part. */
  lemma {:induction false} SomeRetained(samples: seq<Sample>, start: int)
    ensures exists n: nat :: Retains(samples, start, n)
  {
    if samples == [] || samples[0].at < start {
      assert Retains(samples, start, 0);
    } else {
      SomeRetained(samples[1..], start);
      var n: nat :| Retains(samples[1..], start, n);
      assert forall i :: 1 <= i < n + 1 ==> samples[i] == samples[1..][i - 1];
      assert Retains(samples, start, n + 1);
    }
  }

  /** The first sample at which a run spans the duration. */
  function FirstLong(samples: seq<Sample>, p: JobPayload, k: nat): (f: nat)
    requires NewestFirst(samples) && p.pendingDuration > 0
    requires k < |samples| && Sub(samples[0].at, samples[k].at) >= p.pendingDuration
    ensures 0 < f <= k && Sub(samples[0].at, samples[f].at) >= p.pendingDuration
    ensures Sub(samples[0].at, samples[f - 1].at) < p.pendingDuration
  {
    if Sub(samples[0].at, samples[k - 1].at) < p.pendingDuration then k else FirstLong(samples, p, k - 1)
  }

  /** A run that is long enough is already long enough inside the window. */
  lemma LongInsideWindow(samples: seq<Sample>, current: int, p: JobPayload, k: nat)
    requires NewestFirst(samples) && Judged(samples, current, p) && p.InRange()
    requires Unbroken(samples, p.maximumGap, samples[|samples| - 1].at, k)
    requires Sub(samples[0].at, samples[k].at) >= p.pendingDuration
    ensures var f := FirstLong(samples, p, k); samples[f].at > current - p.Window()
  {
    var f := FirstLong(samples, p, k);
    assert !Breaks(samples, p.maximumGap, samples[|samples| - 1].at, f);
    GuardIsExact(p);
  }

  lemma KeptRun(samples: seq<Sample>, gap: int, start: int, n: nat, k: nat)
    requires NewestFirst(samples) && k < n <= |samples| && (forall i :: 0 <= i < n ==> samples[i].at >= start)
    ensures Unbroken(samples[..n], gap, start, k) <==> Unbroken(samples, gap, samples[|samples| - 1].at, k)
  {
    var oldest := samples[|samples| - 1].at;
    assert forall j: nat :: 0 < j <= k ==> (Breaks(samples[..n], gap, start, j) <==> Breaks(samples, gap, oldest, j));
  }

  lemma WindowFindsRun(samples: seq<Sample>, current: int, p: JobPayload, n: nat)
    requires NewestFirst(samples) && Judged(samples, current, p) && p.InRange()
    requires Retains(samples, current - p.Window(), n)
    requires SpansPending(samples, p, samples[|samples| - 1].at)
    ensures n > 0 && SpansPending(samples[..n], p, current - p.Window())
  {
    var start := current - p.Window();
    var oldest := samples[|samples| - 1].at;
    var k: nat :| Unbroken(samples, p.maximumGap, oldest, k) && Sub(samples[0].at, samples[k].at) >= p.pendingDuration;
    LongInsideWindow(samples, current, p, k);
    var f := FirstLong(samples, p, k);
    assert f < n;
    KeptRun(samples, p.maximumGap, start, n, f);
    assert Unbroken(samples[..n], p.maximumGap, start, f);
    assert samples[..n][f] == samples[f] && samples[..n][0] == samples[0];
  }

  lemma WindowAddsNoRun(samples: seq<Sample>, p: JobPayload, start: int, n: nat)
    requires NewestFirst(samples) && Retains(samples, start, n) && n > 0 && SpansPending(samples[..n], p, start)
    ensures SpansPending(samples, p, samples[|samples| - 1].at)
  {
    var kept := samples[..n];
    var k: nat :| Unbroken(kept, p.maximumGap, start, k) && Sub(kept[0].at, kept[k].at) >= p.pendingDuration;
    KeptRun(samples, p.maximumGap, start, n, k);
    assert Unbroken(samples, p.maximumGap, samples[|samples| - 1].at, k);
    assert kept[k] == samples[k] && kept[0] == samples[0];
  }

  /** A judged history is decided on the samples of the window as on all of it: active exactly when an unbroken run
      anywhere in it, where nothing is too old, spans the pending duration. */
  lemma JudgedInWindow(samples: seq<Sample>, current: int, p: JobPayload, n: nat)
    requires NewestFirst(samples) && Judged(samples, current, p) && p.InRange()
    requires Retains(samples, current - p.Window(), n)
    ensures var e := Evaluation(samples[..n], current, Some(p));
            && e.Ok? && e.value.finding == samples[0].message.finding
            && e.value.state == (if SpansPending(samples, p, samples[|samples| - 1].at) then Active else Pending)
  {
    GuardIsExact(p);
    NewestRetained(samples, current, p, n);
    JudgedIsDecided(samples[..n], current, p);
    ActiveMeansLongRun(samples[..n], current, p);
    if SpansPending(samples, p, samples[|samples| - 1].at) {
      WindowFindsRun(samples, current, p, n);
    } else if SpansPending(samples[..n], p, current - p.Window()) {
      WindowAddsNoRun(samples, p, current - p.Window(), n);
    }
  }

  lemma NewestRetained(samples: seq<Sample>, current: int, p: JobPayload, n: nat)
    requires NewestFirst(samples) && Judged(samples, current, p) && p.InRange()
    requires Retains(samples, current - p.Window(), n)
    ensures n > 0 && NewestFirst(samples[..n]) && Judged(samples[..n], current, p)
  {
    GuardIsExact(p);
    assert samples[0].at >= current - p.Window();
    assert samples[..n][0] == samples[0];
  }

  /** The evaluation of all samples, none of which is too old. */
  ghost function WithoutWindow(samples: seq<Sample>, current: int, p: JobPayload): Result<Snapshot> {
    EvaluationFrom(samples, current, Some(p), if samples == [] then current else samples[|samples| - 1].at)
  }

  lemma JudgedWithoutWindow(samples: seq<Sample>, current: int, p: JobPayload)
    requires NewestFirst(samples) && Judged(samples, current, p)
    ensures var e := WithoutWindow(samples, current, p);
            && e.Ok? && e.value.finding == samples[0].message.finding
            && e.value.state == (if SpansPending(samples, p, samples[|samples| - 1].at) then Active else Pending)
  {
    DecidedIsByRuns(samples, current, p, samples[|samples| - 1].at);
  }

  /** Both refuse to evaluate, or they come to one state with one finding. */
  predicate SameDecision(a: Result<Snapshot>, b: Result<Snapshot>) {
    if a.Ok? && b.Ok? then a.value.state == b.value.state && a.value.finding == b.value.finding else a.Err? && b.Err?
  }

  /** The newest sample's age fits a duration, or is longer than the policy's gap even when it saturates. */
  predicate AgeCounts(samples: seq<Sample>, current: int, p: JobPayload) {
    samples == [] || current - samples[0].at <= MAX_INT64 || p.maximumGap < MAX_INT64
  }

  /** The newest sample cannot establish the condition. */
  predicate Inconclusive(samples: seq<Sample>) {
    samples != [] && samples[0].message.Validate() && samples[0].message.state.InsufficientEvidence?
  }

  lemma NewestInWindow(samples: seq<Sample>, current: int, p: JobPayload, n: nat)
    requires p.Validate() && Retains(samples, current - p.Window(), n)
    requires Fresh(samples, current, p) && AgeCounts(samples, current, p)
    ensures n > 0 && samples[..n][0] == samples[0]
  {
    assert current - samples[0].at <= p.maximumGap <= p.Window();
  }

  /** The window is a duration, and for every history and every valid policy the evaluation of the samples it
      retains is the one of the whole history without a window, exactly unless the newest sample's age is more than
      a duration holds while the gap is the longest one, and the sample says something. */
  lemma WindowLosesNothing(samples: seq<Sample>, current: int, p: JobPayload, n: nat)
    requires NewestFirst(samples) && p.Validate() && p.InRange() && Retains(samples, current - p.Window(), n)
    ensures 0 < p.Window() <= MAX_INT64
    ensures SameDecision(Evaluation(samples[..n], current, Some(p)), WithoutWindow(samples, current, p)) <==>
            current == ZERO_TIME || AgeCounts(samples, current, p) || Inconclusive(samples)
  {
    GuardIsExact(p);
    if Judged(samples, current, p) {
      JudgedInWindow(samples, current, p, n);
      JudgedWithoutWindow(samples, current, p);
    } else if Fresh(samples, current, p) && AgeCounts(samples, current, p) {
      NewestInWindow(samples, current, p, n);
    } else if n > 0 {
      assert samples[..n][0] == samples[0];
    }
  }

  /** With the longest gap a sample older than a duration can tell counts as fresh, yet no window reads it. */
  lemma OldestFreshIsMissed()
    ensures var p := JobPayload(1, 1, 1, MAX_INT64, true);
            var sample := Sample(1, Snapshot(Healthy, None, 1, 1, 0, 0, 1, 1, true, NoReason));
            var current := MAX_INT64 + 2;
            && p.Validate() && p.InRange() && Retains([sample], current - p.Window(), 0)
            && WithoutWindow([sample], current, p).Ok? && Evaluation([], current, Some(p)).Ok?
            && WithoutWindow([sample], current, p).value.state == Healthy
            && Evaluation([], current, Some(p)).value.state == InsufficientEvidence
  {
  }

  /** The decision without a window is the same at any two times at which the newest sample is fresh. */
  lemma FreshIsTimeless(samples: seq<Sample>, c: int, d: int, p: JobPayload)
    requires p.Validate() && c != ZERO_TIME && d != ZERO_TIME && Fresh(samples, c, p) && Fresh(samples, d, p)
    ensures SameDecision(WithoutWindow(samples, c, p), WithoutWindow(samples, d, p))
  {
  }

  /** So while the newest sample's age is within the gap, passing time alone does not change the decision. */
  lemma TimeAloneDecidesNothing(samples: seq<Sample>, c: int, d: int, p: JobPayload, atC: nat, atD: nat)
    requires NewestFirst(samples) && p.Validate() && p.InRange() && c != ZERO_TIME && d != ZERO_TIME && samples != []
    requires 0 <= c - samples[0].at <= p.maximumGap && 0 <= d - samples[0].at <= p.maximumGap
    requires Retains(samples, c - p.Window(), atC) && Retains(samples, d - p.Window(), atD)
    ensures SameDecision(Evaluation(samples[..atC], c, Some(p)), Evaluation(samples[..atD], d, Some(p)))
  {
    WindowLosesNothing(samples, c, p, atC);
    WindowLosesNothing(samples, d, p, atD);
    FreshIsTimeless(samples, c, d, p);
  }
}
