/** The counters of a consumer session, and their balance over all the ranges the session claims. */
module Session {
  import opened Chains
  import opened Counting
  import opened Iteration
  import opened RangeAccounts
  import opened RangeHistory
  import opened RangeInvariant
  import opened RangeProtocol
  import opened RangeSafety
  import opened RangeTheorems
  import opened RangeValues
  import opened Sequences
  import opened Wrappers

  function Add(a: Counters, b: Counters): Counters {
    Counters(
      a.success + b.success, a.superseded + b.superseded, a.ready + b.ready, a.deferred + b.deferred, a.dead + b.dead)
  }

  /** What the delivery rows of a landed commit add to the counters. */
  function RowCounts(outcomes: seq<MessageOutcome>): Counters {
    Counters(0, 0, Count(outcomes, IsReady), Count(outcomes, IsDeferral), Count(outcomes, IsDead))
  }

  lemma OneMoreRow(before: Counters, outcomes: seq<MessageOutcome>, n: nat)
    requires n < |outcomes|
    ensures Bump(Add(before, RowCounts(outcomes[..n])), outcomes[n].kind) == Add(before, RowCounts(outcomes[..n + 1]))
  {
    CountTake(outcomes, n, IsReady);
    CountTake(outcomes, n, IsDeferral);
    CountTake(outcomes, n, IsDead);
  }

  /** The metric producer's session counters. */
  class SessionCounters {
    var claimed: int
    var counters: Counters

    constructor ()
      ensures claimed == 0 && counters == ZERO
    {
      claimed, counters := 0, ZERO;
    }

    method RecordClaimed(count: int)
      modifies this`claimed
      ensures claimed == old(claimed) + count
    {
      claimed := claimed + count;
    }

    /** Counts the delivery rows a landed commit wrote; successes and superseded messages wrote none. */
    method CountDeliveryRows(outcomes: seq<MessageOutcome>)
      modifies this`counters
      ensures counters == Add(old(counters), RowCounts(outcomes))
    {
      for i := 0 to |outcomes|
        invariant counters == Add(old(counters), RowCounts(outcomes[..i]))
      {
        OneMoreRow(old(counters), outcomes, i);
        counters := Bump(counters, outcomes[i].kind);
      }
      assert outcomes[..|outcomes|] == outcomes;
    }
  }

  // ---- The protocol's counting steps are that loop ----

  /** n steps of a goroutine that counts the rows of its landed commit. */
  ghost function TallySteps(r: Range, e: nat, n: nat): Range {
    Iterate((s: Range) => if s.Sized() && e < |s.procs| then CommitStep(s, e, Go) else s, r, n)
  }

  /** n steps of a shutdown that counts the rows of its landed commit. */
  ghost function CountingSteps(r: Range, n: nat): Range {
    Iterate((s: Range) => if s.Sized() then ShutdownStep(s, Go) else s, r, n)
  }

  /** The range when a goroutine has counted the first n outcomes of its landed commit. */
  ghost function Tallied(r: Range, n: nat): Range
    requires r.mem.full.Some? && n <= |r.mem.full.value.outcomes|
  {
    var l := r.mem.full.value;
    r.With(r.mem.(full := Some(l.(next := n)))).(counters := Add(r.counters, RowCounts(l.outcomes[..n])))
  }

  /** The range when its shutdown has counted the first n outcomes of its landed commit. */
  ghost function Counted(r: Range, n: nat): Range
    requires r.partial.Some? && n <= |r.partial.value.outcomes|
  {
    var l := r.partial.value;
    r.(partial := Some(l.(next := n)), counters := Add(r.counters, RowCounts(l.outcomes[..n])))
  }

  lemma TallyOne(r: Range, e: nat, n: nat)
    requires r.Sized() && e < |r.procs| && r.procs[e].Tallying? && r.mem.full.Some?
    requires n < |r.mem.full.value.outcomes|
    ensures CommitStep(Tallied(r, n), e, Go) == Tallied(r, n + 1)
  {
    OneMoreRow(r.counters, r.mem.full.value.outcomes, n);
  }

  lemma CountOne(r: Range, n: nat)
    requires r.Sized() && r.shutdown.Counting? && r.partial.Some? && n < |r.partial.value.outcomes|
    ensures ShutdownStep(Counted(r, n), Go) == Counted(r, n + 1)
  {
    OneMoreRow(r.counters, r.partial.value.outcomes, n);
  }

  lemma TallyAdds(r: Range, e: nat)
    requires r.Sized() && e < |r.procs| && r.procs[e].Tallying? && r.mem.full.Some? && r.mem.full.value.next == 0
    ensures var n := |r.mem.full.value.outcomes|; TallySteps(r, e, n) == Tallied(r, n)
  {
    var n := |r.mem.full.value.outcomes|;
    var step := (s: Range) => if s.Sized() && e < |s.procs| then CommitStep(s, e, Go) else s;
    var row := (k: nat) => if k <= n then Tallied(r, k) else r;
    forall k: nat | k < n ensures step(row(k)) == row(k + 1) {
      TallyOne(r, e, k);
    }
    assert row(0) == r;
    IterateFollows(step, row, n);
  }

  lemma CountingAdds(r: Range)
    requires r.Sized() && r.shutdown.Counting? && r.partial.Some? && r.partial.value.next == 0
    ensures var n := |r.partial.value.outcomes|; CountingSteps(r, n) == Counted(r, n)
  {
    var n := |r.partial.value.outcomes|;
    var step := (s: Range) => if s.Sized() then ShutdownStep(s, Go) else s;
    var row := (k: nat) => if k <= n then Counted(r, k) else r;
    forall k: nat | k < n ensures step(row(k)) == row(k + 1) {
      CountOne(r, k);
    }
    assert row(0) == r;
    IterateFollows(step, row, n);
  }

  /** Undisturbed, the counting steps of a full commit add what the loop over its outcomes adds. */
  lemma TallyIsTheLoop(r: Range, e: nat)
    requires r.Sized() && e < |r.procs| && r.procs[e].Tallying? && r.mem.full.Some? && r.mem.full.value.next == 0
    ensures var rows := r.mem.full.value.outcomes;
            TallySteps(r, e, |rows|).counters == Add(r.counters, RowCounts(rows))
  {
    var rows := r.mem.full.value.outcomes;
    TallyAdds(r, e);
    assert rows[..|rows|] == rows;
  }

  /** And so do those of a partial commit at shutdown. */
  lemma CountingIsTheLoop(r: Range)
    requires r.Sized() && r.shutdown.Counting? && r.partial.Some? && r.partial.value.next == 0
    ensures var rows := r.partial.value.outcomes;
            CountingSteps(r, |rows|).counters == Add(r.counters, RowCounts(rows))
  {
    var rows := r.partial.value.outcomes;
    CountingAdds(r);
    assert rows[..|rows|] == rows;
  }

  // ---- All the ranges of a session ----

  /** The ranges claimed so far and the counters they all share. */
  datatype State = State(ranges: seq<Range>, claimed: int, counters: Counters)

  datatype Event = Claimed(claim: Claim, chains: seq<seq<nat>>, places: seq<Place>) | Advance(k: nat, action: Action)

  ghost predicate Kept(r: Range) {
    Inv(r) && HistoryInv(r)
  }

  ghost predicate RangesHold(ranges: seq<Range>) {
    All(ranges, Kept)
  }

  /** What a step of one range adds to the shared counters. */
  function Moved(before: Counters, after: Counters): Counters {
    Counters(
      after.success - before.success, after.superseded - before.superseded, after.ready - before.ready,
      after.deferred - before.deferred, after.dead - before.dead)
  }

  /** The session that has claimed one more range. */
  function AfterClaim(s: State, r: Range): State {
    State(s.ranges + [r], s.claimed + r.Total(), s.counters)
  }

  /** The session when range k has become r: what that step counted is in the shared counters too. */
  function AfterStep(s: State, k: nat, r: Range): State
    requires k < |s.ranges|
  {
    State(s.ranges[k := r], s.claimed, Add(s.counters, Moved(s.ranges[k].counters, r.counters)))
  }

  ghost function Next(s: State, ev: Event): State
    requires RangesHold(s.ranges)
  {
    match ev
    case Claimed(claim, chains, places) =>
      if IsClaimed(claim, chains, places) then AfterClaim(s, Init(claim, chains, places)) else s
    case Advance(k, action) =>
      if k < |s.ranges| then AfterStep(s, k, Step(s.ranges[k], action)) else s
  }

  function Claims(ranges: seq<Range>): int {
    if ranges == [] then 0 else Claims(ranges[..|ranges| - 1]) + ranges[|ranges| - 1].Total()
  }

  function Shares(ranges: seq<Range>): Counters {
    if ranges == [] then ZERO else Add(Shares(ranges[..|ranges| - 1]), ranges[|ranges| - 1].counters)
  }

  /** Every range is sound, and the counters hold what the ranges moved, no more and no less. */
  ghost predicate Balanced(s: State, sound: Range -> bool) {
    All(s.ranges, sound) && s.claimed == Claims(s.ranges) && s.counters == Shares(s.ranges)
  }

  ghost predicate SessionInv(s: State) {
    Balanced(s, Kept)
  }

  lemma {:induction false} UpdateShares(ranges: seq<Range>, k: nat, r: Range)
    requires k < |ranges| && r.Total() == ranges[k].Total()
    ensures Claims(ranges[k := r]) == Claims(ranges)
    ensures Shares(ranges[k := r]) == Add(Shares(ranges), Moved(ranges[k].counters, r.counters))
  {
    var n := |ranges| - 1;
    if k == n {
      assert ranges[k := r][..n] == ranges[..n];
    } else {
      assert ranges[k := r][..n] == ranges[..n][k := r];
      UpdateShares(ranges[..n], k, r);
    }
  }

  lemma InitKept(claim: Claim, chains: seq<seq<nat>>, places: seq<Place>)
    requires IsClaimed(claim, chains, places)
    ensures var r := Init(claim, chains, places); Kept(r) && r.Total() == claim.Total() && r.counters == ZERO
  {
    InitInv(claim, chains, places);
    InitHistory(claim, chains, places);
  }

  lemma StepKept(r: Range, a: Action)
    requires Kept(r)
    ensures Kept(Step(r, a)) && Step(r, a).Total() == r.Total()
  {
    StepKeepsHistory(r, a);
  }

  /** The session with one more range and what that range has counted. */
  function WithRange(s: State, r: Range): State {
    State(s.ranges + [r], s.claimed + r.Total(), Add(s.counters, r.counters))
  }

  lemma ClaimAddsRange(s: State, r: Range)
    requires r.counters == ZERO
    ensures AfterClaim(s, r) == WithRange(s, r)
  {
  }

  lemma AppendKeeps(s: State, r: Range, sound: Range -> bool)
    requires Balanced(s, sound) && sound(r)
    ensures Balanced(WithRange(s, r), sound)
  {
    assert (s.ranges + [r])[..|s.ranges|] == s.ranges;
  }

  lemma ReplaceKeeps(s: State, k: nat, r: Range, sound: Range -> bool)
    requires Balanced(s, sound) && k < |s.ranges| && sound(r) && r.Total() == s.ranges[k].Total()
    ensures Balanced(AfterStep(s, k, r), sound)
  {
    UpdateShares(s.ranges, k, r);
  }

  lemma NextKeeps(s: State, ev: Event)
    requires SessionInv(s)
    ensures SessionInv(Next(s, ev))
  {
    match ev
    case Claimed(claim, chains, places) =>
      if IsClaimed(claim, chains, places) {
        InitKept(claim, chains, places);
        ClaimAddsRange(s, Init(claim, chains, places));
        AppendKeeps(s, Init(claim, chains, places), Kept);
      }
    case Advance(k, action) =>
      if k < |s.ranges| {
        StepKept(s.ranges[k], action);
        ReplaceKeeps(s, k, Step(s.ranges[k], action), Kept);
      }
  }

  ghost function Play(s: State, events: seq<Event>): State
    requires SessionInv(s)
    decreases |events|
  {
    if events == [] then s
    else
      NextKeeps(s, events[0]);
      Play(Next(s, events[0]), events[1..])
  }

  lemma {:induction false} PlayKeeps(s: State, events: seq<Event>)
    requires SessionInv(s)
    ensures SessionInv(Play(s, events))
    decreases |events|
  {
    if events != [] {
      NextKeeps(s, events[0]);
      PlayKeeps(Next(s, events[0]), events[1..]);
    }
  }

  const START := State([], 0, ZERO)

  /** The messages of all ranges that the counters do not include. */
  ghost function Missing(ranges: seq<Range>): nat
    requires RangesHold(ranges)
  {
    if ranges == [] then 0
    else Missing(ranges[..|ranges| - 1]) + |Unbooked(ranges[|ranges| - 1])|
  }

  ghost predicate AllWrittenOnce(ranges: seq<Range>) {
    forall k :: 0 <= k < |ranges| ==> RowsWrittenOnce(ranges[k])
  }

  lemma {:induction false} SharesBalance(ranges: seq<Range>)
    requires RangesHold(ranges) && AllWrittenOnce(ranges)
    ensures Claims(ranges) == Shares(ranges).Sum() + Missing(ranges)
  {
    if ranges != [] {
      var last := ranges[|ranges| - 1];
      SharesBalance(ranges[..|ranges| - 1]);
      BucketsHold(last);
      Balance(last);
    }
  }

  /** However the steps of a session's ranges interleave: what was claimed is what the outcome counters sum to
      plus the messages of open or lost ranges that are not counted yet. */
  lemma SessionBalances(events: seq<Event>)
    ensures var s := Play(START, events);
            RangesHold(s.ranges) &&
            (AllWrittenOnce(s.ranges) ==> s.claimed == s.counters.Sum() + Missing(s.ranges))
  {
    var s := Play(START, events);
    PlayKeeps(START, events);
    if AllWrittenOnce(s.ranges) {
      SharesBalance(s.ranges);
    }
  }

  ghost predicate AllLanded(ranges: seq<Range>) {
    forall k :: 0 <= k < |ranges| ==> LandedInFull(ranges[k])
  }

  lemma {:induction false} LandedMissNone(ranges: seq<Range>)
    requires RangesHold(ranges) && AllLanded(ranges)
    ensures Missing(ranges) == 0
  {
    if ranges != [] {
      LandedMissNone(ranges[..|ranges| - 1]);
      LandedLeavesNone(ranges[|ranges| - 1]);
    }
  }

  /** When a commit of every claimed range landed, at its resolution or at shutdown, everything claimed is in one of
      the five outcome counters. */
  lemma LandedSessionBalances(events: seq<Event>)
    ensures var s := Play(START, events);
            AllLanded(s.ranges) && AllWrittenOnce(s.ranges) ==> s.claimed == s.counters.Sum()
  {
    var s := Play(START, events);
    PlayKeeps(START, events);
    if AllLanded(s.ranges) && AllWrittenOnce(s.ranges) {
      LandedMissNone(s.ranges);
      SharesBalance(s.ranges);
    }
  }
}
