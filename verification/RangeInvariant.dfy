/** What every reachable state of the range protocol satisfies. */
module RangeInvariant {
  import opened Chains
  import opened Counting
  import opened RangeProtocol
  import opened RangeValues

  // ---- What one goroutine knows about its chain ----

  /** The first n messages of the chain succeeded or died. */
  ghost predicate Passed(m: Memory, chain: seq<nat>, n: nat)
    requires InRange(m, chain) && n <= |chain|
  {
    forall q :: 0 <= q < n ==> m.cells[chain[q]].done && Passes(m.cells[chain[q]].kind)
  }

  /** Nothing has been written to the results from position n on, nor counted for them. */
  ghost predicate Untouched(m: Memory, chain: seq<nat>, n: nat)
    requires InRange(m, chain)
  {
    forall q :: n <= q < |chain| ==> m.cells[chain[q]] == PENDING && Uncounted(m, chain[q])
  }

  /** Positions lo..hi were deferred behind a failed message, or fenced off by the settled range. */
  ghost predicate Skipped(m: Memory, chain: seq<nat>, lo: nat, hi: nat)
    requires InRange(m, chain) && hi <= |chain|
  {
    forall q :: lo <= q < hi ==>
      var c := m.cells[chain[q]];
      Uncounted(m, chain[q]) && if c.done then c.kind.Deferred? else c == PENDING && !m.tracked
  }

  ghost predicate Blocked(m: Memory, i: nat)
    requires i < |m.cells|
  {
    m.cells[i].done && !Passes(m.cells[i].kind)
  }

  ghost predicate Uncounted(m: Memory, i: nat) {
    i !in m.succeeded && i !in m.superseded
  }

  /** Message i has been counted exactly as far as its resolution asks for it before the range commits. */
  ghost predicate CountedAs(m: Memory, i: nat, kind: OutcomeKind) {
    && (i in m.succeeded <==> kind.Success?)
    && (i in m.superseded <==> kind.Superseded?)
  }

  ghost predicate InRange(m: Memory, chain: seq<nat>) {
    forall q :: 0 <= q < |chain| ==> chain[q] < |m.cells|
  }

  /** The goroutine has finished its own turn at pos: resolved, or left unresolved for good. */
  ghost predicate Turned(m: Memory, chain: seq<nat>, pos: nat)
    requires InRange(m, chain) && pos < |chain|
  {
    var c := m.cells[chain[pos]];
    Passed(m, chain, pos) && Untouched(m, chain, pos + 1) && (c.done || c == PENDING)
  }

  /** The goroutine has deferred everything behind the message that stopped it at pos. */
  ghost predicate Stopped(m: Memory, chain: seq<nat>, pos: nat, at: nat)
    requires InRange(m, chain) && pos < at <= |chain|
  {
    Passed(m, chain, pos) && Blocked(m, chain[pos]) && Skipped(m, chain, pos + 1, at) && Untouched(m, chain, at)
  }

  /** While it resolves position `at`, which is its own or behind the message that stopped it. */
  ghost predicate Mid(m: Memory, chain: seq<nat>, pos: nat, at: nat, kind: OutcomeKind)
    requires InRange(m, chain) && pos <= at < |chain|
  {
    && Untouched(m, chain, at + 1)
    && CountedAs(m, chain[at], kind)
    && Passed(m, chain, pos)
    && (at > pos ==> Blocked(m, chain[pos]) && Skipped(m, chain, pos + 1, at) && kind.Deferred?)
  }

  ghost predicate Finished(m: Memory, chain: seq<nat>, pos: nat)
    requires InRange(m, chain) && pos < |chain|
  {
    && Passed(m, chain, pos)
    && (m.cells[chain[pos]].done || m.cells[chain[pos]] == PENDING)
    && (forall q :: pos < q < |chain| ==>
          var c := m.cells[chain[q]]; Uncounted(m, chain[q]) && if c.done then c.kind.Deferred? else c == PENDING)
  }

  /** What a goroutine's place says about its chain, in five shapes. */
  datatype Phase =
    | Before(pos: nat)
    | Within(pos: nat, at: nat, kind: OutcomeKind)
    | After(pos: nat)
    | Halted(pos: nat, at: nat)
    | Over(pos: nat)

  function PhaseOf(p: Proc, len: nat): Phase {
    match p
    case Unqueued | Queued | Dequeued => Before(0)
    case Begin(pos) => Before(pos)
    case Marking(pos) => Before(pos)
    case Flagging(pos) => Before(pos)
    case Claiming(pos) => Before(pos)
    case Running(pos) => Before(pos)
    case Recording(pos, _) => Before(pos)
    case Resolving(pos, at, res) => Within(pos, at, res.kind)
    case Writing(pos, at, res, _) => Within(pos, at, res.kind)
    case Adding(pos, at, res) => Within(pos, at, res.kind)
    case Deferring(pos, at) => Halted(pos, at)
    case Reading(pos) => After(pos)
    case Judging(pos) => After(pos)
    case Exited(pos) => Over(pos)
    case _ => if p.behind then Halted(p.pos, len) else After(p.pos)
  }

  ghost predicate FitsChain(ph: Phase, len: nat) {
    match ph
    case Before(pos) => pos < len
    case Within(pos, at, _) => pos <= at < len
    case After(pos) => pos < len
    case Halted(pos, at) => pos < at <= len
    case Over(pos) => pos < len
  }

  ghost predicate InPhase(m: Memory, chain: seq<nat>, ph: Phase)
    requires InRange(m, chain) && FitsChain(ph, |chain|)
  {
    match ph
    case Before(pos) => Passed(m, chain, pos) && Untouched(m, chain, pos)
    case Within(pos, at, kind) => Mid(m, chain, pos, at, kind)
    case After(pos) => Turned(m, chain, pos)
    case Halted(pos, at) => Stopped(m, chain, pos, at)
    case Over(pos) => Finished(m, chain, pos)
  }

  /** The goroutine that won the swap works on a fully resolved range. */
  ghost predicate Owner(m: Memory) {
    m.committed && AllDone(m.cells)
  }

  /** What a goroutine's place says beyond its phase. */
  ghost predicate Holding(claim: Claim, m: Memory, chain: seq<nat>, p: Proc)
    requires claim.Sized() && |m.cells| == claim.Total() && InRange(m, chain) && OnChain(p, |chain|)
  {
    match p
    case Recording(_, res) => res.kind.Success? || res.kind.Superseded?
    case Resolving(_, at, res) => m.cells[chain[at]] == PENDING
    case Writing(_, at, res, field) => field <= FIELDS && m.cells[chain[at]] == Torn(res, field)
    case Adding(_, at, res) => m.cells[chain[at]] == Done(res)
    case Swapping(_, _) => AllDone(m.cells)
    case Walking(_, _, next, outcomes) => Owner(m) && next <= claim.Total() && outcomes == Collect(claim, m.cells, next)
    case Committing(_, _, outcomes) => Owner(m) && outcomes == Collect(claim, m.cells, claim.Total())
    case Tallying(_, _) => Owner(m) && m.full.Some?
    case Removing(_, _) => Owner(m)
    case _ => true
  }

  ghost predicate LocalInv(claim: Claim, m: Memory, chain: seq<nat>, p: Proc)
    requires claim.Sized() && |m.cells| == claim.Total() && InRange(m, chain) && OnChain(p, |chain|)
  {
    InPhase(m, chain, PhaseOf(p, |chain|)) && Holding(claim, m, chain, p)
  }

  /** The goroutines of entries lo..hi know what their places say. */
  ghost predicate Know(r: Range, lo: nat, hi: nat)
    requires r.Sized() && lo <= hi <= |r.procs|
  {
    forall e :: lo <= e < hi ==> OnChain(r.procs[e], |r.chains[e]|) && LocalInv(r.claim, r.mem, r.chains[e], r.procs[e])
  }

  ghost predicate Locals(r: Range)
    requires r.Sized()
  {
    Know(r, 0, |r.procs|)
  }

  // ---- What the shared counters and flags say ----

  predicate IsAdding(p: Proc) {
    p.Adding?
  }

  predicate IsStarted(p: Proc) {
    !p.Unqueued? && !p.Queued? && !p.Dequeued?
  }

  predicate IsWalking(p: Proc) {
    p.Walking?
  }

  /** Holds the snapshot, from winning the swap to giving the range up. */
  predicate Holds(p: Proc) {
    p.Walking? || p.Committing? || p.Tallying? || p.Removing?
  }

  /** Will still look whether the range is resolved. */
  predicate Owes(p: Proc) {
    p.Checking? || p.Loading? || p.Requesting? || p.Rechecking? || p.Swapping? || p.Deferring?
  }

  /** The resolved counter lags the done flags by the goroutines between their two stores. */
  ghost predicate ResolvedCount(r: Range) {
    r.mem.resolved + Count(r.procs, IsAdding) == Count(r.mem.cells, IsDone)
  }

  ghost predicate DispatchedCount(r: Range) {
    && r.dispatched == Count(r.procs, IsStarted)
    && (r.stale ==> r.dispatched > 0)
    && (!r.mem.tracked ==> r.mem.committed || !r.shutdown.Open?)
    && (!r.shutdown.Open? ==> !r.mem.tracked && forall e :: 0 <= e < |r.procs| ==> !r.procs[e].Dequeued?)
  }

  /** One snapshot at most, whole and final, held by one goroutine at most. */
  ghost predicate OneSnapshot(r: Range)
    requires r.Sized()
  {
    && Count(r.procs, Holds) <= (if r.mem.committed then 1 else 0)
    && Count(r.procs, IsWalking) + |r.snapshots| == (if r.mem.committed then 1 else 0)
    && (r.mem.committed ==> AllDone(r.mem.cells))
    && (forall s :: s in r.snapshots ==> s == Collect(r.claim, r.mem.cells, r.Total()))
  }

  /** A tracked range that is fully resolved is committed, or some goroutine still owes the check. */
  ghost predicate NotStranded(r: Range)
    requires r.Sized()
  {
    r.mem.tracked && r.mem.resolved == r.Total() && !r.mem.committed ==>
      exists e :: 0 <= e < |r.procs| && Owes(r.procs[e])
  }

  ghost predicate SharedInv(r: Range)
    requires r.Sized()
  {
    ResolvedCount(r) && DispatchedCount(r) && OneSnapshot(r) && NotStranded(r)
  }

  ghost predicate Inv(r: Range) {
    && Steppable(r)
    && r.claim.Valid() && IsSplit(r.claim, r.chains, r.places)
    && Locals(r)
    && SharedInv(r)
  }

  lemma FullyResolved(r: Range)
    requires r.Sized() && ResolvedCount(r)
    requires r.mem.resolved == r.Total()
    ensures AllDone(r.mem.cells) && Count(r.procs, IsAdding) == 0
  {
    CountAll(r.mem.cells, IsDone);
  }

  // ---- What a step leaves alone ----

  /** Between two states: only results and counts of one chain changed, and flags moved one way only. */
  ghost predicate Preserves(m: Memory, n: Memory, chain: seq<nat>)
    requires InRange(m, chain)
  {
    && |n.cells| == |m.cells|
    && (forall q :: 0 <= q < |chain| ==> n.cells[chain[q]] == m.cells[chain[q]])
    && (forall q :: 0 <= q < |chain| ==>
          (chain[q] in n.succeeded <==> chain[q] in m.succeeded) &&
          (chain[q] in n.superseded <==> chain[q] in m.superseded))
    && (n.tracked ==> m.tracked)
    && (m.committed ==> n.committed)
    && (AllDone(m.cells) ==> n.cells == m.cells)
    && (m.full.Some? ==> n.full.Some?)
  }

  lemma PhaseFrame(m: Memory, n: Memory, chain: seq<nat>, ph: Phase)
    requires InRange(m, chain) && FitsChain(ph, |chain|) && InPhase(m, chain, ph) && Preserves(m, n, chain)
    ensures InRange(n, chain) && InPhase(n, chain, ph)
  {
  }

  /** What one goroutine knows is untouched by what the others do. */
  lemma LocalInvFrame(claim: Claim, m: Memory, n: Memory, chain: seq<nat>, p: Proc)
    requires claim.Sized() && |m.cells| == claim.Total() && InRange(m, chain) && OnChain(p, |chain|)
    requires LocalInv(claim, m, chain, p) && Preserves(m, n, chain)
    ensures LocalInv(claim, n, chain, p)
  {
    PhaseFrame(m, n, chain, PhaseOf(p, |chain|));
  }
}
