/** The goroutines that dispatch, run, resolve, commit and settle one claimed range, as an interleaved step
    relation: one shared-memory access or one outside answer per step. Outside answers (staleness, the key
    lease, the handler, the commit) are the `Choice` of the step, so a run is any sequence of actions. */
module RangeProtocol {
  import opened Chains
  import opened RangeValues
  import opened Wrappers

  /** Where the goroutine of one queue entry stands. `pos` is the chain position it runs; `at` the position
      it is resolving: its own, or one behind it that is being deferred. `behind` tells which of the two
      calls of commitIfResolved is under way. */
  datatype Proc =
    | Unqueued
    | Queued
    | Dequeued
    | Begin(pos: nat)
    | Marking(pos: nat)
    | Flagging(pos: nat)
    | Claiming(pos: nat)
    | Running(pos: nat)
    | Recording(pos: nat, res: Resolution)
    | Resolving(pos: nat, at: nat, res: Resolution)
    | Writing(pos: nat, at: nat, res: Resolution, field: nat)
    | Adding(pos: nat, at: nat, res: Resolution)
    | Checking(pos: nat, behind: bool)
    | Loading(pos: nat, behind: bool)
    | Requesting(pos: nat, behind: bool)
    | Rechecking(pos: nat, behind: bool)
    | Swapping(pos: nat, behind: bool)
    | Walking(pos: nat, behind: bool, next: nat, outcomes: seq<MessageOutcome>)
    | Committing(pos: nat, behind: bool, outcomes: seq<MessageOutcome>)
    | Tallying(pos: nat, behind: bool)
    | Removing(pos: nat, behind: bool)
    | Reading(pos: nat)
    | Judging(pos: nat)
    | Deferring(pos: nat, at: nat)
    | Exited(pos: nat)

  /** Where the shutdown goroutine stands with this range. */
  datatype Shutdown =
    | Open
    | Deciding
    | Sweeping(next: nat, last: int, outcomes: seq<MessageOutcome>)
    | Settling(cut: nat, last: int, outcomes: seq<MessageOutcome>)
    | Counting
    | Surrendered
    | Settled

  /** What the step's outside party answers. */
  datatype Choice =
    | Go
    | Stale
    | KeyFailed(err: string)
    | KeySuperseded
    | KeyBusy
    | Undecodable(err: string)
    | HandlerOk
    | HandlerFailed(err: string)
    | HandlerDead(err: string)
    | HandlerDelayed(err: string, delay: int)
    | CommitLanded
    | LeaseLost
    | CommitFailed

  /** A commit that landed: how many messages it covers, its outcomes, and how many of them have been counted. */
  datatype Landing = Landing(cut: nat, outcomes: seq<MessageOutcome>, next: nat)

  datatype Counters = Counters(success: int, superseded: int, ready: int, deferred: int, dead: int) {
    function Sum(): int {
      success + superseded + ready + deferred + dead
    }
  }

  const ZERO := Counters(0, 0, 0, 0, 0)

  /** The counter a delivery row bumps once its commit has landed. */
  function Bump(c: Counters, kind: OutcomeKind): Counters {
    match kind
    case Exception | Delayed => c.(ready := c.ready + 1)
    case Deferred => c.(deferred := c.deferred + 1)
    case Terminal => c.(dead := c.dead + 1)
    case Success | Superseded => c
  }

  /** The memory the goroutines of a range share: its results, counter and flags, whether the buffer still
      tracks it, the full commit once it landed, and which messages have been counted as succeeded and as
      superseded. */
  datatype Memory = Memory(
    cells: seq<Cell>,
    resolved: int,
    committed: bool,
    tracked: bool,
    full: Option<Landing>,
    succeeded: set<nat>,
    superseded: set<nat>)
  {
    function SetCell(i: nat, c: Cell): Memory
      requires i < |cells|
    {
      this.(cells := cells[i := c])
    }
  }

  /** One range: its memory, its goroutines, the dispatch counter and the stale flag, the session counters it
      moved, the partial commit once it landed, and the snapshots handed out and handlers started so far. */
  datatype Range = Range(
    claim: Claim,
    chains: seq<seq<nat>>,
    places: seq<Place>,
    mem: Memory,
    procs: seq<Proc>,
    shutdown: Shutdown,
    dispatched: int,
    stale: bool,
    counters: Counters,
    partial: Option<Landing>,
    snapshots: seq<seq<MessageOutcome>>,
    handled: seq<nat>)
  {
    function Total(): nat {
      claim.Total()
    }

    /** Lengths agree and chains index the results. */
    predicate Sized() {
      && claim.Sized()
      && |mem.cells| == Total() && |places| == Total()
      && |procs| == |chains|
      && (forall e, q :: 0 <= e < |chains| && 0 <= q < |chains[e]| ==> chains[e][q] < |mem.cells|)
    }

    function At(e: nat, p: Proc): Range
      requires e < |procs|
    {
      this.(procs := procs[e := p])
    }

    function With(m: Memory): Range {
      this.(mem := m)
    }
  }

  /** A freshly claimed and tracked range. */
  function Init(claim: Claim, chains: seq<seq<nat>>, places: seq<Place>): Range {
    Range(
      claim, chains, places,
      Memory(seq(claim.Total(), _ => PENDING), 0, false, true, None, {}, {}),
      seq(|chains|, _ => Unqueued), Open,
      0, false, ZERO, None, [], [])
  }

  // ---- The goroutine of one entry ----

  /** A predecessor that lets the chain go on. */
  predicate Passes(kind: OutcomeKind) {
    kind.Success? || kind.Terminal?
  }

  /** Positions a goroutine refers to lie on its chain. */
  predicate OnChain(p: Proc, len: nat) {
    match p
    case Unqueued | Queued | Dequeued => len > 0
    case Resolving(pos, at, _) => pos <= at < len
    case Writing(pos, at, _, _) => pos <= at < len
    case Adding(pos, at, _) => pos <= at < len
    case Deferring(pos, at) => pos < at <= len
    case _ => p.pos < len
  }

  function AfterResolve(pos: nat, at: nat): Proc {
    if at == pos then Checking(pos, false) else Deferring(pos, at + 1)
  }

  function AfterCommit(pos: nat, behind: bool): Proc {
    if behind then Exited(pos) else Reading(pos)
  }

  /** A step of entry e leaves the plan of the range, the other goroutines and the shutdown alone. */
  ghost predicate OnlyEntry(r: Range, s: Range, e: nat)
    requires e < |r.procs|
  {
    && s.claim == r.claim && s.chains == r.chains && s.places == r.places
    && |s.procs| == |r.procs| && s.procs == r.procs[e := s.procs[e]]
    && |s.mem.cells| == |r.mem.cells|
    && s.shutdown == r.shutdown && s.partial == r.partial
  }

  /** The queue, the dispatch loop, and the staleness check that opens processClaim. */
  function DispatchStep(r: Range, e: nat, c: Choice): (s: Range)
    requires r.Sized() && e < |r.procs|
    ensures OnlyEntry(r, s, e) && s.mem == r.mem
    ensures s.counters == r.counters && s.snapshots == r.snapshots && s.handled == r.handled
  {
    match r.procs[e]
    case Unqueued => if r.shutdown.Open? then r.At(e, Queued) else r
    case Queued => if r.shutdown.Open? then r.At(e, Dequeued) else r
    case Dequeued => r.At(e, Begin(0)).(dispatched := r.dispatched + if r.mem.tracked then 1 else 0)
    case Begin(pos) => r.At(e, if c.Stale? then Marking(pos) else Claiming(pos))
    case Marking(pos) => r.At(e, if r.mem.tracked then Flagging(pos) else Reading(pos))
    case Flagging(pos) => r.At(e, Reading(pos)).(stale := true)
    case _ => r
  }

  /** runItem up to the handler: the key lease and the payload. */
  function KeyStep(r: Range, e: nat, c: Choice): (s: Range)
    requires r.Sized() && e < |r.procs| && OnChain(r.procs[e], |r.chains[e]|) && r.procs[e].Claiming?
    ensures OnlyEntry(r, s, e)
    ensures s == r.(procs := s.procs, handled := s.handled)
    ensures s.procs[e] == r.procs[e] || s.procs[e].Running? || s.procs[e].Recording? || s.procs[e].Resolving?
  {
    var pos := r.procs[e].pos;
    var i := r.chains[e][pos];
    var policy := r.claim.policies[i];
    var holds := r.claim.keys[i] != "" && policy.HoldsKey();
    match c
    case KeyFailed(err) =>
      if holds then r.At(e, Resolving(pos, pos, Resolution(Exception, Cause(err), 0, policy))) else r
    case KeySuperseded =>
      if holds then r.At(e, Recording(pos, Resolution(Superseded, SupersededByNewer, 0, policy))) else r
    case KeyBusy =>
      if holds then r.At(e, Resolving(pos, pos, Resolution(Deferred, KeyHeldElsewhere, 0, policy))) else r
    case Undecodable(err) => r.At(e, Resolving(pos, pos, Resolution(Terminal, Cause(err), 0, policy)))
    case _ => r.At(e, Running(pos)).(handled := r.handled + [i])
  }

  /** The handler's answer. */
  function HandlerStep(r: Range, e: nat, c: Choice): (s: Range)
    requires r.Sized() && e < |r.procs| && OnChain(r.procs[e], |r.chains[e]|) && r.procs[e].Running?
    ensures OnlyEntry(r, s, e)
    ensures s == r.(procs := s.procs)
    ensures s.procs[e] == r.procs[e] || s.procs[e].Recording? || s.procs[e].Resolving?
  {
    var pos := r.procs[e].pos;
    var policy := r.claim.policies[r.chains[e][pos]];
    match c
    case HandlerOk => r.At(e, Recording(pos, Resolution(Success, NoError, 0, policy)))
    case HandlerFailed(err) => r.At(e, Resolving(pos, pos, Resolution(Exception, Cause(err), 0, policy)))
    case HandlerDead(err) => r.At(e, Resolving(pos, pos, Resolution(Terminal, Cause(err), 0, policy)))
    case HandlerDelayed(err, delay) => r.At(e, Resolving(pos, pos, Resolution(Delayed, Cause(err), delay, policy)))
    case _ => r
  }

  /** The session counter of a success or a superseded message, bumped before it is resolved. */
  function RecordStep(r: Range, e: nat): (s: Range)
    requires r.Sized() && e < |r.procs| && OnChain(r.procs[e], |r.chains[e]|) && r.procs[e].Recording?
    ensures OnlyEntry(r, s, e)
    ensures s == r.(procs := s.procs, mem := s.mem, counters := s.counters)
    ensures s.mem == r.mem.(succeeded := s.mem.succeeded, superseded := s.mem.superseded)
    ensures s.procs[e].Resolving?
  {
    var pos, res := r.procs[e].pos, r.procs[e].res;
    var i := r.chains[e][pos];
    var r1 := r.At(e, Resolving(pos, pos, res));
    if res.kind.Success? then
      r1.With(r.mem.(succeeded := r.mem.succeeded + {i})).(counters := r.counters.(success := r.counters.success + 1))
    else
      r1.With(r.mem.(superseded := r.mem.superseded + {i}))
      .(counters := r.counters.(superseded := r.counters.superseded + 1))
  }

  /** runItem: the key lease, the payload, the handler. */
  function RunStep(r: Range, e: nat, c: Choice): (s: Range)
    requires r.Sized() && e < |r.procs| && OnChain(r.procs[e], |r.chains[e]|)
    ensures OnlyEntry(r, s, e)
    ensures s.mem == r.mem.(succeeded := s.mem.succeeded, superseded := s.mem.superseded)
    ensures s.dispatched == r.dispatched && s.stale == r.stale && s.snapshots == r.snapshots
    ensures s.procs[e] == r.procs[e] || s.procs[e].Running? || s.procs[e].Recording? || s.procs[e].Resolving?
  {
    match r.procs[e]
    case Claiming(_) => KeyStep(r, e, c)
    case Running(_) => HandlerStep(r, e, c)
    case Recording(_, _) => RecordStep(r, e)
    case _ => r
  }

  /** claimBuffer.resolve: look the range up, write the four outcome fields, store done, count. */
  function ResolveStep(r: Range, e: nat): (s: Range)
    requires r.Sized() && e < |r.procs| && OnChain(r.procs[e], |r.chains[e]|)
    ensures OnlyEntry(r, s, e)
    ensures s.mem == r.mem.(cells := s.mem.cells, resolved := s.mem.resolved)
    ensures s == r.(procs := s.procs, mem := s.mem)
  {
    match r.procs[e]
    case Resolving(pos, at, res) => r.At(e, if r.mem.tracked then Writing(pos, at, res, 0) else AfterResolve(pos, at))
    case Writing(pos, at, res, field) =>
      var i := r.chains[e][at];
      if field < FIELDS then
        r.At(e, Writing(pos, at, res, field + 1)).With(r.mem.SetCell(i, WriteField(r.mem.cells[i], res, field)))
      else r.At(e, Adding(pos, at, res)).With(r.mem.SetCell(i, r.mem.cells[i].(done := true)))
    case Adding(pos, at, _) => r.At(e, AfterResolve(pos, at)).With(r.mem.(resolved := r.mem.resolved + 1))
    case _ => r
  }

  /** commitIfResolved up to the one-shot swap. */
  function SnapshotStep(r: Range, e: nat): (s: Range)
    requires r.Sized() && e < |r.procs|
    ensures OnlyEntry(r, s, e)
    ensures s.mem == r.mem.(committed := s.mem.committed)
    ensures s == r.(procs := s.procs, mem := s.mem)
  {
    match r.procs[e]
    case Checking(pos, behind) => r.At(e, if r.mem.tracked then Loading(pos, behind) else AfterCommit(pos, behind))
    case Loading(pos, behind) =>
      r.At(e, if r.mem.resolved == r.Total() then Requesting(pos, behind) else AfterCommit(pos, behind))
    case Requesting(pos, behind) => r.At(e, if r.mem.tracked then Rechecking(pos, behind) else AfterCommit(pos, behind))
    case Rechecking(pos, behind) =>
      r.At(e, if r.mem.resolved == r.Total() then Swapping(pos, behind) else AfterCommit(pos, behind))
    case Swapping(pos, behind) =>
      if r.mem.committed then r.At(e, AfterCommit(pos, behind))
      else r.At(e, Walking(pos, behind, 0, [])).With(r.mem.(committed := true))
    case _ => r
  }

  /** The snapshot walk and commitRange. */
  function CommitStep(r: Range, e: nat, c: Choice): (s: Range)
    requires r.Sized() && e < |r.procs|
    ensures OnlyEntry(r, s, e)
    ensures s.mem == r.mem.(tracked := s.mem.tracked, full := s.mem.full)
    ensures s.dispatched == r.dispatched && s.stale == r.stale && s.handled == r.handled
  {
    match r.procs[e]
    case Walking(pos, behind, next, outcomes) =>
      if next < |r.mem.cells| then
        var more := if r.claim.Reports(r.mem.cells[next]) then [OutcomeAt(r.claim, r.mem.cells, next)] else [];
        r.At(e, Walking(pos, behind, next + 1, outcomes + more))
      else r.At(e, Committing(pos, behind, outcomes)).(snapshots := r.snapshots + [outcomes])
    case Committing(pos, behind, outcomes) =>
      (match c
       case CommitLanded => r.At(e, Tallying(pos, behind)).With(r.mem.(full := Some(Landing(r.Total(), outcomes, 0))))
       case LeaseLost => r.At(e, Removing(pos, behind))
       case CommitFailed => r.At(e, AfterCommit(pos, behind))
       case _ => r)
    case Tallying(pos, behind) =>
      if r.mem.full.Some? && r.mem.full.value.next < |r.mem.full.value.outcomes| then
        var landing := r.mem.full.value;
        r.With(r.mem.(full := Some(landing.(next := landing.next + 1))))
        .(counters := Bump(r.counters, landing.outcomes[landing.next].kind))
      else r.At(e, Removing(pos, behind))
    case Removing(pos, behind) => r.At(e, AfterCommit(pos, behind)).With(r.mem.(tracked := false))
    case _ => r
  }

  /** processChain after the item's own turn: read its outcome, go on, or defer what is chained behind it. */
  function ChainStep(r: Range, e: nat): (s: Range)
    requires r.Sized() && e < |r.procs| && OnChain(r.procs[e], |r.chains[e]|)
    ensures OnlyEntry(r, s, e)
    ensures s == r.(procs := s.procs)
  {
    match r.procs[e]
    case Reading(pos) => r.At(e, if r.mem.tracked then Judging(pos) else Exited(pos))
    case Judging(pos) =>
      var cell := r.mem.cells[r.chains[e][pos]];
      if !cell.done then r.At(e, Exited(pos))
      else if !Passes(cell.kind) then r.At(e, Deferring(pos, pos + 1))
      else if pos + 1 < |r.chains[e]| then r.At(e, Begin(pos + 1))
      else r.At(e, Exited(pos))
    case Deferring(pos, at) =>
      if at < |r.chains[e]| then
        r.At(e, Resolving(pos, at, Resolution(Deferred, EarlierDidNotSucceed, 0, r.claim.policies[r.chains[e][at]])))
      else r.At(e, Checking(pos, true))
    case _ => r
  }

  function EntryStep(r: Range, e: nat, c: Choice): (s: Range)
    requires r.Sized() && e < |r.procs| && OnChain(r.procs[e], |r.chains[e]|)
    ensures OnlyEntry(r, s, e)
    ensures s.mem.cells == r.mem.cells || (r.procs[e].Writing? && s == ResolveStep(r, e))
  {
    match r.procs[e]
    case Unqueued | Queued | Dequeued | Begin(_) | Marking(_) | Flagging(_) => DispatchStep(r, e, c)
    case Claiming(_) | Running(_) | Recording(_, _) => RunStep(r, e, c)
    case Resolving(_, _, _) | Writing(_, _, _, _) | Adding(_, _, _) => ResolveStep(r, e)
    case Checking(_, _) | Loading(_, _) | Requesting(_, _) | Rechecking(_, _) | Swapping(_, _) => SnapshotStep(r, e)
    case Walking(_, _, _, _) | Committing(_, _, _) | Tallying(_, _) | Removing(_, _) => CommitStep(r, e, c)
    case _ => ChainStep(r, e)
  }

  // ---- The shutdown goroutine ----

  /** closeOpenRanges for this range. It starts once the dispatch loop has returned, so no entry is between
      its dequeue and its dispatch. */
  function ShutdownStep(r: Range, c: Choice): (s: Range)
    requires r.Sized()
    ensures s == r.(mem := s.mem, shutdown := s.shutdown, counters := s.counters, partial := s.partial)
    ensures s.mem == r.mem || s.mem == r.mem.(tracked := false)
  {
    match r.shutdown
    case Open =>
      if exists e :: 0 <= e < |r.procs| && r.procs[e].Dequeued? then r
      else r.With(r.mem.(tracked := false)).(shutdown := if r.mem.tracked then Deciding else Settled)
    case Deciding =>
      r.(shutdown := if r.dispatched == 0 && !r.stale then Surrendered else Sweeping(0, r.claim.lease.low, []))
    case Sweeping(next, last, outcomes) =>
      if next < |r.mem.cells| && r.mem.cells[next].done then
        var more := if r.claim.Reports(r.mem.cells[next]) then [OutcomeAt(r.claim, r.mem.cells, next)] else [];
        r.(shutdown := Sweeping(next + 1, r.claim.ids[next], outcomes + more))
      else r.(shutdown := Settling(next, last, outcomes))
    case Settling(cut, last, outcomes) =>
      if last == r.claim.lease.low && outcomes == [] then r.(shutdown := Settled)
      else
        (match c
         case CommitLanded => r.(shutdown := Counting, partial := Some(Landing(cut, outcomes, 0)))
         case LeaseLost | CommitFailed => r.(shutdown := Settled)
         case _ => r)
    case Counting =>
      if r.partial.Some? && r.partial.value.next < |r.partial.value.outcomes| then
        var landing := r.partial.value;
        r.(partial := Some(landing.(next := landing.next + 1)),
        counters := Bump(r.counters, landing.outcomes[landing.next].kind))
      else r.(shutdown := Settled)
    case Surrendered | Settled => r
  }

  // ---- Runs ----

  datatype Action = Entry(e: nat, choice: Choice) | Close(choice: Choice)

  ghost predicate Steppable(r: Range) {
    r.Sized() && forall e :: 0 <= e < |r.procs| ==> OnChain(r.procs[e], |r.chains[e]|)
  }

  function Step(r: Range, a: Action): Range
    requires Steppable(r)
  {
    match a
    case Entry(e, c) => if e < |r.procs| then EntryStep(r, e, c) else r
    case Close(c) => ShutdownStep(r, c)
  }
}
