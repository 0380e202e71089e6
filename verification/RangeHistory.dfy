/** What has happened to a range so far: which handlers started, what shutdown covered, what was counted. */
module RangeHistory {
  import opened Chains
  import opened Counting
  import opened RangeInvariant
  import opened RangeProtocol
  import opened RangeSafety
  import opened RangeSteps
  import opened RangeValues
  import opened Wrappers

  // ---- Results are written once ----

  lemma ResolveKeepsDone(r: Range, e: nat, i: nat)
    requires r.Sized() && e < |r.procs| && Own(r, e) && Know(r, e, e + 1)
    requires r.procs[e].Writing?
    requires i < |r.mem.cells| && r.mem.cells[i].done
    ensures ResolveStep(r, e).mem.cells[i] == r.mem.cells[i]
  {
  }

  lemma EntryKeepsDone(r: Range, e: nat, c: Choice, i: nat)
    requires r.Sized() && e < |r.procs| && Own(r, e) && Know(r, e, e + 1)
    requires i < |r.mem.cells| && r.mem.cells[i].done
    ensures EntryStep(r, e, c).mem.cells[i] == r.mem.cells[i]
  {
    if r.procs[e].Writing? {
      ResolveKeepsDone(r, e, i);
    }
  }

  lemma StepKeepsDone(r: Range, a: Action, i: nat)
    requires Inv(r) && i < |r.mem.cells| && r.mem.cells[i].done
    ensures |Step(r, a).mem.cells| == |r.mem.cells| && Step(r, a).mem.cells[i] == r.mem.cells[i]
  {
    if a.Entry? && a.e < |r.procs| {
      SplitOwns(r);
      EntryKeepsDone(r, a.e, a.choice, i);
    }
  }

  // ---- Handlers ----

  /** How many positions of its chain the goroutine has taken past the staleness check and the key lease. */
  function Progress(p: Proc): nat {
    match p
    case Unqueued | Queued | Dequeued => 0
    case Begin(pos) => pos
    case Marking(pos) => pos
    case Flagging(pos) => pos
    case Claiming(pos) => pos
    case _ => p.pos + 1
  }

  predicate StartedAt(p: Proc, q: nat) {
    q < Progress(p)
  }

  /** Each message's handler starts at most once, and only at a position its goroutine has reached. */
  ghost predicate HandledInv(r: Range)
    requires r.Sized()
  {
    && (forall a :: 0 <= a < |r.handled| ==>
          && r.handled[a] < r.Total()
          && r.places[r.handled[a]].entry < |r.procs|
          && StartedAt(r.procs[r.places[r.handled[a]].entry], r.places[r.handled[a]].pos))
    && (forall a, b :: 0 <= a < b < |r.handled| ==> r.handled[a] != r.handled[b])
  }

  lemma DispatchMovesOn(r: Range, e: nat, c: Choice)
    requires r.Sized() && e < |r.procs|
    ensures Progress(DispatchStep(r, e, c).procs[e]) >= Progress(r.procs[e])
  {
  }

  lemma RunMovesOn(r: Range, e: nat, c: Choice)
    requires r.Sized() && e < |r.procs| && OnChain(r.procs[e], |r.chains[e]|)
    ensures Progress(RunStep(r, e, c).procs[e]) >= Progress(r.procs[e])
  {
  }

  lemma ResolveMovesOn(r: Range, e: nat)
    requires r.Sized() && e < |r.procs| && OnChain(r.procs[e], |r.chains[e]|)
    ensures Progress(ResolveStep(r, e).procs[e]) >= Progress(r.procs[e])
  {
  }

  lemma SnapshotMovesOn(r: Range, e: nat)
    requires r.Sized() && e < |r.procs|
    ensures Progress(SnapshotStep(r, e).procs[e]) >= Progress(r.procs[e])
  {
  }

  lemma CommitMovesOn(r: Range, e: nat, c: Choice)
    requires r.Sized() && e < |r.procs|
    requires var p := r.procs[e]; p.Walking? || p.Committing? || p.Tallying? || p.Removing?
    ensures Progress(CommitStep(r, e, c).procs[e]) >= Progress(r.procs[e])
  {
  }

  lemma ChainMovesOn(r: Range, e: nat)
    requires r.Sized() && e < |r.procs| && OnChain(r.procs[e], |r.chains[e]|)
    ensures Progress(ChainStep(r, e).procs[e]) >= Progress(r.procs[e])
  {
  }

  lemma EntryMovesOn(r: Range, e: nat, c: Choice)
    requires r.Sized() && e < |r.procs| && OnChain(r.procs[e], |r.chains[e]|)
    ensures Progress(EntryStep(r, e, c).procs[e]) >= Progress(r.procs[e])
  {
    DispatchMovesOn(r, e, c);
    RunMovesOn(r, e, c);
    ResolveMovesOn(r, e);
    SnapshotMovesOn(r, e);
    var p := r.procs[e];
    if p.Walking? || p.Committing? || p.Tallying? || p.Removing? {
      CommitMovesOn(r, e, c);
    }
    ChainMovesOn(r, e);
  }

  lemma EntryHandled(r: Range, e: nat, c: Choice)
    requires r.Sized() && e < |r.procs| && OnChain(r.procs[e], |r.chains[e]|)
    ensures var s := EntryStep(r, e, c);
            s.handled == r.handled ||
            (r.procs[e].Claiming? && s.procs[e] == Running(r.procs[e].pos) &&
             s.handled == r.handled + [r.chains[e][r.procs[e].pos]])
  {
  }

  /** A handler that starts is that of a message whose goroutine had not come past it. */
  lemma NewlyHandled(r: Range, e: nat, c: Choice, a: nat)
    requires r.Sized() && HandledInv(r) && e < |r.procs| && Own(r, e) && OnChain(r.procs[e], |r.chains[e]|)
    requires a < |r.handled| && r.procs[e].Claiming?
    ensures r.handled[a] != r.chains[e][r.procs[e].pos]
  {
  }

  lemma HandledStayStarted(r: Range, e: nat, c: Choice, a: nat)
    requires r.Sized() && HandledInv(r) && e < |r.procs| && OnChain(r.procs[e], |r.chains[e]|) && a < |r.handled|
    ensures var s := EntryStep(r, e, c);
            StartedAt(s.procs[r.places[r.handled[a]].entry], r.places[r.handled[a]].pos)
  {
    if r.places[r.handled[a]].entry == e {
      EntryMovesOn(r, e, c);
    }
  }

  lemma EntryKeepsHandled(r: Range, e: nat, c: Choice)
    requires r.Sized() && HandledInv(r) && e < |r.procs| && Own(r, e) && OnChain(r.procs[e], |r.chains[e]|)
    ensures HandledInv(EntryStep(r, e, c))
  {
    var s := EntryStep(r, e, c);
    EntryHandled(r, e, c);
    forall a | 0 <= a < |r.handled|
      ensures StartedAt(s.procs[r.places[r.handled[a]].entry], r.places[r.handled[a]].pos)
      ensures r.procs[e].Claiming? ==> r.handled[a] != r.chains[e][r.procs[e].pos]
    {
      HandledStayStarted(r, e, c, a);
      if r.procs[e].Claiming? {
        NewlyHandled(r, e, c, a);
      }
    }
  }

  // ---- Accounts ----

  predicate IsReady(o: MessageOutcome) {
    o.kind.Exception? || o.kind.Delayed?
  }

  predicate IsDeferral(o: MessageOutcome) {
    o.kind.Deferred?
  }

  predicate IsDead(o: MessageOutcome) {
    o.kind.Terminal?
  }

  /** How many of the outcomes counted so far are of one sort. */
  function Tally(l: Option<Landing>, p: MessageOutcome -> bool): nat {
    if l.Some? && l.value.next <= |l.value.outcomes| then Count(l.value.outcomes[..l.value.next], p) else 0
  }

  ghost predicate PrefixDone(cells: seq<Cell>, n: nat) {
    n <= |cells| && forall i :: 0 <= i < n ==> cells[i].done
  }

  /** A landed commit covers resolved messages only, and reports exactly their outcomes. */
  ghost predicate LandingInv(claim: Claim, cells: seq<Cell>, l: Option<Landing>)
    requires claim.Sized() && |cells| == claim.Total()
  {
    l.Some? ==>
      PrefixDone(cells, l.value.cut) && l.value.outcomes == Collect(claim, cells, l.value.cut) &&
      l.value.next <= |l.value.outcomes|
  }

  /** Every resolved message is counted at its resolution exactly if it succeeded or was superseded. */
  ghost predicate Booked(m: Memory) {
    && (forall i :: 0 <= i < |m.cells| && m.cells[i].done ==> CountedAs(m, i, m.cells[i].kind))
    && (forall i :: i in m.succeeded || i in m.superseded ==> i < |m.cells|)
    && m.succeeded !! m.superseded
  }

  predicate BeforeLanding(p: Proc) {
    p.Walking? || p.Committing?
  }

  ghost predicate AccountInv(r: Range)
    requires r.Sized()
  {
    && Booked(r.mem)
    && LandingInv(r.claim, r.mem.cells, r.mem.full)
    && LandingInv(r.claim, r.mem.cells, r.partial)
    && (r.mem.full.Some? ==>
          r.mem.committed && r.mem.full.value.cut == r.Total() && Count(r.procs, BeforeLanding) == 0)
    && r.counters == Totals(|r.mem.succeeded|, |r.mem.superseded|, r.mem.full, r.partial)
  }

  /** The session counters a range has moved: resolutions as they happened, delivery rows as they were counted. */
  function Totals(succeeded: nat, superseded: nat, full: Option<Landing>, partial: Option<Landing>): Counters {
    Counters(
      succeeded, superseded,
      Tally(full, IsReady) + Tally(partial, IsReady),
      Tally(full, IsDeferral) + Tally(partial, IsDeferral),
      Tally(full, IsDead) + Tally(partial, IsDead))
  }

  lemma {:induction false} CollectFrame(claim: Claim, a: seq<Cell>, b: seq<Cell>, n: nat)
    requires claim.Sized() && |a| == |b| == claim.Total() && n <= |a|
    requires forall i :: 0 <= i < n ==> a[i] == b[i]
    ensures Collect(claim, a, n) == Collect(claim, b, n)
  {
    if n > 0 {
      CollectFrame(claim, a, b, n - 1);
    }
  }

  lemma LandingFrame(claim: Claim, a: seq<Cell>, b: seq<Cell>, l: Option<Landing>)
    requires claim.Sized() && |a| == |b| == claim.Total() && LandingInv(claim, a, l)
    requires forall i :: 0 <= i < |a| && a[i].done ==> b[i] == a[i]
    ensures LandingInv(claim, b, l)
  {
    if l.Some? {
      CollectFrame(claim, a, b, l.value.cut);
    }
  }

  /** Counting one more outcome of a landed commit, of either sort. */
  lemma BumpTotals(succeeded: nat, superseded: nat, l: Landing, other: Option<Landing>)
    requires l.next < |l.outcomes|
    ensures var kind := l.outcomes[l.next].kind;
            var next := Some(l.(next := l.next + 1));
            && Bump(Totals(succeeded, superseded, Some(l), other), kind) == Totals(succeeded, superseded, next, other)
            && Bump(Totals(succeeded, superseded, other, Some(l)), kind) == Totals(succeeded, superseded, other, next)
  {
    CountTake(l.outcomes, l.next, IsReady);
    CountTake(l.outcomes, l.next, IsDeferral);
    CountTake(l.outcomes, l.next, IsDead);
  }

  lemma QuietAccount(r: Range, s: Range, e: nat)
    requires r.Sized() && e < |r.procs| && OnlyEntry(r, s, e) && AccountInv(r)
    requires s.mem == r.mem.(resolved := s.mem.resolved, committed := s.mem.committed, tracked := s.mem.tracked)
    requires (r.mem.committed ==> s.mem.committed) && s.counters == r.counters
    requires r.mem.full.Some? && BeforeLanding(s.procs[e]) ==> BeforeLanding(r.procs[e])
    ensures s.Sized() && AccountInv(s)
  {
    CountUpdate(r.procs, e, s.procs[e], BeforeLanding);
  }

  lemma DispatchAccount(r: Range, e: nat, c: Choice)
    requires r.Sized() && e < |r.procs| && AccountInv(r) && !BeforeLanding(r.procs[e])
    ensures var s := DispatchStep(r, e, c); s.Sized() && AccountInv(s)
  {
    QuietAccount(r, DispatchStep(r, e, c), e);
  }

  lemma RunCountsNothing(r: Range, e: nat, c: Choice)
    requires r.Sized() && e < |r.procs| && OnChain(r.procs[e], |r.chains[e]|)
    requires r.procs[e].Claiming? || r.procs[e].Running?
    ensures var s := RunStep(r, e, c); s.mem == r.mem && s.counters == r.counters && !BeforeLanding(s.procs[e])
  {
  }

  lemma RunAccount(r: Range, e: nat, c: Choice)
    requires r.Sized() && e < |r.procs| && OnChain(r.procs[e], |r.chains[e]|) && AccountInv(r)
    requires r.procs[e].Claiming? || r.procs[e].Running?
    ensures var s := RunStep(r, e, c); s.Sized() && AccountInv(s)
  {
    RunCountsNothing(r, e, c);
    QuietAccount(r, RunStep(r, e, c), e);
  }

  /** Counting an unresolved message as succeeded or superseded. */
  lemma BookOne(m: Memory, i: nat, success: bool)
    requires Booked(m) && i < |m.cells| && !m.cells[i].done && Uncounted(m, i)
    ensures Booked(if success then m.(succeeded := m.succeeded + {i}) else m.(superseded := m.superseded + {i}))
  {
  }

  lemma RecordedIsUncounted(r: Range, e: nat)
    requires r.Sized() && e < |r.procs| && Know(r, e, e + 1) && r.procs[e].Recording?
    ensures var i := r.chains[e][r.procs[e].pos]; r.mem.cells[i] == PENDING && Uncounted(r.mem, i)
  {
  }

  lemma RecordAccount(r: Range, e: nat, c: Choice)
    requires r.Sized() && e < |r.procs| && Know(r, e, e + 1) && AccountInv(r)
    requires r.procs[e].Recording?
    ensures var s := RunStep(r, e, c); s.Sized() && AccountInv(s)
  {
    var i := r.chains[e][r.procs[e].pos];
    RecordedIsUncounted(r, e);
    BookOne(r.mem, i, r.procs[e].res.kind.Success?);
    CountUpdate(r.procs, e, RunStep(r, e, c).procs[e], BeforeLanding);
  }

  lemma ResolveAccount(r: Range, e: nat)
    requires r.Sized() && e < |r.procs| && OnChain(r.procs[e], |r.chains[e]|) && AccountInv(r)
    requires r.procs[e].Resolving? || r.procs[e].Adding?
    ensures var s := ResolveStep(r, e); s.Sized() && AccountInv(s)
  {
    QuietAccount(r, ResolveStep(r, e), e);
  }

  lemma SnapshotAccount(r: Range, e: nat)
    requires r.Sized() && e < |r.procs| && AccountInv(r) && !BeforeLanding(r.procs[e])
    ensures var s := SnapshotStep(r, e); s.Sized() && AccountInv(s)
  {
    QuietAccount(r, SnapshotStep(r, e), e);
  }

  lemma ChainAccount(r: Range, e: nat)
    requires r.Sized() && e < |r.procs| && OnChain(r.procs[e], |r.chains[e]|) && AccountInv(r)
    requires !BeforeLanding(r.procs[e])
    ensures var s := ChainStep(r, e); s.Sized() && AccountInv(s)
  {
    QuietAccount(r, ChainStep(r, e), e);
  }

  lemma WriteAccount(r: Range, e: nat)
    requires r.Sized() && e < |r.procs| && Own(r, e) && Know(r, e, e + 1) && AccountInv(r)
    requires r.procs[e].Writing?
    ensures var s := ResolveStep(r, e); s.Sized() && AccountInv(s)
  {
    var s := ResolveStep(r, e);
    CountUpdate(r.procs, e, s.procs[e], BeforeLanding);
    forall i | 0 <= i < |r.mem.cells| && r.mem.cells[i].done ensures s.mem.cells[i] == r.mem.cells[i] {
      ResolveKeepsDone(r, e, i);
    }
    LandingFrame(r.claim, r.mem.cells, s.mem.cells, r.mem.full);
    LandingFrame(r.claim, r.mem.cells, s.mem.cells, r.partial);
  }

  lemma LandAccount(r: Range, e: nat, c: Choice)
    requires r.Sized() && e < |r.procs| && Know(r, e, e + 1) && AccountInv(r) && OneSnapshot(r)
    requires r.procs[e].Committing?
    ensures var s := CommitStep(r, e, c); s.Sized() && AccountInv(s)
  {
    CountUpdate(r.procs, e, CommitStep(r, e, c).procs[e], BeforeLanding);
    SoleHolder(r, e);
  }

  lemma TallyAccount(r: Range, e: nat, c: Choice)
    requires r.Sized() && e < |r.procs| && AccountInv(r) && r.procs[e].Tallying?
    ensures var s := CommitStep(r, e, c); s.Sized() && AccountInv(s)
  {
    CountUpdate(r.procs, e, CommitStep(r, e, c).procs[e], BeforeLanding);
    if r.mem.full.Some? && r.mem.full.value.next < |r.mem.full.value.outcomes| {
      BumpTotals(|r.mem.succeeded|, |r.mem.superseded|, r.mem.full.value, r.partial);
    }
  }

  lemma HoldAccount(r: Range, e: nat, c: Choice)
    requires r.Sized() && e < |r.procs| && AccountInv(r)
    requires r.procs[e].Walking? || r.procs[e].Removing?
    ensures var s := CommitStep(r, e, c); s.Sized() && AccountInv(s)
  {
    QuietAccount(r, CommitStep(r, e, c), e);
  }

  /** The goroutine holding the snapshot is the only one before or after the landing. */
  lemma SoleHolder(r: Range, e: nat)
    requires r.Sized() && e < |r.procs| && Holds(r.procs[e]) && OneSnapshot(r)
    ensures Count(r.procs, BeforeLanding) == Bit(BeforeLanding(r.procs[e]))
  {
    forall f | 0 <= f < |r.procs| && f != e ensures !Holds(r.procs[f]) {
      if Holds(r.procs[f]) {
        CountTwo(r.procs, if e < f then e else f, if e < f then f else e, Holds);
      }
    }
    CountUpdate(r.procs, e, Unqueued, BeforeLanding);
    CountNone(r.procs[e := Unqueued], BeforeLanding);
  }

  lemma EntryAccount(r: Range, e: nat, c: Choice)
    requires r.Sized() && e < |r.procs| && Own(r, e) && Know(r, e, e + 1) && AccountInv(r) && OneSnapshot(r)
    ensures var s := EntryStep(r, e, c); s.Sized() && AccountInv(s)
  {
    var p := r.procs[e];
    if p.Recording? {
      RecordAccount(r, e, c);
    } else if p.Writing? {
      WriteAccount(r, e);
    } else if p.Committing? {
      LandAccount(r, e, c);
    } else if Progresses(p) {
      WorkAccount(r, e, c);
    } else {
      WrapUpAccount(r, e, c);
    }
  }

  lemma WorkAccount(r: Range, e: nat, c: Choice)
    requires r.Sized() && e < |r.procs| && OnChain(r.procs[e], |r.chains[e]|) && AccountInv(r)
    requires var p := r.procs[e]; Progresses(p) && !p.Recording? && !p.Writing?
    ensures var s := EntryStep(r, e, c); s.Sized() && AccountInv(s)
  {
    var p := r.procs[e];
    if p.Claiming? || p.Running? {
      RunAccount(r, e, c);
    } else if p.Resolving? || p.Adding? {
      ResolveAccount(r, e);
    } else {
      DispatchAccount(r, e, c);
    }
  }

  lemma WrapUpAccount(r: Range, e: nat, c: Choice)
    requires r.Sized() && e < |r.procs| && OnChain(r.procs[e], |r.chains[e]|) && AccountInv(r)
    requires !Progresses(r.procs[e]) && !r.procs[e].Committing?
    ensures var s := EntryStep(r, e, c); s.Sized() && AccountInv(s)
  {
    var p := r.procs[e];
    if p.Tallying? {
      TallyAccount(r, e, c);
    } else if p.Walking? || p.Removing? {
      HoldAccount(r, e, c);
    } else if p.Checking? || p.Loading? || p.Requesting? || p.Rechecking? || p.Swapping? {
      SnapshotAccount(r, e);
    } else {
      ChainAccount(r, e);
    }
  }

  // ---- Shutdown ----

  /** A sweep that has covered the first n messages. */
  ghost predicate Swept(r: Range, n: nat, last: int, outcomes: seq<MessageOutcome>)
    requires r.Sized()
  {
    PrefixDone(r.mem.cells, n) && last == Watermark(r.claim, n) && outcomes == Collect(r.claim, r.mem.cells, n)
  }

  ghost predicate ShutdownInv(r: Range)
    requires r.Sized()
  {
    match r.shutdown
    case Open | Deciding => r.partial.None?
    case Sweeping(next, last, outcomes) => r.partial.None? && Swept(r, next, last, outcomes)
    case Settling(cut, last, outcomes) => r.partial.None? && Swept(r, cut, last, outcomes)
    case Counting => r.partial.Some?
    case Surrendered => r.partial.None? && r.dispatched == 0
    case Settled => true
  }

  lemma EntryDispatch(r: Range, e: nat, c: Choice)
    requires r.Sized() && e < |r.procs| && OnChain(r.procs[e], |r.chains[e]|)
    ensures EntryStep(r, e, c).dispatched == r.dispatched || r.procs[e].Dequeued?
  {
  }

  lemma EntryKeepsShutdown(r: Range, e: nat, c: Choice)
    requires Inv(r) && e < |r.procs| && ShutdownInv(r)
    ensures ShutdownInv(EntryStep(r, e, c))
  {
    var s := EntryStep(r, e, c);
    SplitOwns(r);
    EntryDispatch(r, e, c);
    forall i | 0 <= i < |r.mem.cells| && r.mem.cells[i].done ensures s.mem.cells[i] == r.mem.cells[i] {
      EntryKeepsDone(r, e, c, i);
    }
    match r.shutdown
    case Sweeping(next, _, _) => CollectFrame(r.claim, r.mem.cells, s.mem.cells, next);
    case Settling(cut, _, _) => CollectFrame(r.claim, r.mem.cells, s.mem.cells, cut);
    case _ =>
  }

  lemma CloseKeepsShutdown(r: Range, c: Choice)
    requires Inv(r) && ShutdownInv(r)
    ensures ShutdownInv(ShutdownStep(r, c))
  {
  }

  lemma CountingAccount(r: Range, c: Choice)
    requires r.Sized() && AccountInv(r) && r.shutdown.Counting?
    ensures var s := ShutdownStep(r, c); s.Sized() && AccountInv(s)
  {
    if r.partial.Some? && r.partial.value.next < |r.partial.value.outcomes| {
      BumpTotals(|r.mem.succeeded|, |r.mem.superseded|, r.partial.value, r.mem.full);
    }
  }

  lemma CloseAccount(r: Range, c: Choice)
    requires r.Sized() && AccountInv(r) && ShutdownInv(r) && !r.shutdown.Counting?
    ensures var s := ShutdownStep(r, c); s.Sized() && AccountInv(s)
  {
  }

  // ---- Any run ----

  ghost predicate HistoryInv(r: Range)
    requires r.Sized()
  {
    HandledInv(r) && AccountInv(r) && ShutdownInv(r)
  }

  lemma StepKeepsHistory(r: Range, a: Action)
    requires Inv(r) && HistoryInv(r)
    ensures Inv(Step(r, a)) && HistoryInv(Step(r, a))
  {
    StepKeepsInv(r, a);
    SplitOwns(r);
    match a
    case Entry(e, c) =>
      if e < |r.procs| {
        assert Own(r, e);
        EntryKeepsHandled(r, e, c);
        EntryAccount(r, e, c);
        EntryKeepsShutdown(r, e, c);
      }
    case Close(c) =>
      if r.shutdown.Counting? {
        CountingAccount(r, c);
      } else {
        CloseAccount(r, c);
      }
      CloseKeepsShutdown(r, c);
  }

  lemma {:induction false} RunHistory(r: Range, actions: seq<Action>)
    requires Inv(r) && HistoryInv(r)
    ensures Run(r, actions).Sized() && HistoryInv(Run(r, actions))
    decreases |actions|
  {
    if actions != [] {
      StepKeepsHistory(r, actions[0]);
      RunHistory(Step(r, actions[0]), actions[1..]);
    }
  }

  lemma InitHistory(claim: Claim, chains: seq<seq<nat>>, places: seq<Place>)
    requires claim.Valid() && IsSplit(claim, chains, places)
    ensures Init(claim, chains, places).Sized() && HistoryInv(Init(claim, chains, places))
  {
  }
}
