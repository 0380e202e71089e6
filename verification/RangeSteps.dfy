/** Every step of a queue entry's goroutine keeps what all goroutines know. */
module RangeSteps {
  import opened Chains
  import opened RangeInvariant
  import opened RangeProtocol
  import opened RangeValues
  import opened Sequences

  /** The messages of entry e's chain are its own, each at one position. */
  ghost predicate Own(r: Range, e: nat)
    requires r.Sized() && e < |r.chains|
  {
    && (forall q :: 0 <= q < |r.chains[e]| ==> r.places[r.chains[e][q]] == Place(e, q))
    && Distinct(r.chains[e])
  }

  /** The step of entry e wrote only its own place, results of its own chain, and flags that move one way. */
  ghost predicate Touches(r: Range, s: Range, e: nat)
    requires r.Sized() && e < |r.procs|
  {
    && s.claim == r.claim && s.chains == r.chains && s.places == r.places
    && |s.procs| == |r.procs| && s.procs == r.procs[e := s.procs[e]]
    && (s.mem == r.mem || Moves(r, s.mem, e))
  }

  ghost predicate Moves(r: Range, n: Memory, e: nat)
    requires r.Sized()
  {
    && |n.cells| == |r.mem.cells|
    && (forall i :: 0 <= i < |r.mem.cells| && r.places[i].entry != e ==>
          && n.cells[i] == r.mem.cells[i]
          && (i in n.succeeded <==> i in r.mem.succeeded)
          && (i in n.superseded <==> i in r.mem.superseded))
    && (n.tracked ==> r.mem.tracked)
    && (r.mem.committed ==> n.committed)
    && (AllDone(r.mem.cells) ==> n.cells == r.mem.cells)
    && (r.mem.full.Some? ==> n.full.Some?)
  }

  lemma TouchesOthers(r: Range, s: Range, e: nat, f: nat)
    requires r.Sized() && e < |r.procs| && f < |r.procs| && f != e && Own(r, f) && Touches(r, s, e)
    ensures Preserves(r.mem, s.mem, r.chains[f])
  {
  }

  /** Enough for a step of entry e: it kept its own part, so everything local holds after it. */
  lemma LocalsAfter(r: Range, s: Range, e: nat)
    requires r.Sized() && Locals(r) && e < |r.procs| && Touches(r, s, e)
    requires forall f :: 0 <= f < |r.procs| ==> Own(r, f)
    requires s.Sized() && Know(s, e, e + 1)
    ensures Locals(s)
  {
    forall f | 0 <= f < |s.procs|
      ensures OnChain(s.procs[f], |s.chains[f]|) && LocalInv(s.claim, s.mem, s.chains[f], s.procs[f])
    {
      if f != e {
        TouchesOthers(r, s, e, f);
        LocalInvFrame(r.claim, r.mem, s.mem, r.chains[f], r.procs[f]);
      }
    }
  }

  // ---- How phases lead to one another ----

  /** A goroutine that leaves its message unresolved. */
  lemma LeaveUnresolved(m: Memory, chain: seq<nat>, pos: nat)
    requires InRange(m, chain) && pos < |chain| && InPhase(m, chain, Before(pos))
    ensures InPhase(m, chain, After(pos))
  {
  }

  /** A resolution that was written, or fenced off by the settled range. */
  lemma LeaveResolve(m: Memory, chain: seq<nat>, pos: nat, at: nat, kind: OutcomeKind)
    requires InRange(m, chain) && pos <= at < |chain| && InPhase(m, chain, Within(pos, at, kind))
    requires var c := m.cells[chain[at]]; if c.done then c.kind == kind else c == PENDING && !m.tracked
    ensures FitsChain(PhaseOf(AfterResolve(pos, at), |chain|), |chain|)
    ensures InPhase(m, chain, PhaseOf(AfterResolve(pos, at), |chain|))
  {
  }

  lemma LeaveCommit(m: Memory, chain: seq<nat>, pos: nat, behind: bool)
    requires InRange(m, chain) && pos < |chain|
    requires InPhase(m, chain, if behind then Halted(pos, |chain|) else After(pos))
    ensures InPhase(m, chain, PhaseOf(AfterCommit(pos, behind), |chain|))
  {
  }

  lemma LeaveTurn(m: Memory, chain: seq<nat>, pos: nat)
    requires InRange(m, chain) && pos < |chain| && InPhase(m, chain, After(pos))
    ensures InPhase(m, chain, Over(pos))
  {
  }

  lemma BlockTurn(m: Memory, chain: seq<nat>, pos: nat)
    requires InRange(m, chain) && pos < |chain| && InPhase(m, chain, After(pos)) && Blocked(m, chain[pos])
    ensures InPhase(m, chain, Halted(pos, pos + 1))
  {
  }

  lemma NextTurn(m: Memory, chain: seq<nat>, pos: nat)
    requires InRange(m, chain) && pos + 1 < |chain| && InPhase(m, chain, After(pos))
    requires var c := m.cells[chain[pos]]; c.done && Passes(c.kind)
    ensures InPhase(m, chain, Before(pos + 1))
  {
  }

  lemma DeferNext(m: Memory, chain: seq<nat>, pos: nat, at: nat)
    requires InRange(m, chain) && pos < at < |chain| && InPhase(m, chain, Halted(pos, at))
    ensures InPhase(m, chain, Within(pos, at, Deferred)) && m.cells[chain[at]] == PENDING
  {
  }

  /** Counting the message at pos as succeeded or superseded opens its resolution. */
  lemma RecordPhase(m: Memory, n: Memory, chain: seq<nat>, pos: nat, kind: OutcomeKind)
    requires InRange(m, chain) && pos < |chain| && Distinct(chain) && InPhase(m, chain, Before(pos))
    requires n.cells == m.cells && n.tracked == m.tracked
    requires kind.Success? || kind.Superseded?
    requires n.succeeded == m.succeeded + (if kind.Success? then {chain[pos]} else {})
    requires n.superseded == m.superseded + (if kind.Superseded? then {chain[pos]} else {})
    ensures InPhase(n, chain, Within(pos, pos, kind))
  {
  }

  /** Writing the cell of the message being resolved leaves the rest of the phase as it was. */
  lemma WritePhase(m: Memory, chain: seq<nat>, pos: nat, at: nat, kind: OutcomeKind, c: Cell)
    requires InRange(m, chain) && pos <= at < |chain| && Distinct(chain) && InPhase(m, chain, Within(pos, at, kind))
    ensures InPhase(m.SetCell(chain[at], c), chain, Within(pos, at, kind))
  {
  }

  // ---- What each step touches, and what its goroutine knows next ----

  lemma DispatchTouches(r: Range, e: nat, c: Choice)
    requires r.Sized() && e < |r.procs| && Own(r, e) && Know(r, e, e + 1)
    requires var p := r.procs[e]; p.Unqueued? || p.Queued? || p.Dequeued? || p.Begin? || p.Marking? || p.Flagging?
    ensures Touches(r, DispatchStep(r, e, c), e)
  {
  }

  lemma ClaimTouches(r: Range, e: nat, c: Choice)
    requires r.Sized() && e < |r.procs| && Own(r, e) && Know(r, e, e + 1)
    requires var p := r.procs[e]; p.Claiming? || p.Running?
    ensures Touches(r, RunStep(r, e, c), e)
  {
  }

  lemma RecordTouches(r: Range, e: nat, c: Choice)
    requires r.Sized() && e < |r.procs| && Own(r, e) && Know(r, e, e + 1)
    requires var p := r.procs[e]; p.Recording?
    ensures Touches(r, RunStep(r, e, c), e)
  {
  }

  lemma ResolveTouches(r: Range, e: nat)
    requires r.Sized() && e < |r.procs| && Own(r, e) && Know(r, e, e + 1)
    requires var p := r.procs[e]; p.Resolving? || p.Writing? || p.Adding?
    ensures Touches(r, ResolveStep(r, e), e)
  {
  }

  lemma SnapshotTouches(r: Range, e: nat)
    requires r.Sized() && e < |r.procs| && Own(r, e) && Know(r, e, e + 1)
    requires var p := r.procs[e]; p.Checking? || p.Loading? || p.Requesting? || p.Rechecking? || p.Swapping?
    ensures Touches(r, SnapshotStep(r, e), e)
  {
  }

  lemma CommitTouches(r: Range, e: nat, c: Choice)
    requires r.Sized() && e < |r.procs| && Own(r, e) && Know(r, e, e + 1)
    requires var p := r.procs[e]; p.Walking? || p.Committing? || p.Tallying? || p.Removing?
    ensures Touches(r, CommitStep(r, e, c), e)
  {
  }

  lemma ChainTouches(r: Range, e: nat)
    requires r.Sized() && e < |r.procs| && Own(r, e) && Know(r, e, e + 1)
    requires var p := r.procs[e]; p.Reading? || p.Judging? || p.Deferring? || p.Exited?
    ensures Touches(r, ChainStep(r, e), e)
  {
  }

  lemma DispatchKnows(r: Range, e: nat, c: Choice)
    requires r.Sized() && e < |r.procs| && Own(r, e) && Know(r, e, e + 1)
    requires var p := r.procs[e]; p.Unqueued? || p.Queued? || p.Dequeued? || p.Begin? || p.Marking? || p.Flagging?
    ensures var s := DispatchStep(r, e, c); s.Sized() && Know(s, e, e + 1)
  {
    var s := DispatchStep(r, e, c);
    var chain, p := r.chains[e], r.procs[e];
    if p.Marking? || p.Flagging? {
      LeaveUnresolved(s.mem, chain, p.pos);
    }
  }

  lemma ClaimKnows(r: Range, e: nat, c: Choice)
    requires r.Sized() && e < |r.procs| && Own(r, e) && Know(r, e, e + 1)
    requires var p := r.procs[e]; p.Claiming?
    ensures var s := RunStep(r, e, c); s.Sized() && Know(s, e, e + 1)
  {
  }

  lemma HandlerKnows(r: Range, e: nat, c: Choice)
    requires r.Sized() && e < |r.procs| && Own(r, e) && Know(r, e, e + 1)
    requires var p := r.procs[e]; p.Running?
    ensures var s := RunStep(r, e, c); s.Sized() && Know(s, e, e + 1)
  {
  }

  lemma RecordKnows(r: Range, e: nat, c: Choice)
    requires r.Sized() && e < |r.procs| && Own(r, e) && Know(r, e, e + 1)
    requires var p := r.procs[e]; p.Recording?
    ensures var s := RunStep(r, e, c); s.Sized() && Know(s, e, e + 1)
  {
    var s := RunStep(r, e, c);
    var chain, p := r.chains[e], r.procs[e];
    RecordPhase(r.mem, s.mem, chain, p.pos, p.res.kind);
  }

  lemma LookupKnows(r: Range, e: nat)
    requires r.Sized() && e < |r.procs| && Own(r, e) && Know(r, e, e + 1)
    requires var p := r.procs[e]; p.Resolving?
    ensures var s := ResolveStep(r, e); s.Sized() && Know(s, e, e + 1)
  {
    var s := ResolveStep(r, e);
    var chain, p := r.chains[e], r.procs[e];
    if !r.mem.tracked {
      LeaveResolve(s.mem, chain, p.pos, p.at, p.res.kind);
    }
  }

  lemma WriteKnows(r: Range, e: nat)
    requires r.Sized() && e < |r.procs| && Own(r, e) && Know(r, e, e + 1)
    requires var p := r.procs[e]; p.Writing?
    ensures var s := ResolveStep(r, e); s.Sized() && Know(s, e, e + 1)
  {
    var s := ResolveStep(r, e);
    var chain, p := r.chains[e], r.procs[e];
    WritePhase(r.mem, chain, p.pos, p.at, p.res.kind, s.mem.cells[chain[p.at]]);
  }

  lemma AddKnows(r: Range, e: nat)
    requires r.Sized() && e < |r.procs| && Own(r, e) && Know(r, e, e + 1)
    requires var p := r.procs[e]; p.Adding?
    ensures var s := ResolveStep(r, e); s.Sized() && Know(s, e, e + 1)
  {
    var s := ResolveStep(r, e);
    var chain, p := r.chains[e], r.procs[e];
    PhaseFrame(r.mem, s.mem, chain, PhaseOf(p, |chain|));
    LeaveResolve(s.mem, chain, p.pos, p.at, p.res.kind);
  }

  lemma CheckKnows(r: Range, e: nat)
    requires r.Sized() && e < |r.procs| && Own(r, e) && Know(r, e, e + 1)
    requires var p := r.procs[e]; p.Checking? || p.Requesting?
    ensures var s := SnapshotStep(r, e); s.Sized() && Know(s, e, e + 1)
  {
    var s := SnapshotStep(r, e);
    var chain, p := r.chains[e], r.procs[e];
    if !r.mem.tracked {
      LeaveCommit(s.mem, chain, p.pos, p.behind);
    }
  }

  lemma LoadKnows(r: Range, e: nat)
    requires r.Sized() && e < |r.procs| && Own(r, e) && Know(r, e, e + 1)
    requires var p := r.procs[e]; p.Loading? || p.Rechecking?
    requires ResolvedCount(r)
    ensures var s := SnapshotStep(r, e); s.Sized() && Know(s, e, e + 1)
  {
    var s := SnapshotStep(r, e);
    var chain, p := r.chains[e], r.procs[e];
    if r.mem.resolved == r.Total() {
      FullyResolved(r);
    } else {
      LeaveCommit(s.mem, chain, p.pos, p.behind);
    }
  }

  lemma LostSwapKnows(r: Range, e: nat)
    requires r.Sized() && e < |r.procs| && Own(r, e) && Know(r, e, e + 1)
    requires r.procs[e].Swapping? && r.mem.committed
    ensures var s := SnapshotStep(r, e); s.Sized() && Know(s, e, e + 1)
  {
    LeaveCommit(r.mem, r.chains[e], r.procs[e].pos, r.procs[e].behind);
  }

  lemma WonSwapKnows(r: Range, e: nat)
    requires r.Sized() && e < |r.procs| && Own(r, e) && Know(r, e, e + 1)
    requires r.procs[e].Swapping? && !r.mem.committed
    ensures var s := SnapshotStep(r, e); s.Sized() && Know(s, e, e + 1)
  {
    var s := SnapshotStep(r, e);
    var chain, p := r.chains[e], r.procs[e];
    PhaseFrame(r.mem, s.mem, chain, PhaseOf(p, |chain|));
  }

  lemma SwapKnows(r: Range, e: nat)
    requires r.Sized() && e < |r.procs| && Own(r, e) && Know(r, e, e + 1) && r.procs[e].Swapping?
    ensures var s := SnapshotStep(r, e); s.Sized() && Know(s, e, e + 1)
  {
    if r.mem.committed {
      LostSwapKnows(r, e);
    } else {
      WonSwapKnows(r, e);
    }
  }

  lemma WalkKnows(r: Range, e: nat, c: Choice)
    requires r.Sized() && e < |r.procs| && Own(r, e) && Know(r, e, e + 1)
    requires var p := r.procs[e]; p.Walking?
    ensures var s := CommitStep(r, e, c); s.Sized() && Know(s, e, e + 1)
  {
  }

  lemma LandKnows(r: Range, e: nat)
    requires r.Sized() && e < |r.procs| && Own(r, e) && Know(r, e, e + 1)
    requires r.procs[e].Committing?
    ensures var s := CommitStep(r, e, CommitLanded); s.Sized() && Know(s, e, e + 1)
  {
    var s := CommitStep(r, e, CommitLanded);
    PhaseFrame(r.mem, s.mem, r.chains[e], PhaseOf(r.procs[e], |r.chains[e]|));
  }

  lemma FailedCommitKnows(r: Range, e: nat)
    requires r.Sized() && e < |r.procs| && Own(r, e) && Know(r, e, e + 1)
    requires r.procs[e].Committing?
    ensures var s := CommitStep(r, e, CommitFailed); s.Sized() && Know(s, e, e + 1)
  {
    LeaveCommit(r.mem, r.chains[e], r.procs[e].pos, r.procs[e].behind);
  }

  lemma CommitKnows(r: Range, e: nat, c: Choice)
    requires r.Sized() && e < |r.procs| && Own(r, e) && Know(r, e, e + 1)
    requires r.procs[e].Committing?
    ensures var s := CommitStep(r, e, c); s.Sized() && Know(s, e, e + 1)
  {
    if c.CommitLanded? {
      LandKnows(r, e);
    } else if c.CommitFailed? {
      FailedCommitKnows(r, e);
    }
  }

  lemma TallyKnows(r: Range, e: nat, c: Choice)
    requires r.Sized() && e < |r.procs| && Own(r, e) && Know(r, e, e + 1)
    requires var p := r.procs[e]; p.Tallying?
    ensures var s := CommitStep(r, e, c); s.Sized() && Know(s, e, e + 1)
  {
    var s := CommitStep(r, e, c);
    var chain, p := r.chains[e], r.procs[e];
    PhaseFrame(r.mem, s.mem, chain, PhaseOf(p, |chain|));
  }

  lemma RemoveKnows(r: Range, e: nat, c: Choice)
    requires r.Sized() && e < |r.procs| && Own(r, e) && Know(r, e, e + 1)
    requires var p := r.procs[e]; p.Removing?
    ensures var s := CommitStep(r, e, c); s.Sized() && Know(s, e, e + 1)
  {
    var s := CommitStep(r, e, c);
    var chain, p := r.chains[e], r.procs[e];
    PhaseFrame(r.mem, s.mem, chain, PhaseOf(p, |chain|));
    LeaveCommit(s.mem, chain, p.pos, p.behind);
  }

  lemma ReadKnows(r: Range, e: nat)
    requires r.Sized() && e < |r.procs| && Own(r, e) && Know(r, e, e + 1)
    requires var p := r.procs[e]; p.Reading? || p.Exited?
    ensures var s := ChainStep(r, e); s.Sized() && Know(s, e, e + 1)
  {
    var s := ChainStep(r, e);
    var chain, p := r.chains[e], r.procs[e];
    if p.Reading? {
      LeaveTurn(s.mem, chain, p.pos);
    }
  }

  lemma JudgeKnows(r: Range, e: nat)
    requires r.Sized() && e < |r.procs| && Own(r, e) && Know(r, e, e + 1)
    requires var p := r.procs[e]; p.Judging?
    ensures var s := ChainStep(r, e); s.Sized() && Know(s, e, e + 1)
  {
    var s := ChainStep(r, e);
    var chain, p := r.chains[e], r.procs[e];
    var c := r.mem.cells[chain[p.pos]];
    if Blocked(r.mem, chain[p.pos]) {
      BlockTurn(s.mem, chain, p.pos);
    } else if c.done && p.pos + 1 < |chain| {
      NextTurn(s.mem, chain, p.pos);
    } else {
      LeaveTurn(s.mem, chain, p.pos);
    }
  }

  lemma DeferKnows(r: Range, e: nat)
    requires r.Sized() && e < |r.procs| && Own(r, e) && Know(r, e, e + 1)
    requires var p := r.procs[e]; p.Deferring?
    ensures var s := ChainStep(r, e); s.Sized() && Know(s, e, e + 1)
  {
    var s := ChainStep(r, e);
    var chain, p := r.chains[e], r.procs[e];
    if p.at < |chain| {
      DeferNext(s.mem, chain, p.pos, p.at);
    }
  }
}
