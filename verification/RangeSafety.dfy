/** The invariant of the range protocol holds in every state of every run. */
module RangeSafety {
  import opened Chains
  import opened Counting
  import opened RangeInvariant
  import opened RangeProtocol
  import opened RangeSteps
  import opened RangeValues

  lemma SplitOwns(r: Range)
    requires r.Sized() && r.claim.Valid() && IsSplit(r.claim, r.chains, r.places)
    ensures forall e :: 0 <= e < |r.procs| ==> Own(r, e)
  {
    forall e | 0 <= e < |r.procs| ensures Own(r, e) {
      assert IsChain(r.claim, r.chains[e]);
    }
  }

  // ---- The entry steps, seen through the counters ----

  lemma EntryTouches(r: Range, e: nat, c: Choice)
    requires r.Sized() && e < |r.procs| && Own(r, e) && Know(r, e, e + 1)
    ensures Touches(r, EntryStep(r, e, c), e)
  {
    var p := r.procs[e];
    if p.Unqueued? || p.Queued? || p.Dequeued? || p.Begin? || p.Marking? || p.Flagging? {
      DispatchTouches(r, e, c);
    } else if p.Claiming? || p.Running? {
      ClaimTouches(r, e, c);
    } else if p.Recording? {
      RecordTouches(r, e, c);
    } else if p.Resolving? || p.Writing? || p.Adding? {
      ResolveTouches(r, e);
    } else if p.Checking? || p.Loading? || p.Requesting? || p.Rechecking? || p.Swapping? {
      SnapshotTouches(r, e);
    } else if p.Walking? || p.Committing? || p.Tallying? || p.Removing? {
      CommitTouches(r, e, c);
    } else {
      ChainTouches(r, e);
    }
  }

  lemma EntryKnows(r: Range, e: nat, c: Choice)
    requires r.Sized() && e < |r.procs| && Own(r, e) && Know(r, e, e + 1) && ResolvedCount(r)
    ensures var s := EntryStep(r, e, c); s.Sized() && Know(s, e, e + 1)
  {
    var p := r.procs[e];
    if p.Unqueued? || p.Queued? || p.Dequeued? || p.Begin? || p.Marking? || p.Flagging? {
      DispatchKnows(r, e, c);
    } else if p.Claiming? {
      ClaimKnows(r, e, c);
    } else if p.Running? {
      HandlerKnows(r, e, c);
    } else if p.Recording? {
      RecordKnows(r, e, c);
    } else if p.Resolving? {
      LookupKnows(r, e);
    } else if p.Writing? {
      WriteKnows(r, e);
    } else if p.Adding? {
      AddKnows(r, e);
    } else if p.Checking? || p.Requesting? {
      CheckKnows(r, e);
    } else if p.Loading? || p.Rechecking? {
      LoadKnows(r, e);
    } else if p.Swapping? {
      SwapKnows(r, e);
    } else {
      TailKnows(r, e, c);
    }
  }

  lemma TailKnows(r: Range, e: nat, c: Choice)
    requires r.Sized() && e < |r.procs| && Own(r, e) && Know(r, e, e + 1)
    requires var p := r.procs[e];
             p.Walking? || p.Committing? || p.Tallying? || p.Removing? ||
             p.Reading? || p.Judging? || p.Deferring? || p.Exited?
    ensures var s := EntryStep(r, e, c); s.Sized() && Know(s, e, e + 1)
  {
    var p := r.procs[e];
    if p.Walking? {
      WalkKnows(r, e, c);
    } else if p.Committing? {
      CommitKnows(r, e, c);
    } else if p.Tallying? {
      TallyKnows(r, e, c);
    } else if p.Removing? {
      RemoveKnows(r, e, c);
    } else if p.Judging? {
      JudgeKnows(r, e);
    } else if p.Deferring? {
      DeferKnows(r, e);
    } else {
      ReadKnows(r, e);
    }
  }

  // ---- The shared counters and flags ----

  lemma Counts(r: Range, s: Range, e: nat)
    requires e < |r.procs| && OnlyEntry(r, s, e)
    ensures Count(s.procs, IsAdding) + Bit(IsAdding(r.procs[e])) == Count(r.procs, IsAdding) + Bit(IsAdding(s.procs[e]))
    ensures Count(s.procs, IsStarted) + Bit(IsStarted(r.procs[e])) ==
            Count(r.procs, IsStarted) + Bit(IsStarted(s.procs[e]))
    ensures Count(s.procs, IsWalking) + Bit(IsWalking(r.procs[e])) ==
            Count(r.procs, IsWalking) + Bit(IsWalking(s.procs[e]))
    ensures Count(s.procs, Holds) + Bit(Holds(r.procs[e])) == Count(r.procs, Holds) + Bit(Holds(s.procs[e]))
  {
    CountUpdate(r.procs, e, s.procs[e], IsAdding);
    CountUpdate(r.procs, e, s.procs[e], IsStarted);
    CountUpdate(r.procs, e, s.procs[e], IsWalking);
    CountUpdate(r.procs, e, s.procs[e], Holds);
  }

  /** A range that stays open and fully resolved stays owed, unless the step spent the check that owed it. */
  lemma StillOwed(r: Range, s: Range, e: nat)
    requires r.Sized() && s.Sized() && e < |r.procs| && OnlyEntry(r, s, e) && NotStranded(r)
    requires s.mem.tracked && s.mem.resolved == s.Total() && !s.mem.committed ==>
               Owes(s.procs[e]) ||
               (r.mem.tracked && r.mem.resolved == r.Total() && !r.mem.committed && !Owes(r.procs[e]))
    ensures NotStranded(s)
  {
    if s.mem.tracked && s.mem.resolved == s.Total() && !s.mem.committed && !Owes(s.procs[e]) {
      var f :| 0 <= f < |r.procs| && Owes(r.procs[f]);
      assert f != e && s.procs[f] == r.procs[f];
    }
  }

  lemma DispatchShared(r: Range, e: nat, c: Choice)
    requires r.Sized() && e < |r.procs| && Know(r, e, e + 1) && SharedInv(r)
    requires var p := r.procs[e]; p.Unqueued? || p.Queued? || p.Dequeued? || p.Begin? || p.Marking?
    ensures var s := DispatchStep(r, e, c); s.Sized() && SharedInv(s)
  {
    var s := DispatchStep(r, e, c);
    Counts(r, s, e);
    StillOwed(r, s, e);
    if r.procs[e].Dequeued? {
      var first := r.chains[e][0];
      assert r.mem.cells[first] == PENDING;
    }
  }

  lemma FlagShared(r: Range, e: nat, c: Choice)
    requires r.Sized() && e < |r.procs| && Know(r, e, e + 1) && SharedInv(r) && r.procs[e].Flagging?
    ensures var s := DispatchStep(r, e, c); s.Sized() && SharedInv(s)
  {
    var s := DispatchStep(r, e, c);
    Counts(r, s, e);
    StillOwed(r, s, e);
    CountNone(r.procs, IsStarted);
  }

  lemma SwapShared(r: Range, e: nat)
    requires r.Sized() && e < |r.procs| && Know(r, e, e + 1) && SharedInv(r)
    requires r.procs[e].Swapping?
    ensures var s := SnapshotStep(r, e); s.Sized() && SharedInv(s)
  {
    var s := SnapshotStep(r, e);
    Counts(r, s, e);
    StillOwed(r, s, e);
  }

  lemma WalkShared(r: Range, e: nat, c: Choice)
    requires r.Sized() && e < |r.procs| && Know(r, e, e + 1) && SharedInv(r)
    requires r.procs[e].Walking?
    ensures var s := CommitStep(r, e, c); s.Sized() && SharedInv(s)
  {
    var s := CommitStep(r, e, c);
    Counts(r, s, e);
    StillOwed(r, s, e);
  }

  lemma LandShared(r: Range, e: nat, c: Choice)
    requires r.Sized() && e < |r.procs| && Know(r, e, e + 1) && SharedInv(r) && r.procs[e].Committing?
    ensures var s := CommitStep(r, e, c); s.Sized() && SharedInv(s)
  {
    var s := CommitStep(r, e, c);
    Counts(r, s, e);
    StillOwed(r, s, e);
  }

  lemma TallyShared(r: Range, e: nat, c: Choice)
    requires r.Sized() && e < |r.procs| && Know(r, e, e + 1) && SharedInv(r) && r.procs[e].Tallying?
    ensures var s := CommitStep(r, e, c); s.Sized() && SharedInv(s)
  {
    var s := CommitStep(r, e, c);
    Counts(r, s, e);
    StillOwed(r, s, e);
  }

  lemma RemoveShared(r: Range, e: nat, c: Choice)
    requires r.Sized() && e < |r.procs| && Know(r, e, e + 1) && SharedInv(r) && r.procs[e].Removing?
    ensures var s := CommitStep(r, e, c); s.Sized() && SharedInv(s)
  {
    var s := CommitStep(r, e, c);
    Counts(r, s, e);
    StillOwed(r, s, e);
  }

  /** A step that changes nothing the shared invariant speaks of. */
  lemma QuietShared(r: Range, s: Range, e: nat)
    requires r.Sized() && e < |r.procs| && OnlyEntry(r, s, e) && SharedInv(r)
    requires s.mem == r.mem.(succeeded := s.mem.succeeded, superseded := s.mem.superseded)
    requires s.dispatched == r.dispatched && s.stale == r.stale && s.snapshots == r.snapshots
    requires var p, q := r.procs[e], s.procs[e];
             IsAdding(p) == IsAdding(q) && IsStarted(p) == IsStarted(q) && IsWalking(p) == IsWalking(q) &&
             Holds(p) == Holds(q) && (q.Dequeued? ==> p.Dequeued?) &&
             (Owes(p) ==> Owes(q) || r.mem.resolved != r.Total() || !r.mem.tracked)
    ensures s.Sized() && SharedInv(s)
  {
    Counts(r, s, e);
    StillOwed(r, s, e);
  }

  lemma CheckShared(r: Range, e: nat)
    requires r.Sized() && e < |r.procs| && Know(r, e, e + 1) && SharedInv(r)
    requires r.procs[e].Checking? || r.procs[e].Requesting?
    ensures var s := SnapshotStep(r, e); s.Sized() && SharedInv(s)
  {
    QuietShared(r, SnapshotStep(r, e), e);
  }

  lemma LoadShared(r: Range, e: nat)
    requires r.Sized() && e < |r.procs| && Know(r, e, e + 1) && SharedInv(r)
    requires r.procs[e].Loading? || r.procs[e].Rechecking?
    ensures var s := SnapshotStep(r, e); s.Sized() && SharedInv(s)
  {
    QuietShared(r, SnapshotStep(r, e), e);
  }

  lemma RunShared(r: Range, e: nat, c: Choice)
    requires r.Sized() && e < |r.procs| && Know(r, e, e + 1) && SharedInv(r)
    requires var p := r.procs[e]; p.Claiming? || p.Running? || p.Recording?
    ensures var s := RunStep(r, e, c); s.Sized() && SharedInv(s)
  {
    QuietShared(r, RunStep(r, e, c), e);
  }

  lemma ReadShared(r: Range, e: nat)
    requires r.Sized() && e < |r.procs| && Know(r, e, e + 1) && SharedInv(r)
    requires var p := r.procs[e]; p.Reading? || p.Judging? || p.Exited?
    ensures var s := ChainStep(r, e); s.Sized() && SharedInv(s)
  {
    QuietShared(r, ChainStep(r, e), e);
  }

  lemma DeferShared(r: Range, e: nat)
    requires r.Sized() && e < |r.procs| && Know(r, e, e + 1) && SharedInv(r)
    requires r.procs[e].Deferring?
    ensures var s := ChainStep(r, e); s.Sized() && SharedInv(s)
  {
    if r.mem.resolved == r.Total() {
      FullyResolved(r);
    }
    QuietShared(r, ChainStep(r, e), e);
  }

  lemma LookupShared(r: Range, e: nat)
    requires r.Sized() && e < |r.procs| && Know(r, e, e + 1) && SharedInv(r)
    requires r.procs[e].Resolving?
    ensures var s := ResolveStep(r, e); s.Sized() && SharedInv(s)
  {
    QuietShared(r, ResolveStep(r, e), e);
  }

  /** A write to a result that is not done, by the goroutine whose message it is. */
  lemma CellShared(r: Range, s: Range, e: nat, i: nat)
    requires r.Sized() && e < |r.procs| && i < |r.mem.cells| && !r.mem.cells[i].done && SharedInv(r)
    requires |s.procs| == |r.procs| && |s.mem.cells| == |r.mem.cells|
    requires s == r.(procs := r.procs[e := s.procs[e]], mem := s.mem)
    requires s.mem == r.mem.(cells := r.mem.cells[i := s.mem.cells[i]])
    requires r.procs[e].Writing? && (s.procs[e].Writing? || s.procs[e].Adding?)
    requires s.mem.cells[i].done == s.procs[e].Adding?
    ensures s.Sized() && SharedInv(s)
  {
    Counts(r, s, e);
    CountUpdate(r.mem.cells, i, s.mem.cells[i], IsDone);
    StillOwed(r, s, e);
  }

  lemma WriteShared(r: Range, e: nat)
    requires r.Sized() && e < |r.procs| && Know(r, e, e + 1) && SharedInv(r)
    requires r.procs[e].Writing?
    ensures var s := ResolveStep(r, e); s.Sized() && SharedInv(s)
  {
    CellShared(r, ResolveStep(r, e), e, r.chains[e][r.procs[e].at]);
  }

  lemma AddShared(r: Range, e: nat)
    requires r.Sized() && e < |r.procs| && Know(r, e, e + 1) && SharedInv(r)
    requires r.procs[e].Adding?
    ensures var s := ResolveStep(r, e); s.Sized() && SharedInv(s)
  {
    var s := ResolveStep(r, e);
    Counts(r, s, e);
    StillOwed(r, s, e);
  }

  // ---- Any step, any run ----

  /** The steps up to a resolution. */
  lemma WorkShared(r: Range, e: nat, c: Choice)
    requires r.Sized() && e < |r.procs| && Know(r, e, e + 1) && SharedInv(r)
    requires Progresses(r.procs[e])
    ensures var s := EntryStep(r, e, c); s.Sized() && SharedInv(s)
  {
    var p := r.procs[e];
    if p.Resolving? {
      LookupShared(r, e);
    } else if p.Writing? {
      WriteShared(r, e);
    } else if p.Adding? {
      AddShared(r, e);
    } else if p.Claiming? || p.Running? || p.Recording? {
      RunShared(r, e, c);
    } else if p.Flagging? {
      FlagShared(r, e, c);
    } else {
      DispatchShared(r, e, c);
    }
  }

  predicate Progresses(p: Proc) {
    || p.Unqueued? || p.Queued? || p.Dequeued? || p.Begin? || p.Marking? || p.Flagging?
    || p.Claiming? || p.Running? || p.Recording? || p.Resolving? || p.Writing? || p.Adding?
  }

  /** The steps after a resolution. */
  lemma WrapUpShared(r: Range, e: nat, c: Choice)
    requires r.Sized() && e < |r.procs| && Know(r, e, e + 1) && SharedInv(r)
    requires !Progresses(r.procs[e])
    ensures var s := EntryStep(r, e, c); s.Sized() && SharedInv(s)
  {
    var p := r.procs[e];
    if p.Checking? || p.Requesting? {
      CheckShared(r, e);
    } else if p.Loading? || p.Rechecking? {
      LoadShared(r, e);
    } else if p.Swapping? {
      SwapShared(r, e);
    } else if p.Walking? {
      WalkShared(r, e, c);
    } else if p.Committing? {
      LandShared(r, e, c);
    } else if p.Tallying? {
      TallyShared(r, e, c);
    } else if p.Removing? {
      RemoveShared(r, e, c);
    } else if p.Deferring? {
      DeferShared(r, e);
    } else {
      ReadShared(r, e);
    }
  }

  lemma EntryShared(r: Range, e: nat, c: Choice)
    requires r.Sized() && e < |r.procs| && Know(r, e, e + 1) && SharedInv(r)
    ensures var s := EntryStep(r, e, c); s.Sized() && SharedInv(s)
  {
    if Progresses(r.procs[e]) {
      WorkShared(r, e, c);
    } else {
      WrapUpShared(r, e, c);
    }
  }

  lemma EntryKeepsInv(r: Range, e: nat, c: Choice)
    requires Inv(r) && e < |r.procs|
    ensures Inv(EntryStep(r, e, c))
  {
    SplitOwns(r);
    EntryTouches(r, e, c);
    EntryKnows(r, e, c);
    LocalsAfter(r, EntryStep(r, e, c), e);
    EntryShared(r, e, c);
  }

  lemma CloseShared(r: Range, c: Choice)
    requires r.Sized() && SharedInv(r)
    ensures var s := ShutdownStep(r, c); s.Sized() && SharedInv(s)
  {
  }

  lemma CloseKeepsInv(r: Range, c: Choice)
    requires Inv(r)
    ensures Inv(ShutdownStep(r, c))
  {
    var s := ShutdownStep(r, c);
    CloseShared(r, c);
    forall e | 0 <= e < |s.procs|
      ensures OnChain(s.procs[e], |s.chains[e]|) && LocalInv(s.claim, s.mem, s.chains[e], s.procs[e])
    {
      LocalInvFrame(r.claim, r.mem, s.mem, r.chains[e], r.procs[e]);
    }
  }

  lemma StepKeepsInv(r: Range, a: Action)
    requires Inv(r)
    ensures Inv(Step(r, a))
  {
    match a
    case Entry(e, c) => if e < |r.procs| { EntryKeepsInv(r, e, c); }
    case Close(c) => CloseKeepsInv(r, c);
  }

  lemma InitInv(claim: Claim, chains: seq<seq<nat>>, places: seq<Place>)
    requires claim.Valid() && claim.ids != [] && IsSplit(claim, chains, places)
    ensures Inv(Init(claim, chains, places))
  {
    var r := Init(claim, chains, places);
    CountNone(r.procs, IsAdding);
    CountNone(r.procs, IsStarted);
    CountNone(r.procs, IsWalking);
    CountNone(r.procs, Holds);
    CountNone(r.mem.cells, IsDone);
  }

  /** The state after a sequence of actions, which is any interleaving with any outside answers. */
  ghost function Run(r: Range, actions: seq<Action>): Range
    requires Inv(r)
    decreases |actions|
  {
    if actions == [] then r
    else
      StepKeepsInv(r, actions[0]);
      Run(Step(r, actions[0]), actions[1..])
  }

  lemma {:induction false} RunKeepsInv(r: Range, actions: seq<Action>)
    requires Inv(r)
    ensures Inv(Run(r, actions))
    decreases |actions|
  {
    if actions != [] {
      StepKeepsInv(r, actions[0]);
      RunKeepsInv(Step(r, actions[0]), actions[1..]);
    }
  }
}
