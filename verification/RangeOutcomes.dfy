/** What a recorded outcome tells about the handler, over every run. */
module RangeOutcomes {
  import opened Chains
  import opened RangeHistory
  import opened RangeInvariant
  import opened RangeProtocol
  import opened RangeSafety
  import opened RangeSteps
  import opened RangeTheorems
  import opened RangeValues

  /** A success and a requested delay come from a handler that ran; a superseded or deferred message's never did.
      A failure or a dead letter may come from either side. */
  predicate Tells(handled: seq<nat>, i: nat, kind: OutcomeKind) {
    && (kind.Success? || kind.Delayed? ==> i in handled)
    && (kind.Superseded? || kind.Deferred? ==> i !in handled)
  }

  /** So does the resolution a goroutine holds for a message of its chain. */
  ghost predicate ProcTells(handled: seq<nat>, chain: seq<nat>, p: Proc)
    requires OnChain(p, |chain|)
  {
    match p
    case Running(pos) => chain[pos] in handled
    case Recording(pos, res) => Tells(handled, chain[pos], res.kind)
    case Resolving(_, at, res) => Tells(handled, chain[at], res.kind)
    case Writing(_, at, res, _) => Tells(handled, chain[at], res.kind)
    case Adding(_, at, res) => Tells(handled, chain[at], res.kind)
    case _ => true
  }

  ghost predicate CellsTell(handled: seq<nat>, cells: seq<Cell>) {
    forall i :: 0 <= i < |cells| && cells[i].done ==> Tells(handled, i, cells[i].kind)
  }

  ghost predicate ProcsTell(r: Range, lo: nat, hi: nat)
    requires r.Sized() && lo <= hi <= |r.procs|
  {
    forall e :: lo <= e < hi ==> OnChain(r.procs[e], |r.chains[e]|) && ProcTells(r.handled, r.chains[e], r.procs[e])
  }

  ghost predicate OutcomesTell(r: Range)
    requires r.Sized()
  {
    CellsTell(r.handled, r.mem.cells) && ProcsTell(r, 0, |r.procs|)
  }

  lemma NotReached(r: Range, e: nat, q: nat)
    requires r.Sized() && HandledInv(r) && e < |r.procs| && Own(r, e)
    requires q < |r.chains[e]| && q >= Progress(r.procs[e])
    ensures r.chains[e][q] !in r.handled
  {
    if r.chains[e][q] in r.handled {
      HandledReached(r, e, q);
    }
  }

  // ---- The goroutine that takes the step ----

  lemma RunTells(r: Range, e: nat, c: Choice)
    requires r.Sized() && HandledInv(r) && e < |r.procs| && Own(r, e) && ProcsTell(r, e, e + 1)
    requires r.procs[e].Claiming? || r.procs[e].Running? || r.procs[e].Recording?
    ensures var s := RunStep(r, e, c); s.Sized() && ProcsTell(s, e, e + 1)
  {
    if r.procs[e].Claiming? {
      NotReached(r, e, r.procs[e].pos);
    }
  }

  lemma ResolveTells(r: Range, e: nat)
    requires r.Sized() && e < |r.procs| && ProcsTell(r, e, e + 1)
    ensures var s := ResolveStep(r, e); s.Sized() && ProcsTell(s, e, e + 1)
  {
  }

  lemma ChainTells(r: Range, e: nat)
    requires r.Sized() && HandledInv(r) && e < |r.procs| && Own(r, e) && ProcsTell(r, e, e + 1)
    ensures var s := ChainStep(r, e); s.Sized() && ProcsTell(s, e, e + 1)
  {
    if r.procs[e].Deferring? && r.procs[e].at < |r.chains[e]| {
      NotReached(r, e, r.procs[e].at);
    }
  }

  lemma DispatchTells(r: Range, e: nat, c: Choice)
    requires r.Sized() && e < |r.procs| && OnChain(r.procs[e], |r.chains[e]|)
    ensures var s := DispatchStep(r, e, c); s.Sized() && (s == r || ProcsTell(s, e, e + 1))
  {
  }

  lemma SnapshotTells(r: Range, e: nat)
    requires r.Sized() && e < |r.procs| && OnChain(r.procs[e], |r.chains[e]|)
    ensures var s := SnapshotStep(r, e); s.Sized() && (s == r || ProcsTell(s, e, e + 1))
  {
  }

  lemma CommitTells(r: Range, e: nat, c: Choice)
    requires r.Sized() && e < |r.procs| && OnChain(r.procs[e], |r.chains[e]|)
    requires var p := r.procs[e]; p.Walking? || p.Committing? || p.Tallying? || p.Removing?
    ensures var s := CommitStep(r, e, c); s.Sized() && ProcsTell(s, e, e + 1)
  {
  }

  lemma OwnTells(r: Range, e: nat, c: Choice)
    requires r.Sized() && HandledInv(r) && e < |r.procs| && Own(r, e) && ProcsTell(r, e, e + 1)
    ensures var s := EntryStep(r, e, c); s.Sized() && ProcsTell(s, e, e + 1)
  {
    var p := r.procs[e];
    if p.Claiming? || p.Running? || p.Recording? {
      RunTells(r, e, c);
    } else if p.Resolving? || p.Writing? || p.Adding? {
      ResolveTells(r, e);
    } else if p.Walking? || p.Committing? || p.Tallying? || p.Removing? {
      CommitTells(r, e, c);
    } else {
      DispatchTells(r, e, c);
      SnapshotTells(r, e);
      ChainTells(r, e);
    }
  }

  // ---- The others, and the results ----

  /** A step starts no handler but that of a message its own goroutine holds, and not resolved. */
  lemma HandlesOwn(r: Range, e: nat, c: Choice, i: nat)
    requires r.Sized() && e < |r.procs| && Know(r, e, e + 1) && i < r.Total()
    requires i in EntryStep(r, e, c).handled && i !in r.handled
    ensures r.procs[e].Claiming? && i == r.chains[e][r.procs[e].pos] && !r.mem.cells[i].done
  {
    EntryHandled(r, e, c);
  }

  lemma OthersTell(r: Range, e: nat, c: Choice, f: nat)
    requires r.Sized() && e < |r.procs| && f < |r.procs| && f != e && Own(r, e) && Own(r, f)
    requires Know(r, e, e + 1) && ProcsTell(r, f, f + 1)
    ensures var s := EntryStep(r, e, c); s.Sized() && ProcsTell(s, f, f + 1)
  {
    EntryHandled(r, e, c);
  }

  lemma ResultsTell(r: Range, e: nat, c: Choice)
    requires r.Sized() && e < |r.procs| && Own(r, e) && Know(r, e, e + 1) && ProcsTell(r, e, e + 1)
    requires CellsTell(r.handled, r.mem.cells)
    ensures var s := EntryStep(r, e, c); CellsTell(s.handled, s.mem.cells)
  {
    var s := EntryStep(r, e, c);
    EntryHandled(r, e, c);
    if r.procs[e].Writing? {
      WrittenTells(r, e);
    } else {
      forall i | 0 <= i < |s.mem.cells| && s.mem.cells[i].done ensures Tells(s.handled, i, s.mem.cells[i].kind) {
        assert Tells(r.handled, i, r.mem.cells[i].kind);
        if i in s.handled && i !in r.handled {
          HandlesOwn(r, e, c, i);
        }
      }
    }
  }

  lemma WrittenTells(r: Range, e: nat)
    requires r.Sized() && e < |r.procs| && Own(r, e) && Know(r, e, e + 1) && ProcsTell(r, e, e + 1)
    requires CellsTell(r.handled, r.mem.cells) && r.procs[e].Writing?
    ensures var s := ResolveStep(r, e); s.handled == r.handled && CellsTell(s.handled, s.mem.cells)
  {
    var s := ResolveStep(r, e);
    var at := r.chains[e][r.procs[e].at];
    forall i | 0 <= i < |s.mem.cells| && s.mem.cells[i].done ensures Tells(s.handled, i, s.mem.cells[i].kind) {
      assert i != at ==> s.mem.cells[i] == r.mem.cells[i];
    }
  }

  lemma StepTells(r: Range, a: Action)
    requires Inv(r) && HandledInv(r) && OutcomesTell(r)
    ensures Step(r, a).Sized() && OutcomesTell(Step(r, a))
  {
    if a.Entry? && a.e < |r.procs| {
      SplitOwns(r);
      assert Own(r, a.e) && Know(r, a.e, a.e + 1) && ProcsTell(r, a.e, a.e + 1);
      ResultsTell(r, a.e, a.choice);
      var s := EntryStep(r, a.e, a.choice);
      forall f | 0 <= f < |s.procs|
        ensures OnChain(s.procs[f], |s.chains[f]|) && ProcTells(s.handled, s.chains[f], s.procs[f])
      {
        if f == a.e {
          OwnTells(r, f, a.choice);
        } else {
          assert ProcsTell(r, f, f + 1);
          OthersTell(r, a.e, a.choice, f);
        }
      }
    }
  }

  lemma {:induction false} RunTellsAll(r: Range, actions: seq<Action>)
    requires Inv(r) && HistoryInv(r) && OutcomesTell(r)
    ensures Run(r, actions).Sized() && OutcomesTell(Run(r, actions))
    decreases |actions|
  {
    if actions != [] {
      StepKeepsHistory(r, actions[0]);
      StepTells(r, actions[0]);
      RunTellsAll(Step(r, actions[0]), actions[1..]);
    }
  }

  /** In every reachable state a resolved message's outcome tells the truth about its handler: started for a
      success or a delay, never started for a superseded or deferred message. */
  lemma OutcomesAreTrue(claim: Claim, chains: seq<seq<nat>>, places: seq<Place>, actions: seq<Action>, i: nat)
    requires IsClaimed(claim, chains, places) && i < claim.Total()
    ensures var r := Reach(claim, chains, places, actions);
            r.mem.cells[i].done ==> Tells(r.handled, i, r.mem.cells[i].kind)
  {
    InitInv(claim, chains, places);
    InitHistory(claim, chains, places);
    RunTellsAll(Init(claim, chains, places), actions);
  }
}
