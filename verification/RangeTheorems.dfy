/** What the range protocol promises, over every run: any interleaving of its goroutines with the shutdown,
    and any answers from the key lease, the handler, the clock and the commits. */
module RangeTheorems {
  import opened Chains
  import opened Counting
  import opened RangeHistory
  import opened RangeInvariant
  import opened RangeProtocol
  import opened RangeSafety
  import opened RangeSteps
  import opened RangeValues

  /** A claimed range, which `add` tracks only if it has messages, and its split into queue entries. */
  ghost predicate IsClaimed(claim: Claim, chains: seq<seq<nat>>, places: seq<Place>) {
    claim.Valid() && claim.ids != [] && IsSplit(claim, chains, places)
  }

  /** The state a run reaches. */
  ghost function Reach(claim: Claim, chains: seq<seq<nat>>, places: seq<Place>, actions: seq<Action>): (r: Range)
    requires IsClaimed(claim, chains, places)
    ensures r.Sized() && r.claim == claim && r.chains == chains && r.places == places
  {
    InitInv(claim, chains, places);
    RunKeepsInv(Init(claim, chains, places), actions);
    RunPlan(Init(claim, chains, places), actions);
    Run(Init(claim, chains, places), actions)
  }

  /** Every reachable state satisfies the invariants. */
  lemma ReachHolds(claim: Claim, chains: seq<seq<nat>>, places: seq<Place>, actions: seq<Action>)
    requires IsClaimed(claim, chains, places)
    ensures var r := Reach(claim, chains, places, actions); Inv(r) && HistoryInv(r)
  {
    InitInv(claim, chains, places);
    InitHistory(claim, chains, places);
    RunKeepsInv(Init(claim, chains, places), actions);
    RunHistory(Init(claim, chains, places), actions);
  }

  lemma {:induction false} RunPlan(r: Range, actions: seq<Action>)
    requires Inv(r)
    ensures var s := Run(r, actions); s.claim == r.claim && s.chains == r.chains && s.places == r.places
    decreases |actions|
  {
    if actions != [] {
      StepKeepsInv(r, actions[0]);
      RunPlan(Step(r, actions[0]), actions[1..]);
    }
  }

  /** Once done, a result never changes again. */
  lemma {:induction false} ResultsAreFinal(r: Range, actions: seq<Action>, i: nat)
    requires Inv(r) && i < |r.mem.cells| && r.mem.cells[i].done
    ensures |Run(r, actions).mem.cells| == |r.mem.cells| && Run(r, actions).mem.cells[i] == r.mem.cells[i]
    decreases |actions|
  {
    if actions != [] {
      StepKeepsInv(r, actions[0]);
      StepKeepsDone(r, actions[0], i);
      ResultsAreFinal(Step(r, actions[0]), actions[1..], i);
    }
  }

  // ---- The one-shot snapshot ----

  /** At most one snapshot is ever handed out. It exists only once every result is done, and reports every
      result, in claim order, as it is now and stays. */
  lemma SnapshotOnce(claim: Claim, chains: seq<seq<nat>>, places: seq<Place>, actions: seq<Action>)
    requires IsClaimed(claim, chains, places)
    ensures var r := Reach(claim, chains, places, actions);
            && |r.snapshots| <= 1
            && (r.snapshots != [] ==>
                  AllDone(r.mem.cells) && r.snapshots[0] == Collect(claim, r.mem.cells, claim.Total()))
  {
    var r := Reach(claim, chains, places, actions);
    ReachHolds(claim, chains, places, actions);
    if r.snapshots != [] {
      assert r.snapshots[0] in r.snapshots;
    }
  }

  /** Between the first write of a resolution and the last check it owes. */
  predicate InFlight(p: Proc) {
    || p.Resolving? || p.Writing? || p.Adding? || p.Checking? || p.Loading? || p.Requesting? || p.Rechecking?
    || p.Swapping? || p.Walking? || p.Deferring?
  }

  /** With no resolver in flight, a tracked range whose messages are all resolved has had its snapshot taken. */
  lemma NoneStranded(claim: Claim, chains: seq<seq<nat>>, places: seq<Place>, actions: seq<Action>)
    requires IsClaimed(claim, chains, places)
    ensures var r := Reach(claim, chains, places, actions);
            r.mem.tracked && AllDone(r.mem.cells) && (forall e :: 0 <= e < |r.procs| ==> !InFlight(r.procs[e])) ==>
              r.mem.committed && |r.snapshots| == 1
  {
    var r := Reach(claim, chains, places, actions);
    ReachHolds(claim, chains, places, actions);
    if AllDone(r.mem.cells) && (forall e :: 0 <= e < |r.procs| ==> !InFlight(r.procs[e])) {
      CountNone(r.procs, IsAdding);
      CountNone(r.procs, IsWalking);
      CountAll(r.mem.cells, IsDone);
    }
  }

  /** The message whose resolution a goroutine is about to write, or is writing. */
  predicate Resolves(p: Proc) {
    p.Resolving? || p.Writing?
  }

  /** No result is ever resolved twice: a goroutine that comes to resolve a message finds it unresolved, and no
      other goroutine is resolving the same message. */
  lemma ResolvedOnce(
    claim: Claim, chains: seq<seq<nat>>, places: seq<Place>, actions: seq<Action>, e: nat, f: nat)
    requires IsClaimed(claim, chains, places) && e < |chains| && f < |chains|
    ensures var r := Reach(claim, chains, places, actions);
            r.Sized() && e < |r.procs| && f < |r.procs| &&
            OnChain(r.procs[e], |chains[e]|) && OnChain(r.procs[f], |chains[f]|) &&
            (Resolves(r.procs[e]) ==> !r.mem.cells[chains[e][r.procs[e].at]].done) &&
            (Resolves(r.procs[e]) && Resolves(r.procs[f]) && e != f ==>
               chains[e][r.procs[e].at] != chains[f][r.procs[f].at])
  {
    var r := Reach(claim, chains, places, actions);
    ReachHolds(claim, chains, places, actions);
    SplitOwns(r);
    assert Own(r, e) && Own(r, f) && Know(r, e, e + 1) && Know(r, f, f + 1);
  }

  /** The resolved counter reaches the total exactly when every result is done and counted. */
  lemma CounterReachesTotal(claim: Claim, chains: seq<seq<nat>>, places: seq<Place>, actions: seq<Action>)
    requires IsClaimed(claim, chains, places)
    ensures var r := Reach(claim, chains, places, actions);
            r.mem.resolved <= r.Total() &&
            (r.mem.resolved == r.Total() <==>
             AllDone(r.mem.cells) && forall e :: 0 <= e < |r.procs| ==> !r.procs[e].Adding?)
  {
    var r := Reach(claim, chains, places, actions);
    ReachHolds(claim, chains, places, actions);
    CountAll(r.mem.cells, IsDone);
    CountNone(r.procs, IsAdding);
  }

  // ---- Ordered keys ----

  /** The position a chain has got to. */
  function StopOf(p: Proc): nat {
    match p
    case Unqueued | Queued | Dequeued => 0
    case _ => p.pos
  }

  /** Along a chain: messages that succeeded or died, then one at most that is anything else, then only
      messages whose handler never started and which are deferred or unresolved. */
  ghost predicate ChainShape(r: Range, chain: seq<nat>, stop: nat)
    requires InRange(r.mem, chain)
  {
    && stop < |chain|
    && (forall q :: 0 <= q < stop ==> r.mem.cells[chain[q]].done && Passes(r.mem.cells[chain[q]].kind))
    && (forall q :: stop < q < |chain| ==>
          chain[q] !in r.handled && (r.mem.cells[chain[q]].done ==> r.mem.cells[chain[q]].kind.Deferred?))
  }

  /** The results part of a chain's shape. */
  ghost predicate ResultsShape(m: Memory, chain: seq<nat>, stop: nat)
    requires InRange(m, chain)
  {
    && stop < |chain|
    && (forall q :: 0 <= q < stop ==> m.cells[chain[q]].done && Passes(m.cells[chain[q]].kind))
    && (forall q :: stop < q < |chain| && m.cells[chain[q]].done ==> m.cells[chain[q]].kind.Deferred?)
  }

  lemma SettledShape(m: Memory, chain: seq<nat>, ph: Phase)
    requires InRange(m, chain) && FitsChain(ph, |chain|) && InPhase(m, chain, ph) && !ph.Within?
    ensures ResultsShape(m, chain, ph.pos)
  {
  }

  lemma ResolvingShape(m: Memory, chain: seq<nat>, pos: nat, at: nat, kind: OutcomeKind)
    requires InRange(m, chain) && pos <= at < |chain| && Mid(m, chain, pos, at, kind)
    requires m.cells[chain[at]].done ==> m.cells[chain[at]].kind == kind
    ensures ResultsShape(m, chain, pos)
  {
  }

  lemma PhaseShape(claim: Claim, m: Memory, chain: seq<nat>, p: Proc)
    requires claim.Sized() && |m.cells| == claim.Total() && InRange(m, chain) && OnChain(p, |chain|)
    requires LocalInv(claim, m, chain, p)
    ensures ResultsShape(m, chain, StopOf(p))
  {
    if p.Resolving? || p.Writing? || p.Adding? {
      ResolvingShape(m, chain, p.pos, p.at, p.res.kind);
    } else {
      SettledShape(m, chain, PhaseOf(p, |chain|));
    }
  }

  lemma HandledReached(r: Range, e: nat, q: nat)
    requires r.Sized() && HandledInv(r) && e < |r.procs| && Own(r, e)
    requires q < |r.chains[e]| && r.chains[e][q] in r.handled
    ensures StartedAt(r.procs[e], q)
  {
    var a :| 0 <= a < |r.handled| && r.handled[a] == r.chains[e][q];
  }

  lemma LocalShape(r: Range, e: nat)
    requires Inv(r) && HandledInv(r) && e < |r.procs|
    ensures ChainShape(r, r.chains[e], StopOf(r.procs[e]))
  {
    SplitOwns(r);
    PhaseShape(r.claim, r.mem, r.chains[e], r.procs[e]);
    forall q | 0 <= q < |r.chains[e]| && r.chains[e][q] in r.handled ensures q <= StopOf(r.procs[e]) {
      HandledReached(r, e, q);
    }
  }

  lemma ChainsKeepShape(claim: Claim, chains: seq<seq<nat>>, places: seq<Place>, actions: seq<Action>, e: nat)
    requires IsClaimed(claim, chains, places) && e < |chains|
    ensures var r := Reach(claim, chains, places, actions);
            r.Sized() && e < |r.procs| && ChainShape(r, chains[e], StopOf(r.procs[e]))
  {
    ReachHolds(claim, chains, places, actions);
    LocalShape(Reach(claim, chains, places, actions), e);
  }

  /** Message i's handler is running. */
  ghost predicate IsRunning(r: Range, i: nat)
    requires r.Sized() && i < r.Total()
  {
    var p := r.places[i];
    p.entry < |r.procs| && r.procs[p.entry] == Running(p.pos)
  }

  /** A handler runs only once every earlier message of its ordered key in the range has succeeded or died,
      so no two of a key's handlers ever run at once. */
  lemma OrderedHandlers(
    claim: Claim, chains: seq<seq<nat>>, places: seq<Place>, actions: seq<Action>, i: nat, k: nat)
    requires IsClaimed(claim, chains, places) && i < k < claim.Total() && SameKey(claim, i, k)
    ensures var r := Reach(claim, chains, places, actions);
            k in r.handled ==>
              r.mem.cells[i].done && Passes(r.mem.cells[i].kind) && !IsRunning(r, i)
  {
    var r := Reach(claim, chains, places, actions);
    ReachHolds(claim, chains, places, actions);
    SameKeyInOrder(claim, chains, places, i, k);
    var e, q := places[k].entry, places[k].pos;
    if k in r.handled {
      var a :| 0 <= a < |r.handled| && r.handled[a] == k;
      assert StartedAt(r.procs[e], q);
      LocalShape(r, e);
      assert chains[e][places[i].pos] == i;
    }
  }

  /** No message's handler starts twice. */
  lemma HandlersStartOnce(claim: Claim, chains: seq<seq<nat>>, places: seq<Place>, actions: seq<Action>, a: nat, b: nat)
    requires IsClaimed(claim, chains, places)
    ensures var r := Reach(claim, chains, places, actions);
            a < b < |r.handled| ==> r.handled[a] != r.handled[b]
  {
    var r := Reach(claim, chains, places, actions);
    ReachHolds(claim, chains, places, actions);
    assert HandledInv(r);
  }
}
