/** How shutdown settles a range: which messages a partial commit covers, and when a range is surrendered. */
module RangeSettlement {
  import opened Chains
  import opened Counting
  import opened RangeHistory
  import opened RangeInvariant
  import opened RangeProtocol
  import opened RangeTheorems
  import opened RangeTracking
  import opened RangeValues

  /** The step that ends the sweep has covered exactly the longest prefix resolved at that moment, however
      many stragglers resolved during the walk, and it holds that prefix's final outcomes. */
  lemma SweepEndsAtPrefix(claim: Claim, chains: seq<seq<nat>>, places: seq<Place>, actions: seq<Action>, c: Choice)
    requires IsClaimed(claim, chains, places)
    ensures var r := Reach(claim, chains, places, actions);
            var s := ShutdownStep(r, c);
            r.shutdown.Sweeping? && s.shutdown.Settling? ==>
              var n := ResolvedPrefix(r.mem.cells);
              s.shutdown == Settling(n, Watermark(claim, n), Collect(claim, r.mem.cells, n))
  {
    var r := Reach(claim, chains, places, actions);
    ReachHolds(claim, chains, places, actions);
    if r.shutdown.Sweeping? && ShutdownStep(r, c).shutdown.Settling? {
      PrefixIsUnique(r.mem.cells, r.shutdown.next);
    }
  }

  /** With every result done the settlement is the whole range's, as a full commit would report it. */
  lemma SweepAgreesWithSnapshot(
    claim: Claim, chains: seq<seq<nat>>, places: seq<Place>, actions: seq<Action>, c: Choice)
    requires IsClaimed(claim, chains, places)
    ensures var r := Reach(claim, chains, places, actions);
            var s := ShutdownStep(r, c);
            r.shutdown.Sweeping? && s.shutdown.Settling? && AllDone(r.mem.cells) ==>
              s.shutdown.outcomes == Collect(claim, r.mem.cells, claim.Total()) &&
              s.shutdown.last == claim.ids[|claim.ids| - 1]
  {
    SweepEndsAtPrefix(claim, chains, places, actions, c);
  }

  /** A landed partial commit moved the watermark over resolved messages only, and reported what each of them
      resolved to: an id at or below the watermark is done, one above it is not reported. */
  lemma PartialCommitCoversResolved(
    claim: Claim, chains: seq<seq<nat>>, places: seq<Place>, actions: seq<Action>, i: nat, o: MessageOutcome)
    requires IsClaimed(claim, chains, places) && i < claim.Total()
    ensures var r := Reach(claim, chains, places, actions);
            r.partial.Some? ==>
              && r.partial.value.cut <= claim.Total()
              && (claim.ids[i] <= Watermark(claim, r.partial.value.cut) ==> r.mem.cells[i].done)
              && (o == OutcomeAt(claim, r.mem.cells, i) ==>
                    (o in r.partial.value.outcomes <==>
                     claim.ids[i] <= Watermark(claim, r.partial.value.cut) && claim.Reports(r.mem.cells[i])))
  {
    var r := Reach(claim, chains, places, actions);
    ReachHolds(claim, chains, places, actions);
    if r.partial.Some? {
      var cut := r.partial.value.cut;
      WatermarkSeparates(claim, cut, i);
      CollectReports(claim, r.mem.cells, cut, o);
      if o == OutcomeAt(claim, r.mem.cells, i) && o in r.partial.value.outcomes {
        var k :| 0 <= k < cut && claim.Reports(r.mem.cells[k]) && o == OutcomeAt(claim, r.mem.cells, k);
        assert claim.ids[k] == claim.ids[i];
        assert k == i;
      }
    }
  }

  // ---- Surrender ----

  /** No goroutine has started on the range: nothing written, run or counted. */
  ghost predicate Pristine(r: Range) {
    && (forall i :: 0 <= i < |r.mem.cells| ==> r.mem.cells[i] == PENDING)
    && r.handled == [] && r.snapshots == []
    && r.counters == ZERO
  }

  lemma IdleChain(m: Memory, chain: seq<nat>, p: Proc)
    requires InRange(m, chain) && OnChain(p, |chain|) && InPhase(m, chain, PhaseOf(p, |chain|)) && !IsStarted(p)
    ensures Untouched(m, chain, 0)
  {
  }

  lemma HandledWasStarted(r: Range)
    requires r.Sized() && HandledInv(r)
    ensures r.handled != [] ==> exists e :: 0 <= e < |r.procs| && IsStarted(r.procs[e])
  {
    if r.handled != [] {
      assert IsStarted(r.procs[r.places[r.handled[0]].entry]);
    }
  }

  lemma NeverStarted(r: Range)
    requires Inv(r) && HistoryInv(r) && r.Total() > 0
    requires r.dispatched == 0 && r.partial.None?
    ensures Pristine(r)
  {
    CountNone(r.procs, IsStarted);
    forall i | 0 <= i < |r.mem.cells|
      ensures r.mem.cells[i] == PENDING && i !in r.mem.succeeded && i !in r.mem.superseded
    {
      var p := r.places[i];
      IdleChain(r.mem, r.chains[p.entry], r.procs[p.entry]);
      assert r.chains[p.entry][p.pos] == i;
    }
    assert !r.mem.cells[0].done;
    assert r.mem.succeeded == {} && r.mem.superseded == {};
    HandledWasStarted(r);
  }

  /** A range is surrendered for reclaim only if none of its messages was run, resolved or counted; and it
      stays that way. */
  lemma SurrenderedIsPristine(claim: Claim, chains: seq<seq<nat>>, places: seq<Place>, actions: seq<Action>)
    requires IsClaimed(claim, chains, places)
    ensures var r := Reach(claim, chains, places, actions);
            r.shutdown.Surrendered? ==> Pristine(r)
  {
    var r := Reach(claim, chains, places, actions);
    ReachHolds(claim, chains, places, actions);
    if r.shutdown.Surrendered? {
      NeverStarted(r);
    }
  }

  /** A stale range has been dispatched, so the staleness test of the surrender decision changes nothing:
      the range is surrendered exactly when nothing of it was dispatched. */
  lemma StaleTestIsRedundant(
    claim: Claim, chains: seq<seq<nat>>, places: seq<Place>, actions: seq<Action>, c: Choice)
    requires IsClaimed(claim, chains, places)
    ensures var r := Reach(claim, chains, places, actions);
            && (r.stale ==> r.dispatched > 0)
            && (r.shutdown.Deciding? ==> (ShutdownStep(r, c).shutdown.Surrendered? <==> r.dispatched == 0))
  {
    ReachHolds(claim, chains, places, actions);
  }
}
