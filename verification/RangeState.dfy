/** The mutable bookkeeping of one claimed range, updated in place by the goroutines that resolve its messages. */
module RangeTracking {
  import opened RangeValues

  datatype SnapshotError = NotResolved | AlreadyTaken

  datatype SnapshotResult = Snapshot(lease: Lease, outcomes: seq<MessageOutcome>) | NoSnapshot(error: SnapshotError)

  class RangeState {
    const claim: Claim
    const results: array<Cell>
    var dispatched: int
    var resolved: int
    var committed: bool
    var stale: bool

    ghost predicate Valid()
      reads this
    {
      claim.Valid() && results.Length == claim.Total()
    }

    constructor (claim: Claim)
      requires claim.Valid()
      ensures Valid() && fresh(results) && this.claim == claim
      ensures forall i :: 0 <= i < results.Length ==> results[i] == PENDING
      ensures dispatched == 0 && resolved == 0 && !committed && !stale
    {
      this.claim := claim;
      results := new Cell[|claim.ids|](_ => PENDING);
      dispatched, resolved := 0, 0;
      committed, stale := false, false;
    }

    predicate IsResolved()
      reads this
    {
      resolved == |claim.ids|
    }

    /** Writes the outcome fields, then the done flag, then counts the result. */
    method Resolve(index: nat, res: Resolution)
      requires Valid() && index < results.Length
      modifies this`resolved, results
      ensures results[..] == old(results[..])[index := Done(res)]
      ensures resolved == old(resolved) + 1
    {
      for field := 0 to FIELDS
        modifies results
        invariant forall j :: 0 <= j < results.Length && j != index ==> results[j] == old(results[j])
        invariant results[index].done == old(results[index].done)
        invariant field >= 1 ==> results[index].kind == res.kind
        invariant field >= 2 ==> results[index].err == res.err
        invariant field >= 3 ==> results[index].delay == res.delay
        invariant field >= 4 ==> results[index].concurrency == res.concurrency
      {
        results[index] := WriteField(results[index], res, field);
      }
      results[index] := results[index].(done := true);
      resolved := resolved + 1;
    }

    /** The result's kind, and false while it is unresolved. */
    method OutcomeOf(index: nat) returns (kind: OutcomeKind, ok: bool)
      requires Valid() && index < results.Length
      ensures ok == results[index].done
      ensures ok ==> kind == results[index].kind
      ensures !ok ==> kind == Success
    {
      if !results[index].done {
        return Success, false;
      }
      return results[index].kind, true;
    }

    /** The outcomes of every result in index order; it does not look at the done flags. */
    method ResolvedOutcomes() returns (outcomes: seq<MessageOutcome>)
      requires Valid()
      ensures outcomes == Collect(claim, results[..], claim.Total())
    {
      outcomes := [];
      for i := 0 to results.Length
        invariant outcomes == Collect(claim, results[..], i)
      {
        if claim.Reports(results[i]) {
          outcomes := outcomes + [OutcomeAt(claim, results[..], i)];
        }
      }
    }

    /** Hands the snapshot to one caller: a premature call does not spend it, a second call does not get it. */
    method TryGetSnapshot() returns (r: SnapshotResult)
      requires Valid()
      modifies this`committed
      ensures r.Snapshot? <==> old(IsResolved()) && !old(committed)
      ensures r.Snapshot? ==> r == Snapshot(claim.lease, Collect(claim, results[..], claim.Total()))
      ensures r.NoSnapshot? ==> r.error == if old(IsResolved()) then AlreadyTaken else NotResolved
      ensures committed == (old(committed) || old(IsResolved()))
    {
      if !IsResolved() {
        return NoSnapshot(NotResolved);
      }
      if committed {
        return NoSnapshot(AlreadyTaken);
      }
      committed := true;
      var outcomes := ResolvedOutcomes();
      return Snapshot(claim.lease, outcomes);
    }

    /** The watermark and outcomes of the longest resolved prefix. */
    method ContiguousResolved() returns (lastProcessed: int, outcomes: seq<MessageOutcome>)
      requires Valid()
      ensures lastProcessed == Watermark(claim, ResolvedPrefix(results[..]))
      ensures outcomes == Collect(claim, results[..], ResolvedPrefix(results[..]))
    {
      lastProcessed := claim.lease.low;
      outcomes := [];
      var i := 0;
      while i < results.Length && results[i].done
        invariant i <= results.Length
        invariant forall j :: 0 <= j < i ==> results[j].done
        invariant lastProcessed == Watermark(claim, i)
        invariant outcomes == Collect(claim, results[..], i)
      {
        lastProcessed := claim.ids[i];
        if claim.Reports(results[i]) {
          outcomes := outcomes + [OutcomeAt(claim, results[..], i)];
        }
        i := i + 1;
      }
      PrefixIsUnique(results[..], i);
    }
  }

  /** Only the longest resolved prefix is all done and followed by the end or an unresolved result. */
  lemma PrefixIsUnique(cells: seq<Cell>, n: nat)
    requires n <= |cells|
    requires forall i :: 0 <= i < n ==> cells[i].done
    requires n < |cells| ==> !cells[n].done
    ensures n == ResolvedPrefix(cells)
  {
  }
}
