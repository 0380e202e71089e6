/** The values a claimed range is made of, and the pure functions its bookkeeping computes. */
module RangeValues {
  import opened Concurrency

  datatype OutcomeKind = Success | Exception | Terminal | Superseded | Deferred | Delayed

  /** The error text recorded with a resolution: none, the cause's own text, or one of three fixed notes. */
  datatype Note =
    | NoError
    | Cause(text: string)
    | SupersededByNewer
    | KeyHeldElsewhere
    | EarlierDidNotSucceed

  /** How one message resolved: what `resolve` writes into its result. */
  datatype Resolution = Resolution(kind: OutcomeKind, err: Note, delay: int, concurrency: ConcurrencyPolicy)

  /** One entry of the results slice. `done` gates the other four fields. */
  datatype Cell = Cell(done: bool, kind: OutcomeKind, err: Note, delay: int, concurrency: ConcurrencyPolicy)

  /** The zero value: unresolved. Its kind reads as Success, which only `done` tells from a real one. */
  const PENDING := Cell(false, Success, NoError, 0, Unset)

  /** The number of outcome fields written before the done flag. */
  const FIELDS: nat := 4

  /** A cell whose first n outcome fields have been written and whose done flag has not. */
  function Torn(res: Resolution, n: nat): Cell {
    Cell(
      false,
      if n >= 1 then res.kind else PENDING.kind,
      if n >= 2 then res.err else PENDING.err,
      if n >= 3 then res.delay else PENDING.delay,
      if n >= 4 then res.concurrency else PENDING.concurrency)
  }

  function Done(res: Resolution): Cell {
    Cell(true, res.kind, res.err, res.delay, res.concurrency)
  }

  /** Writes outcome field n of a result and leaves the rest. */
  function WriteField(c: Cell, res: Resolution, n: nat): Cell {
    match n
    case 0 => c.(kind := res.kind)
    case 1 => c.(err := res.err)
    case 2 => c.(delay := res.delay)
    case _ => c.(concurrency := res.concurrency)
  }

  predicate IsDone(c: Cell) {
    c.done
  }

  predicate AllDone(cells: seq<Cell>) {
    forall i :: 0 <= i < |cells| ==> cells[i].done
  }

  datatype Lease = Lease(token: nat, low: int, high: int, expiresAt: int)

  datatype MessageOutcome = MessageOutcome(
    id: int, key: string, concurrency: ConcurrencyPolicy, kind: OutcomeKind, err: Note, delay: int)

  /** What is fixed when a range is claimed. Policies are the resolved ones. */
  datatype Claim = Claim(
    lease: Lease, ids: seq<int>, keys: seq<string>, policies: seq<ConcurrencyPolicy>, includeSuccesses: bool)
  {
    function Total(): nat {
      |ids|
    }

    predicate Sized() {
      |keys| == |ids| && |policies| == |ids|
    }

    /** Claimed message ids are strictly increasing and above the lease's low bound. */
    predicate Valid() {
      && Sized()
      && (forall i, j :: 0 <= i < j < |ids| ==> ids[i] < ids[j])
      && (forall i :: 0 <= i < |ids| ==> lease.low < ids[i])
    }

    /** Whether message i belongs to an ordered key's chain. */
    predicate IsOrdered(i: nat)
      requires i < |keys| && i < |policies|
    {
      keys[i] != "" && policies[i].Ordered?
    }

    predicate Reports(c: Cell) {
      includeSuccesses || c.kind != Success
    }
  }

  function OutcomeAt(claim: Claim, cells: seq<Cell>, i: nat): MessageOutcome
    requires claim.Sized() && |cells| == claim.Total() && i < |cells|
  {
    MessageOutcome(claim.ids[i], claim.keys[i], cells[i].concurrency, cells[i].kind, cells[i].err, cells[i].delay)
  }

  /** The outcomes of the first n results in index order, successes only if the claim includes them. */
  function Collect(claim: Claim, cells: seq<Cell>, n: nat): seq<MessageOutcome>
    requires claim.Sized() && |cells| == claim.Total() && n <= |cells|
  {
    if n == 0 then []
    else Collect(claim, cells, n - 1) + (if claim.Reports(cells[n - 1]) then [OutcomeAt(claim, cells, n - 1)] else [])
  }

  /** The length of the longest prefix of done results. */
  function ResolvedPrefix(cells: seq<Cell>): (n: nat)
    ensures n <= |cells|
    ensures forall i :: 0 <= i < n ==> cells[i].done
    ensures n < |cells| ==> !cells[n].done
  {
    if cells == [] || !cells[0].done then 0
    else
      var n := 1 + ResolvedPrefix(cells[1..]);
      assert forall i :: 1 <= i < n ==> cells[i] == cells[1..][i - 1];
      n
  }

  /** The watermark of a partial commit that covers the first n messages. */
  function Watermark(claim: Claim, n: nat): int
    requires n <= claim.Total()
  {
    if n == 0 then claim.lease.low else claim.ids[n - 1]
  }

  /** Collect reports message i of the first n exactly when the claim reports its result,
      and with that result's own fields. */
  lemma {:induction false} CollectReports(claim: Claim, cells: seq<Cell>, n: nat, o: MessageOutcome)
    requires claim.Valid() && |cells| == claim.Total() && n <= |cells|
    ensures o in Collect(claim, cells, n) <==>
            exists i :: 0 <= i < n && claim.Reports(cells[i]) && o == OutcomeAt(claim, cells, i)
  {
    if n > 0 {
      CollectReports(claim, cells, n - 1, o);
      if claim.Reports(cells[n - 1]) && o == OutcomeAt(claim, cells, n - 1) {
        assert o in [OutcomeAt(claim, cells, n - 1)];
      }
    }
  }

  /** Collect lists messages in claim order, each at most once. */
  lemma {:induction false} CollectInOrder(claim: Claim, cells: seq<Cell>, n: nat)
    requires claim.Valid() && |cells| == claim.Total() && n <= |cells|
    ensures forall a, b :: 0 <= a < b < |Collect(claim, cells, n)| ==>
              Collect(claim, cells, n)[a].id < Collect(claim, cells, n)[b].id
    ensures forall a :: 0 <= a < |Collect(claim, cells, n)| ==>
              Collect(claim, cells, n)[a].id <= Watermark(claim, n)
  {
    if n > 0 {
      CollectInOrder(claim, cells, n - 1);
    }
  }

  /** A watermark over n messages is below every later id and no smaller than any earlier one. */
  lemma WatermarkSeparates(claim: Claim, n: nat, i: nat)
    requires claim.Valid() && n <= claim.Total() && i < claim.Total()
    ensures claim.ids[i] <= Watermark(claim, n) <==> i < n
  {
    if n > 0 {
      assert i < n ==> i == n - 1 || claim.ids[i] < claim.ids[n - 1];
      assert i >= n ==> claim.ids[n - 1] < claim.ids[i];
    }
  }
}
