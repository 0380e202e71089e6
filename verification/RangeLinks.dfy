/** Where the protocol's ranges come from, and what its micro-steps of one resolution add up to. */
module RangeLinks {
  import opened Chains
  import opened ClaimBuffers
  import opened Iteration
  import opened RangeProtocol
  import opened RangeTheorems
  import opened RangeValues
  import opened Sequences

  // ---- From `add` to the protocol's queue entries ----

  /** The given keys, then the other ordered keys among the first n messages. */
  function AllKeys(claim: Claim, keys: seq<string>, n: nat): (s: seq<string>)
    requires claim.Sized() && n <= claim.Total()
    ensures keys <= s
    ensures forall k :: k in s <==> k in keys || k in OrderedKeys(claim, n)
  {
    if n == 0 then keys
    else
      var some := AllKeys(claim, keys, n - 1);
      if claim.IsOrdered(n - 1) && claim.keys[n - 1] !in some then some + [claim.keys[n - 1]] else some
  }

  lemma {:induction false} AllKeysDistinct(claim: Claim, keys: seq<string>, n: nat)
    requires claim.Sized() && n <= claim.Total() && Distinct(keys)
    ensures Distinct(AllKeys(claim, keys, n))
  {
    if n > 0 {
      AllKeysDistinct(claim, keys, n - 1);
    }
  }

  function PlacesFor(claim: Claim, keys: seq<string>): (places: seq<Place>)
    requires claim.Sized()
    requires forall k :: k in OrderedKeys(claim, claim.Total()) ==> k in keys
    ensures |places| == claim.Total()
  {
    seq(claim.Total(), i requires 0 <= i < claim.Total() => PlaceOf(claim, keys, i))
  }

  /** What `add` leaves in the queue, even when it is cut short, is a prefix of a split of the whole range:
      each queued entry is one of its chains, linked front to back, and no message sits in two of them. */
  lemma AddQueuesSplit(
    claim: Claim, before: seq<Buffered>, queue: seq<Buffered>, room: nat, ok: bool, items: seq<Buffered>,
    keys: seq<string>, queued: seq<seq<nat>>)
    requires claim.Valid() && claim.ids != []
    requires Enqueued(claim, before, queue, room, ok, items, keys, queued)
    ensures var all := AllKeys(claim, keys, claim.Total());
            && IsClaimed(claim, Entries(claim, all), PlacesFor(claim, all))
            && queued <= Entries(claim, all)
            && (ok ==> queued == Entries(claim, all))
  {
    var all := AllKeys(claim, keys, claim.Total());
    AllKeysDistinct(claim, keys, claim.Total());
    EntriesSplit(claim, all, PlacesFor(claim, all));
    assert Entries(claim, keys) <= Entries(claim, all);
    if ok {
      SameKeysSameOrder(claim, keys, claim.Total());
    }
  }

  lemma {:induction false} SameKeysSameOrder(claim: Claim, keys: seq<string>, n: nat)
    requires claim.Sized() && n <= claim.Total()
    requires forall k :: k in OrderedKeys(claim, n) ==> k in keys
    ensures AllKeys(claim, keys, n) == keys
  {
    if n > 0 {
      SameKeysSameOrder(claim, keys, n - 1);
    }
  }

  // ---- From the micro-steps to one resolution ----

  /** n steps of the resolution that entry e is in the middle of. */
  ghost function ResolveSteps(r: Range, e: nat, n: nat): Range {
    Iterate((s: Range) => ResolveTurn(s, e), r, n)
  }

  /** A step of entry e's resolution, if there is such an entry. */
  function ResolveTurn(s: Range, e: nat): Range {
    if s.Sized() && e < |s.procs| && OnChain(s.procs[e], |s.chains[e]|) then ResolveStep(s, e) else s
  }

  /** The range with the first n outcome fields of entry e's resolution written. */
  ghost function Stored(r: Range, e: nat, n: nat): Range
    requires r.Sized() && e < |r.procs| && OnChain(r.procs[e], |r.chains[e]|) && r.procs[e].Writing?
  {
    var p := r.procs[e];
    r.At(e, p.(field := n)).With(r.mem.SetCell(r.chains[e][p.at], Torn(p.res, n)))
  }

  lemma NothingStored(r: Range, e: nat)
    requires r.Sized() && e < |r.procs| && OnChain(r.procs[e], |r.chains[e]|)
    requires r.procs[e].Writing? && r.procs[e].field == 0
    requires r.mem.cells[r.chains[e][r.procs[e].at]] == PENDING
    ensures Stored(r, e, 0) == r
  {
    var p := r.procs[e];
    assert r.mem.cells[r.chains[e][p.at] := PENDING] == r.mem.cells;
    assert r.procs[e := p] == r.procs;
  }

  lemma FieldStored(r: Range, e: nat, n: nat)
    requires r.Sized() && e < |r.procs| && OnChain(r.procs[e], |r.chains[e]|) && r.procs[e].Writing?
    requires n < FIELDS
    ensures ResolveTurn(Stored(r, e, n), e) == Stored(r, e, n + 1)
  {
    var p := r.procs[e];
    var i := r.chains[e][p.at];
    assert r.procs[e := p.(field := n)][e := p.(field := n + 1)] == r.procs[e := p.(field := n + 1)];
    assert r.mem.cells[i := Torn(p.res, n)][i := Torn(p.res, n + 1)] == r.mem.cells[i := Torn(p.res, n + 1)];
  }

  /** The range with the whole result of entry e's resolution stored, and not yet counted. */
  ghost function StoredAll(r: Range, e: nat): Range
    requires r.Sized() && e < |r.procs| && OnChain(r.procs[e], |r.chains[e]|) && r.procs[e].Writing?
  {
    var p := r.procs[e];
    r.At(e, Adding(p.pos, p.at, p.res)).With(r.mem.SetCell(r.chains[e][p.at], Done(p.res)))
  }

  /** What one call of the range state's resolve leaves: the whole result is stored and counted. */
  ghost function Resolved(r: Range, e: nat): Range
    requires r.Sized() && e < |r.procs| && OnChain(r.procs[e], |r.chains[e]|) && r.procs[e].Writing?
  {
    var p := r.procs[e];
    r.At(e, AfterResolve(p.pos, p.at)).With(
      r.mem.SetCell(r.chains[e][p.at], Done(p.res)).(resolved := r.mem.resolved + 1))
  }

  lemma DoneStored(r: Range, e: nat)
    requires r.Sized() && e < |r.procs| && OnChain(r.procs[e], |r.chains[e]|) && r.procs[e].Writing?
    ensures ResolveTurn(Stored(r, e, FIELDS), e) == StoredAll(r, e)
  {
    var p := r.procs[e];
    var i := r.chains[e][p.at];
    var q := Adding(p.pos, p.at, p.res);
    assert r.procs[e := p.(field := FIELDS)][e := q] == r.procs[e := q];
    assert r.mem.cells[i := Torn(p.res, FIELDS)][i := Done(p.res)] == r.mem.cells[i := Done(p.res)];
  }

  lemma ResolutionCounted(r: Range, e: nat)
    requires r.Sized() && e < |r.procs| && OnChain(r.procs[e], |r.chains[e]|) && r.procs[e].Writing?
    ensures ResolveTurn(StoredAll(r, e), e) == Resolved(r, e)
  {
    var p := r.procs[e];
    var q := AfterResolve(p.pos, p.at);
    assert r.procs[e := Adding(p.pos, p.at, p.res)][e := q] == r.procs[e := q];
  }

  /** Undisturbed, the six micro-steps of a resolution do what the range state's resolve does in one call: store
      the whole result and count it. */
  lemma ResolutionIsOneCall(r: Range, e: nat)
    requires r.Sized() && e < |r.procs| && OnChain(r.procs[e], |r.chains[e]|)
    requires r.procs[e].Writing? && r.procs[e].field == 0
    requires r.mem.cells[r.chains[e][r.procs[e].at]] == PENDING
    ensures ResolveSteps(r, e, FIELDS + 2) == Resolved(r, e)
  {
    var step := (s: Range) => ResolveTurn(s, e);
    var row := (k: nat) =>
        if k <= FIELDS then Stored(r, e, k) else if k == FIELDS + 1 then StoredAll(r, e) else Resolved(r, e);
    NothingStored(r, e);
    forall k: nat | k < FIELDS + 2 ensures step(row(k)) == row(k + 1) {
      if k < FIELDS {
        FieldStored(r, e, k);
      } else if k == FIELDS {
        DoneStored(r, e);
      } else {
        ResolutionCounted(r, e);
      }
    }
    IterateFollows(step, row, FIELDS + 2);
  }
}
