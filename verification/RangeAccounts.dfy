/** What a range adds to the session counters: in every reachable state exactly the messages counted so far,
    each once and in the bucket its outcome belongs to. */
module RangeAccounts {
  import opened Chains
  import opened Counting
  import opened RangeHistory
  import opened RangeInvariant
  import opened RangeProtocol
  import opened RangeTheorems
  import opened RangeValues
  import opened Sequences
  import opened Wrappers

  /** No delivery row is written twice. A partial commit keeps its lease, so a full commit may still land after
      it; the rows of both could not be written if the partial one wrote any. */
  ghost predicate RowsWrittenOnce(r: Range) {
    r.mem.full.Some? && r.partial.Some? ==> WritesNoRow(r.partial.value.outcomes)
  }

  predicate WritesNoRow(outcomes: seq<MessageOutcome>) {
    forall i :: 0 <= i < |outcomes| ==> !RowKind(outcomes[i].kind)
  }

  // ---- Which delivery rows have been counted ----

  /** The messages among the first n whose kind satisfies p and whose row is among the first `next` rows. */
  ghost function Rows(claim: Claim, cells: seq<Cell>, n: nat, next: nat, p: OutcomeKind -> bool): set<nat>
    requires claim.Sized() && |cells| == claim.Total() && n <= |cells|
  {
    set i: nat | i < n && p(cells[i].kind) && |Collect(claim, cells, i)| < next
  }

  /** One message more: its row, if it has one, is the next one counted. */
  lemma RowsGrow(claim: Claim, cells: seq<Cell>, n: nat, next: nat, p: OutcomeKind -> bool)
    requires claim.Sized() && |cells| == claim.Total() && n < |cells|
    ensures Rows(claim, cells, n + 1, next, p) ==
            Rows(claim, cells, n, next, p) + if p(cells[n].kind) && |Collect(claim, cells, n)| < next then {n} else {}
    ensures |Rows(claim, cells, n + 1, next, p)| ==
            |Rows(claim, cells, n, next, p)| + Bit(p(cells[n].kind) && |Collect(claim, cells, n)| < next)
  {
    assert Rows(claim, cells, n + 1, next, p) ==
           Rows(claim, cells, n, next, p) + if p(cells[n].kind) && |Collect(claim, cells, n)| < next then {n} else {};
  }

  /** Of the first `next` rows, one more row counts if it is among them. */
  lemma OneRowMore(before: seq<MessageOutcome>, o: MessageOutcome, next: nat, q: MessageOutcome -> bool)
    ensures var rows := before + [o];
            Count(rows[..Min(next, |rows|)], q) ==
            Count(before[..Min(next, |before|)], q) + Bit(|before| < next && q(o))
  {
    var rows := before + [o];
    if |before| < next {
      assert rows[..|before| + 1] == rows && rows[..|before|] == before && before[..|before|] == before;
      CountTake(rows, |before|, q);
    } else {
      assert rows[..next] == before[..next];
    }
  }

  lemma {:induction false} RowsAreCounted(
    claim: Claim, cells: seq<Cell>, n: nat, next: nat, p: OutcomeKind -> bool, q: MessageOutcome -> bool)
    requires claim.Sized() && |cells| == claim.Total() && n <= |cells|
    requires !p(Success) && forall o :: q(o) == p(o.kind)
    ensures Count(Collect(claim, cells, n)[..Min(next, |Collect(claim, cells, n)|)], q) ==
            |Rows(claim, cells, n, next, p)|
  {
    if n > 0 {
      var before, o := Collect(claim, cells, n - 1), OutcomeAt(claim, cells, n - 1);
      RowsAreCounted(claim, cells, n - 1, next, p, q);
      RowsGrow(claim, cells, n - 1, next, p);
      if claim.Reports(cells[n - 1]) {
        assert q(o) == p(cells[n - 1].kind);
        OneRowMore(before, o, next, q);
      } else {
        assert Collect(claim, cells, n) == before;
      }
    }
  }

  /** The messages whose delivery row a landed commit has counted so far. */
  ghost function Delivered(r: Range, l: Option<Landing>, p: OutcomeKind -> bool): set<nat>
    requires r.Sized() && LandingInv(r.claim, r.mem.cells, l)
  {
    if l.None? then {} else Rows(r.claim, r.mem.cells, l.value.cut, l.value.next, p)
  }

  lemma TallyIsDelivered(r: Range, l: Option<Landing>, p: OutcomeKind -> bool, q: MessageOutcome -> bool)
    requires r.Sized() && LandingInv(r.claim, r.mem.cells, l)
    requires !p(Success) && forall o :: q(o) == p(o.kind)
    ensures Tally(l, q) == |Delivered(r, l, p)|
  {
    if l.Some? {
      RowsAreCounted(r.claim, r.mem.cells, l.value.cut, l.value.next, p, q);
    }
  }

  // ---- The counted messages ----

  predicate ReadyKind(k: OutcomeKind) {
    k.Exception? || k.Delayed?
  }

  predicate DeferredKind(k: OutcomeKind) {
    k.Deferred?
  }

  predicate DeadKind(k: OutcomeKind) {
    k.Terminal?
  }

  predicate RowKind(k: OutcomeKind) {
    ReadyKind(k) || DeferredKind(k) || DeadKind(k)
  }

  /** The landing that wrote the range's delivery rows: the full commit's, or else the partial one's. */
  ghost function TheLanding(r: Range): Option<Landing> {
    if r.mem.full.Some? then r.mem.full else r.partial
  }

  /** The messages of the range that the session counters include: those counted when they were resolved,
      and those whose delivery row was counted when a commit landed. */
  ghost function Counted(r: Range): set<nat>
    requires r.Sized() && AccountInv(r)
  {
    r.mem.succeeded + r.mem.superseded + Delivered(r, TheLanding(r), RowKind)
  }

  /** Each counter is the number of messages in its bucket. */
  ghost predicate Bucketed(r: Range)
    requires r.Sized() && AccountInv(r)
  {
    && r.counters.success == |r.mem.succeeded|
    && r.counters.superseded == |r.mem.superseded|
    && r.counters.ready == |Delivered(r, TheLanding(r), ReadyKind)|
    && r.counters.deferred == |Delivered(r, TheLanding(r), DeferredKind)|
    && r.counters.dead == |Delivered(r, TheLanding(r), DeadKind)|
  }

  /** A landing without rows is not in any tally of rows. */
  lemma NoRowNoTally(l: Option<Landing>, q: MessageOutcome -> bool)
    requires l.Some? ==> WritesNoRow(l.value.outcomes)
    requires forall o :: q(o) ==> RowKind(o.kind)
    ensures Tally(l, q) == 0
  {
    if l.Some? && l.value.next <= |l.value.outcomes| {
      CountNone(l.value.outcomes[..l.value.next], q);
    }
  }

  lemma BucketsHold(r: Range)
    requires r.Sized() && AccountInv(r) && RowsWrittenOnce(r)
    ensures Bucketed(r)
  {
    var l := TheLanding(r);
    var other := if r.mem.full.Some? then r.partial else r.mem.full;
    NoRowNoTally(other, IsReady);
    NoRowNoTally(other, IsDeferral);
    NoRowNoTally(other, IsDead);
    TallyIsDelivered(r, l, ReadyKind, IsReady);
    TallyIsDelivered(r, l, DeferredKind, IsDeferral);
    TallyIsDelivered(r, l, DeadKind, IsDead);
  }

  lemma ThreeWays<T>(a: set<T>, b: set<T>, c: set<T>)
    requires a !! b && a !! c && b !! c
    ensures |a + b + c| == |a| + |b| + |c|
  {
    assert (a + b) !! c;
  }

  lemma RowsSplit(claim: Claim, cells: seq<Cell>, n: nat, next: nat)
    requires claim.Sized() && |cells| == claim.Total() && n <= |cells|
    ensures |Rows(claim, cells, n, next, RowKind)| ==
            |Rows(claim, cells, n, next, ReadyKind)| + |Rows(claim, cells, n, next, DeferredKind)| +
            |Rows(claim, cells, n, next, DeadKind)|
  {
    var ready := Rows(claim, cells, n, next, ReadyKind);
    var deferred := Rows(claim, cells, n, next, DeferredKind);
    var dead := Rows(claim, cells, n, next, DeadKind);
    assert Rows(claim, cells, n, next, RowKind) == ready + deferred + dead;
    ThreeWays(ready, deferred, dead);
  }

  /** Rows of resolved messages are none of those counted at their resolution. */
  lemma RowsApart(m: Memory, claim: Claim, n: nat, next: nat, i: nat)
    requires claim.Sized() && |m.cells| == claim.Total() && PrefixDone(m.cells, n) && Booked(m)
    ensures i in Rows(claim, m.cells, n, next, RowKind) ==> i !in m.succeeded && i !in m.superseded && i < n
  {
  }

  lemma CountedApart(r: Range)
    requires r.Sized() && AccountInv(r)
    ensures |Counted(r)| == |r.mem.succeeded| + |r.mem.superseded| + |Delivered(r, TheLanding(r), RowKind)|
    ensures forall i :: i in Counted(r) ==> i < r.Total()
  {
    var l := TheLanding(r);
    if l.Some? {
      forall i
        ensures i in Delivered(r, l, RowKind) ==> i !in r.mem.succeeded && i !in r.mem.superseded && i < r.Total()
      {
        if i >= 0 {
          RowsApart(r.mem, r.claim, l.value.cut, l.value.next, i);
        }
      }
    }
    ThreeWays(r.mem.succeeded, r.mem.superseded, Delivered(r, l, RowKind));
  }

  function Indices(n: nat): (s: set<nat>)
    ensures |s| == n
    ensures forall i :: i in s <==> 0 <= i < n
  {
    if n == 0 then {} else Indices(n - 1) + {n - 1}
  }

  /** The messages the counters do not include yet. */
  ghost function Unbooked(r: Range): set<nat>
    requires r.Sized() && AccountInv(r)
  {
    Indices(r.Total()) - Counted(r)
  }

  /** In every reachable state of a range whose rows are written once, each counter is the number of messages
      in its bucket, and what the counters lack of the claim is exactly the messages not counted yet. */
  lemma AccountsBalance(claim: Claim, chains: seq<seq<nat>>, places: seq<Place>, actions: seq<Action>)
    requires IsClaimed(claim, chains, places)
    ensures var r := Reach(claim, chains, places, actions);
            AccountInv(r) &&
            (RowsWrittenOnce(r) ==> Bucketed(r) && r.Total() == r.counters.Sum() + |Unbooked(r)|)
  {
    var r := Reach(claim, chains, places, actions);
    ReachHolds(claim, chains, places, actions);
    if RowsWrittenOnce(r) {
      BucketsHold(r);
      Balance(r);
    }
  }

  lemma Balance(r: Range)
    requires r.Sized() && AccountInv(r) && Bucketed(r)
    ensures r.Total() == r.counters.Sum() + |Unbooked(r)|
  {
    CountedApart(r);
    var l := TheLanding(r);
    if l.Some? {
      RowsSplit(r.claim, r.mem.cells, l.value.cut, l.value.next);
    }
    assert Indices(r.Total()) == Counted(r) + Unbooked(r);
  }

  // ---- Ranges whose commit landed ----

  lemma {:induction false} CollectGrows(claim: Claim, cells: seq<Cell>, i: nat, n: nat)
    requires claim.Sized() && |cells| == claim.Total() && i < n <= |cells| && claim.Reports(cells[i])
    ensures |Collect(claim, cells, i)| < |Collect(claim, cells, n)|
  {
    if i < n - 1 {
      CollectGrows(claim, cells, i, n - 1);
    }
  }

  /** A commit of the whole range has landed and its rows are counted: the full commit, or the retry at shutdown
      of one that failed, which is a partial commit of everything. */
  ghost predicate LandedInFull(r: Range) {
    var l := TheLanding(r);
    l.Some? && l.value.cut == r.Total() && l.value.next == |l.value.outcomes|
  }

  lemma LandedCounts(r: Range, i: nat)
    requires r.Sized() && AccountInv(r) && LandedInFull(r) && i < r.Total()
    ensures i in Counted(r)
  {
    assert r.mem.cells[i].done && CountedAs(r.mem, i, r.mem.cells[i].kind);
    if RowKind(r.mem.cells[i].kind) {
      CollectGrows(r.claim, r.mem.cells, i, r.Total());
      assert i in Delivered(r, TheLanding(r), RowKind);
    }
  }

  lemma LandedLeavesNone(r: Range)
    requires r.Sized() && AccountInv(r) && LandedInFull(r)
    ensures Unbooked(r) == {}
  {
    forall i | i in Indices(r.Total()) ensures i in Counted(r) {
      LandedCounts(r, i);
    }
  }

  /** Once a commit of the whole range has landed and its rows are counted, the counters include every message. */
  lemma LandedIsCounted(claim: Claim, chains: seq<seq<nat>>, places: seq<Place>, actions: seq<Action>)
    requires IsClaimed(claim, chains, places)
    ensures var r := Reach(claim, chains, places, actions);
            AccountInv(r) &&
            (LandedInFull(r) ==> Unbooked(r) == {}) &&
            (LandedInFull(r) && RowsWrittenOnce(r) ==> r.counters.Sum() == claim.Total())
  {
    var r := Reach(claim, chains, places, actions);
    ReachHolds(claim, chains, places, actions);
    if LandedInFull(r) {
      LandedLeavesNone(r);
      AccountsBalance(claim, chains, places, actions);
    }
  }
}
