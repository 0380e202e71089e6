/** Producing a schedule's due messages: one transaction per due row, any number of them in a row. */
module Schedules {
  import opened Wrappers

  /** A schedule expression: the first scheduled time after a time, if it has one. */
  type Expression = int -> Option<int>

  ghost predicate Later(next: Expression) {
    forall t :: next(t).Some? ==> next(t).value > t
  }

  /** `last` is reached from `first` along the expression, and is the last not after `now`. */
  ghost predicate NewestDue(next: Expression, first: int, now: int, last: int) {
    && Reached(next, first, last)
    && last <= now
    && (next(last).Some? ==> next(last).value > now)
  }

  /** A chain of scheduled times leads from first to last. */
  ghost predicate Reached(next: Expression, first: int, last: int) {
    exists chain: seq<int> :: IsChain(next, chain) && chain[0] == first && chain[|chain| - 1] == last
  }

  ghost predicate IsChain(next: Expression, chain: seq<int>) {
    chain != [] && forall i :: 0 <= i < |chain| - 1 ==> next(chain[i]) == Some(chain[i + 1])
  }

  /** A row: when it is next due, None once suspended; the scheduled times its transactions settled; and those of
      them whose message was stored then, not found to be stored already. */
  datatype Row = Row(dueAt: Option<int>, settled: seq<int>, messages: seq<int>)

  /** A transaction's clock, whether the produce finds the idempotency key claimed, and whether all of it commits. */
  datatype Txn = Txn(now: int, duplicate: bool, commits: bool)

  /** What one transaction does: nothing unless the row is due and everything commits; else it settles the newest
      due time, storing its message unless that is a duplicate, and advances the row past the transaction's time, or
      suspends it. */
  ghost predicate Produces(next: Expression, before: Row, t: Txn, after: Row) {
    if before.dueAt.Some? && before.dueAt.value <= t.now && t.commits then
      && |after.settled| == |before.settled| + 1 && after.settled[..|before.settled|] == before.settled
      && NewestDue(next, before.dueAt.value, t.now, after.settled[|before.settled|])
      && after.messages == before.messages + (if t.duplicate then [] else [after.settled[|before.settled|]])
      && after.dueAt == next(t.now)
    else after == before
  }

  /** A schedule's row. */
  class Schedule {
    const next: Expression
    var row: Row

    constructor (next: Expression, dueAt: int)
      ensures this.next == next && row == Row(Some(dueAt), [], [])
    {
      this.next := next;
      row := Row(Some(dueAt), [], []);
    }

    /** When the row is due, if it is at the database's time. */
    function ClaimDue(now: int): Option<int>
      reads this`row
    {
      if row.dueAt.Some? && row.dueAt.value <= now then row.dueAt else None
    }

    /** One transaction: produce the newest due scheduled time and advance the row, or suspend it. A duplicate is
        only reported. `commits` is false if any statement of it or the commit fails, which rolls back all. */
    method ProduceDue(now: int, duplicate: bool, commits: bool) returns (settled: bool)
      requires Later(next)
      modifies this`row
      ensures settled == (old(ClaimDue(now)).Some? && commits)
      ensures Produces(next, old(row), Txn(now, duplicate, commits), row)
    {
      var due := ClaimDue(now);
      if due.None? {
        return false;
      }
      var scheduledTime := due.value;
      ghost var chain := [scheduledTime];
      var following := next(scheduledTime);
      while following.Some? && following.value <= now
        invariant following == next(scheduledTime) && scheduledTime <= now
        invariant IsChain(next, chain) && chain[0] == due.value && chain[|chain| - 1] == scheduledTime
        decreases now - scheduledTime
      {
        scheduledTime := following.value;
        chain := chain + [scheduledTime];
        following := next(scheduledTime);
      }
      if !commits {
        return false;
      }
      var stored := if duplicate then [] else [scheduledTime];
      row := Row(next(now), row.settled + [scheduledTime], row.messages + stored);
      return true;
    }
  }

  // ---- The newest due time ----

  /** There is one newest due time: chains along an expression are prefixes of one another. */
  lemma {:induction false} ChainsAgree(next: Expression, a: seq<int>, b: seq<int>, i: nat)
    requires IsChain(next, a) && IsChain(next, b) && a[0] == b[0] && i < |a| && i < |b|
    ensures a[i] == b[i]
  {
    if i > 0 {
      ChainsAgree(next, a, b, i - 1);
      assert next(a[i - 1]) == Some(a[i]) && next(b[i - 1]) == Some(b[i]);
    }
  }

  lemma {:induction false} ChainClimbs(next: Expression, chain: seq<int>, i: nat, j: nat)
    requires Later(next) && IsChain(next, chain) && i <= j < |chain|
    ensures chain[i] <= chain[j] && (i < j ==> chain[i] < chain[j])
  {
    if i < j {
      ChainClimbs(next, chain, i, j - 1);
      assert next(chain[j - 1]) == Some(chain[j]);
    }
  }

  /** A newest due time lies at the same place of every chain long enough. */
  lemma NewestIsOne(next: Expression, first: int, now: int, a: int, b: int)
    requires Later(next) && NewestDue(next, first, now, a) && NewestDue(next, first, now, b)
    ensures a == b
  {
    var c: seq<int> :| IsChain(next, c) && c[0] == first && c[|c| - 1] == a;
    var d: seq<int> :| IsChain(next, d) && d[0] == first && d[|d| - 1] == b;
    if |c| < |d| {
      PastTheNewest(next, c, d, now);
    } else if |d| < |c| {
      PastTheNewest(next, d, c, now);
    } else {
      ChainsAgree(next, c, d, |c| - 1);
    }
  }

  /** A chain that goes on past another's newest due time ends after now. */
  lemma PastTheNewest(next: Expression, c: seq<int>, d: seq<int>, now: int)
    requires Later(next) && IsChain(next, c) && IsChain(next, d) && c[0] == d[0] && |c| < |d|
    requires next(c[|c| - 1]).Some? ==> next(c[|c| - 1]).value > now
    ensures d[|d| - 1] > now
  {
    ChainsAgree(next, c, d, |c| - 1);
    assert next(d[|c| - 1]) == Some(d[|c|]);
    ChainClimbs(next, d, |c|, |d| - 1);
  }

  lemma NewestAfterFirst(next: Expression, first: int, now: int, last: int)
    requires Later(next) && NewestDue(next, first, now, last)
    ensures first <= last <= now
  {
    var c: seq<int> :| IsChain(next, c) && c[0] == first && c[|c| - 1] == last;
    ChainClimbs(next, c, 0, |c| - 1);
  }

  // ---- Any sequence of transactions ----

  /** A row over a sequence of transactions, whatever their clocks say. */
  ghost predicate History(next: Expression, rows: seq<Row>, txns: seq<Txn>) {
    |rows| == |txns| + 1 && forall i :: 0 <= i < |txns| ==> Produces(next, rows[i], txns[i], rows[i + 1])
  }

  ghost predicate Climbing(s: seq<int>) {
    forall i, j :: 0 <= i < j < |s| ==> s[i] < s[j]
  }

  ghost predicate AllBefore(s: seq<int>, due: Option<int>) {
    due.Some? ==> forall i :: 0 <= i < |s| ==> s[i] < due.value
  }

  /** What was settled, and what was stored, climbs and lies before what is still due; stored is only what was
      settled. */
  ghost predicate Ahead(r: Row) {
    && Climbing(r.settled) && AllBefore(r.settled, r.dueAt)
    && Climbing(r.messages) && AllBefore(r.messages, r.dueAt)
    && (forall i :: 0 <= i < |r.messages| ==> r.messages[i] in r.settled)
  }

  /** After each transaction that settled a time, the row is due strictly after that transaction's time, or
      suspended. */
  lemma ProducesStaysAhead(next: Expression, before: Row, t: Txn, after: Row)
    requires Later(next) && Ahead(before) && Produces(next, before, t, after)
    ensures Ahead(after)
    ensures after != before ==> after.dueAt.None? || after.dueAt.value > t.now
  {
    if after != before {
      var n := |before.settled|;
      NewestAfterFirst(next, before.dueAt.value, t.now, after.settled[n]);
      assert after.settled == before.settled + [after.settled[n]];
    }
  }

  /** The scheduled times a schedule produces strictly increase over any sequence of transactions, even under a
      clock that goes back: none is ever produced twice. */
  lemma {:induction false} ProducedTimesClimb(next: Expression, rows: seq<Row>, txns: seq<Txn>)
    requires Later(next) && History(next, rows, txns) && rows[0].settled == [] && rows[0].messages == []
    ensures Ahead(rows[|rows| - 1])
    decreases |txns|
  {
    if txns != [] {
      var n := |txns|;
      assert forall i :: 0 <= i < n ==> rows[..n][i] == rows[i];
      ProducedTimesClimb(next, rows[..n], txns[..n - 1]);
      ProducesStaysAhead(next, rows[n - 1], txns[n - 1], rows[n]);
    }
  }

  // ---- Calendars ----

  /** An expression that names fixed times: two times without one between them have the same next. */
  ghost predicate Calendar(next: Expression) {
    forall t, u :: NoneBetween(next, t, u) ==> next(u) == next(t)
  }

  predicate NoneBetween(next: Expression, t: int, u: int) {
    t <= u && (next(t).Some? ==> u < next(t).value)
  }

  /** For instance every full minute, in seconds. */
  function EveryMinute(t: int): Option<int> {
    Some((t / 60 + 1) * 60)
  }

  lemma EveryMinuteIsCalendar()
    ensures Later(EveryMinute) && Calendar(EveryMinute)
  {
  }

  /** For such an expression the row advances to the scheduled time that follows the one it settled. */
  lemma AdvanceSkipsNone(next: Expression, first: int, now: int, last: int)
    requires Later(next) && Calendar(next) && NewestDue(next, first, now, last)
    ensures next(now) == next(last)
  {
    assert NoneBetween(next, last, now);
  }

  lemma ReachedJoin(next: Expression, a: int, b: int, c: int)
    requires Reached(next, a, b) && Reached(next, b, c)
    ensures Reached(next, a, c)
  {
    var x: seq<int> :| IsChain(next, x) && x[0] == a && x[|x| - 1] == b;
    var y: seq<int> :| IsChain(next, y) && y[0] == b && y[|y| - 1] == c;
    assert IsChain(next, x + y[1..]);
  }

  lemma ReachedNext(next: Expression, a: int, b: int)
    requires next(a) == Some(b)
    ensures Reached(next, a, b)
  {
    assert IsChain(next, [a, b]);
  }

  /** All settled times lie on the one chain of scheduled times from the first, and the row is due at the chain's
      next after the last of them. */
  ghost predicate OnOneChain(next: Expression, first: int, r: Row) {
    && (forall i :: 0 <= i < |r.settled| ==> Reached(next, first, r.settled[i]))
    && r.dueAt == if r.settled == [] then Some(first) else next(r.settled[|r.settled| - 1])
  }

  lemma ProducesStaysOnChain(next: Expression, first: int, before: Row, t: Txn, after: Row)
    requires Later(next) && Calendar(next) && OnOneChain(next, first, before) && Produces(next, before, t, after)
    ensures OnOneChain(next, first, after)
  {
    if after != before {
      var n := |before.settled|;
      var due, newest := before.dueAt.value, after.settled[n];
      if n > 0 {
        ReachedNext(next, before.settled[n - 1], due);
        ReachedJoin(next, first, before.settled[n - 1], due);
        ReachedJoin(next, first, due, newest);
      }
      AdvanceSkipsNone(next, due, t.now, newest);
      assert after.settled == before.settled + [newest];
    }
  }

  /** Over any sequence of transactions a calendar's scheduled times are passed along one chain: each transaction
      settles the last of it not after its time, and leaves the row due at the one that follows, so that none still
      to come is ever skipped. */
  lemma {:induction false} NothingToComeIsSkipped(next: Expression, first: int, rows: seq<Row>, txns: seq<Txn>)
    requires Later(next) && Calendar(next) && History(next, rows, txns) && rows[0] == Row(Some(first), [], [])
    ensures OnOneChain(next, first, rows[|rows| - 1])
    decreases |txns|
  {
    if txns != [] {
      var n := |txns|;
      assert forall i :: 0 <= i < n ==> rows[..n][i] == rows[i];
      NothingToComeIsSkipped(next, first, rows[..n], txns[..n - 1]);
      ProducesStaysOnChain(next, first, rows[n - 1], txns[n - 1], rows[n]);
    }
  }
}
