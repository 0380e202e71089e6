/** Resolving a batch: attempt it, then evict, split or fail until every operation has its outcome. */
module BatchResolver {
  import opened Batches
  import opened ByteStrings
  import opened Sequences
  import opened Wrappers

  /** What one transaction attempt reports. A negative index says no statement is to blame. */
  datatype Answer = Committed(appended: seq<Appended>) | Failed(index: int, err: Failure)

  datatype Attempt = Attempt(ops: seq<Operation>, answer: Answer)

  /** One result per message on success; an index, where there is one, of the batch. */
  predicate Fits(a: Answer, size: nat) {
    match a
    case Committed(appended) => |appended| == size
    case Failed(index, _) => index < size
  }

  function Requests(ops: seq<Operation>): (rs: seq<Request>)
    ensures |rs| == |ops| && forall i :: 0 <= i < |ops| ==> rs[i] == ops[i].request
  {
    seq(|ops|, i requires 0 <= i < |ops| => ops[i].request)
  }

  /** The first refusal among the requests' own verdicts. */
  function Refusal(rs: seq<Request>): Option<Failure> {
    if rs == [] then None else if rs[0].refused.Some? then rs[0].refused else Refusal(rs[1..])
  }

  /** What the database answers to attempt number n of a batch: anything. */
  type Answers = (nat, seq<Request>) -> Answer

  /** What attempt n of a batch reports: a request refused while the appends are built, or the answer. */
  function Report(answers: Answers, n: nat, rs: seq<Request>): Answer {
    var refusal := Refusal(rs);
    if refusal.Some? then Failed(-1, refusal.value) else answers(n, rs)
  }

  class Database {
    const answers: Answers
    var log: seq<Attempt>

    constructor (answers: Answers)
      ensures this.answers == answers && log == []
    {
      this.answers := answers;
      log := [];
    }

    ghost predicate Valid() {
      forall n, rs :: rs != [] ==> Fits(answers(n, rs), |rs|)
    }

    method AttemptBatch(ops: seq<Operation>) returns (answer: Answer)
      requires Valid() && ops != []
      modifies this`log
      ensures answer == Report(answers, |old(log)|, Requests(ops)) && Fits(answer, |ops|)
      ensures log == old(log) + [Attempt(ops, answer)]
    {
      var i := 0;
      while i < |ops|
        invariant i <= |ops| && log == old(log)
        invariant Refusal(Requests(ops)) == Refusal(Requests(ops)[i..])
      {
        if ops[i].request.refused.Some? {
          answer := Failed(-1, ops[i].request.refused.value);
          log := log + [Attempt(ops, answer)];
          return;
        }
        i := i + 1;
      }
      answer := answers(|log|, Requests(ops));
      log := log + [Attempt(ops, answer)];
    }
  }

  datatype Action = FailBatch | EvictStatement | SplitBatch

  /** A failure of the attempt and of no operation in it. */
  predicate Passing(err: Failure) {
    err.transient || err.deadline
  }

  function Classify(err: Failure, index: int): Action {
    if Passing(err) then FailBatch
    else if index >= 0 && err.fromServer then EvictStatement
    else SplitBatch
  }

  // ---- What an operation's outcome says about the attempts that held it ----

  ghost predicate Took(a: Attempt, op: Operation)
    reads op
  {
    match a.answer
    case Committed(appended) =>
      op.err.None? &&
      exists i :: 0 <= i < |a.ops| && i < |appended| && a.ops[i] == op && op.appended == Some(appended[i])
    case Failed(index, err) =>
      && op.err == Some(err)
      && match Classify(err, index)
         case FailBatch => true
         case EvictStatement => 0 <= index < |a.ops| && a.ops[index] == op
         case SplitBatch => |a.ops| == 1
  }

  /** Attempt k is the last that held the operation and gave it its outcome; none before it committed it. */
  ghost predicate DecidedBy(log: seq<Attempt>, lo: nat, k: nat, op: Operation)
    requires lo <= k < |log|
    reads op
  {
    && op in log[k].ops
    && Took(log[k], op)
    && (forall j :: k < j < |log| ==> op !in log[j].ops)
    && (forall j :: lo <= j < k && op in log[j].ops ==> log[j].answer.Failed?)
  }

  ghost predicate Settled(log: seq<Attempt>, lo: nat, op: Operation)
    reads op
  {
    op.done && exists k :: lo <= k < |log| && DecidedBy(log, lo, k, op)
  }

  ghost predicate AllSettled(log: seq<Attempt>, lo: nat, ops: seq<Operation>)
    reads ops
  {
    forall i :: 0 <= i < |ops| ==> Settled(log, lo, ops[i])
  }

  /** Attempts lo.. were made with sub-batches of the batch only. */
  ghost predicate Within(log: seq<Attempt>, lo: nat, batch: seq<Operation>) {
    forall k :: lo <= k < |log| ==> log[k].ops != [] && IsSub(log[k].ops, batch)
  }

  /** The log's attempts from lo on are what the database reported for them. */
  ghost predicate Told(db: Database, log: seq<Attempt>, lo: nat) {
    forall k :: lo <= k < |log| ==> log[k].answer == Report(db.answers, k, Requests(log[k].ops))
  }

  ghost predicate Fresh(ops: seq<Operation>)
    reads ops
  {
    && (forall i, j :: 0 <= i < j < |ops| ==> ops[i] != ops[j])
    && (forall i :: 0 <= i < |ops| ==> !ops[i].done)
  }

  /** Every failure that does not pass is an operation's own: attributed to it by the server, or seen when it is
      alone. */
  ghost predicate Isolates(answers: Answers, own: Request -> Option<Failure>) {
    forall n, rs :: rs != [] ==> Isolated(Report(answers, n, rs), rs, own)
  }

  ghost predicate Isolated(a: Answer, rs: seq<Request>, own: Request -> Option<Failure>) {
    match a
    case Committed(_) => forall i :: 0 <= i < |rs| ==> own(rs[i]) == None
    case Failed(index, err) =>
      match Classify(err, index)
      case FailBatch => true
      case EvictStatement => index < |rs| && own(rs[index]) == Some(err)
      case SplitBatch => |rs| == 1 ==> own(rs[0]) == Some(err)
  }

  lemma SettledExtends(log: seq<Attempt>, longer: seq<Attempt>, lo: nat, op: Operation)
    requires log <= longer && Settled(log, lo, op)
    requires forall j :: |log| <= j < |longer| ==> op !in longer[j].ops
    ensures Settled(longer, lo, op)
  {
    var k :| lo <= k < |log| && DecidedBy(log, lo, k, op);
    assert DecidedBy(longer, lo, k, op);
  }

  lemma SettledSince(log: seq<Attempt>, lo: nat, since: nat, op: Operation)
    requires lo <= since && Settled(log, since, op)
    requires forall j :: lo <= j < since && j < |log| && op in log[j].ops ==> log[j].answer.Failed?
    ensures Settled(log, lo, op)
  {
    var k :| since <= k < |log| && DecidedBy(log, since, k, op);
    assert DecidedBy(log, lo, k, op);
  }

  // ---- Recording ----

  method RecordAll(ops: seq<Operation>, err: Option<Failure>)
    requires Fresh(ops)
    modifies ops
    ensures forall i :: 0 <= i < |ops| ==> ops[i].done && ops[i].err == err && ops[i].appended == old(ops[i].appended)
  {
    for i := 0 to |ops|
      invariant forall j :: 0 <= j < i ==> ops[j].done && ops[j].err == err
      invariant forall j :: i <= j < |ops| ==> !ops[j].done
      invariant forall j :: 0 <= j < |ops| ==> ops[j].appended == old(ops[j].appended)
    {
      ops[i].Record(err);
    }
  }

  method RecordCommit(ops: seq<Operation>, appended: seq<Appended>)
    requires Fresh(ops) && |appended| == |ops|
    modifies ops
    ensures forall i :: 0 <= i < |ops| ==> ops[i].done && ops[i].err == None && ops[i].appended == Some(appended[i])
  {
    for i := 0 to |ops|
      invariant forall j :: 0 <= j < i ==> ops[j].appended == Some(appended[j])
      invariant forall j :: 0 <= j < |ops| ==> !ops[j].done
    {
      ops[i].RecordAppended(appended[i]);
    }
    RecordAll(ops, None);
  }

  /** Operations recorded from the attempt just made, after failed ones only, are settled. */
  lemma JustSettled(log: seq<Attempt>, lo: nat, ops: seq<Operation>)
    requires lo < |log| && log[|log| - 1].ops == ops
    requires forall j :: lo <= j < |log| - 1 ==> log[j].answer.Failed?
    requires forall i :: 0 <= i < |ops| ==> ops[i].done && Took(log[|log| - 1], ops[i])
    ensures AllSettled(log, lo, ops)
  {
    forall i | 0 <= i < |ops| ensures Settled(log, lo, ops[i]) {
      assert DecidedBy(log, lo, |log| - 1, ops[i]);
    }
  }

  // ---- The rulebook ----

  /** The operations that are no longer in the current batch have their outcome. */
  ghost predicate RestSettled(log: seq<Attempt>, lo: nat, batch: seq<Operation>, current: seq<Operation>)
    reads batch
  {
    forall i :: 0 <= i < |batch| && batch[i] !in current ==> Settled(log, lo, batch[i])
  }

  ghost predicate FailedSince(log: seq<Attempt>, lo: nat) {
    forall k :: lo <= k < |log| ==> log[k].answer.Failed?
  }

  /** Attempts with sub-batches of the current batch leave the settled operations settled. */
  lemma RestExtends(log: seq<Attempt>, longer: seq<Attempt>, lo: nat, batch: seq<Operation>, current: seq<Operation>)
    requires log <= longer && Within(longer, |log|, current) && RestSettled(log, lo, batch, current)
    ensures RestSettled(longer, lo, batch, current)
  {
    forall i | 0 <= i < |batch| && batch[i] !in current ensures Settled(longer, lo, batch[i]) {
      forall j | |log| <= j < |longer| ensures batch[i] !in longer[j].ops {
        SubMembers(longer[j].ops, current);
      }
      SettledExtends(log, longer, lo, batch[i]);
    }
  }

  lemma EvictSettles(
    log: seq<Attempt>, lo: nat, batch: seq<Operation>, current: seq<Operation>, index: nat, rest: seq<Operation>)
    requires RestSettled(log, lo, batch, current) && index < |current|
    requires Settled(log, lo, current[index]) && rest == current[..index] + current[index + 1..]
    ensures RestSettled(log, lo, batch, rest)
  {
    forall i | 0 <= i < |batch| && batch[i] !in rest ensures Settled(log, lo, batch[i]) {
      if batch[i] in current {
        LeftOut(current, index, batch[i]);
      }
    }
  }

  lemma LeftOut(current: seq<Operation>, index: nat, op: Operation)
    requires index < |current| && op in current && op !in current[..index] + current[index + 1..]
    ensures op == current[index]
  {
    assert current == current[..index] + [current[index]] + current[index + 1..];
  }

  lemma WithinSub(log: seq<Attempt>, lo: nat, since: nat, batch: seq<Operation>, current: seq<Operation>)
    requires lo <= since <= |log| && Within(log[..since], lo, batch)
    requires Within(log, since, current) && IsSub(current, batch)
    ensures Within(log, lo, batch)
  {
    forall k | lo <= k < |log| ensures log[k].ops != [] && IsSub(log[k].ops, batch) {
      if k < since {
        assert log[..since][k] == log[k];
      } else {
        SubTransitive(log[k].ops, current, batch);
      }
    }
  }

  /** The last operations, settled by the attempts since then, complete the batch. */
  lemma Complete(log: seq<Attempt>, lo: nat, since: nat, batch: seq<Operation>, current: seq<Operation>)
    requires lo <= since <= |log| && FailedSince(log[..since], lo)
    requires RestSettled(log, lo, batch, current) && AllSettled(log, since, current)
    ensures AllSettled(log, lo, batch)
  {
    forall i | 0 <= i < |batch| ensures Settled(log, lo, batch[i]) {
      if batch[i] in current {
        assert forall j :: lo <= j < since ==> log[..since][j] == log[j];
        SettledSince(log, lo, since, batch[i]);
      }
    }
  }

  /** At most one attempt more than the batch has operations, and none more for a single one. */
  ghost predicate Bounded(log: seq<Attempt>, lo: nat, batch: seq<Operation>) {
    |log| - lo <= |batch| + if |batch| >= 2 then 1 else 0
  }

  /** What resolving a batch promises, whatever the database answers: attempts bounded by its size and made
      with sub-batches of it, and for each operation the outcome of the last attempt that held it. */
  ghost predicate Resolution(db: Database, before: seq<Attempt>, log: seq<Attempt>, batch: seq<Operation>)
    reads batch
  {
    && before <= log && Told(db, log, |before|)
    && Bounded(log, |before|, batch)
    && Within(log, |before|, batch)
    && AllSettled(log, |before|, batch)
  }

  /** While a batch is being resolved: every attempt so far failed, and whoever left has its outcome. */
  ghost predicate Midway(db: Database, log: seq<Attempt>, lo: nat, batch: seq<Operation>, current: seq<Operation>)
    reads batch, current
  {
    && IsSorted(current) && Fresh(current) && IsSub(current, batch)
    && |log| - lo == |batch| - |current|
    && Within(log, lo, batch) && Told(db, log, lo) && FailedSince(log, lo)
    && RestSettled(log, lo, batch, current)
  }

  /** The current batch has just been attempted. */
  ghost predicate Tried(db: Database, log: seq<Attempt>, lo: nat, batch: seq<Operation>, current: seq<Operation>)
    reads batch, current
  {
    && lo < |log| && current != [] && Last(log).ops == current && Fits(Last(log).answer, |current|)
    && Last(log).answer == Report(db.answers, |log| - 1, Requests(current))
    && Midway(db, Front(log), lo, batch, current)
  }

  lemma JustTried(db: Database, log: seq<Attempt>, lo: nat, batch: seq<Operation>, current: seq<Operation>)
    requires Tried(db, log, lo, batch, current)
    ensures RestSettled(log, lo, batch, current) && Within(log, lo, batch) && Told(db, log, lo)
  {
    var before := Front(log);
    assert log[..|before|] == before;
    SubAll(current);
    RestExtends(before, log, lo, batch, current);
    WithinSub(log, lo, |before|, batch, current);
    forall k | lo <= k < |log| ensures log[k].answer == Report(db.answers, k, Requests(log[k].ops)) {
      if k < |before| {
        assert log[k] == before[k];
      }
    }
  }

  lemma StillFailing(log: seq<Attempt>, lo: nat)
    requires log != [] && FailedSince(Front(log), lo) && Last(log).answer.Failed?
    ensures FailedSince(log, lo)
  {
    forall k | lo <= k < |log| ensures log[k].answer.Failed? {
      if k < |log| - 1 {
        assert log[k] == Front(log)[k];
      }
    }
  }

  /** Everything left of the batch has just been given the outcome of the last attempt. */
  lemma LastRecorded(log: seq<Attempt>, lo: nat, batch: seq<Operation>, current: seq<Operation>)
    requires lo < |log| && Last(log).ops == current && FailedSince(Front(log), lo)
    requires RestSettled(log, lo, batch, current)
    requires forall i :: 0 <= i < |current| ==> current[i].done && Took(Last(log), current[i])
    ensures AllSettled(log, lo, batch)
  {
    JustSettled(log, |log| - 1, current);
    Complete(log, lo, |log| - 1, batch, current);
  }

  /** Records the commit of the last attempt on everything left of the batch. */
  method CommitLast(
    db: Database, ghost lo: nat, ghost batch: seq<Operation>, current: seq<Operation>, appended: seq<Appended>)
    requires Tried(db, db.log, lo, batch, current) && Last(db.log).answer == Committed(appended)
    modifies current
    ensures Within(db.log, lo, batch) && Told(db, db.log, lo) && AllSettled(db.log, lo, batch)
  {
    JustTried(db, db.log, lo, batch, current);
    RecordCommit(current, appended);
    assert RestSettled(db.log, lo, batch, current);
    LastRecorded(db.log, lo, batch, current);
  }

  /** Records the failure of the last attempt on everything left of the batch. */
  method FailLast(
    db: Database, ghost lo: nat, ghost batch: seq<Operation>, current: seq<Operation>, ghost index: int, err: Failure)
    requires Tried(db, db.log, lo, batch, current) && Last(db.log).answer == Failed(index, err)
    requires !Classify(err, index).EvictStatement? && (Classify(err, index).SplitBatch? ==> |current| == 1)
    modifies current
    ensures Within(db.log, lo, batch) && Told(db, db.log, lo) && AllSettled(db.log, lo, batch)
  {
    JustTried(db, db.log, lo, batch, current);
    RecordAll(current, Some(err));
    assert RestSettled(db.log, lo, batch, current);
    LastRecorded(db.log, lo, batch, current);
  }

  ghost predicate FreshBut(ops: seq<Operation>, index: nat)
    reads ops
  {
    && (forall i, j :: 0 <= i < j < |ops| ==> ops[i] != ops[j])
    && (forall i :: 0 <= i < |ops| && i != index ==> !ops[i].done)
  }

  lemma OthersFresh(ops: seq<Operation>, index: nat)
    requires index < |ops| && FreshBut(ops, index)
    ensures Fresh(ops[..index] + ops[index + 1..])
  {
  }

  /** The failure of the last attempt has been recorded on the operation it is attributed to. */
  ghost predicate Blamed(
    db: Database, log: seq<Attempt>, lo: nat, batch: seq<Operation>, current: seq<Operation>, index: nat)
    reads batch, current
  {
    && lo < |log| && Last(log).ops == current && FailedSince(log, lo)
    && RestSettled(log, lo, batch, current) && IsSorted(current) && IsSub(current, batch)
    && |log| - lo == |batch| - |current| + 1 && Within(log, lo, batch) && Told(db, log, lo)
    && index < |current| && current[index].done && Took(Last(log), current[index])
    && FreshBut(current, index)
  }

  method RecordBlamed(
    db: Database, ghost lo: nat, ghost batch: seq<Operation>, current: seq<Operation>, index: nat, err: Failure)
    requires Tried(db, db.log, lo, batch, current)
    requires Last(db.log).answer == Failed(index, err) && Classify(err, index).EvictStatement?
    modifies current
    ensures Blamed(db, db.log, lo, batch, current, index)
  {
    JustTried(db, db.log, lo, batch, current);
    StillFailing(db.log, lo);
    current[index].Record(Some(err));
    assert RestSettled(db.log, lo, batch, current);
  }

  lemma Evicted(
    db: Database, log: seq<Attempt>, lo: nat, batch: seq<Operation>, current: seq<Operation>, index: nat,
    rest: seq<Operation>)
    requires Blamed(db, log, lo, batch, current, index)
    requires rest == current[..index] + current[index + 1..] && IsSorted(rest) && IsSub(rest, current)
    ensures Midway(db, log, lo, batch, rest)
  {
    assert DecidedBy(log, lo, |log| - 1, current[index]);
    EvictSettles(log, lo, batch, current, index, rest);
    OthersFresh(current, index);
    SubTransitive(rest, current, batch);
  }

  /** Records the failure of the last attempt on the operation it is attributed to and goes on without it. */
  method Evict(
    db: Database, ghost lo: nat, ghost batch: seq<Operation>, current: seq<Operation>, index: nat, err: Failure)
    returns (rest: seq<Operation>)
    requires Tried(db, db.log, lo, batch, current)
    requires Last(db.log).answer == Failed(index, err) && Classify(err, index).EvictStatement?
    modifies current
    ensures |rest| == |current| - 1 && Stands(db, db.log, lo, batch, rest)
  {
    RecordBlamed(db, lo, batch, current, index, err);
    rest := Remove(current, index);
    Evicted(db, db.log, lo, batch, current, index, rest);
  }

  /** Where the loop stands: nothing is left and everything has its outcome, or it is midway. */
  ghost predicate Stands(db: Database, log: seq<Attempt>, lo: nat, batch: seq<Operation>, current: seq<Operation>)
    reads batch, current
  {
    if current == [] then
      Within(log, lo, batch) && Told(db, log, lo) && Bounded(log, lo, batch) && AllSettled(log, lo, batch)
    else Midway(db, log, lo, batch, current)
  }

  /** Records an outcome on every operation of the batch and on no other. */
  method ResolveBatch(db: Database, batch: seq<Operation>)
    requires db.Valid() && IsSorted(batch) && Fresh(batch)
    modifies db`log, batch
    ensures Resolution(db, old(db.log), db.log, batch)
    decreases |batch|, 2
  {
    ghost var lo := |db.log|;
    var current := batch;
    SubAll(batch);
    while current != []
      invariant old(db.log) <= db.log && lo <= |db.log| && |current| <= |batch|
      invariant Stands(db, db.log, lo, batch, current)
      decreases |current|
    {
      SubMembers(current, batch);
      current := ResolveOnce(db, lo, batch, current);
    }
  }

  /** One turn of the loop: attempts what is left of the batch and applies the rulebook; what is then left is empty
      where the source returns. */
  method ResolveOnce(db: Database, ghost lo: nat, ghost batch: seq<Operation>, current: seq<Operation>)
    returns (rest: seq<Operation>)
    requires db.Valid() && current != [] && lo <= |db.log| && Midway(db, db.log, lo, batch, current)
    modifies db`log, current
    ensures old(db.log) <= db.log && |rest| < |current|
    ensures Stands(db, db.log, lo, batch, rest)
    decreases |current|, 1
  {
    ghost var tries := db.log;
    var answer := db.AttemptBatch(current);
    assert Front(db.log) == tries;
    match answer
    case Committed(appended) =>
      CommitLast(db, lo, batch, current, appended);
      rest := [];
    case Failed(index, err) =>
      rest := ApplyRulebook(db, lo, batch, current, index, err);
  }

  /** What is done about a failed attempt. */
  method ApplyRulebook(
    db: Database, ghost lo: nat, ghost batch: seq<Operation>, current: seq<Operation>, index: int, err: Failure)
    returns (rest: seq<Operation>)
    requires db.Valid() && Tried(db, db.log, lo, batch, current) && Last(db.log).answer == Failed(index, err)
    modifies db`log, current
    ensures old(db.log) <= db.log && |rest| < |current|
    ensures Stands(db, db.log, lo, batch, rest)
    decreases |current|, 0, 2
  {
    match Classify(err, index)
    case EvictStatement =>
      rest := Evict(db, lo, batch, current, index, err);
    case SplitBatch =>
      if |current| == 1 {
        FailLast(db, lo, batch, current, index, err);
      } else {
        JustTried(db, db.log, lo, batch, current);
        StillFailing(db.log, lo);
        Split(db, lo, batch, current);
      }
      rest := [];
    case FailBatch =>
      FailLast(db, lo, batch, current, index, err);
      rest := [];
  }

  /** Isolates what is left of a batch. */
  method Split(db: Database, ghost lo: nat, ghost batch: seq<Operation>, current: seq<Operation>)
    requires db.Valid() && lo <= |db.log|
    requires Told(db, db.log, lo) && FailedSince(db.log, lo) && Within(db.log, lo, batch)
    requires Fresh(current) && |current| >= 2 && IsSub(current, batch) && RestSettled(db.log, lo, batch, current)
    modifies db`log, current
    ensures old(db.log) <= db.log && |db.log| - |old(db.log)| <= |current| && Told(db, db.log, lo)
    ensures Within(db.log, lo, batch) && AllSettled(db.log, lo, batch)
    decreases |current|, 0, 1
  {
    ghost var tries := db.log;
    ResolveEach(db, current);
    AfterEach(tries, db.log, lo, batch, current);
  }

  lemma AfterEach(
    tries: seq<Attempt>, log: seq<Attempt>, lo: nat, batch: seq<Operation>, current: seq<Operation>)
    requires lo <= |tries| && tries <= log && IsSub(current, batch)
    requires Within(tries, lo, batch) && FailedSince(tries, lo) && RestSettled(tries, lo, batch, current)
    requires Within(log, |tries|, current) && AllSettled(log, |tries|, current)
    ensures Within(log, lo, batch) && AllSettled(log, lo, batch)
  {
    assert log[..|tries|] == tries;
    RestExtends(tries, log, lo, batch, current);
    WithinSub(log, lo, |tries|, batch, current);
    Complete(log, lo, |tries|, batch, current);
  }

  /** Operations i.. have not been tried since attempt lo. */
  ghost predicate Untried(log: seq<Attempt>, lo: nat, batch: seq<Operation>, i: nat) {
    forall k, j :: lo <= k < |log| && i <= j < |batch| ==> batch[j] !in log[k].ops
  }

  ghost predicate FirstSettled(log: seq<Attempt>, lo: nat, batch: seq<Operation>, i: nat)
    requires i <= |batch|
    reads batch
  {
    forall j :: 0 <= j < i ==> Settled(log, lo, batch[j])
  }

  lemma OneMoreSettled(before: seq<Attempt>, log: seq<Attempt>, lo: nat, batch: seq<Operation>, i: nat)
    requires before <= log && lo <= |before| && i < |batch| && Within(log, |before|, [batch[i]])
    requires forall j, k :: 0 <= j < k < |batch| ==> batch[j] != batch[k]
    requires Within(before, lo, batch) && Untried(before, lo, batch, i) && FirstSettled(before, lo, batch, i)
    requires Settled(log, |before|, batch[i])
    ensures Within(log, lo, batch) && Untried(log, lo, batch, i + 1) && FirstSettled(log, lo, batch, i + 1)
  {
    forall k | |before| <= k < |log| ensures forall x :: 0 <= x < |log[k].ops| ==> log[k].ops[x] == batch[i] {
      SubMembers(log[k].ops, [batch[i]]);
    }
    forall j | 0 <= j < i ensures Settled(log, lo, batch[j]) {
      SettledExtends(before, log, lo, batch[j]);
    }
    SettledSince(log, lo, |before|, batch[i]);
    SubSingle(batch, i);
    assert log[..|before|] == before;
    WithinSub(log, lo, |before|, batch, [batch[i]]);
  }

  /** Isolates each operation in a batch of its own. */
  method ResolveEach(db: Database, batch: seq<Operation>)
    requires db.Valid() && Fresh(batch) && |batch| >= 2
    modifies db`log, batch
    ensures old(db.log) <= db.log && |db.log| - |old(db.log)| <= |batch| && Told(db, db.log, |old(db.log)|)
    ensures Within(db.log, |old(db.log)|, batch) && AllSettled(db.log, |old(db.log)|, batch)
    decreases |batch|, 0, 0
  {
    ghost var lo := |db.log|;
    for i := 0 to |batch|
      invariant old(db.log) <= db.log && |db.log| - lo <= i && Told(db, db.log, lo)
      invariant Within(db.log, lo, batch) && Untried(db.log, lo, batch, i) && FirstSettled(db.log, lo, batch, i)
      invariant forall j :: i <= j < |batch| ==> !batch[j].done
    {
      ResolveAlone(db, lo, batch, i);
    }
  }

  method ResolveAlone(db: Database, ghost lo: nat, batch: seq<Operation>, i: nat)
    requires db.Valid() && |batch| >= 2 && i < |batch| && !batch[i].done
    requires forall j, k :: 0 <= j < k < |batch| ==> batch[j] != batch[k]
    requires lo <= |db.log| && Told(db, db.log, lo)
    requires Within(db.log, lo, batch) && Untried(db.log, lo, batch, i) && FirstSettled(db.log, lo, batch, i)
    modifies db`log, batch[i]
    ensures old(db.log) <= db.log && |db.log| - |old(db.log)| <= 1 && Told(db, db.log, lo)
    ensures Within(db.log, lo, batch) && Untried(db.log, lo, batch, i + 1) && FirstSettled(db.log, lo, batch, i + 1)
    decreases 1, 3
  {
    ghost var before := db.log;
    var single := Single(batch, i);
    ResolveBatch(db, single);
    assert single[0] == batch[i];
    OneMoreSettled(before, db.log, lo, batch, i);
  }

  // ---- What a well-behaved database makes of it ----

  /** Some attempt made since lo failed for no operation's sake. */
  ghost predicate Disturbed(log: seq<Attempt>, lo: nat) {
    exists k :: lo <= k < |log| && log[k].answer.Failed? && Passing(log[k].answer.err)
  }

  /** When every failure that does not pass is an operation's own, each operation gets its own verdict or a passing
      failure of an attempt that held it: what is wrong with one message never reaches another, however the batch
      was evicted from and split. With no passing failure, each gets its own verdict. */
  lemma OutcomesAreOwn(
    db: Database, before: seq<Attempt>, log: seq<Attempt>, batch: seq<Operation>, own: Request -> Option<Failure>)
    requires Isolates(db.answers, own) && Resolution(db, before, log, batch)
    ensures forall i :: 0 <= i < |batch| ==>
              batch[i].err == own(batch[i].request) || (batch[i].err.Some? && Passing(batch[i].err.value))
    ensures !Disturbed(log, |before|) ==> forall i :: 0 <= i < |batch| ==> batch[i].err == own(batch[i].request)
  {
    forall i | 0 <= i < |batch|
      ensures batch[i].err == own(batch[i].request) ||
              (Disturbed(log, |before|) && batch[i].err.Some? && Passing(batch[i].err.value))
    {
      var k :| |before| <= k < |log| && DecidedBy(log, |before|, k, batch[i]);
      assert Isolated(log[k].answer, Requests(log[k].ops), own);
      var j :| 0 <= j < |log[k].ops| && log[k].ops[j] == batch[i];
      assert Requests(log[k].ops)[j] == batch[i].request;
    }
  }

  /** What a database that judges each message by its content makes of one. */
  datatype Verdict = Accepts | RejectsStatement(err: Failure) | CannotEncode(err: Failure)

  predicate Permanent(v: Verdict) {
    match v
    case Accepts => true
    case RejectsStatement(err) => !Passing(err) && err.fromServer
    case CannotEncode(err) => !Passing(err)
  }

  /** The error of the first message that cannot be encoded, which fails the round trip before any statement. */
  function EncodeError(rs: seq<Request>, judge: Request -> Verdict): Option<Failure> {
    if rs == [] then None
    else if judge(rs[0]).CannotEncode? then Some(judge(rs[0]).err) else EncodeError(rs[1..], judge)
  }

  /** The first statement the server rejects, from i on. */
  function FirstRejected(rs: seq<Request>, judge: Request -> Verdict, i: nat): (j: nat)
    requires i <= |rs|
    ensures i <= j <= |rs|
    ensures forall k :: i <= k < j ==> !judge(rs[k]).RejectsStatement?
    ensures j < |rs| ==> judge(rs[j]).RejectsStatement?
    decreases |rs| - i
  {
    if i == |rs| || judge(rs[i]).RejectsStatement? then i else FirstRejected(rs, judge, i + 1)
  }

  /** The database judges a batch by the content of its messages, whatever the number of the attempt. */
  ghost predicate JudgesByContent(answers: Answers, judge: Request -> Verdict) {
    && (forall r :: Permanent(judge(r)))
    && forall n, rs :: rs != [] ==> Judges(answers(n, rs), rs, judge)
  }

  predicate Judges(a: Answer, rs: seq<Request>, judge: Request -> Verdict) {
    var unencodable := EncodeError(rs, judge);
    var rejected := FirstRejected(rs, judge, 0);
    if unencodable.Some? then a == Failed(-1, unencodable.value)
    else if rejected < |rs| then a == Failed(rejected, judge(rs[rejected]).err)
    else a.Committed?
  }

  function OwnFailure(judge: Request -> Verdict): Request -> Option<Failure> {
    (r: Request) =>
      if r.refused.Some? then r.refused else if judge(r).Accepts? then None else Some(judge(r).err)
  }

  lemma {:induction false} NoEncodeError(rs: seq<Request>, judge: Request -> Verdict)
    requires EncodeError(rs, judge).None?
    ensures forall i :: 0 <= i < |rs| ==> !judge(rs[i]).CannotEncode?
  {
    if rs != [] {
      NoEncodeError(rs[1..], judge);
      assert forall i :: 1 <= i < |rs| ==> rs[i] == rs[1..][i - 1];
    }
  }

  lemma {:induction false} NoRefusal(rs: seq<Request>)
    ensures if Refusal(rs).None? then forall i :: 0 <= i < |rs| ==> rs[i].refused.None?
            else exists i :: 0 <= i < |rs| && rs[i].refused == Refusal(rs)
  {
    if rs != [] {
      NoRefusal(rs[1..]);
      assert forall i :: 1 <= i < |rs| ==> rs[i] == rs[1..][i - 1];
      if rs[0].refused.None? && Refusal(rs).Some? {
        var i :| 0 <= i < |rs[1..]| && rs[1..][i].refused == Refusal(rs[1..]);
        assert rs[i + 1].refused == Refusal(rs);
      }
    }
  }

  lemma {:induction false} EncodeErrorIsOnes(rs: seq<Request>, judge: Request -> Verdict)
    requires EncodeError(rs, judge).Some?
    ensures exists i :: 0 <= i < |rs| && judge(rs[i]) == CannotEncode(EncodeError(rs, judge).value)
  {
    if !judge(rs[0]).CannotEncode? {
      EncodeErrorIsOnes(rs[1..], judge);
      var i :| 0 <= i < |rs[1..]| && judge(rs[1..][i]) == CannotEncode(EncodeError(rs, judge).value);
      assert judge(rs[i + 1]) == CannotEncode(EncodeError(rs, judge).value);
    } else {
      assert judge(rs[0]) == CannotEncode(EncodeError(rs, judge).value);
    }
  }

  lemma JudgedIsOwn(a: Answer, rs: seq<Request>, judge: Request -> Verdict)
    requires rs != [] && Refusal(rs).None? && Judges(a, rs, judge) && forall r :: Permanent(judge(r))
    ensures Isolated(a, rs, OwnFailure(judge)) && (a.Failed? ==> !Passing(a.err))
  {
    NoRefusal(rs);
    var unencodable := EncodeError(rs, judge);
    if unencodable.Some? {
      EncodeErrorIsOnes(rs, judge);
      var i :| 0 <= i < |rs| && judge(rs[i]) == CannotEncode(unencodable.value);
      assert Permanent(judge(rs[i]));
    } else {
      NoEncodeError(rs, judge);
      var rejected := FirstRejected(rs, judge, 0);
      if rejected < |rs| {
        assert Permanent(judge(rs[rejected]));
      }
    }
  }

  /** A database that judges messages by content fails each for its own reason only. */
  lemma JudgingIsolates(answers: Answers, judge: Request -> Verdict)
    requires JudgesByContent(answers, judge)
    ensures Isolates(answers, OwnFailure(judge))
  {
    var own := OwnFailure(judge);
    forall n, rs: seq<Request> | rs != [] ensures Isolated(Report(answers, n, rs), rs, own) {
      if Refusal(rs).Some? {
        NoRefusal(rs);
        var i :| 0 <= i < |rs| && rs[i].refused == Refusal(rs);
      } else {
        JudgedIsOwn(answers(n, rs), rs, judge);
      }
    }
  }

  /** The database that judges by content, and commits what nothing is wrong with. */
  function Judging(judge: Request -> Verdict): Answers {
    (n: nat, rs: seq<Request>) =>
      var unencodable := EncodeError(rs, judge);
      var rejected := FirstRejected(rs, judge, 0);
      if unencodable.Some? then Failed(-1, unencodable.value)
      else if rejected < |rs| then Failed(rejected, judge(rs[rejected]).err)
      else Committed(seq(|rs|, i => Appended(i, false)))
  }

  /** There is such a database for every judgement that is for good, and it answers as an append may. */
  lemma JudgingDatabase(judge: Request -> Verdict)
    requires forall r :: Permanent(judge(r))
    ensures JudgesByContent(Judging(judge), judge) && Isolates(Judging(judge), OwnFailure(judge))
    ensures forall n, rs :: rs != [] ==> Fits(Judging(judge)(n, rs), |rs|)
  {
    JudgingIsolates(Judging(judge), judge);
  }

  /** Such a database leaves no failure to chance: a batch of which validation refuses nothing is not disturbed. */
  lemma JudgingIsCalm(
    db: Database, before: seq<Attempt>, log: seq<Attempt>, batch: seq<Operation>, judge: Request -> Verdict)
    requires JudgesByContent(db.answers, judge) && Resolution(db, before, log, batch)
    requires forall i :: 0 <= i < |batch| ==> batch[i].request.refused.None?
    ensures !Disturbed(log, |before|)
  {
    forall k | |before| <= k < |log| ensures log[k].answer.Failed? ==> !Passing(log[k].answer.err) {
      var rs := Requests(log[k].ops);
      SubMembers(log[k].ops, batch);
      NoRefusal(rs);
      JudgedIsOwn(db.answers(k, rs), rs, judge);
    }
  }

  /** For instance one that rejects the message with id 7: in any batch that one alone fails, with that error. */
  lemma OnePoison(db: Database, before: seq<Attempt>, log: seq<Attempt>, batch: seq<Operation>, poison: Failure)
    requires poison == Failure(false, false, true, "value too long")
    requires db.answers == Judging((r: Request) => if r.id == 7 then RejectsStatement(poison) else Accepts)
    requires Resolution(db, before, log, batch)
    requires forall i :: 0 <= i < |batch| ==> batch[i].request.refused.None?
    ensures forall i :: 0 <= i < |batch| ==>
              batch[i].err == if batch[i].request.id == 7 then Some(poison) else None
  {
    var judge := (r: Request) => if r.id == 7 then RejectsStatement(poison) else Accepts;
    JudgingDatabase(judge);
    JudgingIsCalm(db, before, log, batch, judge);
    OutcomesAreOwn(db, before, log, batch, OwnFailure(judge));
  }

  /** Every batch ever attempted is sorted by key, and the operations of one key are in it in the order they
      were dequeued in, whatever was evicted or split off before. */
  lemma AttemptsKeepOrder(
    db: Database, before: seq<Attempt>, log: seq<Attempt>, dequeued: seq<Operation>, k: nat, key: Bytes)
    requires Resolution(db, before, log, Sorted(dequeued)) && |before| <= k < |log|
    ensures IsSorted(log[k].ops) && IsSub(WithKey(log[k].ops, key), WithKey(dequeued, key))
  {
    SortedIsSorted(dequeued);
    SubSorted(log[k].ops, Sorted(dequeued));
    SubKeepsKeyOrder(log[k].ops, Sorted(dequeued), key);
    SortIsStable(dequeued);
  }

  // ---- One turn of a worker ----

  lemma {:induction false} InsertAvoids(s: seq<Operation>, x: Operation, z: Operation)
    requires z !in s && x != z
    ensures z !in Insert(s, x)
  {
    if s != [] && !AtMost(SortKey(Last(s)), SortKey(x)) {
      assert s == Front(s) + [Last(s)];
      InsertAvoids(Front(s), x, z);
    }
  }

  lemma {:induction false} InsertDistinct(s: seq<Operation>, x: Operation)
    requires Distinct(s) && x !in s
    ensures Distinct(Insert(s, x))
  {
    if s != [] && !AtMost(SortKey(Last(s)), SortKey(x)) {
      assert s == Front(s) + [Last(s)];
      InsertDistinct(Front(s), x);
      InsertAvoids(Front(s), x, Last(s));
    }
  }

  lemma {:induction false} InsertMembers(s: seq<Operation>, x: Operation)
    ensures multiset(Insert(s, x)) == multiset(s) + multiset{x}
  {
    if s != [] && !AtMost(SortKey(Last(s)), SortKey(x)) {
      assert s == Front(s) + [Last(s)];
      InsertMembers(Front(s), x);
    }
  }

  lemma {:induction false} SortedDistinct(s: seq<Operation>)
    requires Distinct(s)
    ensures Distinct(Sorted(s)) && multiset(Sorted(s)) == multiset(s)
  {
    if s != [] {
      SortedDistinct(Front(s));
      assert s == Front(s) + [Last(s)];
      InsertMembers(Sorted(Front(s)), Last(s));
      assert Last(s) !in multiset(Front(s));
      InsertDistinct(Sorted(Front(s)), Last(s));
    }
  }

  /** The dequeued operations as a batch, sorted in place. */
  method BatchOf(operations: array<Operation>) returns (batch: seq<Operation>)
    requires Fresh(operations[..])
    modifies operations
    ensures batch == operations[..] && batch == Sorted(old(operations[..]))
    ensures IsSorted(batch) && Fresh(batch)
    ensures forall i :: 0 <= i < |batch| ==> batch[i] in old(operations[..])
  {
    ghost var dequeued := operations[..];
    NewBatch(operations);
    SortedIsSorted(dequeued);
    SortedDistinct(dequeued);
    SortedMembers(dequeued);
    batch := operations[..];
  }

  /** One turn of a worker: it makes a batch of what it dequeued and resolves it. */
  method ResolveDequeued(db: Database, operations: array<Operation>) returns (batch: seq<Operation>)
    requires db.Valid() && Fresh(operations[..])
    modifies db`log, operations, operations[..]
    ensures batch == Sorted(old(operations[..]))
    ensures Resolution(db, old(db.log), db.log, batch)
  {
    batch := BatchOf(operations);
    ResolveBatch(db, batch);
  }

  lemma SortedMembers(s: seq<Operation>)
    requires Distinct(s)
    ensures forall i :: 0 <= i < |Sorted(s)| ==> Sorted(s)[i] in s
    ensures forall i :: 0 <= i < |s| ==> s[i] in Sorted(s)
  {
    SortedDistinct(s);
    forall i | 0 <= i < |Sorted(s)| ensures Sorted(s)[i] in s {
      assert Sorted(s)[i] in multiset(Sorted(s));
    }
    forall i | 0 <= i < |s| ensures s[i] in Sorted(s) {
      assert s[i] in multiset(s);
    }
  }
}
