/** The queue between produce callers and batch workers, and the interleavings of the two. */
module WorkQueues {
  import opened Counting
  import opened Sequences
  import opened Wrappers

  /** The first enqueue always gets a worker; more only under backlog pressure. */
  predicate WantsWorker(queued: nat, workers: int, dequeueMax: nat, workerLimit: nat) {
    workers == 0 || (workers < workerLimit && queued > workers * dequeueMax)
  }

  class WorkQueue<Work> {
    var work: seq<Work>
    var workers: int

    constructor ()
      ensures work == [] && workers == 0
    {
      work, workers := [], 0;
    }

    method Enqueue(item: Work)
      modifies this`work
      ensures work == old(work) + [item]
    {
      work := work + [item];
    }

    method NeedsWorker(dequeueMax: nat, workerLimit: nat) returns (needed: bool)
      modifies this`workers
      ensures needed == WantsWorker(|work|, old(workers), dequeueMax, workerLimit)
      ensures workers == old(workers) + Bit(needed)
    {
      if workers == 0 || (workers < workerLimit && |work| > workers * dequeueMax) {
        workers := workers + 1;
        return true;
      }
      return false;
    }

    /** Takes up to `max` items from the front. On an empty queue the worker is signed off in the same
        critical section that saw the queue empty. */
    method Dequeue(max: nat) returns (items: Option<seq<Work>>)
      modifies this
      ensures old(work) == [] ==> items == None && work == [] && workers == old(workers) - 1
      ensures old(work) != [] ==>
                && items.Some? && items.value + work == old(work) && workers == old(workers)
                && |items.value| == Min(|old(work)|, max)
    {
      if |work| == 0 {
        workers := workers - 1;
        return None;
      }
      var count := Min(|work|, max);
      items := Some(work[..count]);
      work := work[count..];
    }
  }

  // ---- Callers and workers ----

  /** A caller has enqueued its operation; it then asks whether to start a worker, and starts it. */
  datatype Caller = Enqueued | Spawning | Waiting

  datatype Worker = Looping | Resolving(batch: seq<nat>) | Exited

  /** Operations are numbered in the order they were enqueued in. `taken` lists the dequeued ones. */
  datatype State = State(
    queue: seq<nat>, workers: int, callers: seq<Caller>, loops: seq<Worker>, taken: seq<nat>, recorded: seq<nat>)

  datatype Action = Produce | Ask(c: nat) | Spawn(c: nat) | Dequeue(w: nat) | Record(w: nat)

  datatype Config = Config(maxSize: nat, workerLimit: nat) {
    predicate Valid() {
      maxSize >= 1 && workerLimit >= 1
    }
  }

  function Next(cfg: Config, s: State, a: Action): State {
    match a
    case Produce => s.(queue := s.queue + [|s.callers|], callers := s.callers + [Enqueued])
    case Ask(c) =>
      if c >= |s.callers| || s.callers[c] != Enqueued then s
      else if WantsWorker(|s.queue|, s.workers, cfg.maxSize, cfg.workerLimit) then
        s.(workers := s.workers + 1, callers := s.callers[c := Spawning])
      else s.(callers := s.callers[c := Waiting])
    case Spawn(c) =>
      if c >= |s.callers| || s.callers[c] != Spawning then s
      else s.(callers := s.callers[c := Waiting], loops := s.loops + [Looping])
    case Dequeue(w) =>
      if w >= |s.loops| || s.loops[w] != Looping then s
      else if s.queue == [] then s.(workers := s.workers - 1, loops := s.loops[w := Exited])
      else
        var count := Min(|s.queue|, cfg.maxSize);
        s.(queue := s.queue[count..], taken := s.taken + s.queue[..count],
        loops := s.loops[w := Resolving(s.queue[..count])])
    case Record(w) =>
      if w >= |s.loops| || !s.loops[w].Resolving? then s
      else s.(loops := s.loops[w := Looping], recorded := s.recorded + s.loops[w].batch)
  }

  predicate IsSpawning(c: Caller) {
    c.Spawning?
  }

  predicate IsAlive(w: Worker) {
    !w.Exited?
  }

  predicate Owes(c: Caller) {
    c.Enqueued? || c.Spawning?
  }

  function Held(w: Worker): seq<nat> {
    if w.Resolving? then w.batch else []
  }

  /** How many times an operation occurs in a sequence. */
  function Times(s: seq<nat>, op: nat): nat {
    multiset(s)[op]
  }

  /** How many times workers hold an operation in their batches. */
  function InBatches(loops: seq<Worker>, op: nat): nat {
    if loops == [] then 0 else InBatches(loops[..|loops| - 1], op) + Times(Held(loops[|loops| - 1]), op)
  }

  function UpTo(n: nat): (s: seq<nat>)
    ensures |s| == n
  {
    seq(n, i requires 0 <= i < n => i)
  }

  /** Someone will still look at the queue: a live worker, or a caller that has not asked yet. */
  ghost predicate Attended(s: State) {
    || (exists c :: 0 <= c < |s.callers| && Owes(s.callers[c]))
    || (exists w :: 0 <= w < |s.loops| && IsAlive(s.loops[w]))
  }

  ghost predicate Staffed(cfg: Config, s: State) {
    && s.workers == Count(s.callers, IsSpawning) + Count(s.loops, IsAlive)
    && s.workers <= cfg.workerLimit
    && (s.queue != [] ==> Attended(s))
  }

  /** What was taken from the queue is held by a worker or recorded. */
  ghost predicate Accounted(taken: seq<nat>, loops: seq<Worker>, recorded: seq<nat>) {
    forall op :: Times(taken, op) == InBatches(loops, op) + Times(recorded, op)
  }

  ghost predicate Housed(s: State) {
    s.taken + s.queue == UpTo(|s.callers|) && Accounted(s.taken, s.loops, s.recorded)
  }

  ghost predicate Inv(cfg: Config, s: State) {
    Staffed(cfg, s) && Housed(s)
  }

  lemma {:induction false} BatchesUpdate(loops: seq<Worker>, w: nat, x: Worker, op: nat)
    requires w < |loops|
    ensures InBatches(loops[w := x], op) + Times(Held(loops[w]), op) == InBatches(loops, op) + Times(Held(x), op)
  {
    var n := |loops| - 1;
    if w == n {
      assert loops[w := x][..n] == loops[..n];
    } else {
      assert loops[w := x][..n] == loops[..n][w := x];
      BatchesUpdate(loops[..n], w, x, op);
    }
  }

  lemma TimesJoin(s: seq<nat>, t: seq<nat>, op: nat)
    ensures Times(s + t, op) == Times(s, op) + Times(t, op)
  {
    assert multiset(s + t) == multiset(s) + multiset(t);
  }

  lemma {:induction false} CountMore<T>(s: seq<T>, x: T, p: T -> bool)
    ensures Count(s + [x], p) == Count(s, p) + Bit(p(x))
  {
    assert (s + [x])[..|s|] == s && (s + [x])[..|s| + 1] == s + [x];
    CountTake(s + [x], |s|, p);
  }

  lemma ProduceKeeps(cfg: Config, s: State)
    requires cfg.Valid() && Inv(cfg, s)
    ensures Inv(cfg, Next(cfg, s, Produce))
  {
    var t := Next(cfg, s, Produce);
    CountMore(s.callers, Enqueued, IsSpawning);
    assert Owes(t.callers[|s.callers|]);
    assert t.taken + t.queue == s.taken + s.queue + [|s.callers|];
  }

  /** A caller that is not told to start a worker leaves one running. */
  lemma AskKeeps(cfg: Config, s: State, c: nat)
    requires cfg.Valid() && Inv(cfg, s) && c < |s.callers| && s.callers[c] == Enqueued
    ensures Inv(cfg, Next(cfg, s, Ask(c)))
  {
    var t := Next(cfg, s, Ask(c));
    CountUpdate(s.callers, c, t.callers[c], IsSpawning);
    if t.workers == s.workers {
      CountNone(s.callers, IsSpawning);
      CountNone(s.loops, IsAlive);
      if x :| 0 <= x < |s.callers| && IsSpawning(s.callers[x]) {
        assert Owes(t.callers[x]);
      }
    } else {
      assert Owes(t.callers[c]);
    }
  }

  lemma SpawnKeeps(cfg: Config, s: State, c: nat)
    requires cfg.Valid() && Inv(cfg, s) && c < |s.callers| && s.callers[c] == Spawning
    ensures Inv(cfg, Next(cfg, s, Spawn(c)))
  {
    var t := Next(cfg, s, Spawn(c));
    CountUpdate(s.callers, c, Waiting, IsSpawning);
    CountMore(s.loops, Looping, IsAlive);
    assert IsAlive(t.loops[|s.loops|]);
    assert t.loops[..|s.loops|] == s.loops;
  }

  /** A looping worker that takes a batch, or exits with none, holds what was taken. */
  lemma TakenIsHeld(taken: seq<nat>, batch: seq<nat>, loops: seq<Worker>, w: nat, x: Worker, recorded: seq<nat>)
    requires Accounted(taken, loops, recorded) && w < |loops| && loops[w] == Looping && Held(x) == batch
    ensures Accounted(taken + batch, loops[w := x], recorded)
  {
    forall op ensures Times(taken + batch, op) == InBatches(loops[w := x], op) + Times(recorded, op) {
      BatchesUpdate(loops, w, x, op);
      TimesJoin(taken, batch, op);
      assert Times([], op) == 0;
    }
  }

  lemma MovedInOrder(taken: seq<nat>, queue: seq<nat>, count: nat)
    requires count <= |queue|
    ensures taken + queue[..count] + queue[count..] == taken + queue
  {
  }

  lemma DequeueHouses(s: State, w: nat, count: nat)
    requires Housed(s) && w < |s.loops| && s.loops[w] == Looping && count <= |s.queue|
    ensures var x := if s.queue == [] then Exited else Resolving(s.queue[..count]);
            Housed(s.(queue := s.queue[count..], taken := s.taken + s.queue[..count], loops := s.loops[w := x]))
  {
    var x := if s.queue == [] then Exited else Resolving(s.queue[..count]);
    TakenIsHeld(s.taken, s.queue[..count], s.loops, w, x, s.recorded);
    MovedInOrder(s.taken, s.queue, count);
  }

  lemma DequeueKeeps(cfg: Config, s: State, w: nat)
    requires cfg.Valid() && Inv(cfg, s) && w < |s.loops| && s.loops[w] == Looping
    ensures Inv(cfg, Next(cfg, s, Dequeue(w)))
  {
    var t := Next(cfg, s, Dequeue(w));
    CountUpdate(s.loops, w, t.loops[w], IsAlive);
    DequeueHouses(s, w, Min(|s.queue|, cfg.maxSize));
    if s.queue == [] {
      assert s.taken + s.queue[..0] == s.taken;
    } else {
      assert IsAlive(t.loops[w]);
    }
  }

  lemma RecordHouses(s: State, w: nat)
    requires Housed(s) && w < |s.loops| && s.loops[w].Resolving?
    ensures Housed(s.(loops := s.loops[w := Looping], recorded := s.recorded + s.loops[w].batch))
  {
    forall op
      ensures Times(s.taken, op) == InBatches(s.loops[w := Looping], op) + Times(s.recorded + s.loops[w].batch, op)
    {
      BatchesUpdate(s.loops, w, Looping, op);
      TimesJoin(s.recorded, s.loops[w].batch, op);
      assert Times([], op) == 0;
    }
  }

  lemma RecordKeeps(cfg: Config, s: State, w: nat)
    requires cfg.Valid() && Inv(cfg, s) && w < |s.loops| && s.loops[w].Resolving?
    ensures Inv(cfg, Next(cfg, s, Record(w)))
  {
    CountUpdate(s.loops, w, Looping, IsAlive);
    RecordHouses(s, w);
    assert IsAlive(Next(cfg, s, Record(w)).loops[w]);
  }

  lemma NextKeepsInv(cfg: Config, s: State, a: Action)
    requires cfg.Valid() && Inv(cfg, s)
    ensures Inv(cfg, Next(cfg, s, a))
  {
    if Next(cfg, s, a) != s {
      match a
      case Produce => ProduceKeeps(cfg, s);
      case Ask(c) => AskKeeps(cfg, s, c);
      case Spawn(c) => SpawnKeeps(cfg, s, c);
      case Dequeue(w) => DequeueKeeps(cfg, s, w);
      case Record(w) => RecordKeeps(cfg, s, w);
    }
  }

  const START := State([], 0, [], [], [], [])

  function Run(cfg: Config, s: State, actions: seq<Action>): State
    decreases |actions|
  {
    if actions == [] then s else Run(cfg, Next(cfg, s, actions[0]), actions[1..])
  }

  lemma {:induction false} RunKeepsInv(cfg: Config, s: State, actions: seq<Action>)
    requires cfg.Valid() && Inv(cfg, s)
    ensures Inv(cfg, Run(cfg, s, actions))
    decreases |actions|
  {
    if actions != [] {
      NextKeepsInv(cfg, s, actions[0]);
      RunKeepsInv(cfg, Next(cfg, s, actions[0]), actions[1..]);
    }
  }

  // ---- What every interleaving keeps ----

  /** Work is never stranded: a non-empty queue has a live worker, or a caller that will still ask for one. */
  lemma NeverStranded(cfg: Config, actions: seq<Action>)
    requires cfg.Valid()
    ensures var s := Run(cfg, START, actions); s.queue != [] ==> Attended(s)
  {
    RunKeepsInv(cfg, START, actions);
  }

  /** The worker count is the number of spawned worker loops that have not exited, counting a worker from the
      moment its caller was told to start it; it never exceeds the limit. */
  lemma WorkersAreCounted(cfg: Config, actions: seq<Action>)
    requires cfg.Valid()
    ensures var s := Run(cfg, START, actions);
            s.workers == Count(s.callers, IsSpawning) + Count(s.loops, IsAlive) && s.workers <= cfg.workerLimit
  {
    RunKeepsInv(cfg, START, actions);
  }

  /** Operations leave the queue in the order they entered it, and each is in exactly one place: the queue, one
      worker's batch, or recorded. */
  lemma OneHomeEach(cfg: Config, actions: seq<Action>, op: nat)
    requires cfg.Valid()
    ensures var s := Run(cfg, START, actions);
            && s.taken + s.queue == UpTo(|s.callers|)
            && Times(s.queue, op) + InBatches(s.loops, op) + Times(s.recorded, op) == Bit(op < |s.callers|)
  {
    var s := Run(cfg, START, actions);
    RunKeepsInv(cfg, START, actions);
    OnceUpTo(|s.callers|, op);
    TimesJoin(s.taken, s.queue, op);
  }

  lemma {:induction false} OnceUpTo(n: nat, op: nat)
    ensures Times(UpTo(n), op) == Bit(op < n)
  {
    if n > 0 {
      OnceUpTo(n - 1, op);
      assert UpTo(n) == UpTo(n - 1) + [n - 1];
      TimesJoin(UpTo(n - 1), [n - 1], op);
    }
  }

  /** Once every caller has asked and every worker has exited, everything enqueued is recorded, once. */
  lemma QuietMeansRecorded(cfg: Config, actions: seq<Action>, op: nat)
    requires cfg.Valid()
    ensures var s := Run(cfg, START, actions);
            !Attended(s) ==> s.queue == [] && s.workers == 0 && Times(s.recorded, op) == Bit(op < |s.callers|)
  {
    var s := Run(cfg, START, actions);
    RunKeepsInv(cfg, START, actions);
    if !Attended(s) {
      CountNone(s.callers, IsSpawning);
      CountNone(s.loops, IsAlive);
      NothingHeld(s.loops, op);
      OneHomeEach(cfg, actions, op);
    }
  }

  lemma {:induction false} NothingHeld(loops: seq<Worker>, op: nat)
    requires forall w :: 0 <= w < |loops| ==> !IsAlive(loops[w])
    ensures InBatches(loops, op) == 0
  {
    if loops != [] {
      NothingHeld(loops[..|loops| - 1], op);
    }
  }
}
