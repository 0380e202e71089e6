/** Batch transactions taking compaction-head locks in batch order, any number of them at once. */
module LockOrder {
  import opened BatchResolver
  import opened Batches
  import opened ByteStrings

  /** A transaction works through the sort keys of its batch; it keeps every lock it takes until it ends. */
  datatype Txn = Txn(keys: seq<Bytes>, taken: nat, ended: bool) {
    /** It has locked this key's head; "" locks nothing. */
    predicate Has(key: Bytes) {
      !ended && key != [] && exists i :: 0 <= i < taken && i < |keys| && keys[i] == key
    }

    /** The lock its next statement asks for, if it does not have it yet. */
    predicate Wants(key: Bytes) {
      !ended && taken < |keys| && keys[taken] == key && key != [] && !Has(key)
    }
  }

  datatype Move = Begin(batch: seq<Bytes>) | Advance(t: nat) | End(t: nat)

  predicate InOrder(keys: seq<Bytes>) {
    forall i, j :: 0 <= i < j < |keys| ==> AtMost(keys[i], keys[j])
  }

  /** Some other transaction has the lock t asks for. */
  predicate Waits(txns: seq<Txn>, t: nat, u: nat) {
    t < |txns| && u < |txns| && t != u && txns[t].taken < |txns[t].keys|
    && txns[t].Wants(txns[t].keys[txns[t].taken]) && txns[u].Has(txns[t].keys[txns[t].taken])
  }

  predicate Blocked(txns: seq<Txn>, t: nat) {
    exists u :: 0 <= u < |txns| && Waits(txns, t, u)
  }

  /** A transaction starts with the keys of a sorted batch, runs its next statement unless that lock is held
      elsewhere, and may end at any time: committed after its last statement, or rolled back before. */
  function Next(txns: seq<Txn>, m: Move): seq<Txn> {
    match m
    case Begin(keys) => if InOrder(keys) then txns + [Txn(keys, 0, false)] else txns
    case Advance(t) =>
      if t < |txns| && !txns[t].ended && txns[t].taken < |txns[t].keys| && !Blocked(txns, t) then
        txns[t := txns[t].(taken := txns[t].taken + 1)]
      else txns
    case End(t) => if t < |txns| then txns[t := txns[t].(ended := true)] else txns
  }

  function Run(txns: seq<Txn>, moves: seq<Move>): seq<Txn>
    decreases |moves|
  {
    if moves == [] then txns else Run(Next(txns, moves[0]), moves[1..])
  }

  /** Every transaction works through sorted keys, and no lock has two holders. */
  ghost predicate Inv(txns: seq<Txn>) {
    && (forall t :: 0 <= t < |txns| ==> InOrder(txns[t].keys) && txns[t].taken <= |txns[t].keys|)
    && (forall t, u, key :: 0 <= t < u < |txns| && txns[t].Has(key) ==> !txns[u].Has(key))
  }

  lemma AdvanceHas(x: Txn, key: Bytes)
    requires x.taken < |x.keys|
    ensures x.(taken := x.taken + 1).Has(key) ==> x.Has(key) || (!x.ended && x.keys[x.taken] == key && key != [])
  {
  }

  lemma NextKeepsInv(txns: seq<Txn>, m: Move)
    requires Inv(txns)
    ensures Inv(Next(txns, m))
  {
    var after := Next(txns, m);
    match m
    case Begin(keys) =>
    case End(t) =>
    case Advance(a) =>
      if after != txns {
        var asked := txns[a].keys[txns[a].taken];
        forall t, u, key | 0 <= t < u < |txns| && after[t].Has(key) ensures !after[u].Has(key) {
          AdvanceHas(txns[a], key);
          if t == a && !txns[t].Has(key) {
            assert !Waits(txns, a, u);
          }
          if u == a && !txns[u].Has(key) {
            assert !Waits(txns, a, t);
          }
        }
      }
  }

  lemma {:induction false} RunKeepsInv(txns: seq<Txn>, moves: seq<Move>)
    requires Inv(txns)
    ensures Inv(Run(txns, moves))
    decreases |moves|
  {
    if moves != [] {
      NextKeepsInv(txns, moves[0]);
      RunKeepsInv(Next(txns, moves[0]), moves[1..]);
    }
  }

  function Asked(x: Txn): Bytes
    requires x.taken < |x.keys|
  {
    x.keys[x.taken]
  }

  /** A waiting transaction that holds what another asks for asks for a greater key itself. */
  lemma WaitsClimb(txns: seq<Txn>, t: nat, u: nat, v: nat)
    requires Inv(txns) && Waits(txns, t, u) && Waits(txns, u, v)
    ensures Less(Asked(txns[t]), Asked(txns[u]))
  {
    var key := Asked(txns[t]);
    var i :| 0 <= i < txns[u].taken && i < |txns[u].keys| && txns[u].keys[i] == key;
  }

  /** Each transaction of the chain waits for the next. */
  ghost predicate WaitChain(txns: seq<Txn>, chain: seq<nat>) {
    forall i, j :: 0 <= i < j < |chain| && j == i + 1 ==> Waits(txns, chain[i], chain[j])
  }

  /** Along any chain of waiting transactions the keys asked for climb. */
  lemma {:induction false} ChainClimbs(txns: seq<Txn>, chain: seq<nat>)
    requires Inv(txns) && |chain| >= 3 && WaitChain(txns, chain)
    ensures Waits(txns, chain[0], chain[1]) && Waits(txns, chain[|chain| - 2], chain[|chain| - 1])
    ensures Less(Asked(txns[chain[0]]), Asked(txns[chain[|chain| - 2]]))
    decreases |chain|
  {
    WaitsClimb(txns, chain[0], chain[1], chain[2]);
    if |chain| > 3 {
      ChainClimbs(txns, chain[1..]);
      var a, b, c := Asked(txns[chain[0]]), Asked(txns[chain[1]]), Asked(txns[chain[|chain| - 2]]);
      Transitive(a, b, c);
      if a == c {
        Antisymmetric(a, b);
      }
    }
  }

  /** No run of any number of batch transactions reaches a wait-for cycle. */
  lemma NoWaitCycle(moves: seq<Move>, chain: seq<nat>)
    requires |chain| >= 2 && WaitChain(Run([], moves), chain)
    ensures chain[0] != chain[|chain| - 1]
  {
    var txns := Run([], moves);
    RunKeepsInv([], moves);
    if |chain| > 2 {
      var around := chain + [chain[1]];
      if chain[0] == chain[|chain| - 1] {
        ChainClimbs(txns, around);
      }
    } else {
      assert Waits(txns, chain[0], chain[1]);
    }
  }

  // ---- Somebody always moves ----

  predicate Live(txns: seq<Txn>, t: nat) {
    t < |txns| && !txns[t].ended
  }

  /** The live transaction among the first n that asks for the greatest key; one that asks for none wins. */
  function Greatest(txns: seq<Txn>, n: nat): (best: nat)
    requires n <= |txns| && exists t :: 0 <= t < n && Live(txns, t)
    ensures best < n && Live(txns, best)
    ensures txns[best].taken < |txns[best].keys| ==>
              forall t :: 0 <= t < n && Live(txns, t) ==>
                txns[t].taken < |txns[t].keys| && AtMost(Asked(txns[t]), Asked(txns[best]))
  {
    var last := n - 1;
    if !(exists t :: 0 <= t < last && Live(txns, t)) then
      var key := if txns[last].taken < |txns[last].keys| then Asked(txns[last]) else [];
      Reflexive(key);
      last
    else
      var best := Greatest(txns, last);
      if !Live(txns, last) || txns[best].taken >= |txns[best].keys| then best
      else if txns[last].taken >= |txns[last].keys| then last
      else if AtMost(Asked(txns[last]), Asked(txns[best])) then best
      else
        Total(Asked(txns[last]), Asked(txns[best]));
        Reflexive(Asked(txns[last]));
        assert forall t :: 0 <= t < last && Live(txns, t) ==> AtMost(Asked(txns[t]), Asked(txns[last])) by {
          forall t | 0 <= t < last && Live(txns, t) ensures AtMost(Asked(txns[t]), Asked(txns[last])) {
            Transitive(Asked(txns[t]), Asked(txns[best]), Asked(txns[last]));
          }
        }
        last
  }

  /** While any transaction is unfinished, some unfinished one is not waiting: the system never locks up. */
  lemma SomeoneMoves(moves: seq<Move>)
    ensures var txns := Run([], moves);
            (exists t :: 0 <= t < |txns| && Live(txns, t)) ==>
              exists t :: 0 <= t < |txns| && Live(txns, t) && !Blocked(txns, t)
  {
    var txns := Run([], moves);
    RunKeepsInv([], moves);
    if exists t :: 0 <= t < |txns| && Live(txns, t) {
      var best := Greatest(txns, |txns|);
      if Blocked(txns, best) {
        var u :| 0 <= u < |txns| && Waits(txns, best, u);
        assert Live(txns, u);
        HolderAsksHigher(txns, best, u);
        Antisymmetric(Asked(txns[u]), Asked(txns[best]));
        assert !Blocked(txns, u);
      }
    }
  }

  /** What a lock's holder asks for next is no smaller than that lock; it is equal only to what it has. */
  lemma HolderAsksHigher(txns: seq<Txn>, t: nat, u: nat)
    requires Inv(txns) && Waits(txns, t, u) && txns[u].taken < |txns[u].keys|
    ensures AtMost(Asked(txns[t]), Asked(txns[u]))
  {
    var i :| 0 <= i < txns[u].taken && i < |txns[u].keys| && txns[u].keys[i] == Asked(txns[t]);
  }

  // ---- The transactions a batcher starts ----

  function Locks(ops: seq<Operation>): (keys: seq<Bytes>)
    ensures |keys| == |ops| && forall i :: 0 <= i < |ops| ==> keys[i] == SortKey(ops[i])
  {
    seq(|ops|, i requires 0 <= i < |ops| => SortKey(ops[i]))
  }

  /** Every attempt of a resolved batch, reruns and singles included, starts with its locks in order. */
  lemma AttemptsLockInOrder(
    db: Database, before: seq<Attempt>, log: seq<Attempt>, dequeued: seq<Operation>, k: nat)
    requires Resolution(db, before, log, Sorted(dequeued)) && |before| <= k < |log|
    ensures InOrder(Locks(log[k].ops))
  {
    AttemptsKeepOrder(db, before, log, dequeued, k, []);
  }
}
