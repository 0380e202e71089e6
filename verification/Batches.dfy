/** Produce operations in flight and the sorted batches they are resolved in. */
module Batches {
  import opened ByteStrings
  import opened Sequences
  import opened Wrappers

  /** What an attempt's error tells: whether an unchanged retry could succeed, whether a deadline passed,
      whether the server rejected a statement. */
  datatype Failure = Failure(transient: bool, deadline: bool, fromServer: bool, text: string)

  /** One produce. `refused` is the verdict of validating its options, which every attempt repeats. */
  datatype Request = Request(id: nat, messageKey: Bytes, compacts: bool, refused: Option<Failure>)

  /** What an append reports about one message. */
  datatype Appended = Appended(id: int, duplicate: bool)

  class Operation {
    const request: Request
    var done: bool
    var err: Option<Failure>
    var appended: Option<Appended>

    constructor (request: Request)
      ensures this.request == request && !done && err == None && appended == None
    {
      this.request := request;
      done, err, appended := false, None, None;
    }

    method RecordAppended(value: Appended)
      modifies this`appended
      ensures appended == Some(value)
    {
      appended := Some(value);
    }

    /** Closes the operation; a second record panics, so it must not happen. */
    method Record(err: Option<Failure>)
      requires !done
      modifies this`done, this`err
      ensures done && this.err == err
    {
      this.err := err;
      done := true;
    }
  }

  /** The message key of a compacted produce, "" for one that locks no compaction head. */
  function SortKey(op: Operation): Bytes {
    if op.request.compacts then op.request.messageKey else []
  }

  ghost predicate IsSorted(s: seq<Operation>) {
    forall i, j :: 0 <= i < j < |s| ==> AtMost(SortKey(s[i]), SortKey(s[j]))
  }

  /** Inserts an operation into a sorted batch, behind those of equal key. */
  function Insert(s: seq<Operation>, x: Operation): seq<Operation> {
    if s == [] || AtMost(SortKey(Last(s)), SortKey(x)) then s + [x] else Insert(Front(s), x) + [Last(s)]
  }

  /** The batch order of the given operations. */
  function Sorted(s: seq<Operation>): seq<Operation> {
    if s == [] then [] else Insert(Sorted(Front(s)), Last(s))
  }

  /** The operations of one key, in order. */
  function WithKey(s: seq<Operation>, key: Bytes): seq<Operation> {
    if s == [] then [] else WithKey(Front(s), key) + Only(Last(s), key)
  }

  function Only(x: Operation, key: Bytes): seq<Operation> {
    if SortKey(x) == key then [x] else []
  }

  ghost predicate SameByKey(s: seq<Operation>, t: seq<Operation>) {
    forall key :: WithKey(s, key) == WithKey(t, key)
  }

  // ---- The batch order is the one stable sort by key ----

  ghost predicate NoneAbove(s: seq<Operation>, key: Bytes) {
    forall i :: 0 <= i < |s| ==> AtMost(SortKey(s[i]), key)
  }

  lemma {:induction false} InsertBelow(s: seq<Operation>, x: Operation, key: Bytes)
    requires NoneAbove(s, key) && AtMost(SortKey(x), key)
    ensures NoneAbove(Insert(s, x), key)
  {
    if s != [] && !AtMost(SortKey(Last(s)), SortKey(x)) {
      InsertBelow(Front(s), x, key);
    }
  }

  lemma {:induction false} InsertSorts(s: seq<Operation>, x: Operation)
    requires IsSorted(s)
    ensures IsSorted(Insert(s, x))
  {
    if s != [] {
      var a, b := SortKey(Last(s)), SortKey(x);
      if AtMost(a, b) {
        forall i | 0 <= i < |s| ensures AtMost(SortKey(s[i]), b) {
          if i < |s| - 1 {
            Transitive(SortKey(s[i]), a, b);
          }
        }
      } else {
        Total(a, b);
        InsertSorts(Front(s), x);
        InsertBelow(Front(s), x, a);
      }
    }
  }

  lemma WithKeyAppend(s: seq<Operation>, x: Operation, key: Bytes)
    ensures WithKey(s + [x], key) == WithKey(s, key) + Only(x, key)
  {
    assert Front(s + [x]) == s;
  }

  lemma {:induction false} InsertKeeps(s: seq<Operation>, x: Operation, key: Bytes)
    ensures WithKey(Insert(s, x), key) == WithKey(s, key) + Only(x, key)
  {
    if s == [] || AtMost(SortKey(Last(s)), SortKey(x)) {
      WithKeyAppend(s, x, key);
    } else {
      Reflexive(SortKey(x));
      InsertKeeps(Front(s), x, key);
      WithKeyAppend(Insert(Front(s), x), Last(s), key);
      Commute(WithKey(Front(s), key), x, Last(s), key);
    }
  }

  /** Operations of different keys are never both listed. */
  lemma Commute(s: seq<Operation>, x: Operation, y: Operation, key: Bytes)
    requires SortKey(x) != SortKey(y)
    ensures s + Only(x, key) + Only(y, key) == s + Only(y, key) + Only(x, key)
  {
  }

  lemma {:induction false} SortedIsSorted(s: seq<Operation>)
    ensures IsSorted(Sorted(s))
  {
    if s != [] {
      SortedIsSorted(Front(s));
      InsertSorts(Sorted(Front(s)), Last(s));
    }
  }

  /** Sorting moves no operation past another of its key and loses or adds none. */
  lemma {:induction false} SortIsStable(s: seq<Operation>)
    ensures SameByKey(Sorted(s), s)
  {
    if s != [] {
      SortIsStable(Front(s));
      forall key ensures WithKey(Sorted(s), key) == WithKey(s, key) {
        var front := Sorted(Front(s));
        InsertKeeps(front, Last(s), key);
        assert WithKey(front, key) == WithKey(Front(s), key);
      }
    }
  }

  lemma {:induction false} WithKeyHolds(s: seq<Operation>, key: Bytes)
    ensures forall x :: x in WithKey(s, key) <==> x in s && SortKey(x) == key
  {
    if s != [] {
      WithKeyHolds(Front(s), key);
      assert s == Front(s) + [Last(s)];
    }
  }

  /** In a sorted batch the last operation's key is the greatest. */
  lemma LastIsGreatest(s: seq<Operation>, x: Operation)
    requires IsSorted(s) && x in s
    ensures AtMost(SortKey(x), SortKey(Last(s)))
  {
    Reflexive(SortKey(x));
  }

  lemma LastsAgree(s: seq<Operation>, t: seq<Operation>)
    requires IsSorted(s) && IsSorted(t) && SameByKey(s, t) && s != []
    ensures t != [] && Last(t) == Last(s)
  {
    var a := SortKey(Last(s));
    WithKeyHolds(s, a);
    WithKeyHolds(t, a);
    assert Last(s) in WithKey(s, a) && WithKey(s, a) == WithKey(t, a);
    var b := SortKey(Last(t));
    WithKeyHolds(s, b);
    WithKeyHolds(t, b);
    assert Last(t) in WithKey(t, b) && WithKey(t, b) == WithKey(s, b);
    LastIsGreatest(s, Last(t));
    LastIsGreatest(t, Last(s));
    Antisymmetric(a, b);
    assert Last(WithKey(s, a)) == Last(s) && Last(WithKey(t, a)) == Last(t);
  }

  /** The stable sort by key is unique, so any stable sorting algorithm yields this order. */
  lemma {:induction false} SortIsUnique(s: seq<Operation>, t: seq<Operation>)
    requires IsSorted(s) && IsSorted(t) && SameByKey(s, t)
    ensures s == t
    decreases |s|
  {
    if s != [] {
      LastsAgree(s, t);
      forall key ensures WithKey(Front(s), key) == WithKey(Front(t), key) {
        assert WithKey(s, key) == WithKey(t, key);
        assert WithKey(Front(s), key) == if SortKey(Last(s)) == key then Front(WithKey(s, key)) else WithKey(s, key);
        assert WithKey(Front(t), key) == if SortKey(Last(t)) == key then Front(WithKey(t, key)) else WithKey(t, key);
      }
      SortIsUnique(Front(s), Front(t));
      assert s == Front(s) + [Last(s)] && t == Front(t) + [Last(t)];
    } else if t != [] {
      LastsAgree(t, s);
    }
  }

  /** A sorted batch is already in batch order. */
  lemma SortedStays(s: seq<Operation>)
    requires IsSorted(s)
    ensures Sorted(s) == s
  {
    SortedIsSorted(s);
    SortIsStable(s);
    SortIsUnique(Sorted(s), s);
  }

  // ---- Sub-batches ----

  /** The operations of s are some of those of t, in the same order. */
  ghost predicate IsSub(s: seq<Operation>, t: seq<Operation>) {
    s == [] || (t != [] && ((Last(s) == Last(t) && IsSub(Front(s), Front(t))) || IsSub(s, Front(t))))
  }

  lemma {:induction false} SubAll(s: seq<Operation>)
    ensures IsSub(s, s)
  {
    if s != [] {
      SubAll(Front(s));
    }
  }

  lemma {:induction false} SubTransitive(s: seq<Operation>, t: seq<Operation>, u: seq<Operation>)
    requires IsSub(s, t) && IsSub(t, u)
    ensures IsSub(s, u)
    decreases |u|
  {
    if s != [] {
      if IsSub(t, Front(u)) {
        SubTransitive(s, t, Front(u));
      } else if Last(s) == Last(t) && IsSub(Front(s), Front(t)) {
        SubTransitive(Front(s), Front(t), Front(u));
      } else {
        SubTransitive(s, Front(t), Front(u));
      }
    }
  }

  lemma {:induction false} SubMembers(s: seq<Operation>, t: seq<Operation>)
    requires IsSub(s, t)
    ensures forall i :: 0 <= i < |s| ==> s[i] in t
    decreases |t|
  {
    if s != [] {
      assert s == Front(s) + [Last(s)] && t == Front(t) + [Last(t)];
      if Last(s) == Last(t) && IsSub(Front(s), Front(t)) {
        SubMembers(Front(s), Front(t));
      } else {
        SubMembers(s, Front(t));
      }
    }
  }

  lemma SortedParts(s: seq<Operation>)
    requires s != []
    ensures IsSorted(s) <==> IsSorted(Front(s)) && NoneAbove(Front(s), SortKey(Last(s)))
  {
    if IsSorted(Front(s)) && NoneAbove(Front(s), SortKey(Last(s))) {
      forall i, j | 0 <= i < j < |s| ensures AtMost(SortKey(s[i]), SortKey(s[j])) {
        assert s[i] == Front(s)[i];
        assert j < |s| - 1 ==> s[j] == Front(s)[j];
      }
    }
  }

  lemma SubBelow(s: seq<Operation>, t: seq<Operation>, key: Bytes)
    requires IsSub(s, t) && NoneAbove(t, key)
    ensures NoneAbove(s, key)
  {
    SubMembers(s, t);
    forall i | 0 <= i < |s| ensures AtMost(SortKey(s[i]), key) {
      var j :| 0 <= j < |t| && t[j] == s[i];
    }
  }

  lemma {:induction false} SubSorted(s: seq<Operation>, t: seq<Operation>)
    requires IsSub(s, t) && IsSorted(t)
    ensures IsSorted(s)
    decreases |t|
  {
    if s != [] {
      SortedParts(t);
      if Last(s) == Last(t) && IsSub(Front(s), Front(t)) {
        SubSorted(Front(s), Front(t));
        SubBelow(Front(s), Front(t), SortKey(Last(t)));
        SortedParts(s);
      } else {
        SubSorted(s, Front(t));
      }
    }
  }

  /** A sub-batch keeps the order of the operations of each key. */
  lemma {:induction false} SubKeepsKeyOrder(s: seq<Operation>, t: seq<Operation>, key: Bytes)
    requires IsSub(s, t)
    ensures IsSub(WithKey(s, key), WithKey(t, key))
    decreases |t|
  {
    if s != [] {
      assert WithKey(Front(t), key) + [] == WithKey(Front(t), key);
      assert WithKey(Front(s), key) + [] == WithKey(Front(s), key);
      if Last(s) == Last(t) && IsSub(Front(s), Front(t)) {
        SubKeepsKeyOrder(Front(s), Front(t), key);
        SubAppend(WithKey(Front(s), key), WithKey(Front(t), key), Last(s));
      } else {
        SubKeepsKeyOrder(s, Front(t), key);
        SubExtend(WithKey(s, key), WithKey(Front(t), key), Last(t));
      }
    }
  }

  lemma SubAppend(s: seq<Operation>, t: seq<Operation>, x: Operation)
    requires IsSub(s, t)
    ensures IsSub(s + [x], t + [x])
  {
    assert Front(s + [x]) == s && Front(t + [x]) == t;
  }

  lemma SubExtend(s: seq<Operation>, t: seq<Operation>, x: Operation)
    requires IsSub(s, t)
    ensures IsSub(s, t + [x])
  {
    assert Front(t + [x]) == t;
  }

  lemma {:induction false} SubRemove(s: seq<Operation>, i: nat)
    requires i < |s|
    ensures IsSub(s[..i] + s[i + 1..], s)
  {
    if i == |s| - 1 {
      assert s[..i] + s[i + 1..] == Front(s);
      SubAll(Front(s));
      SubExtend(Front(s), Front(s), Last(s));
    } else {
      SubRemove(Front(s), i);
      assert Front(s)[..i] + Front(s)[i + 1..] == Front(s[..i] + s[i + 1..]);
    }
  }

  lemma {:induction false} SubSingle(s: seq<Operation>, i: nat)
    requires i < |s|
    ensures IsSub([s[i]], s)
  {
    if i < |s| - 1 {
      SubSingle(Front(s), i);
    }
  }

  // ---- Batches ----

  /** Moves operation i to its place among the sorted ones before it, past the greater ones. */
  method Place(operations: array<Operation>, i: nat)
    requires i < operations.Length
    modifies operations
    ensures operations[..] == Insert(old(operations[..])[..i], old(operations[..])[i]) + old(operations[..])[i + 1..]
  {
    ghost var input := operations[..];
    ghost var x, rest := input[i], input[i + 1..];
    ghost var front, passed := input[..i], [];
    var j := i;
    assert Insert(front, x) + passed == Insert(front, x);
    while j > 0 && !AtMost(SortKey(operations[j - 1]), SortKey(operations[j]))
      invariant 0 <= j == |front| && operations[..] == front + [x] + passed + rest
      invariant Insert(input[..i], x) == Insert(front, x) + passed
    {
      assert operations[j - 1] == Last(front) && operations[j] == x;
      OnePassed(front, x, passed, rest);
      Swap(operations, j);
      front, passed := Front(front), [Last(front)] + passed;
      j := j - 1;
    }
    assert j > 0 ==> operations[j - 1] == Last(front) && operations[j] == x;
    assert Insert(front, x) == front + [x];
  }

  method Swap(operations: array<Operation>, j: nat)
    requires 0 < j < operations.Length
    modifies operations
    ensures operations[..] == Swapped(old(operations[..]), j)
  {
    operations[j - 1], operations[j] := operations[j], operations[j - 1];
  }

  function Swapped(s: seq<Operation>, j: nat): seq<Operation>
    requires 0 < j < |s|
  {
    s[j - 1 := s[j]][j := s[j - 1]]
  }

  lemma OnePassed(front: seq<Operation>, x: Operation, passed: seq<Operation>, rest: seq<Operation>)
    requires front != [] && !AtMost(SortKey(Last(front)), SortKey(x))
    ensures Swapped(front + [x] + passed + rest, |front|) == Front(front) + [x] + ([Last(front)] + passed) + rest
    ensures Insert(front, x) + passed == Insert(Front(front), x) + ([Last(front)] + passed)
  {
  }

  /** Sorts the dequeued operations in place; the batch is what the slice then holds. */
  method NewBatch(operations: array<Operation>)
    modifies operations
    ensures operations[..] == Sorted(old(operations[..]))
  {
    ghost var input := operations[..];
    for i := 0 to operations.Length
      invariant operations[..] == Sorted(input[..i]) + input[i..]
    {
      SortedGrows(input, i, operations[..]);
      Place(operations, i);
    }
    assert input[..operations.Length] == input;
  }

  lemma SortedGrows(input: seq<Operation>, i: nat, s: seq<Operation>)
    requires i < |input| && s == Sorted(input[..i]) + input[i..]
    ensures |s| == |input| && Insert(s[..i], s[i]) + s[i + 1..] == Sorted(input[..i + 1]) + input[i + 1..]
  {
    SortedSize(input[..i]);
    assert Front(input[..i + 1]) == input[..i];
    assert s[..i] == Sorted(input[..i]) && s[i] == input[i] && s[i + 1..] == input[i + 1..];
  }

  lemma {:induction false} InsertSize(s: seq<Operation>, x: Operation)
    ensures |Insert(s, x)| == |s| + 1
  {
    if s != [] {
      InsertSize(Front(s), x);
    }
  }

  lemma {:induction false} SortedSize(s: seq<Operation>)
    ensures |Sorted(s)| == |s|
  {
    if s != [] {
      SortedSize(Front(s));
      InsertSize(Sorted(Front(s)), Last(s));
    }
  }

  /** The batch without operation i, in a slice of its own. */
  method Remove(operations: seq<Operation>, i: nat) returns (rest: seq<Operation>)
    requires i < |operations| && IsSorted(operations)
    ensures rest == operations[..i] + operations[i + 1..]
    ensures IsSorted(rest) && IsSub(rest, operations)
  {
    SubRemove(operations, i);
    SubSorted(operations[..i] + operations[i + 1..], operations);
    rest := Rebuild(operations[..i] + operations[i + 1..]);
  }

  /** A batch of operation i alone. */
  method Single(operations: seq<Operation>, i: nat) returns (alone: seq<Operation>)
    requires i < |operations|
    ensures alone == [operations[i]] && IsSorted(alone) && IsSub(alone, operations)
  {
    SubSingle(operations, i);
    alone := Rebuild([operations[i]]);
  }

  method Rebuild(operations: seq<Operation>) returns (batch: seq<Operation>)
    requires IsSorted(operations)
    ensures batch == operations
  {
    var slice := new Operation[|operations|](i requires 0 <= i < |operations| => operations[i]);
    assert slice[..] == operations;
    SortedStays(operations);
    NewBatch(slice);
    batch := slice[..];
  }
}
