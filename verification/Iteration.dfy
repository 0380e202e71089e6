/** A step taken over and over. */
module Iteration {
  function Iterate<T>(step: T -> T, start: T, n: nat): T {
    if n == 0 then start else step(Iterate(step, start, n - 1))
  }

  /** A step that leads from each of a row of states to the next leads along the row. */
  lemma {:induction false} IterateFollows<T>(step: T -> T, row: nat -> T, n: nat)
    requires forall k: nat {:trigger step(row(k))} :: k < n ==> step(row(k)) == row(k + 1)
    ensures Iterate(step, row(0), n) == row(n)
  {
    if n > 0 {
      IterateFollows(step, row, n - 1);
      assert step(row(n - 1)) == row(n - 1 + 1);
    }
  }
}
