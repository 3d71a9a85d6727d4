/**
 * The cyclic cursor shared by the title, pause and character-select
 * screens: moving back from the first option lands on the last one and
 * moving on from the last lands on the first.
 */
module MenuCursor {

  /**
   * `(i - 1) % n`. Python's `%` floors; for a positive `n` it agrees with
   * Dafny's Euclidean `%`, so the result is never negative.
   */
  function Prev(i: int, n: int): (j: int)
    requires n > 0
    ensures 0 <= j < n
    ensures 0 <= i < n ==> j == (if i == 0 then n - 1 else i - 1)
  {
    (i - 1) % n
  }

  /** `(i + 1) % n`. */
  function Next(i: int, n: int): (j: int)
    requires n > 0
    ensures 0 <= j < n
    ensures 0 <= i < n ==> j == (if i == n - 1 then 0 else i + 1)
  {
    (i + 1) % n
  }

  /** The cursor after `k` moves forward. */
  function NextTimes(i: int, n: int, k: nat): int
    requires n > 0
  {
    if k == 0 then i else Next(NextTimes(i, n, k - 1), n)
  }

  /** A move back is undone by a move forward, and the other way round. */
  lemma PrevNextInverse(i: int, n: int)
    requires n > 0 && 0 <= i < n
    ensures Next(Prev(i, n), n) == i
    ensures Prev(Next(i, n), n) == i
  {
  }

  /** Moving forward `k` times from `i` counts up, as long as no wrap happens. */
  lemma {:induction false} NextTimesCountsUp(i: int, n: int, k: nat)
    requires n > 0 && 0 <= i && i + k < n
    ensures NextTimes(i, n, k) == i + k
  {
    if k > 0 {
      NextTimesCountsUp(i, n, k - 1);
    }
  }

  /** `a` moves followed by `b` moves are `a + b` moves. */
  lemma {:induction false} NextTimesCompose(i: int, n: int, a: nat, b: nat)
    requires n > 0
    ensures NextTimes(NextTimes(i, n, a), n, b) == NextTimes(i, n, a + b)
  {
    if b > 0 {
      NextTimesCompose(i, n, a, b - 1);
    }
  }

  /** Going forward once per option brings the cursor back where it was. */
  lemma {:induction false} FullCycleIsIdentity(i: int, n: int)
    requires n > 0 && 0 <= i < n
    ensures NextTimes(i, n, n) == i
  {
    NextTimesCountsUp(i, n, n - 1 - i);
    assert NextTimes(i, n, n - i) == 0;
    NextTimesCompose(i, n, n - i, i);
    if i > 0 {
      NextTimesCountsUp(0, n, i);
    }
  }
}
