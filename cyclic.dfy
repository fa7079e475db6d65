/** Wrap-around index arithmetic: the `(i + 1) % n` and `(i - 1 + n) % n`
    steps that every carousel and media list of the site uses. */
module Cyclic {

  /** The index after `i` in a list of length `n`, wrapping to 0. */
  function Next(i: nat, n: nat): (r: nat)
    requires n > 0
    ensures r < n
    ensures i < n - 1 ==> r == i + 1
    ensures i == n - 1 ==> r == 0
  {
    (i + 1) % n
  }

  /** The index before `i` in a list of length `n`, wrapping to `n - 1`.
      JavaScript's `%` truncates, but `i - 1 + n` is never negative here,
      so Dafny's `%` gives the same value. */
  function Prev(i: nat, n: nat): (r: nat)
    requires n > 0
    ensures r < n
    ensures 0 < i < n ==> r == i - 1
    ensures i == 0 ==> r == n - 1
  {
    (i + n - 1) % n
  }

  /** The index of a list that is empty is 0; otherwise it is in range. */
  predicate InRange(i: nat, n: nat) {
    if n == 0 then i == 0 else i < n
  }

  /** Going back undoes going forward. */
  lemma PrevUndoesNext(i: nat, n: nat)
    requires i < n
    ensures Prev(Next(i, n), n) == i
  {
  }

  /** Going forward undoes going back. */
  lemma NextUndoesPrev(i: nat, n: nat)
    requires i < n
    ensures Next(Prev(i, n), n) == i
  {
  }

  /** `k` steps forward from `i`. */
  function Forward(i: nat, n: nat, k: nat): (r: nat)
    requires n > 0
    ensures i < n ==> r < n
  {
    if k == 0 then i else Next(Forward(i, n, k - 1), n)
  }

  /** Before reaching the end, `k` steps forward add `k`. */
  lemma {:induction false} ForwardBeforeWrap(i: nat, n: nat, k: nat)
    requires i + k < n
    ensures Forward(i, n, k) == i + k
  {
    if k > 0 {
      ForwardBeforeWrap(i, n, k - 1);
    }
  }

  /** Once past the last index, the walk starts again from 0. */
  lemma {:induction false} ForwardAfterWrap(i: nat, n: nat, m: nat)
    requires i < n && m <= i
    ensures Forward(i, n, n - i + m) == m
  {
    if m == 0 {
      ForwardBeforeWrap(i, n, n - i - 1);
    } else {
      ForwardAfterWrap(i, n, m - 1);
    }
  }

  /** `n` steps forward through a list of length `n` return to the start. */
  lemma FullCycle(i: nat, n: nat)
    requires i < n
    ensures Forward(i, n, n) == i
  {
    ForwardAfterWrap(i, n, i);
  }
}
