/** The rotation of the active word when the spelling menu is opened again
    on the same line: `(index + 1) % count`. */
module Cycling {

  /** The index after `i` in a list of `n` words, wrapping to the front. */
  function NextIndex(i: nat, n: nat): (j: nat)
    requires i < n
    ensures j < n
    ensures j == if i + 1 == n then 0 else i + 1
  {
    (i + 1) % n
  }

  /** The active index after `m` further openings, starting from `k`. */
  function Cycle(k: nat, n: nat, m: nat): (j: nat)
    requires k < n
    ensures j < n
  {
    if m == 0 then k else NextIndex(Cycle(k, n, m - 1), n)
  }

  /** Within one round the index runs from `k` up to the end and then on
      from the front; after a full round it is back at `k`. */
  lemma {:induction false} CycleClosedForm(k: nat, n: nat, m: nat)
    requires k < n && m <= n
    ensures m < n ==> Cycle(k, n, m) == if k + m < n then k + m else k + m - n
    ensures m == n ==> Cycle(k, n, m) == k
  {
    if m > 0 {
      CycleClosedForm(k, n, m - 1);
    }
  }

  /** How many openings take the index from `k` to `j`. */
  function StepsTo(k: nat, n: nat, j: nat): nat
    requires k < n && j < n
  {
    if k <= j then j - k else j + n - k
  }

  /** `n` successive openings on a line with `n` misspelled words visit
      every word exactly once, and the next one returns to the first. */
  lemma CycleVisitsAll(k: nat, n: nat)
    requires k < n
    ensures forall a, b :: 0 <= a < b < n ==> Cycle(k, n, a) != Cycle(k, n, b)
    ensures forall j :: 0 <= j < n ==> StepsTo(k, n, j) < n && Cycle(k, n, StepsTo(k, n, j)) == j
    ensures Cycle(k, n, n) == k
  {
    forall m | 0 <= m <= n
      ensures m < n ==> Cycle(k, n, m) == if k + m < n then k + m else k + m - n
      ensures m == n ==> Cycle(k, n, m) == k
    {
      CycleClosedForm(k, n, m);
    }
  }
}
