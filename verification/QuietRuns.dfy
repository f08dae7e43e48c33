/** Runs that cannot go on: steps that lower a lexicographic measure, as the notification pipelines' do. */
module QuietRuns {
  /** State `j` and the next: the first measure goes down, or it stays and the second does, or both stay and
      the set of things left to do shrinks. */
  predicate Lowers<T(!new)>(first: nat -> nat, second: nat -> nat, left: nat -> set<T>, j: nat) {
    || first(j + 1) < first(j)
    || (first(j + 1) == first(j) && second(j + 1) < second(j))
    || (first(j + 1) == first(j) && second(j + 1) == second(j) && left(j + 1) < left(j))
  }

  /** If every step that `moves` keeps `good` and lowers the measure, some step does not move. */
  lemma {:induction false} StepsEnd<T(!new)>(moves: nat -> bool, good: nat -> bool, first: nat -> nat,
                                             second: nat -> nat, left: nat -> set<T>, i: nat)
    requires good(i) && forall j: nat :: good(j) && moves(j) ==> good(j + 1) && Lowers(first, second, left, j)
    ensures exists j :: i <= j && !moves(j)
    decreases first(i), second(i), left(i)
  {
    if moves(i) { StepsEnd(moves, good, first, second, left, i + 1); }
  }
}
