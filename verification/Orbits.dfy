/** Repeatedly following a partial successor function. */
module Orbits {
  import opened Wrappers

  function Iterate<T>(next: T -> Option<T>, x: T, n: nat): Option<T> {
    if n == 0 then Some(x)
    else match next(x)
      case None => None
      case Some(y) => Iterate(next, y, n - 1)
  }

  lemma {:induction false} IterateAdd<T>(next: T -> Option<T>, x: T, m: nat, n: nat)
    requires Iterate(next, x, m).Some?
    ensures Iterate(next, x, m + n) == Iterate(next, Iterate(next, x, m).value, n)
    decreases m
  {
    if m > 0 {
      IterateAdd(next, next(x).value, m - 1, n);
    }
  }

  lemma {:induction false} IterateStays<T>(next: T -> Option<T>, x: T, m: nat, n: nat)
    requires m <= n && Iterate(next, x, n).Some?
    ensures Iterate(next, x, m).Some?
    decreases m
  {
    if m > 0 {
      IterateStays(next, next(x).value, m - 1, n - 1);
    }
  }

  /** A walk that comes back to an earlier point never ends. */
  lemma {:induction false} RevisitNeverEnds<T>(next: T -> Option<T>, x: T, i: nat, j: nat, n: nat)
    requires i < j && Iterate(next, x, i).Some? && Iterate(next, x, j) == Iterate(next, x, i)
    ensures Iterate(next, x, n).Some?
    decreases n
  {
    if n <= j {
      IterateStays(next, x, n, j);
    } else {
      RevisitNeverEnds(next, x, i, j, n - (j - i));
      IterateAdd(next, x, i, n - j);
      IterateAdd(next, x, j, n - j);
    }
  }

  /** A walk that ends ends after one definite number of steps, at one definite place. */
  lemma EndIsUnique<T>(next: T -> Option<T>, x: T, m: nat, n: nat)
    requires Iterate(next, x, m).Some? && Iterate(next, x, m + 1).None?
    requires Iterate(next, x, n).Some? && Iterate(next, x, n + 1).None?
    ensures m == n
  {
    if m < n {
      IterateStays(next, x, m + 1, n);
    } else if n < m {
      IterateStays(next, x, n + 1, m);
    }
  }
}
