/** Any number of steps of a relation, and what carries over from one step to all of them. */
module Transitions {
  ghost predicate InSteps<T(!new)>(next: (T, T) -> bool, s: T, s': T, n: nat)
    decreases n
  {
    if n == 0 then s' == s
    else exists mid :: InSteps(next, s, mid, n - 1) && next(mid, s')
  }

  ghost predicate Reaches<T(!new)>(next: (T, T) -> bool, s: T, s': T) {
    exists n: nat :: InSteps(next, s, s', n)
  }

  lemma NoStep<T(!new)>(next: (T, T) -> bool, s: T)
    ensures Reaches(next, s, s)
  {
    assert InSteps(next, s, s, 0);
  }

  lemma OneStepMore<T(!new)>(next: (T, T) -> bool, s: T, mid: T, s': T)
    requires Reaches(next, s, mid) && next(mid, s')
    ensures Reaches(next, s, s')
  {
    var n: nat :| InSteps(next, s, mid, n);
    assert InSteps(next, s, s', n + 1);
  }

  lemma {:induction false} InStepsOn<T(!new)>(next: (T, T) -> bool, s: T, mid: T, s': T, n: nat)
    requires Reaches(next, s, mid) && InSteps(next, mid, s', n)
    ensures Reaches(next, s, s')
    decreases n
  {
    if n > 0 {
      var last :| InSteps(next, mid, last, n - 1) && next(last, s');
      InStepsOn(next, s, mid, last, n - 1);
      OneStepMore(next, s, last, s');
    }
  }

  lemma ReachesOn<T(!new)>(next: (T, T) -> bool, s: T, mid: T, s': T)
    requires Reaches(next, s, mid) && Reaches(next, mid, s')
    ensures Reaches(next, s, s')
  {
    var n: nat :| InSteps(next, mid, s', n);
    InStepsOn(next, s, mid, s', n);
  }

  lemma {:induction false} InStepsKeep<T(!new)>(next: (T, T) -> bool, inv: T -> bool, s: T, s': T, n: nat)
    requires inv(s) && InSteps(next, s, s', n)
    requires forall a, b :: inv(a) && next(a, b) ==> inv(b)
    ensures inv(s')
    decreases n
  {
    if n > 0 {
      var mid :| InSteps(next, s, mid, n - 1) && next(mid, s');
      InStepsKeep(next, inv, s, mid, n - 1);
    }
  }

  /** What holds at the start and every step keeps holds of all that is reached. */
  lemma ReachesKeeps<T(!new)>(next: (T, T) -> bool, inv: T -> bool, s: T, s': T)
    requires inv(s) && Reaches(next, s, s')
    requires forall a, b :: inv(a) && next(a, b) ==> inv(b)
    ensures inv(s')
  {
    var n: nat :| InSteps(next, s, s', n);
    InStepsKeep(next, inv, s, s', n);
  }

  /** The same along a sequence of states. */
  lemma {:induction false} AlongRun<T>(inv: T -> bool, run: seq<T>, n: nat)
    requires n < |run| && inv(run[0])
    requires forall i :: 0 < i < |run| && inv(run[i - 1]) ==> inv(run[i])
    ensures inv(run[n])
  {
    if n > 0 {
      AlongRun(inv, run, n - 1);
    }
  }

  /** And from one number up to another. */
  lemma {:induction false} Upwards(inv: nat -> bool, from: nat, n: nat)
    requires from <= n && inv(from)
    requires forall k :: from <= k < n && inv(k) ==> inv(k + 1)
    ensures inv(n)
    decreases n
  {
    if from < n {
      Upwards(inv, from, n - 1);
    }
  }
}
