/** What is true now because it began in an earlier turn and did not end since. */
module Histories {
  ghost predicate Lasts(begins: nat -> bool, ends: nat -> bool, n: nat) {
    exists m: nat :: m < n && begins(m) && NoneBetween(ends, m, n)
  }

  ghost predicate NoneBetween(ends: nat -> bool, m: nat, n: nat) {
    forall k: nat :: m < k < n ==> !ends(k)
  }

  lemma OneMoreBetween(ends: nat -> bool, m: nat, n: nat)
    requires m < n
    ensures NoneBetween(ends, m, n + 1) <==> NoneBetween(ends, m, n) && !ends(n)
  {
  }

  lemma LastsOneMore(begins: nat -> bool, ends: nat -> bool, n: nat)
    ensures Lasts(begins, ends, n + 1) <==> begins(n) || (Lasts(begins, ends, n) && !ends(n))
  {
    if Lasts(begins, ends, n + 1) {
      var m: nat :| m < n + 1 && begins(m) && NoneBetween(ends, m, n + 1);
      if m < n {
        OneMoreBetween(ends, m, n);
      }
    }
    if begins(n) {
      assert NoneBetween(ends, n, n + 1);
    } else if Lasts(begins, ends, n) && !ends(n) {
      var m: nat :| m < n && begins(m) && NoneBetween(ends, m, n);
      OneMoreBetween(ends, m, n);
    }
  }
}
