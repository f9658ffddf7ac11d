/**
 Which system calls fail.  A call that may fail for reasons outside the model is
 given its fate by its number: `faults(k)` says whether the k-th one fails.
 */
module Schedules {

  /** No call from number `from` up to `to` fails. */
  ghost predicate NoFault(faults: nat -> bool, from: nat, to: nat) {
    forall k: nat :: from <= k < to ==> !faults(k)
  }

  /** Call number `at` is the first one from `from` on that fails. */
  ghost predicate FirstFault(faults: nat -> bool, from: nat, at: nat) {
    from <= at && faults(at) && NoFault(faults, from, at)
  }

  /** From `from` on, call number `at` is the only one that fails. */
  ghost predicate OnlyFault(faults: nat -> bool, from: nat, at: nat) {
    forall k: nat :: from <= k ==> (faults(k) <==> k == at)
  }
}
