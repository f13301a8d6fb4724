/** The fault model shared by the persistence protocols.

    Every write a protocol makes is one step. Step number `t` of a run meets the fault
    `At(faults, t)`: the write happens, the write throws and changes nothing, or the process
    dies just before it. A run with no fault listed for a step executes that step normally, so
    quantifying over `faults` quantifies over every placement of crashes and errors. */
module Faults {

  datatype Fault = Fine | Fails | Dies

  function At(faults: seq<Fault>, t: nat): Fault {
    if t < |faults| then faults[t] else Fine
  }

  /** No write throws: processes may still die between any two writes. */
  ghost predicate CrashOnly(faults: seq<Fault>) {
    forall t: nat :: At(faults, t) != Fails
  }

  /** From step `t` on nothing goes wrong. */
  ghost predicate QuietFrom(faults: seq<Fault>, t: nat) {
    forall u: nat :: t <= u ==> At(faults, u) == Fine
  }
}
