/** Points in time and the timer delegates that the heap orders. */
module Rankables {

  /** `struct timespec`. */
  datatype Timespec = Timespec(sec: int, nsec: int)
  {
    predicate Normalised() {
      0 <= nsec < 1_000_000_000
    }

    /** The same instant as one number of nanoseconds. */
    function Nanos(): int {
      sec * 1_000_000_000 + nsec
    }
  }

  /** A `LocTimerDelegate` as its container sees it: an address, and the
      future time that its constructor fixes for good. */
  datatype Delegate = Delegate(id: nat, due: Timespec)

  /** `LocTimerDelegate::ranks`: the later second ranks lower; nanoseconds do
      not take part. */
  function Ranks(a: Delegate, b: Delegate): int {
    b.due.sec - a.due.sec
  }

  predicate OutRanks(a: Delegate, b: Delegate) {
    Ranks(a, b) > 0
  }
}
