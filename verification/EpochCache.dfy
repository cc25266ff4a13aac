/** Per-row caches that are emptied by moving to a new epoch: a slot counts only while its stamp is
    the current epoch, a 32-bit counter that wraps. */
module EpochCaches {
  const EPOCHS: nat := 0x1_0000_0000

  class EpochCache<T(0)> {
    const values: array<T>
    const stamps: array<nat>
    var epoch: nat

    ghost predicate Valid()
      reads this, stamps
    {
      && values.Length == stamps.Length && values as object != stamps as object
      && 0 < epoch < EPOCHS
      && forall i | 0 <= i < stamps.Length :: stamps[i] <= epoch
    }

    /** Every slot filled in this epoch holds what this row wants there. */
    ghost predicate Holds(want: seq<T>)
      reads this, stamps, values
    {
      && Valid() && |want| == values.Length
      && forall i | 0 <= i < values.Length && stamps[i] == epoch :: values[i] == want[i]
    }

    constructor (n: nat, init: T)
      ensures Valid() && values.Length == n
      ensures fresh(values) && fresh(stamps)
      ensures forall want: seq<T> | |want| == n :: Holds(want)
    {
      values := new T[n](_ => init);
      stamps := new nat[n](_ => 0);
      epoch := 1;
    }

    /** Nothing cached for an earlier row counts any more, also when the counter wraps. */
    method NextRow()
      requires Valid()
      modifies this, stamps
      ensures Valid() && epoch == (if old(epoch) + 1 == EPOCHS then 1 else old(epoch) + 1)
      ensures forall want: seq<T> | |want| == values.Length :: Holds(want)
    {
      epoch := (epoch + 1) % EPOCHS;
      if epoch == 0 {
        var i := 0;
        while i < stamps.Length
          invariant i <= stamps.Length
          invariant forall k | 0 <= k < i :: stamps[k] == 0
        {
          stamps[i] := 0;
          i := i + 1;
        }
        epoch := 1;
      }
    }

    method Store(i: nat, x: T, ghost want: seq<T>)
      requires Holds(want) && i < values.Length && x == want[i]
      modifies values, stamps
      ensures Holds(want)
    {
      values[i] := x;
      stamps[i] := epoch;
    }
  }
}
