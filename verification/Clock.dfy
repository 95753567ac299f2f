/** Counting the clock readings that fit before a deadline. */
module Clock {

  /** How many readings, `step` apart, fit into the time left. */
  function Waits(left: int, step: nat): nat
    requires step > 0
    decreases if left > 0 then left else 0
  {
    if left <= 0 then 0 else 1 + Waits(left - step, step)
  }

  /** The number of readings is the quotient, rounded up. */
  lemma {:induction false} WaitsRoundsUp(left: int, step: nat)
    requires step > 0 && left > 0
    ensures (Waits(left, step) - 1) * step < left <= Waits(left, step) * step
    decreases left
  {
    if left > step {
      WaitsRoundsUp(left - step, step);
    } else {
      assert Waits(left - step, step) == 0;
    }
  }

  lemma {:induction false} WaitsGrow(a: int, b: int, step: nat)
    requires step > 0 && a <= b
    ensures Waits(a, step) <= Waits(b, step)
    decreases if b > 0 then b else 0
  {
    if a > 0 {
      WaitsGrow(a - step, b - step, step);
    }
  }

  lemma WaitsStep(left: int, later: int, step: nat)
    requires step > 0 && 0 < later <= left
    ensures Waits(later - step, step) < Waits(left, step)
  {
    WaitsGrow(later, left, step);
  }
}
