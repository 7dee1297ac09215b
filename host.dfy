/**
 * Process-wide sources of values that the ingestion reads: the global
 * pseudo-random generator and the wall clock. Each is a fixed stream of
 * values and a count of how many have been taken, so that a run can say
 * which values it used.
 */
module Host {

  /** math/rand's global source: the n-th call to `Int` returns `draws(n)`. */
  class Rand {
    const draws: nat -> nat
    var drawn: nat

    constructor (draws: nat -> nat)
      ensures this.draws == draws && drawn == 0
    {
      this.draws := draws;
      drawn := 0;
    }

    method Int() returns (x: nat)
      modifies this
      ensures x == draws(old(drawn)) && drawn == old(drawn) + 1
    {
      x := draws(drawn);
      drawn := drawn + 1;
    }
  }

  /** time.Now as Unix seconds: the n-th call returns `readings(n)`. */
  class Clock {
    const readings: nat -> int
    var calls: nat

    constructor (readings: nat -> int)
      ensures this.readings == readings && calls == 0
    {
      this.readings := readings;
      calls := 0;
    }

    method Now() returns (t: int)
      modifies this
      ensures t == readings(old(calls)) && calls == old(calls) + 1
    {
      t := readings(calls);
      calls := calls + 1;
    }
  }
}
