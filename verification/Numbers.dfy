/** Arithmetic on counters and clocks. */
module Numbers {

  /** A reading of a monotone clock. */
  type Instant = nat

  function Min(a: nat, b: nat): nat {
    if a < b then a else b
  }

  function Max(a: nat, b: nat): nat {
    if a > b then a else b
  }

  /** `saturating_sub` */
  function SaturatingSub(a: nat, b: nat): nat {
    if a > b then a - b else 0
  }

  /** `duration_since`, which never goes below zero. */
  function Elapsed(now: Instant, since: Instant): nat {
    SaturatingSub(now, since)
  }
}
