/** Shared vocabulary: optional values, machine integers and time. */
module Prelude {

  datatype Option<+T> = None | Some(value: T) {
    function GetOr(default: T): T {
      if Some? then value else default
    }
  }

  const U32_MAX: nat := 0xFFFF_FFFF
  const U64_MAX: nat := 0xFFFF_FFFF_FFFF_FFFF

  type U32 = n: nat | n <= U32_MAX
  type U64 = n: nat | n <= U64_MAX

  /** Points in time and durations, both in nanoseconds. */
  type Time = nat

  function Seconds(n: nat): Time {
    n * 1_000_000_000
  }

  const SECOND: nat := Seconds(1)

  /** A duration cut to whole milliseconds. */
  function WholeMillis(d: nat): nat {
    d / 1_000_000
  }

  function SomeMillis(d: Option<nat>): Option<nat> {
    if d.Some? then Some(WholeMillis(d.value)) else None
  }

  function Min(a: nat, b: nat): nat {
    if a <= b then a else b
  }

  function Max(a: nat, b: nat): nat {
    if a >= b then a else b
  }

  /** Subtraction that stops at zero, as `saturating_sub` does. */
  function SatSub(a: nat, b: nat): nat {
    if a >= b then a - b else 0
  }

  /** The value of `n as u32`: the low 32 bits. */
  function AsU32(n: nat): U32 {
    n % (U32_MAX + 1)
  }

  /** The earlier of two instants when either may be missing. */
  function Earliest(a: Option<Time>, b: Option<Time>): Option<Time> {
    match (a, b)
    case (None, _) => b
    case (_, None) => a
    case (Some(x), Some(y)) => Some(Min(x, y))
  }

  /** Some moment no earlier than `t`: the end of a sleep, or of a request under way. */
  method NotBefore(t: Time) returns (now: Time)
    ensures now >= t
  {
    now :| now >= t;
  }
}
