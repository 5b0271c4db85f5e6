/** Shared vocabulary: options, results and the units every other module counts in. */
module Basics {

  datatype Option<+T> = None | Some(value: T)

  datatype Result<+T, +E> = Ok(value: T) | Err(error: E)

  /** An instant or a duration, in whole milliseconds. */
  type Millis = int

  /** Names of server rows, connections and secrets; fresh ones are drawn from counters. */
  type MachineId = nat
  type SocketId = nat
  type Secret = nat

  /** What `chrono::Duration::num_seconds` does: whole seconds, truncated toward zero. */
  function NumSeconds(d: Millis): int {
    if d >= 0 then d / 1000 else -((-d) / 1000)
  }

  /** What `Math.round(ms / 1000)` does on a non-negative duration: nearest second, halves up. */
  function RoundToSeconds(ms: nat): nat {
    (ms + 500) / 1000
  }

  function Min(a: int, b: int): int {
    if a <= b then a else b
  }

  function Max(a: int, b: int): int {
    if a >= b then a else b
  }
}
