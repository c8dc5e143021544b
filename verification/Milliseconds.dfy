/** Millisecond counters kept in 32 bits. */
module Milliseconds {

  const WRAP := 0x1_0000_0000

  // The counter's value at a time, or after unsigned arithmetic on counters.
  function Ms(t: int): (r: nat)
    ensures r < WRAP
  {
    t % WRAP
  }
}
