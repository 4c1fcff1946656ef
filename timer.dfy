/** The millisecond clock as the firmware reads it: a 32-bit counter whose
    differences wrap around (timer_read32 / timer_elapsed32). */
module Timer {
  import opened Words

  /** timer_elapsed32(stamp) read at clock value `now`: unsigned 32-bit
      subtraction, so a clock that wrapped past zero still yields the
      time that passed. */
  function Elapsed(stamp: u32, now: u32): (d: u32)
    ensures stamp <= now ==> d == now - stamp
    ensures now < stamp ==> d == Wrap32 - stamp + now
  {
    (now - stamp) % Wrap32
  }

  /** A clock read `d` milliseconds after `stamp` (wrapping as the counter
      does) reports exactly `d` milliseconds elapsed. */
  lemma ElapsedAfter(stamp: u32, d: u32)
    ensures Elapsed(stamp, (stamp + d) % Wrap32) == d
  {
    if stamp + d >= Wrap32 {
      assert (stamp + d) % Wrap32 == stamp + d - Wrap32;
    }
  }
}
