/** The monotonic clock and the cooperative sleep that the rate limiters use. */
module Clocks {
  class Clock {
    var now: real
    ghost var requested: seq<real>

    constructor (start: real)
      ensures now == start && requested == []
    {
      now := start;
      requested := [];
    }

    /** Reads the clock; any amount of time may have passed since the last reading. */
    method Read() returns (t: real)
      modifies this`now
      ensures old(now) <= now == t
    {
      Advance();
      t := now;
    }

    /** Sleeps for at least the given number of seconds, and notes how many were asked for. */
    method Sleep(seconds: real)
      modifies this
      ensures old(now) <= now
      ensures old(now) + seconds <= now
      ensures requested == old(requested) + [seconds]
    {
      if seconds > 0.0 {
        now := now + seconds;
      }
      requested := requested + [seconds];
      Advance();
    }

    method Advance()
      modifies this`now
      ensures old(now) <= now
    {
      var d: real := *;
      if d > 0.0 {
        now := now + d;
      }
    }
  }
}
