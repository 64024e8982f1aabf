/** The clock of a fast run: it never waits, and every tick advances it by the ticked duration. */
module Clock {
  import opened Basics

  class InstantClock {
    var now: Time

    constructor (start: Time)
      ensures now == start
    {
      now := start;
    }

    method Now() returns (t: Time)
      ensures t == now
    {
      t := now;
    }

    /** Fires at once with the new instant. */
    method Tick(duration: int) returns (fired: Time)
      modifies this
      ensures now == old(now).Add(duration) && fired == now
    {
      now := now.Add(duration);
      fired := now;
    }
  }
}
