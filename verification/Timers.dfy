/** Timers on a 64-bit clock of seconds and microseconds. */
module Timers {

  datatype Timeval = Timeval(sec: int, usec: int)

  function Micros(t: Timeval): int {
    t.sec * 1000000 + t.usec
  }

  class Timer {
    var begin: Timeval
    var end: Timeval

    constructor (now: Timeval, sec: int, usec: int)
      ensures begin == now && Micros(end) == Micros(now) + sec * 1000000 + usec
    {
      begin := now;
      end := Timeval(now.sec + sec, now.usec + usec);
    }

    method Update(now: Timeval, sec: int, usec: int)
      modifies this
      ensures begin == now && Micros(end) == Micros(now) + sec * 1000000 + usec
    {
      begin := now;
      end := Timeval(now.sec + sec, now.usec + usec);
    }

    predicate Expired(now: Timeval)
      reads this
    {
      Micros(now) > Micros(end)
    }
  }
}
