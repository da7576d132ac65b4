/** A UDP sender that keeps to a target rate: after each packet it sets a timer for the next one. */
module UdpPacing {
  import opened Timers

  /** Microseconds from one packet to the next at `rate` bits a second, rounded down. */
  function Interval(blksize: nat, rate: nat): nat
    requires rate > 0
  {
    blksize * 1000000 * 8 / rate
  }

  /** More than the interval lies between any two packets that follow each other. */
  ghost predicate Spaced(times: seq<int>, interval: nat) {
    forall i :: 0 < i < |times| ==> times[i] - times[i - 1] > interval
  }

  lemma SpacedAppend(times: seq<int>, t: int, interval: nat)
    requires times != [] && Spaced(times, interval) && t - times[|times| - 1] > interval
    ensures Spaced(times + [t], interval)
  {
  }

  class Stream {
    const blksize: nat
    const rate: nat
    const sendTimer: Timer
    var packetCount: int
    var bytesSent: int
    ghost var times: seq<int> // when the timer was made, then when each successful packet was about to be written

    /** The timer does not expire before the interval since the last packet has passed. */
    ghost predicate Valid()
      reads this, sendTimer
    {
      && rate > 0 && 1 <= |times| <= packetCount + 1
      && Spaced(times, Interval(blksize, rate))
      && Micros(sendTimer.end) >= times[|times| - 1] + Interval(blksize, rate)
    }

    /** A rate so high that the interval is 0 fails the program's own assertion. */
    constructor (blksize: nat, rate: nat, now: Timeval)
      requires rate > 0 && Interval(blksize, rate) != 0
      ensures Valid() && fresh(sendTimer) && this.blksize == blksize && this.rate == rate
      ensures times == [Micros(now)] && packetCount == 0 && bytesSent == 0
    {
      var dtargus := Interval(blksize, rate);
      this.blksize, this.rate := blksize, rate;
      packetCount, bytesSent, times := 0, 0, [Micros(now)];
      sendTimer := new Timer(now, dtargus / 1000000, dtargus % 1000000);
    }

    /**
     The clock is read up to four times: to see whether the timer expired (`now`), around the write (`before` and
     `after`), and to set the timer again (`begin`). `result` is what the write returns.
     */
    method Send(now: Timeval, before: Timeval, after: Timeval, begin: Timeval, result: int) returns (r: int)
      requires Valid() && Micros(now) <= Micros(before) <= Micros(after) <= Micros(begin)
      modifies this, sendTimer
      ensures Valid()
      ensures !old(sendTimer.Expired(now)) ==>
                r == 0 && times == old(times) && packetCount == old(packetCount) && bytesSent == old(bytesSent) &&
                sendTimer.end == old(sendTimer.end)
      ensures old(sendTimer.Expired(now)) ==>
                packetCount == old(packetCount) + 1 && r == if result < 0 then -1 else result
      ensures old(sendTimer.Expired(now)) && result < 0 ==>
                times == old(times) && bytesSent == old(bytesSent) && sendTimer.end == old(sendTimer.end)
      ensures old(sendTimer.Expired(now)) && result >= 0 ==>
                times == old(times) + [Micros(before)] && bytesSent == old(bytesSent) + result
      ensures old(sendTimer.Expired(now)) && result >= 0 ==>
                // a write faster than the interval does not delay the next packet
                var interval, writing := Interval(blksize, rate), Micros(after) - Micros(before);
                Micros(sendTimer.end) == Micros(begin) + if writing < interval then interval - writing else interval
      ensures old(sendTimer.Expired(now)) && result >= 0 ==>
                var interval := Interval(blksize, rate);
                Micros(before) + interval <= Micros(sendTimer.end) <= Micros(begin) + interval
    {
      hide Interval, Spaced;
      r := 0;
      if sendTimer.Expired(now) {
        var dtargus := Interval(blksize, rate);
        packetCount := packetCount + 1;
        if result < 0 {
          return -1;
        }
        r := result;
        bytesSent := bytesSent + result;
        var adjustus := dtargus + (before.sec - after.sec) * 1000000 + (before.usec - after.usec);
        if adjustus > 0 {
          dtargus := adjustus;
        }
        sendTimer.Update(begin, 0, dtargus);
        SpacedAppend(times, Micros(before), Interval(blksize, rate));
        times := times + [Micros(before)];
      }
    }
  }

  /** The rounded-down interval and one microsecond more carry fewer bits than the rate allows. */
  lemma IntervalBelowRate(blksize: nat, rate: nat, gap: int)
    requires rate > 0 && gap > Interval(blksize, rate)
    ensures blksize * 8 * 1000000 < rate * gap
  {
    var bits, interval := blksize * 8 * 1000000, Interval(blksize, rate);
    assert bits == rate * interval + bits % rate;
    Monotone(rate, interval + 1, gap);
  }

  lemma Monotone(c: nat, a: int, b: int)
    requires a <= b
    ensures c * a <= c * b
  {
  }

  /** Over any stretch, the packets from one to another carry fewer bits than the target rate allows in that time. */
  lemma {:induction false} PacingBound(times: seq<int>, blksize: nat, rate: nat, i: nat, j: nat)
    requires rate > 0 && Spaced(times, Interval(blksize, rate)) && i < j < |times|
    ensures (j - i) * (blksize * 8 * 1000000) < rate * (times[j] - times[i])
  {
    var bits := blksize * 8 * 1000000;
    IntervalBelowRate(blksize, rate, times[j] - times[j - 1]);
    if i < j - 1 {
      PacingBound(times, blksize, rate, i, j - 1);
      assert (j - i) * bits == (j - 1 - i) * bits + bits;
      assert rate * (times[j] - times[i]) == rate * (times[j - 1] - times[i]) + rate * (times[j] - times[j - 1]);
    }
  }

  /** No two packets that follow each other are more than the interval and a delay apart. */
  ghost predicate Prompt(times: seq<int>, interval: nat, delay: nat) {
    forall i :: 0 < i < |times| ==> times[i] - times[i - 1] <= interval + delay
  }

  /** The interval itself carries at least as many bits as the rate allows, and one microsecond more carries fewer. */
  lemma IntervalMeetsRate(blksize: nat, rate: nat)
    requires rate > 0
    ensures rate * Interval(blksize, rate) <= blksize * 8 * 1000000 < rate * (Interval(blksize, rate) + 1)
  {
    IntervalBelowRate(blksize, rate, Interval(blksize, rate) + 1);
    var bits, interval := blksize * 8 * 1000000, Interval(blksize, rate);
    assert bits == rate * interval + bits % rate;
  }

  /** Over any stretch, prompt packets fall short of the target rate by what it allows in their delays at most. */
  lemma {:induction false} RateIsReached(times: seq<int>, blksize: nat, rate: nat, delay: nat, i: nat, j: nat)
    requires rate > 0 && Prompt(times, Interval(blksize, rate), delay) && i <= j < |times|
    ensures rate * (times[j] - times[i]) <= (j - i) * (blksize * 8 * 1000000 + rate * delay)
  {
    var bits, interval := blksize * 8 * 1000000 + rate * delay, Interval(blksize, rate);
    if i < j {
      RateIsReached(times, blksize, rate, delay, i, j - 1);
      IntervalMeetsRate(blksize, rate);
      Monotone(rate, times[j] - times[j - 1], interval + delay);
      assert rate * (interval + delay) == rate * interval + rate * delay;
      assert (j - i) * bits == (j - 1 - i) * bits + bits;
      assert rate * (times[j] - times[i]) == rate * (times[j - 1] - times[i]) + rate * (times[j] - times[j - 1]);
    }
  }

  /** The bound of the rate for a sender after any calls; times[0] is when its timer was made. */
  lemma SentWithinRate(stream: Stream, i: nat, j: nat)
    requires stream.Valid() && i < j < |stream.times|
    ensures (j - i) * (stream.blksize * 8 * 1000000) < stream.rate * (stream.times[j] - stream.times[i])
  {
    PacingBound(stream.times, stream.blksize, stream.rate, i, j);
  }
}
