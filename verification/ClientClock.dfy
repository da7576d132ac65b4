/**
 When a measurement's intervals begin and end: what the clock readings of a run say, and that the client's streams and
 timers follow them.
 */
module ClientClock {
  import opened Options
  import opened Timers
  import opened ClientModel

  /** What has been read off the clock for one stream. */
  datatype Clock = Clock(
    started: int,          // when the timers were made, in microseconds
    counted: int,          // when the statistics timer was last set
    begun: Timeval,        // when the stream started
    ends: seq<Timeval>,    // when its intervals ended
    over: Option<Timeval>  // when the test ended
  )

  const UNREAD := Clock(0, 0, Timeval(0, 0), [], None)

  /** Data is moved in this turn. */
  predicate Runs(c: Client, i: Input) {
    i.selectOk && (i.control == Message(TEST_RUNNING) || (i.control.Quiet? && c.state == TEST_RUNNING))
  }

  /** The statistics interval has passed. */
  predicate IsDue(c: Client, i: Input, clock: Clock) {
    c.statsInterval != 0 && Micros(i.statsNow) > clock.counted + c.statsInterval
  }

  /** The readings of one turn for stream k. */
  function Ticked(c: Client, i: Input, k: nat, clock: Clock): Clock {
    if i.control == Message(TEST_START) then
      clock.(started := Micros(i.timerStart), counted := Micros(i.timerStart), begun := i.startClock(k))
    else if !Runs(c, i) then clock
    else
      var due := IsDue(c, i, clock);
      var counted :=
        if due then clock.(counted := Micros(i.statsUpdate), ends := clock.ends + [i.statsClock(k)]) else clock;
      if Turn(c, i).0.state == TEST_END then
        counted.(ends := counted.ends + [i.endClock(k)], over := Some(i.endClock(k)))
      else counted
  }

  /** The readings of a run. */
  function Readings(c: Client, inputs: seq<Input>, k: nat, clock: Clock): Clock
    decreases |inputs|
  {
    if inputs == [] || c.state == IPERF_DONE || !Turn(c, inputs[0]).1 then clock
    else Readings(Turn(c, inputs[0]).0, inputs[1..], k, Ticked(c, inputs[0], k, clock))
  }

  function EndsOf(intervals: seq<Interval>): (ends: seq<Timeval>)
    ensures |ends| == |intervals|
  {
    seq(|intervals|, n requires 0 <= n < |intervals| => intervals[n].end)
  }

  // ---------- streams and timers follow the readings ----------

  /** The timers expire when they should. */
  ghost predicate TimersFollow(c: Client, clock: Clock) {
    && (c.state in {0, PARAM_EXCHANGE, CREATE_STREAMS} ==> c.statsTimer == None)
    && (c.state in {TEST_START, TEST_RUNNING} ==>
          && c.timer == (if c.bytes == 0 then Some(clock.started + c.duration * 1000000) else None)
          && c.statsTimer == if c.statsInterval != 0 then Some(clock.counted + c.statsInterval) else None)
  }

  /** Stream k's times are the readings. */
  ghost predicate StreamFollows(c: Client, k: nat, clock: Clock) {
    && (c.state in {0, PARAM_EXCHANGE, CREATE_STREAMS} ==> clock.ends == [])
    && (c.state in {TEST_START, TEST_RUNNING, TEST_END, EXCHANGE_RESULTS, IPERF_DONE} && k < |c.streams| ==>
          && c.streams[k].startTime == clock.begun && EndsOf(c.streams[k].intervals) == clock.ends
          && (c.state !in {TEST_START, TEST_RUNNING} ==> clock.over == Some(c.streams[k].endTime)))
  }

  ghost predicate Follows(c: Client, k: nat, clock: Clock) {
    TimersFollow(c, clock) && StreamFollows(c, k, clock)
  }

  lemma MovedTimes(c: Client, ready: nat -> Option<int>, k: nat)
    requires k < |c.streams|
    ensures
      var f, g := c.streams[k], MovedUpTo(c, ready, |c.streams|).streams[k];
      g.startTime == f.startTime && g.endTime == f.endTime && g.intervals == f.intervals
  {
    MovedEach(c, ready, |c.streams|);
  }

  lemma EndedTimes(streams: seq<Figures>, sends: bool, clock: nat -> Timeval, k: nat)
    requires k < |streams|
    ensures
      var f, g := streams[k], AllEnded(streams, sends, clock)[k];
      g.startTime == f.startTime && g.endTime == clock(k) && EndsOf(g.intervals) == EndsOf(f.intervals) + [clock(k)]
  {
    var g := AllEnded(streams, sends, clock)[k];
    assert g == IntervalEnded(streams[k], sends, clock(k));
  }

  /** The times of stream k after a turn that moves data. */
  lemma RanTimes(c: Client, i: Input, k: nat)
    requires k < |c.streams| && c.state == TEST_RUNNING && i.selectOk
    ensures
      var f, r := c.streams[k], Ran(c, i).0;
      && |r.streams| == |c.streams| && r.streams[k].startTime == f.startTime
      && EndsOf(r.streams[k].intervals)
         == EndsOf(f.intervals) + (if Expired(c.statsTimer, i.statsNow) then [i.statsClock(k)] else [])
            + (if r.state == TEST_END then [i.endClock(k)] else [])
      && (r.state == TEST_END ==> r.streams[k].endTime == i.endClock(k))
  {
    hide MovedUpTo, AllEnded, EndsOf;
    var moved := MovedUpTo(c, i.ready, |c.streams|);
    var counted := StatisticsTaken(moved, i);
    MovedTimes(c, i.ready, k);
    EndedSize(moved.streams, c.sends, i.statsClock);
    EndedSize(counted.streams, c.sends, i.endClock);
    EndedTimes(moved.streams, c.sends, i.statsClock, k);
    EndedTimes(counted.streams, c.sends, i.endClock, k);
  }

  lemma RanTimers(c: Client, i: Input)
    requires i.selectOk && c.state == TEST_RUNNING
    ensures
      var r := Ran(c, i).0;
      && |r.streams| == |c.streams| && (r.state == TEST_END || r.state == TEST_RUNNING)
      && r.timer == c.timer && r.bytes == c.bytes && r.duration == c.duration && r.statsInterval == c.statsInterval
      && r.statsTimer
         == if Expired(c.statsTimer, i.statsNow) then Some(Micros(i.statsUpdate) + c.statsInterval) else c.statsTimer
  {
    hide MovedUpTo, AllEnded;
    var moved := MovedUpTo(c, i.ready, |c.streams|);
    EndedSize(moved.streams, c.sends, i.statsClock);
    EndedSize(StatisticsTaken(moved, i).streams, c.sends, i.endClock);
  }

  lemma StartedTimes(streams: seq<Figures>, clock: nat -> Timeval, k: nat)
    requires k < |streams| && AllUntouched(streams)
    ensures |AllStarted(streams, clock)| == |streams|
    ensures AllStarted(streams, clock)[k].startTime == clock(k) && EndsOf(AllStarted(streams, clock)[k].intervals) == []
  {
  }

  lemma InformedTimes(streams: seq<Figures>, sends: bool, results: nat -> Option<nat>, k: nat)
    requires k < |streams|
    ensures |AllInformed(streams, sends, results)| == |streams|
    ensures
      var f, g := streams[k], AllInformed(streams, sends, results)[k];
      g.startTime == f.startTime && g.endTime == f.endTime && g.intervals == f.intervals
  {
    assert AllInformed(streams, sends, results)[k] == Informed(streams[k], sends, results(k));
  }

  lemma HandledFollows(c: Client, i: Input, k: nat, clock: Clock)
    requires Phase(c) && i.control.Message? && Orderly(c, i) && Handled(c, i).1 && Follows(c, k, clock)
    ensures Follows(Handled(c, i).0, k, if i.control.code == TEST_START then Ticked(c, i, k, clock) else clock)
  {
    hide AllAccounted, AllComplete, Turn, EndsOf, AllStarted, AllInformed;
    if k < |c.streams| {
      if i.control.code == TEST_START {
        StartedTimes(c.streams, i.startClock, k);
      } else if i.control.code == EXCHANGE_RESULTS {
        InformedTimes(c.streams, c.sends, i.results, k);
      }
    }
    SameSizes(c, i);
  }

  lemma SameSizes(c: Client, i: Input)
    ensures |AllStarted(c.streams, i.startClock)| == |AllInformed(c.streams, c.sends, i.results)| == |c.streams|
  {
  }

  lemma RanFollows(c: Client, i: Input, k: nat, clock: Clock)
    requires Runs(c, i) && Follows(c.(state := TEST_RUNNING), k, clock)
    requires Turn(c, i).0 == Ran(c.(state := TEST_RUNNING), i).0
    ensures Follows(Turn(c, i).0, k, Ticked(c, i, k, clock))
  {
    hide Ran, Turn, EndsOf;
    var d := c.(state := TEST_RUNNING);
    RanTimers(d, i);
    if k < |c.streams| {
      RanTimes(d, i, k);
    }
  }

  lemma TurnFollows(c: Client, i: Input, k: nat, clock: Clock)
    requires Phase(c) && Orderly(c, i) && Turn(c, i).1 && Follows(c, k, clock)
    ensures Follows(Turn(c, i).0, k, Ticked(c, i, k, clock))
  {
    hide Phase, Handled, Ran, Follows;
    if i.control.Message? {
      HandledFollows(c, i, k, clock);
      HandledState(c, i);
    }
    if Runs(c, i) {
      RanFollows(c, i, k, clock);
    }
    SelectFails(if i.control.Message? then Handled(c, i).0 else c, i);
  }

  lemma SelectFails(c: Client, i: Input)
    ensures !i.selectOk ==> !Ran(c, i).1
  {
  }

  lemma HandledState(c: Client, i: Input)
    requires i.control.Message? && Handled(c, i).1
    ensures Handled(c, i).0.state == TEST_RUNNING <==> i.control.code == TEST_RUNNING
    ensures i.control.code == TEST_RUNNING ==> Handled(c, i).0 == c.(state := TEST_RUNNING)
  {
    hide AllStarted, AllInformed;
  }

  lemma {:induction false} RunFollows(c: Client, inputs: seq<Input>, k: nat, clock: Clock)
    requires Phase(c) && OrderlyRun(c, inputs) && Run(c, inputs).1 && Follows(c, k, clock)
    ensures Follows(Run(c, inputs).0, k, Readings(c, inputs, k, clock)) && Phase(Run(c, inputs).0)
    decreases |inputs|
  {
    hide Phase, Turn, Follows, Orderly;
    if inputs != [] && c.state != IPERF_DONE {
      TurnFollows(c, inputs[0], k, clock);
      TurnKeepsPhase(c, inputs[0]);
      RunFollows(Turn(c, inputs[0]).0, inputs[1..], k, Ticked(c, inputs[0], k, clock));
    }
  }

  /** A client before its first turn, without a timer. */
  ghost predicate Fresh(c: Client) {
    Initial(c) && c.statsTimer == None
  }

  /**
   When the results are displayed, every stream runs from the reading at its start to the one at the end of the test,
   and its intervals end at the readings of the turns in which the statistics were due, and of the last turn.
   */
  lemma TimesAreReadings(c: Client, inputs: seq<Input>, k: nat)
    requires Fresh(c) && OrderlyRun(c, inputs) && Run(c, inputs).1 && Run(c, inputs).0.state == IPERF_DONE
    requires k < c.numStreams
    ensures
      var end, clock := Run(c, inputs).0, Readings(c, inputs, k, UNREAD);
      && |end.streams| == c.numStreams
      && var f := end.streams[k];
      && f.startTime == clock.begun && clock.over == Some(f.endTime)
      && |f.intervals| == |clock.ends| > 0 && clock.ends[|clock.ends| - 1] == f.endTime
      && forall n :: 0 <= n < |f.intervals| ==>
           && f.intervals[n].start == (if n == 0 then clock.begun else clock.ends[n - 1])
           && f.intervals[n].end == clock.ends[n]
  {
    RunFollows(c, inputs, k, UNREAD);
    DisplayedIsComplete(c, inputs);
    RunSends(c, inputs);
    hide Run, Readings, OrderlyRun;
    var f, clock := Run(c, inputs).0.streams[k], Readings(c, inputs, k, UNREAD);
    assert Complete(f, c.sends);
    forall n | 0 <= n < |f.intervals| ensures f.intervals[n].end == clock.ends[n] {
      assert EndsOf(f.intervals)[n] == f.intervals[n].end;
    }
  }

  // ---------- durations ----------

  function Duration(intervals: seq<Interval>): int {
    if intervals == [] then 0
    else
      var last := intervals[|intervals| - 1];
      Duration(intervals[..|intervals| - 1]) + Micros(last.end) - Micros(last.start)
  }

  lemma {:induction false} TiledDuration(intervals: seq<Interval>)
    requires intervals != [] && forall n :: 0 < n < |intervals| ==> intervals[n].start == intervals[n - 1].end
    ensures Duration(intervals) == Micros(intervals[|intervals| - 1].end) - Micros(intervals[0].start)
  {
    if |intervals| > 1 {
      TiledDuration(intervals[..|intervals| - 1]);
    } else {
      assert Duration(intervals[..0]) == 0;
    }
  }

  /** No reading is earlier than the one before it. */
  ghost predicate Forwards(clock: Clock) {
    && (clock.ends != [] ==> Micros(clock.begun) <= Micros(clock.ends[0]))
    && forall n :: 0 < n < |clock.ends| ==> Micros(clock.ends[n - 1]) <= Micros(clock.ends[n])
  }

  /** A stream's intervals last as long as its test; and if the clock never goes back, none has a negative length. */
  lemma IntervalsFillTheTest(c: Client, inputs: seq<Input>, k: nat)
    requires Fresh(c) && OrderlyRun(c, inputs) && Run(c, inputs).1 && Run(c, inputs).0.state == IPERF_DONE
    requires k < |Run(c, inputs).0.streams|
    ensures
      var f, clock := Run(c, inputs).0.streams[k], Readings(c, inputs, k, UNREAD);
      && Duration(f.intervals) == Micros(f.endTime) - Micros(f.startTime)
      && (Forwards(clock) ==>
            forall n :: 0 <= n < |f.intervals| ==> Micros(f.intervals[n].start) <= Micros(f.intervals[n].end))
  {
    DisplayedIsComplete(c, inputs);
    RunSends(c, inputs);
    TimesAreReadings(c, inputs, k);
    hide Run, Readings, OrderlyRun;
    var f, clock := Run(c, inputs).0.streams[k], Readings(c, inputs, k, UNREAD);
    TiledDuration(f.intervals);
    forall n | 0 <= n < |f.intervals| && Forwards(clock)
      ensures Micros(f.intervals[n].start) <= Micros(f.intervals[n].end)
    {
      assert n > 0 ==> Micros(clock.ends[n - 1]) <= Micros(clock.ends[n]);
    }
  }

  // ---------- when a test ends ----------

  /** No turn changes what was asked for. */
  lemma TurnLimits(c: Client, i: Input)
    ensures Turn(c, i).0.duration == c.duration && Turn(c, i).0.bytes == c.bytes
  {
    hide MovedUpTo, AllEnded, AllStarted, AllInformed;
  }

  lemma {:induction false} RunLimits(c: Client, inputs: seq<Input>)
    ensures Run(c, inputs).0.duration == c.duration && Run(c, inputs).0.bytes == c.bytes
    decreases |inputs|
  {
    hide Turn;
    if inputs != [] && c.state != IPERF_DONE {
      TurnLimits(c, inputs[0]);
      if Turn(c, inputs[0]).1 {
        RunLimits(Turn(c, inputs[0]).0, inputs[1..]);
      }
    }
  }

  /**
   A turn that moves data ends a test whose time is limited exactly if more than its duration has passed since it
   started.
   */
  lemma TestLastsItsDuration(c: Client, inputs: seq<Input>, i: Input)
    requires Fresh(c) && OrderlyRun(c, inputs) && Run(c, inputs).1
    requires Orderly(Run(c, inputs).0, i) && Runs(Run(c, inputs).0, i) && c.bytes == 0
    ensures
      Turn(Run(c, inputs).0, i).0.state == TEST_END
      <==> Micros(i.timerNow) > Readings(c, inputs, 0, UNREAD).started + c.duration * 1000000
  {
    RunFollows(c, inputs, 0, UNREAD);
    RunLimits(c, inputs);
    hide Run, Readings, OrderlyRun;
    EndsWhenExpired(Run(c, inputs).0, i);
  }

  lemma EndsWhenExpired(c: Client, i: Input)
    requires Runs(c, i)
    ensures
      var next := Turn(c, i).0;
      next.state == TEST_END
      <==> (c.bytes > 0 && next.bytesMoved >= c.numStreams * c.bytes % WRAP) || Expired(c.timer, i.timerNow)
  {
    hide MovedUpTo, AllEnded;
  }

  /** And it ends a test whose bytes are limited exactly if as many have been moved, as a 64-bit number. */
  lemma TestMovesItsBytes(c: Client, inputs: seq<Input>, i: Input)
    requires Fresh(c) && OrderlyRun(c, inputs) && Run(c, inputs).1
    requires Orderly(Run(c, inputs).0, i) && Runs(Run(c, inputs).0, i) && c.bytes > 0
    ensures
      var next := Turn(Run(c, inputs).0, i).0;
      next.state == TEST_END <==> next.bytesMoved >= c.numStreams * c.bytes % WRAP
  {
    RunFollows(c, inputs, 0, UNREAD);
    RunLimits(c, inputs);
    RunSends(c, inputs);
    hide Run, Readings, OrderlyRun;
    EndsWhenExpired(Run(c, inputs).0, i);
  }

  /**
   An interval holds what was moved up to its end: after a turn in which the statistics were due or the test ended,
   nothing is left over for the next one.
   */
  lemma DueIntervalsAreComplete(c: Client, inputs: seq<Input>, i: Input)
    requires Fresh(c) && OrderlyRun(c, inputs) && Run(c, inputs).1
    requires Orderly(Run(c, inputs).0, i) && Runs(Run(c, inputs).0, i)
    requires IsDue(Run(c, inputs).0, i, Readings(c, inputs, 0, UNREAD)) || Turn(Run(c, inputs).0, i).0.state == TEST_END
    ensures AllComplete(Turn(Run(c, inputs).0, i).0.streams, c.sends)
  {
    RunFollows(c, inputs, 0, UNREAD);
    RunSends(c, inputs);
    hide Run, Readings, OrderlyRun;
    var d := Run(c, inputs).0;
    RunningAccounted(d, i);
    RanComplete(d.(state := TEST_RUNNING), i);
  }

  lemma RunningAccounted(c: Client, i: Input)
    requires Phase(c) && Orderly(c, i) && Runs(c, i)
    ensures AllAccounted(c.streams, c.sends) && Turn(c, i) == Ran(c.(state := TEST_RUNNING), i)
  {
    hide Ran, Accounted;
    if c.state == TEST_START {
      UntouchedAccounted(c.streams, c.sends);
    }
  }

  lemma RanComplete(c: Client, i: Input)
    requires AllAccounted(c.streams, c.sends) && c.state == TEST_RUNNING && i.selectOk
    requires Expired(c.statsTimer, i.statsNow) || Ran(c, i).0.state == TEST_END
    ensures AllComplete(Ran(c, i).0.streams, c.sends)
  {
    hide Accounted, Complete, AllAccounted, AllComplete, MovedUpTo, AllEnded;
    var moved := MovedUpTo(c, i.ready, |c.streams|);
    MovedAllAccounted(c, i.ready);
    AllEndedComplete(moved.streams, c.sends, i.statsClock);
    AllEndedComplete(moved.streams, c.sends, i.endClock);
    AllEndedComplete(AllEnded(moved.streams, c.sends, i.statsClock), c.sends, i.endClock);
  }
}
