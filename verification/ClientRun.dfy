/**
 The client as the program keeps it: streams with linked lists of intervals, and a loop that changes them in place.
 */
module ClientRun {
  import opened Options
  import opened Timers
  import opened ClientModel

  class Node {
    const interval: Interval
    var next: Node?
    ghost const owner: Stream

    constructor (interval: Interval, ghost owner: Stream)
      ensures this.interval == interval && this.owner == owner && next == null
    {
      this.interval := interval;
      this.owner := owner;
      next := null;
    }
  }

  ghost function Intervals(nodes: seq<Node>): (s: seq<Interval>)
    ensures |s| == |nodes|
  {
    seq(|nodes|, i requires 0 <= i < |nodes| => nodes[i].interval)
  }

  /** Each node leads to the next one, and the last to none; all belong to one stream. */
  ghost predicate Chain(nodes: seq<Node>, owner: Stream)
    reads nodes
  {
    && (forall i :: 0 <= i < |nodes| ==> nodes[i].owner == owner)
    && (forall i :: 0 <= i < |nodes| - 1 ==> nodes[i].next == nodes[i + 1])
    && (nodes != [] ==> nodes[|nodes| - 1].next == null)
    && forall i, j :: 0 <= i < j < |nodes| ==> nodes[i] != nodes[j]
  }

  class Stream {
    var bytesSent: nat
    var bytesReceived: nat
    var bytesSentThisInterval: nat
    var bytesReceivedThisInterval: nat
    var startTime: Timeval
    var endTime: Timeval
    var intervalResults: Node?
    var lastIntervalResults: Node?
    ghost var nodes: seq<Node>

    /** The list leads through all nodes, and its tail pointer is the last of them. */
    ghost predicate Listed()
      reads this, nodes
    {
      && intervalResults == (if nodes == [] then null else nodes[0])
      && lastIntervalResults == (if nodes == [] then null else nodes[|nodes| - 1])
      && Chain(nodes, this)
    }

    ghost function Value(): Figures
      reads this
    {
      Figures(bytesSent, bytesReceived, bytesSentThisInterval, bytesReceivedThisInterval,
        startTime, endTime, Intervals(nodes))
    }

    constructor ()
      ensures Listed() && Value() == BLANK && nodes == []
    {
      bytesSent, bytesReceived, bytesSentThisInterval, bytesReceivedThisInterval := 0, 0, 0, 0;
      startTime, endTime := Timeval(0, 0), Timeval(0, 0);
      intervalResults, lastIntervalResults, nodes := null, null, [];
    }

    /** One send or receive, with the result of the write or read. */
    method Move(sends: bool, result: int) returns (r: int)
      requires Listed()
      modifies this
      ensures Listed() && nodes == old(nodes)
      ensures Value() == Moved(old(Value()), sends, result) && r == if result < 0 then -1 else result
    {
      hide Chain, Intervals;
      if result < 0 {
        return -1;
      }
      if sends {
        bytesSent := bytesSent + result;
        bytesSentThisInterval := bytesSentThisInterval + result;
      } else {
        bytesReceived := bytesReceived + result;
        bytesReceivedThisInterval := bytesReceivedThisInterval + result;
      }
      return result;
    }

    method Start(now: Timeval)
      requires Listed()
      modifies this
      ensures Listed() && nodes == old(nodes) && Value() == old(Value()).(startTime := now)
    {
      hide Chain, Intervals;
      startTime := now;
    }

    method Inform(sends: bool, bytes: Option<nat>)
      requires Listed()
      modifies this
      ensures Listed() && nodes == old(nodes) && Value() == Informed(old(Value()), sends, bytes)
    {
      hide Chain, Intervals;
      if bytes.Some? {
        if sends {
          bytesReceived := bytes.value;
        } else {
          bytesSent := bytes.value;
        }
      }
    }

    /** Puts a copy of the interval at the end of the list. */
    method AddToIntervalList(interval: Interval)
      requires Listed()
      modifies this`intervalResults, this`lastIntervalResults, this`nodes, nodes
      ensures Listed() && |nodes| == |old(nodes)| + 1 && fresh(nodes[|old(nodes)|])
      ensures nodes == old(nodes) + [nodes[|old(nodes)|]]
      ensures Intervals(nodes) == old(Intervals(nodes)) + [interval]
    {
      var ip := new Node(interval, this);
      if intervalResults == null {
        intervalResults := ip;
        lastIntervalResults := ip;
      } else {
        lastIntervalResults.next := ip;
        lastIntervalResults := ip;
      }
      nodes := nodes + [ip];
    }

    /** The interval ends now. */
    method EndInterval(sends: bool, now: Timeval)
      requires Listed()
      modifies this, nodes
      ensures Listed() && Value() == IntervalEnded(old(Value()), sends, now)
      ensures |nodes| == |old(nodes)| + 1 && fresh(nodes[|old(nodes)|]) && nodes == old(nodes) + [nodes[|old(nodes)|]]
    {
      hide Chain, Intervals;
      var bytes := if sends then bytesSentThisInterval else bytesReceivedThisInterval;
      var start := if intervalResults != null then endTime else startTime;
      endTime := now;
      AddToIntervalList(Interval(bytes, start, endTime));
      bytesSentThisInterval, bytesReceivedThisInterval := 0, 0;
    }
  }

  ghost function Values(streams: seq<Stream>): (s: seq<Figures>)
    reads streams
    ensures |s| == |streams|
  {
    seq(|streams|, k requires 0 <= k < |streams| reads streams => streams[k].Value())
  }

  /** The streams are different, their lists are in order, and their nodes are among `nodes`. */
  ghost predicate AllListed(streams: seq<Stream>, nodes: set<Node>)
    reads streams, nodes
  {
    && (forall j, k :: 0 <= j < k < |streams| ==> streams[j] != streams[k])
    && (forall k, i :: 0 <= k < |streams| && 0 <= i < |streams[k].nodes| ==> streams[k].nodes[i] in nodes)
    && forall k :: 0 <= k < |streams| ==> streams[k].Listed()
  }

  class Test {
    const sends: bool
    const numStreams: nat
    const bytes: nat
    const duration: nat
    const statsInterval: nat
    var state: int
    var streams: seq<Stream>
    var bytesMoved: nat
    var timer: Option<int>
    var statsTimer: Option<int>
    var iErrno: Error
    ghost var nodes: set<Node> // all intervals of all streams

    ghost predicate Valid()
      reads this, streams, nodes
    {
      AllListed(streams, nodes)
    }

    ghost function Value(): Client
      reads this, streams
    {
      Client(state, sends, numStreams, bytes, duration, statsInterval,
        Values(streams), bytesMoved, timer, statsTimer, iErrno)
    }

    constructor (sends: bool, numStreams: nat, bytes: nat, duration: nat, statsInterval: nat)
      ensures Valid() && Initial(Value()) && streams == [] && nodes == {}
    {
      this.sends, this.numStreams, this.bytes, this.duration, this.statsInterval :=
        sends, numStreams, bytes, duration, statsInterval;
      state, streams, bytesMoved, timer, statsTimer, iErrno, nodes := 0, [], 0, None, None, NoError, {};
    }

    /** iperf_run_client's loop, for as long as there is input. */
    method Run(inputs: seq<Input>) returns (ok: bool)
      requires Valid()
      modifies this, streams, nodes
      ensures Valid() && (Value(), ok) == ClientModel.Run(old(Value()), inputs)
      ensures ok && state == IPERF_DONE && old(Initial(Value()) && OrderlyRun(Value(), inputs)) ==>
                && |streams| == numStreams
                && forall k :: 0 <= k < |streams| ==>
                     streams[k].lastIntervalResults != null && Complete(streams[k].Value(), sends)
    {
      hide AllListed, Values, Turn, ClientModel.Run, OrderlyRun, Complete, Phase;
      ok := true;
      var n := 0;
      while n < |inputs| && state != IPERF_DONE
        invariant 0 <= n <= |inputs| && ok && Valid() && Fresher(old(streams), old(nodes))
        invariant ClientModel.Run(Value(), inputs[n..]) == ClientModel.Run(old(Value()), inputs)
        decreases |inputs| - n
      {
        RunStep(Value(), inputs, n);
        ok := TakeTurn(inputs[n]);
        n := n + 1;
        if !ok {
          break;
        }
      }
      RunEnds(Value(), inputs[n..]);
      if ok && state == IPERF_DONE && old(Initial(Value()) && OrderlyRun(Value(), inputs)) {
        DisplayedIsComplete(old(Value()), inputs);
        ListsHold(this);
      }
    }

    /** Streams and intervals are the ones from before, or new. */
    twostate predicate Fresher(new were: seq<Stream>, new had: set<Node>)
      reads this
    {
      && (forall k :: 0 <= k < |streams| ==> fresh(streams[k]) || streams[k] in were)
      && (forall n :: n in nodes ==> fresh(n) || n in had)
    }

    /** One pass through the loop. */
    method TakeTurn(i: Input) returns (ok: bool)
      requires Valid()
      modifies this, streams, nodes
      ensures Valid() && (Value(), ok) == Turn(old(Value()), i)
      ensures Fresher(old(streams), old(nodes))
    {
      hide AllListed, Values, Handled, Ran;
      if i.control.Failed? {
        iErrno := SelectFailed;
        return false;
      }
      if i.control.Nothing? {
        return true;
      }
      if !i.control.Quiet? {
        ok := HandleMessage(i);
        if !ok {
          return;
        }
      }
      ok := true;
      if state == TEST_RUNNING {
        ok := RunTest(i);
      }
    }

    /** The data of a turn, and the timers. */
    method RunTest(i: Input) returns (ok: bool)
      requires Valid()
      modifies this`nodes, this`state, this`bytesMoved, this`statsTimer, this`iErrno, streams, nodes
      ensures Valid() && (Value(), ok) == Ran(old(Value()), i)
      ensures fresh(nodes - old(nodes))
    {
      hide AllListed, Values, MovedUpTo, AllEnded, StatisticsTaken, Finished;
      if !i.selectOk {
        iErrno := SelectFailed;
        return false;
      }
      MoveData(i.ready);
      TakeStatistics(i);
      ok := FinishTest(i);
    }

    /** Ends the test if it is time to. */
    method FinishTest(i: Input) returns (ok: bool)
      requires Valid()
      modifies this`nodes, this`state, this`iErrno, streams, nodes
      ensures Valid() && (Value(), ok) == Finished(old(Value()), i)
      ensures fresh(nodes - old(nodes))
    {
      hide AllListed, Values, AllEnded;
      ok := true;
      if AllDataSent() || Expired(timer, i.timerNow) {
        EndIntervals(i.endClock);
        state := TEST_END;
        if !i.sentOk {
          iErrno := MessageUnsent;
          ok := false;
        }
      }
    }

    /** The periodic callback and its timer. */
    method TakeStatistics(i: Input)
      requires Valid()
      modifies this`nodes, this`statsTimer, streams, nodes
      ensures Valid() && Value() == StatisticsTaken(old(Value()), i)
      ensures fresh(nodes - old(nodes))
    {
      hide AllListed, Values, AllEnded;
      if Expired(statsTimer, i.statsNow) {
        EndIntervals(i.statsClock);
        statsTimer := Some(Micros(i.statsUpdate) + statsInterval);
      }
    }

    predicate AllDataSent()
      reads this
    {
      bytes > 0 && bytesMoved >= numStreams * bytes % WRAP
    }

    /** iperf_handle_message_client. */
    method HandleMessage(i: Input) returns (ok: bool)
      requires Valid() && (i.control.Message? || i.control.Closed? || i.control.Broken?)
      modifies this`state, this`streams, this`timer, this`statsTimer, this`iErrno, streams
      ensures Valid() && (i.control.Message? ==> (Value(), ok) == Handled(old(Value()), i))
      ensures !i.control.Message? ==> (Value(), ok) == Turn(old(Value()), i)
      ensures forall k :: 0 <= k < |streams| ==> fresh(streams[k]) || streams[k] in old(streams)
    {
      hide AllListed, Values, AllStarted, AllInformed;
      if !i.control.Message? {
        iErrno := if i.control.Closed? then ControlClosed else MessageUnread;
        return false;
      }
      ok := Obey(i);
    }

    /** The switch over the code that was read into the state. */
    method Obey(i: Input) returns (ok: bool)
      requires Valid() && i.control.Message?
      modifies this`state, this`streams, this`timer, this`statsTimer, this`iErrno, streams
      ensures Valid() && (Value(), ok) == Handled(old(Value()), i)
      ensures forall k :: 0 <= k < |streams| ==> fresh(streams[k]) || streams[k] in old(streams)
    {
      hide AllListed, Values, AllStarted, AllInformed;
      state := i.control.code;
      ok := true;
      if state == PARAM_EXCHANGE {
        ok := Check(i.sentOk);
      } else if state == CREATE_STREAMS {
        ok := CreateStreams(i.connected);
        ok := Check(ok);
      } else if state == TEST_START {
        InitTest(i);
      } else if state == EXCHANGE_RESULTS {
        InformStreams(i.results);
        ok := Check(i.resultsOk);
      } else if state == DISPLAY_RESULTS {
        state := IPERF_DONE;
        if !i.sentOk {
          iErrno := MessageUnsent;
        }
      } else if state != TEST_RUNNING && state != IPERF_DONE {
        iErrno := ErrorOf(state, i.serverError);
        ok := false;
      }
    }

    /** A step that fails has said why. */
    method Check(done: bool) returns (ok: bool)
      modifies this`iErrno
      ensures (Value(), ok) == Checked(old(Value()), done)
    {
      ok := done;
      if !done {
        iErrno := StepFailed;
      }
    }

    /** iperf_init_test. */
    method InitTest(i: Input)
      requires Valid()
      modifies this`timer, this`statsTimer, streams
      ensures Valid() && Value() == Initialized(old(Value()), i)
    {
      hide AllListed, Values, AllStarted;
      if bytes == 0 {
        timer := Some(Micros(i.timerStart) + duration * 1000000);
      }
      if statsInterval != 0 {
        statsTimer := Some(Micros(i.timerStart) + statsInterval);
      }
      StartStreams(i.startClock);
    }

    /** iperf_send, or in reverse mode iperf_recv. */
    method MoveData(ready: nat -> Option<int>)
      requires Valid()
      modifies this`bytesMoved, streams
      ensures Valid() && Value() == MovedUpTo(old(Value()), ready, |streams|)
    {
      hide AllListed, MovedOne, Values;
      for k := 0 to |streams|
        invariant Valid() && Value() == MovedUpTo(old(Value()), ready, k)
      {
        match ready(k) {
          case None =>
          case Some(result) => MoveOne(k, result);
        }
      }
    }

    method MoveOne(k: nat, result: int)
      requires Valid() && k < |streams|
      modifies this`bytesMoved, streams[k]
      ensures Valid() && Value() == MovedOne(old(Value()), k, result)
    {
      hide AllListed, Moved, Values, Stream.Listed, Stream.Value;
      ListedAt(streams, nodes, k);
      var r := streams[k].Move(sends, result);
      OneChanged(streams, nodes, k);
      var moved: nat := if r < 0 then WRAP - 1 else r % WRAP;
      bytesMoved := (bytesMoved + moved) % WRAP;
    }

    /** The start times of iperf_init_test. */
    method StartStreams(clock: nat -> Timeval)
      requires Valid()
      modifies streams
      ensures Valid() && Values(streams) == AllStarted(old(Values(streams)), clock)
    {
      hide AllListed, Values, Stream.Listed, Stream.Value;
      ghost var before := Values(streams);
      for k := 0 to |streams|
        invariant Valid()
        invariant forall j :: 0 <= j < |streams| ==>
                    Values(streams)[j] == if j < k then before[j].(startTime := clock(j)) else before[j]
      {
        StartOne(k, clock(k));
      }
      assert Values(streams) == AllStarted(before, clock);
    }

    method StartOne(k: nat, now: Timeval)
      requires Valid() && k < |streams|
      modifies streams[k]
      ensures Valid() && Values(streams) == old(Values(streams))[k := old(Values(streams)[k]).(startTime := now)]
    {
      hide AllListed, Values, Stream.Listed, Stream.Value;
      ListedAt(streams, nodes, k);
      streams[k].Start(now);
      OneChanged(streams, nodes, k);
    }

    /** What iperf_exchange_results changes in the streams. */
    method InformStreams(results: nat -> Option<nat>)
      requires Valid()
      modifies streams
      ensures Valid() && Values(streams) == AllInformed(old(Values(streams)), sends, results)
    {
      hide AllListed, Values, Stream.Listed, Stream.Value;
      ghost var before := Values(streams);
      for k := 0 to |streams|
        invariant Valid()
        invariant forall j :: 0 <= j < |streams| ==>
                    Values(streams)[j] == if j < k then Informed(before[j], sends, results(j)) else before[j]
      {
        InformOne(k, results(k));
      }
      assert Values(streams) == AllInformed(before, sends, results);
    }

    method InformOne(k: nat, bytes: Option<nat>)
      requires Valid() && k < |streams|
      modifies streams[k]
      ensures Valid() && Values(streams) == old(Values(streams))[k := Informed(old(Values(streams)[k]), sends, bytes)]
    {
      hide AllListed, Values, Stream.Listed, Stream.Value, Informed;
      ListedAt(streams, nodes, k);
      streams[k].Inform(sends, bytes);
      OneChanged(streams, nodes, k);
    }

    /** iperf_create_streams. */
    method CreateStreams(connected: nat) returns (ok: bool)
      requires Valid()
      modifies this`streams
      ensures Valid() && ok == (connected >= numStreams)
      ensures forall k :: 0 <= k < |streams| ==> fresh(streams[k]) || streams[k] in old(streams)
      ensures var created := if connected < numStreams then connected else numStreams;
              Values(streams) == old(Values(streams)) + seq(created, k => BLANK)
    {
      hide AllListed, Values, Stream.Listed, Stream.Value;
      ok := true;
      for i := 0 to numStreams
        invariant Valid() && i <= connected && ok
        invariant forall k :: 0 <= k < |streams| ==> fresh(streams[k]) || streams[k] in old(streams)
        invariant Values(streams) == old(Values(streams)) + seq(i, k => BLANK)
      {
        if i == connected {
          return false;
        }
        var sp := new Stream();
        StreamAdded(streams, nodes, sp);
        streams := streams + [sp];
      }
    }

    /** iperf_stats_callback. */
    method EndIntervals(clock: nat -> Timeval)
      requires Valid()
      modifies this`nodes, streams, nodes
      ensures Valid() && Values(streams) == AllEnded(old(Values(streams)), sends, clock)
      ensures fresh(nodes - old(nodes))
    {
      hide AllListed, IntervalEnded, Values;
      ghost var before := Values(streams);
      for k := 0 to |streams|
        invariant Valid() && fresh(nodes - old(nodes))
        invariant forall j :: 0 <= j < |streams| ==>
                    Values(streams)[j] == if j < k then IntervalEnded(before[j], sends, clock(j)) else before[j]
      {
        EndOne(k, clock(k));
      }
      assert Values(streams) == AllEnded(before, sends, clock);
    }

    method EndOne(k: nat, now: Timeval)
      requires Valid() && k < |streams|
      modifies this`nodes, streams[k], nodes
      ensures Valid()
      ensures Values(streams) == old(Values(streams))[k := IntervalEnded(old(Values(streams)[k]), sends, now)]
      ensures fresh(nodes - old(nodes))
    {
      hide Chain, IntervalEnded, Stream.Listed, Stream.Value, Intervals;
      EndAlone(k, now);
      nodes := nodes + {streams[k].nodes[|streams[k].nodes| - 1]};
    }

    /** The other streams keep their lists. */
    method EndAlone(k: nat, now: Timeval)
      requires Valid() && k < |streams|
      modifies streams[k], nodes
      ensures forall j :: 0 <= j < |streams| && j != k ==>
                streams[j].Listed() && streams[j].Value() == old(streams[j].Value()) &&
                streams[j].nodes == old(streams[j].nodes)
      ensures streams[k].Listed() && streams[k].Value() == IntervalEnded(old(streams[k].Value()), sends, now)
      ensures var n := |old(streams[k].nodes)|;
              |streams[k].nodes| == n + 1 && fresh(streams[k].nodes[n]) &&
              streams[k].nodes[..n] == old(streams[k].nodes)
    {
      Owned(streams, nodes, k);
      hide Chain, IntervalEnded, Stream.Listed, Stream.Value, Intervals;
      streams[k].EndInterval(sends, now);
    }
  }

  lemma RunStep(c: Client, inputs: seq<Input>, n: nat)
    requires n < |inputs| && c.state != IPERF_DONE
    ensures var turn := Turn(c, inputs[n]);
            ClientModel.Run(c, inputs[n..]) == if turn.1 then ClientModel.Run(turn.0, inputs[n + 1..]) else turn
  {
    hide Turn;
    assert inputs[n..][0] == inputs[n] && inputs[n..][1..] == inputs[n + 1..];
  }

  lemma RunEnds(c: Client, inputs: seq<Input>)
    ensures inputs == [] || c.state == IPERF_DONE ==> ClientModel.Run(c, inputs) == (c, true)
  {
    hide Turn;
  }

  /** Streams whose intervals are complete have a last interval. */
  lemma ListsHold(test: Test)
    requires test.Valid() && AllComplete(Values(test.streams), test.sends)
    ensures forall k :: 0 <= k < |test.streams| ==>
              test.streams[k].lastIntervalResults != null && Complete(test.streams[k].Value(), test.sends)
  {
    hide Chain;
    forall k | 0 <= k < |test.streams|
      ensures test.streams[k].lastIntervalResults != null && Complete(test.streams[k].Value(), test.sends)
    {
      assert Complete(Values(test.streams)[k], test.sends);
    }
  }

  lemma ListedAt(streams: seq<Stream>, nodes: set<Node>, k: nat)
    requires AllListed(streams, nodes) && k < |streams|
    ensures streams[k].Listed() && Values(streams)[k] == streams[k].Value()
  {
  }

  /** Stream k has changed, but not its list, and nothing else has. */
  twostate lemma OneChanged(new streams: seq<Stream>, new nodes: set<Node>, k: nat)
    requires old(allocated(streams)) && old(allocated(nodes))
    requires k < |streams| && old(AllListed(streams, nodes))
    requires forall j :: 0 <= j < |streams| && streams[j] != streams[k] ==> unchanged(streams[j])
    requires unchanged(nodes) && streams[k].Listed() && streams[k].nodes == old(streams[k].nodes)
    ensures AllListed(streams, nodes) && Values(streams) == old(Values(streams))[k := streams[k].Value()]
  {
    hide Chain, Intervals;
    forall j | 0 <= j < |streams| && j != k
      ensures streams[j].Listed() && streams[j].Value() == old(streams[j].Value())
    {
      assert unchanged(streams[j]);
    }
  }

  lemma StreamAdded(streams: seq<Stream>, nodes: set<Node>, sp: Stream)
    requires AllListed(streams, nodes) && sp !in streams && sp.Listed() && sp.nodes == []
    ensures AllListed(streams + [sp], nodes) && Values(streams + [sp]) == Values(streams) + [sp.Value()]
  {
    hide Chain, Intervals, Stream.Listed, Stream.Value;
  }

  /** No node of one stream is a node of another. */
  lemma Owned(streams: seq<Stream>, nodes: set<Node>, k: nat)
    requires AllListed(streams, nodes) && k < |streams|
    ensures forall j, i :: 0 <= j < |streams| && j != k && 0 <= i < |streams[j].nodes| ==>
              streams[j].nodes[i] !in streams[k].nodes
  {
    forall j, i | 0 <= j < |streams| && j != k && 0 <= i < |streams[j].nodes|
      ensures streams[j].nodes[i] !in streams[k].nodes
    {
      assert streams[j].nodes[i].owner == streams[j];
    }
  }
}