/**
 The client's side of a measurement, turn by turn of its main loop: control messages from the server, the bytes moved on
 each stream, the intervals they are counted in, and the end of the test.
 */
module ClientModel {
  import opened Options
  import opened Timers

  const TEST_START := 1
  const TEST_RUNNING := 2
  const TEST_END := 4
  const PARAM_EXCHANGE := 9
  const CREATE_STREAMS := 10
  const SERVER_TERMINATE := 11
  const EXCHANGE_RESULTS := 13
  const DISPLAY_RESULTS := 14
  const IPERF_DONE := 16
  const ACCESS_DENIED := -1
  const SERVER_ERROR := -2

  const WRAP := 0x1_0000_0000_0000_0000 // one more than the largest unsigned 64-bit number

  // ---------- One stream ----------

  datatype Interval = Interval(bytes: nat, start: Timeval, end: Timeval)

  datatype Figures = Figures(
    bytesSent: nat,
    bytesReceived: nat,
    bytesSentThisInterval: nat,
    bytesReceivedThisInterval: nat,
    startTime: Timeval,
    endTime: Timeval,
    intervals: seq<Interval>
  )

  const BLANK := Figures(0, 0, 0, 0, Timeval(0, 0), Timeval(0, 0), [])

  /** What the client counts: the bytes it sends, or in reverse mode those it receives. */
  function Total(f: Figures, sends: bool): nat {
    if sends then f.bytesSent else f.bytesReceived
  }

  function ThisInterval(f: Figures, sends: bool): nat {
    if sends then f.bytesSentThisInterval else f.bytesReceivedThisInterval
  }

  /** One send or receive; `result` is the number of bytes, or negative for a failure. */
  function Moved(f: Figures, sends: bool, result: int): Figures {
    if result < 0 then f
    else if sends then
      f.(bytesSent := f.bytesSent + result, bytesSentThisInterval := f.bytesSentThisInterval + result)
    else
      f.(bytesReceived := f.bytesReceived + result, bytesReceivedThisInterval := f.bytesReceivedThisInterval + result)
  }

  /** The interval since the last one, or since the start, ends now. */
  function IntervalEnded(f: Figures, sends: bool, now: Timeval): Figures {
    var interval := Interval(ThisInterval(f, sends), if f.intervals == [] then f.startTime else f.endTime, now);
    f.(intervals := f.intervals + [interval], endTime := now,
       bytesSentThisInterval := 0, bytesReceivedThisInterval := 0)
  }

  /** The other side's count, if it sent one, of the bytes that this side does not count itself. */
  function Informed(f: Figures, sends: bool, bytes: Option<nat>): Figures {
    if bytes == None then f
    else if sends then f.(bytesReceived := bytes.value) else f.(bytesSent := bytes.value)
  }

  // ---------- The client ----------

  datatype Client = Client(
    state: int,
    sends: bool,                // not in reverse mode
    numStreams: nat,
    bytes: nat,                 // how much to move on each stream; 0 if the time is limited instead
    duration: nat,              // in seconds
    statsInterval: nat,         // in microseconds; 0 for none
    streams: seq<Figures>,
    bytesMoved: nat,            // test->bytes_sent, which counts received bytes in reverse mode
    timer: Option<int>,         // when the timers expire, in microseconds
    statsTimer: Option<int>,
    error: Error                // i_errno
  )

  /** Why a run ended, as far as the main loop and the message handler say it themselves. */
  datatype Error =
    | NoError
    | SelectFailed            // IESELECT
    | ControlClosed           // IECTRLCLOSE
    | MessageUnread           // IERECVMESSAGE
    | MessageUnsent           // IESENDMESSAGE
    | ServerTerminated        // IESERVERTERM
    | AccessDenied            // IEACCESSDENIED
    | UnknownMessage          // IEMESSAGE
    | ServerError(code: int)  // what the server sends behind SERVER_ERROR
    | StepFailed              // set by the step that a message asked for

  type Byte = x: int | 0 <= x < 256

  /**
   What the wait for sockets brings: an error, nothing in time, only streams that are ready, or also the server, which
   may have closed the connection.
   */
  datatype Control = Failed | Nothing | Quiet | Closed | Broken | Message(code: Byte)

  /** What one turn of the loop meets. Clock readings and results are given for each stream. */
  datatype Input = Input(
    control: Control,
    sentOk: bool,                      // whether a message to the server could be written
    connected: nat,                    // how many of the streams could be connected
    startClock: nat -> Timeval,
    timerStart: Timeval,
    results: nat -> Option<nat>,       // what the server reports for each stream
    resultsOk: bool,
    serverError: int,
    selectOk: bool,
    ready: nat -> Option<int>,         // for each stream that is ready, the result of the send or receive
    statsNow: Timeval,
    statsClock: nat -> Timeval,
    statsUpdate: Timeval,
    timerNow: Timeval,
    endClock: nat -> Timeval
  )

  function AllEnded(streams: seq<Figures>, sends: bool, clock: nat -> Timeval): seq<Figures> {
    seq(|streams|, k requires 0 <= k < |streams| => IntervalEnded(streams[k], sends, clock(k)))
  }

  function AllStarted(streams: seq<Figures>, clock: nat -> Timeval): seq<Figures> {
    seq(|streams|, k requires 0 <= k < |streams| => streams[k].(startTime := clock(k)))
  }

  function AllInformed(streams: seq<Figures>, sends: bool, results: nat -> Option<nat>): seq<Figures> {
    seq(|streams|, k requires 0 <= k < |streams| => Informed(streams[k], sends, results(k)))
  }

  /** A result as the unsigned 64-bit number that is added to the total: a failure is the largest one. */
  function Added(result: int): nat {
    if result < 0 then WRAP - 1 else result % WRAP
  }

  /** Stream k has sent or received, or failed to. */
  function MovedOne(c: Client, k: nat, result: int): Client
    requires k < |c.streams|
  {
    c.(streams := c.streams[k := Moved(c.streams[k], c.sends, result)],
       bytesMoved := (c.bytesMoved + Added(result)) % WRAP)
  }

  /** The first k streams have moved what they were ready for. */
  function MovedUpTo(c: Client, ready: nat -> Option<int>, k: nat): (r: Client)
    requires k <= |c.streams|
    ensures |r.streams| == |c.streams| && r == c.(streams := r.streams, bytesMoved := r.bytesMoved)
    ensures forall j :: k <= j < |c.streams| ==> r.streams[j] == c.streams[j]
  {
    if k == 0 then c
    else
      var before := MovedUpTo(c, ready, k - 1);
      match ready(k - 1)
      case None => before
      case Some(result) =>
        MovedOne(before, k - 1, result)
  }

  function Expired(timer: Option<int>, now: Timeval): bool {
    timer.Some? && Micros(now) > timer.value
  }

  function AllDataMoved(c: Client): bool {
    c.bytes > 0 && c.bytesMoved >= c.numStreams * c.bytes % WRAP
  }

  /** iperf_init_test. */
  function Initialized(c: Client, i: Input): Client {
    c.(timer := if c.bytes == 0 then Some(Micros(i.timerStart) + c.duration * 1000000) else c.timer,
       statsTimer := if c.statsInterval != 0 then Some(Micros(i.timerStart) + c.statsInterval) else c.statsTimer,
       streams := AllStarted(c.streams, i.startClock))
  }

  /** iperf_handle_message_client: the code of the message becomes the state. Returns whether the loop goes on. */
  function Handled(c: Client, i: Input): (Client, bool)
    requires i.control.Message?
  {
    var c := c.(state := i.control.code);
    if c.state == PARAM_EXCHANGE then Checked(c, i.sentOk)
    else if c.state == CREATE_STREAMS then
      var created := if i.connected < c.numStreams then i.connected else c.numStreams;
      Checked(c.(streams := c.streams + seq(created, k => BLANK)), i.connected >= c.numStreams)
    else if c.state == TEST_START then (Initialized(c, i), true)
    else if c.state == TEST_RUNNING then (c, true)
    else if c.state == EXCHANGE_RESULTS then
      Checked(c.(streams := AllInformed(c.streams, c.sends, i.results)), i.resultsOk)
    else if c.state == DISPLAY_RESULTS then
      (c.(state := IPERF_DONE, error := if i.sentOk then c.error else MessageUnsent), true)
    else if c.state == IPERF_DONE then (c, true)
    else (c.(error := ErrorOf(c.state, i.serverError)), false)
  }

  /** The cases of the handler's switch that end the run. */
  function ErrorOf(state: int, serverError: int): Error {
    if state == SERVER_TERMINATE then ServerTerminated
    else if state == ACCESS_DENIED then AccessDenied
    else if state == SERVER_ERROR then ServerError(serverError)
    else UnknownMessage
  }

  function Checked(c: Client, ok: bool): (Client, bool) {
    if ok then (c, true) else (c.(error := StepFailed), false)
  }

  /** The periodic end of an interval, if it is time for it. */
  function StatisticsTaken(c: Client, i: Input): Client {
    if !Expired(c.statsTimer, i.statsNow) then c
    else c.(streams := AllEnded(c.streams, c.sends, i.statsClock),
            statsTimer := Some(Micros(i.statsUpdate) + c.statsInterval))
  }

  /** The part of a turn in which data is moved, intervals end, and the test may end. */
  function Ran(c: Client, i: Input): (Client, bool) {
    if !i.selectOk then (c.(error := SelectFailed), false)
    else
      Finished(StatisticsTaken(MovedUpTo(c, i.ready, |c.streams|), i), i)
  }

  /** The end of the test, if all data has been moved or the time is over. */
  function Finished(c: Client, i: Input): (Client, bool) {
    if AllDataMoved(c) || Expired(c.timer, i.timerNow) then
      var ended := c.(streams := AllEnded(c.streams, c.sends, i.endClock), state := TEST_END);
      if i.sentOk then (ended, true) else (ended.(error := MessageUnsent), false)
    else (c, true)
  }

  /** One turn of iperf_run_client. */
  function Turn(c: Client, i: Input): (Client, bool) {
    if i.control.Failed? then (c.(error := SelectFailed), false)
    else if i.control.Closed? then (c.(error := ControlClosed), false)
    else if i.control.Broken? then (c.(error := MessageUnread), false)
    else if i.control.Nothing? then (c, true)
    else
      var handled := if i.control.Message? then Handled(c, i) else (c, true);
      if handled.1 && handled.0.state == TEST_RUNNING then Ran(handled.0, i) else handled
  }

  /** The loop, for as long as there is input. */
  function Run(c: Client, inputs: seq<Input>): (Client, bool)
    decreases |inputs|
  {
    if inputs == [] || c.state == IPERF_DONE then (c, true)
    else
      var turn := Turn(c, inputs[0]);
      if turn.1 then Run(turn.0, inputs[1..]) else turn
  }

  // ---------- Which messages the client understands ----------

  /** The codes that the message handler's switch names and a byte can hold. */
  predicate Named(code: int) {
    code in {PARAM_EXCHANGE, CREATE_STREAMS, TEST_START, TEST_RUNNING,
             EXCHANGE_RESULTS, DISPLAY_RESULTS, IPERF_DONE, SERVER_TERMINATE}
  }

  /** What is left of a code when it is sent as one byte. */
  function LowByte(code: int): Byte {
    code % 256
  }

  /**
   The client has displayed the results, but could not tell the server that it is done: this does not end the run
   early.
   */
  predicate DoneUnsent(c: Client) {
    c.state == IPERF_DONE && c.error == MessageUnsent
  }

  /**
   A message is unknown exactly if the switch does not name its code, and it is never taken for a denial or an error of
   the server: these have negative codes, and the code is read into the low byte of the state.
   */
  lemma MessageErrors(c: Client, i: Input)
    requires i.control.Message? && c.error == NoError
    ensures
      var (h, goesOn) := Handled(c, i);
      && (h.error == UnknownMessage <==> !Named(i.control.code))
      && (h.error == ServerTerminated <==> i.control.code == SERVER_TERMINATE)
      && h.error != AccessDenied && !h.error.ServerError?
      && (goesOn <==> h.error == NoError || DoneUnsent(h))
  {
    hide AllStarted, AllInformed;
  }

  /** A client that cannot tell the server that it is done ends its loop normally, but with an error set. */
  lemma UnsentDoneIsNoFailure(c: Client, i: Input, rest: seq<Input>)
    requires c.state != IPERF_DONE && i.control == Message(DISPLAY_RESULTS) && !i.sentOk
    ensures Run(c, [i] + rest) == (c.(state := IPERF_DONE, error := MessageUnsent), true)
  {
    assert ([i] + rest)[1..] == rest;
  }

  /** So a client that is denied access, or hears of an error, ends with an unknown message. */
  lemma DenialIsUnknown(c: Client, i: Input, status: int)
    requires status in {ACCESS_DENIED, SERVER_ERROR} && i.control == Message(LowByte(status)) && c.error == NoError
    ensures Turn(c, i) == (c.(state := 256 + status, error := UnknownMessage), false)
  {
  }

  /** Over any run. */
  lemma {:induction false} DenialIsNeverReported(c: Client, inputs: seq<Input>)
    requires c.error == NoError
    ensures Run(c, inputs).0.error != AccessDenied && !Run(c, inputs).0.error.ServerError?
    ensures Run(c, inputs).1 <==> Run(c, inputs).0.error == NoError || DoneUnsent(Run(c, inputs).0)
    decreases |inputs|
  {
    hide Turn;
    if inputs != [] && c.state != IPERF_DONE {
      TurnErrors(c, inputs[0]);
      if Turn(c, inputs[0]).1 && Turn(c, inputs[0]).0.state != IPERF_DONE {
        DenialIsNeverReported(Turn(c, inputs[0]).0, inputs[1..]);
      }
    }
  }

  lemma TurnErrors(c: Client, i: Input)
    requires c.error == NoError
    ensures
      var (next, goesOn) := Turn(c, i);
      next.error != AccessDenied && !next.error.ServerError? && (goesOn <==> next.error == NoError || DoneUnsent(next))
  {
    hide Handled, MovedUpTo, AllEnded;
    if i.control.Message? {
      MessageErrors(c, i);
    }
  }

  // ---------- Intervals tile the test and hold all its bytes ----------

  function SumBytes(intervals: seq<Interval>): nat {
    if intervals == [] then 0 else SumBytes(intervals[..|intervals| - 1]) + intervals[|intervals| - 1].bytes
  }

  ghost predicate Tiled(f: Figures) {
    && (f.intervals != [] ==> f.intervals[0].start == f.startTime && f.intervals[|f.intervals| - 1].end == f.endTime)
    && forall i :: 0 < i < |f.intervals| ==> f.intervals[i].start == f.intervals[i - 1].end
  }

  ghost predicate Accounted(f: Figures, sends: bool) {
    Tiled(f) && SumBytes(f.intervals) + ThisInterval(f, sends) == Total(f, sends)
  }

  /** The intervals hold the stream's whole measurement. */
  ghost predicate Complete(f: Figures, sends: bool) {
    f.intervals != [] && Tiled(f) && SumBytes(f.intervals) == Total(f, sends) && ThisInterval(f, sends) == 0
  }

  lemma MovedAccounted(f: Figures, sends: bool, result: int)
    requires Accounted(f, sends)
    ensures Accounted(Moved(f, sends, result), sends)
  {
  }

  lemma EndedComplete(f: Figures, sends: bool, now: Timeval)
    requires Accounted(f, sends)
    ensures Complete(IntervalEnded(f, sends, now), sends)
  {
    var g := IntervalEnded(f, sends, now);
    assert g.intervals[..|f.intervals|] == f.intervals;
  }

  lemma InformedComplete(f: Figures, sends: bool, bytes: Option<nat>)
    requires Complete(f, sends)
    ensures Complete(Informed(f, sends, bytes), sends)
  {
  }

  lemma {:induction false} MovedEach(c: Client, ready: nat -> Option<int>, k: nat)
    requires k <= |c.streams|
    ensures forall j :: 0 <= j < k ==>
              MovedUpTo(c, ready, k).streams[j] ==
              if ready(j).Some? then Moved(c.streams[j], c.sends, ready(j).value) else c.streams[j]
  {
    hide Moved;
    if k > 0 {
      MovedEach(c, ready, k - 1);
    }
  }

  /** A message that the server may send in this state; one with no meaning ends the run. */
  predicate InOrder(state: int, code: int) {
    || (state == 0 && code == PARAM_EXCHANGE)
    || (state == PARAM_EXCHANGE && code == CREATE_STREAMS)
    || (state == CREATE_STREAMS && code == TEST_START)
    || (state == TEST_START && code == TEST_RUNNING)
    || (state == TEST_END && code == EXCHANGE_RESULTS)
    || (state == EXCHANGE_RESULTS && code == DISPLAY_RESULTS)
    || code !in {PARAM_EXCHANGE, CREATE_STREAMS, TEST_START, TEST_RUNNING, TEST_END,
                 EXCHANGE_RESULTS, DISPLAY_RESULTS, IPERF_DONE}
  }

  predicate Orderly(c: Client, i: Input) {
    i.control.Message? ==> InOrder(c.state, i.control.code)
  }

  ghost predicate OrderlyRun(c: Client, inputs: seq<Input>)
    decreases |inputs|
  {
    inputs == [] || c.state == IPERF_DONE ||
    (Orderly(c, inputs[0]) && (Turn(c, inputs[0]).1 ==> OrderlyRun(Turn(c, inputs[0]).0, inputs[1..])))
  }

  ghost predicate Untouched(f: Figures) {
    f == BLANK.(startTime := f.startTime)
  }

  /** What holds in each state of an orderly run. */
  ghost predicate Phase(c: Client) {
    && (c.state in {CREATE_STREAMS, TEST_START, TEST_RUNNING, TEST_END, EXCHANGE_RESULTS, IPERF_DONE} ==>
          |c.streams| == c.numStreams)
    && (c.state in {0, PARAM_EXCHANGE} ==> c.streams == [])
    && (c.state in {0, PARAM_EXCHANGE, CREATE_STREAMS} ==> c.timer == None)
    && (c.state in {0, PARAM_EXCHANGE, CREATE_STREAMS, TEST_START} ==> c.bytesMoved == 0)
    && (c.state in {TEST_START, TEST_RUNNING} ==> (c.timer == None <==> c.bytes > 0))
    && (c.state in {CREATE_STREAMS, TEST_START} ==> AllUntouched(c.streams))
    && (c.state == TEST_RUNNING ==> AllAccounted(c.streams, c.sends))
    && (c.state in {TEST_END, EXCHANGE_RESULTS, IPERF_DONE} ==> AllComplete(c.streams, c.sends))
  }

  ghost predicate AllUntouched(streams: seq<Figures>) {
    forall k :: 0 <= k < |streams| ==> Untouched(streams[k])
  }

  ghost predicate AllAccounted(streams: seq<Figures>, sends: bool) {
    forall k :: 0 <= k < |streams| ==> Accounted(streams[k], sends)
  }

  ghost predicate AllComplete(streams: seq<Figures>, sends: bool) {
    forall k :: 0 <= k < |streams| ==> Complete(streams[k], sends)
  }

  ghost predicate Initial(c: Client) {
    c.state == 0 && Phase(c)
  }

  lemma UntouchedAccounted(streams: seq<Figures>, sends: bool)
    requires AllUntouched(streams)
    ensures AllAccounted(streams, sends)
  {
  }

  lemma MovedAllAccounted(c: Client, ready: nat -> Option<int>)
    requires AllAccounted(c.streams, c.sends)
    ensures AllAccounted(MovedUpTo(c, ready, |c.streams|).streams, c.sends)
  {
    MovedEach(c, ready, |c.streams|);
    forall k | 0 <= k < |c.streams| ensures Accounted(MovedUpTo(c, ready, |c.streams|).streams[k], c.sends) {
      if ready(k).Some? {
        MovedAccounted(c.streams[k], c.sends, ready(k).value);
      }
    }
  }

  lemma AllEndedComplete(streams: seq<Figures>, sends: bool, clock: nat -> Timeval)
    requires AllAccounted(streams, sends)
    ensures AllComplete(AllEnded(streams, sends, clock), sends) && AllAccounted(AllEnded(streams, sends, clock), sends)
  {
    forall k | 0 <= k < |streams|
      ensures Complete(AllEnded(streams, sends, clock)[k], sends)
      ensures Accounted(AllEnded(streams, sends, clock)[k], sends)
    {
      EndedComplete(streams[k], sends, clock(k));
    }
  }

  lemma AllInformedComplete(streams: seq<Figures>, sends: bool, results: nat -> Option<nat>)
    requires AllComplete(streams, sends)
    ensures AllComplete(AllInformed(streams, sends, results), sends)
  {
    forall k | 0 <= k < |streams| ensures Complete(AllInformed(streams, sends, results)[k], sends) {
      InformedComplete(streams[k], sends, results(k));
    }
  }

  lemma HandledKeepsPhase(c: Client, i: Input)
    requires Phase(c) && i.control.Message? && Orderly(c, i) && Handled(c, i).1
    ensures Phase(Handled(c, i).0)
  {
    var code := i.control.code;
    if code == TEST_RUNNING {
      UntouchedAccounted(c.streams, c.sends);
    } else if code == EXCHANGE_RESULTS {
      AllInformedComplete(c.streams, c.sends, i.results);
    }
    hide Accounted, Complete, AllAccounted, AllComplete, Informed, AllInformed;
  }

  /**
   When results are exchanged, a client that sends takes over the number of bytes that the server says it received, and
   one that receives the number that the server says it sent; its own count stays.
   */
  lemma ResultsComeFromTheServer(c: Client, i: Input, k: nat)
    requires i.control == Message(EXCHANGE_RESULTS) && k < |c.streams|
    ensures
      var next := Turn(c, i).0;
      && |next.streams| == |c.streams|
      && var f, g := c.streams[k], next.streams[k];
      && (c.sends || i.results(k) == None ==> g.bytesSent == f.bytesSent)
      && (!c.sends || i.results(k) == None ==> g.bytesReceived == f.bytesReceived)
      && (i.results(k).Some? ==> (if c.sends then g.bytesReceived else g.bytesSent) == i.results(k).value)
  {
    var d := c.(state := EXCHANGE_RESULTS);
    assert AllInformed(d.streams, d.sends, i.results)[k] == Informed(c.streams[k], c.sends, i.results(k));
    hide AllStarted, Ran;
  }

  lemma RanKeepsPhase(c: Client, i: Input)
    requires Phase(c) && c.state == TEST_RUNNING
    ensures Phase(Ran(c, i).0)
  {
    hide Accounted, Complete, AllAccounted, AllComplete, MovedUpTo, AllEnded;
    var moved := MovedUpTo(c, i.ready, |c.streams|);
    MovedAllAccounted(c, i.ready);
    AllEndedComplete(moved.streams, c.sends, i.statsClock);
    AllEndedComplete(moved.streams, c.sends, i.endClock);
    AllEndedComplete(AllEnded(moved.streams, c.sends, i.statsClock), c.sends, i.endClock);
    EndedSize(moved.streams, c.sends, i.statsClock);
    EndedSize(moved.streams, c.sends, i.endClock);
    EndedSize(AllEnded(moved.streams, c.sends, i.statsClock), c.sends, i.endClock);
  }

  lemma EndedSize(streams: seq<Figures>, sends: bool, clock: nat -> Timeval)
    ensures |AllEnded(streams, sends, clock)| == |streams|
  {
  }

  lemma TurnKeepsPhase(c: Client, i: Input)
    requires Phase(c) && Orderly(c, i) && Turn(c, i).1
    ensures Phase(Turn(c, i).0)
  {
    hide Phase, Handled, Ran;
    if i.control.Message? {
      HandledKeepsPhase(c, i);
    }
    var handled := if i.control.Message? then Handled(c, i) else (c, true);
    if i.control.Message? || i.control.Quiet? {
      if handled.0.state == TEST_RUNNING {
        RanKeepsPhase(handled.0, i);
      }
    }
  }

  lemma {:induction false} RunKeepsPhase(c: Client, inputs: seq<Input>)
    requires Phase(c) && OrderlyRun(c, inputs) && Run(c, inputs).1
    ensures Phase(Run(c, inputs).0)
    decreases |inputs|
  {
    if inputs != [] && c.state != IPERF_DONE {
      TurnKeepsPhase(c, inputs[0]);
      RunKeepsPhase(Turn(c, inputs[0]).0, inputs[1..]);
    }
  }

  /**
   When the results are displayed, each stream's intervals run on from its start to its end and hold all its bytes.
   */
  lemma DisplayedIsComplete(c: Client, inputs: seq<Input>)
    requires Initial(c) && OrderlyRun(c, inputs) && Run(c, inputs).1 && Run(c, inputs).0.state == IPERF_DONE
    ensures var end := Run(c, inputs).0; |end.streams| == end.numStreams && AllComplete(end.streams, end.sends)
  {
    RunKeepsPhase(c, inputs);
  }

  /** A turn that only brings a message. */
  function Told(code: Byte): Input {
    var clock := (k: nat) => Timeval(0, 0);
    Input(Message(code), true, 1, clock, Timeval(0, 0), (k: nat) => None, true, 0, true, (k: nat) => None,
          Timeval(0, 0), clock, Timeval(0, 0), Timeval(0, 0), clock)
  }

  lemma OneTurn(c: Client, i: Input, rest: seq<Input>)
    requires c.state != IPERF_DONE && Orderly(c, i) && Turn(c, i).1 && OrderlyRun(Turn(c, i).0, rest)
    ensures OrderlyRun(c, [i] + rest) && Run(c, [i] + rest) == Run(Turn(c, i).0, rest)
  {
    assert ([i] + rest)[1..] == rest;
  }

  /** What the client is after such a turn, apart from its streams. */
  lemma ToldTurn(c: Client, code: Byte)
    requires code in {PARAM_EXCHANGE, CREATE_STREAMS, EXCHANGE_RESULTS, DISPLAY_RESULTS}
    ensures var (next, goesOn) := Turn(c, Told(code).(connected := c.numStreams));
            goesOn && next == c.(state := if code == DISPLAY_RESULTS then IPERF_DONE else code, streams := next.streams)
  {
    hide Ran, AllStarted, AllInformed, Initialized;
  }

  lemma StartTurn(c: Client, i: Input)
    requires i.control == Message(TEST_START) && i.timerStart == Timeval(0, 0)
    requires c.bytes == 0 && c.duration == 0 && c.statsInterval == 0
    ensures
      Turn(c, i)
      == (c.(state := TEST_START, timer := Some(0), streams := AllStarted(c.streams, i.startClock)), true)
  {
    hide Ran, AllStarted, AllInformed, Initialized;
    var begun := c.(state := TEST_START);
    assert Handled(c, i) == (Initialized(begun, i), true);
    AtOnce(begun, i);
  }

  lemma AtOnce(c: Client, i: Input)
    requires i.timerStart == Timeval(0, 0) && c.bytes == 0 && c.duration == 0 && c.statsInterval == 0
    ensures Initialized(c, i) == c.(timer := Some(0), streams := AllStarted(c.streams, i.startClock))
  {
    hide AllStarted;
  }

  lemma LastTurn(c: Client)
    requires c.bytes == 0 && c.timer == Some(0) && c.statsTimer == None
    ensures var next := Turn(c, Told(TEST_RUNNING).(timerNow := Timeval(0, 1))); next.1 && next.0.state == TEST_END
  {
    hide AllEnded;
    var i := Told(TEST_RUNNING).(timerNow := Timeval(0, 1));
    QuietMove(c.(state := TEST_RUNNING), i.ready, |c.streams|);
  }

  /** There are such runs, with any number of streams. */
  lemma OrderlyRunsExist(n: nat) returns (c: Client, inputs: seq<Input>)
    ensures Initial(c) && c.numStreams == n && OrderlyRun(c, inputs)
    ensures Run(c, inputs).1 && Run(c, inputs).0.state == IPERF_DONE
  {
    c := Client(0, true, n, 0, 0, 0, [], 0, None, None, NoError);
    assert Initial(c);
    hide Turn, Told, Phase, Initial;
    var i1, i2, i3 := Told(PARAM_EXCHANGE).(connected := n), Told(CREATE_STREAMS).(connected := n),
      Told(TEST_START).(connected := n);
    var i4 := Told(TEST_RUNNING).(timerNow := Timeval(0, 1));
    var i5, i6 := Told(EXCHANGE_RESULTS).(connected := n), Told(DISPLAY_RESULTS).(connected := n);
    TellsCode();
    ToldTurn(c, PARAM_EXCHANGE);
    var c1 := Turn(c, i1).0;
    ToldTurn(c1, CREATE_STREAMS);
    var c2 := Turn(c1, i2).0;
    StartTurn(c2, i3);
    var c3 := Turn(c2, i3).0;
    LastTurn(c3);
    var c4 := Turn(c3, i4).0;
    TurnSends(c3, i4);
    ToldTurn(c4, EXCHANGE_RESULTS);
    var c5 := Turn(c4, i5).0;
    ToldTurn(c5, DISPLAY_RESULTS);
    OneTurn(c5, i6, []);
    OneTurn(c4, i5, [i6] + []);
    OneTurn(c3, i4, [i5] + ([i6] + []));
    OneTurn(c2, i3, [i4] + ([i5] + ([i6] + [])));
    OneTurn(c1, i2, [i3] + ([i4] + ([i5] + ([i6] + []))));
    OneTurn(c, i1, [i2] + ([i3] + ([i4] + ([i5] + ([i6] + [])))));
    inputs := [i1] + ([i2] + ([i3] + ([i4] + ([i5] + ([i6] + [])))));
  }

  lemma TellsCode()
    ensures forall code: Byte :: Told(code).control == Message(code) && Told(code).timerStart == Timeval(0, 0)
  {
  }

  lemma {:induction false} QuietMove(c: Client, ready: nat -> Option<int>, k: nat)
    requires k <= |c.streams| && forall j: nat :: ready(j) == None
    ensures MovedUpTo(c, ready, k) == c
  {
    if k > 0 {
      QuietMove(c, ready, k - 1);
    }
  }

  // ---------- Results that are asked for at any time ----------

  /** The messages that set up the test come in their order; those about results may come at any time. */
  predicate SetUpInOrder(c: Client, i: Input) {
    i.control.Message? ==>
      && (i.control.code == PARAM_EXCHANGE ==> c.state == 0)
      && (i.control.code == CREATE_STREAMS ==> c.state == PARAM_EXCHANGE)
      && (i.control.code == TEST_START ==> c.state == CREATE_STREAMS)
      && (i.control.code == TEST_RUNNING ==> c.state == TEST_START)
  }

  ghost predicate SetUpRun(c: Client, inputs: seq<Input>)
    decreases |inputs|
  {
    inputs == [] || c.state == IPERF_DONE ||
    (SetUpInOrder(c, inputs[0]) && (Turn(c, inputs[0]).1 ==> SetUpRun(Turn(c, inputs[0]).0, inputs[1..])))
  }

  /** The message tells the client to stop measuring. */
  predicate Asks(i: Input) {
    i.control.Message? && i.control.code in {EXCHANGE_RESULTS, DISPLAY_RESULTS, IPERF_DONE}
  }

  /** The client as it is when results are first asked for. */
  function WhenAsked(c: Client, inputs: seq<Input>): Client
    decreases |inputs|
  {
    if inputs == [] || c.state == IPERF_DONE || Asks(inputs[0]) || !Turn(c, inputs[0]).1 then c
    else WhenAsked(Turn(c, inputs[0]).0, inputs[1..])
  }

  /** Each stream has an interval and has moved nothing since its last one. */
  ghost predicate AllSettled(streams: seq<Figures>, sends: bool) {
    forall k :: 0 <= k < |streams| ==> streams[k].intervals != [] && ThisInterval(streams[k], sends) == 0
  }

  lemma CompleteIsSettled(streams: seq<Figures>, sends: bool)
    requires AllAccounted(streams, sends)
    ensures AllComplete(streams, sends) <==> AllSettled(streams, sends)
  {
    forall k | 0 <= k < |streams|
      ensures Complete(streams[k], sends) <==> streams[k].intervals != [] && ThisInterval(streams[k], sends) == 0
    {
      assert Accounted(streams[k], sends);
    }
  }

  /** What holds in every state when the set-up was in order. */
  ghost predicate Kept(c: Client) {
    && AllAccounted(c.streams, c.sends)
    && (c.state in {0, PARAM_EXCHANGE} ==> c.streams == [])
    && (c.state in {CREATE_STREAMS, TEST_START} ==> AllUntouched(c.streams))
    && (c.state == TEST_END ==> AllSettled(c.streams, c.sends))
  }

  lemma InformedSettled(streams: seq<Figures>, sends: bool, results: nat -> Option<nat>)
    requires AllAccounted(streams, sends)
    ensures AllAccounted(AllInformed(streams, sends, results), sends)
    ensures AllSettled(AllInformed(streams, sends, results), sends) <==> AllSettled(streams, sends)
  {
    var informed := AllInformed(streams, sends, results);
    forall k | 0 <= k < |streams|
      ensures Accounted(informed[k], sends) && informed[k].intervals == streams[k].intervals
      ensures ThisInterval(informed[k], sends) == ThisInterval(streams[k], sends)
    {
      assert informed[k] == Informed(streams[k], sends, results(k)) && Accounted(streams[k], sends);
    }
  }

  lemma HandledKept(c: Client, i: Input)
    requires Kept(c) && i.control.Message? && SetUpInOrder(c, i) && Handled(c, i).1
    ensures Kept(Handled(c, i).0)
  {
    hide Accounted, AllAccounted, AllSettled, AllInformed;
    InformedSettled(c.streams, c.sends, i.results);
    var h := Handled(c, i).0;
    if h.state in {CREATE_STREAMS, TEST_START} {
      assert AllUntouched(h.streams);
      UntouchedAccounted(h.streams, c.sends);
    }
  }

  lemma RanKept(c: Client, i: Input)
    requires Kept(c) && c.state == TEST_RUNNING
    ensures Kept(Ran(c, i).0)
  {
    hide Accounted, Complete, AllAccounted, AllComplete, AllSettled, MovedUpTo, AllEnded;
    var moved := MovedUpTo(c, i.ready, |c.streams|);
    MovedAllAccounted(c, i.ready);
    AllEndedComplete(moved.streams, c.sends, i.statsClock);
    AllEndedComplete(moved.streams, c.sends, i.endClock);
    CompleteIsSettled(AllEnded(moved.streams, c.sends, i.endClock), c.sends);
    var ended := AllEnded(moved.streams, c.sends, i.statsClock);
    AllEndedComplete(ended, c.sends, i.endClock);
    CompleteIsSettled(AllEnded(ended, c.sends, i.endClock), c.sends);
  }

  lemma TurnKept(c: Client, i: Input)
    requires Kept(c) && SetUpInOrder(c, i) && Turn(c, i).1
    ensures Kept(Turn(c, i).0)
  {
    hide Kept, Handled, Ran, SetUpInOrder;
    if i.control.Message? {
      HandledKept(c, i);
    }
    var handled := if i.control.Message? then Handled(c, i) else (c, true);
    if (i.control.Message? || i.control.Quiet?) && handled.0.state == TEST_RUNNING {
      RanKept(handled.0, i);
    }
  }

  /** Once results were asked for, nothing is measured any more. */
  lemma {:induction false} NothingMovesAfterwards(c: Client, inputs: seq<Input>)
    requires c.state in {EXCHANGE_RESULTS, IPERF_DONE} && AllAccounted(c.streams, c.sends)
    requires SetUpRun(c, inputs) && Run(c, inputs).1
    ensures var end := Run(c, inputs).0;
            AllAccounted(end.streams, c.sends) && end.sends == c.sends &&
            (AllSettled(end.streams, c.sends) <==> AllSettled(c.streams, c.sends))
    decreases |inputs|
  {
    hide AllAccounted, AllSettled, AllInformed;
    if inputs != [] && c.state != IPERF_DONE {
      InformedSettled(c.streams, c.sends, inputs[0].results);
      NothingMovesAfterwards(Turn(c, inputs[0]).0, inputs[1..]);
    }
  }

  lemma AskedTurn(c: Client, i: Input)
    requires Kept(c) && Asks(i) && Turn(c, i).1
    ensures var next := Turn(c, i).0;
            && next.state in {EXCHANGE_RESULTS, IPERF_DONE} && next.sends == c.sends
            && AllAccounted(next.streams, c.sends)
            && (AllSettled(next.streams, c.sends) <==> AllSettled(c.streams, c.sends))
  {
    hide AllAccounted, AllSettled, AllInformed;
    InformedSettled(c.streams, c.sends, i.results);
  }

  lemma UnaskedTurn(c: Client, i: Input)
    requires !Asks(i) && Turn(c, i).1 && c.state !in {EXCHANGE_RESULTS, IPERF_DONE}
    ensures Turn(c, i).0.state !in {EXCHANGE_RESULTS, IPERF_DONE} && Turn(c, i).0.sends == c.sends
  {
    hide MovedUpTo, AllEnded, AllStarted;
  }

  lemma {:induction false} CompleteIff(c: Client, inputs: seq<Input>)
    requires Kept(c) && c.state !in {EXCHANGE_RESULTS, IPERF_DONE} && SetUpRun(c, inputs)
    requires Run(c, inputs).1 && Run(c, inputs).0.state == IPERF_DONE
    ensures var end, asked := Run(c, inputs).0, WhenAsked(c, inputs);
            AllComplete(end.streams, c.sends) <==> asked.state == TEST_END || AllSettled(asked.streams, c.sends)
    decreases |inputs|
  {
    hide Turn, Kept, AllAccounted, AllSettled, AllComplete, SetUpInOrder, Asks;
    var next := Turn(c, inputs[0]).0;
    if Asks(inputs[0]) {
      AskedTurn(c, inputs[0]);
      NothingMovesAfterwards(next, inputs[1..]);
      CompleteIsSettled(Run(next, inputs[1..]).0.streams, c.sends);
      KeptAtTheEnd(c);
    } else {
      UnaskedTurn(c, inputs[0]);
      TurnKept(c, inputs[0]);
      CompleteIff(next, inputs[1..]);
    }
  }

  lemma KeptAtTheEnd(c: Client)
    requires Kept(c)
    ensures c.state == TEST_END ==> AllSettled(c.streams, c.sends)
  {
  }

  /**
   However early results are asked for: at the end of the run the streams' intervals are complete exactly if the test
   was over when they were, or each stream then had an interval and had moved nothing since its last one.
   */
  lemma EarlyResultsIff(c: Client, inputs: seq<Input>)
    requires Initial(c) && SetUpRun(c, inputs) && Run(c, inputs).1 && Run(c, inputs).0.state == IPERF_DONE
    ensures var end, asked := Run(c, inputs).0, WhenAsked(c, inputs);
            AllComplete(end.streams, c.sends) <==> asked.state == TEST_END || AllSettled(asked.streams, c.sends)
  {
    assert Kept(c);
    hide *;
    CompleteIff(c, inputs);
  }

  /** The order of messages matters: results asked for before the test ran are displayed without any interval. */
  lemma EarlyResultsAreIncomplete()
    ensures var c := Client(0, true, 1, 0, 5, 0, [], 0, None, None, NoError);
            var inputs := [Told(PARAM_EXCHANGE), Told(CREATE_STREAMS), Told(DISPLAY_RESULTS)];
            var end := Run(c, inputs);
            Initial(c) && end.1 && end.0.state == IPERF_DONE && |end.0.streams| == 1 && end.0.streams[0].intervals == []
  {
    var c := Client(0, true, 1, 0, 5, 0, [], 0, None, None, NoError);
    var c1 := c.(state := PARAM_EXCHANGE);
    var c2 := c1.(state := CREATE_STREAMS, streams := [BLANK]);
    assert Turn(c, Told(PARAM_EXCHANGE)) == (c1, true);
    assert Turn(c1, Told(CREATE_STREAMS)) == (c2, true) by {
      assert seq(1, k => BLANK) == [BLANK];
      assert [] + [BLANK] == [BLANK];
    }
    assert Turn(c2, Told(DISPLAY_RESULTS)) == (c2.(state := IPERF_DONE), true);
    var inputs := [Told(PARAM_EXCHANGE), Told(CREATE_STREAMS), Told(DISPLAY_RESULTS)];
    assert inputs[1..] == [Told(CREATE_STREAMS), Told(DISPLAY_RESULTS)] && inputs[1..][1..] == [Told(DISPLAY_RESULTS)];
    assert Run(c2, inputs[1..][1..]) == (c2.(state := IPERF_DONE), true);
    assert Run(c1, inputs[1..]) == Run(c2, inputs[1..][1..]);
  }

  // ---------- The total of all streams ----------

  function SumTotals(streams: seq<Figures>, sends: bool): nat {
    if streams == [] then 0 else SumTotals(streams[..|streams| - 1], sends) + Total(streams[|streams| - 1], sends)
  }

  lemma {:induction false} SumUpdated(streams: seq<Figures>, sends: bool, k: nat, f: Figures)
    requires k < |streams|
    ensures SumTotals(streams[k := f], sends) == SumTotals(streams, sends) - Total(streams[k], sends) + Total(f, sends)
  {
    hide Total;
    var n := |streams| - 1;
    if k == n {
      assert streams[k := f][..n] == streams[..n];
    } else {
      assert streams[k := f][..n] == streams[..n][k := f];
      SumUpdated(streams[..n], sends, k, f);
    }
  }

  lemma {:induction false} SumSame(s: seq<Figures>, t: seq<Figures>, sends: bool)
    requires |s| == |t| && forall k :: 0 <= k < |s| ==> Total(s[k], sends) == Total(t[k], sends)
    ensures SumTotals(s, sends) == SumTotals(t, sends)
  {
    if s != [] {
      SumSame(s[..|s| - 1], t[..|t| - 1], sends);
    }
  }

  /** How many of the first k streams failed. */
  function Failures(ready: nat -> Option<int>, k: nat): nat {
    if k == 0 then 0
    else Failures(ready, k - 1) + if ready(k - 1).Some? && ready(k - 1).value < 0 then 1 else 0
  }

  /** The client's total is the sum of the streams' totals less one for each failure, as 64-bit numbers. */
  ghost predicate Balanced(c: Client, failures: nat) {
    0 <= c.bytesMoved < WRAP && (c.bytesMoved + failures) % WRAP == SumTotals(c.streams, c.sends) % WRAP
  }

  lemma AddedBalances(moved: nat, failures: nat, sum: nat, result: int)
    requires (moved + failures) % WRAP == sum % WRAP
    ensures
      ((moved + Added(result)) % WRAP + failures + if result < 0 then 1 else 0) % WRAP
      == (sum + if result < 0 then 0 else result) % WRAP
  {
  }

  lemma OneBalanced(c: Client, k: nat, result: int, failures: nat)
    requires k < |c.streams| && Balanced(c, failures)
    ensures Balanced(MovedOne(c, k, result), failures + if result < 0 then 1 else 0)
  {
    var f := c.streams[k];
    SumUpdated(c.streams, c.sends, k, Moved(f, c.sends, result));
    assert Total(Moved(f, c.sends, result), c.sends) == Total(f, c.sends) + if result < 0 then 0 else result;
    AddedBalances(c.bytesMoved, failures, SumTotals(c.streams, c.sends), result);
    hide SumTotals, Added, Moved, Total;
  }

  lemma {:induction false} MovedBalanced(c: Client, ready: nat -> Option<int>, k: nat, failures: nat)
    requires k <= |c.streams| && Balanced(c, failures)
    ensures Balanced(MovedUpTo(c, ready, k), failures + Failures(ready, k))
  {
    hide Balanced, MovedOne;
    if k > 0 {
      MovedBalanced(c, ready, k - 1, failures);
      if ready(k - 1).Some? {
        OneBalanced(MovedUpTo(c, ready, k - 1), k - 1, ready(k - 1).value, failures + Failures(ready, k - 1));
      }
    }
  }

  /** How many sends or receives fail in a turn, and in a run. */
  function TurnFailures(c: Client, i: Input): nat {
    var handled := if i.control.Message? then Handled(c, i) else (c, true);
    if (i.control.Message? || i.control.Quiet?) && handled.1 && handled.0.state == TEST_RUNNING && i.selectOk
    then Failures(i.ready, |handled.0.streams|) else 0
  }

  function RunFailures(c: Client, inputs: seq<Input>): nat
    decreases |inputs|
  {
    if inputs == [] || c.state == IPERF_DONE then 0
    else TurnFailures(c, inputs[0]) + if Turn(c, inputs[0]).1 then RunFailures(Turn(c, inputs[0]).0, inputs[1..]) else 0
  }

  /** No message changes what this side has counted. */
  lemma HandledTotals(c: Client, i: Input)
    requires Phase(c) && i.control.Message? && Orderly(c, i)
    ensures var h := Handled(c, i).0;
            h.bytesMoved == c.bytesMoved && h.sends == c.sends &&
            SumTotals(h.streams, c.sends) == SumTotals(c.streams, c.sends)
  {
    hide SumTotals;
    var h := Handled(c, i).0;
    if h.state == CREATE_STREAMS {
      AllBlankSum(c.streams, c.sends);
      AllBlankSum(h.streams, c.sends);
    } else {
      StartedTotals(c.streams, c.sends, i.startClock);
      InformedTotals(c.streams, c.sends, i.results);
      hide AllStarted, AllInformed;
    }
  }

  lemma StartedTotals(streams: seq<Figures>, sends: bool, clock: nat -> Timeval)
    ensures SumTotals(AllStarted(streams, clock), sends) == SumTotals(streams, sends)
  {
    var started := AllStarted(streams, clock);
    forall k | 0 <= k < |streams| ensures Total(started[k], sends) == Total(streams[k], sends) {
      assert started[k] == streams[k].(startTime := clock(k));
    }
    SumSame(started, streams, sends);
  }

  lemma InformedTotals(streams: seq<Figures>, sends: bool, results: nat -> Option<nat>)
    ensures SumTotals(AllInformed(streams, sends, results), sends) == SumTotals(streams, sends)
  {
    var informed := AllInformed(streams, sends, results);
    forall k | 0 <= k < |streams| ensures Total(informed[k], sends) == Total(streams[k], sends) {
      assert informed[k] == Informed(streams[k], sends, results(k));
    }
    SumSame(informed, streams, sends);
  }

  lemma {:induction false} AllBlankSum(streams: seq<Figures>, sends: bool)
    requires forall k :: 0 <= k < |streams| ==> streams[k] == BLANK
    ensures SumTotals(streams, sends) == 0
  {
    if streams != [] {
      AllBlankSum(streams[..|streams| - 1], sends);
    }
  }

  lemma RanBalanced(c: Client, i: Input, failures: nat)
    requires Balanced(c, failures)
    ensures Balanced(Ran(c, i).0, failures + if i.selectOk then Failures(i.ready, |c.streams|) else 0)
  {
    hide MovedUpTo, AllEnded, SumTotals, Failures, Balanced;
    var moved := MovedUpTo(c, i.ready, |c.streams|);
    var ended := AllEnded(moved.streams, c.sends, i.statsClock);
    MovedBalanced(c, i.ready, |c.streams|, failures);
    if i.selectOk {
      var failed := failures + Failures(i.ready, |c.streams|);
      EndedTotals(moved.streams, c.sends, i.statsClock);
      EndedTotals(moved.streams, c.sends, i.endClock);
      EndedTotals(ended, c.sends, i.endClock);
      SameBalance(moved, Ran(c, i).0, failed);
    } else {
      SameBalance(c, Ran(c, i).0, failures);
    }
  }

  lemma SameBalance(c: Client, d: Client, failures: nat)
    requires Balanced(c, failures)
    requires c.bytesMoved == d.bytesMoved && SumTotals(c.streams, c.sends) == SumTotals(d.streams, d.sends)
    ensures Balanced(d, failures)
  {
  }

  lemma EndedTotals(streams: seq<Figures>, sends: bool, clock: nat -> Timeval)
    ensures SumTotals(AllEnded(streams, sends, clock), sends) == SumTotals(streams, sends)
  {
    var ended := AllEnded(streams, sends, clock);
    forall k | 0 <= k < |streams| ensures Total(ended[k], sends) == Total(streams[k], sends) {
      assert ended[k] == IntervalEnded(streams[k], sends, clock(k));
    }
    SumSame(ended, streams, sends);
  }

  lemma TurnBalanced(c: Client, i: Input, failures: nat)
    requires Phase(c) && Orderly(c, i) && Balanced(c, failures)
    ensures Balanced(Turn(c, i).0, failures + TurnFailures(c, i))
  {
    hide Phase, Handled, Ran, Balanced, Failures;
    if i.control.Message? {
      HandledTotals(c, i);
      SameBalance(c, Handled(c, i).0, failures);
    }
    var handled := if i.control.Message? then Handled(c, i) else (c, true);
    if i.control.Message? || i.control.Quiet? {
      RanBalanced(handled.0, i, failures);
    } else {
      SameBalance(c, Turn(c, i).0, failures);
    }
  }

  lemma {:induction false} RunBalanced(c: Client, inputs: seq<Input>, failures: nat)
    requires Phase(c) && OrderlyRun(c, inputs) && Balanced(c, failures)
    ensures Balanced(Run(c, inputs).0, failures + RunFailures(c, inputs))
    decreases |inputs|
  {
    hide Phase, Turn, TurnFailures, Balanced, Orderly;
    if inputs != [] && c.state != IPERF_DONE {
      TurnBalanced(c, inputs[0], failures);
      if Turn(c, inputs[0]).1 {
        TurnKeepsPhase(c, inputs[0]);
        RunBalanced(Turn(c, inputs[0]).0, inputs[1..], failures + TurnFailures(c, inputs[0]));
      }
    }
  }

  /** The client's total is right if and only if no send or receive failed, up to 2^64 failures and bytes. */
  lemma TotalIsRightIff(c: Client, inputs: seq<Input>)
    requires Initial(c) && OrderlyRun(c, inputs)
    requires RunFailures(c, inputs) < WRAP && SumTotals(Run(c, inputs).0.streams, c.sends) < WRAP
    ensures Run(c, inputs).0.bytesMoved == SumTotals(Run(c, inputs).0.streams, c.sends) <==> RunFailures(c, inputs) == 0
  {
    RunBalanced(c, inputs, 0);
    RunSends(c, inputs);
    hide Run, RunFailures, SumTotals, OrderlyRun;
  }

  lemma TurnSends(c: Client, i: Input)
    ensures var next := Turn(c, i).0; next.sends == c.sends && next.numStreams == c.numStreams && next.bytes == c.bytes
  {
    hide Handled, Ran;
    if i.control.Message? {
      HandledSends(c, i);
    }
    RanSends(if i.control.Message? then Handled(c, i).0 else c, i);
  }

  lemma HandledSends(c: Client, i: Input)
    requires i.control.Message?
    ensures var h := Handled(c, i).0; h.sends == c.sends && h.numStreams == c.numStreams && h.bytes == c.bytes
  {
    hide AllStarted, AllInformed;
  }

  lemma RanSends(c: Client, i: Input)
    ensures var r := Ran(c, i).0; r.sends == c.sends && r.numStreams == c.numStreams && r.bytes == c.bytes
  {
    hide MovedUpTo, AllEnded;
  }

  lemma {:induction false} RunSends(c: Client, inputs: seq<Input>)
    ensures var end := Run(c, inputs).0; end.sends == c.sends && end.numStreams == c.numStreams && end.bytes == c.bytes
    decreases |inputs|
  {
    hide Turn;
    if inputs != [] && c.state != IPERF_DONE {
      TurnSends(c, inputs[0]);
      if Turn(c, inputs[0]).1 {
        RunSends(Turn(c, inputs[0]).0, inputs[1..]);
      }
    }
  }

  // ---------- A test that is limited by its bytes ----------

  /** No send or receive fails, and none moves more than a block. */
  ghost predicate Within(ready: nat -> Option<int>, blksize: nat) {
    forall k: nat :: ready(k).Some? ==> 0 <= ready(k).value <= blksize
  }

  lemma {:induction false} NoFailures(ready: nat -> Option<int>, k: nat, blksize: nat)
    requires Within(ready, blksize)
    ensures Failures(ready, k) == 0
  {
    if k > 0 {
      NoFailures(ready, k - 1, blksize);
    }
  }

  lemma {:induction false} MovedWithin(c: Client, ready: nat -> Option<int>, k: nat, blksize: nat)
    requires k <= |c.streams| && Within(ready, blksize) && c.bytesMoved + k * blksize < WRAP
    ensures var moved := MovedUpTo(c, ready, k);
            && c.bytesMoved <= moved.bytesMoved <= c.bytesMoved + k * blksize
            && SumTotals(moved.streams, c.sends) - SumTotals(c.streams, c.sends) == moved.bytesMoved - c.bytesMoved
  {
    hide Added, Moved, SumTotals, Total;
    if k > 0 {
      var used := (k - 1) * blksize;
      assert k * blksize == used + blksize;
      MovedWithin(c, ready, k - 1, blksize);
      if ready(k - 1).Some? {
        var before, result := MovedUpTo(c, ready, k - 1), ready(k - 1).value;
        AddedWithin(before.bytesMoved, result, c.bytesMoved + used, blksize);
        SumUpdated(before.streams, c.sends, k - 1, Moved(before.streams[k - 1], c.sends, result));
        MovedTotal(before.streams[k - 1], c.sends, result);
      }
    }
  }

  lemma MovedTotal(f: Figures, sends: bool, result: nat)
    ensures Total(Moved(f, sends, result), sends) == Total(f, sends) + result
  {
  }

  lemma AddedWithin(moved: nat, result: nat, most: nat, blksize: nat)
    requires moved <= most && result <= blksize && most + blksize < WRAP
    ensures (moved + Added(result)) % WRAP == moved + result
  {
  }

  /** `limit` bytes are to be moved, and one turn moves at most `burst`. */
  ghost predicate Bounded(c: Client, limit: nat, burst: nat) {
    && c.bytesMoved == SumTotals(c.streams, c.sends)
    && (c.state == TEST_RUNNING ==> c.bytesMoved < limit)
    && (c.state in {TEST_END, EXCHANGE_RESULTS, IPERF_DONE} ==> limit <= c.bytesMoved < limit + burst)
  }

  lemma RanBounded(c: Client, i: Input, blksize: nat, limit: nat, burst: nat)
    requires Phase(c) && c.state == TEST_RUNNING && c.bytes > 0 && Within(i.ready, blksize)
    requires limit == c.numStreams * c.bytes && burst == c.numStreams * blksize && 0 < limit < limit + burst <= WRAP
    requires Bounded(c, limit, burst)
    ensures Bounded(Ran(c, i).0, limit, burst)
  {
    hide MovedUpTo, AllEnded, AllAccounted, AllComplete, SumTotals, Finished;
    var moved := MovedUpTo(c, i.ready, |c.streams|);
    MovedWithin(c, i.ready, |c.streams|, blksize);
    EndedTotals(moved.streams, c.sends, i.statsClock);
    if i.selectOk {
      FinishedBounded(StatisticsTaken(moved, i), i, limit, burst);
    }
  }

  lemma FinishedBounded(c: Client, i: Input, limit: nat, burst: nat)
    requires c.state == TEST_RUNNING && c.bytes > 0 && c.timer == None
    requires limit == c.numStreams * c.bytes < WRAP && c.bytesMoved == SumTotals(c.streams, c.sends) < limit + burst
    ensures Bounded(Finished(c, i).0, limit, burst)
  {
    hide AllEnded, SumTotals;
    EndedTotals(c.streams, c.sends, i.endClock);
  }

  lemma TurnBounded(c: Client, i: Input, blksize: nat, limit: nat, burst: nat)
    requires Phase(c) && c.bytes > 0 && Within(i.ready, blksize) && Orderly(c, i)
    requires limit == c.numStreams * c.bytes && burst == c.numStreams * blksize && 0 < limit < limit + burst <= WRAP
    requires Bounded(c, limit, burst)
    ensures Bounded(Turn(c, i).0, limit, burst)
  {
    hide Ran, Within, AllEnded, AllStarted, AllInformed, SumTotals, AllUntouched, AllComplete, AllAccounted;
    if i.control.Message? {
      HandledTotals(c, i);
    }
    var handled := if i.control.Message? then Handled(c, i) else (c, true);
    if i.control.Message? && handled.1 {
      HandledKeepsPhase(c, i);
    }
    if handled.1 && handled.0.state == TEST_RUNNING {
      RanBounded(handled.0, i, blksize, limit, burst);
    }
  }

  lemma {:induction false} RunBounded(c: Client, inputs: seq<Input>, blksize: nat, limit: nat, burst: nat)
    requires Phase(c) && c.bytes > 0 && OrderlyRun(c, inputs) && forall i :: i in inputs ==> Within(i.ready, blksize)
    requires limit == c.numStreams * c.bytes && burst == c.numStreams * blksize && 0 < limit < limit + burst <= WRAP
    requires Bounded(c, limit, burst)
    ensures Bounded(Run(c, inputs).0, limit, burst) && RunFailures(c, inputs) == 0
    decreases |inputs|
  {
    hide Phase, Turn, Bounded, Orderly, Within;
    if inputs != [] && c.state != IPERF_DONE {
      TurnBounded(c, inputs[0], blksize, limit, burst);
      TurnSends(c, inputs[0]);
      NoTurnFailures(c, inputs[0], blksize);
      if Turn(c, inputs[0]).1 {
        TurnKeepsPhase(c, inputs[0]);
        RunBounded(Turn(c, inputs[0]).0, inputs[1..], blksize, limit, burst);
      }
    }
  }

  lemma NoTurnFailures(c: Client, i: Input, blksize: nat)
    requires Within(i.ready, blksize)
    ensures TurnFailures(c, i) == 0
  {
    hide Handled, Within;
    var handled := if i.control.Message? then Handled(c, i) else (c, true);
    NoFailures(i.ready, |handled.0.streams|, blksize);
  }

  /**
   A byte-limited test whose sends never fail ends with at least the bytes asked for on each stream, less than one block
   each too many, and a total that is the sum of the streams' own.
   */
  lemma ByteLimitIsMet(c: Client, inputs: seq<Input>, blksize: nat)
    requires Initial(c) && OrderlyRun(c, inputs) && forall i :: i in inputs ==> Within(i.ready, blksize)
    requires c.numStreams > 0 && c.bytes > 0 && blksize > 0 && c.numStreams * (c.bytes + blksize) <= WRAP
    ensures var end := Run(c, inputs).0;
            end.state in {TEST_END, EXCHANGE_RESULTS, IPERF_DONE} ==>
              && c.numStreams * c.bytes <= end.bytesMoved < c.numStreams * (c.bytes + blksize)
              && end.bytesMoved == SumTotals(end.streams, end.sends)
  {
    var limit, burst := c.numStreams * c.bytes, c.numStreams * blksize;
    Product(c.numStreams, c.bytes, blksize);
    RunBounded(c, inputs, blksize, limit, burst);
    hide Run, RunFailures, OrderlyRun, SumTotals;
  }

  lemma Product(n: nat, a: nat, b: nat)
    requires n > 0 && a > 0 && b > 0
    ensures n * (a + b) == n * a + n * b && n * a > 0 && n * b > 0
  {
  }
}