/**
 The phone's FrameProcessor in cloud mode: frames are collected into batches, sent to the
 server, and counted until their results come back.
 */
module ClientBatching {
  import opened Options
  import opened Subsequences
  import opened PipelineRun
  import opened AddFrames

  /** A batch is sent as soon as it has more than K frames. */
  const K: nat := 1

  /** The capacity of the phone's two queues. */
  const QUEUE_CAPACITY: nat := 2

  /**
   The fields of the FrameProcessor that frames change, the batches that reached the server, and the frames that were
   taken to be shown.
   */
  datatype Client<F> = Client(
    frameBuffer: seq<F>,
    numFrames: int,
    unprocessedFrameQueue: seq<F>,
    processedFrameQueue: seq<F>,
    sent: seq<seq<F>>,
    shown: seq<F>
  )

  /** A FrameProcessor before any frame. */
  function NoFrames<F>(): Client<F> {
    Client([], 0, [], [], [], [])
  }

  /**
   What can happen: a frame is added in cloud mode, and the call that it may trigger fails or not; a frame is added
   while frames are processed on the phone; a result arrives; or a frame is asked for.
   */
  datatype Action<F> =
    | Added(frame: F, callFails: bool)
    | AddedLocally(frame: F)
    | Answered(result: seq<F>)
    | Asked

  function Offered<F>(queue: seq<F>, frames: seq<F>): seq<F> {
    if |frames| <= QUEUE_CAPACITY - |queue| then queue + frames
    else if |queue| >= QUEUE_CAPACITY then queue
    else queue + frames[..QUEUE_CAPACITY - |queue|]
  }

  function AfterAdd<F>(c: Client<F>, frame: F, callFails: bool): Client<F> {
    var batch := c.frameBuffer + [frame];
    if |batch| > K && !callFails then c.(frameBuffer := [], numFrames := c.numFrames + 1, sent := c.sent + [batch])
    else c.(frameBuffer := batch, numFrames := c.numFrames + 1)
  }

  function AfterLocalAdd<F>(c: Client<F>, frame: F): Client<F> {
    c.(numFrames := c.numFrames + 1, unprocessedFrameQueue := Offered(c.unprocessedFrameQueue, [frame]))
  }

  function AfterResult<F>(c: Client<F>, result: seq<F>): Client<F> {
    c.(numFrames := c.numFrames - |result|, processedFrameQueue := Offered(c.processedFrameQueue, result))
  }

  function AfterAsked<F>(c: Client<F>): Client<F> {
    if c.processedFrameQueue == [] then c
    else c.(processedFrameQueue := c.processedFrameQueue[1..], shown := c.shown + [c.processedFrameQueue[0]])
  }

  /** The FrameProcessor itself. A failing call delivers nothing; the sent list is copied before the call returns. */
  class FrameProcessor<F> {
    var unprocessedFrameQueue: seq<F>
    var processedFrameQueue: seq<F>
    var frameBuffer: seq<F>
    var numFrames: int
    var originalFrame: F
    var useCloud: bool
    var connected: bool
    ghost var sent: seq<seq<F>>
    ghost var shown: seq<F>

    ghost function View(): Client<F>
      reads this
    {
      Client(frameBuffer, numFrames, unprocessedFrameQueue, processedFrameQueue, sent, shown)
    }

    constructor (frame: F)
      ensures View() == NoFrames() && useCloud && !connected
    {
      unprocessedFrameQueue, processedFrameQueue, frameBuffer := [], [], [];
      numFrames, originalFrame, useCloud, connected, sent, shown := 0, frame, true, false, [], [];
    }

    /** `callFails` tells whether the call to the server, if there is one, throws an IOException. */
    method AddFrame(frame: F, callFails: bool)
      modifies this
      ensures originalFrame == frame && useCloud == old(useCloud) && connected == old(connected)
      ensures View() == if old(useCloud && connected) then AfterAdd(old(View()), frame, callFails)
                        else AfterLocalAdd(old(View()), frame)
    {
      originalFrame := frame;
      numFrames := numFrames + 1;
      if useCloud && connected {
        frameBuffer := frameBuffer + [frame];
        if |frameBuffer| > K {
          if !callFails {
            sent := sent + [frameBuffer];
            frameBuffer := [];
          }
        }
      } else {
        if |unprocessedFrameQueue| < QUEUE_CAPACITY {
          unprocessedFrameQueue := unprocessedFrameQueue + [frame];
        }
      }
    }

    method HandleResult(result: seq<F>)
      modifies this`processedFrameQueue, this`numFrames
      ensures View() == AfterResult(old(View()), result)
    {
      for i := 0 to |result|
        invariant View() == AfterResult(old(View()), result[..i])
      {
        if |processedFrameQueue| < QUEUE_CAPACITY {
          processedFrameQueue := processedFrameQueue + [result[i]];
        }
        numFrames := numFrames - 1;
        assert result[..i + 1] == result[..i] + [result[i]];
      }
      assert result[..|result|] == result;
    }

    /**
     The next processed frame, or the newest one added if there is none; outside cloud mode a take then waits, which is
     None here.
     */
    method GetFrame() returns (frame: Option<F>)
      modifies this`processedFrameQueue, this`shown
      ensures View() == AfterAsked(old(View()))
      ensures
        frame == if old(processedFrameQueue) != [] then Some(old(processedFrameQueue[0]))
                 else if useCloud then Some(originalFrame) else None
    {
      if useCloud {
        if |processedFrameQueue| == 0 {
          return Some(originalFrame);
        }
      }
      if |processedFrameQueue| == 0 {
        return None;
      }
      frame, shown := Some(processedFrameQueue[0]), shown + [processedFrameQueue[0]];
      processedFrameQueue := processedFrameQueue[1..];
    }
  }

  // ---------- every history ----------

  function After<F>(actions: seq<Action<F>>): Client<F> {
    if actions == [] then NoFrames()
    else
      var c := After(actions[..|actions| - 1]);
      match actions[|actions| - 1]
      case Added(frame, callFails) => AfterAdd(c, frame, callFails)
      case AddedLocally(frame) => AfterLocalAdd(c, frame)
      case Answered(result) => AfterResult(c, result)
      case Asked => AfterAsked(c)
  }

  /** The frames added in cloud mode. */
  function FramesAdded<F>(actions: seq<Action<F>>): seq<F> {
    if actions == [] then []
    else
      FramesAdded(actions[..|actions| - 1])
      + match actions[|actions| - 1]
        case Added(frame, _) => [frame]
        case _ => []
  }

  /** How many frames were added while frames are processed on the phone. */
  function FramesKept<F>(actions: seq<Action<F>>): nat {
    if actions == [] then 0
    else FramesKept(actions[..|actions| - 1]) + if actions[|actions| - 1].AddedLocally? then 1 else 0
  }

  function FramesAnswered<F>(actions: seq<Action<F>>): nat {
    if actions == [] then 0
    else
      FramesAnswered(actions[..|actions| - 1])
      + match actions[|actions| - 1]
        case Answered(result) => |result|
        case _ => 0
  }

  function Concat<F>(batches: seq<seq<F>>): seq<F> {
    if batches == [] then [] else Concat(batches[..|batches| - 1]) + batches[|batches| - 1]
  }

  lemma ConcatNext<F>(batches: seq<seq<F>>, batch: seq<F>)
    ensures Concat(batches + [batch]) == Concat(batches) + batch
  {
    assert (batches + [batch])[..|batches|] == batches;
  }

  /**
   Nothing is lost, duplicated or reordered on the way to the server, whichever calls fail; and the counter is the
   number of frames still buffered or unanswered, and of all that were ever processed on the phone.
   */
  lemma {:induction false} NoFrameIsLost<F>(actions: seq<Action<F>>)
    ensures
      var c := After(actions);
      && Concat(c.sent) + c.frameBuffer == FramesAdded(actions)
      && c.numFrames == |c.frameBuffer| + |Concat(c.sent)| - FramesAnswered(actions) + FramesKept(actions)
    decreases |actions|
  {
    if actions != [] {
      var before := actions[..|actions| - 1];
      NoFrameIsLost(before);
      var c := After(before);
      if actions[|actions| - 1].Added? {
        ConcatNext(c.sent, c.frameBuffer + [actions[|actions| - 1].frame]);
      }
    }
  }

  ghost predicate CallsSucceed<F>(actions: seq<Action<F>>) {
    forall i :: 0 <= i < |actions| ==> actions[i].Added? ==> !actions[i].callFails
  }

  lemma OthersKeepBatches<F>(c: Client<F>, action: Action<F>)
    ensures
      match action
      case AddedLocally(frame) => SameBatches(AfterLocalAdd(c, frame), c)
      case Answered(result) => SameBatches(AfterResult(c, result), c)
      case Asked => SameBatches(AfterAsked(c), c)
      case _ => true
  {
  }

  ghost predicate SameBatches<F>(c: Client<F>, d: Client<F>) {
    c.sent == d.sent && c.frameBuffer == d.frameBuffer
  }

  /** Without a failing call every batch has exactly two frames, and at most one frame waits for its partner. */
  lemma {:induction false} BatchesArePairs<F>(actions: seq<Action<F>>)
    requires CallsSucceed(actions)
    ensures
      var c := After(actions);
      && (forall i :: 0 <= i < |c.sent| ==> |c.sent[i]| == K + 1)
      && |c.frameBuffer| == |FramesAdded(actions)| % (K + 1)
    decreases |actions|
  {
    hide Offered, AfterLocalAdd, AfterResult, AfterAsked;
    if actions != [] {
      var c := After(actions[..|actions| - 1]);
      BatchesArePairs(actions[..|actions| - 1]);
      OthersKeepBatches(c, actions[|actions| - 1]);
    }
  }

  /** A failing call makes the next batch too large: the batch sent after k failures in a row has k + 2 frames. */
  lemma {:induction false} FailuresGrowTheBatch<F>(c: Client<F>, frames: seq<F>, last: F)
    requires |c.frameBuffer| == K
    ensures
      var failing := AfterFailures(c, frames);
      AfterAdd(failing, last, false).sent == c.sent + [c.frameBuffer + frames + [last]]
      && AfterAdd(failing, last, false).frameBuffer == []
    decreases |frames|
  {
    FailuresOnlyBuffer(c, frames);
  }

  function AfterFailures<F>(c: Client<F>, frames: seq<F>): Client<F> {
    if frames == [] then c else AfterAdd(AfterFailures(c, frames[..|frames| - 1]), frames[|frames| - 1], true)
  }

  lemma {:induction false} FailuresOnlyBuffer<F>(c: Client<F>, frames: seq<F>)
    ensures AfterFailures(c, frames).frameBuffer == c.frameBuffer + frames
    ensures AfterFailures(c, frames).sent == c.sent
    decreases |frames|
  {
    if frames != [] {
      FailuresOnlyBuffer(c, frames[..|frames| - 1]);
    }
  }

  /** The addition at i makes a call to the server: there is a frame waiting for a partner. */
  predicate CallAt<F>(actions: seq<Action<F>>, i: nat) {
    i < |actions| && actions[i].Added? && |After(actions[..i]).frameBuffer| + 1 > K
  }

  /** The last frame added completed a batch that was sent. */
  ghost predicate LastFrameSent<F>(actions: seq<Action<F>>) {
    exists i: nat :: SentCall(actions, i) && forall j :: i < j < |actions| ==> !actions[j].Added?
  }

  ghost predicate SentCall<F>(actions: seq<Action<F>>, i: nat) {
    CallAt(actions, i) && !actions[i].callFails
  }

  lemma PrefixOfPrefix<F>(actions: seq<Action<F>>, i: nat)
    requires i < |actions|
    ensures actions[..|actions| - 1][..i] == actions[..i]
  {
  }

  lemma CallsBefore<F>(actions: seq<Action<F>>)
    requires actions != []
    ensures forall i :: 0 <= i < |actions| - 1 ==> (CallAt(actions, i) <==> CallAt(actions[..|actions| - 1], i))
  {
    forall i | 0 <= i < |actions| - 1
      ensures CallAt(actions, i) <==> CallAt(actions[..|actions| - 1], i)
    {
      PrefixOfPrefix(actions, i);
    }
    hide After;
  }

  lemma SentCallsBefore<F>(actions: seq<Action<F>>)
    requires actions != []
    ensures forall i: nat :: i < |actions| - 1 ==> (SentCall(actions, i) <==> SentCall(actions[..|actions| - 1], i))
    ensures forall i: nat :: SentCall(actions, i) ==> i < |actions| && actions[i].Added?
    ensures var before := actions[..|actions| - 1]; forall i: nat :: SentCall(before, i) ==> i < |before|
  {
    CallsBefore(actions);
  }

  lemma LastFrameSentNext<F>(actions: seq<Action<F>>)
    requires actions != []
    ensures
      var n := |actions| - 1;
      LastFrameSent(actions) <==> if !actions[n].Added? then LastFrameSent(actions[..n]) else SentCall(actions, n)
  {
    hide SentCall;
    var n := |actions| - 1;
    var before := actions[..n];
    SentCallsBefore(actions);
    if !actions[n].Added? && LastFrameSent(before) {
      var i: nat :| SentCall(before, i) && forall j :: i < j < n ==> !before[j].Added?;
      assert SentCall(actions, i);
    }
    if !actions[n].Added? && LastFrameSent(actions) {
      var i: nat :| SentCall(actions, i) && forall j :: i < j < |actions| ==> !actions[j].Added?;
      assert SentCall(before, i);
    }
  }

  /** No frame is waiting exactly if there was none, or the last one was sent. */
  lemma {:induction false} EmptyBufferIff<F>(actions: seq<Action<F>>)
    ensures After(actions).frameBuffer == [] <==> FramesAdded(actions) == [] || LastFrameSent(actions)
    decreases |actions|
  {
    if actions != [] {
      EmptyBufferIff(actions[..|actions| - 1]);
      LastFrameSentNext(actions);
      hide LastFrameSent;
    }
  }

  /**
   Once every batch sent is answered frame for frame, waitForCompletion can see its counter at zero exactly when no
   frame was ever added outside cloud mode, and none was added in it or the last one was sent, whichever calls failed;
   if none did, that is after an even number of frames.
   */
  lemma CompletionIff<F>(actions: seq<Action<F>>)
    requires FramesAnswered(actions) == |Concat(After(actions).sent)|
    ensures After(actions).numFrames == 0 <==>
              FramesKept(actions) == 0 && (FramesAdded(actions) == [] || LastFrameSent(actions))
    ensures CallsSucceed(actions) ==>
              (After(actions).numFrames == 0 <==> FramesKept(actions) == 0 && |FramesAdded(actions)| % 2 == 0)
  {
    NoFrameIsLost(actions);
    EmptyBufferIff(actions);
    if CallsSucceed(actions) {
      BatchesArePairs(actions);
    }
  }

  /** A frame that was processed on the phone keeps waitForCompletion waiting for ever. */
  lemma NeverCompletesAfterwards<F>(actions: seq<Action<F>>)
    requires FramesKept(actions) > 0 && FramesAnswered(actions) <= |Concat(After(actions).sent)|
    ensures After(actions).numFrames > 0
  {
    NoFrameIsLost(actions);
  }

  // ---------- which frames are shown ----------

  /** The frames of all results. */
  function FramesBack<F>(actions: seq<Action<F>>): seq<F> {
    if actions == [] then []
    else
      var back := FramesBack(actions[..|actions| - 1]);
      match actions[|actions| - 1]
      case Answered(result) => back + result
      case _ => back
  }

  /** Of the frames offered, as many enter the queue as there is room for, the first ones, behind what is in it. */
  lemma OfferedIsCut<F>(queue: seq<F>, frames: seq<F>, n: nat)
    requires |queue| <= QUEUE_CAPACITY && n <= |frames|
    requires n == |frames| || |queue| + n == QUEUE_CAPACITY
    requires |queue| + n <= QUEUE_CAPACITY
    ensures Offered(queue, frames) == queue + frames[..n]
  {
  }

  /** A frame to be processed on the phone is queued if there is room for it. */
  lemma LocalAddQueues<F>(c: Client<F>, frame: F)
    requires |c.unprocessedFrameQueue| <= QUEUE_CAPACITY
    ensures
      AfterLocalAdd(c, frame).unprocessedFrameQueue
      == c.unprocessedFrameQueue + if |c.unprocessedFrameQueue| < 2 then [frame] else []
  {
  }

  /** A result arrives and there is room for all of it. */
  ghost predicate FitsAt<F>(actions: seq<Action<F>>, i: nat) {
    i < |actions| && actions[i].Answered? ==>
      |After(actions[..i]).processedFrameQueue| + |actions[i].result| <= QUEUE_CAPACITY
  }

  ghost predicate AllFit<F>(actions: seq<Action<F>>) {
    forall i: nat :: FitsAt(actions, i)
  }

  lemma AllFitNext<F>(actions: seq<Action<F>>)
    requires actions != []
    ensures AllFit(actions) <==> AllFit(actions[..|actions| - 1]) && FitsAt(actions, |actions| - 1)
  {
    var before := actions[..|actions| - 1];
    forall i: nat | i < |before| ensures FitsAt(actions, i) <==> FitsAt(before, i) {
      PrefixOfPrefix(actions, i);
    }
    if AllFit(actions) {
      forall i: nat ensures FitsAt(before, i) {
        assert FitsAt(actions, i);
      }
    }
    if AllFit(before) && FitsAt(actions, |actions| - 1) {
      forall i: nat ensures FitsAt(actions, i) {
        assert FitsAt(before, i);
      }
    }
  }

  /** The queues never hold more than they can. */
  lemma {:induction false} QueuesStayBounded<F>(actions: seq<Action<F>>)
    ensures |After(actions).processedFrameQueue| <= QUEUE_CAPACITY
    ensures |After(actions).unprocessedFrameQueue| <= QUEUE_CAPACITY
    decreases |actions|
  {
    if actions != [] {
      QueuesStayBounded(actions[..|actions| - 1]);
    }
  }

  /** The frames that were shown and those that can be. */
  function Seen<F>(c: Client<F>): seq<F> {
    c.shown + c.processedFrameQueue
  }

  /** How many frames of a result enter the queue. */
  function Room<F>(c: Client<F>, result: seq<F>): nat
    requires |c.processedFrameQueue| <= QUEUE_CAPACITY
  {
    var room := QUEUE_CAPACITY - |c.processedFrameQueue|;
    if |result| <= room then |result| else room
  }

  lemma ResultSeen<F>(c: Client<F>, result: seq<F>)
    requires |c.processedFrameQueue| <= QUEUE_CAPACITY
    ensures Seen(AfterResult(c, result)) == Seen(c) + result[..Room(c, result)]
  {
    OfferedIsCut(c.processedFrameQueue, result, Room(c, result));
    hide Offered;
  }

  lemma AddsKeepSeen<F>(c: Client<F>, frame: F, callFails: bool)
    ensures Seen(AfterAdd(c, frame, callFails)) == Seen(AfterLocalAdd(c, frame)) == Seen(c)
  {
  }

  lemma AskedKeepsSeen<F>(c: Client<F>)
    ensures Seen(AfterAsked(c)) == Seen(c)
  {
  }

  lemma NothingSeen<F>()
    ensures Seen<F>(NoFrames()) == [] && AllFit<F>([])
  {
  }

  lemma PartAppended<F>(seen: seq<F>, back: seq<F>, result: seq<F>, n: nat)
    requires IsSubsequence(seen, back) && n <= |result|
    ensures IsSubsequence(seen + result[..n], back + result)
    ensures seen + result[..n] == back + result <==> seen == back && n == |result|
  {
    hide IsSubsequence;
    Append(seen, back, result[..n]);
    Extend(back + result[..n], result[n..]);
    assert back + result[..n] + result[n..] == back + result;
    Transitive(seen + result[..n], back + result[..n], back + result);
    Length(seen, back);
    if n == |result| {
      assert result[..n] == result;
    } else {
      assert |seen + result[..n]| < |back + result|;
    }
  }

  /**
   After every history the frames shown and those still queued are frames of the results, in their order; and they are
   all of them exactly if no result ever found too little room.
   */
  lemma {:induction false} ResultsAreShown<F>(actions: seq<Action<F>>)
    ensures IsSubsequence(Seen(After(actions)), FramesBack(actions))
    ensures Seen(After(actions)) == FramesBack(actions) <==> AllFit(actions)
    decreases |actions|
  {
    hide IsSubsequence, AllFit, Seen, AfterAdd, AfterLocalAdd, AfterAsked, AfterResult;
    if actions == [] {
      Reflexive<F>([]);
      NothingSeen<F>();
    } else {
      var n := |actions| - 1;
      var c := After(actions[..n]);
      ResultsAreShown(actions[..n]);
      AllFitNext(actions);
      match actions[n]
      case Answered(result) =>
        QueuesStayBounded(actions[..n]);
        ResultSeen(c, result);
        PartAppended(Seen(c), FramesBack(actions[..n]), result, Room(c, result));
      case Asked =>
        AskedKeepsSeen(c);
      case Added(frame, callFails) =>
        AddsKeepSeen(c, frame, callFails);
      case AddedLocally(frame) =>
        AddsKeepSeen(c, frame, false);
    }
  }

  // ---------- which histories send large batches ----------

  /** How many calls failed since the last one that did not. */
  function FailuresInARow<F>(actions: seq<Action<F>>): nat {
    if actions == [] then 0
    else
      var n := |actions| - 1;
      if !CallAt(actions, n) then FailuresInARow(actions[..n])
      else if actions[n].callFails then FailuresInARow(actions[..n]) + 1
      else 0
  }

  /** A call that does not fail comes after at least k in a row that failed. */
  ghost predicate SentAfter<F>(actions: seq<Action<F>>, k: nat) {
    exists j: nat :: SentCall(actions, j) && FailuresInARow(actions[..j]) >= k
  }

  lemma SentAfterNext<F>(actions: seq<Action<F>>, k: nat)
    requires actions != []
    ensures
      var n := |actions| - 1;
      SentAfter(actions, k) <==>
        SentAfter(actions[..n], k) || (SentCall(actions, n) && FailuresInARow(actions[..n]) >= k)
  {
    hide SentCall, FailuresInARow;
    var n := |actions| - 1;
    var before := actions[..n];
    SentCallsBefore(actions);
    if SentAfter(before, k) {
      var j: nat :| SentCall(before, j) && FailuresInARow(before[..j]) >= k;
      PrefixOfPrefix(actions, j);
      assert SentCall(actions, j);
    }
    if SentAfter(actions, k) {
      var j: nat :| SentCall(actions, j) && FailuresInARow(actions[..j]) >= k;
      if j < n {
        PrefixOfPrefix(actions, j);
        assert SentCall(before, j);
      }
    }
  }

  ghost predicate AtMost<F>(sent: seq<seq<F>>, limit: nat) {
    forall i :: 0 <= i < |sent| ==> |sent[i]| <= limit
  }

  lemma AtMostAppend<F>(sent: seq<seq<F>>, batch: seq<F>, limit: nat)
    ensures AtMost(sent + [batch], limit) <==> AtMost(sent, limit) && |batch| <= limit
  {
    var all := sent + [batch];
    assert all[|sent|] == batch && forall i :: 0 <= i < |sent| ==> all[i] == sent[i];
  }

  /** Calls that fail are what makes frames wait, beyond one. */
  lemma {:induction false} BufferAndFailures<F>(actions: seq<Action<F>>)
    ensures
      var waiting, failures := |After(actions).frameBuffer|, FailuresInARow(actions);
      if failures > 0 then waiting == failures + K else waiting <= K
    decreases |actions|
  {
    if actions != [] {
      BufferAndFailures(actions[..|actions| - 1]);
    }
  }

  /** The batches sent have at most k + 1 frames exactly if no call succeeds after k or more in a row that failed. */
  lemma {:induction false} BatchesAtMostIff<F>(actions: seq<Action<F>>, k: nat)
    requires k >= 1
    ensures AtMost(After(actions).sent, k + K) <==> !SentAfter(actions, k)
    decreases |actions|
  {
    hide SentAfter, AtMost;
    if actions == [] {
      NothingSent<F>(k);
    } else {
      var n := |actions| - 1;
      var c := After(actions[..n]);
      BatchesAtMostIff(actions[..n], k);
      SentAfterNext(actions, k);
      BufferAndFailures(actions[..n]);
      if actions[n].Added? {
        AtMostAppend(c.sent, c.frameBuffer + [actions[n].frame], k + K);
      }
    }
  }

  lemma NothingSent<F>(k: nat)
    ensures AtMost<F>([], k + K) && !SentAfter<F>([], k)
  {
  }

  /** A call that fails, with a later one that does not. */
  ghost predicate FailedThenSent<F>(actions: seq<Action<F>>) {
    exists i: nat, j: nat :: FailedCall(actions, i) && i < j < |actions| && actions[j].Added? && !actions[j].callFails
  }

  ghost predicate FailedCall<F>(actions: seq<Action<F>>, i: nat) {
    CallAt(actions, i) && actions[i].callFails
  }

  /** A failed call with no later one that does not fail. */
  ghost predicate FailurePending<F>(actions: seq<Action<F>>) {
    exists i: nat :: FailedCall(actions, i) &&
      forall j :: i < j < |actions| ==> actions[j].Added? ==> actions[j].callFails
  }

  lemma FailedCallsBefore<F>(actions: seq<Action<F>>)
    requires actions != []
    ensures forall i: nat :: i < |actions| - 1 ==> (FailedCall(actions, i) <==> FailedCall(actions[..|actions| - 1], i))
    ensures forall i: nat :: FailedCall(actions, i) ==> i < |actions| && actions[i].Added?
    ensures FailedCall(actions, |actions| - 1) <==> CallAt(actions, |actions| - 1) && actions[|actions| - 1].callFails
  {
    CallsBefore(actions);
  }

  lemma FailurePendingNext<F>(actions: seq<Action<F>>)
    requires actions != []
    ensures
      var n := |actions| - 1;
      FailurePending(actions) <==>
        if !actions[n].Added? then FailurePending(actions[..n])
        else actions[n].callFails && (CallAt(actions, n) || FailurePending(actions[..n]))
  {
    hide FailedCall, CallAt;
    var n := |actions| - 1;
    var before := actions[..n];
    FailedCallsBefore(actions);
    if FailurePending(before) {
      var i: nat :| FailedCall(before, i) && forall j :: i < j < n ==> before[j].Added? ==> before[j].callFails;
      FailedCallBound(before, i);
      assert FailedCall(actions, i);
    }
    if FailurePending(actions) {
      var i: nat :| FailedCall(actions, i) &&
        forall j :: i < j < |actions| ==> actions[j].Added? ==> actions[j].callFails;
      assert i < n ==> FailedCall(before, i);
    }
  }

  lemma FailedCallBound<F>(actions: seq<Action<F>>, i: nat)
    requires FailedCall(actions, i)
    ensures i < |actions|
  {
  }

  lemma FailedThenSentNext<F>(actions: seq<Action<F>>)
    requires actions != []
    ensures
      var n := |actions| - 1;
      FailedThenSent(actions) <==>
        FailedThenSent(actions[..n]) || (actions[n].Added? && !actions[n].callFails && FailurePending(actions[..n]))
  {
    hide FailedCall, CallAt;
    var n := |actions| - 1;
    var before := actions[..n];
    FailedCallsBefore(actions);
    if FailedThenSent(before) {
      var i: nat, j: nat :| FailedCall(before, i) && i < j < n && before[j].Added? && !before[j].callFails;
      assert FailedCall(actions, i) && actions[j] == before[j];
    }
    if FailurePending(before) {
      var i: nat :| FailedCall(before, i) && forall j :: i < j < n ==> before[j].Added? ==> before[j].callFails;
      FailedCallBound(before, i);
      assert FailedCall(actions, i);
    }
    if FailedThenSent(actions) {
      var i: nat, j: nat :| FailedCall(actions, i) && i < j < |actions| && actions[j].Added? && !actions[j].callFails;
      assert FailedCall(before, i);
    }
  }

  ghost predicate OnlyPairs<F>(sent: seq<seq<F>>) {
    forall i :: 0 <= i < |sent| ==> |sent[i]| == K + 1
  }

  ghost predicate AtLeastPairs<F>(sent: seq<seq<F>>) {
    forall i :: 0 <= i < |sent| ==> |sent[i]| >= K + 1
  }

  lemma PairsAppend<F>(sent: seq<seq<F>>, batch: seq<F>)
    ensures OnlyPairs(sent + [batch]) <==> OnlyPairs(sent) && |batch| == K + 1
    ensures AtLeastPairs(sent + [batch]) <==> AtLeastPairs(sent) && |batch| >= K + 1
  {
    var all := sent + [batch];
    assert all[|sent|] == batch && forall i :: 0 <= i < |sent| ==> all[i] == sent[i];
  }

  /** Every batch sent is a pair exactly if no failed call is followed by one that does not fail. */
  lemma {:induction false} OnlyPairsIff<F>(actions: seq<Action<F>>)
    ensures OnlyPairs(After(actions).sent) <==> !FailedThenSent(actions)
    ensures |After(actions).frameBuffer| > K <==> FailurePending(actions)
    ensures AtLeastPairs(After(actions).sent)
    decreases |actions|
  {
    if actions != [] {
      var n := |actions| - 1;
      var c := After(actions[..n]);
      OnlyPairsIff(actions[..n]);
      FailurePendingNext(actions);
      FailedThenSentNext(actions);
      hide FailedThenSent, FailurePending, OnlyPairs, AtLeastPairs;
      if actions[n].Added? {
        PairsAppend(c.sent, c.frameBuffer + [actions[n].frame]);
      }
    }
  }

  // ---------- the phone and the server together ----------

  /**
   Without a failing call, every batch that the phone sends is one that the server can process under every interleaving:
   its addFrames call is never stuck, and when it returns, the answer is the batch with all effects applied.
   */
  lemma EveryBatchIsAnswered<F>(
    actions: seq<Action<F>>, i: nat, s: State<F>, events: seq<CallEvent>
  ) returns (next: CallEvent)
    requires CallsSucceed(actions) && i < |After(actions).sent|
    requires WellFormed(s) && ServerQueues(s) && Quiescent(s) && IsCallRun(Start(s, After(actions).sent[i]), events)
    ensures
      var batch := After(actions).sent[i];
      var c := ExecCall(Start(s, batch), events);
      && (!c.Returned() ==> CallEnabled(c, next))
      && (c.Returned() ==> c.processed == AllApplied(s.effects, batch) && Quiescent(c.pipeline))
  {
    BatchesArePairs(actions);
    var batch := After(actions).sent[i];
    assert FitsEverywhere(s, |batch|);
    next := AddFramesIsCorrect(s, batch, events);
  }

  /**
   The server can process every batch that the phone sends under every interleaving exactly if no call succeeds after
   too many in a row that failed: one with two stages or more, and 19 with one stage. The batch after them is too
   large, and some interleaving then leaves its call blocked for ever.
   */
  lemma EveryBatchReturnsIff<F>(actions: seq<Action<F>>, s: State<F>)
    requires WellFormed(s) && ServerQueues(s) && AllWaiting(s)
    ensures
      (forall i :: 0 <= i < |After(actions).sent| ==> AlwaysReturns(s, After(actions).sent[i]))
      <==> !SentAfter(actions, if |s.effects| == 1 then 19 else 1)
  {
    hide AlwaysReturns, SentAfter, AllWaiting, ServerQueues, After;
    BatchesAtMostIff(actions, SafeBatch(|s.effects|) - 1);
    forall i | 0 <= i < |After(actions).sent|
      ensures AlwaysReturns(s, After(actions).sent[i]) <==> |After(actions).sent[i]| <= SafeBatch(|s.effects|)
    {
      AlwaysReturnsIff(s, After(actions).sent[i]);
    }
  }

  /** With two stages or more: exactly if no failed call is followed by one that does not fail. */
  lemma EveryBatchReturnsWithStages<F>(actions: seq<Action<F>>, s: State<F>)
    requires WellFormed(s) && ServerQueues(s) && AllWaiting(s) && |s.effects| >= 2
    ensures
      (forall i :: 0 <= i < |After(actions).sent| ==> AlwaysReturns(s, After(actions).sent[i]))
      <==> !FailedThenSent(actions)
  {
    hide AlwaysReturns, SentAfter, FailedThenSent, AllWaiting, ServerQueues, After;
    EveryBatchReturnsIff(actions, s);
    BatchesAtMostIff(actions, 1);
    OnlyPairsIff(actions);
    PairsOrMore(After(actions).sent);
  }

  lemma PairsOrMore<F>(sent: seq<seq<F>>)
    requires AtLeastPairs(sent)
    ensures OnlyPairs(sent) <==> AtMost(sent, K + 1)
  {
  }

  // ---------- one call after the other ----------

  /**
   The server answers the batches in turn: `calls[k]` are the events of its call for batch k, which starts in the
   pipeline that the call before it left, and has returned.
   */
  ghost predicate Serves<F>(s: State<F>, batches: seq<seq<F>>, calls: seq<seq<CallEvent>>)
    requires WellFormed(s)
    decreases |batches|
  {
    && |calls| == |batches|
    && (batches != [] ==>
          && IsCallRun(Start(s, batches[0]), calls[0])
          && ExecCall(Start(s, batches[0]), calls[0]).Returned()
          && Serves(ExecCall(Start(s, batches[0]), calls[0]).pipeline, batches[1..], calls[1..]))
  }

  /** What the calls returned, one after the other. */
  ghost function Replies<F>(s: State<F>, batches: seq<seq<F>>, calls: seq<seq<CallEvent>>): seq<F>
    requires WellFormed(s) && Serves(s, batches, calls)
    decreases |batches|
  {
    if batches == [] then []
    else
      var c := ExecCall(Start(s, batches[0]), calls[0]);
      c.processed + Replies(c.pipeline, batches[1..], calls[1..])
  }

  lemma {:induction false} ConcatFirst<F>(batches: seq<seq<F>>)
    requires batches != []
    ensures Concat(batches) == batches[0] + Concat(batches[1..])
    decreases |batches|
  {
    var n := |batches| - 1;
    if n > 0 {
      ConcatFirst(batches[..n]);
      assert batches[..n][1..] == batches[1..][..n - 1];
    }
  }

  /** Calls do not change the capacities of the queues. */
  lemma {:induction false} CallKeepsQueues<F>(c: Call<F>, events: seq<CallEvent>)
    requires WellFormed(c.pipeline) && IsCallRun(c, events)
    ensures
      var p, q := c.pipeline, ExecCall(c, events).pipeline;
      forall i :: 0 <= i < |p.channels| ==> q.channels[i].capacity == p.channels[i].capacity
    decreases |events|
  {
    if events != [] {
      CallKeepsQueues(CallNext(c, events[0]), events[1..]);
    }
  }

  lemma FitsAfterwards<F>(c: Call<F>, events: seq<CallEvent>, n: nat)
    requires WellFormed(c.pipeline) && IsCallRun(c, events) && FitsEverywhere(c.pipeline, n)
    ensures FitsEverywhere(ExecCall(c, events).pipeline, n)
  {
    CallKeepsQueues(c, events);
    hide ExecCall, IsCallRun;
  }

  /** A batch that fits can be served to the end. */
  lemma CallCanReturn<F>(s: State<F>, batch: seq<F>) returns (events: seq<CallEvent>)
    requires WellFormed(s) && Quiescent(s) && FitsEverywhere(s, |batch|)
    ensures IsCallRun(Start(s, batch), events) && ExecCall(Start(s, batch), events).Returned()
  {
    hide FitsEverywhere, CallWork, CallEnabled;
    CallWorkIsNatural(Start(s, batch));
    events := RunToHalt(Start(s, batch), CallWork(Start(s, batch)));
    var next := AddFramesIsCorrect(s, batch, events);
    assert !CallEnabled(ExecCall(Start(s, batch), events), next);
  }

  /** Pairs can be served in turn, however many they are. */
  lemma {:induction false} PairsCanBeServed<F>(s: State<F>, batches: seq<seq<F>>) returns (calls: seq<seq<CallEvent>>)
    requires WellFormed(s) && Quiescent(s) && FitsEverywhere(s, K + 1) && OnlyPairs(batches)
    ensures Serves(s, batches, calls)
    decreases |batches|
  {
    hide Quiescent, FitsEverywhere, IsCallRun, ExecCall;
    if batches == [] {
      calls := [];
    } else {
      var events := CallCanReturn(s, batches[0]);
      var next := AddFramesIsCorrect(s, batches[0], events);
      FitsAfterwards(Start(s, batches[0]), events, K + 1);
      calls := PairsCanBeServed(ExecCall(Start(s, batches[0]), events).pipeline, batches[1..]);
      calls := [events] + calls;
    }
  }

  /** Batches that fit, served in turn from a quiescent pipeline, come back with all effects applied, in order. */
  lemma {:induction false} RepliesAreTheFrames<F>(s: State<F>, batches: seq<seq<F>>, calls: seq<seq<CallEvent>>)
    requires WellFormed(s) && Quiescent(s) && Serves(s, batches, calls) && FitsEverywhere(s, K + 1)
    requires OnlyPairs(batches)
    ensures Replies(s, batches, calls) == AllApplied(s.effects, Concat(batches))
    decreases |batches|
  {
    hide Quiescent, FitsEverywhere, Applied, IsCallRun, ExecCall;
    if batches == [] {
      assert AllApplied(s.effects, Concat(batches)) == [];
    } else {
      var c := ExecCall(Start(s, batches[0]), calls[0]);
      var next := AddFramesIsCorrect(s, batches[0], calls[0]);
      FitsAfterwards(Start(s, batches[0]), calls[0], K + 1);
      RepliesAreTheFrames(c.pipeline, batches[1..], calls[1..]);
      ConcatFirst(batches);
      assert AllApplied(s.effects, batches[0] + Concat(batches[1..]))
        == AllApplied(s.effects, batches[0]) + AllApplied(s.effects, Concat(batches[1..]));
    }
  }

  lemma PairsFit<F>(s: State<F>)
    requires WellFormed(s) && ServerQueues(s)
    ensures FitsEverywhere(s, K + 1)
  {
  }

  /** Without a failing call, all frames but a last odd one are sent, in pairs. */
  lemma SentFrames<F>(actions: seq<Action<F>>)
    requires CallsSucceed(actions)
    ensures OnlyPairs(After(actions).sent)
    ensures var frames := FramesAdded(actions); Concat(After(actions).sent) == frames[..|frames| - |frames| % 2]
  {
    NoFrameIsLost(actions);
    BatchesArePairs(actions);
    hide After, FramesAdded, Concat;
  }

  /**
   If no call fails, the phone gets back all effects applied to the frames that it added, except a last odd one,
   whatever the interleavings in which the server's calls return.
   */
  lemma AnswersAreTheFrames<F>(actions: seq<Action<F>>, s: State<F>, calls: seq<seq<CallEvent>>)
    requires CallsSucceed(actions)
    requires WellFormed(s) && ServerQueues(s) && Quiescent(s) && Serves(s, After(actions).sent, calls)
    ensures
      var frames := FramesAdded(actions);
      Replies(s, After(actions).sent, calls) == AllApplied(s.effects, frames[..|frames| - |frames| % 2])
  {
    hide *;
    SentFrames(actions);
    PairsFit(s);
    RepliesAreTheFrames(s, After(actions).sent, calls);
  }
}
