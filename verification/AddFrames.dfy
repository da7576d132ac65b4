/**
 The server's addFrames call: it adds a batch to the pipeline, then takes as many frames
 out. The call runs in one thread, interleaved in any way with the pipeline's workers.
 */
module AddFrames {
  import opened PipelineRun

  /** The capacity of the server's end queues and of the queues between stages. */
  const END_CAPACITY: nat := 20
  const INNER_CAPACITY: nat := 2

  /** A call in progress: what is left of the batch, the source's counter, and the frames collected so far. */
  datatype Call<!F> = Call(pipeline: State<F>, pending: seq<F>, numRemaining: nat, processed: seq<F>) {
    predicate Returned() {
      pending == [] && numRemaining == 0
    }
  }

  datatype CallEvent = AddNext | GetNext | Step(stage: nat)

  ghost predicate CallEnabled<F>(c: Call<F>, e: CallEvent)
    requires WellFormed(c.pipeline)
  {
    match e
    case AddNext => c.pending != []
    case GetNext => c.pending == [] && c.numRemaining > 0 && Enabled(c.pipeline, Deliver)
    case Step(i) => CanWork(c.pipeline, i)
  }

  ghost function CallNext<F>(c: Call<F>, e: CallEvent): (r: Call<F>)
    requires WellFormed(c.pipeline) && CallEnabled(c, e)
    ensures WellFormed(r.pipeline) && r.pipeline.effects == c.pipeline.effects
  {
    match e
    case AddNext =>
      Call(Next(c.pipeline, Add(c.pending[0])), c.pending[1..], c.numRemaining + 1, c.processed)
    case GetNext =>
      var frame := c.pipeline.channels[|c.pipeline.effects|].items[0];
      Call(Next(c.pipeline, Deliver), c.pending, c.numRemaining - 1, c.processed + [frame])
    case Step(i) => c.(pipeline := Next(c.pipeline, Work(i)))
  }

  ghost predicate IsCallRun<F>(c: Call<F>, events: seq<CallEvent>)
    requires WellFormed(c.pipeline)
    decreases |events|
  {
    events == [] || (CallEnabled(c, events[0]) && IsCallRun(CallNext(c, events[0]), events[1..]))
  }

  ghost function ExecCall<F>(c: Call<F>, events: seq<CallEvent>): (r: Call<F>)
    requires WellFormed(c.pipeline) && IsCallRun(c, events)
    ensures WellFormed(r.pipeline) && r.pipeline.effects == c.pipeline.effects
    decreases |events|
  {
    if events == [] then c else ExecCall(CallNext(c, events[0]), events[1..])
  }

  ghost function Start<F>(s: State<F>, batch: seq<F>): Call<F> {
    Call(s, batch, 0, [])
  }

  /** No thread has stopped or is about to. */
  ghost predicate Undisturbed<F>(s: State<F>)
    requires WellFormed(s)
  {
    forall i :: 0 <= i < |s.threads| ==> !s.threads[i].interrupted && !s.threads[i].worker.Stopped?
  }

  /** Nothing is inside the pipeline and every stage has its worker. */
  ghost predicate Quiescent<F>(s: State<F>)
    requires WellFormed(s)
  {
    Undisturbed(s) && Flow(s, 0) == []
  }

  // ---------- what holds throughout a call ----------

  ghost predicate CallInv<F>(c: Call<F>, batch: seq<F>, lostBefore: nat)
    requires WellFormed(c.pipeline)
  {
    var p := c.pipeline;
    && Undisturbed(p)
    && lostBefore <= Lost(p)
    && c.numRemaining == |batch| - |c.pending| - |c.processed|
    && |c.processed| + |Flow(p, 0)| + |c.pending| + (Lost(p) - lostBefore) == |batch|
    && (Lost(p) == lostBefore ==>
          c.processed + Flow(p, 0) + AllThrough(p.effects, 0, c.pending) == AllThrough(p.effects, 0, batch))
  }

  lemma StepIsUndisturbed<F>(s: State<F>, i: nat)
    requires WellFormed(s) && Undisturbed(s) && CanWork(s, i)
    ensures Undisturbed(Next(s, Work(i))) && Next(s, Work(i)).discarded == s.discarded
  {
  }

  lemma WorkOnFlow<F>(s: State<F>, i: nat)
    requires WellFormed(s) && CanWork(s, i)
    ensures
      var t := Next(s, Work(i));
      if Lost(t) == Lost(s) then Flow(t, 0) == Flow(s, 0)
      else Lost(t) == Lost(s) + 1 && |Flow(t, 0)| + 1 == |Flow(s, 0)|
  {
    var t := Next(s, Work(i));
    var front, back := WorkOnLine(s, i);
    WorkMoves(s, i);
    assert t.delivered == s.delivered;
    hide Next, Flow, Carried, Lost;
    assert Flow(s, 0) == Line(s)[|s.delivered|..] && Flow(t, 0) == Line(t)[|s.delivered|..];
  }

  lemma AddOnFlow<F>(s: State<F>, frame: F)
    requires WellFormed(s)
    ensures
      var t := Next(s, Add(frame));
      if s.channels[0].Full() then Flow(t, 0) == Flow(s, 0) && Lost(t) == Lost(s) + 1
      else Flow(t, 0) == Flow(s, 0) + [Through(s.effects, 0, frame)] && Lost(t) == Lost(s)
  {
    var t := Next(s, Add(frame));
    if s.channels[0].Full() {
      FlowSame(s, t, 0);
    } else {
      FlowAppend(s, t, 0, frame);
    }
  }

  lemma AddKeepsCallInv<F>(c: Call<F>, batch: seq<F>, lostBefore: nat)
    requires WellFormed(c.pipeline) && CallInv(c, batch, lostBefore) && CallEnabled(c, AddNext)
    ensures CallInv(CallNext(c, AddNext), batch, lostBefore)
  {
    var p, first, rest := c.pipeline, c.pending[0], c.pending[1..];
    var q := Next(p, Add(first));
    AddOnFlow(p, first);
    AllThroughAppend(p.effects, 0, [first], rest);
    AllThroughOne(p.effects, 0, first);
    assert c.pending == [first] + rest;
    assert Undisturbed(q) && CallNext(c, AddNext) == Call(q, rest, c.numRemaining + 1, c.processed);
    hide Next, Flow, AllThrough, Through, Lost;
  }

  lemma GetKeepsCallInv<F>(c: Call<F>, batch: seq<F>, lostBefore: nat)
    requires WellFormed(c.pipeline) && CallInv(c, batch, lostBefore) && CallEnabled(c, GetNext)
    ensures CallInv(CallNext(c, GetNext), batch, lostBefore)
  {
    var p := c.pipeline;
    var q := Next(p, Deliver);
    DeliverTakesFirst(p);
    assert Undisturbed(q) && Lost(q) == Lost(p);
    hide Next, Flow, AllThrough, Lost;
  }

  lemma StepKeepsCallInv<F>(c: Call<F>, batch: seq<F>, lostBefore: nat, i: nat)
    requires WellFormed(c.pipeline) && CallInv(c, batch, lostBefore) && CallEnabled(c, Step(i))
    ensures CallInv(CallNext(c, Step(i)), batch, lostBefore)
  {
    StepIsUndisturbed(c.pipeline, i);
    WorkOnFlow(c.pipeline, i);
    hide Next, Flow, AllThrough, Lost;
  }

  lemma EventKeepsCallInv<F>(c: Call<F>, batch: seq<F>, lostBefore: nat, e: CallEvent)
    requires WellFormed(c.pipeline) && CallInv(c, batch, lostBefore) && CallEnabled(c, e)
    ensures CallInv(CallNext(c, e), batch, lostBefore)
  {
    hide CallInv, CallNext;
    match e
    case AddNext => AddKeepsCallInv(c, batch, lostBefore);
    case GetNext => GetKeepsCallInv(c, batch, lostBefore);
    case Step(i) => StepKeepsCallInv(c, batch, lostBefore, i);
  }

  lemma {:induction false} RunKeepsCallInv<F>(c: Call<F>, batch: seq<F>, lostBefore: nat, events: seq<CallEvent>)
    requires WellFormed(c.pipeline) && CallInv(c, batch, lostBefore) && IsCallRun(c, events)
    ensures CallInv(ExecCall(c, events), batch, lostBefore)
    decreases |events|
  {
    hide CallInv, CallNext, CallEnabled;
    if events != [] {
      EventKeepsCallInv(c, batch, lostBefore, events[0]);
      RunKeepsCallInv(CallNext(c, events[0]), batch, lostBefore, events[1..]);
    }
  }

  lemma StartInv<F>(s: State<F>, batch: seq<F>)
    requires WellFormed(s) && Quiescent(s)
    ensures CallInv(Start(s, batch), batch, Lost(s))
  {
    assert [] + Flow(s, 0) + AllThrough(s.effects, 0, batch) == AllThrough(s.effects, 0, batch);
  }

  // ---------- small batches lose nothing ----------

  ghost predicate FitsEverywhere<F>(s: State<F>, count: nat) {
    forall i :: 0 <= i < |s.channels| ==> count <= s.channels[i].capacity
  }

  lemma FlowHoldsChannel<F>(s: State<F>, i: nat)
    requires WellFormed(s) && i <= |s.effects|
    ensures |s.channels[i].items| <= |Flow(s, i)| <= |Flow(s, 0)|
  {
    FlowSplits(s, 0, i);
    if i == |s.effects| {
      FlowOfLast(s);
    } else {
      FlowUnfold(s, i);
    }
    hide Flow;
  }

  lemma FlowHoldsOffer<F>(s: State<F>, i: nat)
    requires WellFormed(s) && i < |s.effects| && s.threads[i].worker.Offering?
    ensures |s.channels[i + 1].items| + 1 <= |Flow(s, 0)|
  {
    FlowSplits(s, 0, i);
    FlowUnfold(s, i);
    FlowHoldsChannel(s, i + 1);
    assert |Carried(s, i)| == 1;
    hide Flow, Carried;
  }

  /** While at most as many frames are inside as fit into every queue, no offer fails. */
  lemma EventLosesNothing<F>(c: Call<F>, batch: seq<F>, lost: nat, e: CallEvent)
    requires WellFormed(c.pipeline) && CallInv(c, batch, lost) && CallEnabled(c, e)
    requires Lost(c.pipeline) == lost && FitsEverywhere(c.pipeline, |batch|)
    ensures Lost(CallNext(c, e).pipeline) == lost && FitsEverywhere(CallNext(c, e).pipeline, |batch|)
  {
    var p := c.pipeline;
    match e
    case AddNext => FlowHoldsChannel(p, 0);
    case GetNext =>
    case Step(i) =>
      if p.threads[i].worker.Offering? {
        FlowHoldsOffer(p, i);
      }
  }

  // ---------- every run comes to an end ----------

  /** How many steps a thread still has to make before its frame is in the next queue, and back in take(). */
  ghost function ThreadWork<F>(n: nat, i: nat, worker: Worker<F>): int {
    match worker
    case Waiting => 0
    case Applying(_) => 5 * (n - i)
    case Checking(_) => 5 * (n - i) - 1
    case Offering(_) => 5 * (n - i) - 2
    case Rechecking => 1
    case Stopped => 0
  }

  /** `count` frames that need `each` steps: a product, written as repeated addition. */
  ghost function Total(count: nat, each: int): int {
    if count == 0 then 0 else Total(count - 1, each) + each
  }

  /** The steps that the frames from channel `i` on still need: five per stage and one to be taken out. */
  ghost function WorkFrom<F>(s: State<F>, i: nat): int
    requires WellFormed(s) && i <= |s.effects|
    decreases |s.effects| - i
  {
    var n := |s.effects|;
    if i == n then |s.channels[i].items|
    else WorkFrom(s, i + 1) + ThreadWork(n, i, s.threads[i].worker) + Total(|s.channels[i].items|, 5 * (n - i) + 1)
  }

  ghost function CallWork<F>(c: Call<F>): int
    requires WellFormed(c.pipeline)
  {
    WorkFrom(c.pipeline, 0) + Total(|c.pending|, 5 * |c.pipeline.effects| + 2)
  }

  lemma {:induction false} WorkDiffers<F>(s: State<F>, t: State<F>, i: nat, j: nat)
    requires WellFormed(s) && WellFormed(t) && SameBefore(s, t, j) && i <= j
    ensures WorkFrom(t, i) - WorkFrom(s, i) == WorkFrom(t, j) - WorkFrom(s, j)
    decreases j - i
  {
    hide ThreadWork;
    if i < j {
      WorkDiffers(s, t, i + 1, j);
    }
  }

  lemma {:induction false} WorkSame<F>(s: State<F>, t: State<F>, j: nat)
    requires WellFormed(s) && WellFormed(t) && SameFrom(s, t, j)
    ensures WorkFrom(t, j) == WorkFrom(s, j)
    decreases |s.effects| - j
  {
    hide ThreadWork;
    if j < |s.effects| {
      WorkSame(s, t, j + 1);
    }
  }

  lemma WorkUnfold<F>(s: State<F>, i: nat)
    requires WellFormed(s) && i < |s.effects|
    ensures WorkFrom(s, i) == WorkFrom(s, i + 1) + ThreadWork(|s.effects|, i, s.threads[i].worker)
                            + Total(|s.channels[i].items|, 5 * (|s.effects| - i) + 1)
  {
    hide ThreadWork, Total;
  }

  lemma TotalNext(count: nat, each: int)
    ensures Total(count + 1, each) == Total(count, each) + each
  {
  }

  lemma WorkOfLast<F>(s: State<F>)
    requires WellFormed(s)
    ensures WorkFrom(s, |s.effects|) == |s.channels[|s.effects|].items|
  {
  }

  lemma TotalAppend<F>(s: State<F>, t: State<F>, j: nat, each: int, frame: F)
    requires WellFormed(s) && WellFormed(t) && j < |s.effects| == |t.effects|
    requires s.threads[j].worker == t.threads[j].worker
    requires t.channels[j].items == s.channels[j].items + [frame]
    ensures Total(|t.channels[j].items|, each) == Total(|s.channels[j].items|, each) + each
    ensures ThreadWork(|s.effects|, j, t.threads[j].worker) == ThreadWork(|s.effects|, j, s.threads[j].worker)
  {
    TotalNext(|s.channels[j].items|, each);
  }

  lemma WorkAppendInner<F>(s: State<F>, t: State<F>, j: nat, frame: F)
    requires WellFormed(s) && WellFormed(t) && s.effects == t.effects && j < |s.effects|
    requires SameFrom(s, t, j + 1) && s.threads[j].worker == t.threads[j].worker
    requires t.channels[j].items == s.channels[j].items + [frame]
    ensures WorkFrom(t, j) == WorkFrom(s, j) + 5 * (|s.effects| - j) + 1
  {
    hide *;
    WorkUnfold(s, j);
    WorkUnfold(t, j);
    WorkSame(s, t, j + 1);
    TotalAppend(s, t, j, 5 * (|s.effects| - j) + 1, frame);
  }

  /** Appending a frame to channel `j` adds the steps that it needs from there. */
  lemma WorkAppend<F>(s: State<F>, t: State<F>, j: nat, frame: F)
    requires WellFormed(s) && WellFormed(t) && s.effects == t.effects && j <= |s.effects|
    requires j < |s.effects| ==> SameFrom(s, t, j + 1) && s.threads[j].worker == t.threads[j].worker
    requires t.channels[j].items == s.channels[j].items + [frame]
    ensures WorkFrom(t, j) == WorkFrom(s, j) + 5 * (|s.effects| - j) + 1
  {
    hide WorkFrom;
    if j < |s.effects| {
      WorkAppendInner(s, t, j, frame);
    } else {
      WorkOfLast(s);
      WorkOfLast(t);
    }
  }

  lemma WaitingUsesWork<F>(s: State<F>, i: nat)
    requires WellFormed(s) && Undisturbed(s) && CanWork(s, i) && s.threads[i].worker.Waiting?
    ensures WorkFrom(Next(s, Work(i)), i) == WorkFrom(s, i) - 1
  {
    hide WorkFrom, Total;
    var n, t := |s.effects|, Next(s, Work(i));
    var k, each := |t.channels[i].items|, 5 * (n - i) + 1;
    assert SameFrom(s, t, i + 1) && |s.channels[i].items| == k + 1;
    assert ThreadWork(n, i, s.threads[i].worker) == 0 && ThreadWork(n, i, t.threads[i].worker) == each - 1;
    hide *;
    WorkUnfold(s, i);
    WorkUnfold(t, i);
    WorkSame(s, t, i + 1);
    TotalNext(k, each);
  }

  lemma OfferingUsesWork<F>(s: State<F>, i: nat)
    requires WellFormed(s) && Undisturbed(s) && CanWork(s, i) && s.threads[i].worker.Offering?
    requires Next(s, Work(i)).rejected == s.rejected
    ensures WorkFrom(Next(s, Work(i)), i) == WorkFrom(s, i) - 1
  {
    hide WorkFrom, Total;
    var n, t := |s.effects|, Next(s, Work(i));
    WorkAppend(s, t, i + 1, s.threads[i].worker.output);
    assert t.channels[i] == s.channels[i];
    assert ThreadWork(n, i, s.threads[i].worker) == 5 * (n - i) - 2 && ThreadWork(n, i, t.threads[i].worker) == 1;
    hide *;
    WorkUnfold(s, i);
    WorkUnfold(t, i);
  }

  lemma ThreadUsesWork<F>(s: State<F>, i: nat)
    requires WellFormed(s) && Undisturbed(s) && CanWork(s, i)
    requires !s.threads[i].worker.Waiting? && !s.threads[i].worker.Offering?
    ensures WorkFrom(Next(s, Work(i)), i) == WorkFrom(s, i) - 1
  {
    var n, t := |s.effects|, Next(s, Work(i));
    assert SameFrom(s, t, i + 1) && t.channels[i] == s.channels[i];
    assert ThreadWork(n, i, t.threads[i].worker) == ThreadWork(n, i, s.threads[i].worker) - 1;
    hide *;
    WorkUnfold(s, i);
    WorkUnfold(t, i);
    WorkSame(s, t, i + 1);
  }

  /** A worker's step that loses nothing uses up exactly one unit of work. */
  lemma StepUsesWork<F>(s: State<F>, i: nat)
    requires WellFormed(s) && Undisturbed(s) && CanWork(s, i) && Next(s, Work(i)).rejected == s.rejected
    ensures WorkFrom(Next(s, Work(i)), 0) == WorkFrom(s, 0) - 1
  {
    hide WorkFrom, Next;
    WorkSameBefore(s, i);
    WorkDiffers(s, Next(s, Work(i)), 0, i);
    match s.threads[i].worker
    case Waiting => WaitingUsesWork(s, i);
    case Offering(_) => OfferingUsesWork(s, i);
    case _ => ThreadUsesWork(s, i);
  }

  lemma EventUsesWork<F>(c: Call<F>, e: CallEvent)
    requires WellFormed(c.pipeline) && Undisturbed(c.pipeline) && CallEnabled(c, e)
    requires Lost(CallNext(c, e).pipeline) == Lost(c.pipeline)
    ensures CallWork(CallNext(c, e)) == CallWork(c) - 1
  {
    var p := c.pipeline;
    match e
    case AddNext =>
      WorkAppend(p, Next(p, Add(c.pending[0])), 0, c.pending[0]);
    case GetNext =>
      WorkDiffers(p, Next(p, Deliver), 0, |p.effects|);
    case Step(i) =>
      StepIsUndisturbed(p, i);
      StepUsesWork(p, i);
  }

  // ---------- no deadlock ----------

  /** While a frame is inside, some thread can step or a frame can be taken out. */
  lemma {:induction false} SomethingCanMove<F>(s: State<F>, i: nat) returns (stage: nat)
    requires WellFormed(s) && Undisturbed(s) && i <= |s.effects| && Flow(s, i) != []
    ensures CanWork(s, stage) || Enabled(s, Deliver)
    decreases |s.effects| - i
  {
    stage := i;
    if i == |s.effects| {
      FlowOfLast(s);
    } else if Flow(s, i + 1) != [] {
      stage := SomethingCanMove(s, i + 1);
    } else {
      FlowUnfold(s, i);
      assert Carried(s, i) != [] || s.channels[i].items != [];
    }
  }

  lemma CallCanMove<F>(c: Call<F>, batch: seq<F>, lost: nat) returns (e: CallEvent)
    requires WellFormed(c.pipeline) && CallInv(c, batch, lost) && Lost(c.pipeline) == lost && !c.Returned()
    ensures CallEnabled(c, e)
  {
    if c.pending != [] {
      e := AddNext;
    } else {
      var stage := SomethingCanMove(c.pipeline, 0);
      e := if Enabled(c.pipeline, Deliver) then GetNext else Step(stage);
    }
  }

  // ---------- the call as a whole ----------

  lemma {:induction false} SafeRun<F>(c: Call<F>, batch: seq<F>, lost: nat, events: seq<CallEvent>)
    requires WellFormed(c.pipeline) && CallInv(c, batch, lost) && Lost(c.pipeline) == lost
    requires FitsEverywhere(c.pipeline, |batch|)
    requires IsCallRun(c, events)
    ensures Lost(ExecCall(c, events).pipeline) == lost
    ensures |events| + CallWork(ExecCall(c, events)) == CallWork(c)
    decreases |events|
  {
    hide CallInv, CallNext, CallEnabled, CallWork, FitsEverywhere, Lost;
    if events != [] {
      CallInvUndisturbed(c, batch, lost);
      EventKeepsCallInv(c, batch, lost, events[0]);
      EventLosesNothing(c, batch, lost, events[0]);
      EventUsesWork(c, events[0]);
      SafeRun(CallNext(c, events[0]), batch, lost, events[1..]);
    }
  }

  lemma CallInvUndisturbed<F>(c: Call<F>, batch: seq<F>, lost: nat)
    requires WellFormed(c.pipeline) && CallInv(c, batch, lost)
    ensures Undisturbed(c.pipeline)
  {
  }

  /** Work never runs negative, so a run cannot be longer than the work it starts with. */
  lemma {:induction false} WorkIsNatural<F>(s: State<F>, i: nat)
    requires WellFormed(s) && i <= |s.effects|
    ensures WorkFrom(s, i) >= 0
    decreases |s.effects| - i
  {
    if i < |s.effects| {
      WorkIsNatural(s, i + 1);
      TotalIsNatural(|s.channels[i].items|, 5 * (|s.effects| - i) + 1);
    }
  }

  lemma {:induction false} TotalIsNatural(count: nat, each: int)
    requires each >= 0
    ensures Total(count, each) >= 0
    decreases count
  {
    if count > 0 {
      TotalIsNatural(count - 1, each);
    }
  }

  /**
   A batch that fits into every queue: under every interleaving no offer fails, the call uses up its work one unit a
   step, it is never stuck before it returns, and it returns all effects applied to the batch, in order. Afterwards the
   pipeline is quiescent again.
   */
  lemma AddFramesIsCorrect<F>(s: State<F>, batch: seq<F>, events: seq<CallEvent>) returns (next: CallEvent)
    requires WellFormed(s) && Quiescent(s) && FitsEverywhere(s, |batch|)
    requires IsCallRun(Start(s, batch), events)
    ensures
      var c := ExecCall(Start(s, batch), events);
      && c.pipeline.rejected == s.rejected && c.pipeline.discarded == s.discarded
      && |events| + CallWork(c) == CallWork(Start(s, batch)) && CallWork(c) >= 0
      && (!c.Returned() ==> CallEnabled(c, next))
      && (c.Returned() ==> c.processed == AllApplied(s.effects, batch) && Quiescent(c.pipeline))
  {
    AllThroughIsApplied(s.effects, batch);
    var c := ExecCall(Start(s, batch), events);
    StartInv(s, batch);
    RunKeepsCallInv(Start(s, batch), batch, Lost(s), events);
    SafeRun(Start(s, batch), batch, Lost(s), events);
    RunOnlyLoses(Start(s, batch), events);
    CallWorkIsNatural(c);
    if !c.Returned() {
      next := CallCanMove(c, batch, Lost(s));
    } else {
      next := AddNext;
      assert c.processed + [] + [] == c.processed;
    }
  }

  /** Losses are counted up, never down. */
  lemma {:induction false} RunOnlyLoses<F>(c: Call<F>, events: seq<CallEvent>)
    requires WellFormed(c.pipeline) && IsCallRun(c, events)
    ensures c.pipeline.rejected <= ExecCall(c, events).pipeline.rejected
    ensures c.pipeline.discarded <= ExecCall(c, events).pipeline.discarded
    decreases |events|
  {
    if events != [] {
      RunOnlyLoses(CallNext(c, events[0]), events[1..]);
    }
  }

  /** Once a frame of the batch is lost the call never returns. */
  lemma LossMeansNoReturn<F>(s: State<F>, batch: seq<F>, events: seq<CallEvent>)
    requires WellFormed(s) && Quiescent(s) && IsCallRun(Start(s, batch), events)
    requires Lost(ExecCall(Start(s, batch), events).pipeline) > Lost(s)
    ensures !ExecCall(Start(s, batch), events).Returned()
  {
    StartInv(s, batch);
    RunKeepsCallInv(Start(s, batch), batch, Lost(s), events);
  }

  // ---------- larger batches can lose frames ----------

  /** The server's queues: Pipeline's inner queues between FrameProcessor's end queues. */
  ghost predicate ServerQueues<F>(s: State<F>)
    requires WellFormed(s)
  {
    var n := |s.effects|;
    && 1 <= n
    && forall i :: 0 <= i <= n ==> s.channels[i].capacity == if 0 < i < n then INNER_CAPACITY else END_CAPACITY
  }

  /** A server's pipeline with at least one stage, before any frame. */
  ghost function ServerPipeline<F>(effects: seq<F -> F>): (s: State<F>)
    requires effects != []
    ensures WellFormed(s) && ServerQueues(s) && AllWaiting(s) && Quiescent(s) && s.effects == effects
  {
    var n := |effects|;
    var s := Started(effects,
      seq(n + 1, i requires 0 <= i < n + 1 => if 0 < i < n then INNER_CAPACITY else END_CAPACITY));
    EmptyFlow(s, 0);
    s
  }

  /** The largest batch that cannot overflow a queue. */
  function SafeBatch(stages: nat): nat {
    if stages == 1 then END_CAPACITY else INNER_CAPACITY
  }

  lemma Prepend<F>(c: Call<F>, e: CallEvent, rest: seq<CallEvent>)
    requires WellFormed(c.pipeline) && CallEnabled(c, e) && IsCallRun(CallNext(c, e), rest)
    ensures IsCallRun(c, [e] + rest) && ExecCall(c, [e] + rest) == ExecCall(CallNext(c, e), rest)
  {
    assert ([e] + rest)[1..] == rest;
  }

  /** Adding frames without any worker stepping overflows the first queue. */
  lemma {:induction false} FloodFirst<F>(c: Call<F>) returns (events: seq<CallEvent>)
    requires WellFormed(c.pipeline) && |c.pipeline.channels[0].items| + |c.pending| > c.pipeline.channels[0].capacity
    ensures IsCallRun(c, events) && ExecCall(c, events).pipeline.rejected > c.pipeline.rejected
    decreases |c.pending|
  {
    var d := CallNext(c, AddNext);
    if c.pipeline.channels[0].Full() {
      events := [];
    } else {
      events := FloodFirst(d);
    }
    Prepend(c, AddNext, events);
    events := [AddNext] + events;
  }

  /** The first stage is idle and its queue empty. */
  ghost predicate FirstIdle<F>(c: Call<F>)
    requires WellFormed(c.pipeline)
  {
    var p := c.pipeline;
    && 1 <= |p.effects| && p.threads[0] == Thread(Waiting, false)
    && p.channels[0].items == [] && p.channels[0].capacity > 0
  }

  /** The first stage carries a frame that it is about to offer. */
  lemma CarryToOffer<F>(c: Call<F>) returns (d: Call<F>)
    requires WellFormed(c.pipeline) && FirstIdle(c) && c.pending != []
    ensures WellFormed(d.pipeline) && d.pipeline.effects == c.pipeline.effects
    ensures d.pipeline.threads[0].worker.Offering? && !d.pipeline.threads[0].interrupted
    ensures d.pipeline.channels == c.pipeline.channels && d.pipeline.rejected == c.pipeline.rejected
    ensures d.pending == c.pending[1..]
    ensures forall rest :: IsCallRun(d, rest) ==>
              var events := [AddNext, Step(0), Step(0), Step(0)] + rest;
              IsCallRun(c, events) && ExecCall(c, events) == ExecCall(d, rest)
  {
    var c1 := CallNext(c, AddNext);
    var c2 := CallNext(c1, Step(0));
    var c3 := CallNext(c2, Step(0));
    d := CallNext(c3, Step(0));
    assert c2.pipeline.channels[0] == c.pipeline.channels[0];
    assert c2.pipeline.channels == c.pipeline.channels;
    forall rest | IsCallRun(d, rest)
      ensures
        var events := [AddNext, Step(0), Step(0), Step(0)] + rest;
        IsCallRun(c, events) && ExecCall(c, events) == ExecCall(d, rest)
    {
      hide CallNext;
      Prepend(c3, Step(0), rest);
      Prepend(c2, Step(0), [Step(0)] + rest);
      Prepend(c1, Step(0), [Step(0)] + ([Step(0)] + rest));
      Prepend(c, AddNext, [Step(0)] + ([Step(0)] + ([Step(0)] + rest)));
      assert [AddNext, Step(0), Step(0), Step(0)] + rest == [AddNext] + ([Step(0)] + ([Step(0)] + ([Step(0)] + rest)));
    }
  }

  /** Pushing frames through the first stage while the second does not step overflows the queue between them. */
  lemma {:induction false} FloodSecond<F>(c: Call<F>) returns (events: seq<CallEvent>)
    requires WellFormed(c.pipeline) && FirstIdle(c)
    requires |c.pipeline.channels[1].items| + |c.pending| > c.pipeline.channels[1].capacity
    ensures IsCallRun(c, events) && ExecCall(c, events).pipeline.rejected > c.pipeline.rejected
    decreases |c.pending|
  {
    var d := CarryToOffer(c);
    var offered := CallNext(d, Step(0));
    if d.pipeline.channels[1].Full() {
      events := [];
    } else {
      var idle := CallNext(offered, Step(0));
      assert FirstIdle(idle) && idle.pending == d.pending && idle.pipeline.rejected == c.pipeline.rejected;
      assert |idle.pipeline.channels[1].items| == |c.pipeline.channels[1].items| + 1;
      events := FloodSecond(idle);
      Prepend(offered, Step(0), events);
      events := [Step(0)] + events;
    }
    Prepend(d, Step(0), events);
    events := [AddNext, Step(0), Step(0), Step(0)] + ([Step(0)] + events);
  }

  /** A quiescent pipeline whose workers are all in take(). */
  ghost predicate AllWaiting<F>(s: State<F>)
    requires WellFormed(s)
  {
    && (forall i :: 0 <= i < |s.threads| ==> s.threads[i] == Thread(Waiting, false))
    && (forall i :: 0 <= i < |s.channels| ==> s.channels[i].items == [])
  }

  ghost predicate NeverLoses<F>(s: State<F>, batch: seq<F>)
    requires WellFormed(s)
  {
    forall events :: IsCallRun(Start(s, batch), events) ==> Lost(ExecCall(Start(s, batch), events).pipeline) == Lost(s)
  }

  /**
   On the server, addFrames is free of losses under every interleaving exactly for batches of at most 20 frames when
   there is one stage, and of at most 2 frames otherwise.
   */
  lemma SafeBatchIff<F>(s: State<F>, batch: seq<F>)
    requires WellFormed(s) && ServerQueues(s) && AllWaiting(s)
    ensures NeverLoses(s, batch) <==> |batch| <= SafeBatch(|s.effects|)
  {
    EmptyFlow(s, 0);
    var c := Start(s, batch);
    if |batch| <= SafeBatch(|s.effects|) {
      forall events | IsCallRun(c, events)
        ensures Lost(ExecCall(c, events).pipeline) == Lost(s)
      {
        var _ := AddFramesIsCorrect(s, batch, events);
      }
    } else {
      var events;
      if |s.effects| == 1 {
        events := FloodFirst(c);
      } else {
        events := FloodSecond(c);
      }
      RunOnlyLoses(c, events);
      assert Lost(ExecCall(c, events).pipeline) > Lost(s);
    }
  }

  // ---------- a larger batch can leave the call stuck ----------

  lemma {:induction false} RunThenRun<F>(c: Call<F>, a: seq<CallEvent>, b: seq<CallEvent>)
    requires WellFormed(c.pipeline) && IsCallRun(c, a) && IsCallRun(ExecCall(c, a), b)
    ensures IsCallRun(c, a + b) && ExecCall(c, a + b) == ExecCall(ExecCall(c, a), b)
    decreases |a|
  {
    hide CallNext, CallEnabled;
    if a == [] {
      assert a + b == b;
    } else {
      RunThenRun(CallNext(c, a[0]), a[1..], b);
      Prepend(c, a[0], a[1..] + b);
      assert a + b == [a[0]] + (a[1..] + b);
    }
  }

  lemma FailedOfferLeavesLess<F>(s: State<F>, i: nat)
    requires WellFormed(s) && Undisturbed(s) && CanWork(s, i) && s.threads[i].worker.Offering?
    requires Next(s, Work(i)).rejected != s.rejected
    ensures WorkFrom(Next(s, Work(i)), i) < WorkFrom(s, i)
  {
    hide WorkFrom, Total;
    var n, t := |s.effects|, Next(s, Work(i));
    assert SameFrom(s, t, i + 1) && t.channels[i] == s.channels[i];
    assert ThreadWork(n, i, t.threads[i].worker) < ThreadWork(n, i, s.threads[i].worker);
    hide *;
    WorkUnfold(s, i);
    WorkUnfold(t, i);
    WorkSame(s, t, i + 1);
  }

  lemma FailedOfferUsesWork<F>(s: State<F>, i: nat)
    requires WellFormed(s) && Undisturbed(s) && CanWork(s, i) && s.threads[i].worker.Offering?
    requires Next(s, Work(i)).rejected != s.rejected
    ensures WorkFrom(Next(s, Work(i)), 0) < WorkFrom(s, 0)
  {
    hide WorkFrom, Next;
    WorkSameBefore(s, i);
    WorkDiffers(s, Next(s, Work(i)), 0, i);
    FailedOfferLeavesLess(s, i);
  }

  lemma FailedAddUsesWork<F>(c: Call<F>)
    requires WellFormed(c.pipeline) && CallEnabled(c, AddNext) && c.pipeline.channels[0].Full()
    ensures CallWork(CallNext(c, AddNext)) < CallWork(c)
  {
    WorkSame(c.pipeline, CallNext(c, AddNext).pipeline, 0);
    TotalNext(|c.pending| - 1, 5 * |c.pipeline.effects| + 2);
    hide WorkFrom;
  }

  /** Every event of a call uses up work, whether or not it loses a frame. */
  lemma EveryEventUsesWork<F>(c: Call<F>, e: CallEvent)
    requires WellFormed(c.pipeline) && Undisturbed(c.pipeline) && CallEnabled(c, e)
    ensures CallWork(CallNext(c, e)) < CallWork(c)
    ensures Undisturbed(CallNext(c, e).pipeline)
  {
    if e.Step? {
      StepIsUndisturbed(c.pipeline, e.stage);
    }
    if Lost(CallNext(c, e).pipeline) == Lost(c.pipeline) {
      EventUsesWork(c, e);
    } else if e.AddNext? {
      FailedAddUsesWork(c);
    } else {
      FailedOfferUsesWork(c.pipeline, e.stage);
    }
  }

  ghost predicate Halted<F>(c: Call<F>)
    requires WellFormed(c.pipeline)
  {
    forall e :: !CallEnabled(c, e)
  }

  lemma CallWorkIsNatural<F>(c: Call<F>)
    requires WellFormed(c.pipeline)
    ensures CallWork(c) >= 0
  {
    WorkIsNatural(c.pipeline, 0);
    TotalIsNatural(|c.pending|, 5 * |c.pipeline.effects| + 2);
  }

  /** Any call can be run until nothing is enabled any more. */
  lemma {:induction false} RunToHalt<F>(c: Call<F>, work: nat) returns (events: seq<CallEvent>)
    requires WellFormed(c.pipeline) && Undisturbed(c.pipeline) && CallWork(c) <= work
    ensures IsCallRun(c, events) && Halted(ExecCall(c, events))
    decreases work
  {
    hide CallNext, CallEnabled, CallWork, Undisturbed;
    if Halted(c) {
      events := [];
    } else {
      var e :| CallEnabled(c, e);
      EveryEventUsesWork(c, e);
      CallWorkIsNatural(CallNext(c, e));
      events := RunToHalt(CallNext(c, e), work - 1);
      Prepend(c, e, events);
      events := [e] + events;
    }
  }

  /** Whenever nothing can step any more, the call has returned. */
  ghost predicate AlwaysReturns<F>(s: State<F>, batch: seq<F>)
    requires WellFormed(s)
  {
    forall events ::
      IsCallRun(Start(s, batch), events) && Halted(ExecCall(Start(s, batch), events)) ==>
        ExecCall(Start(s, batch), events).Returned()
  }

  /** With a larger batch some interleaving leaves addFrames blocked for ever in getFrame. */
  lemma StuckRun<F>(s: State<F>, batch: seq<F>) returns (events: seq<CallEvent>)
    requires WellFormed(s) && ServerQueues(s) && AllWaiting(s) && |batch| > SafeBatch(|s.effects|)
    ensures IsCallRun(Start(s, batch), events)
    ensures Halted(ExecCall(Start(s, batch), events)) && !ExecCall(Start(s, batch), events).Returned()
  {
    EmptyFlow(s, 0);
    var c := Start(s, batch);
    if |s.effects| == 1 {
      events := FloodFirst(c);
    } else {
      events := FloodSecond(c);
    }
    RunOnlyLoses(c, events);
    StartInv(s, batch);
    RunKeepsCallInv(c, batch, Lost(s), events);
    var d := ExecCall(c, events);
    CallWorkIsNatural(d);
    var more := RunToHalt(d, CallWork(d));
    RunOnlyLoses(d, more);
    RunThenRun(c, events, more);
    events := events + more;
    LossMeansNoReturn(s, batch, events);
  }

  /** The server's addFrames always returns exactly for the batches that cannot overflow a queue. */
  lemma AlwaysReturnsIff<F>(s: State<F>, batch: seq<F>)
    requires WellFormed(s) && ServerQueues(s) && AllWaiting(s)
    ensures AlwaysReturns(s, batch) <==> |batch| <= SafeBatch(|s.effects|)
  {
    EmptyFlow(s, 0);
    if |batch| <= SafeBatch(|s.effects|) {
      forall events | IsCallRun(Start(s, batch), events) && Halted(ExecCall(Start(s, batch), events))
        ensures ExecCall(Start(s, batch), events).Returned()
      {
        var next := AddFramesIsCorrect(s, batch, events);
      }
    } else {
      var events := StuckRun(s, batch);
    }
  }
}
