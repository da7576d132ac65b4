/**
 Runs of a pipeline: one worker thread per effect, joined by bounded queues whose `offer`
 drops a frame when the queue is full. A run is any interleaving of the threads' steps, of
 frames being added and taken out, and of interrupts.
 */
module PipelineRun {
  import opened Subsequences

  /** Where a worker thread is in its loop, and the frame it carries. */
  datatype Worker<F> =
    | Waiting               // in take()
    | Applying(input: F)    // the frame is taken, the effect is not yet applied
    | Checking(output: F)   // the effect is applied, the interrupt flag is not yet read
    | Offering(output: F)   // about to offer the frame
    | Rechecking            // the frame is offered, the flag is not yet read again
    | Stopped

  datatype Thread<F> = Thread(worker: Worker<F>, interrupted: bool)

  datatype Channel<F> = Channel(capacity: nat, items: seq<F>) {
    predicate Full() {
      |items| >= capacity
    }

    /** LinkedBlockingQueue.offer: a full queue is left as it is. */
    function Offer(frame: F): Channel<F> {
      if Full() then this else this.(items := items + [frame])
    }

    function Poll(): Channel<F>
      requires items != []
    {
      this.(items := items[1..])
    }
  }

  /** Thread i applies effects[i], takes from channels[i] and offers to channels[i + 1]. */
  datatype State<!F> = State(
    effects: seq<F -> F>,
    threads: seq<Thread<F>>,
    channels: seq<Channel<F>>,
    admitted: seq<F>,   // every frame passed to addFrame
    delivered: seq<F>,  // every frame taken out by getFrame
    rejected: nat,      // failed offers
    discarded: nat      // frames lost because their thread was interrupted
  )

  datatype Event<F> =
    | Add(frame: F)      // FrameProcessor.addFrame
    | Deliver            // FrameProcessor.getFrame
    | Work(stage: nat)   // the next step of a worker thread
    | Interrupt(stage: nat)

  ghost predicate WellFormed<F>(s: State<F>) {
    && |s.threads| == |s.effects|
    && |s.channels| == |s.effects| + 1
    && forall i :: 0 <= i < |s.channels| ==> |s.channels[i].items| <= s.channels[i].capacity
  }

  // ---------- steps ----------

  ghost predicate CanWork<F>(s: State<F>, i: nat)
    requires WellFormed(s)
  {
    && i < |s.threads|
    && match s.threads[i].worker
       case Waiting => s.threads[i].interrupted || s.channels[i].items != []
       case Stopped => false
       case _ => true
  }

  ghost predicate Enabled<F>(s: State<F>, e: Event<F>)
    requires WellFormed(s)
  {
    match e
    case Add(_) => true
    case Deliver => s.channels[|s.effects|].items != []
    case Work(i) => CanWork(s, i)
    case Interrupt(i) => i < |s.threads|
  }

  ghost function SetWorker<F>(s: State<F>, i: nat, worker: Worker<F>): State<F>
    requires i < |s.threads|
  {
    s.(threads := s.threads[i := s.threads[i].(worker := worker)])
  }

  /** The thread reads its interrupt flag, which clears it, and leaves its loop. */
  ghost function Quit<F>(s: State<F>, i: nat): State<F>
    requires i < |s.threads|
  {
    s.(threads := s.threads[i := Thread(Stopped, false)])
  }

  /** An offer to channel `j`. */
  ghost function OfferTo<F>(s: State<F>, j: nat, frame: F): State<F>
    requires j < |s.channels|
  {
    s.(channels := s.channels[j := s.channels[j].Offer(frame)],
       rejected := s.rejected + if s.channels[j].Full() then 1 else 0)
  }

  ghost function WorkStep<F>(s: State<F>, i: nat): State<F>
    requires WellFormed(s) && CanWork(s, i)
  {
    match s.threads[i].worker
    case Waiting =>
      if s.threads[i].interrupted then Quit(s, i)
      else SetWorker(s.(channels := s.channels[i := s.channels[i].Poll()]), i, Applying(s.channels[i].items[0]))
    case Applying(frame) => SetWorker(s, i, Checking(s.effects[i](frame)))
    case Checking(frame) =>
      if s.threads[i].interrupted then Quit(s, i).(discarded := s.discarded + 1)
      else SetWorker(s, i, Offering(frame))
    case Offering(frame) => SetWorker(OfferTo(s, i + 1, frame), i, Rechecking)
    case Rechecking =>
      if s.threads[i].interrupted then Quit(s, i) else SetWorker(s, i, Waiting)
  }

  ghost function Next<F>(s: State<F>, e: Event<F>): (r: State<F>)
    requires WellFormed(s) && Enabled(s, e)
    ensures WellFormed(r) && r.effects == s.effects
  {
    match e
    case Add(frame) => OfferTo(s, 0, frame).(admitted := s.admitted + [frame])
    case Deliver =>
      var n := |s.effects|;
      s.(channels := s.channels[n := s.channels[n].Poll()], delivered := s.delivered + [s.channels[n].items[0]])
    case Work(i) => WorkStep(s, i)
    case Interrupt(i) =>
      if s.threads[i].worker.Stopped? then s
      else s.(threads := s.threads[i := s.threads[i].(interrupted := true)])
  }

  /** Every event of the run is possible when it happens. */
  ghost predicate IsRun<F>(s: State<F>, events: seq<Event<F>>)
    requires WellFormed(s)
    decreases |events|
  {
    events == [] || (Enabled(s, events[0]) && IsRun(Next(s, events[0]), events[1..]))
  }

  ghost function Exec<F>(s: State<F>, events: seq<Event<F>>): (r: State<F>)
    requires WellFormed(s) && IsRun(s, events)
    ensures WellFormed(r) && r.effects == s.effects
    decreases |events|
  {
    if events == [] then s else Exec(Next(s, events[0]), events[1..])
  }

  // ---------- the line of frames ----------

  /** What the effects from index `i` on make of a frame. */
  ghost function Through<F>(effects: seq<F -> F>, i: nat, frame: F): F
    requires i <= |effects|
    decreases |effects| - i
  {
    if i == |effects| then frame else Through(effects, i + 1, effects[i](frame))
  }

  ghost function AllThrough<F>(effects: seq<F -> F>, i: nat, frames: seq<F>): (r: seq<F>)
    requires i <= |effects|
    ensures |r| == |frames|
  {
    seq(|frames|, k requires 0 <= k < |frames| => Through(effects, i, frames[k]))
  }

  /** What the effects make of a frame, the last of them applied to what the others made of it. */
  ghost function Applied<F>(effects: seq<F -> F>, frame: F): F
    decreases |effects|
  {
    if effects == [] then frame
    else effects[|effects| - 1](Applied(effects[..|effects| - 1], frame))
  }

  /** The stages apply their effects in the order of the chain: the first effect first, and the last one last. */
  lemma {:induction false} ThroughIsApplied<F>(effects: seq<F -> F>, i: nat, frame: F)
    requires i <= |effects|
    ensures Through(effects, i, Applied(effects[..i], frame)) == Applied(effects, frame)
    decreases |effects| - i
  {
    if i == |effects| {
      assert effects[..i] == effects;
    } else {
      assert effects[..i + 1][..i] == effects[..i];
      ThroughIsApplied(effects, i + 1, frame);
    }
  }

  ghost function AllApplied<F>(effects: seq<F -> F>, frames: seq<F>): (r: seq<F>)
    ensures |r| == |frames|
  {
    seq(|frames|, k requires 0 <= k < |frames| => Applied(effects, frames[k]))
  }

  lemma AllThroughIsApplied<F>(effects: seq<F -> F>, frames: seq<F>)
    ensures AllThrough(effects, 0, frames) == AllApplied(effects, frames)
  {
    forall k | 0 <= k < |frames| ensures AllThrough(effects, 0, frames)[k] == Applied(effects, frames[k]) {
      assert effects[..0] == [];
      ThroughIsApplied(effects, 0, frames[k]);
    }
  }

  lemma TwoStages<F>(f: F -> F, g: F -> F, frame: F)
    ensures Applied([f, g], frame) == g(f(frame))
  {
    assert [f, g][..1] == [f] && [f][..0] == [];
    assert Applied([f], frame) == f(frame);
  }

  lemma AllThroughAppend<F>(effects: seq<F -> F>, i: nat, a: seq<F>, b: seq<F>)
    requires i <= |effects|
    ensures AllThrough(effects, i, a + b) == AllThrough(effects, i, a) + AllThrough(effects, i, b)
  {
  }

  lemma AllThroughOne<F>(effects: seq<F -> F>, i: nat, frame: F)
    requires i <= |effects|
    ensures AllThrough(effects, i, [frame]) == [Through(effects, i, frame)]
  {
  }

  /** The frame that thread `i` carries, as it will leave the pipeline. */
  ghost function Carried<F>(s: State<F>, i: nat): seq<F>
    requires WellFormed(s) && i < |s.threads|
  {
    match s.threads[i].worker
    case Applying(frame) => [Through(s.effects, i, frame)]
    case Checking(frame) => [Through(s.effects, i + 1, frame)]
    case Offering(frame) => [Through(s.effects, i + 1, frame)]
    case _ => []
  }

  /** Channel `i` and the thread that takes from it. */
  ghost function Segment<F>(s: State<F>, i: nat): seq<F>
    requires WellFormed(s) && i < |s.threads|
  {
    Carried(s, i) + AllThrough(s.effects, i, s.channels[i].items)
  }

  /** All frames from channel `i` on, in the order and form in which they will leave the pipeline. */
  ghost function Flow<F>(s: State<F>, i: nat): seq<F>
    requires WellFormed(s) && i <= |s.effects|
    decreases |s.effects| - i
  {
    if i == |s.effects| then AllThrough(s.effects, i, s.channels[i].items)
    else Flow(s, i + 1) + Segment(s, i)
  }

  /** The frames between channel `i` and channel `j`. */
  ghost function Before<F>(s: State<F>, i: nat, j: nat): seq<F>
    requires WellFormed(s) && i <= j <= |s.effects|
    decreases j - i
  {
    if i == j then [] else Before(s, i + 1, j) + Segment(s, i)
  }

  lemma {:induction false} FlowSplits<F>(s: State<F>, i: nat, j: nat)
    requires WellFormed(s) && i <= j <= |s.effects|
    ensures Flow(s, i) == Flow(s, j) + Before(s, i, j)
    decreases j - i
  {
    hide Segment, AllThrough;
    if i < j {
      FlowSplits(s, i + 1, j);
    }
  }

  /** The two states agree on everything before channel `j`. */
  ghost predicate SameBefore<F>(s: State<F>, t: State<F>, j: nat)
    requires WellFormed(s) && WellFormed(t)
  {
    && s.effects == t.effects && j <= |s.effects|
    && forall k :: 0 <= k < j ==> s.channels[k] == t.channels[k] && s.threads[k].worker == t.threads[k].worker
  }

  lemma SegmentSame<F>(s: State<F>, t: State<F>, i: nat)
    requires WellFormed(s) && WellFormed(t) && s.effects == t.effects && i < |s.effects|
    requires s.channels[i] == t.channels[i] && s.threads[i].worker == t.threads[i].worker
    ensures Segment(s, i) == Segment(t, i)
  {
  }

  lemma {:induction false} BeforeSame<F>(s: State<F>, t: State<F>, i: nat, j: nat)
    requires WellFormed(s) && WellFormed(t) && SameBefore(s, t, j) && i <= j
    ensures Before(s, i, j) == Before(t, i, j)
    decreases j - i
  {
    hide Segment;
    if i < j {
      BeforeSame(s, t, i + 1, j);
      SegmentSame(s, t, i);
    }
  }

  ghost predicate SameFrom<F>(s: State<F>, t: State<F>, j: nat)
    requires WellFormed(s) && WellFormed(t)
  {
    && s.effects == t.effects && j <= |s.effects|
    && (forall k :: j <= k <= |s.effects| ==> s.channels[k] == t.channels[k])
    && (forall k :: j <= k < |s.effects| ==> s.threads[k].worker == t.threads[k].worker)
  }

  lemma {:induction false} FlowSame<F>(s: State<F>, t: State<F>, j: nat)
    requires WellFormed(s) && WellFormed(t) && SameFrom(s, t, j)
    ensures Flow(s, j) == Flow(t, j)
    decreases |s.effects| - j
  {
    hide Segment, AllThrough;
    if j < |s.effects| {
      FlowSame(s, t, j + 1);
      SegmentSame(s, t, j);
    }
  }

  // ---------- what a step does to the line ----------

  /** The frames delivered so far, followed by those still inside. */
  ghost function Line<F>(s: State<F>): seq<F>
    requires WellFormed(s)
  {
    s.delivered + Flow(s, 0)
  }

  /** A step of thread `i` moves its frame along, or drops it; the frames before and after it stay as they are. */
  ghost predicate Moves<F>(s: State<F>, t: State<F>, i: nat)
    requires WellFormed(s) && WellFormed(t) && i < |s.effects|
  {
    && t.effects == s.effects && t.delivered == s.delivered && t.admitted == s.admitted
    && var lost := (t.rejected - s.rejected) + (t.discarded - s.discarded);
    if lost == 0 then Flow(t, i) == Flow(s, i)
    else lost == 1 && |Carried(s, i)| == 1
         && Flow(s, i) == Flow(s, i + 1) + Carried(s, i) + AllThrough(s.effects, i, s.channels[i].items)
         && Flow(t, i) == Flow(s, i + 1) + AllThrough(s.effects, i, s.channels[i].items)
  }

  lemma FlowUnfold<F>(s: State<F>, i: nat)
    requires WellFormed(s) && i < |s.effects|
    ensures Flow(s, i) == Flow(s, i + 1) + (Carried(s, i) + AllThrough(s.effects, i, s.channels[i].items))
  {
    hide Carried, AllThrough;
  }

  lemma Regroup<F>(d: seq<F>, a: seq<F>, x: seq<F>, b: seq<F>, c: seq<F>)
    ensures d + ((a + x + b) + c) == (d + a) + x + (b + c)
    ensures d + ((a + b) + c) == (d + a) + (b + c)
    ensures d + (a + (x + b)) == d + (a + x) + b == d + a + x + b
    ensures (d + a) + ([] + b) == d + (a + b)
  {
    assert [] + b == b;
  }

  /** Appending a frame to channel `j` appends it to the flow from `j` on. */
  lemma FlowAppend<F>(s: State<F>, t: State<F>, j: nat, frame: F)
    requires WellFormed(s) && WellFormed(t) && s.effects == t.effects && j <= |s.effects|
    requires j < |s.effects| ==> SameFrom(s, t, j + 1) && s.threads[j].worker == t.threads[j].worker
    requires t.channels[j].items == s.channels[j].items + [frame]
    ensures Flow(t, j) == Flow(s, j) + [Through(s.effects, j, frame)]
  {
    AllThroughAppend(s.effects, j, s.channels[j].items, [frame]);
    AllThroughOne(s.effects, j, frame);
    hide AllThrough, Through;
    if j < |s.effects| {
      FlowUnfold(s, j);
      FlowUnfold(t, j);
      FlowSame(s, t, j + 1);
      assert Carried(t, j) == Carried(s, j);
      hide *;
      Regroup(Flow(s, j + 1), Carried(s, j), AllThrough(s.effects, j, s.channels[j].items),
              [Through(s.effects, j, frame)], []);
    }
  }

  lemma TakeMoves<F>(s: State<F>, i: nat)
    requires WellFormed(s) && CanWork(s, i) && s.threads[i].worker.Waiting? && !s.threads[i].interrupted
    ensures Moves(s, Next(s, Work(i)), i)
  {
    var t, items := Next(s, Work(i)), s.channels[i].items;
    FlowSame(s, t, i + 1);
    FlowUnfold(s, i);
    FlowUnfold(t, i);
    AllThroughAppend(s.effects, i, [items[0]], items[1..]);
    AllThroughOne(s.effects, i, items[0]);
    hide AllThrough, Through, Flow;
    assert items == [items[0]] + items[1..];
    assert Carried(t, i) == [Through(s.effects, i, items[0])] && Carried(s, i) == [];
    assert [] + AllThrough(s.effects, i, items) == Carried(t, i) + AllThrough(s.effects, i, items[1..]);
  }

  lemma OfferMoves<F>(s: State<F>, i: nat)
    requires WellFormed(s) && CanWork(s, i) && s.threads[i].worker.Offering?
    ensures Moves(s, Next(s, Work(i)), i)
  {
    hide Moves;
    if s.channels[i + 1].Full() {
      FailedOfferMoves(s, i);
    } else {
      MadeOfferMoves(s, i);
    }
  }

  lemma FailedOfferMoves<F>(s: State<F>, i: nat)
    requires WellFormed(s) && CanWork(s, i) && s.threads[i].worker.Offering? && s.channels[i + 1].Full()
    ensures Moves(s, Next(s, Work(i)), i)
  {
    hide AllThrough, Through, Flow;
    var t := Next(s, Work(i));
    var items := AllThrough(s.effects, i, s.channels[i].items);
    FlowUnfold(s, i);
    FlowUnfold(t, i);
    assert t.channels[i] == s.channels[i];
    FlowSame(s, t, i + 1);
    Regroup([], Flow(s, i + 1), Carried(s, i), items, []);
  }

  lemma MadeOfferMoves<F>(s: State<F>, i: nat)
    requires WellFormed(s) && CanWork(s, i) && s.threads[i].worker.Offering? && !s.channels[i + 1].Full()
    ensures Moves(s, Next(s, Work(i)), i)
  {
    hide AllThrough, Through, Flow;
    var t, frame := Next(s, Work(i)), s.threads[i].worker.output;
    var items := AllThrough(s.effects, i, s.channels[i].items);
    FlowUnfold(s, i);
    FlowUnfold(t, i);
    assert t.channels[i] == s.channels[i];
    FlowAppend(s, t, i + 1, frame);
    Regroup(Flow(s, i + 1), Carried(s, i), [], items, []);
    assert Flow(s, i + 1) + (Carried(s, i) + items) == (Flow(s, i + 1) + Carried(s, i)) + ([] + items);
  }

  /** Only thread `i` changes. */
  ghost predicate OnlyThread<F>(s: State<F>, t: State<F>, i: nat)
    requires WellFormed(s) && WellFormed(t)
  {
    && i < |s.effects| && t.effects == s.effects && t.channels == s.channels && SameFrom(s, t, i + 1)
    && t.admitted == s.admitted && t.delivered == s.delivered && t.rejected == s.rejected
    && ((t.discarded == s.discarded && Carried(t, i) == Carried(s, i))
        || (t.discarded == s.discarded + 1 && |Carried(s, i)| == 1 && Carried(t, i) == []))
  }

  lemma ThreadStep<F>(s: State<F>, i: nat)
    requires WellFormed(s) && CanWork(s, i) && !s.threads[i].worker.Offering?
    requires s.threads[i].worker.Waiting? ==> s.threads[i].interrupted
    ensures OnlyThread(s, Next(s, Work(i)), i)
  {
  }

  lemma ThreadMoves<F>(s: State<F>, t: State<F>, i: nat)
    requires WellFormed(s) && WellFormed(t) && OnlyThread(s, t, i)
    ensures Moves(s, t, i)
  {
    hide Flow, AllThrough, Through;
    FlowSame(s, t, i + 1);
    FlowUnfold(s, i);
    FlowUnfold(t, i);
  }

  lemma WorkMoves<F>(s: State<F>, i: nat)
    requires WellFormed(s) && CanWork(s, i)
    ensures Moves(s, Next(s, Work(i)), i)
  {
    hide Moves, Next;
    if s.threads[i].worker.Waiting? && !s.threads[i].interrupted {
      TakeMoves(s, i);
    } else if s.threads[i].worker.Offering? {
      OfferMoves(s, i);
    } else {
      ThreadStep(s, i);
      ThreadMoves(s, Next(s, Work(i)), i);
    }
  }

  // ---------- every run ----------

  ghost function Lost<F>(s: State<F>): nat {
    s.rejected + s.discarded
  }

  /**
   What every run keeps: the line is the admitted frames, seen through all effects and in the order they were
   admitted, with exactly the lost frames missing.
   */
  ghost predicate Inv<F>(s: State<F>)
    requires WellFormed(s)
  {
    && IsSubsequence(Line(s), AllThrough(s.effects, 0, s.admitted))
    && |Line(s)| + Lost(s) == |s.admitted|
  }

  lemma WorkSameBefore<F>(s: State<F>, i: nat)
    requires WellFormed(s) && CanWork(s, i)
    ensures SameBefore(s, Next(s, Work(i)), i)
  {
  }

  /** A worker's step keeps the line, or deletes the one frame that it loses. */
  lemma WorkOnLine<F>(s: State<F>, i: nat) returns (front: seq<F>, back: seq<F>)
    requires WellFormed(s) && CanWork(s, i)
    ensures
      var t := Next(s, Work(i));
      && t.admitted == s.admitted
      && if Lost(t) == Lost(s) then Line(t) == Line(s)
         else Lost(t) == Lost(s) + 1 && |Carried(s, i)| == 1
              && Line(s) == front + Carried(s, i) + back && Line(t) == front + back
  {
    var t := Next(s, Work(i));
    WorkMoves(s, i);
    WorkSameBefore(s, i);
    FlowSplits(s, 0, i);
    FlowSplits(t, 0, i);
    BeforeSame(s, t, 0, i);
    assert t.delivered == s.delivered;
    hide *;
    Regroup(s.delivered, Flow(s, i + 1), Carried(s, i), AllThrough(s.effects, i, s.channels[i].items), Before(s, 0, i));
    front, back := s.delivered + Flow(s, i + 1), AllThrough(s.effects, i, s.channels[i].items) + Before(s, 0, i);
  }

  lemma WorkKeepsInv<F>(s: State<F>, i: nat)
    requires WellFormed(s) && CanWork(s, i) && Inv(s)
    ensures Inv(Next(s, Work(i)))
  {
    hide Next, Line, AllThrough, Carried, Lost;
    var t := Next(s, Work(i));
    var front, back := WorkOnLine(s, i);
    if Lost(t) != Lost(s) {
      var frame := Carried(s, i)[0];
      assert Carried(s, i) == [frame];
      DeleteOne(front, frame, back);
      Transitive(Line(t), Line(s), AllThrough(s.effects, 0, s.admitted));
    }
  }

  lemma AddKeepsInv<F>(s: State<F>, frame: F)
    requires WellFormed(s) && Inv(s)
    ensures Inv(Next(s, Add(frame)))
  {
    var t, all, image := Next(s, Add(frame)), AllThrough(s.effects, 0, s.admitted), [Through(s.effects, 0, frame)];
    AllThroughAppend(s.effects, 0, s.admitted, [frame]);
    assert AllThrough(s.effects, 0, t.admitted) == all + image;
    if s.channels[0].Full() {
      FlowSame(s, t, 0);
      DeleteOne(all, image[0], []);
      assert all + [] == all && all + image + [] == all + image;
      Transitive(Line(s), all, all + image);
    } else {
      FlowAppend(s, t, 0, frame);
      assert Line(t) == Line(s) + image;
      Append(Line(s), all, image);
    }
  }

  /** Frames in the processed queue are already in their final form. */
  lemma FlowOfLast<F>(s: State<F>)
    requires WellFormed(s)
    ensures Flow(s, |s.effects|) == s.channels[|s.effects|].items
  {
    var n := |s.effects|;
    assert AllThrough(s.effects, n, s.channels[n].items) == s.channels[n].items;
  }

  lemma DeliverTakesFirst<F>(s: State<F>)
    requires WellFormed(s) && Enabled(s, Deliver)
    ensures Flow(s, 0) == [s.channels[|s.effects|].items[0]] + Flow(Next(s, Deliver), 0)
  {
    var n, t := |s.effects|, Next(s, Deliver);
    var items := s.channels[n].items;
    assert t.channels[n].items == items[1..];
    FlowOfLast(s);
    FlowOfLast(t);
    FlowSplits(s, 0, n);
    FlowSplits(t, 0, n);
    BeforeSame(s, t, 0, n);
    hide *;
    assert items == [items[0]] + items[1..];
  }

  lemma DeliverKeepsLine<F>(s: State<F>)
    requires WellFormed(s) && Enabled(s, Deliver)
    ensures Line(Next(s, Deliver)) == Line(s)
  {
    DeliverTakesFirst(s);
    hide Flow;
  }

  lemma InterruptKeepsLine<F>(s: State<F>, i: nat)
    requires WellFormed(s) && Enabled(s, Interrupt(i))
    ensures Line(Next(s, Interrupt(i))) == Line(s)
  {
    FlowSame(s, Next(s, Interrupt(i)), 0);
  }

  lemma StepKeepsInv<F>(s: State<F>, e: Event<F>)
    requires WellFormed(s) && Enabled(s, e) && Inv(s)
    ensures Inv(Next(s, e))
  {
    match e
    case Add(frame) => AddKeepsInv(s, frame);
    case Work(i) => WorkKeepsInv(s, i);
    case Deliver => DeliverKeepsLine(s);
    case Interrupt(i) => InterruptKeepsLine(s, i);
  }

  lemma {:induction false} RunKeepsInv<F>(s: State<F>, events: seq<Event<F>>)
    requires WellFormed(s) && Inv(s) && IsRun(s, events)
    ensures Inv(Exec(s, events))
    decreases |events|
  {
    hide Inv, Next;
    if events != [] {
      StepKeepsInv(s, events[0]);
      RunKeepsInv(Next(s, events[0]), events[1..]);
    }
  }

  // ---------- conservation ----------

  /** Frames waiting in channel `i` and later ones. */
  ghost function QueuedFrom<F>(s: State<F>, i: nat): nat
    requires WellFormed(s) && i <= |s.channels|
    decreases |s.channels| - i
  {
    if i == |s.channels| then 0 else |s.channels[i].items| + QueuedFrom(s, i + 1)
  }

  /** Frames carried by thread `i` and later ones. */
  ghost function InFlightFrom<F>(s: State<F>, i: nat): nat
    requires WellFormed(s) && i <= |s.threads|
    decreases |s.threads| - i
  {
    if i == |s.threads| then 0
    else (if s.threads[i].worker.Waiting? || s.threads[i].worker.Rechecking?
                || s.threads[i].worker.Stopped? then 0 else 1)
         + InFlightFrom(s, i + 1)
  }

  lemma {:induction false} FlowCount<F>(s: State<F>, i: nat)
    requires WellFormed(s) && i <= |s.effects|
    ensures |Flow(s, i)| == QueuedFrom(s, i) + InFlightFrom(s, i)
    decreases |s.effects| - i
  {
    if i < |s.effects| {
      FlowCount(s, i + 1);
    }
  }

  /** Every channel empty, every thread in its loop and not interrupted, nothing admitted yet. */
  ghost predicate Fresh<F>(s: State<F>) {
    && WellFormed(s)
    && (forall i :: 0 <= i < |s.channels| ==> s.channels[i].items == [])
    && (forall i :: 0 <= i < |s.threads| ==> s.threads[i] == Thread(Waiting, false))
    && s.admitted == [] && s.delivered == [] && s.rejected == 0 && s.discarded == 0
  }

  lemma {:induction false} EmptyFlow<F>(s: State<F>, i: nat)
    requires WellFormed(s) && i <= |s.effects|
    requires forall k :: 0 <= k < |s.channels| ==> s.channels[k].items == []
    requires forall k :: 0 <= k < |s.threads| ==> s.threads[k].worker.Waiting? || s.threads[k].worker.Rechecking?
    ensures Flow(s, i) == []
    decreases |s.effects| - i
  {
    if i < |s.effects| {
      EmptyFlow(s, i + 1);
    }
  }

  lemma {:induction false} PrefixOfSubsequence<F>(a: seq<F>, b: seq<F>, c: seq<F>)
    requires IsSubsequence(a + b, c)
    ensures IsSubsequence(a, c)
    decreases |b|
  {
    if b == [] {
      assert a + b == a;
    } else {
      var front := b[..|b| - 1];
      assert a + b == a + front + [b[|b| - 1]];
      DeleteOne(a + front, b[|b| - 1], []);
      assert a + front + [] == a + front;
      assert a + front + [b[|b| - 1]] + [] == a + b;
      Transitive(a + front, a + b, c);
      PrefixOfSubsequence(a, front, c);
    }
  }

  /**
   In every run, whatever is dropped: the frames that reached the processed queue are all effects applied, in order, to
   a subsequence of the admitted frames; every admitted frame is delivered, queued, carried, or was lost; no queue
   exceeds its capacity.
   */
  lemma EveryRun<F>(s0: State<F>, events: seq<Event<F>>)
    requires Fresh(s0) && IsRun(s0, events)
    ensures
      var s := Exec(s0, events);
      && IsSubsequence(s.delivered + s.channels[|s.effects|].items, AllApplied(s.effects, s.admitted))
      && |s.admitted| == |s.delivered| + QueuedFrom(s, 0) + InFlightFrom(s, 0) + s.rejected + s.discarded
      && forall i :: 0 <= i < |s.channels| ==> |s.channels[i].items| <= s.channels[i].capacity
  {
    EmptyFlow(s0, 0);
    RunKeepsInv(s0, events);
    var s := Exec(s0, events);
    FlowCount(s, 0);
    FlowSplits(s, 0, |s.effects|);
    FlowOfLast(s);
    AllThroughIsApplied(s.effects, s.admitted);
    hide *;
    var reached, inside := s.delivered + s.channels[|s.effects|].items, Before(s, 0, |s.effects|);
    assert s.delivered + (s.channels[|s.effects|].items + inside) == reached + inside;
    PrefixOfSubsequence(reached, inside, AllThrough(s.effects, 0, s.admitted));
  }

  /** The frames that have passed all stages: those taken out, and those waiting to be. */
  ghost function Reached<F>(s: State<F>): seq<F>
    requires WellFormed(s)
  {
    s.delivered + s.channels[|s.effects|].items
  }

  /**
   The same frame by frame: each frame that passed all stages is all effects applied to one admitted frame, no frame is
   used twice, and none overtakes another. If as many came out as went in, none is missing.
   */
  lemma WhichFramesArrive<F>(s0: State<F>, events: seq<Event<F>>) returns (at: seq<nat>)
    requires Fresh(s0) && IsRun(s0, events)
    ensures
      var s := Exec(s0, events);
      && |at| == |Reached(s)| <= |s.admitted|
      && (forall k :: 0 <= k < |at| ==>
            at[k] < |s.admitted| && Reached(s)[k] == Applied(s.effects, s.admitted[at[k]]))
      && (forall j, k :: 0 <= j < k < |at| ==> at[j] < at[k])
      && (|Reached(s)| == |s.admitted| ==> Reached(s) == AllApplied(s.effects, s.admitted))
  {
    EveryRun(s0, events);
    var s := Exec(s0, events);
    at := SubsequencePositions(Reached(s), AllApplied(s.effects, s.admitted));
    Length(Reached(s), AllApplied(s.effects, s.admitted));
    hide Exec, IsRun, IsSubsequence, Applied;
  }

  // ---------- interrupted threads ----------

  /** How many steps an interrupted thread can still take. */
  function StepsLeft<F>(w: Worker<F>): nat {
    match w
    case Waiting => 1
    case Applying(_) => 2
    case Checking(_) => 1
    case Offering(_) => 2
    case Rechecking => 1
    case Stopped => 0
  }

  /** The thread has stopped, or its flag is set. */
  predicate Doomed<F>(t: Thread<F>) {
    t.interrupted || t.worker.Stopped?
  }

  /** Whether the thread holds a frame that it will throw away. */
  predicate WillDiscard<F>(w: Worker<F>) {
    w.Applying? || w.Checking?
  }

  /** A step of an interrupted thread leaves its input queue as it is, and brings it closer to its end. */
  lemma DoomedStep<F>(s: State<F>, i: nat)
    requires WellFormed(s) && CanWork(s, i) && Doomed(s.threads[i])
    ensures
      var t := Next(s, Work(i));
      && Doomed(t.threads[i]) && t.channels[i] == s.channels[i] && t.admitted == s.admitted
      && StepsLeft(t.threads[i].worker) + 1 == StepsLeft(s.threads[i].worker)
      && !t.threads[i].worker.Applying?
      && (WillDiscard(s.threads[i].worker) ==>
            t.channels == s.channels && t.rejected == s.rejected &&
            if t.threads[i].worker.Stopped? then t.discarded == s.discarded + 1
            else WillDiscard(t.threads[i].worker) && t.discarded == s.discarded)
      && (!WillDiscard(s.threads[i].worker) ==> !WillDiscard(t.threads[i].worker) && t.discarded == s.discarded)
  {
  }

  /** Nothing else moves the thread on. */
  lemma OtherStep<F>(s: State<F>, e: Event<F>, i: nat)
    requires WellFormed(s) && Enabled(s, e) && i < |s.threads| && e != Work(i)
    ensures
      var t := Next(s, e);
      && t.threads[i].worker == s.threads[i].worker && (Doomed(s.threads[i]) ==> Doomed(t.threads[i]))
      && (e != Interrupt(i) ==> t.threads[i] == s.threads[i]) && t.discarded >= s.discarded
  {
  }

  /** The steps of thread i in a run. */
  function StepsOf<F>(events: seq<Event<F>>, i: nat): nat {
    if events == [] then 0 else StepsOf(events[1..], i) + if events[0] == Work(i) then 1 else 0
  }

  /** How many frames thread i takes from its queue in a run. */
  ghost function TakenBy<F>(s: State<F>, events: seq<Event<F>>, i: nat): nat
    requires WellFormed(s) && IsRun(s, events) && i < |s.threads|
    decreases |events|
  {
    if events == [] then 0
    else
      var t := Next(s, events[0]);
      TakenBy(t, events[1..], i)
      + if events[0] == Work(i) && |t.channels[i].items| < |s.channels[i].items| then 1 else 0
  }

  lemma {:induction false} DoomedRun<F>(s: State<F>, events: seq<Event<F>>, i: nat)
    requires WellFormed(s) && IsRun(s, events) && i < |s.threads| && Doomed(s.threads[i])
    ensures
      var w, t := s.threads[i].worker, Exec(s, events);
      && i < |t.threads| && Doomed(t.threads[i])
      && StepsOf(events, i) + StepsLeft(t.threads[i].worker) == StepsLeft(w)
      && TakenBy(s, events, i) == 0
      && (t.threads[i].worker.Applying? ==> t.threads[i].worker == w)
      && t.discarded >= s.discarded
      && (WillDiscard(w) ==>
            if t.threads[i].worker.Stopped? then t.discarded > s.discarded else WillDiscard(t.threads[i].worker))
    decreases |events|
  {
    hide Next, Enabled;
    if events != [] {
      var t := Next(s, events[0]);
      if events[0] == Work(i) {
        assert CanWork(s, i) by { EnabledWork(s, i); }
        DoomedStep(s, i);
      } else {
        OtherStep(s, events[0], i);
      }
      DoomedRun(t, events[1..], i);
    }
  }

  lemma EnabledWork<F>(s: State<F>, i: nat)
    requires WellFormed(s) && Enabled(s, Work(i))
    ensures CanWork(s, i)
  {
  }

  lemma InterruptDooms<F>(s: State<F>, i: nat)
    requires WellFormed(s) && i < |s.threads|
    ensures Enabled(s, Interrupt(i))
    ensures
      var t := Next(s, Interrupt(i));
      Doomed(t.threads[i]) && t.threads[i].worker == s.threads[i].worker && t.discarded == s.discarded
  {
  }

  /**
   Over every run after an interrupt the thread takes no frame from its queue any more, takes at most two more steps,
   and has stopped for good when it has none left; a frame that it had not yet checked the flag for is thrown away and
   counted as discarded.
   */
  lemma InterruptedThreadStops<F>(s: State<F>, events: seq<Event<F>>, i: nat)
    requires WellFormed(s) && i < |s.threads| && Enabled(s, Interrupt(i)) && IsRun(Next(s, Interrupt(i)), events)
    ensures
      var w, t := s.threads[i].worker, Exec(Next(s, Interrupt(i)), events);
      && i < |t.threads|
      && TakenBy(Next(s, Interrupt(i)), events, i) == 0
      && StepsOf(events, i) <= StepsLeft(w) <= 2
      && (StepsOf(events, i) == StepsLeft(w) <==> t.threads[i].worker.Stopped?)
      && (t.threads[i].worker.Stopped? ==> !CanWork(t, i))
      && (WillDiscard(w) ==> !t.threads[i].worker.Offering?)
      && (WillDiscard(w) && t.threads[i].worker.Stopped? ==> t.discarded > s.discarded)
  {
    InterruptDooms(s, i);
    DoomedRun(Next(s, Interrupt(i)), events, i);
    hide Next, Exec, IsRun, StepsOf, TakenBy;
  }

  /** A thread that is not interrupted does not stop. */
  lemma {:induction false} OnlyInterruptsStop<F>(s: State<F>, events: seq<Event<F>>, i: nat)
    requires WellFormed(s) && IsRun(s, events) && i < |s.threads| && !Doomed(s.threads[i]) && Interrupt(i) !in events
    ensures i < |Exec(s, events).threads| && !Doomed(Exec(s, events).threads[i])
    decreases |events|
  {
    if events != [] {
      if events[0] != Work(i) {
        OtherStep(s, events[0], i);
      }
      OnlyInterruptsStop(Next(s, events[0]), events[1..], i);
    }
  }

  // ---------- the hypotheses can be met ----------

  /** A pipeline as it is after it was started, with these effects and room for these numbers of frames. */
  ghost function Started<F>(effects: seq<F -> F>, capacities: seq<nat>): (s: State<F>)
    requires |capacities| == |effects| + 1
    ensures Fresh(s) && s.effects == effects
    ensures forall i :: 0 <= i < |capacities| ==> s.channels[i].capacity == capacities[i]
  {
    State(effects,
          seq(|effects|, i => Thread(Waiting, false)),
          seq(|capacities|, i requires 0 <= i < |capacities| => Channel(capacities[i], [])),
          [], [], 0, 0)
  }
}
