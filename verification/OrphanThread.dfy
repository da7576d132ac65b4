/**
 What a thread does that is left taking frames outside the chain: it works for the same task, on the same two queues, as
 the thread that replaced it.
 */
module OrphanThread {
  import opened PipelineRun
  import opened Subsequences

  /** A pipeline, and one more thread for the task of one of its stages. */
  datatype Crowd<!F> = Crowd(pipeline: State<F>, orphan: Thread<F>, stage: nat)

  datatype CrowdEvent<F> = Regular(event: Event<F>) | OrphanStep

  /** The pipeline as the orphan sees it: it stands where its successor does. */
  ghost function Swapped<F>(c: Crowd<F>): (s: State<F>)
    requires WellFormed(c.pipeline) && c.stage < |c.pipeline.threads|
    ensures WellFormed(s)
  {
    c.pipeline.(threads := c.pipeline.threads[c.stage := c.orphan])
  }

  ghost predicate CrowdEnabled<F>(c: Crowd<F>, e: CrowdEvent<F>)
    requires WellFormed(c.pipeline) && c.stage < |c.pipeline.threads|
  {
    match e
    case Regular(event) => Enabled(c.pipeline, event)
    case OrphanStep => CanWork(Swapped(c), c.stage)
  }

  ghost function CrowdNext<F>(c: Crowd<F>, e: CrowdEvent<F>): (r: Crowd<F>)
    requires WellFormed(c.pipeline) && c.stage < |c.pipeline.threads| && CrowdEnabled(c, e)
    ensures WellFormed(r.pipeline) && r.stage == c.stage && |r.pipeline.threads| == |c.pipeline.threads|
  {
    match e
    case Regular(event) => c.(pipeline := Next(c.pipeline, event))
    case OrphanStep =>
      var t := Next(Swapped(c), Work(c.stage));
      Crowd(t.(threads := t.threads[c.stage := c.pipeline.threads[c.stage]]), t.threads[c.stage], c.stage)
  }

  ghost predicate IsCrowdRun<F>(c: Crowd<F>, events: seq<CrowdEvent<F>>)
    requires WellFormed(c.pipeline) && c.stage < |c.pipeline.threads|
    decreases |events|
  {
    events == [] || (CrowdEnabled(c, events[0]) && IsCrowdRun(CrowdNext(c, events[0]), events[1..]))
  }

  ghost function ExecCrowd<F>(c: Crowd<F>, events: seq<CrowdEvent<F>>): (r: Crowd<F>)
    requires WellFormed(c.pipeline) && c.stage < |c.pipeline.threads| && IsCrowdRun(c, events)
    decreases |events|
  {
    if events == [] then c else ExecCrowd(CrowdNext(c, events[0]), events[1..])
  }

  lemma Before<F>(c: Crowd<F>, e: CrowdEvent<F>, rest: seq<CrowdEvent<F>>)
    requires WellFormed(c.pipeline) && c.stage < |c.pipeline.threads|
    requires CrowdEnabled(c, e) && IsCrowdRun(CrowdNext(c, e), rest)
    ensures IsCrowdRun(c, [e] + rest) && ExecCrowd(c, [e] + rest) == ExecCrowd(CrowdNext(c, e), rest)
  {
    assert ([e] + rest)[1..] == rest;
  }

  // ---------- one stage with two threads ----------

  /** A stage with effect f, the places of its two threads in their loop, and its queues. */
  datatype Pair<!F> = Pair(
    f: F -> F,
    room: nat,
    own: Worker<F>,
    orphan: Worker<F>,
    input: seq<F>,
    output: seq<F>,
    admitted: seq<F>,
    delivered: seq<F>
  ) {
    ghost function AsCrowd(): Crowd<F> {
      Crowd(
        State([f], [Thread(own, false)], [Channel(room, input), Channel(room, output)], admitted, delivered, 0, 0),
        Thread(orphan, false), 0)
    }

    ghost predicate Fits() {
      |input| <= room && |output| <= room
    }
  }

  /** A step of a thread that takes the first frame, or applies the effect, or checks its flag, or offers the frame. */
  ghost function Stepped<F>(w: Worker<F>, input: seq<F>, f: F -> F): Worker<F>
    requires w.Waiting? ==> input != []
  {
    match w
    case Waiting => Applying(input[0])
    case Applying(frame) => Checking(f(frame))
    case Checking(frame) => Offering(frame)
    case Offering(_) => Rechecking
    case Rechecking => Waiting
    case Stopped => Stopped
  }

  ghost function Left<F>(w: Worker<F>, input: seq<F>): seq<F> {
    if w.Waiting? && input != [] then input[1..] else input
  }

  ghost function Put<F>(w: Worker<F>, output: seq<F>): seq<F> {
    if w.Offering? then output + [w.output] else output
  }

  ghost predicate CanStep<F>(p: Pair<F>, w: Worker<F>) {
    && p.Fits() && !w.Stopped? && (w.Waiting? ==> p.input != []) && (w.Offering? ==> |p.output| < p.room)
  }

  lemma OwnSteps<F>(p: Pair<F>)
    requires CanStep(p, p.own)
    ensures WellFormed(p.AsCrowd().pipeline) && CrowdEnabled(p.AsCrowd(), Regular(Work(0)))
    ensures
      CrowdNext(p.AsCrowd(), Regular(Work(0)))
      == p.(own := Stepped(p.own, p.input, p.f), input := Left(p.own, p.input),
            output := Put(p.own, p.output)).AsCrowd()
  {
  }

  lemma OrphanSteps<F>(p: Pair<F>)
    requires CanStep(p, p.orphan)
    ensures WellFormed(p.AsCrowd().pipeline) && CrowdEnabled(p.AsCrowd(), OrphanStep)
    ensures
      CrowdNext(p.AsCrowd(), OrphanStep)
      == p.(orphan := Stepped(p.orphan, p.input, p.f), input := Left(p.orphan, p.input),
            output := Put(p.orphan, p.output)).AsCrowd()
  {
  }

  lemma FrameAdded<F>(p: Pair<F>, frame: F)
    requires p.Fits() && |p.input| < p.room
    ensures WellFormed(p.AsCrowd().pipeline) && CrowdEnabled(p.AsCrowd(), Regular(Add(frame)))
    ensures
      CrowdNext(p.AsCrowd(), Regular(Add(frame)))
      == p.(input := p.input + [frame], admitted := p.admitted + [frame]).AsCrowd()
  {
  }

  lemma FrameDelivered<F>(p: Pair<F>)
    requires p.Fits() && p.output != []
    ensures WellFormed(p.AsCrowd().pipeline) && CrowdEnabled(p.AsCrowd(), Regular(Deliver))
    ensures
      CrowdNext(p.AsCrowd(), Regular(Deliver))
      == p.(output := p.output[1..], delivered := p.delivered + [p.output[0]]).AsCrowd()
  {
  }

  /** The regular thread passes the first frame on, in four steps. */
  lemma OwnPasses<F>(p: Pair<F>, rest: seq<CrowdEvent<F>>) returns (events: seq<CrowdEvent<F>>, q: Pair<F>)
    requires p.Fits() && p.own.Waiting? && p.input != [] && |p.output| < p.room
    ensures q == p.(own := Rechecking, input := p.input[1..], output := p.output + [p.f(p.input[0])])
    ensures WellFormed(q.AsCrowd().pipeline) && WellFormed(p.AsCrowd().pipeline)
    ensures IsCrowdRun(q.AsCrowd(), rest) ==>
              IsCrowdRun(p.AsCrowd(), events) && ExecCrowd(p.AsCrowd(), events) == ExecCrowd(q.AsCrowd(), rest)
  {
    hide CrowdNext, CrowdEnabled, IsCrowdRun, ExecCrowd;
    var frame := p.input[0];
    var p1 := p.(own := Applying(frame), input := p.input[1..]);
    var p2 := p1.(own := Checking(p.f(frame)));
    var p3 := p1.(own := Offering(p.f(frame)));
    q := p1.(own := Rechecking, output := p.output + [p.f(frame)]);
    OwnSteps(p);
    OwnSteps(p1);
    OwnSteps(p2);
    OwnSteps(p3);
    var own := Regular(Work(0));
    events := [own] + ([own] + ([own] + ([own] + rest)));
    if IsCrowdRun(q.AsCrowd(), rest) {
      Before(p3.AsCrowd(), own, rest);
      Before(p2.AsCrowd(), own, [own] + rest);
      Before(p1.AsCrowd(), own, [own] + ([own] + rest));
      Before(p.AsCrowd(), own, [own] + ([own] + ([own] + rest)));
    }
  }

  /** The orphan, which has taken a frame, passes it on in three steps. */
  lemma OrphanPasses<F>(p: Pair<F>, rest: seq<CrowdEvent<F>>) returns (events: seq<CrowdEvent<F>>, q: Pair<F>)
    requires p.Fits() && p.orphan.Applying? && |p.output| < p.room
    ensures q == p.(orphan := Rechecking, output := p.output + [p.f(p.orphan.input)])
    ensures WellFormed(q.AsCrowd().pipeline) && WellFormed(p.AsCrowd().pipeline)
    ensures IsCrowdRun(q.AsCrowd(), rest) ==>
              IsCrowdRun(p.AsCrowd(), events) && ExecCrowd(p.AsCrowd(), events) == ExecCrowd(q.AsCrowd(), rest)
  {
    hide CrowdNext, CrowdEnabled, IsCrowdRun, ExecCrowd;
    var p1 := p.(orphan := Checking(p.f(p.orphan.input)));
    var p2 := p.(orphan := Offering(p.f(p.orphan.input)));
    q := p.(orphan := Rechecking, output := p.output + [p.f(p.orphan.input)]);
    OrphanSteps(p);
    OrphanSteps(p1);
    OrphanSteps(p2);
    events := [OrphanStep] + ([OrphanStep] + ([OrphanStep] + rest));
    if IsCrowdRun(q.AsCrowd(), rest) {
      Before(p2.AsCrowd(), OrphanStep, rest);
      Before(p1.AsCrowd(), OrphanStep, [OrphanStep] + rest);
      Before(p.AsCrowd(), OrphanStep, [OrphanStep] + ([OrphanStep] + rest));
    }
  }

  /**
   With an orphan beside the regular thread, two frames can come out in the wrong order: the orphan takes the first,
   and the other thread overtakes it with the second. Nothing is lost, but what is delivered is no subsequence of the
   frames added.
   */
  lemma OrphanReorders<F>(f: F -> F, room: nat, a: F, b: F) returns (events: seq<CrowdEvent<F>>)
    requires room >= 2 && f(a) != f(b)
    ensures
      var start := Pair(f, room, Waiting, Waiting, [], [], [], []).AsCrowd();
      && Fresh(start.pipeline) && IsCrowdRun(start, events)
      && var end := ExecCrowd(start, events).pipeline;
      && end.admitted == [a, b] && end.delivered == [f(b), f(a)] && end.rejected == 0 && end.discarded == 0
      && !IsSubsequence(end.delivered, AllApplied([f], end.admitted))
  {
    hide CrowdNext, CrowdEnabled, IsCrowdRun, ExecCrowd;
    var p0 := Pair(f, room, Waiting, Waiting, [], [], [], []);
    var p1 := p0.(input := [a], admitted := [a]);
    var p2 := p0.(input := [a, b], admitted := [a, b]);
    var p3 := p2.(orphan := Applying(a), input := [b]);
    var p4 := p3.(own := Rechecking, input := [], output := [f(b)]);
    var p5 := p4.(output := [], delivered := [f(b)]);
    var p6 := p5.(orphan := Rechecking, output := [f(a)]);
    var p7 := p6.(output := [], delivered := [f(b), f(a)]);
    SmallSequences(a, b, f(a), f(b));
    FrameAdded(p0, a);
    FrameAdded(p1, b);
    OrphanSteps(p2);
    FrameDelivered(p4);
    FrameDelivered(p6);
    var deliver: CrowdEvent<F> := Regular(Deliver);
    RunOfNothing(p7.AsCrowd());
    Before(p6.AsCrowd(), deliver, []);
    var e5, q6 := OrphanPasses(p5, [deliver] + []);
    assert q6 == p6;
    Before(p4.AsCrowd(), deliver, e5);
    var e3, q4 := OwnPasses(p3, [deliver] + e5);
    assert q4 == p4;
    Before(p2.AsCrowd(), OrphanStep, e3);
    Before(p1.AsCrowd(), Regular(Add(b)), [OrphanStep] + e3);
    Before(p0.AsCrowd(), Regular(Add(a)), [Regular(Add(b))] + ([OrphanStep] + e3));
    events := [Regular(Add(a))] + ([Regular(Add(b))] + ([OrphanStep] + e3));
    WrongOrder(f, a, b);
  }

  lemma SmallSequences<F>(a: F, b: F, c: F, d: F)
    ensures [] + [a] == [a] && [a] + [b] == [a, b] && [a, b][1..] == [b] && [b][1..] == []
    ensures [] + [d] == [d] && [d][1..] == [] && [] + [c] == [c] && [c][1..] == [] && [d] + [c] == [d, c]
  {
  }

  lemma RunOfNothing<F>(c: Crowd<F>)
    requires WellFormed(c.pipeline) && c.stage < |c.pipeline.threads|
    ensures IsCrowdRun(c, []) && ExecCrowd(c, []) == c
  {
  }

  lemma WrongOrder<F>(f: F -> F, a: F, b: F)
    requires f(a) != f(b)
    ensures !IsSubsequence([f(b), f(a)], AllApplied([f], [a, b]))
  {
    assert [f][..0] == [] && Applied([f], a) == f(a) && Applied([f], b) == f(b);
    assert AllApplied([f], [a, b]) == [f(a), f(b)];
    assert [f(b), f(a)][..1] == [f(b)] && [f(a), f(b)][..1] == [f(a)];
    assert [f(a)][..0] == [];
    assert !IsSubsequence([f(b), f(a)], [f(a)]);
  }
}
