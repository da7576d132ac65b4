/**
 Editing a pipeline: tasks are inserted, removed and moved, their queues are rewired, and
 the threads whose queues changed are replaced.
 */
module PipelineEdits {

  /** Only IdentityEffect is told apart from the others. */
  datatype Effect = Identity | Proper(name: string)

  class FrameQueue {
    const capacity: nat

    constructor (capacity: nat)
      ensures this.capacity == capacity
    {
      this.capacity := capacity;
    }
  }

  class EffectTask {
    const effect: Effect
    var inputQueue: FrameQueue?
    var outputQueue: FrameQueue?

    constructor (effect: Effect)
      ensures this.effect == effect && inputQueue == null && outputQueue == null
    {
      this.effect := effect;
      inputQueue, outputQueue := null, null;
    }
  }

  datatype ThreadState = New | Live | Interrupted

  class EffectThread {
    const task: EffectTask
    var state: ThreadState
    ghost const takesFrom: FrameQueue? // the queue that the task took from when this thread was made

    constructor (task: EffectTask)
      ensures this.task == task && state == New && takesFrom == task.inputQueue
    {
      this.task := task;
      state := New;
      takesFrom := task.inputQueue;
    }

    /** Thread.interrupt: no effect on a thread that was never started. */
    method Interrupt()
      modifies this
      ensures state == if old(state).Live? then Interrupted else old(state)
    {
      if state.Live? {
        state := Interrupted;
      }
    }
  }

  ghost predicate Distinct<T>(s: seq<T>) {
    forall i, j :: 0 <= i < j < |s| ==> s[i] != s[j]
  }

  function Insert<T>(s: seq<T>, index: nat, x: T): seq<T>
    requires index <= |s|
  {
    s[..index] + [x] + s[index..]
  }

  /** ArrayList.add(index, x), with an index past the end meaning the end. */
  function InsertAt<T>(s: seq<T>, index: nat, x: T): seq<T> {
    if index < |s| then Insert(s, index, x) else s + [x]
  }

  function Delete<T>(s: seq<T>, index: nat): seq<T>
    requires index < |s|
  {
    s[..index] + s[index + 1..]
  }

  lemma InsertDistinct<T>(s: seq<T>, index: nat, x: T)
    requires index <= |s| && Distinct(s) && x !in s
    ensures Distinct(Insert(s, index, x))
  {
    var t := Insert(s, index, x);
    forall i, j | 0 <= i < j < |t| ensures t[i] != t[j] {
      assert i != index ==> t[i] == s[if i < index then i else i - 1];
      assert j != index ==> t[j] == s[if j < index then j else j - 1];
    }
  }

  lemma NotDistinct<T>(s: seq<T>, index: nat, x: T)
    requires index <= |s| && x in s
    ensures !Distinct(Insert(s, index, x))
  {
    var k :| 0 <= k < |s| && s[k] == x;
    assert Insert(s, index, x)[index] == x && Insert(s, index, x)[if k < index then k else k + 1] == x;
  }

  lemma InsertAlong<T>(s: seq<T>, index: nat, x: T)
    requires index <= |s|
    ensures |Insert(s, index, x)| == |s| + 1 && Insert(s, index, x)[index] == x
    ensures forall i :: 0 <= i < index ==> Insert(s, index, x)[i] == s[i]
    ensures forall i :: index < i <= |s| ==> Insert(s, index, x)[i] == s[i - 1]
    ensures Delete(Insert(s, index, x), index) == s
  {
  }

  lemma DeleteDistinct<T>(s: seq<T>, index: nat)
    requires index < |s| && Distinct(s)
    ensures Distinct(Delete(s, index)) && s[index] !in Delete(s, index)
  {
  }

  lemma DeleteAlong<T>(s: seq<T>, index: nat)
    requires index < |s|
    ensures |Delete(s, index)| == |s| - 1
    ensures forall i :: 0 <= i < index ==> Delete(s, index)[i] == s[i]
    ensures forall i :: index <= i < |s| - 1 ==> Delete(s, index)[i] == s[i + 1]
  {
  }

  /**
   Tasks are still joined after `task` is put in front of task `index`, and the fresh queue `queue` between the two.
   */
  twostate lemma LinkedInsert(
    new tasks: seq<EffectTask>, new queues: seq<FrameQueue>, index: nat, new task: EffectTask, new queue: FrameQueue
  )
    requires old(allocated(tasks)) && old(allocated(queues))
    requires index < |tasks|
    requires old(Linked(tasks, queues))
    requires task.inputQueue == queues[index] && task.outputQueue == queue
    requires forall k :: 0 <= k < |tasks| ==> tasks[k].outputQueue == old(tasks[k].outputQueue)
    requires forall k :: 0 <= k < |tasks| && k != index ==> tasks[k].inputQueue == old(tasks[k].inputQueue)
    requires tasks[index].inputQueue == queue
    ensures Linked(Insert(tasks, index, task), Insert(queues, index + 1, queue))
  {
    InsertAlong(tasks, index, task);
    InsertAlong(queues, index + 1, queue);
    hide Insert;
    forall i | 0 <= i <= |tasks|
      ensures Insert(tasks, index, task)[i].inputQueue == Insert(queues, index + 1, queue)[i]
      ensures Insert(tasks, index, task)[i].outputQueue == Insert(queues, index + 1, queue)[i + 1]
    {
    }
  }

  /** Tasks are still joined after `task` is put behind the last one, and the fresh queue `queue` between the two. */
  twostate lemma LinkedAppend(
    new tasks: seq<EffectTask>, new queues: seq<FrameQueue>, new task: EffectTask, new queue: FrameQueue
  )
    requires old(allocated(tasks)) && old(allocated(queues))
    requires tasks != [] && old(Linked(tasks, queues))
    requires task.inputQueue == queue && task.outputQueue == queues[|tasks|]
    requires forall k :: 0 <= k < |tasks| ==> tasks[k].inputQueue == old(tasks[k].inputQueue)
    requires forall k :: 0 <= k < |tasks| - 1 ==> tasks[k].outputQueue == old(tasks[k].outputQueue)
    requires tasks[|tasks| - 1].outputQueue == queue
    ensures Linked(tasks + [task], Insert(queues, |tasks|, queue))
  {
    InsertAlong(queues, |tasks|, queue);
    hide Insert;
  }

  /** Tasks are still joined after `task` is taken out and its neighbours share one of its queues. */
  twostate lemma LinkedDelete(new tasks: seq<EffectTask>, new queues: seq<FrameQueue>, index: nat, new task: EffectTask)
    requires old(allocated(tasks)) && old(allocated(queues)) && old(allocated(task))
    requires index <= |tasks| != 0
    requires old(Linked(Insert(tasks, index, task), queues))
    requires forall k :: 0 <= k < |tasks| ==>
               tasks[k].inputQueue == if k == index then old(task.inputQueue) else old(tasks[k].inputQueue)
    requires forall k :: 0 <= k < |tasks| ==>
               tasks[k].outputQueue ==
                 if k + 1 == index == |tasks| then old(task.outputQueue) else old(tasks[k].outputQueue)
    ensures Linked(tasks, Delete(queues, if index < |tasks| then index + 1 else index))
  {
    var whole, cut := Insert(tasks, index, task), if index < |tasks| then index + 1 else index;
    InsertAlong(tasks, index, task);
    DeleteAlong(queues, cut);
    hide Insert, Delete;
    forall i | 0 <= i < |tasks|
      ensures tasks[i].inputQueue == Delete(queues, cut)[i] && tasks[i].outputQueue == Delete(queues, cut)[i + 1]
    {
      assert whole[index] == task;
      assert tasks[i] == whole[if i < index then i else i + 1];
    }
  }

  function Visible(tasks: seq<EffectTask>): seq<Effect> {
    if tasks == [] then [] else (if tasks[0].effect == Identity then [] else [tasks[0].effect]) + Visible(tasks[1..])
  }

  lemma {:induction false} VisibleConcat(s: seq<EffectTask>, t: seq<EffectTask>)
    ensures Visible(s + t) == Visible(s) + Visible(t)
  {
    if s == [] {
      assert s + t == t;
    } else {
      assert (s + t)[0] == s[0] && (s + t)[1..] == s[1..] + t;
      VisibleConcat(s[1..], t);
    }
  }

  lemma VisibleAround(s: seq<EffectTask>, task: EffectTask, t: seq<EffectTask>)
    ensures Visible(s + [task]) == Visible(s) + Visible([task])
    ensures Visible(s + [task] + t) == Visible(s) + Visible([task]) + Visible(t)
  {
    VisibleConcat(s + [task], t);
    VisibleConcat(s, [task]);
  }

  lemma InParts<T>(s: seq<T>, index: nat, x: T)
    ensures var at := if index < |s| then index else |s|;
            s == s[..at] + s[at..] && InsertAt(s, index, x) == s[..at] + [x] + s[at..]
  {
  }

  /** An add at any index puts the effect among the shown ones, behind those of the tasks in front of it. */
  lemma VisibleInserted(tasks: seq<EffectTask>, index: nat, task: EffectTask)
    ensures var at := if index < |tasks| then index else |tasks|;
            && Visible(tasks) == Visible(tasks[..at]) + Visible(tasks[at..])
            && Visible(InsertAt(tasks, index, task)) == Visible(tasks[..at]) + Visible([task]) + Visible(tasks[at..])
  {
    var at := if index < |tasks| then index else |tasks|;
    hide *;
    InParts(tasks, index, task);
    VisibleAround(tasks[..at], task, tasks[at..]);
    VisibleConcat(tasks[..at], tasks[at..]);
  }

  lemma AroundElement<T>(s: seq<T>, index: nat)
    requires index < |s|
    ensures s == s[..index] + [s[index]] + s[index + 1..] && Delete(s, index) == s[..index] + s[index + 1..]
  {
  }

  /** A removal takes the effect away from the shown ones. */
  lemma VisibleDeleted(tasks: seq<EffectTask>, index: nat)
    requires index < |tasks|
    ensures Visible(tasks) == Visible(tasks[..index]) + Visible([tasks[index]]) + Visible(tasks[index + 1..])
    ensures Visible(Delete(tasks, index)) == Visible(tasks[..index]) + Visible(tasks[index + 1..])
  {
    hide Visible, Delete;
    AroundElement(tasks, index);
    VisibleAround(tasks[..index], tasks[index], tasks[index + 1..]);
    VisibleConcat(tasks[..index], tasks[index + 1..]);
  }

  /** A move only changes the order of the shown effects. */
  lemma MoveKeepsVisible(tasks: seq<EffectTask>, startIndex: nat, endIndex: nat)
    requires startIndex < |tasks|
    ensures
      multiset(Visible(InsertAt(Delete(tasks, startIndex), endIndex, tasks[startIndex])))
      == multiset(Visible(tasks))
  {
    var rest := Delete(tasks, startIndex);
    var at := if endIndex < |rest| then endIndex else |rest|;
    VisibleDeleted(tasks, startIndex);
    VisibleInserted(rest, endIndex, tasks[startIndex]);
    hide *;
    SameElements(Visible(tasks[..startIndex]), Visible(tasks[startIndex + 1..]), Visible([tasks[startIndex]]),
                 Visible(rest[..at]), Visible(rest[at..]));
  }

  lemma SameElements<T>(a: seq<T>, b: seq<T>, x: seq<T>, c: seq<T>, d: seq<T>)
    requires a + b == c + d
    ensures multiset(a + x + b) == multiset(c + x + d)
  {
    assert multiset(a + x + b) == multiset(a + b) + multiset(x);
    assert multiset(c + x + d) == multiset(c + d) + multiset(x);
  }

  lemma {:induction false} AllVisible(tasks: seq<EffectTask>)
    requires forall task :: task in tasks ==> task.effect != Identity
    ensures |Visible(tasks)| == |tasks| && forall i :: 0 <= i < |tasks| ==> Visible(tasks)[i] == tasks[i].effect
  {
    if tasks != [] {
      AllVisible(tasks[1..]);
    }
  }

  /** Among tasks that are all shown, an add is an insertion into the shown effects. */
  lemma AddAmongShown(tasks: seq<EffectTask>, index: nat, task: EffectTask)
    requires task.effect != Identity && forall t :: t in tasks ==> t.effect != Identity
    ensures Visible(InsertAt(tasks, index, task)) == InsertAt(Visible(tasks), index, task.effect)
  {
    var at := if index < |tasks| then index else |tasks|;
    AllVisible(tasks);
    AllVisible(tasks[..at]);
    AllVisible([task]);
    VisibleInserted(tasks, index, task);
    hide Visible;
    assert Visible([task]) == [task.effect];
    Pieces(Visible(tasks), Visible(tasks[..at]), Visible(tasks[at..]), index, task.effect);
  }

  lemma Pieces<T>(s: seq<T>, front: seq<T>, back: seq<T>, index: nat, x: T)
    requires s == front + back && (if index < |s| then |front| == index else |front| == |s|)
    ensures InsertAt(s, index, x) == front + [x] + back
  {
  }

  /** Among tasks that are all shown, a removal is a deletion from the shown effects. */
  lemma RemoveAmongShown(tasks: seq<EffectTask>, index: nat)
    requires index < |tasks| && forall t :: t in tasks ==> t.effect != Identity
    ensures |Visible(tasks)| == |tasks| && Visible(Delete(tasks, index)) == Delete(Visible(tasks), index)
  {
    AllVisible(tasks);
    AllVisible(tasks[..index]);
    AllVisible([tasks[index]]);
    VisibleDeleted(tasks, index);
    hide *;
    CutPieces(Visible(tasks), Visible(tasks[..index]), Visible([tasks[index]]), Visible(tasks[index + 1..]));
  }

  lemma CutPieces<T>(s: seq<T>, front: seq<T>, middle: seq<T>, back: seq<T>)
    requires s == front + middle + back && |middle| == 1
    ensures Delete(s, |front|) == front + back
  {
  }

  /** The moved effect was alone: it joins the Identity task that replaced it. */
  lemma MovedAlone(tasks: seq<EffectTask>, index: nat, task: EffectTask)
    requires |tasks| == 1 && tasks[0].effect == Identity
    ensures Visible(InsertAt(tasks, index, task)) == Visible([task]) && |InsertAt(tasks, index, task)| == 2
  {
    VisibleInserted(tasks, index, task);
  }

  lemma InsertDeleted<T>(s: seq<T>, index: nat)
    requires index < |s|
    ensures |Delete(s, index)| == |s| - 1 && Insert(Delete(s, index), index, s[index]) == s
    ensures forall i :: 0 <= i < |s| - 1 ==> Delete(s, index)[i] in s
  {
  }

  /** Thread i runs task i. */
  ghost predicate Runs(threads: seq<EffectThread>, tasks: seq<EffectTask>) {
    && |threads| == |tasks|
    && forall i :: 0 <= i < |threads| ==> threads[i].task == tasks[i]
  }

  /** Task i takes from queue i and puts into queue i + 1. */
  ghost predicate Linked(tasks: seq<EffectTask>, queues: seq<FrameQueue>)
    reads tasks
  {
    && |queues| == |tasks| + 1
    && forall i :: 0 <= i < |tasks| ==> tasks[i].inputQueue == queues[i] && tasks[i].outputQueue == queues[i + 1]
  }

  /** A chain's queues lead from `first` to `last`, are all different, and hold two frames between stages. */
  ghost predicate Route(queues: seq<FrameQueue>, first: FrameQueue, last: FrameQueue) {
    && |queues| >= 2 && queues[0] == first && queues[|queues| - 1] == last
    && Distinct(queues)
    && forall i :: 0 < i < |queues| - 1 ==> queues[i].capacity == 2
  }

  ghost predicate Chained(tasks: seq<EffectTask>, queues: seq<FrameQueue>, first: FrameQueue, last: FrameQueue)
    reads tasks
  {
    Distinct(tasks) && (tasks != [] ==> Linked(tasks, queues) && Route(queues, first, last))
  }

  /** Tasks that are joined by different queues are different, so no route can join a task that comes twice. */
  lemma JoinedTasksDiffer(tasks: seq<EffectTask>, queues: seq<FrameQueue>)
    requires Linked(tasks, queues) && Distinct(queues)
    ensures Distinct(tasks)
  {
  }

  lemma Unchain(
    tasks: seq<EffectTask>, index: nat, task: EffectTask, queues: seq<FrameQueue>, first: FrameQueue, last: FrameQueue
  )
    requires tasks != [] && index <= |tasks| && Chained(Insert(tasks, index, task), queues, first, last)
    ensures Linked(Insert(tasks, index, task), queues) && Route(queues, first, last) && |queues| == |tasks| + 2
    ensures Distinct(tasks) && task !in tasks
  {
    InsertAlong(tasks, index, task);
    DeleteDistinct(Insert(tasks, index, task), index);
  }

  ghost predicate Crew(threads: seq<EffectThread>, tasks: seq<EffectTask>, spawned: set<EffectThread>) {
    Runs(threads, tasks) && Distinct(threads) && forall t :: t in threads ==> t in spawned
  }

  /** No thread waits on a queue that its task has left: each was made after its task got its input queue. */
  ghost predicate Attached(threads: seq<EffectThread>, queues: seq<FrameQueue>) {
    && |threads| <= |queues|
    && forall i :: 0 <= i < |threads| ==> threads[i].takesFrom == queues[i]
  }

  lemma AttachedReplace(threads: seq<EffectThread>, queues: seq<FrameQueue>, index: nat, thread: EffectThread)
    requires Attached(threads, queues) && index < |threads| && thread.takesFrom == queues[index]
    ensures Attached(threads[index := thread], queues)
  {
  }

  /** `thread` serves the new task `index`, and `next` the task after it. */
  lemma AttachedAdd(
    threads: seq<EffectThread>, queues: seq<FrameQueue>, index: nat, thread: EffectThread,
    next: EffectThread, queue: FrameQueue
  )
    requires Attached(threads, queues) && index < |threads| < |queues|
    requires thread.takesFrom == queues[index] && next.takesFrom == queue
    ensures |Insert(threads, index, thread)| == |threads| + 1
    ensures Attached(Insert(threads, index, thread)[index + 1 := next], Insert(queues, index + 1, queue))
  {
    InsertAlong(threads, index, thread);
    InsertAlong(queues, index + 1, queue);
    hide Insert;
  }

  lemma AttachedAppend(threads: seq<EffectThread>, queues: seq<FrameQueue>, thread: EffectThread, queue: FrameQueue)
    requires Attached(threads, queues) && |threads| < |queues| && thread.takesFrom == queue
    ensures Attached(Insert(threads, |threads|, thread), Insert(queues, |threads|, queue))
  {
  }

  /** `thread` serves the task that stands next to the removed one. */
  lemma AttachedRemove(threads: seq<EffectThread>, queues: seq<FrameQueue>, index: nat, thread: EffectThread)
    requires Attached(threads, queues) && index < |threads| && 2 <= |threads| == |queues| - 1
    ensures index < |threads| - 1 && thread.takesFrom == queues[index] ==>
              Attached(Delete(threads, index)[index := thread], Delete(queues, index + 1))
    ensures index == |threads| - 1 && thread.takesFrom == queues[index - 1] ==>
              Attached(Delete(threads, index)[index - 1 := thread], Delete(queues, index))
  {
    DeleteAlong(threads, index);
    DeleteAlong(queues, index);
    DeleteAlong(queues, index + 1);
    hide Delete;
  }

  lemma CrewDelete(threads: seq<EffectThread>, tasks: seq<EffectTask>, spawned: set<EffectThread>, index: nat)
    requires Crew(threads, tasks, spawned) && index < |tasks|
    ensures |threads| == |tasks| && Distinct(threads) && Crew(Delete(threads, index), Delete(tasks, index), spawned)
  {
    DeleteDistinct(threads, index);
    DeleteAlong(threads, index);
    DeleteAlong(tasks, index);
    hide Delete;
  }

  ghost predicate AllLiveIn(spawned: set<EffectThread>, threads: seq<EffectThread>)
    reads spawned
  {
    forall t :: t in spawned && t.state.Live? ==> t in threads
  }

  class Pipeline {
    const unprocessedFrameQueue: FrameQueue
    const processedFrameQueue: FrameQueue
    var running: bool
    var effectThreads: seq<EffectThread>
    var effectTasks: seq<EffectTask>
    ghost var spawned: set<EffectThread> // every thread that this pipeline ever created
    ghost var queues: seq<FrameQueue>    // from the first input queue to the last output queue

    /** Each task has its own thread. */
    ghost predicate Manned()
      reads this
    {
      Crew(effectThreads, effectTasks, spawned)
    }

    /** Each thread takes from its task's input queue. */
    ghost predicate Fed()
      reads this
    {
      Attached(effectThreads, queues)
    }

    /** The tasks are joined from the unprocessed frames to the processed ones. */
    ghost predicate Joined()
      reads this, effectTasks
    {
      Chained(effectTasks, queues, unprocessedFrameQueue, processedFrameQueue)
    }

    /** No thread of a running pipeline is unstarted. */
    ghost predicate Started()
      reads this, effectThreads
    {
      running ==> forall t :: t in effectThreads ==> !t.state.New?
    }

    /** What every edit keeps. */
    ghost predicate Wired()
      reads this, effectTasks, effectThreads
    {
      unprocessedFrameQueue != processedFrameQueue && Manned() && Fed() && Joined() && Started()
    }

    /** No thread outside the chain is still taking frames. */
    ghost predicate NoOrphans()
      reads this, spawned
    {
      AllLiveIn(spawned, effectThreads)
    }

    /** Thread number `place` of those that are left when task number `removed` is removed will be taking frames. */
    ghost predicate StaysLive(removed: nat, place: nat)
      requires removed < |effectThreads| && place < |effectThreads| - 1
      reads this, effectThreads
    {
      var next := if removed < |effectThreads| - 1 then removed else removed - 1;
      if place == next then running else effectThreads[if place < next then place else place + 1].state.Live?
    }

    /** The threads from lo to hi are others; the rest are the same, behind them `shift` places further. */
    ghost predicate Renewed(was: seq<EffectThread>, lo: int, hi: int, shift: int)
      reads this
    {
      && lo <= |was| && (hi < |effectThreads| ==> lo <= hi && 0 <= hi + shift && |effectThreads| + shift <= |was|)
      && (forall i :: 0 <= i < |effectThreads| && i < lo ==> effectThreads[i] == was[i])
      && (forall i :: 0 <= i < |effectThreads| && lo <= i < hi ==> effectThreads[i] !in was)
      && forall i :: 0 <= i < |effectThreads| && hi <= i ==> effectThreads[i] == was[i + shift]
    }

    /** The threads of the chain that are old are in their old state; the new ones have not been started. */
    twostate predicate OnlyNewAdded(new was: seq<EffectThread>)
      requires old(allocated(was))
      reads this, effectThreads
    {
      forall i :: 0 <= i < |effectThreads| ==>
        var t := effectThreads[i];
        if t in was then t.state == old(t.state) else fresh(t) && t.state.New?
    }

    /** The same, but the new threads take frames if the pipeline is running. */
    twostate predicate OnlyNewStarted(new was: seq<EffectThread>)
      requires old(allocated(was))
      reads this, effectThreads
    {
      forall i :: 0 <= i < |effectThreads| ==>
        var t := effectThreads[i];
        if t in was then t.state == old(t.state) else fresh(t) && t.state == if running then Live else New
    }

    /** Of the threads that were in the chain, those that are not any more take no frames. */
    ghost predicate NoneLeftLive(was: seq<EffectThread>)
      reads this, was
    {
      forall i :: 0 <= i < |was| && was[i] !in effectThreads ==> !was[i].state.Live?
    }

    constructor (unprocessedFrameQueue: FrameQueue, processedFrameQueue: FrameQueue, effects: seq<EffectTask>)
      requires unprocessedFrameQueue != processedFrameQueue
      modifies effects
      ensures this.unprocessedFrameQueue == unprocessedFrameQueue && this.processedFrameQueue == processedFrameQueue
      ensures effectTasks == effects && !running && Manned() && NoOrphans()
      ensures Wired() <==> Distinct(effects)
      ensures forall i :: 0 <= i < |effectThreads| ==> fresh(effectThreads[i]) && effectThreads[i].state.New?
    {
      this.unprocessedFrameQueue := unprocessedFrameQueue;
      this.processedFrameQueue := processedFrameQueue;
      effectThreads, effectTasks, running, spawned, queues := [], [], false, {}, [];
      new;
      if |effects| >= 1 {
        Chain(effects);
        CreateThreads();
      }
    }

    /** The constructor's loop over the effects. */
    method Chain(effects: seq<EffectTask>)
      requires |effects| >= 1 && effectTasks == [] && unprocessedFrameQueue != processedFrameQueue
      modifies this`effectTasks, this`queues, effects
      ensures effectTasks == effects && |queues| == |effects| + 1 && (Distinct(effects) ==> Linked(effects, queues))
      ensures Route(queues, unprocessedFrameQueue, processedFrameQueue)
    {
      var queue := unprocessedFrameQueue;
      queues := [queue];
      for i := 0 to |effects| - 1
        invariant effectTasks == effects[..i] && |queues| == i + 1 && queue == queues[i]
        invariant queues[0] == unprocessedFrameQueue && processedFrameQueue !in queues
        invariant Distinct(queues)
        invariant Distinct(effects) ==>
                    forall k :: 0 <= k < i ==>
                      effects[k].inputQueue == queues[k] && effects[k].outputQueue == queues[k + 1]
        invariant forall k :: 0 < k <= i ==> queues[k].capacity == 2
      {
        var effect := effects[i];
        effect.inputQueue := queue;
        queue := new FrameQueue(2);
        effect.outputQueue := queue;
        effectTasks := effectTasks + [effect];
        queues := queues + [queue];
      }
      var effect := effects[|effects| - 1];
      effect.inputQueue := queue;
      effect.outputQueue := processedFrameQueue;
      effectTasks := effectTasks + [effect];
      queues := queues + [processedFrameQueue];
    }

    method CreateThreads()
      modifies this, effectThreads
      ensures effectTasks == old(effectTasks) && running == old(running) && queues == old(queues)
      ensures |effectThreads| == |effectTasks| && fresh(effectThreads)
      ensures spawned == old(spawned) + set t | t in effectThreads
      ensures forall i :: 0 <= i < |effectThreads| ==>
                effectThreads[i].task == effectTasks[i] && effectThreads[i].takesFrom == effectTasks[i].inputQueue
      ensures forall i :: 0 <= i < |effectThreads| ==> effectThreads[i].state == if running then Live else New
      ensures Distinct(effectThreads)
      ensures forall t :: t in old(effectThreads) ==> !t.state.Live?
      ensures NoOrphans() <==> old(NoOrphans())
    {
      var wasRunning := running;
      Stop();
      effectThreads := [];
      for i := 0 to |effectTasks|
        invariant effectTasks == old(effectTasks) && queues == old(queues) && !running && |effectThreads| == i
        invariant fresh(effectThreads)
        invariant spawned == old(spawned) + set t | t in effectThreads
        invariant forall k :: 0 <= k < i ==> effectThreads[k].task == effectTasks[k] && effectThreads[k].state.New?
        invariant forall k :: 0 <= k < i ==> effectThreads[k].takesFrom == effectTasks[k].inputQueue
        invariant Distinct(effectThreads)
        invariant forall t :: t in old(effectThreads) ==> !t.state.Live?
      {
        var thread := new EffectThread(effectTasks[i]);
        effectThreads := effectThreads + [thread];
        spawned := spawned + {thread};
      }
      if wasRunning {
        Start();
      }
    }

    /** Starts the threads that were never started; interrupted ones stay as they are. */
    method Start()
      modifies this`running, effectThreads
      ensures running && (NoOrphans() <==> old(NoOrphans()))
      ensures forall i :: 0 <= i < |effectThreads| ==>
                effectThreads[i].state == if old(effectThreads[i].state).New? then Live else old(effectThreads[i].state)
    {
      for i := 0 to |effectThreads|
        invariant forall k :: 0 <= k < |effectThreads| ==>
                    effectThreads[k].state ==
                      if old(effectThreads[k].state).New? && effectThreads[k] in effectThreads[..i] then Live
                                              else old(effectThreads[k].state)
      {
        if effectThreads[i].state == New {
          effectThreads[i].state := Live;
        }
      }
      running := true;
    }

    method Stop()
      modifies this`running, effectThreads
      ensures !running
      ensures forall i :: 0 <= i < |effectThreads| ==>
                effectThreads[i].state ==
                  if old(effectThreads[i].state).Live? then Interrupted else old(effectThreads[i].state)
    {
      for i := 0 to |effectThreads|
        invariant forall k :: 0 <= k < |effectThreads| ==>
                    effectThreads[k].state ==
                      if old(effectThreads[k].state).Live? && effectThreads[k] in effectThreads[..i] then Interrupted
                                              else old(effectThreads[k].state)
      {
        effectThreads[i].Interrupt();
      }
      running := false;
    }

    /** Adds the effect at the end; the thread of the task before it is interrupted and replaced. */
    method AddEffect(effect: EffectTask)
      requires Wired()
      modifies this, effectThreads, effectTasks, effect
      ensures running == old(running) && Manned() && Started() && (Wired() <==> effect !in old(effectTasks))
      ensures effectTasks == old(effectTasks) + [effect]
      ensures NoOrphans() <==> old(NoOrphans())
      ensures Renewed(old(effectThreads), |old(effectTasks)| - 1, |effectThreads|, 0)
      ensures old(effectTasks) != [] ==>
                |queues| == |old(queues)| + 1 &&
                queues == Insert(old(queues), |old(effectTasks)|, queues[|old(effectTasks)|])
      ensures OnlyNewStarted(old(effectThreads))
      ensures NoneLeftLive(old(effectThreads))
    {
      hide AllLiveIn, Attached, Chained, Crew, Linked, Route, Distinct, Insert, Delete, Runs;
      PutLast(effect);
      Resume();
      WiredOnlyOnce(old(effectTasks), |old(effectTasks)|, effect);
    }

    /** All of it but the start of the new threads. */
    method PutLast(effect: EffectTask)
      requires Wired()
      modifies this`effectTasks, this`effectThreads, this`spawned, this`queues, effectThreads, effectTasks, effect
      ensures Manned() && (effect !in old(effectTasks) ==> Fed() && Joined())
      ensures effectTasks == old(effectTasks) + [effect]
      ensures effectTasks == Insert(old(effectTasks), |old(effectTasks)|, effect)
      ensures NoOrphans() <==> old(NoOrphans())
      ensures |old(effectThreads)| == |old(effectTasks)| && |effectThreads| == |effectTasks|
      ensures Renewed(old(effectThreads), |old(effectTasks)| - 1, |effectThreads|, 0)
      ensures old(effectTasks) != [] ==>
                |queues| == |old(queues)| + 1 &&
                queues == Insert(old(queues), |old(effectTasks)|, queues[|old(effectTasks)|])
      ensures OnlyNewAdded(old(effectThreads))
      ensures NoneLeftLive(old(effectThreads))
    {
      hide AllLiveIn, Attached, Chained, Crew, Linked, Route, Distinct, Insert, Delete, Runs;
      Paired();
      ReplaceLast();
      LinkLast(effect);
      ManLast(effect, old(queues));
    }

    /** Replaces the last thread, if there is one, and interrupts it. */
    method ReplaceLast()
      requires Manned() && Fed() && Joined()
      modifies this`effectThreads, this`spawned, effectThreads
      ensures Manned() && Fed() && |effectThreads| == |old(effectThreads)|
      ensures effectTasks != [] ==> |queues| == |effectTasks| + 1
      ensures NoOrphans() <==> old(NoOrphans())
      ensures Renewed(old(effectThreads), |effectThreads| - 1, |effectThreads|, 0)
      ensures OnlyNewAdded(old(effectThreads))
      ensures NoneLeftLive(old(effectThreads))
    {
      hide AllLiveIn, Attached, Chained, Crew, Linked, Route, Distinct, Insert, Delete, Runs;
      Paired();
      ghost var threads := effectThreads;
      if |effectTasks| != 0 {
        Neighbours(|effectTasks| - 1);
        ReplaceThread(|effectThreads| - 1, true);
        AttachedReplace(threads, queues, |threads| - 1, effectThreads[|threads| - 1]);
      }
    }

    /** Gives the task put at the end a thread. */
    method ManLast(task: EffectTask, ghost route: seq<FrameQueue>)
      requires |effectTasks| == |effectThreads| + 1 && effectTasks[|effectThreads|] == task
      requires Crew(effectThreads, Delete(effectTasks, |effectThreads|), spawned)
      requires Attached(effectThreads, route) && |queues| == |effectTasks| + 1
      requires effectThreads != [] ==>
                 |effectThreads| < |route| && queues == Insert(route, |effectThreads|, queues[|effectThreads|])
      modifies this`effectThreads, this`spawned
      ensures Manned() && (Joined() ==> Fed()) && (NoOrphans() <==> old(NoOrphans()))
      ensures |effectThreads| == |old(effectThreads)| + 1
      ensures Renewed(old(effectThreads), |old(effectThreads)|, |effectThreads|, 0)
      ensures OnlyNewAdded(old(effectThreads))
    {
      hide AllLiveIn, Attached, Chained, Crew, Linked, Route, Distinct, Insert, Delete, Runs;
      ghost var threads := effectThreads;
      InsertThread(|effectThreads|, task);
      if Joined() {
        Neighbours(|threads|);
        FedLast(threads, route);
      }
    }

    lemma FedLast(threads: seq<EffectThread>, route: seq<FrameQueue>)
      requires Attached(threads, route) && |effectThreads| == |threads| + 1 && Joined()
      requires effectThreads == Insert(threads, |threads|, effectThreads[|threads|])
      requires |queues| == |effectThreads| + 1 && effectThreads[|threads|].takesFrom == queues[|threads|]
      requires threads != [] ==> |threads| < |route| && queues == Insert(route, |threads|, queues[|threads|])
      ensures Fed()
    {
      if threads != [] {
        AttachedAppend(threads, route, effectThreads[|threads|], queues[|threads|]);
      }
    }

    /** A task that was there already cannot be wired at a second place. */
    lemma WiredOnlyOnce(tasks: seq<EffectTask>, index: nat, effect: EffectTask)
      requires index <= |tasks| && effectTasks == Insert(tasks, index, effect)
      ensures Wired() ==> effect !in tasks
    {
      if effect in tasks {
        NotDistinct(tasks, index, effect);
      }
    }

    /** How every edit ends. */
    method Resume()
      requires Manned()
      modifies this`running, effectThreads
      ensures running == old(running) && Manned() && Started() && (NoOrphans() <==> old(NoOrphans()))
      ensures old(unprocessedFrameQueue != processedFrameQueue && Fed() && Joined()) ==> Wired()
      ensures forall i :: 0 <= i < |effectThreads| ==>
                effectThreads[i].state ==
                  if running && old(effectThreads[i].state).New? then Live else old(effectThreads[i].state)
    {
      if running {
        Start();
      }
    }

    /**
     Puts the effect in front of task `index`. Only at the head is the replaced thread interrupted: in the middle two
     threads are replaced, and both go on taking frames if they were.
     */
    method AddEffectAt(index: int, effect: EffectTask) returns (ok: bool)
      requires Wired()
      modifies this, effectThreads, effectTasks, effect
      ensures running == old(running) && Manned() && Started()
      ensures (Wired() <==> effect !in old(effectTasks) || index < 0)
      ensures ok == (index >= 0)
      ensures effectTasks == if ok then InsertAt(old(effectTasks), index, effect) else old(effectTasks)
      ensures !(0 < index < |old(effectTasks)|) ==> (NoOrphans() <==> old(NoOrphans()))
      ensures ok && 0 < index < |old(effectTasks)| ==>
                (NoOrphans() <==>
                   old(NoOrphans() && !effectThreads[index - 1].state.Live? && !effectThreads[index].state.Live?))
      ensures 0 <= index < |old(effectTasks)| ==>
                && Renewed(old(effectThreads), index - 1, index + 2, -1)
                && |queues| == |old(queues)| + 1 && queues == Insert(old(queues), index + 1, queues[index + 1])
      ensures OnlyNewStarted(old(effectThreads))
    {
      if index >= |effectTasks| {
        AddEffect(effect);
      } else if index == 0 {
        AddFirst(effect);
      } else {
        if index < 0 {
          return false;
        }
        AddBetween(index, effect);
      }
      return true;
    }

    lemma Paired()
      requires Manned()
      ensures |effectThreads| == |effectTasks|
    {
    }

    lemma Neighbours(index: nat)
      requires Manned() && Joined() && index < |effectTasks|
      ensures |effectThreads| == |effectTasks| && |queues| == |effectTasks| + 1 && Distinct(effectTasks)
      ensures effectTasks[index].inputQueue == queues[index] && effectTasks[index].outputQueue == queues[index + 1]
    {
    }

    method AddFirst(effect: EffectTask)
      requires Wired() && effectTasks != []
      modifies this, effectThreads, effectTasks, effect
      ensures running == old(running) && Manned() && Started() && (Wired() <==> effect !in old(effectTasks))
      ensures effectTasks == Insert(old(effectTasks), 0, effect)
      ensures NoOrphans() <==> old(NoOrphans())
      ensures Renewed(old(effectThreads), 0, 2, -1)
      ensures |queues| == |old(queues)| + 1 && queues == Insert(old(queues), 1, queues[1])
      ensures OnlyNewStarted(old(effectThreads))
      ensures NoneLeftLive(old(effectThreads))
    {
      hide AllLiveIn, Attached, Chained, Crew, Linked, Route, Distinct, Insert, Delete, Runs;
      PutFirst(effect);
      Resume();
      WiredOnlyOnce(old(effectTasks), 0, effect);
    }

    /** All of it but the start of the new threads. */
    method PutFirst(effect: EffectTask)
      requires Wired() && effectTasks != []
      modifies this`effectTasks, this`effectThreads, this`spawned, this`queues, effectThreads, effectTasks, effect
      ensures Manned() && (effect !in old(effectTasks) ==> Fed() && Joined())
      ensures effectTasks == Insert(old(effectTasks), 0, effect)
      ensures |old(effectThreads)| == |old(effectTasks)|
      ensures NoOrphans() <==> old(NoOrphans())
      ensures Renewed(old(effectThreads), 0, 2, -1) && OnlyNewAdded(old(effectThreads))
      ensures NoneLeftLive(old(effectThreads))
      ensures |queues| == |old(queues)| + 1 && queues == Insert(old(queues), 1, queues[1])
    {
      hide AllLiveIn, Attached, Chained, Crew, Linked, Route, Distinct, Insert, Delete, Runs;
      Neighbours(0);
      LinkBefore(0, effect, effectTasks[0].inputQueue);
      Man(0, effect, true, old(queues));
      ghost var was := old(effectThreads);
      forall i | 1 <= i < |was|
        ensures was[i] in effectThreads
      {
        assert effectThreads[i + 1] == was[i];
      }
    }

    method AddBetween(index: nat, effect: EffectTask)
      requires Wired() && 0 < index < |effectTasks|
      modifies this, effectThreads, effectTasks, effect
      ensures running == old(running) && Manned() && Started() && (Wired() <==> effect !in old(effectTasks))
      ensures effectTasks == Insert(old(effectTasks), index, effect)
      ensures NoOrphans() <==>
                old(NoOrphans() && !effectThreads[index - 1].state.Live? && !effectThreads[index].state.Live?)
      ensures Renewed(old(effectThreads), index - 1, index + 2, -1)
      ensures |queues| == |old(queues)| + 1 && queues == Insert(old(queues), index + 1, queues[index + 1])
      ensures OnlyNewStarted(old(effectThreads))
    {
      hide AllLiveIn, Attached, Chained, Crew, Linked, Route, Distinct, Insert, Delete, Runs;
      PutBetween(index, effect);
      Resume();
      WiredOnlyOnce(old(effectTasks), index, effect);
    }

    /** All of it but the start of the new threads. */
    method PutBetween(index: nat, effect: EffectTask)
      requires Wired() && 0 < index < |effectTasks|
      modifies this`effectTasks, this`effectThreads, this`spawned, this`queues, effectTasks, effect
      ensures Manned() && (effect !in old(effectTasks) ==> Fed() && Joined())
      ensures effectTasks == Insert(old(effectTasks), index, effect)
      ensures |old(effectThreads)| == |old(effectTasks)|
      ensures NoOrphans() <==>
                old(NoOrphans() && !effectThreads[index - 1].state.Live? && !effectThreads[index].state.Live?)
      ensures Renewed(old(effectThreads), index - 1, index + 2, -1)
      ensures |queues| == |old(queues)| + 1 && queues == Insert(old(queues), index + 1, queues[index + 1])
      ensures OnlyNewAdded(old(effectThreads))
    {
      hide AllLiveIn, Attached, Chained, Crew, Linked, Route, Distinct, Insert, Delete, Runs;
      Neighbours(index - 1);
      ReplaceThread(index - 1, false);
      AttachedReplace(old(effectThreads), queues, index - 1, effectThreads[index - 1]);
      LinkBefore(index, effect, effectTasks[index - 1].outputQueue);
      Man(index, effect, false, old(queues));
    }

    /** Gives the task put at `index` a thread, and replaces the thread after it. */
    method Man(index: nat, task: EffectTask, interrupt: bool, ghost route: seq<FrameQueue>)
      requires index < |effectThreads| && |effectTasks| == |effectThreads| + 1 && effectTasks[index] == task
      requires Crew(effectThreads, Delete(effectTasks, index), spawned)
      requires Attached(effectThreads, route) && |queues| == |route| + 1
      requires queues == Insert(route, index + 1, queues[index + 1])
      modifies this`effectThreads, this`spawned, if interrupt then {effectThreads[index]} else {}
      ensures Manned() && (Joined() ==> Fed())
      ensures |effectThreads| == |old(effectThreads)| + 1 && Renewed(old(effectThreads), index, index + 2, -1)
      ensures interrupt ==> (NoOrphans() <==> old(NoOrphans()))
      ensures !interrupt ==> (NoOrphans() <==> old(NoOrphans() && !effectThreads[index].state.Live?))
      ensures OnlyNewAdded(old(effectThreads))
      ensures interrupt ==> !old(effectThreads)[index].state.Live?
    {
      hide AllLiveIn, Attached, Chained, Crew, Linked, Route, Distinct, Insert, Delete, Runs;
      InsertThread(index, task);
      ReplaceThread(index + 1, interrupt);
      if Joined() {
        Serve(index, old(effectThreads), route);
      }
    }

    /** The threads of the task put at `index` and of the task after it take from the right queues. */
    lemma Serve(index: nat, threads: seq<EffectThread>, route: seq<FrameQueue>)
      requires index < |threads| && Attached(threads, route) && |effectTasks| == |effectThreads|
      requires |effectThreads| == |threads| + 1 && |Insert(threads, index, effectThreads[index])| == |effectThreads|
      requires effectThreads == Insert(threads, index, effectThreads[index])[index + 1 := effectThreads[index + 1]]
      requires Manned() && Joined() && |queues| == |route| + 1 && queues == Insert(route, index + 1, queues[index + 1])
      requires effectThreads[index].takesFrom == effectTasks[index].inputQueue
      requires effectThreads[index + 1].takesFrom == effectTasks[index + 1].inputQueue
      ensures Fed()
    {
      hide AllLiveIn, Attached, Chained, Crew, Linked, Route, Distinct, Insert, Delete, Runs;
      Neighbours(index);
      Neighbours(index + 1);
      InsertAlong(route, index + 1, queues[index + 1]);
      AttachedAdd(threads, route, index, effectThreads[index], effectThreads[index + 1], queues[index + 1]);
    }

    /** Joins the effect to task `index`, which took from `inputQueue`, and puts it there. */
    method LinkBefore(index: nat, effect: EffectTask, inputQueue: FrameQueue?)
      requires Joined() && index < |effectTasks| == |queues| - 1 && inputQueue == queues[index]
      modifies this`effectTasks, this`queues, effectTasks[index], effect
      ensures effectTasks == Insert(old(effectTasks), index, effect) && (effect !in old(effectTasks) ==> Joined())
      ensures |queues| == |old(queues)| + 1 && queues == Insert(old(queues), index + 1, queues[index + 1])
      ensures |effectTasks| == |old(effectTasks)| + 1 && effectTasks[index] == effect
      ensures Delete(effectTasks, index) == old(effectTasks)
    {
      hide Insert, Delete, Distinct, Linked, Route;
      if effect !in effectTasks {
        InsertDistinct(effectTasks, index, effect);
      }
      InsertAlong(effectTasks, index, effect);
      var queue := Splice(index, effect, inputQueue);
      InsertAlong(queues, index + 1, queue);
      RouteThrough(index + 1, queue);
      effectTasks := Insert(effectTasks, index, effect);
    }

    method Splice(index: nat, effect: EffectTask, inputQueue: FrameQueue?) returns (queue: FrameQueue)
      requires Distinct(effectTasks) && Linked(effectTasks, queues)
      requires index < |effectTasks| && inputQueue == queues[index]
      modifies effectTasks[index], effect
      ensures fresh(queue) && queue.capacity == 2
      ensures effect !in effectTasks ==> Linked(Insert(effectTasks, index, effect), Insert(queues, index + 1, queue))
    {
      assert forall k :: 0 <= k < |effectTasks| && k != index ==> effectTasks[k] != effectTasks[index];
      hide Insert, Distinct;
      effect.inputQueue := inputQueue;
      queue := new FrameQueue(2);
      effect.outputQueue := queue;
      effectTasks[index].inputQueue := queue;
      if effect !in effectTasks {
        LinkedInsert(effectTasks, queues, index, effect, queue);
      }
    }

    /** Removes the effect; the last one gives way to an Identity task. */
    method RemoveEffect(index: int)
      requires Wired()
      modifies this, effectThreads, effectTasks
      ensures Wired() && running == old(running)
      ensures !(0 <= index < |old(effectTasks)|) ==>
                effectTasks == old(effectTasks) && effectThreads == old(effectThreads)
      ensures 0 <= index < |old(effectTasks)| && |old(effectTasks)| > 1 ==>
                effectTasks == Delete(old(effectTasks), index)
      ensures 0 <= index < |old(effectTasks)| == 1 ==>
                |effectTasks| == 1 && fresh(effectTasks[0]) && effectTasks[0].effect == Identity
      ensures 0 <= index < |old(effectTasks)| && |old(effectTasks)| > 1 ==>
                var next := if index < |effectTasks| then index else index - 1;
                Renewed(old(effectThreads), next, next + 1, 1) &&
                next + 1 < |old(queues)| && queues == Delete(old(queues), next + 1)
      ensures NoOrphans() <==> old(NoOrphans())
      ensures 0 <= index < |old(effectTasks)| && |old(effectTasks)| > 1 ==>
                |effectThreads| == |effectTasks| &&
                forall i :: 0 <= i < |effectThreads| ==> (effectThreads[i].state.Live? <==> old(StaysLive(index, i)))
      ensures OnlyNewStarted(old(effectThreads))
      ensures NoneLeftLive(old(effectThreads))
    {
      hide AllLiveIn, Attached, Chained, Crew, Linked, Route, Distinct, Insert, Delete, Runs;
      if index < |effectTasks| && index >= 0 {
        if |effectTasks| == 1 {
          TakeOutOnly();
        } else {
          TakeOut(index);
        }
        Resume();
      }
    }

    /** All of it but the start of the new threads, for one task of several. */
    method TakeOut(index: nat)
      requires Wired() && index < |effectTasks| && |effectTasks| > 1
      modifies this, effectThreads, effectTasks
      ensures unprocessedFrameQueue != processedFrameQueue && Manned() && Fed() && Joined() && running == old(running)
      ensures effectTasks == Delete(old(effectTasks), index) && |effectTasks| == |old(effectTasks)| - 1
      ensures NoOrphans() <==> old(NoOrphans())
      ensures var next := if index < |effectTasks| then index else index - 1;
              && Renewed(old(effectThreads), next, next + 1, 1)
              && next + 1 < |old(queues)| && queues == Delete(old(queues), next + 1)
              && |old(effectThreads)| == |old(effectTasks)| && |effectThreads| == |effectTasks|
      ensures OnlyNewAdded(old(effectThreads))
      ensures NoneLeftLive(old(effectThreads))
    {
      hide AllLiveIn, Attached, Chained, Crew, Linked, Route, Distinct, Insert, Delete, Runs;
      Neighbours(index);
      var effectTask := DropStage(index);
      Rejoin(index, effectTask, old(effectThreads));
    }

    /** The same for the only task. */
    method TakeOutOnly()
      requires Wired() && |effectTasks| == 1
      modifies this, effectThreads
      ensures Wired() && running == old(running) && (NoOrphans() <==> old(NoOrphans()))
      ensures |effectTasks| == 1 && fresh(effectTasks[0]) && effectTasks[0].effect == Identity
      ensures OnlyNewStarted(old(effectThreads))
      ensures NoneLeftLive(old(effectThreads))
    {
      hide AllLiveIn, Attached, Chained, Crew, Linked, Route, Distinct, Insert, Delete, Runs;
      Neighbours(0);
      var effectTask := DropStage(0);
      ClearEffects();
    }

    /** Joins the neighbours of a dropped task again, and interrupts and replaces the thread of the one that changed. */
    method Rejoin(index: nat, task: EffectTask, ghost threads: seq<EffectThread>)
      requires Manned() && effectTasks != [] && index <= |effectTasks| == |effectThreads|
      requires Chained(Insert(effectTasks, index, task), queues, unprocessedFrameQueue, processedFrameQueue)
      requires |threads| == |effectThreads| + 1 && effectThreads == Delete(threads, index) && Attached(threads, queues)
      requires NoneLeftLive(threads)
      modifies this`effectThreads, this`spawned, this`queues, effectTasks, effectThreads
      ensures Manned() && Fed() && Joined()
      ensures NoOrphans() <==> old(NoOrphans())
      ensures |effectThreads| == |old(effectThreads)|
      ensures var next := if index < |effectTasks| then index else index - 1;
              && Renewed(threads, next, next + 1, 1)
              && next + 1 < |old(queues)| && queues == Delete(old(queues), next + 1)
              && effectTasks == old(effectTasks)
      ensures OnlyNewAdded(old(effectThreads))
      ensures NoneLeftLive(threads)
    {
      hide AllLiveIn, Attached, Crew, Linked, Route, Distinct, Insert, Delete, Runs;
      Unchain(effectTasks, index, task, queues, unprocessedFrameQueue, processedFrameQueue);
      Bypass(index, task);
      RouteAround(if index < |effectTasks| then index + 1 else index);
      var next := if index < |effectTasks| then index else index - 1;
      ReplaceThread(next, true);
      Neighbours(next);
      DeleteAlong(old(queues), if index < |effectTasks| then index + 1 else index);
      DeleteAlong(threads, index);
      AttachedRemove(threads, old(queues), index, effectThreads[next]);
    }

    /** Takes the task and its thread out of the lists, and interrupts the thread. */
    method DropStage(index: nat) returns (task: EffectTask)
      requires Manned() && Distinct(effectTasks) && index < |effectTasks|
      modifies this`effectThreads, this`effectTasks, effectThreads[index]
      ensures task == old(effectTasks)[index] && effectTasks == Delete(old(effectTasks), index)
      ensures |effectTasks| == |old(effectTasks)| - 1 == |effectThreads|
      ensures Insert(effectTasks, index, task) == old(effectTasks)
      ensures forall i :: 0 <= i < |effectThreads| ==> effectThreads[i] in old(effectThreads)
      ensures forall i :: 0 <= i < |effectTasks| ==> effectTasks[i] in old(effectTasks)
      ensures Distinct(effectTasks) && task !in effectTasks
      ensures effectThreads == Delete(old(effectThreads), index) && Manned()
      ensures NoOrphans() <==> old(NoOrphans())
      ensures OnlyNewAdded(old(effectThreads))
      ensures NoneLeftLive(old(effectThreads))
    {
      hide AllLiveIn, Crew, Distinct, Insert, Delete, Runs;
      CrewDelete(effectThreads, effectTasks, spawned, index);
      DeleteDistinct(effectTasks, index);
      DeleteAlong(effectTasks, index);
      InsertDeleted(effectTasks, index);
      task := effectTasks[index];
      DropThread(index);
      effectTasks := Delete(effectTasks, index);
    }

    method DropThread(index: nat)
      requires index < |effectThreads| && Distinct(effectThreads)
      modifies this`effectThreads, effectThreads[index]
      ensures effectThreads == Delete(old(effectThreads), index) && |effectThreads| == |old(effectThreads)| - 1
      ensures forall i :: 0 <= i < |effectThreads| ==> effectThreads[i] in old(effectThreads)
      ensures NoOrphans() <==> old(NoOrphans())
      ensures OnlyNewAdded(old(effectThreads))
      ensures NoneLeftLive(old(effectThreads))
    {
      var thread := effectThreads[index];
      DeleteAlong(effectThreads, index);
      DeleteDistinct(effectThreads, index);
      effectThreads := Delete(effectThreads, index);
      thread.Interrupt();
    }

    /** Joins the neighbours of a dropped task: the next one takes its input, or the one before it its output. */
    method Bypass(index: nat, task: EffectTask)
      requires effectTasks != [] && index <= |effectTasks| && task !in effectTasks && Distinct(effectTasks)
      requires Linked(Insert(effectTasks, index, task), queues)
      modifies effectTasks[if index < |effectTasks| then index else index - 1]
      ensures Linked(effectTasks, Delete(queues, if index < |effectTasks| then index + 1 else index))
    {
      ghost var next := if index < |effectTasks| then index else index - 1;
      assert forall k :: 0 <= k < |effectTasks| && k != next ==> effectTasks[k] != effectTasks[next];
      hide Insert, Delete, Distinct, Linked;
      if index < |effectTasks| {
        effectTasks[index].inputQueue := task.inputQueue;
      } else {
        effectTasks[index - 1].outputQueue := task.outputQueue;
      }
      LinkedDelete(effectTasks, queues, index, task);
    }

    ghost method RouteAround(index: nat)
      requires 0 < index && index + 1 < |queues| && Route(queues, unprocessedFrameQueue, processedFrameQueue)
      modifies this`queues
      ensures queues == Delete(old(queues), index)
      ensures Route(queues, unprocessedFrameQueue, processedFrameQueue)
    {
      DeleteDistinct(queues, index);
      queues := Delete(queues, index);
    }

    /**
     Removes the effect and adds it again at the other index; a negative one fails after the removal. Moved into the
     middle, it leaves the threads of its new neighbours taking frames outside the chain, if they were.
     */
    method MoveEffect(startIndex: int, endIndex: int) returns (ok: bool)
      requires Wired()
      modifies this, effectThreads, effectTasks
      ensures Wired() && running == old(running)
      ensures ok == (0 <= startIndex < |old(effectTasks)| && endIndex >= 0)
      ensures !(0 <= startIndex < |old(effectTasks)|) ==> effectTasks == old(effectTasks)
      ensures 0 <= startIndex < |old(effectTasks)| != 1 ==>
                var rest := Delete(old(effectTasks), startIndex);
                effectTasks == if ok then InsertAt(rest, endIndex, old(effectTasks)[startIndex]) else rest
      ensures startIndex == 0 && |old(effectTasks)| == 1 && ok ==>
                Visible(effectTasks) == Visible(old(effectTasks)) && |effectTasks| == 2
      ensures ok ==> multiset(Visible(effectTasks)) == multiset(Visible(old(effectTasks)))
      ensures 0 <= startIndex < |old(effectTasks)| == 1 && endIndex < 0 ==>
                |effectTasks| == 1 && effectTasks[0].effect == Identity
      ensures !(0 <= startIndex < |old(effectTasks)| && 0 < endIndex < |old(effectTasks)| - 1) ==>
                (NoOrphans() <==> old(NoOrphans()))
      ensures 0 <= startIndex < |old(effectTasks)| && 0 < endIndex < |old(effectTasks)| - 1 ==>
                && |old(effectThreads)| == |old(effectTasks)|
                && (NoOrphans() <==>
                      old(NoOrphans() && !StaysLive(startIndex, endIndex - 1) && !StaysLive(startIndex, endIndex)))
      ensures OnlyNewStarted(old(effectThreads))
    {
      if !(0 <= startIndex < |effectTasks|) {
        return false;
      }
      hide *;
      ghost var was := effectTasks;
      ok := Relocate(startIndex, endIndex);
      if ok && |was| > 1 {
        MoveKeepsVisible(was, startIndex, endIndex);
      }
    }

    /** The two steps of a move of an effect that is there. */
    method Relocate(startIndex: nat, endIndex: int) returns (ok: bool)
      requires Wired() && startIndex < |effectTasks|
      modifies this, effectThreads, effectTasks
      ensures Wired() && running == old(running) && ok == (endIndex >= 0)
      ensures |old(effectTasks)| > 1 ==>
                var rest := Delete(old(effectTasks), startIndex);
                effectTasks == if ok then InsertAt(rest, endIndex, old(effectTasks)[startIndex]) else rest
      ensures |old(effectTasks)| == 1 && ok ==> Visible(effectTasks) == Visible(old(effectTasks)) && |effectTasks| == 2
      ensures |old(effectTasks)| == 1 && endIndex < 0 ==> |effectTasks| == 1 && effectTasks[0].effect == Identity
      ensures !(0 < endIndex < |old(effectTasks)| - 1) ==> (NoOrphans() <==> old(NoOrphans()))
      ensures |old(effectThreads)| == |old(effectTasks)|
      ensures 0 < endIndex < |old(effectTasks)| - 1 ==>
                (NoOrphans() <==>
                   old(NoOrphans() && !StaysLive(startIndex, endIndex - 1) && !StaysLive(startIndex, endIndex)))
      ensures OnlyNewStarted(old(effectThreads))
    {
      hide AllLiveIn, Attached, Chained, Crew, Linked, Route, Distinct, Insert, Runs,
        InsertAt, Delete, Visible, StaysLive;
      var effect := effectTasks[startIndex];
      Paired();
      Neighbours(startIndex);
      DeleteDistinct(effectTasks, startIndex);
      InsertDeleted(effectTasks, startIndex);
      RemoveEffect(startIndex);
      ghost var rest := effectTasks;
      ok := AddEffectAt(endIndex, effect);
      if ok && |old(effectTasks)| == 1 {
        assert old(effectTasks) == [effect];
        MovedAlone(rest, endIndex, effect);
      }
    }

    /** The effects to show: Identity tasks only pass frames on. */
    method GetEffects() returns (effects: seq<Effect>)
      ensures effects == Visible(effectTasks)
    {
      effects := [];
      for i := 0 to |effectTasks|
        invariant effects == Visible(effectTasks[..i])
      {
        VisibleAround(effectTasks[..i], effectTasks[i], []);
        assert effectTasks[..i + 1] == effectTasks[..i] + [effectTasks[i]];
        if effectTasks[i].effect != Identity {
          effects := effects + [effectTasks[i].effect];
        }
      }
      assert effectTasks[..|effectTasks|] == effectTasks;
    }

    /** Frames are passed on unchanged. */
    method ClearEffects()
      requires unprocessedFrameQueue != processedFrameQueue
      modifies this, effectThreads
      ensures running == old(running) && Wired() && (NoOrphans() <==> old(NoOrphans()))
      ensures |effectTasks| == 1 && fresh(effectTasks[0]) && effectTasks[0].effect == Identity
      ensures fresh(effectThreads)
      ensures OnlyNewStarted(old(effectThreads))
      ensures NoneLeftLive(old(effectThreads))
    {
      effectTasks := [];
      var effectTask := new EffectTask(Identity);
      effectTask.inputQueue := unprocessedFrameQueue;
      effectTask.outputQueue := processedFrameQueue;
      queues := [unprocessedFrameQueue, processedFrameQueue];
      effectTasks := effectTasks + [effectTask];
      CreateThreads();
    }

    /** Joins the effect to the last task, or to the unprocessed frames if there is none, and puts it at the end. */
    method LinkLast(effect: EffectTask)
      requires unprocessedFrameQueue != processedFrameQueue && Joined()
      modifies this`effectTasks, this`queues, effectTasks, effect
      ensures effectTasks == old(effectTasks) + [effect] && Delete(effectTasks, |old(effectTasks)|) == old(effectTasks)
      ensures effect !in old(effectTasks) ==> Joined()
      ensures effectTasks == Insert(old(effectTasks), |old(effectTasks)|, effect)
      ensures |queues| == |effectTasks| + 1
      ensures (old(effectTasks) != [] ==> queues == Insert(old(queues), |effectTasks| - 1, queues[|effectTasks| - 1]))
    {
      InsertAlong(effectTasks, |effectTasks|, effect);
      if |effectTasks| != 0 {
        if effect !in effectTasks {
          InsertDistinct(effectTasks, |effectTasks|, effect);
        }
        var queue := LinkAfter(effect);
        hide Linked, Route, Distinct, Delete;
        InsertAlong(queues, |effectTasks|, queue);
        RouteThrough(|effectTasks|, queue);
      } else {
        effect.outputQueue := processedFrameQueue;
        effect.inputQueue := unprocessedFrameQueue;
        queues := [unprocessedFrameQueue, processedFrameQueue];
      }
      effectTasks := effectTasks + [effect];
    }

    method LinkAfter(effect: EffectTask) returns (queue: FrameQueue)
      requires Distinct(effectTasks) && effectTasks != []
      requires Linked(effectTasks, queues) && Route(queues, unprocessedFrameQueue, processedFrameQueue)
      modifies effectTasks[|effectTasks| - 1], effect
      ensures fresh(queue) && queue.capacity == 2
      ensures effect !in effectTasks ==> Linked(effectTasks + [effect], Insert(queues, |effectTasks|, queue))
    {
      assert forall k :: 0 <= k < |effectTasks| - 1 ==> effectTasks[k] != effectTasks[|effectTasks| - 1];
      effect.outputQueue := processedFrameQueue;
      queue := new FrameQueue(2);
      effectTasks[|effectTasks| - 1].outputQueue := queue;
      effect.inputQueue := queue;
      if effect !in effectTasks {
        LinkedAppend(effectTasks, queues, effect, queue);
      }
    }

    /** `queue` becomes queue number `index` of the chain. */
    ghost method RouteThrough(index: nat, queue: FrameQueue)
      requires 0 < index < |queues| && queue.capacity == 2 && queue !in queues
      requires Route(queues, unprocessedFrameQueue, processedFrameQueue)
      modifies this`queues
      ensures queues == Insert(old(queues), index, queue)
      ensures Route(queues, unprocessedFrameQueue, processedFrameQueue)
    {
      InsertDistinct(queues, index, queue);
      queues := Insert(queues, index, queue);
    }

    /**
     A new thread takes the place of thread `index` for the same task; the old one is interrupted, or left as it is.
     */
    method ReplaceThread(index: nat, interrupt: bool)
      requires Manned() && index < |effectThreads|
      modifies this`effectThreads, this`spawned, if interrupt then {effectThreads[index]} else {}
      ensures |effectThreads| == |old(effectThreads)| && fresh(effectThreads[index]) && effectThreads[index].state.New?
      ensures effectThreads[index].takesFrom == effectThreads[index].task.inputQueue
      ensures effectThreads[index].task == effectTasks[index]
      ensures effectThreads == old(effectThreads)[index := effectThreads[index]]
      ensures spawned == old(spawned) + {effectThreads[index]}
      ensures Manned()
      ensures forall i :: 0 <= i < |effectThreads| && i != index ==>
                effectThreads[i].state == old(effectThreads[i].state)
      ensures interrupt ==> (NoOrphans() <==> old(NoOrphans()))
      ensures !interrupt ==> (NoOrphans() <==> old(NoOrphans() && !effectThreads[index].state.Live?))
      ensures interrupt ==> !old(effectThreads)[index].state.Live?
    {
      var thread := effectThreads[index];
      var task := thread.task;
      effectThreads := effectThreads[..index] + effectThreads[index + 1..];
      if interrupt {
        thread.Interrupt();
      }
      thread := new EffectThread(task);
      effectThreads := effectThreads[..index] + [thread] + effectThreads[index..];
      spawned := spawned + {thread};
    }

    method InsertThread(index: nat, task: EffectTask)
      requires index <= |effectThreads| && |effectTasks| == |effectThreads| + 1 && effectTasks[index] == task
      requires Crew(effectThreads, Delete(effectTasks, index), spawned)
      modifies this`effectThreads, this`spawned
      ensures index < |effectThreads| && fresh(effectThreads[index]) && effectThreads[index].state.New?
      ensures effectThreads[index].takesFrom == task.inputQueue
      ensures effectThreads == Insert(old(effectThreads), index, effectThreads[index])
      ensures |effectThreads| == |old(effectThreads)| + 1
      ensures Manned()
      ensures forall i :: 0 <= i < |effectThreads| && i != index ==>
                effectThreads[i] == old(effectThreads)[if i < index then i else i - 1]
      ensures NoOrphans() <==> old(NoOrphans())
      ensures forall i :: 0 <= i < |effectThreads| && i != index ==> effectThreads[i] in old(effectThreads)
    {
      var thread := new EffectThread(task);
      InsertDistinct(effectThreads, index, thread);
      effectThreads := Insert(effectThreads, index, thread);
      spawned := spawned + {thread};
    }
  }
}
