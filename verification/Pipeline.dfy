/** internal/event/event.go: requests go from the queue through the dispatcher, taskChan, the process
    worker and the goroutine pool to the event write buffer, and Shutdown empties this pipeline stage
    by stage before it closes the buffer. */
module Pipeline {
  import opened Common
  import DynamicQueue

  const TASK_CAPACITY := 1000   // make(chan *model.EventRequest, 1000)

  /** The goroutine of `dispatch`: about to call Dequeue, after a Dequeue that found nothing and before
      its IsClosed, sending to taskChan, or returned (with taskChan closed). */
  datatype Dispatcher = Polling | SawEmpty | Sending(item: nat) | Returned

  /** The goroutine of `processWorker`. */
  datatype Worker = Receiving | Submitting(task: nat) | Left

  /** A pool task before processEvent has returned, and one about to call Add with its result. */
  datatype Task = Processing(item: nat) | Adding(item: nat)

  /** How far Shutdown is; each value names the last call that has returned. */
  datatype Phase = Running | QueueClosed | LoopsDone | TasksDone | BufferClosed | SessionsClosed | Cancelled

  datatype State = State(
    poolSize: nat,
    queue: seq<nat>,
    dispatcher: Dispatcher,
    tasks: seq<nat>,        // taskChan
    worker: Worker,
    pool: seq<Task>,        // running pool tasks, counted by processWG
    phase: Phase,
    // Recorded for the theorems only.
    accepted: seq<nat>,     // requests for which Enqueue returned nil
    submitted: seq<nat>,    // requests handed to the pool
    processed: seq<nat>,    // requests processEvent has returned for
    results: seq<nat>,      // those for which it returned an event
    stored: seq<nat>,       // events the open buffer was given
    refused: seq<nat>,      // events Add rejected because the buffer was closed
    sinceEmpty: seq<nat>    // requests accepted since the last Dequeue that found nothing
  )

  datatype Action =
    | Accept(x: nat)               // a successful Enqueue
    | Dequeue
    | CheckClosed                  // IsClosed, then return or sleep
    | Send
    | Receive
    | WorkerReturns                // taskChan is closed and empty
    | Submit
    | Process(i: nat, keep: bool)  // processEvent returns an event (keep) or nil
    | Add(i: nat)
    | ShutdownStep
    | Abandon(dispatcher: bool)    // a loop leaves through shutdownCtx.Done()

  function Init(poolSize: nat): State {
    State(poolSize, [], Polling, [], Receiving, [], Running, [], [], [], [], [], [], [])
  }

  predicate IsClosed(s: State) {
    !s.phase.Running?
  }

  predicate Enabled(s: State, a: Action) {
    match a
    case Accept(_) => !IsClosed(s)
    case Dequeue => s.dispatcher.Polling?
    case CheckClosed => s.dispatcher.SawEmpty?
    case Send => s.dispatcher.Sending? && |s.tasks| < TASK_CAPACITY
    case Receive => s.worker.Receiving? && s.tasks != []
    case WorkerReturns => s.worker.Receiving? && s.tasks == [] && s.dispatcher.Returned?
    case Submit => s.worker.Submitting? && |s.pool| < s.poolSize
    case Process(i, _) => i < |s.pool| && s.pool[i].Processing?
    case Add(i) => i < |s.pool| && s.pool[i].Adding?
    case ShutdownStep =>
      (match s.phase
       case QueueClosed => s.dispatcher.Returned? && s.worker.Left?   // wg.Wait
       case LoopsDone => s.pool == []                                 // processWG.Wait
       case Cancelled => false
       case _ => true)
    case Abandon(d) => s.phase.Cancelled? && if d then !s.dispatcher.Returned? else !s.worker.Left?
  }

  function Next(p: Phase): Phase {
    match p
    case Running => QueueClosed
    case QueueClosed => LoopsDone
    case LoopsDone => TasksDone
    case TasksDone => BufferClosed
    case BufferClosed => SessionsClosed
    case _ => Cancelled
  }

  predicate BufferIsClosed(s: State) {
    s.phase.BufferClosed? || s.phase.SessionsClosed? || s.phase.Cancelled?
  }

  function Apply(s: State, a: Action): State
    requires Enabled(s, a)
  {
    match a
    case Accept(x) =>
      s.(queue := s.queue + [x], accepted := s.accepted + [x], sinceEmpty := s.sinceEmpty + [x])
    case Dequeue =>
      if s.queue == [] then s.(dispatcher := SawEmpty, sinceEmpty := [])
      else s.(dispatcher := Sending(s.queue[0]), queue := s.queue[1..])
    case CheckClosed => s.(dispatcher := if IsClosed(s) then Returned else Polling)
    case Send => s.(dispatcher := Polling, tasks := s.tasks + [s.dispatcher.item])
    case Receive => s.(worker := Submitting(s.tasks[0]), tasks := s.tasks[1..])
    case WorkerReturns => s.(worker := Left)
    case Submit =>
      s.(worker := Receiving, pool := s.pool + [Processing(s.worker.task)], submitted := s.submitted + [s.worker.task])
    case Process(i, keep) =>
      var x := s.pool[i].item;
      if keep
      then s.(pool := s.pool[i := Adding(x)], processed := s.processed + [x], results := s.results + [x])
      else s.(pool := Except(s.pool, i), processed := s.processed + [x])
    case Add(i) =>
      var x := s.pool[i].item;
      if BufferIsClosed(s)
      then s.(pool := Except(s.pool, i), refused := s.refused + [x])
      else s.(pool := Except(s.pool, i), stored := s.stored + [x])
    case ShutdownStep => s.(phase := Next(s.phase))
    case Abandon(d) => if d then s.(dispatcher := Returned) else s.(worker := Left)
  }

  ghost function Run(poolSize: nat, acts: seq<Action>): Option<State> {
    if acts == [] then Some(Init(poolSize))
    else
      var before := Run(poolSize, acts[..|acts| - 1]);
      if before.Some? && Enabled(before.value, Last(acts)) then Some(Apply(before.value, Last(acts))) else None
  }

  // ---- Where each accepted request is ------------------------------------------------

  function Held(s: State): seq<nat> {
    (if s.worker.Submitting? then [s.worker.task] else []) + s.tasks
  }

  function InHand(d: Dispatcher): seq<nat> {
    if d.Sending? then [d.item] else []
  }

  function InStage(x: nat, pool: seq<Task>, adding: bool): nat {
    if pool == [] then 0
    else (if pool[0].item == x && pool[0].Adding? == adding then 1 else 0) + InStage(x, pool[1..], adding)
  }

  /** Up to the pool the pipeline is one queue, in the order of acceptance. */
  ghost predicate InOrder(s: State) {
    s.accepted == s.submitted + Held(s) + InHand(s.dispatcher) + s.queue
  }

  /** In the pool each request is in exactly one stage. */
  predicate Accounted(x: nat, s: State) {
    && Times(x, s.submitted) == InStage(x, s.pool, false) + Times(x, s.processed)
    && Times(x, s.results) == InStage(x, s.pool, true) + Times(x, s.stored) + Times(x, s.refused)
  }

  predicate Gated(s: State) {
    && (s.dispatcher.SawEmpty? || s.dispatcher.Returned? ==> s.queue == s.sinceEmpty)
    && (s.dispatcher.Returned? ==> IsClosed(s))
    && (s.worker.Left? ==> s.dispatcher.Returned? && Held(s) == [])
    && (!s.phase.Running? && !s.phase.QueueClosed? ==> s.dispatcher.Returned? && s.worker.Left?)
    && (!s.phase.Running? && !s.phase.QueueClosed? && !s.phase.LoopsDone? ==> s.pool == [])
    && s.refused == [] && |s.tasks| <= TASK_CAPACITY && |s.pool| <= s.poolSize
  }

  lemma StepInOrder(s: State, a: Action)
    requires Enabled(s, a) && InOrder(s) && Gated(s)
    ensures InOrder(Apply(s, a))
  {
    var t := Apply(s, a);
    match a {
      case Accept(x) => assert t.accepted == s.submitted + Held(s) + InHand(s.dispatcher) + (s.queue + [x]);
      case Dequeue => assert InHand(t.dispatcher) + t.queue == s.queue;
      case Send => assert Held(t) == Held(s) + InHand(s.dispatcher);
      case Receive => assert Held(t) == Held(s);
      case Submit => assert t.submitted + Held(t) == s.submitted + Held(s);
      case _ =>
    }
  }

  lemma StepGated(s: State, a: Action)
    requires Enabled(s, a) && Gated(s)
    ensures Gated(Apply(s, a))
  {
  }

  lemma {:induction false} StageExcept(x: nat, pool: seq<Task>, i: nat, adding: bool)
    requires i < |pool|
    ensures InStage(x, pool, adding)
         == InStage(x, Except(pool, i), adding) + if pool[i].item == x && pool[i].Adding? == adding then 1 else 0
  {
    if i == 0 {
      assert Except(pool, 0) == pool[1..];
    } else {
      StageExcept(x, pool[1..], i - 1, adding);
      assert Except(pool, i)[1..] == Except(pool[1..], i - 1);
    }
  }

  lemma {:induction false} StageMove(x: nat, pool: seq<Task>, i: nat, adding: bool)
    requires i < |pool| && pool[i].Processing?
    ensures InStage(x, pool[i := Adding(pool[i].item)], adding)
         == InStage(x, pool, adding) + if pool[i].item != x then 0 else if adding then 1 else -1
  {
    var next := pool[i := Adding(pool[i].item)];
    if i == 0 {
      assert next[1..] == pool[1..];
    } else {
      StageMove(x, pool[1..], i - 1, adding);
      assert next[1..] == pool[1..][i - 1 := Adding(pool[i].item)];
    }
  }

  lemma {:induction false} StageAppend(x: nat, pool: seq<Task>, y: nat, adding: bool)
    ensures InStage(x, pool + [Processing(y)], adding) == InStage(x, pool, adding) + if x == y && !adding then 1 else 0
  {
    if pool == [] {
      assert [Processing(y)][1..] == [];
    } else {
      StageAppend(x, pool[1..], y, adding);
      assert (pool + [Processing(y)])[1..] == pool[1..] + [Processing(y)];
    }
  }

  lemma SubmitAccounts(x: nat, s: State, a: Action)
    requires a.Submit? && Enabled(s, a) && Accounted(x, s)
    ensures Accounted(x, Apply(s, a))
  {
    StageAppend(x, s.pool, s.worker.task, false);
    StageAppend(x, s.pool, s.worker.task, true);
    TimesAppend(x, s.submitted, s.worker.task);
  }

  lemma ProcessAccounts(x: nat, s: State, a: Action)
    requires a.Process? && Enabled(s, a) && Accounted(x, s)
    ensures Accounted(x, Apply(s, a))
  {
    var y := s.pool[a.i].item;
    TimesAppend(x, s.processed, y);
    if a.keep {
      StageMove(x, s.pool, a.i, false);
      StageMove(x, s.pool, a.i, true);
      TimesAppend(x, s.results, y);
    } else {
      StageExcept(x, s.pool, a.i, false);
      StageExcept(x, s.pool, a.i, true);
    }
  }

  lemma AddAccounts(x: nat, s: State, a: Action)
    requires a.Add? && Enabled(s, a) && Accounted(x, s)
    ensures Accounted(x, Apply(s, a))
  {
    StageExcept(x, s.pool, a.i, false);
    StageExcept(x, s.pool, a.i, true);
    TimesAppend(x, s.stored, s.pool[a.i].item);
    TimesAppend(x, s.refused, s.pool[a.i].item);
  }

  lemma StepAccounts(x: nat, s: State, a: Action)
    requires Enabled(s, a) && Accounted(x, s)
    ensures Accounted(x, Apply(s, a))
  {
    match a {
      case Submit => SubmitAccounts(x, s, a);
      case Process(_, _) => ProcessAccounts(x, s, a);
      case Add(_) => AddAccounts(x, s, a);
      case _ =>
    }
  }

  lemma {:induction false} Reachable(poolSize: nat, acts: seq<Action>, x: nat)
    requires Run(poolSize, acts).Some?
    ensures var s := Run(poolSize, acts).value; InOrder(s) && Gated(s) && Accounted(x, s) && s.poolSize == poolSize
    decreases |acts|
  {
    if acts != [] {
      Reachable(poolSize, acts[..|acts| - 1], x);
      var s := Run(poolSize, acts[..|acts| - 1]).value;
      StepInOrder(s, Last(acts));
      StepGated(s, Last(acts));
      StepAccounts(x, s, Last(acts));
    }
  }

  /** Whatever the interleaving, no event is refused because the buffer was closed too early, nothing is
      being processed once it or the session manager is shut down, neither loop ever leaves through the
      cancelled context, and requests reach the pool in the order in which they were accepted. */
  lemma NothingRefused(poolSize: nat, acts: seq<Action>, d: bool)
    requires Run(poolSize, acts).Some?
    ensures var s := Run(poolSize, acts).value;
            && s.refused == [] && |s.tasks| <= 1000 && |s.pool| <= poolSize
            && (s.phase.BufferClosed? || s.phase.SessionsClosed? || s.phase.Cancelled? ==> s.pool == [])
            && !Enabled(s, Abandon(d)) && s.submitted <= s.accepted
  {
    Reachable(poolSize, acts, 0);
  }

  lemma DrainedState(s: State, x: nat)
    requires InOrder(s) && Gated(s) && Accounted(x, s)
    requires !s.phase.Running? && !s.phase.QueueClosed? && !s.phase.LoopsDone?
    ensures s.accepted == s.submitted + s.sinceEmpty
    ensures Times(x, s.processed) == Times(x, s.submitted) && Times(x, s.stored) == Times(x, s.results)
  {
    assert Held(s) == [] && InHand(s.dispatcher) == [];
    assert s.submitted + Held(s) + InHand(s.dispatcher) == s.submitted;
    assert Times(x, s.refused) == 0;
  }

  /** Once Shutdown has waited for the pool, each accepted request has been given to processEvent
      exactly as often as it was accepted and each event it returned is in the buffer, apart from the
      requests accepted between the dispatcher's last empty Dequeue and its IsClosed. */
  lemma ShutdownDrains(poolSize: nat, acts: seq<Action>, x: nat)
    requires Run(poolSize, acts).Some?
    requires var p := Run(poolSize, acts).value.phase; !p.Running? && !p.QueueClosed? && !p.LoopsDone?
    ensures var s := Run(poolSize, acts).value;
            && s.accepted == s.submitted + s.sinceEmpty
            && Times(x, s.processed) == Times(x, s.submitted)
            && Times(x, s.stored) == Times(x, s.results)
  {
    Reachable(poolSize, acts, x);
    DrainedState(Run(poolSize, acts).value, x);
  }

  /** So shutdown loses nothing exactly when no request was accepted in that gap. */
  lemma LosesNothingIff(poolSize: nat, acts: seq<Action>)
    requires Run(poolSize, acts).Some?
    requires var p := Run(poolSize, acts).value.phase; !p.Running? && !p.QueueClosed? && !p.LoopsDone?
    ensures var s := Run(poolSize, acts).value;
            multiset(s.processed) == multiset(s.accepted) <==> s.sinceEmpty == []
  {
    var s := Run(poolSize, acts).value;
    ShutdownDrains(poolSize, acts, 0);
    assert multiset(s.processed) == multiset(s.submitted) by {
      forall x ensures multiset(s.processed)[x] == multiset(s.submitted)[x] {
        ShutdownDrains(poolSize, acts, x);
      }
    }
    assert |multiset(s.accepted)| == |s.submitted| + |s.sinceEmpty|;
    if s.sinceEmpty == [] {
      assert s.accepted == s.submitted;
    }
  }

  lemma Extend(poolSize: nat, acts: seq<Action>, a: Action) returns (acts': seq<Action>)
    requires Run(poolSize, acts).Some? && Enabled(Run(poolSize, acts).value, a)
    ensures acts' == acts + [a] && Run(poolSize, acts') == Some(Apply(Run(poolSize, acts).value, a))
  {
    acts' := acts + [a];
    assert acts'[..|acts|] == acts;
  }

  /** The gap is real: Enqueue reports success and Shutdown completes, but the request is never processed. */
  lemma GapLosesRequest(poolSize: nat, x: nat) returns (acts: seq<Action>, s: State)
    ensures Run(poolSize, acts) == Some(s)
    ensures s.phase.Cancelled? && s.accepted == [x] && s.processed == []
  {
    acts := Extend(poolSize, [], Dequeue);
    acts := Extend(poolSize, acts, Accept(x));
    acts := Extend(poolSize, acts, ShutdownStep);
    acts := Extend(poolSize, acts, CheckClosed);
    acts := Extend(poolSize, acts, WorkerReturns);
    acts := Extend(poolSize, acts, ShutdownStep);
    acts := Extend(poolSize, acts, ShutdownStep);
    acts := Extend(poolSize, acts, ShutdownStep);
    acts := Extend(poolSize, acts, ShutdownStep);
    acts := Extend(poolSize, acts, ShutdownStep);
    s := Run(poolSize, acts).value;
  }

  // ---- Draining ends -----------------------------------------------------------------

  function PoolWork(pool: seq<Task>): nat {
    if pool == [] then 0 else (if pool[0].Processing? then 2 else 1) + PoolWork(pool[1..])
  }

  /** The steps still to be made once the queue is closed. */
  function Work(s: State): nat {
    7 * |s.queue| + 4 * |s.tasks| + PoolWork(s.pool)
    + (match s.dispatcher case Polling => 2 case SawEmpty => 1 case Sending(_) => 7 case Returned => 0)
    + (match s.worker case Receiving => 1 case Submitting(_) => 4 case Left => 0)
    + (match s.phase case Running => 6 case QueueClosed => 5 case LoopsDone => 4 case TasksDone => 3
                     case BufferClosed => 2 case SessionsClosed => 1 case Cancelled => 0)
  }

  lemma {:induction false} PoolWorkExcept(pool: seq<Task>, i: nat)
    requires i < |pool|
    ensures PoolWork(pool) == PoolWork(Except(pool, i)) + if pool[i].Processing? then 2 else 1
  {
    if i == 0 {
      assert Except(pool, 0) == pool[1..];
    } else {
      PoolWorkExcept(pool[1..], i - 1);
      assert Except(pool, i)[1..] == Except(pool[1..], i - 1);
    }
  }

  lemma {:induction false} PoolWorkMove(pool: seq<Task>, i: nat)
    requires i < |pool| && pool[i].Processing?
    ensures PoolWork(pool[i := Adding(pool[i].item)]) == PoolWork(pool) - 1
  {
    var next := pool[i := Adding(pool[i].item)];
    if i == 0 {
      assert next[1..] == pool[1..];
    } else {
      PoolWorkMove(pool[1..], i - 1);
      assert next[1..] == pool[1..][i - 1 := Adding(pool[i].item)];
    }
  }

  lemma {:induction false} PoolWorkAppend(pool: seq<Task>, y: nat)
    ensures PoolWork(pool + [Processing(y)]) == PoolWork(pool) + 2
  {
    if pool == [] {
      assert [Processing(y)][1..] == [];
    } else {
      PoolWorkAppend(pool[1..], y);
      assert (pool + [Processing(y)])[1..] == pool[1..] + [Processing(y)];
    }
  }

  /** After the queue is closed every step brings the end nearer. */
  lemma StepProgresses(s: State, a: Action)
    requires Enabled(s, a) && IsClosed(s)
    ensures IsClosed(Apply(s, a)) && Work(Apply(s, a)) < Work(s)
  {
    match a {
      case Submit => PoolWorkAppend(s.pool, s.worker.task);
      case Process(i, keep) => if keep { PoolWorkMove(s.pool, i); } else { PoolWorkExcept(s.pool, i); }
      case Add(i) => PoolWorkExcept(s.pool, i);
      case _ =>
    }
  }

  /** Some step is possible until Shutdown has returned from its last call. */
  lemma NotStuck(poolSize: nat, acts: seq<Action>) returns (a: Action)
    requires Run(poolSize, acts).Some? && poolSize > 0
    requires var s := Run(poolSize, acts).value; IsClosed(s) && !s.phase.Cancelled?
    ensures Enabled(Run(poolSize, acts).value, a)
  {
    Reachable(poolSize, acts, 0);
    var s := Run(poolSize, acts).value;
    if s.pool != [] {
      return if s.pool[0].Processing? then Process(0, true) else Add(0);
    } else if s.worker.Submitting? {
      return Submit;
    } else if s.worker.Receiving? && s.tasks != [] {
      return Receive;
    }
    match s.dispatcher
    case Polling => return Dequeue;
    case SawEmpty => return CheckClosed;
    case Sending(_) => return Send;
    case Returned => return if s.worker.Receiving? then WorkerReturns else ShutdownStep;
  }

  /** Shutdown terminates: a run goes on for at most Work(s) steps after the queue is closed, and any
      run can be completed to the point where Shutdown is done. */
  lemma {:induction false} DrainingEnds(poolSize: nat, acts: seq<Action>, more: seq<Action>)
    requires Run(poolSize, acts).Some? && Run(poolSize, acts + more).Some?
    requires !Run(poolSize, acts).value.phase.Running?
    ensures var s, t := Run(poolSize, acts).value, Run(poolSize, acts + more).value;
            !t.phase.Running? && |more| + Work(t) <= Work(s) && t.accepted == s.accepted
    decreases |more|
  {
    if more == [] {
      assert acts + more == acts;
    } else {
      var init := more[..|more| - 1];
      assert (acts + more)[..|acts + more| - 1] == acts + init;
      DrainingEnds(poolSize, acts, init);
      StepProgresses(Run(poolSize, acts + init).value, Last(more));
    }
  }

  lemma {:induction false} ShutdownCompletes(poolSize: nat, acts: seq<Action>) returns (more: seq<Action>)
    requires Run(poolSize, acts).Some? && poolSize > 0 && !Run(poolSize, acts).value.phase.Running?
    ensures Run(poolSize, acts + more).Some? && Run(poolSize, acts + more).value.phase.Cancelled?
    decreases Work(Run(poolSize, acts).value)
  {
    if Run(poolSize, acts).value.phase.Cancelled? {
      more := [];
      assert acts + more == acts;
    } else {
      var a := NotStuck(poolSize, acts);
      var acts' := Extend(poolSize, acts, a);
      StepProgresses(Run(poolSize, acts).value, a);
      var rest := ShutdownCompletes(poolSize, acts');
      more := [a] + rest;
      assert acts + more == acts' + rest;
    }
  }

  // ---- The dispatcher's loop alone ---------------------------------------------------

  /** With the queue closed the loop of `dispatch` sends everything that is left, in order, and returns. */
  method Drain(q: DynamicQueue.DynamicQueue<Option<nat>>) returns (sent: seq<Option<nat>>)
    requires q.Valid() && !q.stuck && q.closed && q.zero == None && None !in q.Contents()
    modifies q`hasHead, q`head, q.queue`items
    ensures q.Valid() && sent == old(q.Contents()) && q.Contents() == []
  {
    sent := [];
    while true
      invariant q.Valid() && sent + q.Contents() == old(q.Contents())
      invariant None !in q.Contents() && q.closed && !q.stuck
      decreases |q.Contents()|
    {
      var item := q.Dequeue();
      if item == None {
        if q.closed {
          return;
        }
      } else {
        sent := sent + [item];
      }
    }
  }
}
