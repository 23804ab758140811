/** Every interleaving of Adds, flush goroutines, the timer worker and Shutdown on the event write
    buffer: where each event is at any moment, and what is left after shutdown. */
module EventBufferRuns {
  import AdaptiveBatch
  import opened Common

  const MAX_FLUSHES := 8   // capacity of flushSem

  /** The timer worker: waiting, about to take the buffer, writing what it took, or gone. `last` marks
      the flush it makes after it has seen shutdownChan. */
  datatype Timer = Waiting | Starting(last: bool) | Writing(last: bool, batch: seq<nat>) | Exited

  datatype State = State(
    max: nat,                       // maxBufferSize
    initial: int,                   // the batch size the buffer was made with
    batchSize: int,                 // the batch size now
    buffer: seq<nat>,
    spawns: nat,                    // Adds that filled a batch and have still to call spawnFlush
    flushes: seq<Option<seq<nat>>>, // spawned goroutines and the batches they took
    timer: Timer,
    closed: bool,
    // Where events are that are not in the buffer or in a batch.
    passed: seq<nat>,               // Add saw the buffer open and waits for the lock
    refused: seq<nat>,
    dropped: seq<nat>,
    written: seq<nat>,
    failed: seq<nat>,
    // Recorded for the theorems only.
    added: seq<nat>,                // every event given to Add
    late: bool                      // an Add was between its check and the lock when the buffer closed
  )

  datatype Action =
    | Check(x: nat)            // Add: load of `closed`
    | Lock(i: nat)             // Add: the locked section, with the load of the batch size
    | Spawn                    // spawnFlush of an Add that filled a batch; without a free place in flushSem nothing
    | Resize(size: int)        // a store of adjustBatchSize
    | Take(i: nat)             // a goroutine takes the buffer, or finds it empty and returns
    | Finish(i: nat, ok: bool) // its writeBatch returned
    | Tick(last: bool)         // the timer worker's select: the ticker, or shutdownChan for the last flush
    | TimerTake
    | TimerFinish(ok: bool)
    | Close

  function Init(max: nat, size: int): State {
    State(max, size, size, [], 0, [], Waiting, false, [], [], [], [], [], [], false)
  }

  predicate Enabled(s: State, a: Action) {
    match a
    case Check(_) => true
    case Lock(i) => i < |s.passed|
    case Spawn => s.spawns > 0
    case Resize(size) => AdaptiveBatch.InRange(AdaptiveBatch.BoundsFor(s.initial), size)
    case Take(i) => i < |s.flushes| && s.flushes[i].None?
    case Finish(i, _) => i < |s.flushes| && s.flushes[i].Some?
    case Tick(last) => s.timer.Waiting? && (last ==> s.closed)   // both may be ready
    case TimerTake => s.timer.Starting?
    case TimerFinish(_) => s.timer.Writing?
    case Close => !s.closed
  }

  function After(last: bool): Timer {
    if last then Exited else Waiting
  }

  function Written(s: State, batch: seq<nat>, ok: bool): State {
    if ok then s.(written := s.written + batch) else s.(failed := s.failed + batch)
  }

  function Apply(s: State, a: Action): State
    requires Enabled(s, a)
  {
    match a
    case Check(x) =>
      if s.closed then s.(refused := s.refused + [x], added := s.added + [x])
      else s.(passed := s.passed + [x], added := s.added + [x])
    case Lock(i) =>
      var x := s.passed[i];
      if |s.buffer| >= s.max
      then s.(passed := Except(s.passed, i), dropped := s.dropped + [x])
      else s.(passed := Except(s.passed, i), buffer := s.buffer + [x],
              spawns := if |s.buffer| + 1 >= s.batchSize then s.spawns + 1 else s.spawns)
    case Spawn =>
      s.(flushes := if |s.flushes| < MAX_FLUSHES then s.flushes + [None] else s.flushes, spawns := s.spawns - 1)
    case Resize(size) => s.(batchSize := size)
    case Take(i) =>
      if s.buffer == [] then s.(flushes := Except(s.flushes, i))
      else s.(flushes := s.flushes[i := Some(s.buffer)], buffer := [])
    case Finish(i, ok) => Written(s.(flushes := Except(s.flushes, i)), s.flushes[i].value, ok)
    case Tick(last) => s.(timer := Starting(last))
    case TimerTake =>
      if s.buffer == [] then s.(timer := After(s.timer.last))
      else s.(timer := Writing(s.timer.last, s.buffer), buffer := [])
    case TimerFinish(ok) => Written(s.(timer := After(s.timer.last)), s.timer.batch, ok)
    case Close => s.(closed := true, late := s.passed != [])
  }

  ghost function Run(max: nat, size: int, acts: seq<Action>): Option<State> {
    if acts == [] then Some(Init(max, size))
    else
      var before := Run(max, size, acts[..|acts| - 1]);
      if before.Some? && Enabled(before.value, Last(acts)) then Some(Apply(before.value, Last(acts))) else None
  }

  function Batch(f: Option<seq<nat>>): seq<nat> {
    if f.Some? then f.value else []
  }

  function InBatches(x: nat, flushes: seq<Option<seq<nat>>>): nat {
    if flushes == [] then 0 else Times(x, Batch(flushes[0])) + InBatches(x, flushes[1..])
  }

  function TimerBatch(t: Timer): seq<nat> {
    if t.Writing? then t.batch else []
  }

  /** How often `x` is in memory: waiting for the lock, buffered, or in an in-flight batch. */
  function InMemory(x: nat, s: State): nat {
    Times(x, s.passed) + Times(x, s.buffer) + InBatches(x, s.flushes) + Times(x, TimerBatch(s.timer))
  }

  /** How often it is out of memory: refused, dropped and counted, written, or failed. */
  function Settled(x: nat, s: State): nat {
    Times(x, s.refused) + Times(x, s.dropped) + Times(x, s.written) + Times(x, s.failed)
  }

  predicate Accounted(x: nat, s: State) {
    Times(x, s.added) == InMemory(x, s) + Settled(x, s)
  }

  ghost predicate Conserved(s: State) {
    forall x :: Accounted(x, s)
  }

  predicate Bounded(s: State) {
    && |s.buffer| <= s.max
    && |s.flushes| <= MAX_FLUSHES
    && (s.closed && !s.late ==> s.passed == [])
    && (LastTook(s.timer) ==> s.closed && (!s.late ==> s.buffer == []))
    && (s.timer.Starting? && s.timer.last ==> s.closed)
    && (s.refused != [] ==> s.closed)
    && (s.initial >= 2 ==> s.batchSize >= 2)
  }

  /** The timer worker's last flush has taken the buffer. */
  predicate LastTook(t: Timer) {
    t.Exited? || (t.Writing? && t.last)
  }

  lemma {:induction false} BatchesExcept(x: nat, flushes: seq<Option<seq<nat>>>, i: nat)
    requires i < |flushes|
    ensures InBatches(x, flushes) == Times(x, Batch(flushes[i])) + InBatches(x, Except(flushes, i))
  {
    if i == 0 {
      assert Except(flushes, 0) == flushes[1..];
    } else {
      BatchesExcept(x, flushes[1..], i - 1);
      assert Except(flushes, i)[1..] == Except(flushes[1..], i - 1);
    }
  }

  lemma {:induction false} BatchesSet(x: nat, flushes: seq<Option<seq<nat>>>, i: nat, b: seq<nat>)
    requires i < |flushes| && flushes[i].None?
    ensures InBatches(x, flushes[i := Some(b)]) == Times(x, b) + InBatches(x, flushes)
  {
    if i == 0 {
      assert flushes[0 := Some(b)][1..] == flushes[1..];
    } else {
      BatchesSet(x, flushes[1..], i - 1, b);
      assert flushes[i := Some(b)][1..] == flushes[1..][i - 1 := Some(b)];
    }
  }

  lemma {:induction false} BatchesAppend(x: nat, flushes: seq<Option<seq<nat>>>)
    ensures InBatches(x, flushes + [None]) == InBatches(x, flushes)
  {
    if flushes == [] {
      assert flushes + [None] == [None] && [None][1..] == flushes;
    } else {
      BatchesAppend(x, flushes[1..]);
      assert (flushes + [None])[1..] == flushes[1..] + [None];
    }
  }

  lemma TimesExcept(x: nat, s: seq<nat>, i: nat)
    requires i < |s|
    ensures Times(x, s) == Times(x, Except(s, i)) + Times(x, [s[i]])
  {
    assert s == s[..i] + ([s[i]] + s[i + 1..]);
    TimesConcat(x, s[..i], [s[i]] + s[i + 1..]);
    TimesConcat(x, [s[i]], s[i + 1..]);
    TimesConcat(x, s[..i], s[i + 1..]);
  }

  lemma CheckConserves(x: nat, s: State, a: Action)
    requires a.Check? && Enabled(s, a) && Accounted(x, s)
    ensures Accounted(x, Apply(s, a))
  {
    TimesConcat(x, s.added, [a.x]);
    if s.closed {
      TimesConcat(x, s.refused, [a.x]);
    } else {
      TimesConcat(x, s.passed, [a.x]);
    }
  }

  lemma LockConserves(x: nat, s: State, a: Action)
    requires a.Lock? && Enabled(s, a) && Accounted(x, s)
    ensures Accounted(x, Apply(s, a))
  {
    TimesExcept(x, s.passed, a.i);
    if |s.buffer| >= s.max {
      TimesConcat(x, s.dropped, [s.passed[a.i]]);
    } else {
      TimesConcat(x, s.buffer, [s.passed[a.i]]);
    }
  }

  lemma TakeConserves(x: nat, s: State, a: Action)
    requires a.Take? && Enabled(s, a) && Accounted(x, s)
    ensures Accounted(x, Apply(s, a))
  {
    assert Times(x, []) == 0;
    var t := Apply(s, a);
    if s.buffer == [] {
      BatchesExcept(x, s.flushes, a.i);
      assert InBatches(x, t.flushes) == InBatches(x, s.flushes);
    } else {
      BatchesSet(x, s.flushes, a.i, s.buffer);
      assert InBatches(x, t.flushes) == Times(x, s.buffer) + InBatches(x, s.flushes);
    }
  }

  lemma FinishConserves(x: nat, s: State, a: Action)
    requires a.Finish? && Enabled(s, a) && Accounted(x, s)
    ensures Accounted(x, Apply(s, a))
  {
    BatchesExcept(x, s.flushes, a.i);
    if a.ok {
      TimesConcat(x, s.written, s.flushes[a.i].value);
    } else {
      TimesConcat(x, s.failed, s.flushes[a.i].value);
    }
  }

  lemma TimerConserves(x: nat, s: State, a: Action)
    requires (a.Tick? || a.TimerTake? || a.Close? || a.Resize?) && Enabled(s, a) && Accounted(x, s)
    ensures Accounted(x, Apply(s, a))
  {
    hide InBatches;
    assert Times(x, []) == 0;
  }

  lemma TimerFinishConserves(x: nat, s: State, a: Action)
    requires a.TimerFinish? && Enabled(s, a) && Accounted(x, s)
    ensures Accounted(x, Apply(s, a))
  {
    hide InBatches;
    assert Times(x, []) == 0;
    if a.ok {
      TimesConcat(x, s.written, s.timer.batch);
    } else {
      TimesConcat(x, s.failed, s.timer.batch);
    }
  }

  lemma StepConserves(x: nat, s: State, a: Action)
    requires Enabled(s, a) && Accounted(x, s)
    ensures Accounted(x, Apply(s, a))
  {
    match a {
      case Check(_) => CheckConserves(x, s, a);
      case Lock(_) => LockConserves(x, s, a);
      case Spawn => BatchesAppend(x, s.flushes);
      case Take(_) => TakeConserves(x, s, a);
      case Finish(_, _) => FinishConserves(x, s, a);
      case TimerFinish(_) => TimerFinishConserves(x, s, a);
      case _ => TimerConserves(x, s, a);
    }
  }

  lemma {:induction false} Reachable(max: nat, size: int, acts: seq<Action>)
    requires Run(max, size, acts).Some?
    ensures Bounded(Run(max, size, acts).value) && Conserved(Run(max, size, acts).value)
    decreases |acts|
  {
    if acts != [] {
      Reachable(max, size, acts[..|acts| - 1]);
      var s := Run(max, size, acts[..|acts| - 1]).value;
      forall x ensures Accounted(x, Apply(s, Last(acts))) {
        StepConserves(x, s, Last(acts));
      }
      StepBounded(s, Last(acts));
    }
  }

  lemma StepBounded(s: State, a: Action)
    requires Bounded(s) && Enabled(s, a)
    ensures Bounded(Apply(s, a))
  {
  }

  /** At every step each event given to Add is in exactly one place, the buffer is within its limit and
      at most eight spawned flushes run beside the timer worker's. */
  lemma EachEventInOnePlace(max: nat, size: int, acts: seq<Action>, x: nat)
    requires Run(max, size, acts).Some?
    ensures var s := Run(max, size, acts).value;
            && Times(x, s.added) ==
               Times(x, s.passed) + Times(x, s.buffer) + InBatches(x, s.flushes) + Times(x, TimerBatch(s.timer))
               + Times(x, s.refused) + Times(x, s.dropped) + Times(x, s.written) + Times(x, s.failed)
            && |s.buffer| <= max && |s.flushes| <= 8
            && (s.refused != [] ==> s.closed)
  {
    Reachable(max, size, acts);
    SettingsFixed(max, size, acts);
    assert Accounted(x, Run(max, size, acts).value);
  }

  lemma {:induction false} SettingsFixed(max: nat, size: int, acts: seq<Action>)
    requires Run(max, size, acts).Some?
    ensures var s := Run(max, size, acts).value; s.max == max && s.initial == size
    decreases |acts|
  {
    if acts != [] {
      SettingsFixed(max, size, acts[..|acts| - 1]);
    }
  }

  /** When Shutdown's wait is over, every event added was written, failed, dropped, or refused because
      it came after the close; except that an Add caught between its check and the lock by the close
      may have left events in the buffer for good. */
  lemma ShutdownSettlesAll(max: nat, size: int, acts: seq<Action>)
    requires Run(max, size, acts).Some?
    requires var s := Run(max, size, acts).value; s.timer.Exited? && s.flushes == [] && !s.late
    ensures var s := Run(max, size, acts).value;
            s.closed && s.buffer == [] && forall x :: Times(x, s.added) == Settled(x, s)
  {
    Reachable(max, size, acts);
    var s := Run(max, size, acts).value;
    forall x ensures Times(x, s.added) == Settled(x, s) {
      assert Accounted(x, s);
    }
  }

  lemma Extend(max: nat, size: int, acts: seq<Action>, a: Action) returns (acts': seq<Action>)
    requires Run(max, size, acts).Some? && Enabled(Run(max, size, acts).value, a)
    ensures acts' == acts + [a] && Run(max, size, acts') == Some(Apply(Run(max, size, acts).value, a))
  {
    acts' := acts + [a];
    assert acts'[..|acts|] == acts;
  }

  // ---- Exactly when Shutdown may leave an event behind ---------------------------------

  predicate Stopped(s: State) {
    s.timer.Exited? && s.flushes == [] && s.spawns == 0 && s.passed == []
  }

  ghost predicate AllSettled(s: State) {
    forall x :: Times(x, s.added) == Settled(x, s)
  }

  /** Whatever happens after Shutdown closes the buffer, once all has stopped no event is left. */
  ghost predicate AlwaysSettles(max: nat, size: int, acts: seq<Action>) {
    forall more: seq<Action> ::
      Run(max, size, acts + [Close] + more).Some? && Stopped(Run(max, size, acts + [Close] + more).value) ==>
        AllSettled(Run(max, size, acts + [Close] + more).value)
  }

  /** The steps that goroutines and the timer have still to make after the close. */
  function FlushWork(flushes: seq<Option<seq<nat>>>): nat {
    if flushes == [] then 0 else (if flushes[0].None? then 2 else 1) + FlushWork(flushes[1..])
  }

  function TimerWork(t: Timer): nat {
    match t
    case Exited => 0
    case Writing(true, _) => 1
    case Starting(true) => 2
    case Waiting => 3
    case Writing(false, _) => 4
    case Starting(false) => 5
  }

  function Work(s: State): nat {
    3 * s.spawns + FlushWork(s.flushes) + TimerWork(s.timer)
  }

  predicate Idle(s: State) {
    s.timer.Exited? && s.flushes == [] && s.spawns == 0
  }

  predicate TookAll(s: State) {
    s.closed && (LastTook(s.timer) ==> s.buffer == [])
  }

  predicate SameSettings(s: State, t: State) {
    t.max == s.max && t.batchSize == s.batchSize
  }

  /** The next step of an Add that filled a batch, of a flush or of the timer; no Add enters. */
  function Onward(s: State): (a: Action)
    requires s.closed && !Idle(s)
    ensures Enabled(s, a)
  {
    if s.spawns > 0 then Spawn
    else if s.flushes != [] then if s.flushes[0].None? then Take(0) else Finish(0, true)
    else match s.timer
      case Waiting => Tick(true)
      case Starting(_) => TimerTake
      case _ => TimerFinish(true)
  }

  lemma {:induction false} FlushWorkAppend(flushes: seq<Option<seq<nat>>>)
    ensures FlushWork(flushes + [None]) == FlushWork(flushes) + 2
  {
    if flushes == [] {
      assert flushes + [None] == [None] && [None][1..] == flushes;
    } else {
      FlushWorkAppend(flushes[1..]);
      assert (flushes + [None])[1..] == flushes[1..] + [None];
    }
  }

  lemma OnwardStep(s: State)
    requires TookAll(s) && !Idle(s)
    ensures var t := Apply(s, Onward(s));
            TookAll(t) && t.passed == s.passed && SameSettings(s, t) && Work(t) < Work(s)
  {
    if s.spawns > 0 {
      FlushWorkAppend(s.flushes);
    } else if s.flushes != [] {
      assert Except(s.flushes, 0) == s.flushes[1..];
      assert s.flushes[0 := Some(s.buffer)][1..] == s.flushes[1..];
    }
  }

  /** All of them run to their end, with the Adds still waiting for the lock. */
  lemma {:induction false} RunOut(max: nat, size: int, acts: seq<Action>) returns (more: seq<Action>)
    requires Run(max, size, acts).Some? && TookAll(Run(max, size, acts).value)
    ensures Run(max, size, acts + more).Some?
    ensures var s, t := Run(max, size, acts).value, Run(max, size, acts + more).value;
            Idle(t) && t.buffer == [] && t.passed == s.passed && SameSettings(s, t)
    decreases Work(Run(max, size, acts).value)
  {
    hide Run, Apply, Work;
    var s := Run(max, size, acts).value;
    if Idle(s) {
      more := [];
      assert acts + more == acts;
    } else {
      OnwardStep(s);
      var acts' := Extend(max, size, acts, Onward(s));
      var rest := RunOut(max, size, acts');
      more := [Onward(s)] + rest;
      assert acts + more == acts' + rest;
    }
  }

  lemma LockStep(s: State)
    requires s.passed != []
    ensures var t := Apply(s, Lock(0));
            t.timer == s.timer && t.closed == s.closed && SameSettings(s, t) && |t.passed| == |s.passed| - 1
    ensures Idle(s) && s.buffer == [] && s.max > 0 && s.batchSize >= 2 && |s.passed| == 1 ==>
              Stopped(Apply(s, Lock(0))) && Apply(s, Lock(0)).buffer != []
  {
  }

  /** All waiting Adds but one go through while the timer has not made its last flush. */
  lemma {:induction false} LockMost(max: nat, size: int, acts: seq<Action>) returns (more: seq<Action>)
    requires Run(max, size, acts).Some?
    requires var s := Run(max, size, acts).value; s.closed && !LastTook(s.timer) && s.passed != []
    ensures Run(max, size, acts + more).Some?
    ensures var s, t := Run(max, size, acts).value, Run(max, size, acts + more).value;
            TookAll(t) && |t.passed| == 1 && SameSettings(s, t)
    decreases |Run(max, size, acts).value.passed|
  {
    hide Run, Apply, LastTook;
    var s := Run(max, size, acts).value;
    if |s.passed| == 1 {
      more := [];
      assert acts + more == acts;
    } else {
      LockStep(s);
      var acts' := Extend(max, size, acts, Lock(0));
      var rest := LockMost(max, size, acts');
      more := [Lock(0)] + rest;
      assert acts + more == acts' + rest;
    }
  }

  lemma BufferedIsUnsettled(s: State)
    requires Conserved(s) && s.buffer != []
    ensures !AllSettled(s)
  {
    var x := s.buffer[0];
    assert Accounted(x, s) && x in multiset(s.buffer);
  }

  lemma CloseStep(s: State)
    requires Bounded(s) && !s.closed
    ensures var t := Apply(s, Close);
            t.closed && !LastTook(t.timer) && t.passed == s.passed && SameSettings(s, t)
  {
  }

  lemma Unsettled(max: nat, size: int, acts: seq<Action>, more: seq<Action>)
    requires Run(max, size, acts + [Close] + more).Some?
    requires var t := Run(max, size, acts + [Close] + more).value; Stopped(t) && t.buffer != []
    ensures !AlwaysSettles(max, size, acts)
  {
    Reachable(max, size, acts + [Close] + more);
    BufferedIsUnsettled(Run(max, size, acts + [Close] + more).value);
  }

  /** One of the waiting Adds gets the lock after the timer's last flush, alone in its batch. */
  lemma WaitingAddStrands(max: nat, size: int, acts: seq<Action>)
    requires max > 0 && size >= 2 && Run(max, size, acts).Some?
    requires var s := Run(max, size, acts).value; !s.closed && s.passed != []
    ensures !AlwaysSettles(max, size, acts)
  {
    hide Run, Apply, TookAll, Conserved, AlwaysSettles, Stopped, LastTook;
    Reachable(max, size, acts);
    SettingsFixed(max, size, acts);
    CloseStep(Run(max, size, acts).value);
    var closed := Extend(max, size, acts, Close);
    var first := LockMost(max, size, closed);
    var second := RunOut(max, size, closed + first);
    LockStep(Run(max, size, closed + first + second).value);
    var all := Extend(max, size, closed + first + second, Lock(0));
    assert all == acts + [Close] + (first + second + [Lock(0)]);
    Unsettled(max, size, acts, first + second + [Lock(0)]);
  }

  lemma EmptyRun(max: nat, size: int)
    ensures Run(max, size, []) == Some(Init(max, size))
  {
  }

  /** The shortest such run: the event stays in the buffer for good. */
  lemma LateAddIsStranded(max: nat, size: int, x: nat) returns (acts: seq<Action>, s: State)
    requires max > 0 && size >= 2
    ensures Run(max, size, acts) == Some(s) && Stopped(s)
    ensures s.added == [x] && s.buffer == [x] && Settled(x, s) == 0
  {
    hide Run;
    EmptyRun(max, size);
    acts := Extend(max, size, [], Check(x));
    acts := Extend(max, size, acts, Close);
    acts := Extend(max, size, acts, Tick(true));
    acts := Extend(max, size, acts, TimerTake);
    acts := Extend(max, size, acts, Lock(0));
    s := Run(max, size, acts).value;
  }

  lemma {:induction false} LateFixed(max: nat, size: int, acts: seq<Action>, more: seq<Action>)
    requires Run(max, size, acts).Some? && Run(max, size, acts).value.closed && Run(max, size, acts + more).Some?
    ensures var s, t := Run(max, size, acts).value, Run(max, size, acts + more).value; t.closed && t.late == s.late
    decreases |more|
  {
    if more == [] {
      assert acts + more == acts;
    } else {
      assert (acts + more)[..|acts + more| - 1] == acts + more[..|more| - 1];
      LateFixed(max, size, acts, more[..|more| - 1]);
    }
  }

  /** Shutdown leaves nothing behind, whatever the schedule, if and only if no Add is between its check
      and the lock at the moment of the close. With a batch size below 2 every Add spawns a flush, and
      only the first half is stated. */
  lemma ShutdownSafeIff(max: nat, size: int, acts: seq<Action>)
    requires max > 0 && Run(max, size, acts).Some? && !Run(max, size, acts).value.closed
    ensures Run(max, size, acts).value.passed == [] ==> AlwaysSettles(max, size, acts)
    ensures size >= 2 && Run(max, size, acts).value.passed != [] ==> !AlwaysSettles(max, size, acts)
  {
    if Run(max, size, acts).value.passed != [] {
      if size >= 2 {
        WaitingAddStrands(max, size, acts);
      }
    } else {
      forall more: seq<Action> |
        Run(max, size, acts + [Close] + more).Some? && Stopped(Run(max, size, acts + [Close] + more).value)
        ensures AllSettled(Run(max, size, acts + [Close] + more).value)
      {
        var closed := Extend(max, size, acts, Close);
        LateFixed(max, size, closed, more);
        ShutdownSettlesAll(max, size, closed + more);
      }
    }
  }
}
