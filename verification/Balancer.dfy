/** internal/session/balancer.go: every user's tasks run one at a time, in the order they entered the
    queue of the user's worker, and each result goes back to the call that brought the task. */
module Balancer {
  import opened Common

  const SIZE := 100
  const CAPACITY := 64

  /** `id` identifies the call of Dispatch. */
  datatype Task = Task(id: nat, user: nat)

  datatype Reply<T> = Value(val: T) | DeadlineExceeded

  /** One worker: its channel, the task it is running, and what it ran so far with the results. */
  datatype Worker<T> = Worker(queue: seq<Task>, running: Option<Task>, done: seq<(Task, T)>)

  datatype State<T> = State(
    workers: seq<Worker<T>>,
    waiting: map<nat, Task>,     // calls that wait for room in a queue
    mailbox: map<nat, T>,        // result channels holding a result
    replies: map<nat, Reply<T>>, // what the finished calls returned
    // Recorded for the theorems only.
    called: map<nat, Task>,      // every call ever made
    entered: seq<seq<Task>>      // per worker, the tasks sent to its channel in order
  )

  datatype Action<T> =
    | Call(t: Task)
    | Enqueue(id: nat)
    | TimeOut(id: nat)
    | Start(w: nat)
    | Finish(w: nat, val: T)     // the closure returns `val`
    | Receive(id: nat)

  function Init<T>(): State<T> {
    State(seq(SIZE, _ => Worker([], None, [])), map[], map[], map[], map[], seq(SIZE, _ => []))
  }

  function Home(t: Task): nat { t.user % SIZE }

  predicate Enabled<T>(s: State<T>, a: Action<T>) {
    |s.workers| == SIZE == |s.entered| &&
    match a
    case Call(t) => t.id !in s.called
    case Enqueue(id) => id in s.waiting && |s.workers[Home(s.waiting[id])].queue| < CAPACITY
    case TimeOut(id) => id in s.waiting
    case Start(w) => w < SIZE && s.workers[w].running.None? && s.workers[w].queue != []
    case Finish(w, _) => w < SIZE && s.workers[w].running.Some?
    case Receive(id) => id in s.mailbox
  }

  function Apply<T>(s: State<T>, a: Action<T>): State<T>
    requires Enabled(s, a)
  {
    match a
    case Call(t) => s.(waiting := s.waiting[t.id := t], called := s.called[t.id := t])
    case Enqueue(id) =>
      var t := s.waiting[id];
      var h := Home(t);
      s.(waiting := s.waiting - {id},
         workers := s.workers[h := s.workers[h].(queue := s.workers[h].queue + [t])],
         entered := s.entered[h := s.entered[h] + [t]])
    case TimeOut(id) => s.(waiting := s.waiting - {id}, replies := s.replies[id := DeadlineExceeded])
    case Start(w) =>
      var k := s.workers[w];
      s.(workers := s.workers[w := k.(queue := k.queue[1..], running := Some(k.queue[0]))])
    case Finish(w, val) =>
      var k := s.workers[w];
      s.(workers := s.workers[w := k.(running := None, done := k.done + [(k.running.value, val)])],
         mailbox := s.mailbox[k.running.value.id := val])
    case Receive(id) =>
      s.(mailbox := s.mailbox - {id}, replies := s.replies[id := Value(s.mailbox[id])])
  }

  ghost function Run<T>(acts: seq<Action<T>>): Option<State<T>> {
    if acts == [] then Some(Init())
    else
      var before := Run(acts[..|acts| - 1]);
      if before.Some? && Enabled(before.value, Last(acts)) then Some(Apply(before.value, Last(acts))) else None
  }

  function Tasks<T>(done: seq<(Task, T)>): seq<Task> {
    seq(|done|, i requires 0 <= i < |done| => done[i].0)
  }

  function Running<T>(k: Worker<T>): seq<Task> {
    if k.running.Some? then [k.running.value] else []
  }

  /** Done, then running (at most one), then queued: exactly the tasks that entered, in that order. */
  ghost predicate InOrder<T>(k: Worker<T>, entered: seq<Task>) {
    entered == Tasks(k.done) + Running(k) + k.queue
  }

  ghost predicate Ran<T>(s: State<T>, id: nat, val: T)
    requires |s.workers| == SIZE && id in s.called
  {
    (s.called[id], val) in s.workers[Home(s.called[id])].done
  }

  ghost predicate Entered<T>(s: State<T>, id: nat)
    requires |s.entered| == SIZE && id in s.called
  {
    s.called[id] in s.entered[Home(s.called[id])]
  }

  /** How far the call `id` has come. */
  ghost predicate CallOk<T>(s: State<T>, id: nat)
    requires |s.workers| == SIZE == |s.entered| && id in s.called
  {
    && s.called[id].id == id
    && (id in s.waiting ==> s.waiting[id] == s.called[id] && !Entered(s, id) && id !in s.replies)
    && (id in s.replies && s.replies[id].DeadlineExceeded? ==> !Entered(s, id))
    && (id in s.replies && s.replies[id].Value? ==> Ran(s, id, s.replies[id].val) && id !in s.mailbox)
    && (id in s.mailbox ==> Ran(s, id, s.mailbox[id]) && id !in s.replies)
    && (id in s.waiting || id in s.replies || Entered(s, id))
    && (Entered(s, id) && id !in s.mailbox && id !in s.replies ==> Unfinished(s, s.called[id]))
  }

  ghost predicate Unfinished<T>(s: State<T>, t: Task)
    requires |s.workers| == SIZE
  {
    var k := s.workers[Home(t)];
    k.running == Some(t) || t in k.queue
  }

  predicate Distinct<T(==)>(s: seq<T>) {
    forall i, j :: 0 <= i < j < |s| ==> s[i] != s[j]
  }

  ghost predicate WorkerOk<T>(s: State<T>, w: nat)
    requires |s.workers| == SIZE == |s.entered| && w < SIZE
  {
    && InOrder(s.workers[w], s.entered[w])
    && |s.workers[w].queue| <= CAPACITY
    && Distinct(s.entered[w])
    && forall t :: t in s.entered[w] ==> Home(t) == w && t.id in s.called && s.called[t.id] == t
  }

  ghost predicate Inv<T>(s: State<T>) {
    && |s.workers| == SIZE == |s.entered|
    && (forall w :: 0 <= w < SIZE ==> WorkerOk(s, w))
    && (forall id :: id in s.called ==> CallOk(s, id))
    && (forall id :: id in s.waiting || id in s.mailbox || id in s.replies ==> id in s.called)
  }

  // ---- Every step keeps the invariant --------------------------------------------------

  lemma TasksAppend<T>(done: seq<(Task, T)>, t: Task, val: T)
    ensures Tasks(done + [(t, val)]) == Tasks(done) + [t]
  {
  }

  /** Calls other than `id` do not notice a step that leaves their worker's tasks where they were. */
  lemma OtherCall<T>(s: State<T>, t: State<T>, id: nat)
    requires Inv(s) && |t.workers| == SIZE == |t.entered| && id in s.called && id in t.called
    requires t.called[id] == s.called[id]
    requires (id in t.waiting <==> id in s.waiting) && (id in s.waiting ==> t.waiting[id] == s.waiting[id])
    requires (id in t.replies <==> id in s.replies) && (id in s.replies ==> t.replies[id] == s.replies[id])
    requires (id in t.mailbox <==> id in s.mailbox) && (id in s.mailbox ==> t.mailbox[id] == s.mailbox[id])
    requires Entered(t, id) <==> Entered(s, id)
    requires forall val :: Ran(s, id, val) ==> Ran(t, id, val)
    requires Unfinished(s, s.called[id]) ==> Unfinished(t, s.called[id])
    ensures CallOk(t, id)
  {
    assert CallOk(s, id);
  }

  lemma CallKeeps<T>(s: State<T>, c: Task)
    requires Inv(s) && Enabled(s, Call(c))
    ensures Inv(Apply(s, Call(c)))
  {
    var t := Apply(s, Call(c));
    forall w | 0 <= w < SIZE ensures WorkerOk(t, w) {
      assert WorkerOk(s, w);
    }
    assert WorkerOk(s, Home(c));
    assert c !in s.entered[Home(c)];
    forall id | id in t.called ensures CallOk(t, id) {
      if id != c.id {
        OtherCall(s, t, id);
      }
    }
  }

  lemma EnqueueKeeps<T>(s: State<T>, id: nat)
    requires Inv(s) && Enabled(s, Action<T>.Enqueue(id))
    ensures Inv(Apply(s, Action<T>.Enqueue(id)))
  {
    var t := Apply(s, Action<T>.Enqueue(id));
    var c := s.waiting[id];
    var h := Home(c);
    assert CallOk(s, id);
    forall w | 0 <= w < SIZE ensures WorkerOk(t, w) {
      assert WorkerOk(s, w);
      if w == h {
        assert t.entered[w] == Tasks(t.workers[w].done) + Running(t.workers[w]) + t.workers[w].queue;
      }
    }
    forall i | i in t.called ensures CallOk(t, i) {
      if i != id {
        assert CallOk(s, i);
        OtherCall(s, t, i);
      }
    }
  }

  lemma TimeOutKeeps<T>(s: State<T>, id: nat)
    requires Inv(s) && Enabled(s, Action<T>.TimeOut(id))
    ensures Inv(Apply(s, Action<T>.TimeOut(id)))
  {
    var t := Apply(s, Action<T>.TimeOut(id));
    assert CallOk(s, id);
    forall w | 0 <= w < SIZE ensures WorkerOk(t, w) {
      assert WorkerOk(s, w);
    }
    forall i | i in t.called ensures CallOk(t, i) {
      if i != id {
        OtherCall(s, t, i);
      } else {
        RanEntered(s, id);
      }
    }
  }

  lemma RanEntered<T>(s: State<T>, id: nat)
    requires Inv(s) && id in s.called
    ensures forall val :: Ran(s, id, val) ==> Entered(s, id)
  {
    var k := s.workers[Home(s.called[id])];
    assert WorkerOk(s, Home(s.called[id]));
    forall val | Ran(s, id, val) ensures Entered(s, id) {
      var i :| 0 <= i < |k.done| && k.done[i] == (s.called[id], val);
      assert Tasks(k.done)[i] == s.called[id];
      assert s.called[id] in Tasks(k.done);
    }
  }

  lemma StartKeeps<T>(s: State<T>, w: nat)
    requires Inv(s) && Enabled(s, Action<T>.Start(w))
    ensures Inv(Apply(s, Action<T>.Start(w)))
  {
    var t := Apply(s, Action<T>.Start(w));
    forall v | 0 <= v < SIZE ensures WorkerOk(t, v) {
      assert WorkerOk(s, v);
      if v == w {
        var k := s.workers[w];
        assert Tasks(k.done) + [] + k.queue == Tasks(k.done) + [k.queue[0]] + k.queue[1..];
      }
    }
    forall i | i in t.called ensures CallOk(t, i) {
      assert CallOk(s, i);
      OtherCall(s, t, i);
    }
  }

  lemma FinishWorker<T>(s: State<T>, w: nat, val: T, v: nat)
    requires Inv(s) && Enabled(s, Finish(w, val)) && v < SIZE
    ensures WorkerOk(Apply(s, Finish(w, val)), v)
  {
    assert WorkerOk(s, v);
    if v == w {
      var k, n := s.workers[w], Apply(s, Finish(w, val)).workers[w];
      TasksAppend(k.done, k.running.value, val);
      assert Tasks(n.done) + [] + n.queue == Tasks(k.done) + [k.running.value] + k.queue;
    }
  }

  lemma FinishKeeps<T>(s: State<T>, w: nat, val: T)
    requires Inv(s) && Enabled(s, Finish(w, val))
    ensures Inv(Apply(s, Finish(w, val)))
  {
    var t := Apply(s, Finish(w, val));
    var k, n := s.workers[w], t.workers[w];
    var c := k.running.value;
    assert WorkerOk(s, w);
    assert c in s.entered[w];
    assert CallOk(s, c.id);
    forall v | 0 <= v < SIZE ensures WorkerOk(t, v) {
      FinishWorker(s, w, val, v);
    }
    forall i | i in t.called ensures CallOk(t, i) {
      assert CallOk(s, i);
      if i != c.id {
        assert s.called[i] != c;
        OtherCall(s, t, i);
      } else {
        assert n.done[|k.done|] == (c, val);
        NotAgain(s, w, i);
      }
    }
  }

  /** A task that is running has not been answered yet. */
  lemma NotAgain<T>(s: State<T>, w: nat, id: nat)
    requires Inv(s) && w < SIZE && s.workers[w].running.Some? && s.workers[w].running.value.id == id && id in s.called
    ensures id !in s.replies && id !in s.mailbox
  {
    var k := s.workers[w];
    var c := k.running.value;
    assert WorkerOk(s, w) && c in s.entered[w];
    assert s.called[id] == c && CallOk(s, id);
    assert s.entered[w][|k.done|] == c;
    forall i | 0 <= i < |k.done| ensures k.done[i].0 != c {
      assert s.entered[w][i] == Tasks(k.done)[i];
    }
  }

  lemma ReceiveKeeps<T>(s: State<T>, id: nat)
    requires Inv(s) && Enabled(s, Action<T>.Receive(id))
    ensures Inv(Apply(s, Action<T>.Receive(id)))
  {
    var t := Apply(s, Action<T>.Receive(id));
    assert CallOk(s, id);
    RanEntered(s, id);
    forall w | 0 <= w < SIZE ensures WorkerOk(t, w) {
      assert WorkerOk(s, w);
    }
    forall i | i in t.called ensures CallOk(t, i) {
      assert CallOk(s, i);
      if i != id {
        OtherCall(s, t, i);
      }
    }
  }

  lemma {:induction false} Reachable<T>(acts: seq<Action<T>>)
    requires Run(acts).Some?
    ensures Inv(Run(acts).value)
    decreases |acts|
  {
    if acts == [] {
      assert forall w :: 0 <= w < SIZE ==> WorkerOk(Init<T>(), w);
    } else {
      Reachable(acts[..|acts| - 1]);
      var s := Run(acts[..|acts| - 1]).value;
      match Last(acts)
      case Call(c) => CallKeeps(s, c);
      case Enqueue(id) => EnqueueKeeps(s, id);
      case TimeOut(id) => TimeOutKeeps(s, id);
      case Start(w) => StartKeeps(s, w);
      case Finish(w, val) => FinishKeeps(s, w, val);
      case Receive(id) => ReceiveKeeps(s, id);
    }
  }

  // ---- What callers can rely on --------------------------------------------------------

  /** How often a task was run to completion. */
  function TimesRun<T>(s: State<T>, t: Task): nat
    requires |s.workers| == SIZE
  {
    Times(t, Tasks(s.workers[Home(t)].done))
  }

  lemma {:induction false} TimesDistinct(ts: seq<Task>, t: Task)
    requires Distinct(ts)
    ensures Times(t, ts) == if t in ts then 1 else 0
  {
    if ts != [] {
      var init := ts[..|ts| - 1];
      TimesDistinct(init, t);
      assert ts == init + [Last(ts)];
      TimesAppend(t, init, Last(ts));
    }
  }

  /** A worker runs the tasks sent to it one at a time and in the order in which they were sent; all
      tasks of one user are sent to the same worker. */
  lemma OneAtATimeInOrder<T>(acts: seq<Action<T>>, w: nat)
    requires Run(acts).Some? && w < SIZE
    ensures var s := Run(acts).value;
            && |s.workers| == 100 == |s.entered|
            && Tasks(s.workers[w].done) + Running(s.workers[w]) <= s.entered[w] && |s.workers[w].queue| <= 64
            && forall t :: t in s.entered[w] ==> t.user % 100 == w
  {
    Reachable(acts);
    assert WorkerOk(Run(acts).value, w);
  }

  /** A call that returned a value ran its task once, and the value is what that run returned; a call
      that timed out ran it not at all, and never will: its task is in no queue. */
  lemma ReplyMatchesRun<T>(acts: seq<Action<T>>, id: nat)
    requires Run(acts).Some? && id in Run(acts).value.replies
    ensures var s := Run(acts).value;
            && |s.workers| == SIZE == |s.entered| && id in s.called
            && match s.replies[id]
               case Value(val) => TimesRun(s, s.called[id]) == 1 && Ran(s, id, val)
               case DeadlineExceeded => TimesRun(s, s.called[id]) == 0 && !Entered(s, id)
  {
    Reachable(acts);
    var s := Run(acts).value;
    var t := s.called[id];
    assert CallOk(s, id);
    var w := Home(t);
    assert WorkerOk(s, w);
    var ts := Tasks(s.workers[w].done);
    assert Distinct(ts) by {
      forall i, j | 0 <= i < j < |ts| ensures ts[i] != ts[j] {
        assert s.entered[w][i] == ts[i] && s.entered[w][j] == ts[j];
      }
    }
    TimesDistinct(ts, t);
    RanEntered(s, id);
    match s.replies[id]
    case Value(val) =>
      var i :| 0 <= i < |s.workers[w].done| && s.workers[w].done[i] == (t, val);
      assert ts[i] == t;
    case DeadlineExceeded =>
  }

  // ---- Every call returns --------------------------------------------------------------

  function WorkerWork<T>(k: Worker<T>): nat {
    3 * |k.queue| + if k.running.Some? then 2 else 0
  }

  function AllWork<T>(workers: seq<Worker<T>>): nat {
    if workers == [] then 0 else WorkerWork(workers[0]) + AllWork(workers[1..])
  }

  /** The steps still to be made for the calls there are. */
  function Work<T>(s: State<T>): nat {
    4 * |s.waiting| + AllWork(s.workers) + |s.mailbox|
  }

  lemma {:induction false} AllWorkSet<T>(workers: seq<Worker<T>>, w: nat, k: Worker<T>)
    requires w < |workers|
    ensures AllWork(workers[w := k]) + WorkerWork(workers[w]) == AllWork(workers) + WorkerWork(k)
  {
    if w == 0 {
      assert workers[0 := k][1..] == workers[1..];
    } else {
      assert workers[w := k][1..] == workers[1..][w - 1 := k];
      AllWorkSet(workers[1..], w - 1, k);
    }
  }

  lemma SizeWithout<K, V>(m: map<K, V>, k: K)
    requires k in m
    ensures |m - {k}| == |m| - 1
  {
    assert (m - {k}).Keys == m.Keys - {k};
  }

  lemma SizeWith<K, V>(m: map<K, V>, k: K, v: V)
    ensures |m[k := v]| <= |m| + 1
  {
    assert m[k := v].Keys == m.Keys + {k};
  }

  lemma EnqueueCounts<T>(s: State<T>, id: nat)
    requires Enabled(s, Action<T>.Enqueue(id))
    ensures Work(Apply(s, Action<T>.Enqueue(id))) < Work(s)
  {
    hide AllWork;
    var t, h := Apply(s, Action<T>.Enqueue(id)), Home(s.waiting[id]);
    SizeWithout(s.waiting, id);
    AllWorkSet(s.workers, h, t.workers[h]);
  }

  /** Whatever is done next for a call there is, less is left to do; so under every schedule the calls
      there are come to their end. */
  lemma EveryStepCounts<T>(s: State<T>, a: Action<T>)
    requires Enabled(s, a) && !a.Call?
    ensures Work(Apply(s, a)) < Work(s)
  {
    hide AllWork;
    var t := Apply(s, a);
    match a {
      case Enqueue(id) => EnqueueCounts(s, id);
      case TimeOut(id) => SizeWithout(s.waiting, id);
      case Start(w) => AllWorkSet(s.workers, w, t.workers[w]);
      case Finish(w, val) =>
        AllWorkSet(s.workers, w, t.workers[w]);
        SizeWith(s.mailbox, s.workers[w].running.value.id, val);
      case Receive(id) => SizeWithout(s.mailbox, id);
    }
  }

  ghost predicate Quiet<T>(s: State<T>) {
    && s.waiting == map[] && s.mailbox == map[]
    && forall w :: 0 <= w < |s.workers| ==> s.workers[w].running.None? && s.workers[w].queue == []
  }

  /** Unless all is done, some step other than a new call or a timeout is possible. */
  lemma CanGoOn<T>(s: State<T>, run: Task -> T) returns (a: Action<T>)
    requires Inv(s) && !Quiet(s)
    ensures !a.Call? && !a.TimeOut? && Enabled(s, a)
  {
    if s.mailbox != map[] {
      var id :| id in s.mailbox;
      a := Receive(id);
    } else if w :| 0 <= w < SIZE && (s.workers[w].running.Some? || s.workers[w].queue != []) {
      a := if s.workers[w].running.Some? then Finish(w, run(s.workers[w].running.value)) else Start(w);
    } else {
      var id :| id in s.waiting;
      a := Enqueue(id);
      assert s.workers[Home(s.waiting[id])].queue == [];
    }
  }

  predicate NeitherCallNorTimeOut<T>(acts: seq<Action<T>>) {
    forall i :: 0 <= i < |acts| ==> !acts[i].Call? && !acts[i].TimeOut?
  }

  /** `t` has the calls of `s` and no timeout more. */
  ghost predicate SameTimeouts<T>(s: State<T>, t: State<T>) {
    && t.called == s.called
    && forall id :: id in t.replies && t.replies[id].DeadlineExceeded? ==>
         id in s.replies && s.replies[id].DeadlineExceeded?
  }

  lemma StepSameTimeouts<T>(s: State<T>, a: Action<T>)
    requires Enabled(s, a) && !a.Call? && !a.TimeOut?
    ensures SameTimeouts(s, Apply(s, a))
  {
  }

  lemma {:induction false} RunOut<T>(acts: seq<Action<T>>, run: Task -> T) returns (more: seq<Action<T>>)
    requires Run(acts).Some?
    ensures NeitherCallNorTimeOut(more) && Run(acts + more).Some?
    ensures Quiet(Run(acts + more).value) && SameTimeouts(Run(acts).value, Run(acts + more).value)
    decreases Work(Run(acts).value)
  {
    hide Apply, Enabled, Inv, Work, Quiet;
    var s := Run(acts).value;
    if Quiet(s) {
      more := [];
      assert acts + more == acts;
    } else {
      Reachable(acts);
      var a := CanGoOn(s, run);
      EveryStepCounts(s, a);
      StepSameTimeouts(s, a);
      assert (acts + [a])[..|acts|] == acts;
      var rest := RunOut(acts + [a], run);
      more := [a] + rest;
      assert acts + more == acts + [a] + rest;
    }
  }

  lemma QuietReturned<T>(s: State<T>, id: nat)
    requires Inv(s) && Quiet(s) && id in s.called
    ensures id in s.replies
  {
    assert CallOk(s, id);
    assert 0 <= Home(s.called[id]) < |s.workers|;
  }

  /** From every reachable state, without new calls and without timeouts, all calls made so far return,
      and those that had not timed out return a value, whatever their tasks compute. */
  lemma EveryCallReturns<T>(acts: seq<Action<T>>, run: Task -> T) returns (more: seq<Action<T>>)
    requires Run(acts).Some?
    ensures NeitherCallNorTimeOut(more) && Run(acts + more).Some?
    ensures var s, t := Run(acts).value, Run(acts + more).value;
            forall id :: id in s.called ==>
              id in t.replies && (t.replies[id].Value? || (id in s.replies && s.replies[id].DeadlineExceeded?))
  {
    more := RunOut(acts, run);
    Reachable(acts + more);
    var s, t := Run(acts).value, Run(acts + more).value;
    forall id | id in s.called
      ensures id in t.replies && (t.replies[id].Value? || (id in s.replies && s.replies[id].DeadlineExceeded?))
    {
      QuietReturned(t, id);
    }
  }

  // ---- The worker loop ---------------------------------------------------------------

  /** runWorker until its channel is empty: the tasks it runs are those in the channel, in order. */
  method RunWorker<T>(k: Worker<T>, run: Task -> T) returns (after: Worker<T>)
    requires k.running.None?
    ensures after.queue == [] && after.running.None?
    ensures Tasks(after.done) == Tasks(k.done) + k.queue
    ensures k.done <= after.done
    ensures forall i :: |k.done| <= i < |after.done| ==> after.done[i].1 == run(after.done[i].0)
  {
    var queue, done := k.queue, k.done;
    while queue != []
      invariant k.done <= done
      invariant Tasks(done) + queue == Tasks(k.done) + k.queue
      invariant forall i :: |k.done| <= i < |done| ==> done[i].1 == run(done[i].0)
      decreases |queue|
    {
      var t := queue[0];
      queue := queue[1..];
      TasksAppend(done, t, run(t));
      done := done + [(t, run(t))];
    }
    after := Worker([], None, done);
  }
}
