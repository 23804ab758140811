/** The ingestion core as one system: requests in the pipeline, the session calls that processEvent makes
    through the balancer, and what these calls do to the session rows. A step of the system is a step
    of one of the three machines, or of two of them together where one hands over to the other. */
module Ingest {
  import opened Common
  import opened SessionRows
  import P = Pipeline
  import B = Balancer
  import S = SessionProtocol
  import SI = SessionInvariant
  import SS = SessionSteps
  import T = SessionTheorems

  /** How a call of OnEvent ends in its worker: with a session, with neither session nor error, or with an
      error. */
  datatype Outcome = Returned(session: nat) | NoSession | Failed

  datatype State = State(
    pipe: P.State,
    bal: B.State<Outcome>,
    sess: S.State,
    // Recorded for the theorems only.
    added: seq<(nat, Row)>,   // every row added to the session buffer, with the request on whose behalf
    kept: seq<nat>            // the requests whose call returned a session
  )

  datatype Action =
    | Pipe(p: P.Action)            // anything but the end of processEvent
    | Call(x: nat)                 // processEvent of request x reaches OnEvent
    | Enqueue(x: nat)
    | TimeOut(x: nat)
    | Start(w: nat)                // the worker takes the next task
    | Work(a: S.Action)            // a step of a task that does not end it, or of a flush, or an eviction
    | Complete(a: S.Action)        // the last step of a task, and its result is sent
    | Receive(x: nat)
    | Return(i: nat, keep: bool)   // the end of processEvent

  function Init(poolSize: nat, start: nat, base: S.Base): State {
    State(P.Init(poolSize), B.Init(), S.Init(start, base), [], [])
  }

  /** The worker whose task ends with this step. */
  predicate Ends(s: S.State, a: S.Action) {
    match a
    case TableError(w) => true
    case Decide(w, _) =>
      w < |s.workers| && s.workers[w].Chosen? && s.workers[w].found.None? && s.workers[w].e.Engagement()
    case CompareCache(w) =>
      w < |s.workers| && s.workers[w].Caching? &&
        !S.Replaces(S.Lookup(s.cache, s.workers[w].next.Visitor()), s.workers[w].next)
    case StoreCache(w) => true
    case _ => false
  }

  function WorkerOf(a: S.Action): nat {
    match a
    case Begin(e) => e.user % S.WORKERS
    case Evict(_) => 0
    case TakeBatch => 0
    case InsertBatch(_) => 0
    case LeaveInflight(_) => 0
    case _ => a.w
  }

  function OutcomeOf(s: S.State, a: S.Action): Outcome {
    match a
    case TableError(_) => Failed
    case Decide(_, _) => NoSession
    case _ =>
      if WorkerOf(a) < |s.workers| && SS.Touches(s.workers[WorkerOf(a)])
      then Returned(s.workers[WorkerOf(a)].next.session)
      else NoSession
  }

  /** Request `x` is in the pool and processEvent has not returned. */
  predicate Processing(s: State, x: nat) {
    P.Processing(x) in s.pipe.pool
  }

  /** What processEvent makes of the reply: an event to store, or nil. */
  predicate Keeps(r: B.Reply<Outcome>) {
    r.Value? && r.val.Returned?
  }

  /** `ev` is the event that processEvent makes of each request; a request is accepted once. A request that
      is dropped before OnEvent (a shield rule, a failed parse) returns without a call. Session batches leave
      safely. */
  ghost predicate Enabled(ev: nat -> Event, s: State, a: Action) {
    match a
    case Pipe(p) => !p.Process? && P.Enabled(s.pipe, p) && (p.Accept? ==> p.x !in s.pipe.accepted)
    case Call(x) => Processing(s, x) && x !in s.bal.called && B.Enabled(s.bal, B.Call(B.Task(x, ev(x).user)))
    case Enqueue(x) => B.Enabled(s.bal, B.Enqueue(x))
    case TimeOut(x) => B.Enabled(s.bal, B.TimeOut(x))
    case Start(w) =>
      B.Enabled(s.bal, B.Start(w)) && S.Enabled(s.sess, S.Begin(ev(s.bal.workers[w].queue[0].id)))
    case Work(a) =>
      !a.Begin? && S.Enabled(s.sess, a) && !Ends(s.sess, a)
      && (a.LeaveInflight? ==> S.LeavesSafely(s.sess, a.i))
    case Complete(a) =>
      S.Enabled(s.sess, a) && Ends(s.sess, a) && B.Enabled(s.bal, B.Finish(WorkerOf(a), OutcomeOf(s.sess, a)))
    case Receive(x) => B.Enabled(s.bal, B.Receive(x))
    case Return(i, keep) =>
      P.Enabled(s.pipe, P.Process(i, keep)) &&
      var x := s.pipe.pool[i].item;
      if x in s.bal.called then x in s.bal.replies && keep == Keeps(s.bal.replies[x]) else !keep
  }

  function RowAdded(s: S.State, a: S.Action): Row
    requires (a.AddTombstone? && a.w < |s.workers| && s.workers[a.w].AddingTombstone?)
          || (a.AddRow? && a.w < |s.workers| && s.workers[a.w].AddingRow?)
  {
    if a.AddTombstone? then Tombstone(s.workers[a.w].prior) else s.workers[a.w].next
  }

  ghost function Added(s: State, a: S.Action): seq<(nat, Row)>
    requires S.Enabled(s.sess, a)
  {
    if (a.AddTombstone? || a.AddRow?) && a.w < |s.bal.workers| && s.bal.workers[a.w].running.Some?
    then [(s.bal.workers[a.w].running.value.id, RowAdded(s.sess, a))] else []
  }

  ghost function Apply(ev: nat -> Event, s: State, a: Action): State
    requires Enabled(ev, s, a)
  {
    match a
    case Pipe(p) => s.(pipe := P.Apply(s.pipe, p))
    case Call(x) => s.(bal := B.Apply(s.bal, B.Call(B.Task(x, ev(x).user))))
    case Enqueue(x) => s.(bal := B.Apply(s.bal, B.Enqueue(x)))
    case TimeOut(x) => s.(bal := B.Apply(s.bal, B.TimeOut(x)))
    case Start(w) =>
      s.(bal := B.Apply(s.bal, B.Start(w)), sess := S.Apply(s.sess, S.Begin(ev(s.bal.workers[w].queue[0].id))))
    case Work(a) => s.(sess := S.Apply(s.sess, a), added := s.added + Added(s, a))
    case Complete(a) =>
      var w, out := WorkerOf(a), OutcomeOf(s.sess, a);
      s.(sess := S.Apply(s.sess, a), bal := B.Apply(s.bal, B.Finish(w, out)),
         kept := s.kept + if out.Returned? then [s.bal.workers[w].running.value.id] else [])
    case Receive(x) => s.(bal := B.Apply(s.bal, B.Receive(x)))
    case Return(i, keep) => s.(pipe := P.Apply(s.pipe, P.Process(i, keep)))
  }

  ghost function Run(ev: nat -> Event, init: State, acts: seq<Action>): Option<State> {
    if acts == [] then Some(init)
    else
      var before := Run(ev, init, acts[..|acts| - 1]);
      if before.Some? && Enabled(ev, before.value, Last(acts)) then Some(Apply(ev, before.value, Last(acts))) else None
  }

  // ---- Invariant ---------------------------------------------------------------------

  ghost predicate Once(s: seq<nat>) {
    forall x :: Times(x, s) <= 1
  }

  ghost predicate PipeInv(p: P.State) {
    P.InOrder(p) && P.Gated(p) && (forall x :: P.Accounted(x, p)) && Once(p.accepted)
  }

  ghost predicate SessInv(s: S.State, base: S.Base) {
    SI.Inv(s) && T.TotalsInv(s, base)
  }

  /** A balancer worker runs a task exactly while the session worker handles its event. */
  ghost predicate Coupled(ev: nat -> Event, s: State, w: nat)
    requires |s.bal.workers| == B.SIZE == |s.sess.workers| && w < B.SIZE
  {
    var k, p := s.bal.workers[w].running, s.sess.workers[w];
    && (k.Some? <==> !p.Idle?)
    && (k.Some? ==> p.e == ev(k.value.id))
  }

  /** The rows that were added on behalf of request `x`. */
  function RowsOf(added: seq<(nat, Row)>, x: nat): seq<Row> {
    if added == [] then []
    else RowsOf(added[..|added| - 1], x) + if Last(added).0 == x then [Last(added).1] else []
  }

  /** One new state of session `id`, after the tombstone of the one it replaces, if any. */
  predicate OneState(rows: seq<Row>, id: nat) {
    && 1 <= |rows| <= 2 && Last(rows).sign == 1 && Last(rows).session == id
    && (|rows| == 2 ==> rows[0].sign == -1 && rows[0].session == id)
  }

  /** What the task has added when it is at this point. */
  predicate AddedBy(p: S.Phase, rows: seq<Row>) {
    match p
    case AddingRow(_, Some(prior), _) => rows == [Tombstone(prior)]
    case Caching(_, next) => OneState(rows, next.session)
    case Storing(_, next) => OneState(rows, next.session)
    case _ => rows == []
  }

  predicate AddedFor(out: Outcome, rows: seq<Row>) {
    if out.Returned? then OneState(rows, out.session) else rows == []
  }

  ghost predicate RowsOk(s: State, x: nat)
    requires |s.bal.workers| == B.SIZE == |s.sess.workers|
  {
    var rows := RowsOf(s.added, x);
    if x !in s.bal.called then rows == []
    else
      var w := B.Home(s.bal.called[x]);
      if s.bal.workers[w].running == Some(s.bal.called[x]) then AddedBy(s.sess.workers[w], rows)
      else if x in s.bal.mailbox then AddedFor(s.bal.mailbox[x], rows)
      else if x in s.bal.replies && s.bal.replies[x].Value? then AddedFor(s.bal.replies[x].val, rows)
      else rows == []
  }

  /** A call belongs to a request that processEvent is working on, or has finished after the reply. */
  ghost predicate CallOk(ev: nat -> Event, s: State, x: nat)
    requires x in s.bal.called
  {
    && s.bal.called[x] == B.Task(x, ev(x).user)
    && (Processing(s, x) || (x in s.pipe.processed && x in s.bal.replies))
  }

  /** The call returned a session. */
  predicate SessionReturned(s: State, x: nat) {
    (x in s.bal.mailbox && s.bal.mailbox[x].Returned?) || (x in s.bal.replies && Keeps(s.bal.replies[x]))
  }

  /** processEvent gives an event to the buffer exactly for the requests whose call returned a session. */
  predicate KeptOk(s: State, x: nat) {
    && Times(x, s.kept) == (if SessionReturned(s, x) then 1 else 0)
    && Times(x, s.pipe.results)
       == (if x in s.bal.replies && Keeps(s.bal.replies[x]) && !Processing(s, x) then 1 else 0)
  }

  function RowsIn(added: seq<(nat, Row)>): seq<Row> {
    seq(|added|, i requires 0 <= i < |added| => added[i].1)
  }

  ghost predicate Inv(ev: nat -> Event, base: S.Base, s: State) {
    && PipeInv(s.pipe) && B.Inv(s.bal) && SessInv(s.sess, base)
    && (forall w :: 0 <= w < B.SIZE ==> Coupled(ev, s, w))
    && (forall x :: x in s.bal.called ==> CallOk(ev, s, x))
    && (forall x :: RowsOk(s, x))
    && (forall x :: KeptOk(s, x))
    && |s.kept| == |s.sess.accepted|
    && s.sess.log == base.log + RowsIn(s.added)
  }

  // ---- Steps of the pipeline -----------------------------------------------------------

  lemma {:induction false} InPool(pool: seq<P.Task>, x: nat)
    ensures P.Processing(x) in pool <==> P.InStage(x, pool, false) > 0
  {
    if pool != [] {
      InPool(pool[1..], x);
      assert pool == [pool[0]] + pool[1..];
    }
  }

  /** A request is submitted once, so it is in the pool or processed, not both. */
  lemma OnePlace(p: P.State, x: nat)
    requires PipeInv(p)
    ensures Times(x, p.submitted) <= 1
    ensures (if P.Processing(x) in p.pool then 1 else 0) + Times(x, p.processed) <= 1
  {
    assert P.Accounted(x, p) && Times(x, p.accepted) <= 1;
    var rest := P.Held(p) + P.InHand(p.dispatcher) + p.queue;
    assert p.accepted == p.submitted + rest;
    TimesConcat(x, p.submitted, rest);
    InPool(p.pool, x);
  }

  lemma PipeKeeps(p: P.State, a: P.Action)
    requires PipeInv(p) && P.Enabled(p, a) && (a.Accept? ==> a.x !in p.accepted)
    ensures PipeInv(P.Apply(p, a))
  {
    hide P.InOrder, P.Gated, P.Accounted;
    P.StepInOrder(p, a);
    P.StepGated(p, a);
    forall x ensures P.Accounted(x, P.Apply(p, a)) {
      P.StepAccounts(x, p, a);
    }
    if a.Accept? {
      forall x ensures Times(x, p.accepted + [a.x]) <= 1 {
        TimesAppend(x, p.accepted, a.x);
        assert Times(x, p.accepted) <= 1;
      }
    }
  }

  lemma {:induction false} ExceptMembers<X>(s: seq<X>, i: nat, y: X)
    requires i < |s| && y != s[i]
    ensures y in Except(s, i) <==> y in s
  {
    if y in s {
      var j :| 0 <= j < |s| && s[j] == y;
      assert Except(s, i)[if j < i then j else j - 1] == y;
    }
  }

  /** A step other than the end of processEvent leaves the requests being processed where they are, or puts
      one more among them. */
  lemma PipeProcessing(p: P.State, a: P.Action, x: nat)
    requires PipeInv(p) && P.Enabled(p, a) && !a.Process? && (P.Processing(x) in p.pool || x in p.processed)
    ensures P.Processing(x) in P.Apply(p, a).pool <==> P.Processing(x) in p.pool
    ensures P.Apply(p, a).processed == p.processed && P.Apply(p, a).results == p.results
  {
    if a.Submit? && p.worker.task == x {
      SubmittedOnce(p, x);
    } else if a.Add? {
      ExceptMembers(p.pool, a.i, P.Processing(x));
    }
  }

  lemma SubmittedOnce(p: P.State, x: nat)
    requires PipeInv(p) && p.worker == P.Submitting(x)
    ensures P.Processing(x) !in p.pool && x !in p.processed
  {
    assert P.Accounted(x, p) && Times(x, p.accepted) <= 1;
    var rest := P.Held(p) + P.InHand(p.dispatcher) + p.queue;
    assert p.accepted == p.submitted + rest && rest[0] == x;
    TimesConcat(x, p.submitted, rest);
    assert x in multiset(rest);
    InPool(p.pool, x);
    assert Times(x, p.processed) == 0;
  }

  lemma PipeStep(ev: nat -> Event, base: S.Base, s: State, a: Action)
    requires Inv(ev, base, s) && a.Pipe? && Enabled(ev, s, a)
    ensures Inv(ev, base, Apply(ev, s, a))
  {
    hide PipeInv, SessInv, B.Inv;
    var t := Apply(ev, s, a);
    PipeKeeps(s.pipe, a.p);
    forall w | 0 <= w < B.SIZE ensures |s.bal.workers| == B.SIZE == |s.sess.workers| && Coupled(ev, t, w) {
      Sizes(ev, base, s);
      assert Coupled(ev, s, w);
    }
    Sizes(ev, base, s);
    forall x | x in t.bal.called ensures CallOk(ev, t, x) {
      assert CallOk(ev, s, x);
      PipeProcessing(s.pipe, a.p, x);
    }
    forall x ensures RowsOk(t, x) {
      assert RowsOk(s, x);
    }
    forall x ensures KeptOk(t, x) {
      PipeKept(ev, base, s, a.p, x);
    }
  }

  lemma Sizes(ev: nat -> Event, base: S.Base, s: State)
    requires PipeInv(s.pipe) && B.Inv(s.bal) && SessInv(s.sess, base)
    ensures |s.bal.workers| == B.SIZE == |s.sess.workers|
  {
  }

  lemma RepliesCalled(b: B.State<Outcome>, x: nat)
    requires B.Inv(b) && (x in b.replies || x in b.mailbox || x in b.waiting)
    ensures x in b.called
  {
  }

  lemma PipeKept(ev: nat -> Event, base: S.Base, s: State, p: P.Action, x: nat)
    requires Inv(ev, base, s) && Enabled(ev, s, Pipe(p))
    ensures KeptOk(s.(pipe := P.Apply(s.pipe, p)), x)
  {
    hide PipeInv, SessInv, B.Inv, RowsOk, Coupled;
    assert KeptOk(s, x);
    PipeResults(s.pipe, p);
    if x in s.bal.replies {
      RepliesCalled(s.bal, x);
      assert CallOk(ev, s, x);
      PipeProcessing(s.pipe, p, x);
    }
  }

  lemma PipeResults(p: P.State, a: P.Action)
    requires P.Enabled(p, a) && !a.Process?
    ensures P.Apply(p, a).results == p.results
  {
  }

  // ---- Steps of the balancer -----------------------------------------------------------

  lemma NotRunning(b: B.State<Outcome>, x: nat)
    requires B.Inv(b) && x in b.called && (x in b.waiting || x in b.mailbox || x in b.replies)
    ensures b.workers[B.Home(b.called[x])].running != Some(b.called[x])
    ensures x in b.waiting ==> x !in b.mailbox && x !in b.replies
    ensures x in b.mailbox ==> x !in b.replies
  {
    var w := B.Home(b.called[x]);
    assert B.CallOk(b, x) && B.WorkerOk(b, w);
    B.RanEntered(b, x);
    if b.workers[w].running == Some(b.called[x]) {
      RunningEntered(b, w);
      B.NotAgain(b, w, x);
    }
  }

  lemma RunningEntered(b: B.State<Outcome>, w: nat)
    requires B.Inv(b) && w < B.SIZE && b.workers[w].running.Some?
    ensures var t := b.workers[w].running.value;
            t in b.entered[w] && t.id in b.called && b.called[t.id] == t && B.Home(t) == w
  {
    assert B.WorkerOk(b, w);
    var k := b.workers[w];
    assert k.running.value in B.Tasks(k.done) + B.Running(k) + k.queue;
  }

  predicate Between(a: Action) {
    a.Call? || a.Enqueue? || a.TimeOut? || a.Receive?
  }

  lemma BalKeeps(ev: nat -> Event, s: State, a: Action)
    requires B.Inv(s.bal) && Between(a) && Enabled(ev, s, a)
    ensures B.Inv(Apply(ev, s, a).bal)
  {
    match a {
      case Call(x) => B.CallKeeps(s.bal, B.Task(x, ev(x).user));
      case Enqueue(x) => B.EnqueueKeeps(s.bal, x);
      case TimeOut(x) => B.TimeOutKeeps(s.bal, x);
      case Receive(x) => B.ReceiveKeeps(s.bal, x);
    }
  }

  /** What these steps do to the calls. */
  lemma BalChanges(ev: nat -> Event, s: State, a: Action)
    requires B.Inv(s.bal) && Between(a) && Enabled(ev, s, a)
    ensures var b, c := s.bal, Apply(ev, s, a).bal;
            && |c.workers| == B.SIZE && (forall w :: 0 <= w < B.SIZE ==> c.workers[w].running == b.workers[w].running)
            && c.called == (if a.Call? then b.called[a.x := B.Task(a.x, ev(a.x).user)] else b.called)
            && c.mailbox == (if a.Receive? then b.mailbox - {a.x} else b.mailbox)
            && c.replies == (if a.Receive? then b.replies[a.x := B.Value(b.mailbox[a.x])]
                             else if a.TimeOut? then b.replies[a.x := B.DeadlineExceeded] else b.replies)
            && (a.Call? <==> a.x !in b.called) && (a.Enqueue? || a.TimeOut? ==> a.x in b.waiting)
            && (a.Receive? ==> a.x in b.mailbox)
  {
    match a {
      case Call(x) =>
      case Enqueue(x) => RepliesCalled(s.bal, x);
      case TimeOut(x) => RepliesCalled(s.bal, x);
      case Receive(x) => RepliesCalled(s.bal, x);
    }
  }

  lemma BalRows(ev: nat -> Event, base: S.Base, s: State, a: Action, x: nat)
    requires Inv(ev, base, s) && Between(a) && Enabled(ev, s, a)
    requires |Apply(ev, s, a).bal.workers| == B.SIZE
    ensures RowsOk(Apply(ev, s, a), x)
  {
    hide PipeInv, SessInv, AddedFor, AddedBy, RowsOf, B.Inv, KeptOk;
    Sizes(ev, base, s);
    BalChanges(ev, s, a);
    assert RowsOk(s, x);
    if x == a.x {
      if a.Call? {
        NewNotRunning(s.bal, B.Task(x, ev(x).user));
      } else {
        NotRunning(s.bal, x);
      }
    }
  }

  lemma NewNotRunning(b: B.State<Outcome>, t: B.Task)
    requires B.Inv(b) && t.id !in b.called
    ensures b.workers[B.Home(t)].running != Some(t)
    ensures t.id !in b.mailbox && t.id !in b.replies
  {
    if b.workers[B.Home(t)].running == Some(t) {
      RunningEntered(b, B.Home(t));
    }
  }

  lemma BalKept(ev: nat -> Event, base: S.Base, s: State, a: Action, x: nat)
    requires Inv(ev, base, s) && Between(a) && Enabled(ev, s, a)
    ensures KeptOk(Apply(ev, s, a), x)
  {
    hide PipeInv, SessInv, RowsOk, B.Inv;
    BalChanges(ev, s, a);
    assert KeptOk(s, x);
    if x == a.x {
      if a.Call? {
        NewNotRunning(s.bal, B.Task(x, ev(x).user));
      } else {
        NotRunning(s.bal, x);
        assert CallOk(ev, s, x);
      }
    }
  }

  lemma BalStep(ev: nat -> Event, base: S.Base, s: State, a: Action)
    requires Inv(ev, base, s) && Between(a) && Enabled(ev, s, a)
    ensures Inv(ev, base, Apply(ev, s, a))
  {
    hide PipeInv, SessInv, B.Inv, RowsOk, KeptOk;
    var t := Apply(ev, s, a);
    Sizes(ev, base, s);
    BalKeeps(ev, s, a);
    BalChanges(ev, s, a);
    forall w | 0 <= w < B.SIZE ensures Coupled(ev, t, w) {
      assert Coupled(ev, s, w);
    }
    forall x | x in t.bal.called ensures CallOk(ev, t, x) {
      if x in s.bal.called {
        assert CallOk(ev, s, x);
      }
    }
    forall x ensures RowsOk(t, x) {
      BalRows(ev, base, s, a, x);
    }
    forall x ensures KeptOk(t, x) {
      BalKept(ev, base, s, a, x);
    }
  }

  // ---- Steps of the session workers ----------------------------------------------------

  lemma SessKeeps(s: S.State, a: S.Action, base: S.Base)
    requires SessInv(s, base) && S.Enabled(s, a) && (a.LeaveInflight? ==> S.LeavesSafely(s, a.i))
    ensures SessInv(S.Apply(s, a), base)
  {
    SS.StepKeeps(s, a);
    T.TotalsKept(s, a, base);
  }

  /** A task at the head of a queue has no answer yet. */
  lemma QueuedUnanswered(b: B.State<Outcome>, w: nat)
    requires B.Inv(b) && w < B.SIZE && b.workers[w].queue != [] && b.workers[w].running.None?
    ensures var t := b.workers[w].queue[0];
            t.id in b.called && b.called[t.id] == t && B.Home(t) == w && t.id !in b.mailbox && t.id !in b.replies
  {
    var k := b.workers[w];
    var t := k.queue[0];
    var n := |k.done|;
    assert B.WorkerOk(b, w);
    assert b.entered[w] == B.Tasks(k.done) + [] + k.queue;
    assert b.entered[w][n] == t;
    assert t in b.entered[w] && B.CallOk(b, t.id);
    forall i | 0 <= i < n ensures k.done[i].0 != t {
      assert b.entered[w][i] == B.Tasks(k.done)[i];
    }
  }

  lemma StartStep(ev: nat -> Event, base: S.Base, s: State, a: Action)
    requires Inv(ev, base, s) && a.Start? && Enabled(ev, s, a)
    ensures Inv(ev, base, Apply(ev, s, a))
  {
    hide PipeInv, SessInv, B.Inv, AddedFor, RowsOf;
    var t, w := Apply(ev, s, a), a.w;
    var q := s.bal.workers[w].queue[0];
    Sizes(ev, base, s);
    B.StartKeeps(s.bal, w);
    QueuedUnanswered(s.bal, w);
    assert CallOk(ev, s, q.id);
    SessKeeps(s.sess, S.Begin(ev(q.id)), base);
    forall v | 0 <= v < B.SIZE ensures Coupled(ev, t, v) {
      assert Coupled(ev, s, v);
    }
    forall x | x in t.bal.called ensures CallOk(ev, t, x) {
      assert CallOk(ev, s, x);
    }
    forall x ensures RowsOk(t, x) {
      assert RowsOk(s, x);
    }
    forall x ensures KeptOk(t, x) {
      assert KeptOk(s, x);
    }
  }

  /** The rows a phase implies, once the step has added its own. */
  function RowOfStep(s: S.State, a: S.Action): seq<Row>
    requires S.WORKERS == |s.workers|
  {
    if a.AddTombstone? && S.AtWorker(s, a.w) && s.workers[a.w].AddingTombstone? then [Tombstone(s.workers[a.w].prior)]
    else if a.AddRow? && S.AtWorker(s, a.w) && s.workers[a.w].AddingRow? then [s.workers[a.w].next]
    else []
  }

  /** A step that does not end a task keeps every worker at its event, and brings the rows its phase implies
      up to date. */
  lemma WorkPhase(s: S.State, a: S.Action, v: nat, rows: seq<Row>)
    requires SI.Inv(s) && S.Enabled(s, a) && !a.Begin? && !Ends(s, a) && v < S.WORKERS
    requires AddedBy(s.workers[v], rows)
    ensures var t := S.Apply(s, a);
            && |t.workers| == S.WORKERS && t.accepted == s.accepted
            && t.workers[v].Idle? == s.workers[v].Idle? && (!s.workers[v].Idle? ==> t.workers[v].e == s.workers[v].e)
            && AddedBy(t.workers[v], if v == WorkerOf(a) then rows + RowOfStep(s, a) else rows)
  {
    hide SI.FlowInv, SI.MemoryInv, SI.StartInv, SI.LogInv, SI.CacheInv, SI.NoneCurrent, SI.MemoryExcludes,
         S.LeavesSafely, IsHistory;
    var p := s.workers[v];
    assert SI.PhaseOk(s, v, p);
    assert rows + [] == rows;
    WorkStays(s, a, v);
    if p.AddingRow? && p.replaced.Some? {
      SI.NewestOf(s, p.replaced.value.session);
      PairIsState(p.replaced.value, p.e, p.next);
    } else if p.AddingTombstone? {
      SI.NewestOf(s, p.prior.session);
    }
  }

  lemma PairIsState(prior: Row, e: Event, next: Row)
    requires Follows(prior, e, next) && prior.sign == 1
    ensures OneState([Tombstone(prior)] + [next], next.session)
  {
  }

  lemma RowsAppend(added: seq<(nat, Row)>, y: nat, r: Row, x: nat)
    ensures RowsOf(added + [(y, r)], x) == RowsOf(added, x) + if x == y then [r] else []
  {
    assert (added + [(y, r)])[..|added|] == added;
  }

  /** What a step adds, it adds on behalf of the request whose task runs. */
  lemma AddedIs(ev: nat -> Event, base: S.Base, s: State, a: S.Action)
    requires Inv(ev, base, s) && S.Enabled(s.sess, a) && |s.bal.workers| == B.SIZE == |s.sess.workers|
    ensures Added(s, a) == [] ==> RowOfStep(s.sess, a) == []
    ensures Added(s, a) != [] ==>
              var w := WorkerOf(a);
              && w < B.SIZE && s.bal.workers[w].running.Some?
              && exists r :: RowOfStep(s.sess, a) == [r] && Added(s, a) == [(s.bal.workers[w].running.value.id, r)]
  {
    hide PipeInv, SessInv, B.Inv, RowsOk, KeptOk;
    if a.AddTombstone? || a.AddRow? {
      assert Coupled(ev, s, a.w);
      assert Added(s, a) == [(s.bal.workers[a.w].running.value.id, RowAdded(s.sess, a))];
      assert RowOfStep(s.sess, a) == [RowAdded(s.sess, a)];
    }
  }

  /** Only one worker runs the task of a request. */
  lemma RunsHome(b: B.State<Outcome>, w: nat, x: nat)
    requires B.Inv(b) && w < B.SIZE && b.workers[w].running.Some? && b.workers[w].running.value.id == x
    ensures x in b.called && B.Home(b.called[x]) == w && b.workers[w].running == Some(b.called[x])
  {
    RunningEntered(b, w);
  }

  /** The rows of each request after a step: the running request's have what the step added. */
  lemma RowsAfter(ev: nat -> Event, base: S.Base, s: State, a: S.Action, x: nat)
    requires Inv(ev, base, s) && Enabled(ev, s, Work(a)) && |s.bal.workers| == B.SIZE == |s.sess.workers|
    ensures var w := WorkerOf(a);
            var runs := w < B.SIZE && s.bal.workers[w].running.Some? && s.bal.workers[w].running.value.id == x;
            RowsOf(s.added + Added(s, a), x) == RowsOf(s.added, x) + if runs then RowOfStep(s.sess, a) else []
  {
    AddedIs(ev, base, s, a);
    hide PipeInv, SessInv, B.Inv, RowsOf, RowOfStep, Added, KeptOk, RowsOk;
    if Added(s, a) == [] {
      assert s.added + [] == s.added && RowsOf(s.added, x) + [] == RowsOf(s.added, x);
    } else {
      var w := WorkerOf(a);
      var r :| RowOfStep(s.sess, a) == [r] && Added(s, a) == [(s.bal.workers[w].running.value.id, r)];
      RowsAppend(s.added, s.bal.workers[w].running.value.id, r, x);
    }
  }

  lemma WorkRows(ev: nat -> Event, base: S.Base, s: State, a: S.Action, x: nat)
    requires Inv(ev, base, s) && Enabled(ev, s, Work(a))
    ensures |s.bal.workers| == B.SIZE == |S.Apply(s.sess, a).workers|
    ensures RowsOk(Apply(ev, s, Work(a)), x)
  {
    hide SI.Inv, S.Apply, RowOfStep;
    Sizes(ev, base, s);
    WorkSizes(s.sess, a);
    RowsAfter(ev, base, s, a, x);
    assert RowsOk(s, x);
    var w := WorkerOf(a);
    if w < B.SIZE && s.bal.workers[w].running.Some? && s.bal.workers[w].running.value.id == x {
      RunsHome(s.bal, w, x);
    }
    if x in s.bal.called {
      var v := B.Home(s.bal.called[x]);
      assert B.CallOk(s.bal, x);
      if s.bal.workers[v].running == Some(s.bal.called[x]) {
        SessIsInv(s.sess, base);
        WorkPhase(s.sess, a, v, RowsOf(s.added, x));
      }
    }
    hide PipeInv, SessInv, B.Inv, AddedFor, AddedBy, RowsOf, RowOfStep, KeptOk, Ends, S.Apply, Added;
    assert RowsOf(s.added, x) + [] == RowsOf(s.added, x);
  }

  lemma SessIsInv(s: S.State, base: S.Base)
    requires SessInv(s, base)
    ensures SI.Inv(s) && |s.workers| == S.WORKERS
  {
  }

  lemma WorkSizes(s: S.State, a: S.Action)
    requires S.Enabled(s, a)
    ensures |S.Apply(s, a).workers| == |s.workers|
  {
  }

  lemma WorkCoupled(ev: nat -> Event, base: S.Base, s: State, a: S.Action, w: nat)
    requires Inv(ev, base, s) && Enabled(ev, s, Work(a)) && w < B.SIZE
    ensures |s.bal.workers| == B.SIZE == |S.Apply(s.sess, a).workers| && Coupled(ev, Apply(ev, s, Work(a)), w)
    ensures S.Apply(s.sess, a).accepted == s.sess.accepted
  {
    hide PipeInv, SessInv, B.Inv, RowsOk, KeptOk, CallOk, S.Apply, S.Enabled, Ends;
    Sizes(ev, base, s);
    WorkSizes(s.sess, a);
    SessIsInv(s.sess, base);
    assert Coupled(ev, s, w);
    WorkStays(s.sess, a, w);
  }

  lemma WorkStays(s: S.State, a: S.Action, v: nat)
    requires S.Enabled(s, a) && !a.Begin? && !Ends(s, a) && v < S.WORKERS == |s.workers|
    ensures var t := S.Apply(s, a);
            && |t.workers| == S.WORKERS && t.accepted == s.accepted
            && t.workers[v].Idle? == s.workers[v].Idle? && (!s.workers[v].Idle? ==> t.workers[v].e == s.workers[v].e)
  {
  }

  lemma StepLog(s: S.State, a: S.Action)
    requires S.Enabled(s, a) && |s.workers| == S.WORKERS
    ensures S.Apply(s, a).log == s.log + RowOfStep(s, a)
  {
    assert s.log + [] == s.log;
  }

  lemma WorkLog(ev: nat -> Event, base: S.Base, s: State, a: S.Action)
    requires Inv(ev, base, s) && Enabled(ev, s, Work(a))
    ensures S.Apply(s.sess, a).log == base.log + RowsIn(s.added + Added(s, a))
  {
    hide PipeInv, SessInv, B.Inv, RowsOk, KeptOk, Added, RowOfStep, S.Apply, S.Enabled;
    Sizes(ev, base, s);
    AddedIs(ev, base, s, a);
    StepLog(s.sess, a);
    assert RowsIn(s.added + Added(s, a)) == RowsIn(s.added) + RowsIn(Added(s, a));
  }

  lemma WorkStep(ev: nat -> Event, base: S.Base, s: State, a: Action)
    requires Inv(ev, base, s) && a.Work? && Enabled(ev, s, a)
    ensures Inv(ev, base, Apply(ev, s, a))
  {
    hide PipeInv, SessInv, B.Inv, RowsOk, S.Apply, SI.Inv, Ends, S.LeavesSafely;
    var t := Apply(ev, s, a);
    Sizes(ev, base, s);
    SessKeeps(s.sess, a.a, base);
    WorkSizes(s.sess, a.a);
    forall w | 0 <= w < B.SIZE ensures Coupled(ev, t, w) {
      WorkCoupled(ev, base, s, a.a, w);
    }
    WorkCoupled(ev, base, s, a.a, 0);
    WorkLog(ev, base, s, a.a);
    forall x | x in t.bal.called ensures CallOk(ev, t, x) {
      assert CallOk(ev, s, x);
    }
    forall x ensures RowsOk(t, x) {
      WorkRows(ev, base, s, a.a, x);
    }
    forall x ensures KeptOk(t, x) {
      assert KeptOk(s, x);
    }
  }

  /** The step that ends a task: its worker is idle again, the others are where they were, and the rows it has
      added are those of the outcome. */
  lemma EndPhase(s: S.State, a: S.Action, rows: seq<Row>)
    requires SI.Inv(s) && S.Enabled(s, a) && Ends(s, a)
    requires AddedBy(s.workers[WorkerOf(a)], rows)
    ensures var t, w := S.Apply(s, a), WorkerOf(a);
            && w < S.WORKERS && !s.workers[w].Idle? && t.workers == s.workers[w := S.Idle]
            && AddedFor(OutcomeOf(s, a), rows)
            && |t.accepted| == |s.accepted| + if OutcomeOf(s, a).Returned? then 1 else 0
  {
    hide SI.FlowInv, SI.MemoryInv, SI.StartInv, SI.LogInv, SI.CacheInv, SI.WorkersInv;
  }

  lemma CompleteRows(ev: nat -> Event, base: S.Base, s: State, a: S.Action, x: nat)
    requires Inv(ev, base, s) && Enabled(ev, s, Complete(a))
    ensures |B.Apply(s.bal, B.Finish(WorkerOf(a), OutcomeOf(s.sess, a))).workers|
         == B.SIZE == |S.Apply(s.sess, a).workers|
    ensures RowsOk(Apply(ev, s, Complete(a)), x)
  {
    hide PipeInv, SessInv, B.Inv, AddedFor, AddedBy, RowsOf, KeptOk, Ends, S.Apply, S.Enabled, OutcomeOf, WorkerOf;
    Sizes(ev, base, s);
    var w := WorkerOf(a);
    var y := s.bal.workers[w].running.value.id;
    RunsHome(s.bal, w, y);
    B.NotAgain(s.bal, w, y);
    assert RowsOk(s, y) && RowsOk(s, x);
    EndOfTask(s.sess, base, a, RowsOf(s.added, y));
    if x in s.bal.called && x != y {
      OthersRun(s.bal, w, x);
    }
  }

  lemma EndOfTask(s: S.State, base: S.Base, a: S.Action, rows: seq<Row>)
    requires SessInv(s, base) && S.Enabled(s, a) && Ends(s, a) && WorkerOf(a) < |s.workers|
    requires AddedBy(s.workers[WorkerOf(a)], rows)
    ensures S.Apply(s, a).workers == s.workers[WorkerOf(a) := S.Idle] && AddedFor(OutcomeOf(s, a), rows)
  {
    EndPhase(s, a, rows);
  }

  /** Different requests run in different places. */
  lemma OthersRun(b: B.State<Outcome>, w: nat, x: nat)
    requires B.Inv(b) && w < B.SIZE && b.workers[w].running.Some? && x in b.called && x != b.workers[w].running.value.id
    ensures B.Home(b.called[x]) == w ==> b.workers[w].running != Some(b.called[x])
  {
    assert B.CallOk(b, x);
  }

  lemma FinishBal(b: B.State<Outcome>, w: nat, out: Outcome)
    requires B.Enabled(b, B.Finish(w, out))
    ensures var c := B.Apply(b, B.Finish(w, out));
            c.replies == b.replies && c.mailbox == b.mailbox[b.workers[w].running.value.id := out]
  {
  }

  lemma KeptAfterFinish(s: State, t: State, y: nat, out: Outcome, x: nat)
    requires KeptOk(s, x) && y !in s.bal.replies && y !in s.bal.mailbox
    requires t.pipe == s.pipe && t.bal.replies == s.bal.replies && t.bal.mailbox == s.bal.mailbox[y := out]
    requires t.kept == s.kept + if out.Returned? then [y] else []
    ensures KeptOk(t, x)
  {
    TimesAppend(x, s.kept, y);
    assert s.kept + [] == s.kept;
    hide Times;
  }

  lemma CompleteKept(ev: nat -> Event, base: S.Base, s: State, a: S.Action, x: nat)
    requires Inv(ev, base, s) && Enabled(ev, s, Complete(a))
    ensures KeptOk(Apply(ev, s, Complete(a)), x)
  {
    hide PipeInv, SessInv, B.Inv, RowsOk, S.Apply, S.Enabled, B.Apply, Ends, OutcomeOf, Times, KeptOk;
    Sizes(ev, base, s);
    var w, out := WorkerOf(a), OutcomeOf(s.sess, a);
    FinishRunning(s.bal, w, out);
    var y := s.bal.workers[w].running.value.id;
    RunsHome(s.bal, w, y);
    B.NotAgain(s.bal, w, y);
    FinishBal(s.bal, w, out);
    KeptAfterFinish(s, Apply(ev, s, Complete(a)), y, out, x);
  }

  lemma FinishRunning(b: B.State<Outcome>, w: nat, out: Outcome)
    requires B.Enabled(b, B.Finish(w, out))
    ensures w < |b.workers| == B.SIZE && b.workers[w].running.Some?
  {
  }

  lemma CompleteSession(s: State, base: S.Base, a: S.Action)
    requires SessInv(s.sess, base) && B.Inv(s.bal)
    requires S.Enabled(s.sess, a) && Ends(s.sess, a) && B.Enabled(s.bal, B.Finish(WorkerOf(a), OutcomeOf(s.sess, a)))
    requires RowsOk(s, s.bal.workers[WorkerOf(a)].running.value.id)
    ensures SessInv(S.Apply(s.sess, a), base)
    ensures var t, w := S.Apply(s.sess, a), WorkerOf(a);
            && t.workers == s.sess.workers[w := S.Idle] && t.log == s.sess.log
            && |t.accepted| == |s.sess.accepted| + if OutcomeOf(s.sess, a).Returned? then 1 else 0
  {
    var w := WorkerOf(a);
    var y := s.bal.workers[w].running.value.id;
    RunsHome(s.bal, w, y);
    SessKeeps(s.sess, a, base);
    EndPhase(s.sess, a, RowsOf(s.added, y));
    EndLog(s.sess, a);
  }

  lemma EndLog(s: S.State, a: S.Action)
    requires S.Enabled(s, a) && Ends(s, a)
    ensures S.Apply(s, a).log == s.log
  {
  }

  lemma CompleteStep(ev: nat -> Event, base: S.Base, s: State, a: Action)
    requires Inv(ev, base, s) && a.Complete? && Enabled(ev, s, a)
    ensures Inv(ev, base, Apply(ev, s, a))
  {
    hide PipeInv, SessInv, B.Inv, RowsOk, KeptOk, S.Apply, S.Enabled, Ends, OutcomeOf, WorkerOf;
    var w := WorkerOf(a.a);
    Sizes(ev, base, s);
    B.FinishKeeps(s.bal, w, OutcomeOf(s.sess, a.a));
    CompleteSession(s, base, a.a);
    var t := Apply(ev, s, a);
    forall v | 0 <= v < B.SIZE ensures |t.bal.workers| == B.SIZE == |t.sess.workers| && Coupled(ev, t, v) {
      assert Coupled(ev, s, v);
    }
    forall x | x in t.bal.called ensures CallOk(ev, t, x) {
      assert CallOk(ev, s, x);
    }
    forall x ensures RowsOk(t, x) {
      CompleteRows(ev, base, s, a.a, x);
    }
    forall x ensures KeptOk(t, x) {
      CompleteKept(ev, base, s, a.a, x);
    }
  }

  // ---- The end of processEvent ---------------------------------------------------------

  lemma ReturnPlaces(p: P.State, i: nat, keep: bool, y: nat)
    requires PipeInv(p) && P.Enabled(p, P.Process(i, keep))
    ensures var q, x := P.Apply(p, P.Process(i, keep)), p.pool[i].item;
            && (P.Processing(y) in q.pool <==> P.Processing(y) in p.pool && y != x)
            && (y in q.processed <==> y in p.processed || y == x)
            && Times(y, q.results) == Times(y, p.results) + if keep && y == x then 1 else 0
  {
    var q, x := P.Apply(p, P.Process(i, keep)), p.pool[i].item;
    assert p.pool[i] == P.Processing(x) && P.Processing(x) in p.pool;
    TimesAppend(y, p.results, x);
    OnePlace(p, x);
    if y == x {
      PipeKeeps(p, P.Process(i, keep));
      OnePlace(q, x);
      assert x in multiset(q.processed);
    } else if keep {
      assert q.pool == p.pool[i := P.Adding(x)];
      if P.Processing(y) in p.pool {
        var j :| 0 <= j < |p.pool| && p.pool[j] == P.Processing(y);
        assert q.pool[j] == P.Processing(y);
      }
    } else {
      ExceptMembers(p.pool, i, P.Processing(y));
    }
  }

  lemma ReturnStep(ev: nat -> Event, base: S.Base, s: State, a: Action)
    requires Inv(ev, base, s) && a.Return? && Enabled(ev, s, a)
    ensures Inv(ev, base, Apply(ev, s, a))
  {
    hide PipeInv, SessInv, B.Inv, P.Apply;
    var t := Apply(ev, s, a);
    var x := s.pipe.pool[a.i].item;
    Sizes(ev, base, s);
    PipeKeeps(s.pipe, P.Process(a.i, a.keep));
    assert Processing(s, x);
    forall w | 0 <= w < B.SIZE ensures Coupled(ev, t, w) {
      assert Coupled(ev, s, w);
    }
    forall y | y in t.bal.called ensures CallOk(ev, t, y) {
      assert CallOk(ev, s, y);
      ReturnPlaces(s.pipe, a.i, a.keep, y);
    }
    forall y ensures RowsOk(t, y) {
      assert RowsOk(s, y);
    }
    forall y ensures KeptOk(t, y) {
      assert KeptOk(s, y);
      ReturnPlaces(s.pipe, a.i, a.keep, y);
      if x in s.bal.called {
        NotRunning(s.bal, x);
      } else {
        NewNotRunning(s.bal, B.Task(x, 0));
      }
    }
  }

  lemma InitInv(ev: nat -> Event, poolSize: nat, start: nat, base: S.Base)
    requires S.BaseOk(start, base)
    ensures Inv(ev, base, Init(poolSize, start, base))
  {
    var s := Init(poolSize, start, base);
    SS.InitInv(start, base);
    T.InitTotals(start, base);
    B.Reachable<Outcome>([]);
    forall x ensures Times(x, s.pipe.accepted) == 0 && P.Accounted(x, s.pipe) && RowsOk(s, x) && KeptOk(s, x) {
    }
  }

  lemma StepKeeps(ev: nat -> Event, base: S.Base, s: State, a: Action)
    requires Inv(ev, base, s) && Enabled(ev, s, a)
    ensures Inv(ev, base, Apply(ev, s, a))
  {
    match a {
      case Pipe(_) => PipeStep(ev, base, s, a);
      case Start(_) => StartStep(ev, base, s, a);
      case Work(_) => WorkStep(ev, base, s, a);
      case Complete(_) => CompleteStep(ev, base, s, a);
      case Return(_, _) => ReturnStep(ev, base, s, a);
      case _ => BalStep(ev, base, s, a);
    }
  }

  lemma {:induction false} Reachable(ev: nat -> Event, poolSize: nat, start: nat, base: S.Base, acts: seq<Action>)
    requires S.BaseOk(start, base) && Run(ev, Init(poolSize, start, base), acts).Some?
    ensures Inv(ev, base, Run(ev, Init(poolSize, start, base), acts).value)
    decreases |acts|
  {
    hide Inv, Init, Enabled, Apply, S.BaseOk;
    if acts == [] {
      InitInv(ev, poolSize, start, base);
    } else {
      Reachable(ev, poolSize, start, base, acts[..|acts| - 1]);
      StepKeeps(ev, base, Run(ev, Init(poolSize, start, base), acts[..|acts| - 1]).value, Last(acts));
    }
  }

  // ---- What the system guarantees ------------------------------------------------------

  /** Hand-overs never wait for each other: a worker that may take a task finds its session worker idle, and
      when a session step ends a task the balancer can take the result. */
  lemma HandOversAgree(
      ev: nat -> Event, poolSize: nat, start: nat, base: S.Base, acts: seq<Action>, w: nat, a: S.Action)
    requires S.BaseOk(start, base) && Run(ev, Init(poolSize, start, base), acts).Some?
    ensures var s := Run(ev, Init(poolSize, start, base), acts).value;
            && (B.Enabled(s.bal, B.Start(w)) ==> Enabled(ev, s, Start(w)))
            && (S.Enabled(s.sess, a) && Ends(s.sess, a) ==> Enabled(ev, s, Complete(a)))
  {
    hide Run, Init, S.BaseOk, Inv, Enabled, Ends, S.Enabled, B.Enabled;
    Reachable(ev, poolSize, start, base, acts);
    var s := Run(ev, Init(poolSize, start, base), acts).value;
    if B.Enabled(s.bal, B.Start(w)) {
      StartAgrees(ev, base, s, w);
    }
    if S.Enabled(s.sess, a) && Ends(s.sess, a) {
      EndAgrees(ev, base, s, a);
    }
  }

  lemma StartAgrees(ev: nat -> Event, base: S.Base, s: State, w: nat)
    requires Inv(ev, base, s) && B.Enabled(s.bal, B.Start(w))
    ensures Enabled(ev, s, Start(w))
  {
    hide PipeInv, SessInv, B.Inv, RowsOk, KeptOk;
    Sizes(ev, base, s);
    QueuedUnanswered(s.bal, w);
    assert CallOk(ev, s, s.bal.workers[w].queue[0].id) && Coupled(ev, s, w);
  }

  lemma EndsBusy(s: S.State, a: S.Action)
    requires S.Enabled(s, a) && Ends(s, a)
    ensures WorkerOf(a) < |s.workers| && !s.workers[WorkerOf(a)].Idle?
  {
  }

  lemma EndAgrees(ev: nat -> Event, base: S.Base, s: State, a: S.Action)
    requires Inv(ev, base, s) && S.Enabled(s.sess, a) && Ends(s.sess, a)
    ensures Enabled(ev, s, Complete(a))
  {
    hide PipeInv, SessInv, B.Inv, RowsOk, KeptOk, S.Enabled, Ends, WorkerOf, OutcomeOf, CallOk;
    EnteredSize(s.bal);
    Sizes(ev, base, s);
    EndsBusy(s.sess, a);
    assert Coupled(ev, s, WorkerOf(a));
  }

  lemma EnteredSize(b: B.State<Outcome>)
    requires B.Inv(b)
    ensures |b.entered| == B.SIZE == |b.workers|
  {
  }

  /** What a call has written by the time it has been answered: exactly one new state of the session it
      returned, after the tombstone of the state it replaces; and nothing at all if it failed, timed out
      before its task entered a queue, or ended without a session. A request dropped before the call writes
      nothing either. The rows written for the requests, in order, are all that the log gains. */
  lemma CallWrites(ev: nat -> Event, poolSize: nat, start: nat, base: S.Base, acts: seq<Action>, x: nat)
    requires S.BaseOk(start, base) && Run(ev, Init(poolSize, start, base), acts).Some?
    ensures var s := Run(ev, Init(poolSize, start, base), acts).value;
            && s.sess.log == base.log + RowsIn(s.added)
            && (x !in s.bal.called ==> RowsOf(s.added, x) == [])
            && (x in s.bal.replies ==>
                  match s.bal.replies[x]
                  case Value(Returned(id)) => OneState(RowsOf(s.added, x), id)
                  case _ => RowsOf(s.added, x) == [])
  {
    Reachable(ev, poolSize, start, base, acts);
    var s := Run(ev, Init(poolSize, start, base), acts).value;
    hide Run, Init, PipeInv, SessInv, B.Inv, Coupled, CallOk, KeptOk;
    Sizes(ev, base, s);
    assert RowsOk(s, x);
    if x in s.bal.replies {
      RepliesCalled(s.bal, x);
      NotRunning(s.bal, x);
    }
  }

  /** The requests for which processEvent hands an event to the buffer are exactly those whose call returned
      a session, each once. */
  lemma StoredAreReturned(ev: nat -> Event, poolSize: nat, start: nat, base: S.Base, acts: seq<Action>, x: nat)
    requires S.BaseOk(start, base) && Run(ev, Init(poolSize, start, base), acts).Some?
    requires x in Run(ev, Init(poolSize, start, base), acts).value.pipe.processed
    ensures var s := Run(ev, Init(poolSize, start, base), acts).value;
            Times(x, s.pipe.results) == if x in s.bal.replies && Keeps(s.bal.replies[x]) then 1 else 0
  {
    Reachable(ev, poolSize, start, base, acts);
    var s := Run(ev, Init(poolSize, start, base), acts).value;
    hide Run, Init, SessInv, B.Inv, Coupled, RowsOk;
    assert KeptOk(s, x);
    OnePlace(s.pipe, x);
    assert x in multiset(s.pipe.processed);
  }

  predicate Quiet(s: State) {
    s.pipe.pool == [] && s.bal.mailbox == map[] && T.Quiet(s.sess)
  }

  lemma {:induction false} NoStage(pool: seq<P.Task>, x: nat, adding: bool)
    requires pool == []
    ensures P.InStage(x, pool, adding) == 0
  {
  }

  /** When no request is being processed, the two tables agree: the signed sum of `events` over the session
      rows has grown by the number of live events handed to the event buffer, all of which it took. */
  lemma TablesAgree(ev: nat -> Event, poolSize: nat, start: nat, base: S.Base, acts: seq<Action>)
    requires S.BaseOk(start, base) && Run(ev, Init(poolSize, start, base), acts).Some?
    requires Quiet(Run(ev, Init(poolSize, start, base), acts).value)
    ensures var s := Run(ev, Init(poolSize, start, base), acts).value;
            && T.Total(s.sess.log, T.Events) == T.Total(base.log, T.Events) + |s.pipe.stored|
            && multiset(s.pipe.stored) == multiset(s.kept) && s.pipe.refused == []
  {
    hide Run, Init, S.BaseOk, Coupled, RowsOk, KeptOk, CallOk, B.Inv, PipeInv, SessInv, T.Total;
    Reachable(ev, poolSize, start, base, acts);
    var s := Run(ev, Init(poolSize, start, base), acts).value;
    QuietTotal(s.sess, base);
    NoneRefused(s.pipe);
    QuietMultiset(ev, base, s);
    SameLength(s.pipe.stored, s.kept);
  }

  lemma QuietTotal(s: S.State, base: S.Base)
    requires SessInv(s, base) && T.Quiet(s)
    ensures T.Total(s.log, T.Events) == T.Total(base.log, T.Events) + |s.accepted|
  {
    hide SI.Inv;
    T.AllIdleOweNothing(s.workers, T.Events);
  }

  lemma NoneRefused(p: P.State)
    requires PipeInv(p)
    ensures p.refused == []
  {
  }

  lemma SameLength(a: seq<nat>, b: seq<nat>)
    requires multiset(a) == multiset(b)
    ensures |a| == |b|
  {
    assert |multiset(a)| == |a|;
  }

  lemma QuietMultiset(ev: nat -> Event, base: S.Base, s: State)
    requires Inv(ev, base, s) && Quiet(s)
    ensures multiset(s.pipe.stored) == multiset(s.kept)
  {
    hide Inv;
    forall x ensures multiset(s.pipe.stored)[x] == multiset(s.kept)[x] {
      QuietKept(ev, base, s, x);
    }
  }

  lemma QuietKept(ev: nat -> Event, base: S.Base, s: State, x: nat)
    requires Inv(ev, base, s) && Quiet(s)
    ensures Times(x, s.pipe.stored) == Times(x, s.kept)
  {
    assert KeptOk(s, x) && P.Accounted(x, s.pipe);
    NoStage(s.pipe.pool, x, true);
  }
}
