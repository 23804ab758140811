/** In which order batches must leave `inflight`. flushAndWrite does not enforce any: up to eight flush
    goroutines and the timer may finish in any order. */
module SessionOrder {
  import opened Common
  import opened SessionRows
  import opened CollapsingTable
  import opened SessionProtocol
  import opened SessionInvariant
  import opened SessionSteps
  import opened SessionTheorems
  import opened SessionHandling

  // ---- An execution in which a later batch overtakes an earlier one ---------------------

  const VISITOR := Key(0, 0)
  const E1 := Event(0, 0, "pageview", true, 0, "h", "/", [])
  const E2 := E1.(ts := 1)
  const E3 := E1.(ts := 2)
  const ID: nat := 7
  const V1 := NewRow(E1, ID, 1)
  const V2 := UpdateRow(V1, E2, 2)
  const V3 := UpdateRow(V1, E3, 3)

  lemma Extend(s: State, acts: seq<Action>, a: Action) returns (acts': seq<Action>)
    requires Run(s, acts).Some? && Enabled(Run(s, acts).value, a)
    ensures acts' == acts + [a] && Run(s, acts') == Some(Apply(Run(s, acts).value, a))
  {
    acts' := acts + [a];
    RunStep(s, acts, a);
  }

  /** Finishes a call without interruption. */
  lemma Finish(s: State, acts: seq<Action>) returns (acts': seq<Action>)
    requires Run(s, acts).Some? && Enabled(Run(s, acts).value, Decide(0, ID))
    ensures Run(s, acts').Some? && Handled(Run(s, acts).value, Run(s, acts').value, 0, ID)
  {
    var tail := HandleIsRun(Run(s, acts).value, 0, ID);
    RunConcat(s, acts, tail);
    acts' := acts + tail;
  }

  /** The first event opens a session; its row is in the table, but its batch is still in flight. */
  lemma FirstCall() returns (acts: seq<Action>, s: State)
    ensures Run(Init(0, EMPTY), acts) == Some(s)
    ensures s.workers == Init(0, EMPTY).workers && s.counter == 1 && s.cache == map[VISITOR := V1]
    ensures s.buffer == [] && s.log == [V1] && s.inflight == [Batch([V1], true)] && s.table == [V1]
  {
    var i := Init(0, EMPTY);
    acts := Extend(i, [], Begin(E1));
    acts := Extend(i, acts, ReadCache(0));
    acts := Extend(i, acts, ReadPending(0, None));
    acts := Extend(i, acts, ReadTable(0, None));
    acts := Finish(i, acts);
    assert Run(i, acts).value.workers == i.workers;
    acts := Extend(i, acts, TakeBatch);
    acts := Extend(i, acts, InsertBatch(0));
    s := Run(i, acts).value;
  }

  /** The second event updates it; its batch is inserted and leaves first. Then the cache entry is
      evicted. */
  lemma SecondCall() returns (acts: seq<Action>, s: State)
    ensures Run(Init(0, EMPTY), acts) == Some(s)
    ensures s.workers == Init(0, EMPTY).workers && s.counter == 2 && s.cache == map[]
    ensures s.buffer == [] && s.log == [V1, Tombstone(V1), V2] && s.inflight == [Batch([V1], true)]
  {
    var i := Init(0, EMPTY);
    acts, s := FirstCall();
    acts := Extend(i, acts, Begin(E2));
    acts := Extend(i, acts, ReadCache(0));
    acts := Finish(i, acts);
    assert Run(i, acts).value.workers == i.workers;
    acts := Extend(i, acts, TakeBatch);
    acts := Extend(i, acts, InsertBatch(1));
    acts := Extend(i, acts, LeaveInflight(1));
    acts := Extend(i, acts, Evict(VISITOR));
    s := Run(i, acts).value;
  }

  lemma StaleFound(s: State)
    requires s.inflight == [Batch([V1], true)] && s.buffer == []
    ensures PendingResult(Pending(s), VISITOR, E3.ts, Some(V1))
  {
    assert Flatten(s.inflight) == [V1] + Flatten([]);
    assert Pending(s) == [V1];
  }

  lemma ThirdCall() returns (acts: seq<Action>, s: State)
    ensures Run(Init(0, EMPTY), acts) == Some(s) && Quiet(s)
    ensures s.log == [V1] + [Tombstone(V1)] + [V2] + [Tombstone(V1)] + [V3]
  {
    var i := Init(0, EMPTY);
    acts, s := SecondCall();
    acts := Extend(i, acts, Begin(E3));
    acts := Extend(i, acts, ReadCache(0));
    StaleFound(Run(i, acts).value);
    acts := Extend(i, acts, ReadPending(0, Some(V1)));
    acts := Finish(i, acts);
    s := Run(i, acts).value;
    assert s.workers == i.workers;
  }

  /** The third event then finds the first state in memory, although a newer one is in the table:
      the first state gets a second tombstone and the session ends with two live rows. */
  lemma OvertakingBreaksCollapse() returns (acts: seq<Action>, s: State)
    ensures Run(Init(0, EMPTY), acts) == Some(s) && Quiet(s)
    ensures Net(s.log, ID, 1) == -1 && Net(s.log, ID, 2) == 1 && Net(s.log, ID, 3) == 1
    ensures !exists r :: r in s.log && CollapsesTo(s.log, r)
  {
    acts, s := ThirdCall();
    forall v: nat ensures Net(s.log, ID, v) == if v == 1 then -1 else if 2 <= v <= 3 then 1 else 0 {
      FiveCount(v, 1);
      FiveCount(v, -1);
    }
    forall r | r in s.log ensures !CollapsesTo(s.log, r) {
      assert Net(s.log, r.session, 2) == 1 && Net(s.log, r.session, 3) == 1;
    }
  }

  lemma CountAppend(log: seq<Row>, r: Row, session: nat, v: nat, g: int)
    ensures Count(log + [r], session, v, g) == Count(log, session, v, g) + if Matches(r, session, v, g) then 1 else 0
  {
    assert (log + [r])[..|log|] == log;
  }

  lemma FiveCount(v: nat, g: int)
    ensures Count([V1] + [Tombstone(V1)] + [V2] + [Tombstone(V1)] + [V3], ID, v, g)
         == match g case 1 => (if 1 <= v <= 3 then 1 else 0) case -1 => (if v == 1 then 2 else 0) case _ => 0
  {
    CountAppend([], V1, ID, v, g);
    assert [] + [V1] == [V1];
    CountAppend([V1], Tombstone(V1), ID, v, g);
    CountAppend([V1] + [Tombstone(V1)], V2, ID, v, g);
    CountAppend([V1] + [Tombstone(V1)] + [V2], Tombstone(V1), ID, v, g);
    CountAppend([V1] + [Tombstone(V1)] + [V2] + [Tombstone(V1)], V3, ID, v, g);
  }

  // ---- Leaving in the order taken is enough ---------------------------------------------

  predicate Older(p: Row, q: Row) {
    p.sign == 1 && q.sign == 1 && p.session == q.session ==> p.version < q.version
  }

  /** The states of a session are in memory in the order of their versions. */
  predicate Sorted(pending: seq<Row>) {
    forall i, j :: 0 <= i < j < |pending| ==> Older(pending[i], pending[j])
  }

  lemma {:induction false} SortedExcept(batches: seq<Batch>, i: nat, tail: seq<Row>)
    requires i < |batches| && Sorted(Flatten(batches) + tail)
    ensures Sorted(Flatten(Except(batches, i)) + tail)
    decreases i
  {
    var first, rest := batches[0].rows, Flatten(batches[1..]) + tail;
    assert Flatten(batches) + tail == first + rest;
    SortedSuffix(first, rest);
    if i == 0 {
      assert Except(batches, 0) == batches[1..];
    } else {
      SortedExcept(batches[1..], i - 1, tail);
      LeaveRows(batches[1..], i - 1);
      var less := Flatten(Except(batches[1..], i - 1)) + tail;
      assert Except(batches, i) == [batches[0]] + Except(batches[1..], i - 1);
      assert Flatten(Except(batches, i)) + tail == first + less;
      SortedJoin(first, rest, less);
    }
  }

  lemma SortedSuffix(a: seq<Row>, b: seq<Row>)
    requires Sorted(a + b)
    ensures Sorted(a) && Sorted(b) && forall p, q :: p in a && q in b ==> Older(p, q)
  {
    var all := a + b;
    forall i, j | 0 <= i < j < |b| ensures Older(b[i], b[j]) {
      assert all[|a| + i] == b[i] && all[|a| + j] == b[j];
    }
    forall i, j | 0 <= i < j < |a| ensures Older(a[i], a[j]) {
      assert all[i] == a[i] && all[j] == a[j];
    }
    forall p, q | p in a && q in b ensures Older(p, q) {
      var i :| 0 <= i < |a| && a[i] == p;
      var j :| 0 <= j < |b| && b[j] == q;
      assert all[i] == p && all[|a| + j] == q;
    }
  }

  lemma SortedJoin(a: seq<Row>, b: seq<Row>, less: seq<Row>)
    requires Sorted(a) && Sorted(less) && (forall p, q :: p in a && q in b ==> Older(p, q))
    requires forall r :: r in less ==> r in b
    ensures Sorted(a + less)
  {
    var all := a + less;
    forall i, j | 0 <= i < j < |all| ensures Older(all[i], all[j]) {
      if j >= |a| {
        assert all[j] == less[j - |a|] && all[j] in less;
        if i < |a| {
          assert all[i] in a;
        }
      }
    }
  }

  lemma AddSorted(s: State, t: State, r: Row)
    requires Sorted(Pending(s)) && t.buffer == s.buffer + [r] && t.inflight == s.inflight
    requires forall p :: p in Pending(s) ==> Older(p, r)
    ensures Sorted(Pending(t))
  {
    assert Pending(t) == Pending(s) + [r];
    assert Sorted([r]);
    SortedJoin(Pending(s), [r], [r]);
  }

  /** A new state is newer than all of its session in memory. */
  lemma NextIsNewer(s: State, w: nat, p: Row)
    requires Inv(s) && w < |s.workers| && s.workers[w].AddingRow? && p in Pending(s)
    ensures Older(p, s.workers[w].next)
  {
    assert PhaseOk(s, w, s.workers[w]);
    assert p in s.log;
    if p.sign == 1 {
      VersionBound(s, p);
    }
  }

  lemma StepSorted(s: State, a: Action)
    requires Inv(s) && Sorted(Pending(s)) && Enabled(s, a)
    ensures Sorted(Pending(Apply(s, a)))
  {
    var t := Apply(s, a);
    match a {
      case AddTombstone(w) => AddSorted(s, t, Tombstone(s.workers[w].prior));
      case AddRow(w) =>
        forall p | p in Pending(s) ensures Older(p, s.workers[w].next) {
          NextIsNewer(s, w, p);
        }
        AddSorted(s, t, s.workers[w].next);
      case TakeBatch => TakeFlow(s);
      case InsertBatch(i) => InsertFlow(s, i);
      case LeaveInflight(i) => SortedExcept(s.inflight, i, s.buffer);
      case _ => assert Pending(t) == Pending(s);
    }
  }

  lemma {:induction false} MemorySorted(start: nat, base: Base, acts: seq<Action>)
    requires BaseOk(start, base) && Orderly(Init(start, base), acts) && Run(Init(start, base), acts).Some?
    ensures Sorted(Pending(Run(Init(start, base), acts).value))
    decreases |acts|
  {
    if acts != [] {
      MemorySorted(start, base, acts[..|acts| - 1]);
      Reachable(start, base, acts[..|acts| - 1]);
      StepSorted(Run(Init(start, base), acts[..|acts| - 1]).value, Last(acts));
    }
  }

  /** The batch taken first may always leave. */
  lemma FirstLeavesSafely(s: State)
    requires Sorted(Pending(s)) && s.inflight != []
    ensures LeavesSafely(s, 0)
  {
    var rest := Flatten(Except(s.inflight, 0)) + s.buffer;
    assert Except(s.inflight, 0) == s.inflight[1..];
    assert Pending(s) == s.inflight[0].rows + rest;
    SortedSuffix(s.inflight[0].rows, rest);
    forall r | r in s.inflight[0].rows && r.sign == 1 && HasState(rest, r.session) ensures HasAsNew(rest, r) {
      var p :| p in rest && p.session == r.session && p.sign == 1;
      assert Older(r, p);
    }
  }

  /** Runs whose batches leave in the order taken are orderly. */
  lemma {:induction false} TakenOrderIsOrderly(start: nat, base: Base, acts: seq<Action>)
    requires BaseOk(start, base) && TakenOrder(acts) && Run(Init(start, base), acts).Some?
    ensures Orderly(Init(start, base), acts)
    decreases |acts|
  {
    if acts != [] {
      var init := acts[..|acts| - 1];
      assert Last(acts) in acts;
      TakenOrderIsOrderly(start, base, init);
      MemorySorted(start, base, init);
      if Last(acts).LeaveInflight? {
        FirstLeavesSafely(Run(Init(start, base), init).value);
      }
    }
  }

  // ---- Leaving in any other order can always break a session ----------------------------

  /** All of the invariant but that memory holds the newest states it should. */
  ghost predicate Loose(s: State) {
    Consistent(s) && StartInv(s)
  }

  /** A state in memory that has been replaced, and alone starts when it does, is what FindPendingAt
      returns for an event at its start. */
  lemma StaleIsFound(s: State, q: Row)
    requires Loose(s) && Latest(Pending(s), q.Visitor(), q)
    ensures PendingResult(Pending(s), q.Visitor(), q.start, Some(q))
  {
    StartOf(s, q);
    forall p | Latest(Pending(s), q.Visitor(), p) && Contains(p, q.start) ensures Precedes(p, q) {
      StartOf(s, p);
    }
  }

  lemma StartOf(s: State, q: Row)
    requires Loose(s) && q in Pending(s) && q.sign == 1
    ensures q.session in s.hist && q.start <= q.ts
    ensures q.start == s.hist[q.session].rows[0].start && q.Visitor() == s.hist[q.session].rows[0].Visitor()
  {
    var h := s.hist[q.session];
    assert SessionLog(s.log, h.rows, h.evs, LogLen(s, q.session));
    var i := LogRowOf(s.log, h.rows, h.evs, LogLen(s, q.session), q);
    HistoryGrows(h.rows, h.evs, 0, i);
    StartsBeforeEnd(h.rows, h.evs, i);
  }

  /** The replaced state has been cancelled already. */
  lemma ReplacedNetsZero(s: State, q: Row)
    requires Loose(s) && q in s.log && q.sign == 1 && q.session in s.hist
    requires !Dangling(s, q.session) && q.version < Newest(s, q.session).version
    ensures Count(s.log, q.session, q.version, 1) == 1 == Count(s.log, q.session, q.version, -1)
  {
    var h, len := s.hist[q.session], LogLen(s, q.session);
    assert SessionLog(s.log, h.rows, h.evs, len);
    var i := LogRowOf(s.log, h.rows, h.evs, len, q);
    CountOf(s.log, q.session, q.version, 1);
    CountOf(s.log, q.session, q.version, -1);
    ZigCounts(h.rows, h.evs, len, q.version);
  }

  lemma CancelledTwice(log: seq<Row>, q: Row, next: Row)
    requires Count(log, q.session, q.version, 1) == 1 == Count(log, q.session, q.version, -1)
    requires next.version != q.version
    ensures Net(log + [Tombstone(q), next], q.session, q.version) == -1
  {
    assert log + [Tombstone(q), next] == log + [Tombstone(q)] + [next];
    forall g | g == 1 || g == -1
      ensures Count(log + [Tombstone(q), next], q.session, q.version, g)
           == Count(log, q.session, q.version, g) + if g == -1 then 1 else 0
    {
      CountAppend(log, Tombstone(q), q.session, q.version, g);
      CountAppend(log + [Tombstone(q)], next, q.session, q.version, g);
    }
  }

  /** An event of an idle visitor that misses the cache, up to the lookup in memory. */
  lemma MissesCache(i: State, acts: seq<Action>, e: Event) returns (acts': seq<Action>)
    requires Run(i, acts).Some?
    requires var s := Run(i, acts).value; |s.workers| == WORKERS && s.workers[e.user % WORKERS].Idle?
    ensures acts <= acts' && NoLeave(acts'[|acts|..]) && Run(i, acts').Some?
    ensures var s, t, w := Run(i, acts).value, Run(i, acts').value, e.user % WORKERS;
            && t.log == s.log && t.counter == s.counter && t.workers == s.workers[w := NeedPending(e)]
            && t.buffer == s.buffer && t.inflight == s.inflight
  {
    hide Run;
    var s := Run(i, acts).value;
    acts' := acts;
    if e.Visitor() in s.cache {
      acts' := Extend(i, acts', Evict(e.Visitor()));
    }
    acts' := Extend(i, acts', Begin(e));
    acts' := Extend(i, acts', ReadCache(e.user % WORKERS));
  }

  /** The event at the start of the stale state, up to the choice. */
  lemma StaleIsChosen(i: State, acts: seq<Action>, q: Row, e: Event) returns (acts': seq<Action>)
    requires Run(i, acts).Some?
    requires var s := Run(i, acts).value;
             && Loose(s) && Latest(Pending(s), q.Visitor(), q) && s.workers[q.user % WORKERS].Idle?
    requires e.Visitor() == q.Visitor() && e.ts == q.start
    ensures acts <= acts' && NoLeave(acts'[|acts|..]) && Run(i, acts').Some?
    ensures var s, t, w := Run(i, acts).value, Run(i, acts').value, q.user % WORKERS;
            && t.log == s.log && t.counter == s.counter && t.workers == s.workers[w := Chosen(e, Some(q))]
  {
    hide Run, Latest, PendingResult, HistInv, LogInv, FlowInv, StartInv;
    var s, w := Run(i, acts).value, q.user % WORKERS;
    StaleIsFound(s, q);
    var mid := MissesCache(i, acts, e);
    assert Pending(Run(i, mid).value) == Pending(s);
    acts' := Extend(i, mid, ReadPending(w, Some(q)));
  }

  lemma NotCollapsed(log: seq<Row>, session: nat, version: nat)
    requires Net(log, session, version) == -1
    ensures forall r: Row :: r.session == session ==> !CollapsesTo(log, r)
  {
  }

  lemma HandledLog(m: State, t: State, w: nat, e: Event, q: Row)
    requires w < |m.workers| && m.workers[w] == Chosen(e, Some(q)) && Handled(m, t, w, 0)
    ensures t.log == m.log + [Tombstone(q), UpdateRow(q, e, m.counter + 1).(sign := 1)]
    ensures t.workers == m.workers[w := Idle]
  {
  }

  lemma StaleVersion(s: State, q: Row)
    requires Loose(s) && q.session in s.hist && q.version < Newest(s, q.session).version
    ensures q.version < s.counter + 1
  {
  }

  lemma IdleNotDangling(s: State, q: Row)
    requires Loose(s) && q in Pending(s) && q.sign == 1 && s.workers[q.user % WORKERS].Idle?
    ensures q.session in s.hist && !Dangling(s, q.session)
  {
    StartOf(s, q);
  }

  /** A state of which the newest has left memory can break its session: an event at its start cancels it
      a second time. */
  lemma StaleBreaks(i: State, acts: seq<Action>, q: Row) returns (acts': seq<Action>)
    requires Run(i, acts).Some?
    requires var s := Run(i, acts).value;
             && Loose(s) && Latest(Pending(s), q.Visitor(), q) && s.workers[q.user % WORKERS].Idle?
             && q.session in s.hist && q.version < Newest(s, q.session).version
    ensures acts <= acts' && NoLeave(acts'[|acts|..]) && Run(i, acts').Some?
    ensures var t := Run(i, acts').value;
            && |t.workers| == WORKERS && Settled(t, q.Visitor())
            && Run(i, acts).value.log <= t.log && Net(t.log, q.session, q.version) == -1
            && forall r: Row :: r.session == q.session ==> !CollapsesTo(t.log, r)
  {
    hide Run, Apply, Handled, CollapsesTo, Net, Latest, Loose, UpdateRow, Pending;
    var s, w := Run(i, acts).value, q.user % WORKERS;
    var e := Event(q.user, q.site, "pageview", true, q.start, "", "", []);
    assert q in Pending(s) && q.sign == 1 by { LatestIsPending(s, q); }
    IdleNotDangling(s, q);
    LooseRows(s, q);
    ReplacedNetsZero(s, q);
    StaleVersion(s, q);
    var mid := StaleIsChosen(i, acts, q, e);
    var m := Run(i, mid).value;
    var tail := HandleIsRun(m, w, 0);
    RunConcat(i, mid, tail);
    acts' := mid + tail;
    assert acts'[|acts|..] == mid[|acts|..] + tail;
    HandledLog(m, Run(i, acts').value, w, e, q);
    var next := UpdateRow(q, e, m.counter + 1).(sign := 1);
    assert next.version == m.counter + 1 by { UpdateVersion(q, e, m.counter + 1); }
    CancelledTwice(s.log, q, next);
    NotCollapsed(Run(i, acts').value.log, q.session, q.version);
  }

  lemma LatestIsPending(s: State, q: Row)
    requires Latest(Pending(s), q.Visitor(), q)
    ensures q in Pending(s) && q.sign == 1
  {
  }

  lemma LooseRows(s: State, q: Row)
    requires Loose(s) && q in Pending(s)
    ensures |s.workers| == WORKERS && q in s.log
  {
  }

  lemma UpdateVersion(q: Row, e: Event, v: nat)
    ensures UpdateRow(q, e, v).version == v
  {
  }

  /** A batch that leaves an orderly run unsafely, with a newer state of a session than memory keeps, while
      the worker of its visitor is idle: the run can go on to break the session. */
  lemma UnsafeLeaveBreaks(start: nat, base: Base, acts: seq<Action>, i: nat, r: Row) returns (more: seq<Action>)
    requires BaseOk(start, base) && Orderly(Init(start, base), acts) && Run(Init(start, base), acts).Some?
    requires var s := Run(Init(start, base), acts).value;
             && Enabled(s, LeaveInflight(i)) && r in s.inflight[i].rows && r.sign == 1
             && |s.workers| == WORKERS && s.workers[r.user % WORKERS].Idle?
             && var rest := Flatten(Except(s.inflight, i)) + s.buffer; HasState(rest, r.session) && !HasAsNew(rest, r)
    ensures NoLeave(more) && Run(Init(start, base), acts + [LeaveInflight(i)] + more).Some?
    ensures var t := Run(Init(start, base), acts + [LeaveInflight(i)] + more).value;
            && |t.workers| == WORKERS && Settled(t, r.Visitor()) && r in t.log
            && forall q: Row :: q.session == r.session ==> !CollapsesTo(t.log, q)
  {
    hide Run, Orderly, BaseOk, Init, Apply, Inv, Loose, Consistent, HistInv, CollapsesTo, Settled, Net, Latest,
         HasAsNew, HasState, Enabled;
    Reachable(start, base, acts);
    var left := Extend(Init(start, base), acts, LeaveInflight(i));
    var s := Run(Init(start, base), acts).value;
    var q := StaleAfterLeave(s, i, r);
    LeaveIsLoose(s, i);
    var acts' := StaleBreaks(Init(start, base), left, q);
    more := acts'[|left|..];
    assert acts' == left + more;
    BatchInLog(s, i, r);
    InPrefix(Run(Init(start, base), left).value.log, Run(Init(start, base), acts').value.log, r);
  }

  lemma InPrefix(a: seq<Row>, b: seq<Row>, r: Row)
    requires a <= b && r in a
    ensures r in b
  {
    var i :| 0 <= i < |a| && a[i] == r;
    assert b[i] == r;
  }

  lemma BatchInLog(s: State, i: nat, r: Row)
    requires Inv(s) && Enabled(s, LeaveInflight(i)) && r in s.inflight[i].rows
    ensures r in Apply(s, LeaveInflight(i)).log
  {
    LeaveFlow(s, i);
  }

  /** Every session whose visitor has no event in progress has collapsed to one row. */
  ghost predicate AllCollapse(s: State) {
    |s.workers| == WORKERS &&
    forall q :: q in s.log && Settled(s, q.Visitor()) ==>
      exists r: Row :: r.session == q.session && CollapsesTo(s.log, r)
  }

  /** Whatever happens after batch `i` has left, until the next batch leaves, every session collapses. */
  ghost predicate LeaveIsSafe(start: nat, base: Base, acts: seq<Action>, i: nat) {
    forall more: seq<Action> ::
      NoLeave(more) && Run(Init(start, base), acts + [LeaveInflight(i)] + more).Some? ==>
        AllCollapse(Run(Init(start, base), acts + [LeaveInflight(i)] + more).value)
  }

  /** So the condition is exact: when no event is in progress a batch of an orderly run may leave without
      danger to any session if and only if no session keeps an older state in memory than it loses. */
  lemma LeaveSafeIff(start: nat, base: Base, acts: seq<Action>, i: nat)
    requires BaseOk(start, base) && Orderly(Init(start, base), acts) && Run(Init(start, base), acts).Some?
    requires var s := Run(Init(start, base), acts).value; Enabled(s, LeaveInflight(i)) && Quiet(s)
    ensures LeaveIsSafe(start, base, acts, i) <==> LeavesSafely(Run(Init(start, base), acts).value, i)
  {
    var s := Run(Init(start, base), acts).value;
    Reachable(start, base, acts);
    if LeavesSafely(s, i) {
      SafeLeave(start, base, acts, i);
    } else {
      hide Inv, BaseOk, Run, Orderly, AllCollapse;
      var rest := Flatten(Except(s.inflight, i)) + s.buffer;
      var r :| r in s.inflight[i].rows && r.sign == 1 && HasState(rest, r.session) && !HasAsNew(rest, r);
      assert |s.workers| == WORKERS by { InvWorkers(s); }
      assert s.workers[r.user % WORKERS] in s.workers;
      var more := UnsafeLeaveBreaks(start, base, acts, i, r);
      NotAll(Run(Init(start, base), acts + [LeaveInflight(i)] + more).value, r);
    }
  }

  lemma InvWorkers(s: State)
    requires Inv(s)
    ensures |s.workers| == WORKERS
  {
  }

  lemma NotAll(s: State, r: Row)
    requires |s.workers| == WORKERS && Settled(s, r.Visitor()) && r in s.log
    requires forall q: Row :: q.session == r.session ==> !CollapsesTo(s.log, q)
    ensures !AllCollapse(s)
  {
  }

  lemma SafeLeave(start: nat, base: Base, acts: seq<Action>, i: nat)
    requires BaseOk(start, base) && Orderly(Init(start, base), acts) && Run(Init(start, base), acts).Some?
    requires var s := Run(Init(start, base), acts).value; Enabled(s, LeaveInflight(i)) && LeavesSafely(s, i)
    ensures LeaveIsSafe(start, base, acts, i)
  {
    var left := acts + [LeaveInflight(i)];
    assert left[..|acts|] == acts;
    assert Orderly(Init(start, base), left);
    forall more: seq<Action> | NoLeave(more) && Run(Init(start, base), left + more).Some?
      ensures AllCollapse(Run(Init(start, base), left + more).value)
    {
      OrderlyConcat(Init(start, base), left, more);
      Reachable(start, base, left + more);
      InvCollapses(Run(Init(start, base), left + more).value);
    }
  }

  lemma InvCollapses(s: State)
    requires Inv(s)
    ensures AllCollapse(s)
  {
    forall q | q in s.log && Settled(s, q.Visitor())
      ensures exists r: Row :: r.session == q.session && CollapsesTo(s.log, r)
    {
      SettledCollapses(s, q);
      NewestOf(s, q.session);
    }
  }

  lemma StaleAfterLeave(s: State, i: nat, r: Row) returns (q: Row)
    requires Inv(s) && Enabled(s, LeaveInflight(i)) && r in s.inflight[i].rows && r.sign == 1
    requires var rest := Flatten(Except(s.inflight, i)) + s.buffer; HasState(rest, r.session) && !HasAsNew(rest, r)
    ensures var t := Apply(s, LeaveInflight(i));
            && |t.workers| == WORKERS && t.workers == s.workers && HistInv(t)
            && Latest(Pending(t), q.Visitor(), q) && q.session == r.session && q.Visitor() == r.Visitor()
            && q.session in t.hist && q.version < Newest(t, q.session).version
  {
    var t := Apply(s, LeaveInflight(i));
    LeaveIsLoose(s, i);
    LeaveFlow(s, i);
    var p :| p in Pending(t) && p.session == r.session && p.sign == 1;
    assert p in Pending(s) && r in Pending(s);
    VersionBound(s, r);
    VersionBound(s, p);
    q := LatestOf(Pending(t), p.Visitor(), p);
    assert !(q.version >= r.version);
  }

  lemma LeaveIsLoose(s: State, i: nat)
    requires Inv(s) && Enabled(s, LeaveInflight(i))
    ensures Loose(Apply(s, LeaveInflight(i)))
  {
    var t := Apply(s, LeaveInflight(i));
    HistKept(s, t);
    LogKept(s, t);
    LeaveFlow(s, i);
  }

  // ---- Exactly when the lookup in memory is right ---------------------------------------

  /** A session has one visitor and one start, and one state per version; two sessions of a visitor start
      at different times. */
  ghost predicate WellNumbered(log: seq<Row>) {
    forall a, b :: a in log && b in log && a.sign == 1 && b.sign == 1 ==>
      && a.start <= a.ts
      && (a.session == b.session ==>
           a.Visitor() == b.Visitor() && a.start == b.start && (a.version == b.version ==> a == b))
      && (a.Visitor() == b.Visitor() && a.start == b.start ==> a.session == b.session)
  }

  lemma LooseIsWellNumbered(s: State)
    requires Loose(s)
    ensures WellNumbered(s.log)
  {
    forall a, b | a in s.log && b in s.log && a.sign == 1 && b.sign == 1
      ensures a.start <= a.ts
      ensures a.session == b.session ==>
                a.Visitor() == b.Visitor() && a.start == b.start && (a.version == b.version ==> a == b)
      ensures a.Visitor() == b.Visitor() && a.start == b.start ==> a.session == b.session
    {
      LogState(s, a, b);
      LogState(s, b, a);
    }
  }

  lemma LogState(s: State, a: Row, b: Row)
    requires Loose(s) && a in s.log && a.sign == 1 && b in s.log && b.sign == 1
    ensures a.session in s.hist && a.start <= a.ts
    ensures a.start == s.hist[a.session].rows[0].start && a.Visitor() == s.hist[a.session].rows[0].Visitor()
    ensures a.session == b.session && a.version == b.version ==> a == b
  {
    var h := s.hist[a.session];
    assert SessionLog(s.log, h.rows, h.evs, LogLen(s, a.session));
    var i := LogRowOf(s.log, h.rows, h.evs, LogLen(s, a.session), a);
    HistoryGrows(h.rows, h.evs, 0, i);
    StartsBeforeEnd(h.rows, h.evs, i);
    if a.session == b.session && a.version == b.version {
      var j := LogRowOf(s.log, h.rows, h.evs, LogLen(s, a.session), b);
      HistoryGrows(h.rows, h.evs, if i < j then i else j, if i < j then j else i);
    }
  }

  /** Every orderly run numbers its rows well. */
  lemma RunIsWellNumbered(start: nat, base: Base, acts: seq<Action>)
    requires BaseOk(start, base) && Orderly(Init(start, base), acts) && Run(Init(start, base), acts).Some?
    ensures WellNumbered(Run(Init(start, base), acts).value.log)
  {
    Reachable(start, base, acts);
    LooseIsWellNumbered(Run(Init(start, base), acts).value);
  }

  /** The newest state of every session that has a state of this visitor in memory is there too. */
  ghost predicate NotOvertaken(log: seq<Row>, pending: seq<Row>, key: Key) {
    forall r :: PendingState(pending, key, r) ==>
      exists q :: q in pending && q.session == r.session && NewestIn(log, q)
  }

  /** FindPendingAt returns only newest states, for every time it may be asked about, if and only if
      no newer state has overtaken an older one out of memory. */
  lemma PendingLookupRight(log: seq<Row>, pending: seq<Row>, key: Key)
    requires WellNumbered(log) && forall r :: r in pending ==> r in log
    ensures (forall t: int, r :: PendingResult(pending, key, t, Some(r)) ==> NewestIn(log, r))
            <==> NotOvertaken(log, pending, key)
  {
    if forall t: int, r :: PendingResult(pending, key, t, Some(r)) ==> NewestIn(log, r) {
      forall r | PendingState(pending, key, r)
        ensures exists q :: q in pending && q.session == r.session && NewestIn(log, q)
      {
        var q := LatestOf(pending, key, r);
        assert PendingResult(pending, key, q.start, Some(q));
      }
    }
    if NotOvertaken(log, pending, key) {
      forall t: int, r | PendingResult(pending, key, t, Some(r)) ensures NewestIn(log, r) {
        var q :| q in pending && q.session == r.session && NewestIn(log, q);
        assert PendingState(pending, key, q);
        assert q.version == r.version;
      }
    }
  }

  /** Every state of an orderly run meets that condition. */
  lemma InOrderNotOvertaken(start: nat, base: Base, acts: seq<Action>, key: Key)
    requires BaseOk(start, base) && Orderly(Init(start, base), acts) && Run(Init(start, base), acts).Some?
    ensures var s := Run(Init(start, base), acts).value;
            NotOvertaken(s.log, Pending(s), key)
  {
    Reachable(start, base, acts);
    var s := Run(Init(start, base), acts).value;
    forall r | PendingState(Pending(s), key, r)
      ensures exists q :: q in Pending(s) && q.session == r.session && NewestIn(s.log, q)
    {
      PendingHasNewest(s, r);
      NewestInLog(s, r.session);
      NewestOf(s, r.session);
    }
  }

  /** The newest state in memory of the session of `r`. */
  lemma {:induction false} LatestOf(pending: seq<Row>, key: Key, r: Row) returns (q: Row)
    requires PendingState(pending, key, r)
    ensures Latest(pending, key, q) && q.session == r.session
  {
    q := r;
    var i := 0;
    while i < |pending|
      invariant 0 <= i <= |pending|
      invariant PendingState(pending, key, q) && q.session == r.session
      invariant forall j :: 0 <= j < i && PendingState(pending, key, pending[j]) && pending[j].session == r.session
                  ==> pending[j].version <= q.version
    {
      if PendingState(pending, key, pending[i]) && pending[i].session == r.session && pending[i].version > q.version {
        q := pending[i];
      }
      i := i + 1;
    }
  }
}
