/** What the session pipeline guarantees in every orderly run, whatever earlier processes left in the
    table. */
module SessionTheorems {
  import opened Common
  import opened SessionRows
  import opened SessionFold
  import opened CollapsingTable
  import opened SessionProtocol
  import opened SessionInvariant
  import opened SessionSteps

  // ---- Sums over the log and over what the workers still owe it ------------------------

  datatype Measure = Events | Pageviews | Sessions

  function Weight(m: Measure, r: Row): int {
    match m
    case Events => r.events
    case Pageviews => r.pageviews
    case Sessions => 1
  }

  /** The sum of sign * column over all rows. */
  function Total(log: seq<Row>, m: Measure): int {
    if log == [] then 0 else Total(log[..|log| - 1], m) + Last(log).sign * Weight(m, Last(log))
  }

  function PageviewCalls(accepted: seq<(Event, nat)>): nat {
    if accepted == [] then 0
    else PageviewCalls(accepted[..|accepted| - 1]) + if Last(accepted).0.name == "pageview" then 1 else 0
  }

  /** What the sum must be: calls that returned a session, those that were pageviews, sessions. */
  function Tally(s: State, m: Measure): int {
    match m
    case Events => |s.accepted|
    case Pageviews => PageviewCalls(s.accepted)
    case Sessions => |s.hist|
  }

  /** What the log lacks because of a worker between two of its steps. */
  function Owed(p: Phase, m: Measure): int {
    match p
    case AddingRow(e, Some(prior), next) => Weight(m, prior)
    case Caching(e, next) => Early(m, e)
    case Storing(e, next) => Early(m, e)
    case _ => 0
  }

  function Early(m: Measure, e: Event): int {
    match m
    case Events => -1
    case Pageviews => if e.name == "pageview" then -1 else 0
    case Sessions => 0
  }

  function SumOwed(workers: seq<Phase>, m: Measure): int {
    if workers == [] then 0 else SumOwed(workers[..|workers| - 1], m) + Owed(Last(workers), m)
  }

  /** What the log of earlier processes already summed up to. */
  function Initial(base: Base, m: Measure): int {
    Total(base.log, m) - if m.Sessions? then |base.hist| else 0
  }

  ghost predicate TotalsInv(s: State, base: Base) {
    forall m :: Total(s.log, m) + SumOwed(s.workers, m) == Initial(base, m) + Tally(s, m)
  }

  lemma {:induction false} SumOwedUpdate(workers: seq<Phase>, w: nat, p: Phase, m: Measure)
    requires w < |workers|
    ensures SumOwed(workers[w := p], m) == SumOwed(workers, m) - Owed(workers[w], m) + Owed(p, m)
    decreases |workers|
  {
    var n := |workers| - 1;
    if w == n {
      assert workers[w := p][..n] == workers[..n];
    } else {
      assert workers[w := p][..n] == workers[..n][w := p];
      SumOwedUpdate(workers[..n], w, p, m);
    }
  }

  lemma TotalAppend(log: seq<Row>, r: Row, m: Measure)
    ensures Total(log + [r], m) == Total(log, m) + r.sign * Weight(m, r)
  {
    assert (log + [r])[..|log|] == log;
  }

  // ---- The events of a session are the calls that returned it --------------------------

  function AcceptedOf(accepted: seq<(Event, nat)>, id: nat): seq<Event> {
    if accepted == [] then []
    else AcceptedOf(accepted[..|accepted| - 1], id) + if Last(accepted).1 == id then [Last(accepted).0] else []
  }

  function Returning(s: State, id: nat): seq<Event>
    requires |s.workers| == WORKERS && id in s.hist && s.hist[id].rows != []
  {
    var p := s.workers[s.hist[id].rows[0].user % WORKERS];
    if Touches(p) && p.next.session == id then [p.e] else []
  }

  /** The events of a session that earlier processes accepted. */
  function Earlier(base: Base, id: nat): seq<Event> {
    if id in base.hist then base.hist[id].evs else []
  }

  ghost predicate AcceptedInv(s: State, base: Base)
    requires |s.workers| == WORKERS && HistInv(s)
  {
    && (forall id :: id in s.hist ==>
          s.hist[id].evs == Earlier(base, id) + AcceptedOf(s.accepted, id) + Returning(s, id))
    && (forall a :: a in s.accepted ==> a.1 in s.hist)
    && (forall id :: id in base.hist ==> id in s.hist)
  }

  lemma AcceptedAppend(accepted: seq<(Event, nat)>, e: Event, session: nat, id: nat)
    ensures AcceptedOf(accepted + [(e, session)], id) == AcceptedOf(accepted, id) + if session == id then [e] else []
  {
    assert (accepted + [(e, session)])[..|accepted|] == accepted;
  }

  lemma {:induction false} NoneAccepted(accepted: seq<(Event, nat)>, id: nat)
    requires forall a :: a in accepted ==> a.1 != id
    ensures AcceptedOf(accepted, id) == []
  {
    if accepted != [] {
      assert Last(accepted) in accepted;
      NoneAccepted(accepted[..|accepted| - 1], id);
    }
  }

  // ---- Both are kept by every step -----------------------------------------------------

  /** The change of the log is the change of the tally less the change of what worker `w` owes. */
  predicate Balanced(s: State, t: State, w: nat, m: Measure)
    requires w < |s.workers| == |t.workers|
  {
    Total(t.log, m) - Total(s.log, m) + Owed(t.workers[w], m) - Owed(s.workers[w], m) == Tally(t, m) - Tally(s, m)
  }

  lemma ReadsBalance(s: State, a: Action, m: Measure)
    requires Enabled(s, a)
    requires a.Begin? || a.ReadCache? || a.ReadPending? || a.ReadTable? || a.TableError?
    ensures |Apply(s, a).workers| == |s.workers|
    ensures Balanced(s, Apply(s, a), if a.Begin? then a.e.user % WORKERS else a.w, m)
  {
  }

  lemma DecideBalances(s: State, w: nat, id: nat, m: Measure)
    requires Enabled(s, Decide(w, id))
    ensures Balanced(s, DecideStep(s, w, id), w, m)
  {
  }

  lemma TombstoneBalances(s: State, w: nat, m: Measure)
    requires Enabled(s, AddTombstone(w)) && s.workers[w].prior.sign == 1
    ensures Balanced(s, Apply(s, AddTombstone(w)), w, m)
  {
    TotalAppend(s.log, Tombstone(s.workers[w].prior), m);
  }

  lemma ReturnBalances(s: State, w: nat, e: Event, id: nat, m: Measure)
    requires w < |s.workers| && Touches(s.workers[w]) && s.workers[w].e == e
    ensures Balanced(s, Return(s, w, e, id), w, m)
  {
    var t := Return(s, w, e, id);
    assert t.accepted[..|s.accepted|] == s.accepted;
  }

  lemma UpdateWeight(prior: Row, e: Event, next: Row, m: Measure)
    requires Follows(prior, e, next) && prior.sign == 1
    ensures next.sign == 1 && next.session == prior.session
    ensures Weight(m, next) - Weight(m, prior) + Early(m, e) == 0
  {
  }

  lemma NewWeight(e: Event, next: Row, m: Measure)
    requires next == NewRow(e, next.session, next.version)
    ensures next.sign == 1
    ensures Weight(m, next) + Early(m, e) == if m.Sessions? then 1 else 0
  {
  }

  lemma HistGrows(s: State, w: nat)
    requires Enabled(s, AddRow(w))
    ensures var t, id := AddRowStep(s, w), s.workers[w].next.session;
            |t.hist| == |s.hist| + if id in s.hist then 0 else 1
  {
    var t, id := AddRowStep(s, w), s.workers[w].next.session;
    assert t.hist.Keys == s.hist.Keys + {id};
    if id in s.hist {
      assert t.hist.Keys == s.hist.Keys;
    }
  }

  lemma AddRowBalances(s: State, w: nat, m: Measure)
    requires |s.workers| == WORKERS && HistInv(s) && Enabled(s, AddRow(w)) && PhaseOk(s, w, s.workers[w])
    ensures Balanced(s, AddRowStep(s, w), w, m)
  {
    var AddingRow(e, replaced, next) := s.workers[w];
    TotalAppend(s.log, next, m);
    HistGrows(s, w);
    match replaced
    case Some(prior) =>
      NewestOf(s, prior.session);
      UpdateWeight(prior, e, next, m);
    case None =>
      NewWeight(e, next, m);
  }

  lemma WorkerTotal(s: State, t: State, w: nat, m: Measure, c: int)
    requires w < |s.workers| == |t.workers| && t.workers == s.workers[w := t.workers[w]]
    requires Balanced(s, t, w, m) && Total(s.log, m) + SumOwed(s.workers, m) == c + Tally(s, m)
    ensures Total(t.log, m) + SumOwed(t.workers, m) == c + Tally(t, m)
  {
    SumOwedUpdate(s.workers, w, t.workers[w], m);
  }

  lemma WorkerStep(s: State, a: Action) returns (w: nat)
    requires Enabled(s, a) && !a.Evict? && !a.TakeBatch? && !a.InsertBatch? && !a.LeaveInflight?
    ensures w == (if a.Begin? then a.e.user % WORKERS else a.w) && w < |s.workers| == |Apply(s, a).workers|
    ensures Apply(s, a).workers == s.workers[w := Apply(s, a).workers[w]]
  {
    w := if a.Begin? then a.e.user % WORKERS else a.w;
  }

  lemma FlushTotals(s: State, a: Action, base: Base)
    requires TotalsInv(s, base) && Enabled(s, a) && (a.Evict? || a.TakeBatch? || a.InsertBatch? || a.LeaveInflight?)
    ensures TotalsInv(Apply(s, a), base)
  {
    var t := Apply(s, a);
    assert t.log == s.log && t.workers == s.workers && forall m :: Tally(t, m) == Tally(s, m);
  }

  lemma WorkerTotals(s: State, t: State, w: nat, base: Base)
    requires w < |s.workers| == |t.workers| && t.workers == s.workers[w := t.workers[w]] && TotalsInv(s, base)
    requires forall m :: Balanced(s, t, w, m)
    ensures TotalsInv(t, base)
  {
    forall m ensures Total(t.log, m) + SumOwed(t.workers, m) == Initial(base, m) + Tally(t, m) {
      WorkerTotal(s, t, w, m, Initial(base, m));
    }
  }

  lemma TotalsKept(s: State, a: Action, base: Base)
    requires Inv(s) && TotalsInv(s, base) && Enabled(s, a)
    ensures TotalsInv(Apply(s, a), base)
  {
    hide FlowInv, LogInv, CacheInv, HistInv, TotalsInv, PhaseOk, Balanced;
    if a.Evict? || a.TakeBatch? || a.InsertBatch? || a.LeaveInflight? {
      FlushTotals(s, a, base);
    } else {
      var w := WorkerStep(s, a);
      assert PhaseOk(s, w, s.workers[w]);
      forall m ensures Balanced(s, Apply(s, a), w, m) {
        StepBalances(s, a, w, m);
      }
      WorkerTotals(s, Apply(s, a), w, base);
    }
  }

  lemma StepBalances(s: State, a: Action, w: nat, m: Measure)
    requires |s.workers| == WORKERS && HistInv(s) && Enabled(s, a) && w < WORKERS && PhaseOk(s, w, s.workers[w])
    requires !a.Evict? && !a.TakeBatch? && !a.InsertBatch? && !a.LeaveInflight?
    requires w == (if a.Begin? then a.e.user % WORKERS else a.w)
    ensures |Apply(s, a).workers| == WORKERS && Balanced(s, Apply(s, a), w, m)
  {
    match a {
      case Decide(_, id) => DecideBalances(s, w, id, m);
      case AddTombstone(_) =>
        NewestOf(s, s.workers[w].prior.session);
        TombstoneBalances(s, w, m);
      case AddRow(_) => AddRowBalances(s, w, m);
      case CompareCache(_) => ReturnBalances(s, w, s.workers[w].e, s.workers[w].next.session, m);
      case StoreCache(_) => ReturnBalances(s, w, s.workers[w].e, s.workers[w].next.session, m);
      case _ => ReadsBalance(s, a, m);
    }
  }

  /** Apart from AddRow, a step either completes a call or leaves the calls about to complete alone. */
  lemma CallShape(s: State, a: Action)
    requires Enabled(s, a) && !a.AddRow?
    ensures var t := Apply(s, a);
            && t.hist == s.hist && |t.workers| == |s.workers|
            && if a.StoreCache? || (a.CompareCache? && !t.workers[a.w].Storing?)
               then t.workers == s.workers[a.w := Idle] && Touches(s.workers[a.w])
                    && t.accepted == s.accepted + [(s.workers[a.w].e, s.workers[a.w].next.session)]
               else t.accepted == s.accepted && SameCalls(s, t)
  {
    if a.Evict? || a.TakeBatch? || a.InsertBatch? || a.LeaveInflight? {
      assert Apply(s, a).workers == s.workers;
    } else {
      var w := WorkerStep(s, a);
    }
  }

  predicate SameCalls(s: State, t: State) {
    && |s.workers| == |t.workers|
    && forall v :: 0 <= v < |s.workers| ==>
         && Touches(t.workers[v]) == Touches(s.workers[v])
         && (Touches(s.workers[v]) ==> t.workers[v].e == s.workers[v].e && t.workers[v].next == s.workers[v].next)
  }

  lemma AcceptedKept(s: State, a: Action, base: Base)
    requires Inv(s) && AcceptedInv(s, base) && Enabled(s, a) && HistInv(Apply(s, a))
    ensures |Apply(s, a).workers| == WORKERS && AcceptedInv(Apply(s, a), base)
  {
    if a.AddRow? {
      AddRowAccepted(s, a.w, base);
    } else {
      CallShape(s, a);
      var t := Apply(s, a);
      if t.accepted == s.accepted {
        SameCallsKeep(s, t, base);
      } else {
        assert PhaseOk(s, a.w, s.workers[a.w]);
        ReturnKeeps(s, t, a.w, base);
      }
    }
  }

  lemma Assoc<T>(a: seq<T>, b: seq<T>, c: seq<T>)
    ensures a + b + c == a + (b + c)
  {
  }

  lemma ReturnKeeps(s: State, t: State, w: nat, base: Base)
    requires |s.workers| == WORKERS == |t.workers| && w < WORKERS && Touches(s.workers[w])
    requires HistInv(s) && AcceptedInv(s, base) && HistInv(t) && PhaseOk(s, w, s.workers[w])
    requires t.workers == s.workers[w := Idle] && t.hist == s.hist
    requires t.accepted == s.accepted + [(s.workers[w].e, s.workers[w].next.session)]
    ensures AcceptedInv(t, base)
  {
    NewestOf(s, s.workers[w].next.session);
    forall id | id in t.hist
      ensures t.hist[id].evs == Earlier(base, id) + AcceptedOf(t.accepted, id) + Returning(t, id)
    {
      ReturnAccepted(s, t, w, id);
      Assoc(Earlier(base, id), AcceptedOf(t.accepted, id), Returning(t, id));
      Assoc(Earlier(base, id), AcceptedOf(s.accepted, id), Returning(s, id));
    }
  }

  lemma SameCallsKeep(s: State, t: State, base: Base)
    requires |s.workers| == WORKERS && HistInv(s) && AcceptedInv(s, base) && HistInv(t)
    requires t.hist == s.hist && t.accepted == s.accepted && SameCalls(s, t)
    ensures AcceptedInv(t, base)
  {
    forall id | id in t.hist
      ensures t.hist[id].evs == Earlier(base, id) + AcceptedOf(t.accepted, id) + Returning(t, id)
    {
      assert Returning(t, id) == Returning(s, id);
    }
  }

  lemma ReturnAccepted(s: State, t: State, w: nat, id: nat)
    requires |s.workers| == WORKERS == |t.workers| && w < WORKERS && Touches(s.workers[w])
    requires t.workers == s.workers[w := Idle] && t.hist == s.hist
    requires t.accepted == s.accepted + [(s.workers[w].e, s.workers[w].next.session)]
    requires id in s.hist && s.hist[id].rows != []
    requires s.workers[w].next.session == id ==> s.hist[id].rows[0].user % WORKERS == w
    ensures AcceptedOf(t.accepted, id) + Returning(t, id) == AcceptedOf(s.accepted, id) + Returning(s, id)
  {
    AcceptedAppend(s.accepted, s.workers[w].e, s.workers[w].next.session, id);
    var v := s.hist[id].rows[0].user % WORKERS;
    assert v != w ==> t.workers[v] == s.workers[v];
  }

  lemma AddRowAccepted(s: State, w: nat, base: Base)
    requires Inv(s) && AcceptedInv(s, base) && Enabled(s, AddRow(w)) && HistInv(AddRowStep(s, w))
    ensures |AddRowStep(s, w).workers| == WORKERS && AcceptedInv(AddRowStep(s, w), base)
  {
    hide FlowInv, MemoryInv, StartInv, LogInv, CacheInv, WorkersInv, NoneCurrent, Follows, NewRow, UpdateRow,
         Returning, Earlier, AcceptedOf;
    var t, p := AddRowStep(s, w), s.workers[w];
    ExtendedHistory(s, w);
    forall id | id in t.hist
      ensures t.hist[id].evs == Earlier(base, id) + AcceptedOf(t.accepted, id) + Returning(t, id)
    {
      if id == p.next.session {
        OwnAccepted(s, t, w, id, base);
      } else {
        OtherAccepted(s, t, w, id);
      }
    }
  }

  lemma OtherAccepted(s: State, t: State, w: nat, id: nat)
    requires |s.workers| == WORKERS && HistInv(s) && Enabled(s, AddRow(w)) && t == AddRowStep(s, w)
    requires id in t.hist && id != s.workers[w].next.session && t.hist[id].rows != []
    ensures id in s.hist && t.hist[id] == s.hist[id] && t.accepted == s.accepted && Returning(t, id) == Returning(s, id)
  {
    hide IsHistory, Follows, NewRow, UpdateRow;
    var v := t.hist[id].rows[0].user % WORKERS;
    assert v != w ==> t.workers[v] == s.workers[v];
  }

  lemma OwnAccepted(s: State, t: State, w: nat, id: nat, base: Base)
    requires |s.workers| == WORKERS && HistInv(s) && AcceptedInv(s, base) && Enabled(s, AddRow(w)) &&
               t == AddRowStep(s, w)
    requires id == s.workers[w].next.session && t.hist[id].rows[0].user % WORKERS == w
    requires id in s.hist <==> s.workers[w].replaced.Some?
    requires id in s.hist ==> s.hist[id].rows[0].user % WORKERS == w
    ensures t.hist[id].evs == Earlier(base, id) + AcceptedOf(t.accepted, id) + Returning(t, id)
  {
    assert Returning(t, id) == [s.workers[w].e];
    if id in s.hist {
      assert Returning(s, id) == [];
      assert s.hist[id].evs == Earlier(base, id) + AcceptedOf(s.accepted, id);
    } else {
      NoneAccepted(s.accepted, id);
    }
  }

  lemma InitTotals(start: nat, base: Base)
    ensures TotalsInv(Init(start, base), base)
  {
    var s := Init(start, base);
    forall m ensures Total(s.log, m) + SumOwed(s.workers, m) == Initial(base, m) + Tally(s, m) {
      AllIdleOweNothing(s.workers, m);
    }
  }

  lemma InitAccepted(start: nat, base: Base)
    requires HistInv(Init(start, base))
    ensures |Init(start, base).workers| == WORKERS && AcceptedInv(Init(start, base), base)
  {
    hide IsHistory;
    var s := Init(start, base);
    forall id | id in s.hist
      ensures s.hist[id].evs == Earlier(base, id) + AcceptedOf(s.accepted, id) + Returning(s, id)
    {
      assert s.workers[s.hist[id].rows[0].user % WORKERS].Idle?;
    }
  }

  lemma {:induction false} ReachableAll(start: nat, base: Base, acts: seq<Action>)
    requires BaseOk(start, base) && Orderly(Init(start, base), acts) && Run(Init(start, base), acts).Some?
    ensures var s := Run(Init(start, base), acts).value;
            Inv(s) && TotalsInv(s, base) && AcceptedInv(s, base)
    decreases |acts|
  {
    hide Inv, TotalsInv, AcceptedInv, BaseOk, HistInv, Init;
    Reachable(start, base, acts);
    if acts == [] {
      InitHist(start, base);
      InitTotals(start, base);
      InitAccepted(start, base);
    } else {
      var s := Run(Init(start, base), acts[..|acts| - 1]).value;
      ReachableAll(start, base, acts[..|acts| - 1]);
      StepAll(s, Last(acts), base);
    }
  }

  lemma StepAll(s: State, a: Action, base: Base)
    requires Inv(s) && TotalsInv(s, base) && AcceptedInv(s, base) && Enabled(s, a) && Inv(Apply(s, a))
    ensures TotalsInv(Apply(s, a), base) && AcceptedInv(Apply(s, a), base)
  {
    TotalsKept(s, a, base);
    AcceptedKept(s, a, base);
  }

  lemma {:induction false} AllIdleOweNothing(workers: seq<Phase>, m: Measure)
    requires forall p :: p in workers ==> p.Idle?
    ensures SumOwed(workers, m) == 0
  {
    if workers != [] {
      assert Last(workers) in workers;
      AllIdleOweNothing(workers[..|workers| - 1], m);
    }
  }

  // ---- The theorems --------------------------------------------------------------------

  /** No event of this visitor is being handled. */
  predicate Settled(s: State, key: Key)
    requires |s.workers| == WORKERS
  {
    var p := s.workers[key.user % WORKERS];
    p.Idle? || p.e.Visitor() != key
  }

  ghost predicate NewestIn(log: seq<Row>, r: Row) {
    r in log && r.sign == 1 && forall q :: q in log && q.session == r.session ==> q.version <= r.version
  }

  /** `r` is the one row that the rows of its session cancel to: every replaced state is in the log a second
      time, equal in every column but the sign, and every other row is such a copy. */
  ghost predicate CollapsesTo(log: seq<Row>, r: Row) {
    && NewestIn(log, r)
    && (forall v: nat :: Net(log, r.session, v) == if v == r.version then 1 else 0)
    && (forall q :: q in log && q.session == r.session && q.sign == 1 && q != r ==> q.(sign := -1) in log)
    && (forall q :: q in log && q.session == r.session && q.sign != 1 ==>
          q.sign == -1 && q.(sign := 1) in log && q.(sign := 1) != r)
  }

  lemma NewestInLog(s: State, id: nat)
    requires Consistent(s) && id in s.hist
    ensures NewestIn(s.log, Newest(s, id))
  {
    NewestOf(s, id);
    var h, r := s.hist[id], Newest(s, id);
    assert SessionLog(s.log, h.rows, h.evs, LogLen(s, id));
    OfMembers(s.log, id);
    assert Zig(h.rows, LogLen(s, id))[2 * |h.rows| - 2] == r;
    forall q | q in s.log && q.session == id ensures q.version <= r.version {
      var i := LogRowOf(s.log, h.rows, h.evs, LogLen(s, id), q);
      HistoryGrows(h.rows, h.evs, i, |h.rows| - 1);
    }
  }

  lemma NewestUnique(s: State, r: Row)
    requires Consistent(s) && NewestIn(s.log, r)
    ensures r.session in s.hist && r == Newest(s, r.session)
  {
    NewestInLog(s, r.session);
    NewestOf(s, r.session);
    VersionBound(s, r);
  }

  lemma NetIs(log: seq<Row>, rows: seq<Row>, evs: seq<Event>, v: nat)
    requires rows != [] && SessionLog(log, rows, evs, 2 * |rows| - 1)
    ensures Net(log, Last(rows).session, v) == if v == Last(rows).version then 1 else 0
  {
    hide Count;
    var len, r := 2 * |rows| - 1, Last(rows);
    HistoryGrows(rows, evs, 0, |rows| - 1);
    CountOf(log, r.session, v, 1);
    CountOf(log, r.session, v, -1);
    ZigCounts(rows, evs, len, v);
    if i :| 0 <= i < |rows| && rows[i].version == v {
      HistoryGrows(rows, evs, i, |rows| - 1);
    }
  }

  /** The rows of a session whose visitor has no event in progress cancel to its newest state. */
  lemma SessionCollapses(log: seq<Row>, rows: seq<Row>, evs: seq<Event>)
    requires rows != [] && SessionLog(log, rows, evs, 2 * |rows| - 1)
    ensures CollapsesTo(log, Last(rows))
  {
    var len, r := 2 * |rows| - 1, Last(rows);
    HistoryGrows(rows, evs, 0, |rows| - 1);
    OfMembers(log, r.session);
    assert Zig(rows, len)[2 * |rows| - 2] == r;
    hide IsHistory, Count, Net;
    forall v: nat ensures Net(log, r.session, v) == if v == r.version then 1 else 0 {
      NetIs(log, rows, evs, v);
    }
    forall q | q in log && q.session == r.session
      ensures q.version <= r.version
      ensures q.sign == 1 && q != r ==> q.(sign := -1) in log
      ensures q.sign != 1 ==> q.sign == -1 && q.(sign := 1) in log && q.(sign := 1) != r
    {
      ZigPairs(rows, evs, q);
    }
  }

  lemma ZigPairs(rows: seq<Row>, evs: seq<Event>, q: Row)
    requires rows != [] && IsHistory(rows, evs) && q in Zig(rows, 2 * |rows| - 1)
    ensures q.version <= Last(rows).version
    ensures q.sign == 1 && q != Last(rows) ==> q.(sign := -1) in Zig(rows, 2 * |rows| - 1)
    ensures q.sign != 1 ==>
              q.sign == -1 && q.(sign := 1) in Zig(rows, 2 * |rows| - 1) && q.(sign := 1) != Last(rows)
  {
    var z := Zig(rows, 2 * |rows| - 1);
    var j :| 0 <= j < |z| && z[j] == q;
    HistoryGrows(rows, evs, j / 2, |rows| - 1);
    if j % 2 == 0 {
      if q != Last(rows) {
        assert z[j + 1] == q.(sign := -1);
      }
    } else {
      assert z[j - 1] == rows[j / 2] == q.(sign := 1);
    }
  }

  /** A settled session has no dangling tombstone. */
  lemma SettledLog(s: State, q: Row) returns (h: History)
    requires Inv(s) && q in s.log && Settled(s, q.Visitor())
    ensures q.session in s.hist && h == s.hist[q.session] && Last(h.rows) == Newest(s, q.session)
    ensures h.rows != [] && SessionLog(s.log, h.rows, h.evs, 2 * |h.rows| - 1)
    ensures h.rows[0].session == q.session && h.rows[0].Visitor() == q.Visitor()
  {
    hide FlowInv, MemoryInv, StartInv, CacheInv, NoneCurrent, MemoryExcludes;
    var id := q.session;
    h := s.hist[id];
    var i := LogRowOf(s.log, h.rows, h.evs, LogLen(s, id), q);
    HistoryGrows(h.rows, h.evs, 0, i);
    var w := h.rows[0].user % WORKERS;
    assert PhaseOk(s, w, s.workers[w]);
    if Dangling(s, id) {
      NewestOf(s, id);
    }
  }

  lemma SettledCollapses(s: State, q: Row)
    requires Inv(s) && q in s.log && Settled(s, q.Visitor())
    ensures q.session in s.hist && Newest(s, q.session).Visitor() == q.Visitor() &&
              CollapsesTo(s.log, Newest(s, q.session))
  {
    hide Inv, CollapsesTo;
    var h := SettledLog(s, q);
    HistoryGrows(h.rows, h.evs, 0, |h.rows| - 1);
    SessionCollapses(s.log, h.rows, h.evs);
  }

  /** In every orderly run, whenever no event of its visitor is being handled, the rows ever written for a
      session cancel to exactly one row: its greatest version. */
  lemma EverySessionCollapses(start: nat, base: Base, acts: seq<Action>, q: Row)
    requires BaseOk(start, base) && Orderly(Init(start, base), acts) && Run(Init(start, base), acts).Some?
    requires var s := Run(Init(start, base), acts).value;
             |s.workers| == WORKERS && q in s.log && Settled(s, q.Visitor())
    ensures exists r: Row :: r.session == q.session && r.Visitor() == q.Visitor() &&
              CollapsesTo(Run(Init(start, base), acts).value.log, r)
  {
    hide Run, Orderly, BaseOk, Init, CollapsesTo;
    Reachable(start, base, acts);
    var s := Run(Init(start, base), acts).value;
    SettledCollapses(s, q);
    NewestOf(s, q.session);
  }

  lemma SettledLive(s: State, q: Row)
    requires Inv(s) && Settled(s, q.Visitor()) && multiset(s.table) == multiset(s.log) && q in s.log && q.sign == 1
    ensures Live(s.table, q) <==> NewestIn(s.log, q)
  {
    hide MemoryInv, CacheInv, StartInv, WorkersInv, FlowInv, LogInv, HistInv, IsHistory, SessionLog, Net, Pending;
    assert q in multiset(s.table);
    var h := SettledLog(s, q);
    NewestInLog(s, q.session);
    if q == Last(h.rows) {
      NewestIsLive(s.table, s.log, h.rows, h.evs);
    } else {
      var i := LogRowOf(s.log, h.rows, h.evs, 2 * |h.rows| - 1, q);
      ReplacedIsNotLive(s.table, s.log, h.rows, h.evs, i);
      if NewestIn(s.log, q) {
        NewestUnique(s, q);
      }
    }
  }

  /** Once nothing is in memory any more, a query on the table sees exactly that row. */
  lemma TableShowsNewest(start: nat, base: Base, acts: seq<Action>, q: Row)
    requires BaseOk(start, base) && Orderly(Init(start, base), acts) && Run(Init(start, base), acts).Some?
    requires var s := Run(Init(start, base), acts).value;
             |s.workers| == WORKERS && Settled(s, q.Visitor()) && Pending(s) == []
    ensures var s := Run(Init(start, base), acts).value;
            Live(s.table, q) <==> NewestIn(s.log, q)
  {
    hide Run, Orderly, BaseOk, Init;
    Reachable(start, base, acts);
    var s := Run(Init(start, base), acts).value;
    EmptyPending(s);
    if q in s.log && q.sign == 1 {
      SettledLive(s, q);
    } else if q in s.table {
      assert q in multiset(s.table) && q in multiset(s.log);
    }
  }

  lemma EmptyPending(s: State)
    requires FlowInv(s) && Pending(s) == []
    ensures multiset(s.table) == multiset(s.log)
  {
    WaitingFits(s.inflight);
  }

  lemma {:induction false} WaitingFits(batches: seq<Batch>)
    ensures |Waiting(batches)| <= |Flatten(batches)|
  {
    if batches != [] {
      WaitingFits(batches[1..]);
    }
  }

  /** The state a worker decides to update is the newest version of its session, written by the
      same visitor, and the event falls between its start and 30 minutes after its last event; if it
      decides to open a session, the only newest versions with that property started more than seven
      days before the event. */
  lemma ChosenIsNewest(start: nat, base: Base, acts: seq<Action>, w: nat)
    requires BaseOk(start, base) && Orderly(Init(start, base), acts) && Run(Init(start, base), acts).Some?
    requires var s := Run(Init(start, base), acts).value; w < |s.workers| && s.workers[w].Chosen?
    ensures var s := Run(Init(start, base), acts).value;
            var Chosen(e, found) := s.workers[w];
            match found
            case Some(r) =>
              && NewestIn(s.log, r) && r.user == e.user && r.site == e.site
              && r.start <= e.ts <= r.ts + 1_800_000_000_000
            case None =>
              forall r :: NewestIn(s.log, r) && r.user == e.user && r.site == e.site
                          && r.start <= e.ts <= r.ts + 1_800_000_000_000 ==>
                r.start < e.ts - 604_800_000_000_000
  {
    Reachable(start, base, acts);
    var s := Run(Init(start, base), acts).value;
    assert PhaseOk(s, w, s.workers[w]);
    match s.workers[w].found
    case Some(r) =>
      NewestInLog(s, r.session);
    case None =>
      forall r | NewestIn(s.log, r) && r.Visitor() == s.workers[w].e.Visitor() && Contains(r, s.workers[w].e.ts)
        ensures r.start < s.workers[w].e.ts - LOOKBACK
      {
        NewestUnique(s, r);
      }
  }

  /** A cache entry whose visitor has no event in progress is never stale. */
  lemma CacheIsNewest(start: nat, base: Base, acts: seq<Action>, key: Key)
    requires BaseOk(start, base) && Orderly(Init(start, base), acts) && Run(Init(start, base), acts).Some?
    requires var s := Run(Init(start, base), acts).value;
             |s.workers| == WORKERS && key in s.cache && Settled(s, key)
    ensures var s := Run(Init(start, base), acts).value;
            NewestIn(s.log, s.cache[key]) && s.cache[key].Visitor() == key
  {
    hide Run, Orderly, BaseOk, Init, Inv, NewestIn, Settled;
    Reachable(start, base, acts);
    SettledCache(Run(Init(start, base), acts).value, key);
  }

  lemma SettledCache(s: State, key: Key)
    requires Inv(s) && key in s.cache && Settled(s, key)
    ensures NewestIn(s.log, s.cache[key]) && s.cache[key].Visitor() == key
  {
    hide LogInv, FlowInv, MemoryInv, StartInv, NewestIn, IsHistory;
    assert PhaseOk(s, key.user % WORKERS, s.workers[key.user % WORKERS]);
    NewestOf(s, s.cache[key].session);
    NewestInLog(s, s.cache[key].session);
  }

  /** A process that has handled its calls and written all its rows leaves a table that the next one,
      starting with a counter at least as high, can build on. */
  lemma RestartIsSafe(start: nat, base: Base, acts: seq<Action>, next: nat)
    requires BaseOk(start, base) && Orderly(Init(start, base), acts) && Run(Init(start, base), acts).Some?
    requires var s := Run(Init(start, base), acts).value; Quiet(s) && Pending(s) == [] && next >= s.counter
    ensures var s := Run(Init(start, base), acts).value;
            BaseOk(next, Base(s.log, s.hist)) && multiset(s.table) == multiset(s.log)
  {
    hide Run, Orderly, BaseOk, Init;
    Reachable(start, base, acts);
    var s := Run(Init(start, base), acts).value;
    EmptyPending(s);
    QuietIsBase(s, next);
  }

  lemma HasStates(s: State, id: nat)
    requires HistInv(s) && id in s.hist
    ensures s.hist[id].rows != []
  {
    assert IsHistory(s.hist[id].rows, s.hist[id].evs);
  }

  lemma QuietIsBase(s: State, next: nat)
    requires Inv(s) && Quiet(s) && next >= s.counter
    ensures BaseOk(next, Base(s.log, s.hist))
  {
    hide IsHistory, FlowInv, CacheInv, WorkersInv, MemoryInv, SessionLog;
    forall id | id in s.hist
      ensures s.hist[id].rows != [] && SessionLog(s.log, s.hist[id].rows, s.hist[id].evs, 2 * |s.hist[id].rows| - 1)
    {
      HasStates(s, id);
      assert s.workers[s.hist[id].rows[0].user % WORKERS].Idle?;
      assert SessionLog(s.log, s.hist[id].rows, s.hist[id].evs, LogLen(s, id));
    }
  }

  predicate Quiet(s: State) {
    forall p :: p in s.workers ==> p.Idle?
  }

  function Sessions(log: seq<Row>): set<nat> {
    set r | r in log :: r.session
  }

  lemma HistIsSessions(log: seq<Row>, hist: map<nat, History>)
    requires forall r :: r in log ==> r.session in hist
    requires forall id :: id in hist ==> exists r :: r in log && r.session == id
    ensures Sessions(log) == hist.Keys
  {
  }

  lemma BaseSessions(start: nat, base: Base)
    requires BaseOk(start, base)
    ensures Sessions(base.log) == base.hist.Keys
  {
    hide IsHistory, Sessions, StartsApart;
    forall id | id in base.hist ensures exists r :: r in base.log && r.session == id {
      var h := base.hist[id];
      OfMembers(base.log, id);
      assert Zig(h.rows, 2 * |h.rows| - 1)[0] == h.rows[0];
      assert h.rows[0] in base.log;
    }
    HistIsSessions(base.log, base.hist);
  }

  /** When no call is in progress, this process has added to the table's sums: to the signed sum of
      `events` the number of calls that returned a session, to that of `pageviews` the number of those that
      were pageviews, and to the sum of the signs the number of sessions it opened. */
  lemma Conservation(start: nat, base: Base, acts: seq<Action>)
    requires BaseOk(start, base) && Orderly(Init(start, base), acts) && Run(Init(start, base), acts).Some?
    requires Quiet(Run(Init(start, base), acts).value)
    ensures var s := Run(Init(start, base), acts).value;
            && Total(s.log, Events) == Total(base.log, Events) + |s.accepted|
            && Total(s.log, Pageviews) == Total(base.log, Pageviews) + PageviewCalls(s.accepted)
            && Total(s.log, Measure.Sessions) - |Sessions(s.log)| ==
                 Total(base.log, Measure.Sessions) - |Sessions(base.log)|
  {
    ReachableAll(start, base, acts);
    var s := Run(Init(start, base), acts).value;
    forall m ensures Total(s.log, m) == Initial(base, m) + Tally(s, m) {
      AllIdleOweNothing(s.workers, m);
    }
    BaseSessions(start, base);
    forall id | id in s.hist ensures exists r :: r in s.log && r.session == id {
      NewestInLog(s, id);
      NewestOf(s, id);
      assert Newest(s, id) in s.log;
    }
    HistIsSessions(s.log, s.hist);
  }

  /** The row a session has cancelled to is the fold of exactly the events whose OnEvent call
      returned that session, in the order of their calls, after those of earlier processes. */
  lemma RowIsFoldOfCalls(start: nat, base: Base, acts: seq<Action>, r: Row)
    requires BaseOk(start, base) && Orderly(Init(start, base), acts) && Run(Init(start, base), acts).Some?
    requires var s := Run(Init(start, base), acts).value;
             |s.workers| == WORKERS && NewestIn(s.log, r) && Settled(s, r.Visitor())
    ensures var evs := Earlier(base, r.session) + AcceptedOf(Run(Init(start, base), acts).value.accepted, r.session);
            && evs != [] && Counts(r, evs)
            && (exists k: nat :: LastExit(evs, k) && r.exitPage == evs[k].path)
            && FirstOffered(evs, (e: Event) => e.path, true, r.entryPage)
            && FirstOffered(evs, (e: Event) => e.host, false, r.host)
  {
    hide Run, Orderly, BaseOk, Init;
    ReachableAll(start, base, acts);
    RowIsFold(Run(Init(start, base), acts).value, base, r);
  }

  lemma RowIsFold(s: State, base: Base, r: Row)
    requires Inv(s) && AcceptedInv(s, base) && NewestIn(s.log, r) && Settled(s, r.Visitor())
    ensures var evs := Earlier(base, r.session) + AcceptedOf(s.accepted, r.session);
            && evs != [] && Counts(r, evs)
            && (exists k: nat :: LastExit(evs, k) && r.exitPage == evs[k].path)
            && FirstOffered(evs, (e: Event) => e.path, true, r.entryPage)
            && FirstOffered(evs, (e: Event) => e.host, false, r.host)
  {
    NewestUnique(s, r);
    var h := s.hist[r.session];
    SettledReturns(s, base, r.session);
    RowCounts(h.rows, h.evs);
    RowPages(h.rows, h.evs);
  }

  lemma SettledReturns(s: State, base: Base, id: nat)
    requires Inv(s) && AcceptedInv(s, base) && id in s.hist && Settled(s, Newest(s, id).Visitor())
    ensures s.hist[id].evs == Earlier(base, id) + AcceptedOf(s.accepted, id)
  {
    hide AcceptedOf;
    NotReturning(s, id);
    assert s.hist[id].evs == Earlier(base, id) + AcceptedOf(s.accepted, id) + Returning(s, id);
  }

  lemma NotReturning(s: State, id: nat)
    requires |s.workers| == WORKERS && HistInv(s) && WorkersInv(s)
    requires id in s.hist && Settled(s, Newest(s, id).Visitor())
    ensures Returning(s, id) == []
  {
    NewestOf(s, id);
    hide Follows, NoneCurrent, MemoryExcludes, IsHistory, Current;
    var w := s.hist[id].rows[0].user % WORKERS;
    assert PhaseOk(s, w, s.workers[w]);
  }
}
