/** The inductive invariant of the session pipeline, and what it says about the two lookups. */
module SessionInvariant {
  import opened Common
  import opened SessionRows
  import opened CollapsingTable
  import opened SessionProtocol

  // ---- The invariant -----------------------------------------------------------------

  function Newest(s: State, id: nat): Row
    requires id in s.hist && s.hist[id].rows != []
  {
    Last(s.hist[id].rows)
  }

  /** Every session is a history owned by one visitor, with versions drawn already. */
  ghost predicate HistInv(s: State) {
    forall id :: id in s.hist ==>
      && IsHistory(s.hist[id].rows, s.hist[id].evs)
      && s.hist[id].rows[0].session == id
      && id in s.used && s.used[id] == s.hist[id].rows[0].Visitor()
      && Newest(s, id).version <= s.counter
  }

  /** Two sessions of a visitor never start at the same time. */
  ghost predicate StartInv(s: State) {
    StartsApart(s.hist)
  }

  /** The tombstone of the newest state is written and its successor is not. */
  predicate Dangling(s: State, id: nat)
    requires |s.workers| == WORKERS && id in s.hist && s.hist[id].rows != []
  {
    var p := s.workers[s.hist[id].rows[0].user % WORKERS];
    p.AddingRow? && p.replaced.Some? && p.next.session == id
  }

  function LogLen(s: State, id: nat): nat
    requires |s.workers| == WORKERS && id in s.hist && s.hist[id].rows != []
  {
    2 * |s.hist[id].rows| - if Dangling(s, id) then 0 else 1
  }

  /** The log holds, per session, its states each followed by its tombstone except the newest. */
  ghost predicate LogInv(s: State)
    requires |s.workers| == WORKERS && HistInv(s)
  {
    && (forall id :: id in s.hist ==> SessionLog(s.log, s.hist[id].rows, s.hist[id].evs, LogLen(s, id)))
    && (forall r :: r in s.log ==> r.session in s.hist)
  }

  /** The rows of the batches not yet inserted. */
  function Waiting(batches: seq<Batch>): seq<Row> {
    if batches == [] then []
    else (if batches[0].inserted then [] else batches[0].rows) + Waiting(batches[1..])
  }

  /** Nothing is lost or doubled on the way: table, batches not yet inserted and buffer are the log,
      and what is in memory comes from it. */
  ghost predicate FlowInv(s: State) {
    && multiset(s.log) == multiset(s.table) + multiset(Waiting(s.inflight)) + multiset(s.buffer)
    && forall r :: r in Pending(s) ==> r in s.log
  }

  /** If a state of a session is in memory, so is its newest one. */
  ghost predicate MemoryInv(s: State)
    requires HistInv(s)
  {
    forall id :: id in s.hist && HasState(Pending(s), id) ==> Newest(s, id) in Pending(s)
  }

  predicate Refreshing(s: State, key: Key, id: nat)
    requires |s.workers| == WORKERS
  {
    var p := s.workers[key.user % WORKERS];
    (p.Caching? || p.Storing?) && p.next.session == id
  }

  /** A cached row is the newest state of its session, except while that session's own worker is
      about to replace the entry. */
  ghost predicate CacheInv(s: State)
    requires |s.workers| == WORKERS && HistInv(s)
  {
    forall key :: key in s.cache ==>
      && s.cache[key].Visitor() == key
      && s.cache[key].session in s.hist
      && s.hist[s.cache[key].session].rows[0].Visitor() == key
      && (s.cache[key] == Newest(s, s.cache[key].session) || Refreshing(s, key, s.cache[key].session))
  }

  /** `r` is the newest state of a session of the event's visitor whose window contains it. */
  ghost predicate Current(s: State, e: Event, r: Row)
    requires HistInv(s)
  {
    r.session in s.hist && r == Newest(s, r.session) && r.Visitor() == e.Visitor() && Contains(r, e.ts)
  }

  /** No session of the visitor that the database may still return contains the event. */
  ghost predicate NoneCurrent(s: State, e: Event)
    requires HistInv(s)
  {
    forall id :: id in s.hist && Newest(s, id).Visitor() == e.Visitor() && Contains(Newest(s, id), e.ts)
                 ==> Newest(s, id).start < e.ts - LOOKBACK
  }

  /** No session of the visitor with a state in memory contains the event. */
  ghost predicate MemoryExcludes(s: State, e: Event)
    requires HistInv(s)
  {
    forall id :: id in s.hist && Newest(s, id).Visitor() == e.Visitor() && HasState(Pending(s), id)
                 ==> !Contains(Newest(s, id), e.ts)
  }

  ghost predicate Writing(s: State, e: Event, prior: Row, next: Row)
    requires HistInv(s)
  {
    Current(s, e, prior) && Follows(prior, e, next) && next.version <= s.counter
  }

  ghost predicate PhaseOk(s: State, w: nat, p: Phase)
    requires HistInv(s)
  {
    && (!p.Idle? ==> p.e.user % WORKERS == w)
    && match p
       case Idle => true
       case Begun(e) => true
       case NeedPending(e) => true
       case NeedTable(e) => MemoryExcludes(s, e)
       case Chosen(e, None) => NoneCurrent(s, e)
       case Chosen(e, Some(r)) => Current(s, e, r)
       case AddingTombstone(e, prior, next) => Writing(s, e, prior, next)
       case AddingRow(e, Some(prior), next) => Writing(s, e, prior, next)
       case AddingRow(e, None, next) =>
         && !e.Engagement() && next == NewRow(e, next.session, next.version)
         && next.session in s.used && s.used[next.session] == e.Visitor() && next.session !in s.hist
         && next.version <= s.counter && NoneCurrent(s, e)
       case Caching(e, next) =>
         next.session in s.hist && next == Newest(s, next.session) && next.Visitor() == e.Visitor()
       case Storing(e, next) =>
         next.session in s.hist && next == Newest(s, next.session) && next.Visitor() == e.Visitor()
  }

  ghost predicate WorkersInv(s: State)
    requires HistInv(s)
  {
    forall w :: 0 <= w < |s.workers| ==> PhaseOk(s, w, s.workers[w])
  }

  ghost predicate Inv(s: State) {
    && |s.workers| == WORKERS && HistInv(s) && StartInv(s) && LogInv(s) && FlowInv(s) && MemoryInv(s)
    && CacheInv(s) && WorkersInv(s)
  }

  lemma NewestOf(s: State, id: nat)
    requires HistInv(s) && id in s.hist
    ensures Newest(s, id).session == id && Newest(s, id).Visitor() == s.hist[id].rows[0].Visitor()
    ensures Newest(s, id).sign == 1
  {
    HistoryGrows(s.hist[id].rows, s.hist[id].evs, 0, |s.hist[id].rows| - 1);
  }

  // ---- Where the rows are ------------------------------------------------------------

  lemma {:induction false} FlattenAppend(a: seq<Batch>, b: Batch)
    ensures Flatten(a + [b]) == Flatten(a) + b.rows
    ensures Waiting(a + [b]) == Waiting(a) + if b.inserted then [] else b.rows
  {
    if a == [] {
      assert a + [b] == [b];
    } else {
      FlattenAppend(a[1..], b);
      assert (a + [b])[1..] == a[1..] + [b];
    }
  }

  lemma {:induction false} WaitingInFlatten(batches: seq<Batch>)
    ensures forall r :: r in Waiting(batches) ==> r in Flatten(batches)
  {
    if batches != [] {
      WaitingInFlatten(batches[1..]);
    }
  }

  ghost predicate Consistent(s: State) {
    |s.workers| == WORKERS && HistInv(s) && LogInv(s) && FlowInv(s)
  }

  lemma TableInLog(s: State)
    requires FlowInv(s)
    ensures multiset(s.table) <= multiset(s.log)
    ensures forall r :: r in s.log && r !in Pending(s) ==> r in s.table
    ensures forall r :: r in s.table ==> r in s.log
  {
    WaitingInFlatten(s.inflight);
    forall r | r in s.log && r !in Pending(s) ensures r in s.table {
      assert r in multiset(s.log);
    }
    forall r | r in s.table ensures r in s.log {
      assert r in multiset(s.table);
      assert r in multiset(s.log);
    }
  }

  lemma PendingHasNewest(s: State, r: Row)
    requires Consistent(s) && MemoryInv(s) && r in Pending(s) && r.sign == 1
    ensures r.session in s.hist && Newest(s, r.session) in Pending(s)
  {
    assert r in s.log;
    assert HasState(Pending(s), r.session);
  }

  lemma VersionBound(s: State, q: Row)
    requires Consistent(s) && q in s.log && q.sign == 1
    ensures q.session in s.hist && q.version <= Newest(s, q.session).version
    ensures q.version == Newest(s, q.session).version ==> q == Newest(s, q.session)
    ensures q.Visitor() == Newest(s, q.session).Visitor()
    ensures forall t :: Contains(q, t) ==> Contains(Newest(s, q.session), t)
  {
    var h := s.hist[q.session];
    var i := LogRowOf(s.log, h.rows, h.evs, LogLen(s, q.session), q);
    HistoryGrows(h.rows, h.evs, i, |h.rows| - 1);
  }

  // ---- The two lookups find the newest state -----------------------------------------

  lemma NewestIsLatest(s: State, key: Key, id: nat)
    requires Consistent(s) && MemoryInv(s) && id in s.hist && Newest(s, id).Visitor() == key && HasState(Pending(s), id)
    ensures Latest(Pending(s), key, Newest(s, id))
  {
    var r :| r in Pending(s) && r.session == id && r.sign == 1;
    PendingHasNewest(s, r);
    NewestOf(s, id);
    forall q | PendingState(Pending(s), key, q) && q.session == id
      ensures q.version <= Newest(s, id).version
    {
      VersionBound(s, q);
    }
  }

  /** FindPendingAt returns the newest state of a session containing the event; when it returns
      nothing, no session with a state in memory contains it. */
  lemma PendingLookup(s: State, e: Event, res: Option<Row>)
    requires Consistent(s) && MemoryInv(s)
    requires PendingResult(Pending(s), e.Visitor(), e.ts, res)
    ensures res.Some? ==> Current(s, e, res.value)
    ensures res.None? ==> MemoryExcludes(s, e)
  {
    match res
    case None =>
      forall id | id in s.hist && Newest(s, id).Visitor() == e.Visitor() && HasState(Pending(s), id)
        ensures !Contains(Newest(s, id), e.ts)
      {
        NewestIsLatest(s, e.Visitor(), id);
      }
    case Some(r) =>
      VersionBound(s, r);
      PendingHasNewest(s, r);
      NewestOf(s, r.session);
      assert PendingState(Pending(s), e.Visitor(), Newest(s, r.session));
  }

  /** The newest state of a session that has left memory is what the database sees of it. */
  lemma GoneIsLive(s: State, id: nat)
    requires Consistent(s) && id in s.hist && !Dangling(s, id) && !HasState(Pending(s), id)
    ensures Live(s.table, Newest(s, id))
  {
    TableInLog(s);
    NewestOf(s, id);
    var h := s.hist[id];
    assert Zig(h.rows, LogLen(s, id))[2 * |h.rows| - 2] == Newest(s, id);
    OfMembers(s.log, id);
    NewestIsLive(s.table, s.log, h.rows, h.evs);
  }

  /** GetActiveSessionAt, called after FindPendingAt found nothing, returns the newest state of its
      session even though rows moved from memory to the table in between, in any order, and of the sessions
      of the visitor that contain the event and started in the seven days before it the one that started
      last; and nothing only if no session it may still return contains the event. */
  lemma TableLookup(s: State, e: Event, res: Option<Row>)
    requires Consistent(s) && MemoryExcludes(s, e)
    requires s.workers[e.user % WORKERS] == NeedTable(e)
    requires TableResult(s.table, e.Visitor(), e.ts, res)
    ensures res.Some? ==> Current(s, e, res.value)
    ensures res.None? ==> NoneCurrent(s, e)
    ensures res.Some? ==>
              var r := res.value;
              && r.user == e.user && r.site == e.site
              && e.ts - 604_800_000_000_000 <= r.start <= e.ts <= r.ts + 1_800_000_000_000
              && forall id :: id in s.hist && Newest(s, id).user == e.user && Newest(s, id).site == e.site
                              && e.ts - 604_800_000_000_000 <= Newest(s, id).start <= e.ts
                              && e.ts <= Newest(s, id).ts + 1_800_000_000_000 ==>
                   Precedes(Newest(s, id), r)
  {
    match res
    case None =>
      forall id | id in s.hist && Newest(s, id).Visitor() == e.Visitor() && Contains(Newest(s, id), e.ts)
        ensures Newest(s, id).start < e.ts - LOOKBACK
      {
        NewestSeen(s, e, id);
      }
    case Some(r) =>
      TableInLog(s);
      VersionBound(s, r);
      NewestOf(s, r.session);
      assert !HasState(Pending(s), r.session);
      GoneIsLive(s, r.session);
      StartFixed(s, r);
      assert Candidate(s.table, e.Visitor(), e.ts, Newest(s, r.session));
      forall id | id in s.hist && Newest(s, id).Visitor() == e.Visitor() && Contains(Newest(s, id), e.ts)
                  && e.ts - LOOKBACK <= Newest(s, id).start
        ensures Precedes(Newest(s, id), r)
      {
        NewestOf(s, id);
        assert !HasState(Pending(s), id);
        GoneIsLive(s, id);
        assert Candidate(s.table, e.Visitor(), e.ts, Newest(s, id));
      }
  }

  lemma StartFixed(s: State, r: Row)
    requires Consistent(s) && r in s.log && r.sign == 1
    ensures r.session in s.hist && r.start == Newest(s, r.session).start
  {
    var h := s.hist[r.session];
    var i := LogRowOf(s.log, h.rows, h.evs, LogLen(s, r.session), r);
    HistoryGrows(h.rows, h.evs, i, |h.rows| - 1);
  }

  lemma NewestSeen(s: State, e: Event, id: nat)
    requires Consistent(s) && MemoryExcludes(s, e)
    requires s.workers[e.user % WORKERS] == NeedTable(e)
    requires TableResult(s.table, e.Visitor(), e.ts, None)
    requires id in s.hist && Newest(s, id).Visitor() == e.Visitor() && Contains(Newest(s, id), e.ts)
    ensures Newest(s, id).start < e.ts - LOOKBACK
  {
    NewestOf(s, id);
    assert !HasState(Pending(s), id);
    GoneIsLive(s, id);
    assert !Candidate(s.table, e.Visitor(), e.ts, Newest(s, id));
  }
}
