/** Every step of the session pipeline keeps the invariant, as long as no batch leaves `inflight` before
    an older state of one of its sessions does. */
module SessionSteps {
  import opened Common
  import opened SessionRows
  import opened CollapsingTable
  import opened SessionProtocol
  import opened SessionInvariant

  predicate Owns(w: nat, s: State, id: nat)
    requires id in s.hist && s.hist[id].rows != []
  {
    s.hist[id].rows[0].user % WORKERS == w
  }

  /** What the sessions of worker `w` look like did not change, and no state moved back to memory. */
  ghost predicate SameFor(w: nat, s: State, t: State)
    requires HistInv(s) && HistInv(t)
  {
    && s.counter <= t.counter
    && (forall id :: id in s.used ==> id in t.used && t.used[id] == s.used[id])
    && (forall id :: id in s.hist && Owns(w, s, id) ==> id in t.hist && t.hist[id] == s.hist[id])
    && (forall id :: id in t.hist && Owns(w, t, id) ==> id in s.hist)
    && (forall id :: id in t.hist && Owns(w, t, id) && HasState(Pending(t), id) ==> HasState(Pending(s), id))
  }

  lemma PhaseKept(s: State, t: State, w: nat, p: Phase)
    requires HistInv(s) && HistInv(t) && SameFor(w, s, t) && PhaseOk(s, w, p)
    ensures PhaseOk(t, w, p)
  {
    if !p.Idle? {
      forall id | id in t.hist && Newest(t, id).Visitor() == p.e.Visitor()
        ensures Owns(w, t, id) && id in s.hist && t.hist[id] == s.hist[id]
      {
        NewestOf(t, id);
      }
      forall id | id in s.hist && Newest(s, id).Visitor() == p.e.Visitor()
        ensures id in t.hist && t.hist[id] == s.hist[id]
      {
        NewestOf(s, id);
      }
      if p.AddingRow? && p.replaced.None? {
        assert t.used[p.next.session] == p.e.Visitor();
      }
    }
  }

  lemma AllKept(s: State, t: State)
    requires HistInv(s) && HistInv(t) && WorkersInv(s) && t.workers == s.workers
    requires t.hist == s.hist && t.used == s.used && t.counter == s.counter
    requires forall r :: r in Pending(t) ==> r in Pending(s)
    ensures WorkersInv(t)
  {
    forall v | 0 <= v < |t.workers| ensures PhaseOk(t, v, t.workers[v]) {
      assert PhaseOk(s, v, s.workers[v]);
      StatesStay(s, t);
      PhaseKept(s, t, v, s.workers[v]);
    }
  }

  lemma StatesStay(s: State, t: State)
    requires forall r :: r in Pending(t) ==> r in Pending(s)
    ensures forall id :: HasState(Pending(t), id) ==> HasState(Pending(s), id)
  {
    forall id | HasState(Pending(t), id) ensures HasState(Pending(s), id) {
      var r :| r in Pending(t) && r.session == id && r.sign == 1;
      assert r in Pending(s);
    }
  }

  predicate HasTombstone(p: Phase) {
    p.AddingRow? && p.replaced.Some?
  }

  /** The log of every session is as it should be if neither it nor the histories changed. */
  lemma LogKept(s: State, t: State)
    requires Inv(s) && HistInv(t) && t.hist == s.hist && t.log == s.log && |t.workers| == WORKERS
    requires forall w :: 0 <= w < WORKERS ==>
               t.workers[w] == s.workers[w] || (!HasTombstone(s.workers[w]) && !HasTombstone(t.workers[w]))
    ensures LogInv(t)
  {
    forall id | id in t.hist ensures SessionLog(t.log, t.hist[id].rows, t.hist[id].evs, LogLen(t, id)) {
      assert SessionLog(s.log, s.hist[id].rows, s.hist[id].evs, LogLen(s, id));
      assert t.hist[id] == s.hist[id];
      var w := s.hist[id].rows[0].user % WORKERS;
      assert t.workers[w] == s.workers[w] || (!HasTombstone(s.workers[w]) && !HasTombstone(t.workers[w]));
    }
  }

  lemma OthersKept(s: State, t: State, w: nat)
    requires Inv(s) && HistInv(t) && w < WORKERS == |t.workers| && t.workers == s.workers[w := t.workers[w]]
    requires forall v :: 0 <= v < WORKERS && v != w ==> SameFor(v, s, t)
    requires PhaseOk(t, w, t.workers[w])
    ensures WorkersInv(t)
  {
    forall v | 0 <= v < WORKERS ensures PhaseOk(t, v, t.workers[v]) {
      if v != w {
        assert t.workers[v] == s.workers[v];
        PhaseKept(s, t, v, s.workers[v]);
      }
    }
  }

  lemma HistKept(s: State, t: State)
    requires HistInv(s) && t.hist == s.hist && s.counter <= t.counter
    requires forall id :: id in s.used ==> id in t.used && t.used[id] == s.used[id]
    ensures HistInv(t)
  {
    forall id | id in t.hist
      ensures IsHistory(t.hist[id].rows, t.hist[id].evs) && t.hist[id].rows[0].session == id
      ensures id in t.used && t.used[id] == t.hist[id].rows[0].Visitor()
      ensures Newest(t, id).version <= t.counter
    {
      assert id in s.hist && t.hist[id] == s.hist[id];
    }
  }

  /** A step that writes no row and changes no history. */
  lemma QuietStep(s: State, t: State, w: nat)
    requires Inv(s) && w < WORKERS && |t.workers| == WORKERS
    requires t.workers == s.workers[w := t.workers[w]]
    requires t.hist == s.hist && t.log == s.log && t.buffer == s.buffer
    requires t.inflight == s.inflight && t.table == s.table
    requires s.counter <= t.counter && forall id :: id in s.used ==> id in t.used && t.used[id] == s.used[id]
    requires t.workers[w] == s.workers[w] || (!HasTombstone(s.workers[w]) && !HasTombstone(t.workers[w]))
    requires HistInv(t) ==> PhaseOk(t, w, t.workers[w])
    requires HistInv(t) ==> CacheInv(t)
    ensures Inv(t)
  {
    hide IsHistory, NewRow, UpdateRow, Follows;
    HistKept(s, t);
    LogKept(s, t);
    assert Pending(t) == Pending(s);
    MemoryKept(s, t);
    OthersKept(s, t, w);
  }

  /** Memory holds the newest states it should as long as no newest state leaves it. */
  lemma MemoryKept(s: State, t: State)
    requires HistInv(s) && HistInv(t) && MemoryInv(s) && t.hist == s.hist
    requires forall r :: r in Pending(s) ==> r in Pending(t)
    requires forall id :: HasState(Pending(t), id) ==> HasState(Pending(s), id)
    ensures MemoryInv(t)
  {
  }

  predicate Touches(p: Phase) {
    p.Caching? || p.Storing?
  }

  /** Cache entries stay right when a worker is in neither half of updateSessionCache. */
  lemma CacheKept(s: State, t: State, w: nat)
    requires Inv(s) && w < WORKERS && |t.workers| == WORKERS && HistInv(t)
    requires t.workers == s.workers[w := t.workers[w]] && t.hist == s.hist
    requires !Touches(s.workers[w]) || (Touches(t.workers[w]) && s.workers[w].next == t.workers[w].next)
    requires forall key :: key in t.cache ==> key in s.cache && t.cache[key] == s.cache[key]
    ensures CacheInv(t)
  {
    forall key | key in t.cache
      ensures t.cache[key] == Newest(t, t.cache[key].session) || Refreshing(t, key, t.cache[key].session)
    {
      var v := key.user % WORKERS;
      assert v != w ==> t.workers[v] == s.workers[v];
    }
  }

  lemma ReadSteps(s: State, a: Action)
    requires Inv(s) && Enabled(s, a)
    requires a.Begin? || a.ReadCache? || a.ReadPending? || a.ReadTable? || a.TableError?
    ensures Inv(Apply(s, a))
  {
    hide FlowInv, LogInv, StartInv, Follows, UpdateRow, NewRow;
    var t := Apply(s, a);
    var w := if a.Begin? then a.e.user % WORKERS else a.w;
    assert PhaseOk(s, w, s.workers[w]);
    if HistInv(t) {
      CacheKept(s, t, w);
    }
    match a {
      case Begin(e) =>
      case ReadCache(_) =>
        var e := s.workers[w].e;
        if t.workers[w].Chosen? {
          assert !Refreshing(s, e.Visitor(), s.cache[e.Visitor()].session);
        }
      case ReadPending(_, res) => PendingLookup(s, s.workers[w].e, res);
      case ReadTable(_, res) => TableLookup(s, s.workers[w].e, res);
      case TableError(_) =>
    }
    QuietStep(s, t, w);
  }

  lemma DecideKeeps(s: State, w: nat, id: nat)
    requires Inv(s) && Enabled(s, Decide(w, id))
    ensures Inv(Apply(s, Decide(w, id)))
  {
    hide FlowInv, LogInv, MemoryInv, StartInv, IsHistory, DurationSeconds;
    var t := DecideStep(s, w, id);
    var e := s.workers[w].e;
    assert PhaseOk(s, w, s.workers[w]);
    assert s.workers[w].found.None? ==> id !in s.hist;
    if HistInv(t) {
      CacheKept(s, t, w);
    }
    match s.workers[w].found {
      case None =>
      case Some(r) =>
        NewestOf(s, r.session);
    }
    QuietStep(s, t, w);
  }

  lemma CompareKeeps(s: State, w: nat)
    requires Inv(s) && Enabled(s, CompareCache(w))
    ensures Inv(Apply(s, CompareCache(w)))
  {
    hide FlowInv, LogInv, Follows;
    var t := Apply(s, CompareCache(w));
    var next := s.workers[w].next;
    assert PhaseOk(s, w, s.workers[w]);
    if HistInv(t) {
      if t.workers[w].Storing? {
        CacheKept(s, t, w);
      } else {
        // The entry kept is of another session, so it is that session's newest state.
        forall key | key in t.cache
          ensures t.cache[key] == Newest(t, t.cache[key].session) || Refreshing(t, key, t.cache[key].session)
        {
          NewestOf(s, next.session);
          var v := key.user % WORKERS;
          assert v != w ==> t.workers[v] == s.workers[v];
        }
      }
    }
    QuietStep(s, t, w);
  }

  lemma StoreKeeps(s: State, w: nat)
    requires Inv(s) && Enabled(s, StoreCache(w))
    ensures Inv(Apply(s, StoreCache(w)))
  {
    var t := Apply(s, StoreCache(w));
    var next := s.workers[w].next;
    assert PhaseOk(s, w, s.workers[w]);
    NewestOf(s, next.session);
    if HistInv(t) {
      forall key | key in t.cache
        ensures t.cache[key].Visitor() == key && t.cache[key].session in t.hist
        ensures t.hist[t.cache[key].session].rows[0].Visitor() == key
        ensures t.cache[key] == Newest(t, t.cache[key].session) || Refreshing(t, key, t.cache[key].session)
      {
        if key != next.Visitor() {
          var v := key.user % WORKERS;
          assert v != w ==> t.workers[v] == s.workers[v];
        }
      }
    }
    QuietStep(s, t, w);
  }

  lemma EvictKeeps(s: State, key: Key)
    requires Inv(s) && Enabled(s, Evict(key))
    ensures Inv(Apply(s, Evict(key)))
  {
    var t := Apply(s, Evict(key));
    HistKept(s, t);
    LogKept(s, t);
    CacheKept(s, t, 0);
    assert Pending(t) == Pending(s);
    MemoryKept(s, t);
    AllKept(s, t);
  }

  // ---- Adding rows -------------------------------------------------------------------

  lemma FlowAdd(s: State, t: State, r: Row)
    requires FlowInv(s)
    requires t.log == s.log + [r] && t.buffer == s.buffer + [r] && t.inflight == s.inflight && t.table == s.table
    ensures FlowInv(t) && Pending(t) == Pending(s) + [r]
  {
    assert Pending(t) == Pending(s) + [r];
    var waiting := multiset(Waiting(s.inflight));
    assert multiset(t.log) == multiset(s.log) + multiset{r};
    assert multiset(t.buffer) == multiset(s.buffer) + multiset{r};
  }

  /** The other sessions do not notice a row added for session `r.session`. */
  lemma OtherSessions(s: State, t: State, r: Row, w: nat, id: nat)
    requires HistInv(s) && |s.workers| == WORKERS && LogInv(s) && HistInv(t) && |t.workers| == WORKERS && w < WORKERS
    requires t.workers == s.workers[w := t.workers[w]] && t.log == s.log + [r]
    requires id in s.hist && id in t.hist && t.hist[id] == s.hist[id] && r.session != id
    requires s.workers[w].AddingRow? || s.workers[w].AddingTombstone?
    requires s.workers[w].next.session == r.session
    requires t.workers[w].AddingRow? ==> t.workers[w].next.session == r.session
    ensures SessionLog(t.log, t.hist[id].rows, t.hist[id].evs, LogLen(t, id))
  {
    var v := s.hist[id].rows[0].user % WORKERS;
    assert v != w ==> t.workers[v] == s.workers[v];
    assert LogLen(s, id) == LogLen(t, id);
    OtherSession(s.log, r, s.hist[id].rows, s.hist[id].evs, LogLen(s, id));
  }

  lemma AddTombstoneSession(s: State, t: State, w: nat, e: Event, prior: Row, next: Row, id: nat)
    requires |s.workers| == WORKERS && HistInv(s) && LogInv(s) && HistInv(t) && w < WORKERS
    requires s.workers[w] == AddingTombstone(e, prior, next) &&
               t.workers == s.workers[w := AddingRow(e, Some(prior), next)]
    requires t.log == s.log + [Tombstone(prior)] && t.hist == s.hist && id in s.hist
    requires prior.session in s.hist && prior == Newest(s, prior.session)
    requires prior.user % WORKERS == w && next.session == prior.session
    ensures SessionLog(t.log, t.hist[id].rows, t.hist[id].evs, LogLen(t, id))
  {
    hide Follows;
    NewestOf(s, prior.session);
    if id == prior.session {
      assert SessionLog(s.log, s.hist[id].rows, s.hist[id].evs, LogLen(s, id));
      NextTombstone(s.log, s.hist[id].rows, s.hist[id].evs);
    } else {
      OtherSessions(s, t, Tombstone(prior), w, id);
    }
  }

  lemma AddTombstoneLog(s: State, w: nat)
    requires Inv(s) && Enabled(s, AddTombstone(w))
    ensures var t := Apply(s, AddTombstone(w));
            |t.workers| == WORKERS && HistInv(t) && LogInv(t)
  {
    var t := Apply(s, AddTombstone(w));
    var AddingTombstone(e, prior, next) := s.workers[w];
    assert PhaseOk(s, w, s.workers[w]);
    HistKept(s, t);
    forall id | id in t.hist ensures SessionLog(t.log, t.hist[id].rows, t.hist[id].evs, LogLen(t, id)) {
      AddTombstoneSession(s, t, w, e, prior, next, id);
    }
  }

  lemma AddTombstonePhase(s: State, w: nat)
    requires Inv(s) && Enabled(s, AddTombstone(w)) && HistInv(Apply(s, AddTombstone(w)))
    ensures PhaseOk(Apply(s, AddTombstone(w)), w, Apply(s, AddTombstone(w)).workers[w])
  {
    assert PhaseOk(s, w, s.workers[w]);
  }

  lemma AddTombstoneKeeps(s: State, w: nat)
    requires Inv(s) && Enabled(s, AddTombstone(w))
    ensures Inv(Apply(s, AddTombstone(w)))
  {
    hide LogInv, PhaseOk, Follows;
    var t := Apply(s, AddTombstone(w));
    var r := Tombstone(s.workers[w].prior);
    AddTombstoneLog(s, w);
    AddTombstonePhase(s, w);
    FlowAdd(s, t, r);
    AddTombstoneMemory(s, t, r);
    CacheKept(s, t, w);
    AddTombstoneOthers(s, t, r);
    OthersKept(s, t, w);
  }

  lemma AddTombstoneMemory(s: State, t: State, r: Row)
    requires HistInv(s) && HistInv(t) && MemoryInv(s) && t.hist == s.hist
    requires Pending(t) == Pending(s) + [r] && r.sign == -1
    ensures MemoryInv(t)
  {
    forall id | HasState(Pending(t), id) ensures HasState(Pending(s), id) {
      var q :| q in Pending(t) && q.session == id && q.sign == 1;
      assert q in Pending(s);
    }
    MemoryKept(s, t);
  }

  lemma AddTombstoneOthers(s: State, t: State, r: Row)
    requires HistInv(s) && HistInv(t) && Pending(t) == Pending(s) + [r] && r.sign == -1
    requires t.hist == s.hist && t.used == s.used && t.counter == s.counter
    ensures forall v :: 0 <= v < WORKERS ==> SameFor(v, s, t)
  {
    forall v | 0 <= v < WORKERS ensures SameFor(v, s, t) {
      StatesInMemory(s, t, r, v);
    }
  }

  lemma StatesInMemory(s: State, t: State, r: Row, v: nat)
    requires HistInv(s) && HistInv(t) && Pending(t) == Pending(s) + [r]
    requires r.sign == 1 && r.session in t.hist ==> !Owns(v, t, r.session)
    ensures forall id :: id in t.hist && Owns(v, t, id) && HasState(Pending(t), id) ==> HasState(Pending(s), id)
  {
    forall id | id in t.hist && Owns(v, t, id) && HasState(Pending(t), id) ensures HasState(Pending(s), id) {
      var q :| q in Pending(t) && q.session == id && q.sign == 1;
      assert q in Pending(s);
    }
  }

  /** The history of the session that gains a state. */
  lemma ExtendedHistory(s: State, w: nat)
    requires Inv(s) && Enabled(s, AddRow(w))
    ensures HistInv(AddRowStep(s, w))
    ensures var t, id := AddRowStep(s, w), s.workers[w].next.session;
            && |t.workers| == WORKERS
            && Newest(t, id) == s.workers[w].next
            && t.hist[id].rows[0].user % WORKERS == w
            && (id in s.hist <==> s.workers[w].replaced.Some?)
            && (id in s.hist ==> s.hist[id].rows[0].user % WORKERS == w
                                 && t.hist[id].rows == s.hist[id].rows + [s.workers[w].next])
  {
    var t := AddRowStep(s, w);
    var AddingRow(e, replaced, next) := s.workers[w];
    assert PhaseOk(s, w, s.workers[w]);
    var id := next.session;
    if replaced.Some? {
      NewestOf(s, replaced.value.session);
      HistoryExtends(s.hist[id].rows, s.hist[id].evs, e, next);
      assert (s.hist[id].rows + [next])[0] == s.hist[id].rows[0];
    }
    forall k | k in t.hist
      ensures IsHistory(t.hist[k].rows, t.hist[k].evs) && t.hist[k].rows[0].session == k
      ensures k in t.used && t.used[k] == t.hist[k].rows[0].Visitor() && Newest(t, k).version <= t.counter
    {
      if k != id {
        assert t.hist[k] == s.hist[k];
      }
    }
  }

  lemma AddRowOwn(s: State, t: State, w: nat, id: nat)
    requires |s.workers| == WORKERS && HistInv(s) && LogInv(s)
    requires w < WORKERS && s.workers[w].AddingRow? && t == AddRowStep(s, w) && id == s.workers[w].next.session
    requires HistInv(t) && |t.workers| == WORKERS && t.hist[id].rows[0].user % WORKERS == w
    requires PhaseOk(s, w, s.workers[w])
    requires id in s.hist <==> s.workers[w].replaced.Some?
    requires id in s.hist ==> s.hist[id].rows[0].user % WORKERS == w
    ensures SessionLog(t.log, t.hist[id].rows, t.hist[id].evs, LogLen(t, id))
  {
    var r, e := s.workers[w].next, s.workers[w].e;
    if id in s.hist {
      var h := s.hist[id];
      assert t.hist[id] == History(h.rows + [r], h.evs + [e]);
      assert LogLen(t, id) == 2 * |h.rows| + 1;
      OwnNextLog(s.log, h, LogLen(s, id), e, r);
    } else {
      FirstState(s.log, e, r);
      assert t.hist[id] == History([r], [e]);
    }
  }

  lemma OwnNextLog(log: seq<Row>, h: History, len: nat, e: Event, r: Row)
    requires h.rows != [] && SessionLog(log, h.rows, h.evs, len) && len == 2 * |h.rows| && Follows(Last(h.rows), e, r)
    ensures SessionLog(log + [r], h.rows + [r], h.evs + [e], 2 * |h.rows| + 1)
  {
    NextState(log, h.rows, h.evs, e, r);
  }

  lemma AddRowSession(s: State, t: State, w: nat, id: nat)
    requires Inv(s) && Enabled(s, AddRow(w)) && t == AddRowStep(s, w) && id in t.hist
    requires HistInv(t) && |t.workers| == WORKERS
    ensures SessionLog(t.log, t.hist[id].rows, t.hist[id].evs, LogLen(t, id))
  {
    var r := s.workers[w].next;
    ExtendedHistory(s, w);
    assert PhaseOk(s, w, s.workers[w]);
    if id == r.session {
      AddRowOwn(s, t, w, id);
    } else {
      OtherSessions(s, t, r, w, id);
    }
  }

  lemma AddRowLog(s: State, w: nat)
    requires Inv(s) && Enabled(s, AddRow(w))
    ensures var t := AddRowStep(s, w);
            |t.workers| == WORKERS && HistInv(t) && LogInv(t)
  {
    ExtendedHistory(s, w);
    var t := AddRowStep(s, w);
    forall id | id in t.hist ensures SessionLog(t.log, t.hist[id].rows, t.hist[id].evs, LogLen(t, id)) {
      AddRowSession(s, t, w, id);
    }
  }

  lemma AddRowEntry(s: State, t: State, w: nat, r: Row, key: Key)
    requires |s.workers| == WORKERS == |t.workers| && HistInv(s) && CacheInv(s) && HistInv(t) && w < WORKERS
    requires s.workers[w].AddingRow? && t.workers == s.workers[w := t.workers[w]]
    requires t.workers[w].Caching? && t.workers[w].next == r
    requires r.session in t.hist && t.hist[r.session].rows[0].user % WORKERS == w
    requires r.session in s.hist ==> t.hist[r.session].rows[0] == s.hist[r.session].rows[0]
    requires forall id :: id in s.hist ==> id in t.hist && (id != r.session ==> t.hist[id] == s.hist[id])
    requires t.cache == s.cache && key in t.cache
    ensures t.cache[key].session in t.hist
    ensures t.hist[t.cache[key].session].rows[0].Visitor() == key
    ensures t.cache[key] == Newest(t, t.cache[key].session) || Refreshing(t, key, t.cache[key].session)
  {
    hide Follows;
    var v := key.user % WORKERS;
    assert v != w ==> t.workers[v] == s.workers[v];
  }

  lemma AddRowShape(s: State, w: nat)
    requires w < |s.workers| && s.workers[w].AddingRow?
    ensures var t, r := AddRowStep(s, w), s.workers[w].next;
            && t.workers == s.workers[w := Caching(s.workers[w].e, r)] && t.cache == s.cache
            && r.session in t.hist
            && forall id :: id in s.hist ==> id in t.hist && (id != r.session ==> t.hist[id] == s.hist[id])
  {
  }

  lemma AddRowCache(s: State, w: nat)
    requires Inv(s) && Enabled(s, AddRow(w))
    ensures var t := AddRowStep(s, w);
            |t.workers| == WORKERS && HistInv(t) && CacheInv(t)
  {
    ExtendedHistory(s, w);
    AddRowShape(s, w);
    hide Follows, FlowInv, LogInv, WorkersInv, AddRowStep, UpdateRow, NewRow;
    var t := AddRowStep(s, w);
    forall key | key in t.cache
      ensures t.cache[key].session in t.hist
      ensures t.hist[t.cache[key].session].rows[0].Visitor() == key
      ensures t.cache[key] == Newest(t, t.cache[key].session) || Refreshing(t, key, t.cache[key].session)
    {
      AddRowEntry(s, t, w, s.workers[w].next, key);
    }
  }

  lemma AddRowOthers(s: State, w: nat, v: nat)
    requires HistInv(s) && Enabled(s, AddRow(w)) && v != w
    requires var t := AddRowStep(s, w); HistInv(t) && Pending(t) == Pending(s) + [s.workers[w].next]
    requires s.workers[w].next.session in s.hist ==> Owns(w, s, s.workers[w].next.session)
    requires Owns(w, AddRowStep(s, w), s.workers[w].next.session)
    ensures SameFor(v, s, AddRowStep(s, w))
  {
    StatesInMemory(s, AddRowStep(s, w), s.workers[w].next, v);
  }

  lemma AddRowKeeps(s: State, w: nat)
    requires Inv(s) && Enabled(s, AddRow(w))
    ensures Inv(Apply(s, AddRow(w)))
  {
    var t := AddRowStep(s, w);
    assert PhaseOk(s, w, s.workers[w]);
    AddRowLog(s, w);
    AddRowCache(s, w);
    FlowAdd(s, t, s.workers[w].next);
    AddRowPhase(s, w);
    ExtendedHistory(s, w);
    AddRowMemory(s, w);
    AddRowStart(s, w);
    forall v | 0 <= v < WORKERS && v != w ensures SameFor(v, s, t) {
      AddRowOthers(s, w, v);
    }
    OthersKept(s, t, w);
  }

  lemma AddRowMemory(s: State, w: nat)
    requires Inv(s) && Enabled(s, AddRow(w)) && HistInv(AddRowStep(s, w))
    requires Pending(AddRowStep(s, w)) == Pending(s) + [s.workers[w].next]
    ensures MemoryInv(AddRowStep(s, w))
  {
    var t, r := AddRowStep(s, w), s.workers[w].next;
    AddRowShape(s, w);
    ExtendedHistory(s, w);
    forall id | id in t.hist && HasState(Pending(t), id) ensures Newest(t, id) in Pending(t) {
      if id != r.session {
        var q :| q in Pending(t) && q.session == id && q.sign == 1;
        assert q in Pending(s) && HasState(Pending(s), id);
        assert q in s.log;
        assert id in s.hist && Newest(t, id) == Newest(s, id);
      }
    }
  }

  /** A session is opened only if none of the visitor's contains its start. */
  lemma AddRowStart(s: State, w: nat)
    requires Inv(s) && Enabled(s, AddRow(w)) && HistInv(AddRowStep(s, w))
    ensures StartInv(AddRowStep(s, w))
  {
    hide LogInv, FlowInv, MemoryInv, CacheInv, UpdateRow;
    var t := AddRowStep(s, w);
    var AddingRow(e, replaced, next) := s.workers[w];
    assert PhaseOk(s, w, s.workers[w]);
    ExtendedHistory(s, w);
    forall i, j | i in t.hist && j in t.hist && i != j
      ensures t.hist[i].rows[0].Visitor() != t.hist[j].rows[0].Visitor()
           || t.hist[i].rows[0].start != t.hist[j].rows[0].start
    {
      if next.session !in s.hist && (i == next.session || j == next.session) {
        OpensApart(s, e, if i == next.session then j else i);
      }
    }
  }

  lemma OpensApart(s: State, e: Event, id: nat)
    requires HistInv(s) && NoneCurrent(s, e) && id in s.hist
    ensures s.hist[id].rows[0].Visitor() != e.Visitor() || s.hist[id].rows[0].start != e.ts
  {
    NewestOf(s, id);
    HistoryGrows(s.hist[id].rows, s.hist[id].evs, 0, |s.hist[id].rows| - 1);
    StartsBeforeEnd(s.hist[id].rows, s.hist[id].evs, |s.hist[id].rows| - 1);
  }

  lemma {:induction false} StartsBeforeEnd(rows: seq<Row>, evs: seq<Event>, i: nat)
    requires IsHistory(rows, evs) && i < |rows|
    ensures rows[i].start <= rows[i].ts
  {
    if i > 0 {
      StartsBeforeEnd(rows, evs, i - 1);
      assert Follows(rows[i - 1], evs[i], rows[i]);
    }
  }

  lemma AddRowPhase(s: State, w: nat)
    requires Inv(s) && Enabled(s, AddRow(w)) && HistInv(AddRowStep(s, w))
    ensures PhaseOk(AddRowStep(s, w), w, AddRowStep(s, w).workers[w])
  {
    assert PhaseOk(s, w, s.workers[w]);
    ExtendedHistory(s, w);
  }

  // ---- Moving rows to the table ------------------------------------------------------

  /** A step that only moves rows from memory to the table. */
  lemma FlushStep(s: State, t: State)
    requires Inv(s) && FlowInv(t)
    requires t == s.(buffer := t.buffer, inflight := t.inflight, table := t.table)
    requires forall r :: r in Pending(t) ==> r in Pending(s)
    requires HistInv(t) ==> MemoryInv(t)
    ensures Inv(t)
  {
    HistKept(s, t);
    LogKept(s, t);
    CacheKept(s, t, 0);
    AllKept(s, t);
  }

  lemma {:induction false} InsertBatchRows(batches: seq<Batch>, i: nat)
    requires i < |batches| && !batches[i].inserted
    ensures var after := batches[i := batches[i].(inserted := true)];
            Flatten(after) == Flatten(batches) &&
            multiset(Waiting(batches)) == multiset(Waiting(after)) + multiset(batches[i].rows)
    decreases i
  {
    var after := batches[i := batches[i].(inserted := true)];
    if i == 0 {
      assert after[1..] == batches[1..];
    } else {
      InsertBatchRows(batches[1..], i - 1);
      assert after[1..] == batches[1..][i - 1 := batches[i].(inserted := true)];
    }
  }

  lemma {:induction false} LeaveRows(batches: seq<Batch>, i: nat)
    requires i < |batches|
    ensures forall r :: r in Flatten(batches) <==> r in Flatten(Except(batches, i)) || r in batches[i].rows
    ensures batches[i].inserted ==> Waiting(Except(batches, i)) == Waiting(batches)
    decreases i
  {
    if i == 0 {
      assert Except(batches, 0) == batches[1..];
    } else {
      LeaveRows(batches[1..], i - 1);
      assert Except(batches, i) == [batches[0]] + Except(batches[1..], i - 1);
    }
  }

  lemma TakeFlow(s: State)
    requires FlowInv(s) && s.buffer != []
    ensures var t := Apply(s, TakeBatch); FlowInv(t) && Pending(t) == Pending(s)
  {
    FlattenAppend(s.inflight, Batch(s.buffer, false));
    hide Flatten, Waiting;
    var t := Apply(s, TakeBatch);
    assert Pending(t) == Flatten(s.inflight) + s.buffer + [] == Pending(s);
    assert multiset(Waiting(t.inflight)) == multiset(Waiting(s.inflight)) + multiset(s.buffer);
  }

  lemma Moved<T>(table: multiset<T>, waiting: multiset<T>, waiting': multiset<T>, rows: multiset<T>)
    requires waiting == waiting' + rows
    ensures table + waiting == table + rows + waiting'
  {
  }

  lemma InsertFlow(s: State, i: nat)
    requires FlowInv(s) && Enabled(s, InsertBatch(i))
    ensures var t := Apply(s, InsertBatch(i)); FlowInv(t) && Pending(t) == Pending(s)
  {
    InsertBatchRows(s.inflight, i);
    var t := Apply(s, InsertBatch(i));
    var waiting, waiting' := Waiting(s.inflight), Waiting(t.inflight);
    Moved(multiset(s.table), multiset(waiting), multiset(waiting'), multiset(s.inflight[i].rows));
    assert multiset(t.table) == multiset(s.table) + multiset(s.inflight[i].rows);
  }

  lemma LeaveFlow(s: State, i: nat)
    requires FlowInv(s) && Enabled(s, LeaveInflight(i))
    ensures var t := Apply(s, LeaveInflight(i));
            FlowInv(t) && forall r :: r in Pending(s) <==> r in Pending(t) || r in s.inflight[i].rows
  {
    LeaveRows(s.inflight, i);
  }

  /** A batch that leaves safely takes a newest state away only if it takes the session's last. */
  lemma LeaveMemory(s: State, i: nat)
    requires Consistent(s) && MemoryInv(s) && Enabled(s, LeaveInflight(i)) && LeavesSafely(s, i)
    requires HistInv(Apply(s, LeaveInflight(i)))
    ensures MemoryInv(Apply(s, LeaveInflight(i)))
  {
    var t := Apply(s, LeaveInflight(i));
    LeaveFlow(s, i);
    forall id | id in t.hist && HasState(Pending(t), id) ensures Newest(t, id) in Pending(t) {
      NewestOf(s, id);
      StatesStay(s, t);
      var n := Newest(s, id);
      if n !in Pending(t) {
        assert n in s.inflight[i].rows;
        var q :| q in Pending(t) && q.session == id && q.sign == 1 && q.version >= n.version;
        VersionBound(s, q);
      }
    }
  }

  lemma FlushKeeps(s: State, a: Action)
    requires Inv(s) && Enabled(s, a) && (a.TakeBatch? || a.InsertBatch?)
    ensures Inv(Apply(s, a))
  {
    match a {
      case TakeBatch => TakeFlow(s);
      case InsertBatch(i) => InsertFlow(s, i);
    }
    if HistInv(Apply(s, a)) {
      MemoryKept(s, Apply(s, a));
    }
    FlushStep(s, Apply(s, a));
  }

  lemma LeaveKeeps(s: State, i: nat)
    requires Inv(s) && Enabled(s, LeaveInflight(i)) && LeavesSafely(s, i)
    ensures Inv(Apply(s, LeaveInflight(i)))
  {
    LeaveFlow(s, i);
    if HistInv(Apply(s, LeaveInflight(i))) {
      LeaveMemory(s, i);
    }
    FlushStep(s, Apply(s, LeaveInflight(i)));
  }

  lemma StepKeeps(s: State, a: Action)
    requires Inv(s) && Enabled(s, a) && (a.LeaveInflight? ==> LeavesSafely(s, a.i))
    ensures Inv(Apply(s, a))
  {
    match a {
      case Decide(w, id) => DecideKeeps(s, w, id);
      case AddTombstone(w) => AddTombstoneKeeps(s, w);
      case AddRow(w) => AddRowKeeps(s, w);
      case CompareCache(w) => CompareKeeps(s, w);
      case StoreCache(w) => StoreKeeps(s, w);
      case Evict(key) => EvictKeeps(s, key);
      case TakeBatch => FlushKeeps(s, a);
      case InsertBatch(i) => FlushKeeps(s, a);
      case LeaveInflight(i) => LeaveKeeps(s, i);
      case _ => ReadSteps(s, a);
    }
  }

  lemma InitHist(start: nat, base: Base)
    requires BaseOk(start, base)
    ensures HistInv(Init(start, base))
  {
  }

  lemma InitLog(start: nat, base: Base)
    requires BaseOk(start, base) && HistInv(Init(start, base))
    ensures LogInv(Init(start, base))
  {
    hide IsHistory, SessionLog, StartsApart, LogLen;
    var s := Init(start, base);
    forall id | id in s.hist ensures LogLen(s, id) == 2 * |base.hist[id].rows| - 1 {
      InitLogLen(start, base, id);
    }
  }

  lemma InitLogLen(start: nat, base: Base, id: nat)
    requires HistInv(Init(start, base)) && id in base.hist
    ensures LogLen(Init(start, base), id) == 2 * |base.hist[id].rows| - 1
  {
    hide IsHistory;
    assert Init(start, base).workers[base.hist[id].rows[0].user % WORKERS].Idle?;
  }

  lemma InitInv(start: nat, base: Base)
    requires BaseOk(start, base)
    ensures Inv(Init(start, base))
  {
    InitHist(start, base);
    InitLog(start, base);
    hide IsHistory, LogInv;
    assert Pending(Init(start, base)) == [];
  }

  /** Every state that an orderly run reaches satisfies the invariant. */
  lemma {:induction false} Reachable(start: nat, base: Base, acts: seq<Action>)
    requires BaseOk(start, base) && Orderly(Init(start, base), acts) && Run(Init(start, base), acts).Some?
    ensures Inv(Run(Init(start, base), acts).value)
    decreases |acts|
  {
    if acts == [] {
      InitInv(start, base);
    } else {
      Reachable(start, base, acts[..|acts| - 1]);
      StepKeeps(Run(Init(start, base), acts[..|acts| - 1]).value, Last(acts));
    }
  }
}
