/** handleEvent run without interruption: its effect on version counter, cache and buffer, and the
    proof that this effect is the one of its five steps in the state machine. */
module SessionHandling {
  import opened Common
  import opened SessionRows
  import opened SessionProtocol

  datatype Memory = Memory(counter: nat, cache: map<Key, Row>, buffer: seq<Row>)

  function CacheAfter(cache: map<Key, Row>, next: Row): map<Key, Row> {
    if Replaces(Lookup(cache, next.Visitor()), next) then cache[next.Visitor() := next] else cache
  }

  /** The row returned by handleEvent, if any, and the memory it leaves, when `found` is the session
      to update and `id` the id drawn if a session is opened. */
  function Handle(m: Memory, e: Event, found: Option<Row>, id: nat): (Memory, Option<Row>) {
    match found
    case None =>
      if e.Engagement() then (m, None)
      else
        var r := NewRow(e, id, m.counter + 1);
        (Memory(m.counter + 1, CacheAfter(m.cache, r), m.buffer + [r]), Some(r))
    case Some(prior) =>
      var r := UpdateRow(prior, e, m.counter + 1).(sign := 1);
      (Memory(m.counter + 1, CacheAfter(m.cache, r), m.buffer + [Tombstone(prior), r]), Some(r))
  }

  function MemoryOf(s: State): Memory {
    Memory(s.counter, s.cache, s.buffer)
  }

  lemma {:induction false} RunConcat(s: State, a: seq<Action>, b: seq<Action>)
    requires Run(s, a).Some?
    ensures Run(s, a + b) == Run(Run(s, a).value, b)
    decreases |b|
  {
    if b == [] {
      assert a + b == a;
    } else {
      assert (a + b)[..|a + b| - 1] == a + b[..|b| - 1];
      RunConcat(s, a, b[..|b| - 1]);
    }
  }

  /** Steps that are not the end of a flush keep a run orderly. */
  lemma {:induction false} OrderlyConcat(s: State, a: seq<Action>, b: seq<Action>)
    requires Orderly(s, a) && NoLeave(b)
    ensures Orderly(s, a + b)
    decreases |b|
  {
    if b == [] {
      assert a + b == a;
    } else {
      assert (a + b)[..|a + b| - 1] == a + b[..|b| - 1];
      assert Last(b) in b && Last(a + b) == Last(b);
      OrderlyConcat(s, a, b[..|b| - 1]);
    }
  }

  lemma RunStep(s: State, acts: seq<Action>, a: Action)
    requires Run(s, acts).Some? && Enabled(Run(s, acts).value, a)
    ensures Run(s, acts + [a]) == Some(Apply(Run(s, acts).value, a))
  {
    assert (acts + [a])[..|acts|] == acts;
  }

  lemma OneStep(s: State, a: Action)
    requires Enabled(s, a)
    ensures Run(s, [a]) == Some(Apply(s, a))
  {
    RunStep(s, [], a);
    assert [] + [a] == [a];
  }

  /** updateSessionCache: one or two steps. */
  lemma CachingIsRun(s: State, w: nat) returns (acts: seq<Action>)
    requires w < |s.workers| && s.workers[w].Caching?
    ensures NoLeave(acts)
    ensures var Caching(e, next) := s.workers[w];
            Run(s, acts) == Some(Return(s, w, e, next.session).(cache := CacheAfter(s.cache, next)))
  {
    acts := [CompareCache(w)];
    OneStep(s, CompareCache(w));
    var t := Apply(s, CompareCache(w));
    if t.workers[w].Storing? {
      acts := acts + [StoreCache(w)];
      RunStep(s, [CompareCache(w)], StoreCache(w));
      assert s.workers[w := t.workers[w]][w := Idle] == s.workers[w := Idle];
    }
  }

  /** What is left of the state machine's state after an uninterrupted handleEvent. */
  ghost predicate Handled(s: State, t: State, w: nat, id: nat)
    requires w < |s.workers| && s.workers[w].Chosen?
  {
    var Chosen(e, found) := s.workers[w];
    var (m, res) := Handle(MemoryOf(s), e, found, id);
    && MemoryOf(t) == m
    && t.workers == s.workers[w := Idle]
    && t.log == s.log + m.buffer[|s.buffer|..]
    && t.accepted == s.accepted + (if res.Some? then [(e, res.value.session)] else [])
    && t.inflight == s.inflight && t.table == s.table
    && t.used == if res.Some? && found.None? then s.used[id := e.Visitor()] else s.used
  }

  /** The rows are in the buffer; the cache is still to be updated. */
  ghost predicate Written(s: State, t: State, w: nat, id: nat)
    requires w < |s.workers| && s.workers[w].Chosen?
    requires s.workers[w].found.Some? || !s.workers[w].e.Engagement()
  {
    var Chosen(e, found) := s.workers[w];
    var (m, res) := Handle(MemoryOf(s), e, found, id);
    && t.workers == s.workers[w := Caching(e, res.value)]
    && t.counter == m.counter && t.cache == s.cache && t.buffer == m.buffer
    && t.log == s.log + m.buffer[|s.buffer|..]
    && t.accepted == s.accepted && t.inflight == s.inflight && t.table == s.table
    && t.used == if found.None? then s.used[id := e.Visitor()] else s.used
  }

  lemma OpeningIsRun(s: State, w: nat, id: nat)
    requires Enabled(s, Decide(w, id)) && s.workers[w].found.None? && !s.workers[w].e.Engagement()
    ensures var acts := [Decide(w, id), AddRow(w)];
            Run(s, acts).Some? && Written(s, Run(s, acts).value, w, id)
  {
    OneStep(s, Decide(w, id));
    var t := DecideStep(s, w, id);
    var p := t.workers[w];
    RunStep(s, [Decide(w, id)], AddRow(w));
    assert [Decide(w, id)] + [AddRow(w)] == [Decide(w, id), AddRow(w)];
    assert AddRowStep(t, w).workers == s.workers[w := Caching(p.e, p.next)];
  }

  lemma UpdatingIsRun(s: State, w: nat, id: nat)
    requires Enabled(s, Decide(w, id)) && s.workers[w].found.Some?
    ensures var acts := [Decide(w, id), AddTombstone(w), AddRow(w)];
            Run(s, acts).Some? && Written(s, Run(s, acts).value, w, id)
  {
    hide Run, UpdateRow, NewRow, Follows;
    OneStep(s, Decide(w, id));
    var t := DecideStep(s, w, id);
    var p := t.workers[w];
    RunStep(s, [Decide(w, id)], AddTombstone(w));
    assert [Decide(w, id)] + [AddTombstone(w)] == [Decide(w, id), AddTombstone(w)];
    var u := Apply(t, AddTombstone(w));
    RunStep(s, [Decide(w, id), AddTombstone(w)], AddRow(w));
    assert [Decide(w, id), AddTombstone(w)] + [AddRow(w)] == [Decide(w, id), AddTombstone(w), AddRow(w)];
    var v := AddRowStep(u, w);
    assert v.workers == s.workers[w := Caching(p.e, p.next)];
    assert v.buffer == s.buffer + [Tombstone(p.prior), p.next];
    assert v.log == s.log + [Tombstone(p.prior), p.next];
  }

  /** From the moment the session is chosen, the worker's steps, taken with no other step between
      them, do to memory what Handle says, and append the same rows to the log as to the buffer. */
  lemma HandleIsRun(s: State, w: nat, id: nat) returns (acts: seq<Action>)
    requires Enabled(s, Decide(w, id))
    ensures NoLeave(acts) && Run(s, acts).Some? && Handled(s, Run(s, acts).value, w, id)
  {
    if s.workers[w].found.None? && s.workers[w].e.Engagement() {
      acts := [Decide(w, id)];
      OneStep(s, Decide(w, id));
    } else {
      var first: seq<Action>;
      if s.workers[w].found.None? {
        first := [Decide(w, id), AddRow(w)];
        OpeningIsRun(s, w, id);
      } else {
        first := [Decide(w, id), AddTombstone(w), AddRow(w)];
        UpdatingIsRun(s, w, id);
      }
      var t := Run(s, first).value;
      var second := CachingIsRun(t, w);
      acts := first + second;
      RunConcat(s, first, second);
      assert t.workers[w := Idle] == s.workers[w := Idle];
    }
  }
}
