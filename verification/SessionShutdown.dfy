/** What the shutdown of the session buffer leaves behind: its flushes can always finish, and then the table
    is what the next process needs. */
module SessionShutdown {
  import opened Common
  import opened SessionRows
  import opened CollapsingTable
  import opened SessionProtocol
  import opened SessionInvariant
  import opened SessionSteps
  import opened SessionTheorems
  import opened SessionHandling
  import opened SessionOrder

  function BatchWork(batches: seq<Batch>): nat {
    if batches == [] then 0 else (if batches[0].inserted then 1 else 2) + BatchWork(batches[1..])
  }

  /** The steps the last flushes have still to make. */
  function FlushWork(s: State): nat {
    BatchWork(s.inflight) + if s.buffer == [] then 0 else 3
  }

  lemma {:induction false} BatchWorkAppend(batches: seq<Batch>, b: Batch)
    ensures BatchWork(batches + [b]) == BatchWork(batches) + if b.inserted then 1 else 2
  {
    if batches == [] {
      assert batches + [b] == [b];
    } else {
      BatchWorkAppend(batches[1..], b);
      assert (batches + [b])[1..] == batches[1..] + [b];
    }
  }

  /** The next step of a flush. */
  function NextFlush(s: State): (a: Action)
    requires s.buffer != [] || s.inflight != []
    ensures a.LeaveInflight? ==> a.i == 0
  {
    if s.buffer != [] then TakeBatch
    else if s.inflight[0].inserted then LeaveInflight(0)
    else InsertBatch(0)
  }

  lemma FlushProgresses(s: State)
    requires s.buffer != [] || s.inflight != []
    ensures Enabled(s, NextFlush(s))
    ensures var t := Apply(s, NextFlush(s));
            && FlushWork(t) < FlushWork(s)
            && t.log == s.log && t.hist == s.hist && t.workers == s.workers
            && t.counter == s.counter && t.cache == s.cache
  {
    if s.buffer != [] {
      BatchWorkAppend(s.inflight, Batch(s.buffer, false));
    } else if s.inflight[0].inserted {
      assert Except(s.inflight, 0) == s.inflight[1..];
    } else {
      assert s.inflight[0 := s.inflight[0].(inserted := true)][1..] == s.inflight[1..];
    }
  }

  lemma NothingPending(s: State)
    requires s.buffer == [] && s.inflight == []
    ensures Pending(s) == []
  {
  }

  lemma OrderlyStep(start: nat, base: Base, acts: seq<Action>, a: Action) returns (acts': seq<Action>)
    requires BaseOk(start, base) && Orderly(Init(start, base), acts) && Run(Init(start, base), acts).Some?
    requires Enabled(Run(Init(start, base), acts).value, a) && (a.LeaveInflight? ==> a.i == 0)
    ensures acts' == acts + [a] && Orderly(Init(start, base), acts')
    ensures Run(Init(start, base), acts') == Some(Apply(Run(Init(start, base), acts).value, a))
  {
    acts' := Extend(Init(start, base), acts, a);
    assert acts'[..|acts|] == acts;
    MemorySorted(start, base, acts);
    if a.LeaveInflight? {
      FirstLeavesSafely(Run(Init(start, base), acts).value);
    }
  }

  /** From every state of an orderly run the flushes can go on to the end: nothing stays in memory, and
      sessions, cache and counter are as they were. */
  lemma {:induction false} FlushesFinish(start: nat, base: Base, acts: seq<Action>) returns (more: seq<Action>)
    requires BaseOk(start, base) && Orderly(Init(start, base), acts) && Run(Init(start, base), acts).Some?
    ensures Orderly(Init(start, base), acts + more) && Run(Init(start, base), acts + more).Some?
    ensures var s, t := Run(Init(start, base), acts).value, Run(Init(start, base), acts + more).value;
            && Pending(t) == [] && t.log == s.log && t.hist == s.hist && t.workers == s.workers
            && t.counter == s.counter && t.cache == s.cache
    decreases FlushWork(Run(Init(start, base), acts).value)
  {
    hide Run, Orderly, BaseOk, Init, Apply, Enabled, FlushWork, Pending, NextFlush;
    var s := Run(Init(start, base), acts).value;
    if s.buffer == [] && s.inflight == [] {
      more := [];
      assert acts + more == acts;
      NothingPending(s);
    } else {
      FlushProgresses(s);
      var acts' := OrderlyStep(start, base, acts, NextFlush(s));
      var rest := FlushesFinish(start, base, acts');
      more := [NextFlush(s)] + rest;
      assert acts + more == acts' + rest;
    }
  }

  /** The shutdown of the session buffer comes after the last call: it can always complete, then exactly
      the newest state of every session is seen in the table, and the next process can start from it. */
  lemma ShutdownFlushesAll(start: nat, base: Base, acts: seq<Action>, next: nat) returns (more: seq<Action>)
    requires BaseOk(start, base) && Orderly(Init(start, base), acts) && Run(Init(start, base), acts).Some?
    requires Quiet(Run(Init(start, base), acts).value) && next >= Run(Init(start, base), acts).value.counter
    ensures Run(Init(start, base), acts + more).Some?
    ensures var s, t := Run(Init(start, base), acts).value, Run(Init(start, base), acts + more).value;
            && multiset(t.table) == multiset(s.log) && BaseOk(next, Base(s.log, s.hist))
            && forall q :: Live(t.table, q) <==> NewestIn(s.log, q)
  {
    more := FlushesFinish(start, base, acts);
    hide Run, Orderly, BaseOk, Init, Live, NewestIn, Inv;
    var t := Run(Init(start, base), acts + more).value;
    RestartIsSafe(start, base, acts + more, next);
    Reachable(start, base, acts + more);
    assert |t.workers| == WORKERS by { InvWorkers(t); }
    forall q ensures Live(t.table, q) <==> NewestIn(t.log, q) {
      assert t.workers[q.Visitor().user % WORKERS] in t.workers;
      TableShowsNewest(start, base, acts + more, q);
    }
  }
}
