/** The session pipeline as a state machine. A step is one lock section, one atomic operation
    or one call to the database by one of the balancer's workers or by a flush goroutine; an
    execution is any sequence of enabled steps. */
module SessionProtocol {
  import opened Common
  import opened SessionRows
  import opened CollapsingTable

  // Events of a user are handled one at a time by worker `user % WORKERS`.
  const WORKERS := 100

  datatype Batch = Batch(rows: seq<Row>, inserted: bool)

  /** Where a worker is inside OnEvent's task for event `e`. */
  datatype Phase =
    | Idle
    | Begun(e: Event)                                      // before the cache is read
    | NeedPending(e: Event)                                // cached session does not contain e
    | NeedTable(e: Event)                                  // FindPendingAt returned nothing
    | Chosen(e: Event, found: Option<Row>)
    | AddingTombstone(e: Event, prior: Row, next: Row)
    | AddingRow(e: Event, replaced: Option<Row>, next: Row)  // the tombstone of `replaced` is written
    | Caching(e: Event, next: Row)                         // before updateSessionCache reads the cache
    | Storing(e: Event, next: Row)                         // it decided to store

  datatype History = History(rows: seq<Row>, evs: seq<Event>)

  datatype State = State(
    counter: nat,                 // versionCounter
    cache: map<Key, Row>,
    buffer: seq<Row>,
    inflight: seq<Batch>,         // in the order the batches were taken
    table: seq<Row>,              // every row inserted so far
    workers: seq<Phase>,
    // Recorded for the theorems only; no step reads them except to draw a fresh session id.
    used: map<nat, Key>,          // session ids drawn so far and for whom
    log: seq<Row>,                // every row ever added to the write buffer
    hist: map<nat, History>,      // per session, its states and the events they accepted
    accepted: seq<(Event, nat)>   // calls of OnEvent that returned a session, with its id
  )

  datatype Action =
    | Begin(e: Event)
    | ReadCache(w: nat)
    | ReadPending(w: nat, res: Option<Row>)
    | ReadTable(w: nat, res: Option<Row>)
    | TableError(w: nat)
    | Decide(w: nat, id: nat)
    | AddTombstone(w: nat)
    | AddRow(w: nat)
    | CompareCache(w: nat)
    | StoreCache(w: nat)
    | Evict(key: Key)
    | TakeBatch
    | InsertBatch(i: nat)
    | LeaveInflight(i: nat)

  /** What earlier processes left in the table: per session its states and events. Merges of the table
      only remove pairs that cancel, so the rows ever inserted stand for it. */
  datatype Base = Base(log: seq<Row>, hist: map<nat, History>)

  const EMPTY := Base([], map[])

  /** A new process: its counter starts above every stored version, and memory is empty. */
  function Init(start: nat, base: Base): State {
    State(start, map[], [], [], base.log, seq(WORKERS, _ => Idle),
          map id | id in base.hist && base.hist[id].rows != [] :: base.hist[id].rows[0].Visitor(),
          base.log, base.hist, [])
  }

  /** Every stored session has collapsed to its newest state, with a version at most `start`, and no
      two sessions of a visitor start at the same time. */
  ghost predicate BaseOk(start: nat, base: Base) {
    && (forall id :: id in base.hist ==>
          && base.hist[id].rows != []
          && SessionLog(base.log, base.hist[id].rows, base.hist[id].evs, 2 * |base.hist[id].rows| - 1)
          && base.hist[id].rows[0].session == id
          && Last(base.hist[id].rows).version <= start)
    && (forall r :: r in base.log ==> r.session in base.hist)
    && StartsApart(base.hist)
  }

  ghost predicate StartsApart(hist: map<nat, History>) {
    forall i, j :: i in hist && j in hist && i != j && hist[i].rows != [] && hist[j].rows != [] ==>
      hist[i].rows[0].Visitor() != hist[j].rows[0].Visitor() || hist[i].rows[0].start != hist[j].rows[0].start
  }

  function Flatten(batches: seq<Batch>): seq<Row> {
    if batches == [] then [] else batches[0].rows + Flatten(batches[1..])
  }

  /** What FindPendingAt scans: in-flight batches and buffer, here in the order of adding. */
  function Pending(s: State): seq<Row> {
    Flatten(s.inflight) + s.buffer
  }

  predicate AtWorker(s: State, w: nat) {
    w < |s.workers|
  }

  ghost predicate Enabled(s: State, a: Action) {
    match a
    case Begin(e) => AtWorker(s, e.user % WORKERS) && s.workers[e.user % WORKERS].Idle?
    case ReadCache(w) => AtWorker(s, w) && s.workers[w].Begun?
    case ReadPending(w, res) => AtWorker(s, w) && s.workers[w].NeedPending? &&
                                PendingResult(Pending(s), s.workers[w].e.Visitor(), s.workers[w].e.ts, res)
    case ReadTable(w, res) => AtWorker(s, w) && s.workers[w].NeedTable? &&
                              TableResult(s.table, s.workers[w].e.Visitor(), s.workers[w].e.ts, res)
    case TableError(w) => AtWorker(s, w) && s.workers[w].NeedTable?
    case Decide(w, id) => AtWorker(s, w) && s.workers[w].Chosen? &&
                            (s.workers[w].found.None? ==> id !in s.used)
    case AddTombstone(w) => AtWorker(s, w) && s.workers[w].AddingTombstone?
    case AddRow(w) => AtWorker(s, w) && s.workers[w].AddingRow?
    case CompareCache(w) => AtWorker(s, w) && s.workers[w].Caching?
    case StoreCache(w) => AtWorker(s, w) && s.workers[w].Storing?
    case Evict(key) => key in s.cache
    case TakeBatch => s.buffer != []
    case InsertBatch(i) => i < |s.inflight| && !s.inflight[i].inserted
    case LeaveInflight(i) => i < |s.inflight| && s.inflight[i].inserted
  }

  function SetPhase(s: State, w: nat, p: Phase): State
    requires AtWorker(s, w)
  {
    s.(workers := s.workers[w := p])
  }

  function Add(s: State, r: Row): State {
    s.(buffer := s.buffer + [r], log := s.log + [r])
  }

  /** handleEvent once the session to change is known. */
  function DecideStep(s: State, w: nat, id: nat): State
    requires AtWorker(s, w) && s.workers[w].Chosen?
  {
    var e := s.workers[w].e;
    match s.workers[w].found
    case None =>
      if e.Engagement() then SetPhase(s, w, Idle)
      else SetPhase(s, w, AddingRow(e, None, NewRow(e, id, s.counter + 1)))
           .(counter := s.counter + 1, used := s.used[id := e.Visitor()])
    case Some(r) =>
      SetPhase(s, w, AddingTombstone(e, r, UpdateRow(r, e, s.counter + 1).(sign := 1)))
      .(counter := s.counter + 1)
  }

  /** `accepted` and `hist` record the event as part of its session. */
  function AddRowStep(s: State, w: nat): State
    requires AtWorker(s, w) && s.workers[w].AddingRow?
  {
    var AddingRow(e, replaced, next) := s.workers[w];
    var h := if replaced.Some? && next.session in s.hist then s.hist[next.session] else History([], []);
    Add(SetPhase(s, w, Caching(e, next)), next)
    .(hist := s.hist[next.session := History(h.rows + [next], h.evs + [e])])
  }

  /** updateSessionCache keeps an entry of another, more recent session. */
  predicate Replaces(current: Option<Row>, next: Row) {
    current.None? || current.value.session == next.session || next.ts >= current.value.ts
  }

  function Lookup(cache: map<Key, Row>, key: Key): Option<Row> {
    if key in cache then Some(cache[key]) else None
  }

  function Return(s: State, w: nat, e: Event, session: nat): State
    requires AtWorker(s, w)
  {
    SetPhase(s, w, Idle).(accepted := s.accepted + [(e, session)])
  }

  function Apply(s: State, a: Action): State
    requires Enabled(s, a)
  {
    match a
    case Begin(e) => SetPhase(s, e.user % WORKERS, Begun(e))
    case ReadCache(w) =>
      var e := s.workers[w].e;
      var cached := Lookup(s.cache, e.Visitor());
      SetPhase(s, w, if cached.Some? && Contains(cached.value, e.ts) then Chosen(e, cached) else NeedPending(e))
    case ReadPending(w, res) =>
      var e := s.workers[w].e;
      SetPhase(s, w, if res.Some? then Chosen(e, res) else NeedTable(e))
    case ReadTable(w, res) => SetPhase(s, w, Chosen(s.workers[w].e, res))
    case TableError(w) => SetPhase(s, w, Idle)
    case Decide(w, id) => DecideStep(s, w, id)
    case AddTombstone(w) =>
      var p := s.workers[w];
      Add(SetPhase(s, w, AddingRow(p.e, Some(p.prior), p.next)), Tombstone(p.prior))
    case AddRow(w) => AddRowStep(s, w)
    case CompareCache(w) =>
      var p := s.workers[w];
      if Replaces(Lookup(s.cache, p.next.Visitor()), p.next)
      then SetPhase(s, w, Storing(p.e, p.next))
      else Return(s, w, p.e, p.next.session)
    case StoreCache(w) =>
      var p := s.workers[w];
      Return(s, w, p.e, p.next.session).(cache := s.cache[p.next.Visitor() := p.next])
    case Evict(key) => s.(cache := s.cache - {key})
    case TakeBatch => s.(inflight := s.inflight + [Batch(s.buffer, false)], buffer := [])
    case InsertBatch(i) =>
      s.(inflight := s.inflight[i := s.inflight[i].(inserted := true)], table := s.table + s.inflight[i].rows)
    case LeaveInflight(i) => s.(inflight := Except(s.inflight, i))
  }

  /** The state after the steps, if each was enabled in turn. */
  ghost function Run(s: State, acts: seq<Action>): Option<State> {
    if acts == [] then Some(s)
    else
      var before := Run(s, acts[..|acts| - 1]);
      if before.Some? && Enabled(before.value, Last(acts)) then Some(Apply(before.value, Last(acts))) else None
  }

  // ---- The order in which batches leave ------------------------------------------------

  ghost predicate HasState(pending: seq<Row>, id: nat) {
    exists r :: r in pending && r.session == id && r.sign == 1
  }

  ghost predicate HasAsNew(pending: seq<Row>, r: Row) {
    exists q :: q in pending && q.session == r.session && q.sign == 1 && q.version >= r.version
  }

  /** Batch `i` may leave: a session of which it takes a state away has no state left in memory, or one
      as new. flushAndWrite could check this in its last lock section; it does not. */
  ghost predicate LeavesSafely(s: State, i: nat)
    requires i < |s.inflight|
  {
    var rest := Flatten(Except(s.inflight, i)) + s.buffer;
    forall r :: r in s.inflight[i].rows && r.sign == 1 && HasState(rest, r.session) ==> HasAsNew(rest, r)
  }

  /** In this run no batch leaves before an older state of one of its sessions does. */
  ghost predicate Orderly(s: State, acts: seq<Action>) {
    acts == [] ||
    (var init := acts[..|acts| - 1];
     && Orderly(s, init)
     && (Run(s, init).Some? && Last(acts).LeaveInflight? && Enabled(Run(s, init).value, Last(acts)) ==>
           LeavesSafely(Run(s, init).value, Last(acts).i)))
  }

  predicate NoLeave(acts: seq<Action>) {
    forall a :: a in acts ==> !a.LeaveInflight?
  }

  /** Batches leave `inflight` in the order in which they were taken. The code does not enforce it. */
  predicate TakenOrder(acts: seq<Action>) {
    forall a :: a in acts && a.LeaveInflight? ==> a.i == 0
  }
}
