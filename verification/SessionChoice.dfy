/** The lookups of the session manager, taken without interruption, are steps of the state machine: what
    Manager.Choose returns is what a worker may choose there. */
module SessionChoice {
  import opened Common
  import opened SessionRows
  import opened CollapsingTable
  import opened SessionProtocol
  import opened SessionInvariant
  import opened SessionSteps
  import opened SessionTheorems
  import opened SessionHandling
  import opened SessionOrder
  import opened SessionManager

  predicate SameRows(a: seq<Row>, b: seq<Row>) {
    (forall r :: r in a ==> r in b) && (forall r :: r in b ==> r in a)
  }

  /** A manager whose counter, cache and rows in memory are those of the state; Go keeps the batches in no
      particular order. */
  ghost predicate Mirrors(m: Manager, s: State)
    reads m, m.cache.Values, m.writeBuffer, m.writeBuffer.All()
  {
    m.versionCounter == s.counter && m.Cached() == s.cache && SameRows(Rows(m.writeBuffer.All()), Pending(s))
  }

  lemma PendingUnique(s: State, rows: seq<Row>)
    requires Loose(s) && SameRows(rows, Pending(s))
    ensures UniqueVersions(rows)
  {
    LooseIsWellNumbered(s);
  }

  /** In an orderly run no session has two states of one version in memory, so FindPendingAt keeps its
      promise. */
  lemma LookupIsDefined(start: nat, base: Base, acts: seq<Action>, m: Manager)
    requires BaseOk(start, base) && Orderly(Init(start, base), acts) && Run(Init(start, base), acts).Some?
    requires Mirrors(m, Run(Init(start, base), acts).value)
    ensures UniqueVersions(Rows(m.writeBuffer.All()))
  {
    Reachable(start, base, acts);
    PendingUnique(Run(Init(start, base), acts).value, Rows(m.writeBuffer.All()));
  }

  lemma SameResult(a: seq<Row>, b: seq<Row>, key: Key, t: int, res: Option<Row>)
    requires SameRows(a, b) && PendingResult(a, key, t, res)
    ensures PendingResult(b, key, t, res)
  {
    forall q ensures Latest(a, key, q) <==> Latest(b, key, q) {
    }
  }

  /** What the database may answer in this state, unless the query fails. */
  ghost predicate Possible(s: State, e: Event, answer: TableAnswer) {
    match answer
    case Found(row) => TableResult(s.table, e.Visitor(), e.ts, Some(row))
    case NotFound => TableResult(s.table, e.Visitor(), e.ts, None)
    case Failed => true
  }

  function Choice(e: Event, res: TableAnswer): Phase {
    match res
    case Found(row) => Chosen(e, Some(row))
    case NotFound => Chosen(e, None)
    case Failed => Idle
  }

  lemma LoadIsRun(i: State, acts: seq<Action>, w: nat, e: Event, rows: seq<Row>, answer: TableAnswer, res: TableAnswer)
    returns (acts': seq<Action>)
    requires Run(i, acts).Some?
    requires var s := Run(i, acts).value;
             w < |s.workers| && s.workers[w] == NeedPending(e) && SameRows(rows, Pending(s)) && Possible(s, e, answer)
    requires Loaded(rows, e, answer, res)
    ensures acts <= acts' && NoLeave(acts'[|acts|..])
    ensures Run(i, acts') == Some(SetPhase(Run(i, acts).value, w, Choice(e, res)))
  {
    hide Run, PendingResult, TableResult, SameRows;
    var s := Run(i, acts).value;
    if res.Found? && PendingResult(rows, e.Visitor(), e.ts, Some(res.row)) {
      SameResult(rows, Pending(s), e.Visitor(), e.ts, Some(res.row));
      acts' := Extend(i, acts, ReadPending(w, Some(res.row)));
    } else {
      SameResult(rows, Pending(s), e.Visitor(), e.ts, None);
      acts' := Extend(i, acts, ReadPending(w, None));
      assert s.workers[w := NeedTable(e)][w := Choice(e, res)] == s.workers[w := Choice(e, res)];
      match res {
        case Found(row) => acts' := Extend(i, acts', ReadTable(w, Some(row)));
        case NotFound => acts' := Extend(i, acts', ReadTable(w, None));
        case Failed => acts' := Extend(i, acts', TableError(w));
      }
    }
  }

  /** The outcome that Manager.Choose promises is reached by the worker's steps from the start of the event:
      the cached session if it contains the event, what memory holds next, then the database. */
  lemma ChooseIsRun(i: State, acts: seq<Action>, w: nat, e: Event, m: Manager, answer: TableAnswer, res: TableAnswer)
    returns (acts': seq<Action>)
    requires Run(i, acts).Some?
    requires var s := Run(i, acts).value;
             w < |s.workers| && s.workers[w] == Begun(e) && Mirrors(m, s) && Possible(s, e, answer)
    requires if m.Hit(e) then res == Found(m.cache[e.Visitor()].row)
             else Loaded(Rows(m.writeBuffer.All()), e, answer, res)
    ensures acts <= acts' && NoLeave(acts'[|acts|..])
    ensures Run(i, acts') == Some(SetPhase(Run(i, acts).value, w, Choice(e, res)))
  {
    hide Run, Loaded, PendingResult, TableResult;
    var s := Run(i, acts).value;
    acts' := Extend(i, acts, ReadCache(w));
    if !m.Hit(e) {
      var mid := acts';
      var t := Run(i, mid).value;
      assert Pending(t) == Pending(s);
      acts' := LoadIsRun(i, mid, w, e, Rows(m.writeBuffer.All()), answer, res);
      assert s.workers[w := NeedPending(e)][w := Choice(e, res)] == s.workers[w := Choice(e, res)];
    }
  }
}
