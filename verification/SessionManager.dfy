/** internal/session/session.go and buffer.go as they update memory: session structs on the heap,
    the shared write buffer, the cache of pointers and the version counter. */
module SessionManager {
  import opened Common
  import opened SessionRows
  import opened CollapsingTable
  import opened SessionProtocol
  import opened SessionHandling

  /** A pointer to the Go struct models.Sessions; its fields are those of `row`. */
  class Session {
    var row: Row

    constructor (r: Row)
      ensures row == r
    {
      row := r;
    }

    /** CopySession: a new struct, equal in every column. */
    method Copy() returns (c: Session)
      ensures fresh(c) && c.row == row
    {
      c := new Session(row);
    }
  }

  ghost function Rows(ss: seq<Session>): (rows: seq<Row>)
    reads ss
    ensures |rows| == |ss| && forall i :: 0 <= i < |ss| ==> rows[i] == ss[i].row
  {
    if ss == [] then [] else Rows(ss[..|ss| - 1]) + [Last(ss).row]
  }

  lemma RowsAppend(ss: seq<Session>, s: Session)
    ensures Rows(ss + [s]) == Rows(ss) + [s.row]
  {
  }

  /** internal/session/buffer.go, WriteBuffer. `inflight` holds the batches taken and not yet
      confirmed; Go keeps them in a map, so their order means nothing here. */
  class WriteBuffer {
    var buffer: seq<Session>
    var inflight: seq<seq<Session>>
    var closed: bool
    const batchSize: int

    constructor (batchSize: int)
      ensures this.batchSize == batchSize && buffer == [] && inflight == [] && !closed
    {
      this.batchSize := batchSize;
      buffer, inflight, closed := [], [], false;
    }

    /** Refused after Shutdown; otherwise the row goes to the end and a full buffer asks for a flush. */
    method Add(s: Session) returns (shouldFlush: bool)
      modifies this`buffer
      ensures buffer == if closed then old(buffer) else old(buffer) + [s]
      ensures shouldFlush <==> !closed && |buffer| >= batchSize
    {
      if closed {
        return false;
      }
      buffer := buffer + [s];
      shouldFlush := |buffer| >= batchSize;
    }

    /** First lock section of flushAndWrite: the rows move to an in-flight batch. */
    method TakeBatch() returns (batch: seq<Session>)
      modifies this`buffer, this`inflight
      ensures batch == old(buffer) && buffer == []
      ensures inflight == if batch == [] then old(inflight) else old(inflight) + [batch]
    {
      batch := buffer;
      if |buffer| == 0 {
        return;
      }
      buffer := [];
      inflight := inflight + [batch];
    }

    /** Last lock section of flushAndWrite. */
    method Complete(i: nat)
      requires i < |inflight|
      modifies this`inflight
      ensures inflight == old(inflight)[..i] + old(inflight)[i + 1..]
    {
      inflight := inflight[..i] + inflight[i + 1..];
    }

    method Shutdown()
      modifies this`closed
      ensures closed
    {
      closed := true;
    }

    /** Every struct in memory; FindPendingAt scans the buffer first, which makes no difference. */
    ghost function All(): seq<Session>
      reads this`buffer, this`inflight
    {
      buffer + Concat(inflight)
    }

    /** The scans of FindPendingAt: the newest state in memory of each session of the visitor. */
    method NewestInMemory(user: nat, site: nat) returns (latest: map<nat, Session>)
      ensures Newest(latest, All(), user, site)
    {
      latest := ScanBuffer(buffer, user, site);
      latest := ScanBatches(latest, buffer, inflight, user, site);
    }

    /** Of the newest state of each session in memory, the one that starts last among those whose
        window contains `t`. */
    method FindPendingAt(user: nat, site: nat, t: int) returns (best: Session?)
      ensures UniqueVersions(Rows(All())) ==> PendingResult(Rows(All()), Key(user, site), t, RowOf(best))
      ensures UniqueVersions(Rows(All())) ==> LastToStart(Rows(All()), user, site, t, RowOf(best))
    {
      var latest := NewestInMemory(user, site);
      best := Best(latest, t);
      PendingOf(latest, All(), user, site, t, best);
      PendingMeans(Rows(All()), user, site, t, RowOf(best));
    }
  }

  /** A state of the visitor that no newer state of its session replaces. */
  ghost predicate Unreplaced(rows: seq<Row>, user: nat, site: nat, r: Row) {
    && r in rows && r.sign == 1 && r.user == user && r.site == site
    && forall q :: q in rows && q.sign == 1 && q.user == user && q.site == site && q.session == r.session ==>
         q.version <= r.version
  }

  /** Of these states whose start is at most `t` and whose last event is at most 30 minutes before `t`, one
      with the latest start and then the greatest version; None if there is none. */
  ghost predicate LastToStart(rows: seq<Row>, user: nat, site: nat, t: int, res: Option<Row>) {
    match res
    case None =>
      forall q :: Unreplaced(rows, user, site, q) ==> t < q.start || q.ts + 1_800_000_000_000 < t
    case Some(r) =>
      && Unreplaced(rows, user, site, r) && r.start <= t <= r.ts + 1_800_000_000_000
      && forall q :: Unreplaced(rows, user, site, q) && q.start <= t <= q.ts + 1_800_000_000_000 ==>
           q.start < r.start || (q.start == r.start && q.version <= r.version)
  }

  lemma PendingMeans(rows: seq<Row>, user: nat, site: nat, t: int, res: Option<Row>)
    ensures PendingResult(rows, Key(user, site), t, res) <==> LastToStart(rows, user, site, t, res)
  {
    var key := Key(user, site);
    forall r ensures PendingState(rows, key, r) <==> r in rows && r.sign == 1 && r.user == user && r.site == site {
    }
    forall r ensures Latest(rows, key, r) <==> Unreplaced(rows, user, site, r) {
    }
  }

  function RowOf(s: Session?): Option<Row>
    reads s
  {
    if s == null then None else Some(s.row)
  }

  ghost function Concat(batches: seq<seq<Session>>): (all: seq<Session>)
    ensures forall s :: s in all ==> exists i :: 0 <= i < |batches| && s in batches[i]
  {
    if batches == [] then [] else Concat(batches[..|batches| - 1]) + Last(batches)
  }

  predicate Relevant(s: Session, user: nat, site: nat)
    reads s
  {
    s.row.sign == 1 && s.row.user == user && s.row.site == site
  }

  /** `latest` maps each session with a state in `seen` to its newest one. */
  ghost predicate Newest(latest: map<nat, Session>, seen: seq<Session>, user: nat, site: nat)
    reads seen, latest.Values
  {
    && (forall id :: id in latest ==>
         latest[id] in seen && Relevant(latest[id], user, site) && latest[id].row.session == id)
    && (forall s :: s in seen && Relevant(s, user, site) ==>
          s.row.session in latest && s.row.version <= latest[s.row.session].row.version)
  }

  lemma ConcatNext(batches: seq<seq<Session>>, b: nat)
    requires b < |batches|
    ensures Concat(batches[..b + 1]) == Concat(batches[..b]) + batches[b]
  {
    assert batches[..b + 1][..b] == batches[..b];
  }

  /** The closure `consider` of FindPendingAt. */
  function Consider(latest: map<nat, Session>, s: Session, user: nat, site: nat): map<nat, Session>
    reads s, latest.Values
  {
    if Relevant(s, user, site) &&
       (s.row.session !in latest || s.row.version > latest[s.row.session].row.version)
    then latest[s.row.session := s] else latest
  }

  lemma ConsiderKeeps(latest: map<nat, Session>, seen: seq<Session>, s: Session, user: nat, site: nat)
    requires Newest(latest, seen, user, site)
    ensures Newest(Consider(latest, s, user, site), seen + [s], user, site)
  {
  }

  method ScanBuffer(buffer: seq<Session>, user: nat, site: nat) returns (latest: map<nat, Session>)
    ensures Newest(latest, buffer, user, site)
  {
    latest := map[];
    ghost var seen: seq<Session> := [];
    for i := 0 to |buffer|
      invariant seen == buffer[..i] && Newest(latest, seen, user, site)
    {
      ConsiderKeeps(latest, seen, buffer[i], user, site);
      latest, seen := Consider(latest, buffer[i], user, site), seen + [buffer[i]];
    }
  }

  method ScanBatches(
      first: map<nat, Session>, ghost buffer: seq<Session>, inflight: seq<seq<Session>>, user: nat, site: nat)
    returns (latest: map<nat, Session>)
    requires Newest(first, buffer, user, site)
    ensures Newest(latest, buffer + Concat(inflight), user, site)
  {
    hide Newest, Consider;
    latest := first;
    ghost var seen := buffer;
    for b := 0 to |inflight|
      invariant seen == buffer + Concat(inflight[..b]) && Newest(latest, seen, user, site)
    {
      ghost var before := seen;
      var batch := inflight[b];
      for i := 0 to |batch|
        invariant seen == before + batch[..i] && Newest(latest, seen, user, site)
      {
        ConsiderKeeps(latest, seen, batch[i], user, site);
        latest, seen := Consider(latest, batch[i], user, site), seen + [batch[i]];
      }
      ConcatNext(inflight, b);
    }
    assert inflight[..|inflight|] == inflight;
  }

  /** The last loop of FindPendingAt, over a map in no particular order. */
  method Best(latest: map<nat, Session>, t: int) returns (best: Session?)
    ensures best == null ==> forall id :: id in latest ==> !Contains(latest[id].row, t)
    ensures best != null ==> best in latest.Values && Contains(best.row, t)
    ensures best != null ==>
              forall id :: id in latest && Contains(latest[id].row, t) ==> Precedes(latest[id].row, best.row)
  {
    best := null;
    var rest := latest.Keys;
    while rest != {}
      invariant rest <= latest.Keys
      invariant best == null ==> forall id :: id in latest && id !in rest ==> !Contains(latest[id].row, t)
      invariant best != null ==> best in latest.Values && Contains(best.row, t)
      invariant best != null ==> forall id :: id in latest && id !in rest && Contains(latest[id].row, t)
                                              ==> Precedes(latest[id].row, best.row)
      decreases rest
    {
      var id :| id in rest;
      var s := latest[id];
      if Contains(s.row, t) &&
         (best == null || s.row.start > best.row.start ||
          (s.row.start == best.row.start && s.row.version > best.row.version)) {
        best := s;
      }
      rest := rest - {id};
    }
  }

  /** nextVersion never repeats, so a session has one state per version. */
  ghost predicate UniqueVersions(rows: seq<Row>) {
    forall a, b ::
      a in rows && b in rows && a.sign == 1 && b.sign == 1 && a.session == b.session && a.version == b.version ==>
        a == b
  }

  lemma InRows(ss: seq<Session>, s: Session)
    requires s in ss
    ensures s.row in Rows(ss)
  {
    var i :| 0 <= i < |ss| && ss[i] == s;
    assert Rows(ss)[i] == s.row;
  }

  lemma FromRows(ss: seq<Session>, r: Row) returns (s: Session)
    requires r in Rows(ss)
    ensures s in ss && s.row == r
  {
    var i :| 0 <= i < |ss| && Rows(ss)[i] == r;
    s := ss[i];
  }

  /** The newest pending row of a session is the one in `latest`. */
  lemma LatestIs(latest: map<nat, Session>, all: seq<Session>, user: nat, site: nat, q: Row)
    requires Newest(latest, all, user, site) && UniqueVersions(Rows(all))
    ensures Latest(Rows(all), Key(user, site), q) <==> q.session in latest && q == latest[q.session].row
  {
    var rows, key := Rows(all), Key(user, site);
    if PendingState(rows, key, q) {
      var s := FromRows(all, q);
      assert Relevant(s, user, site);
      InRows(all, latest[q.session]);
    }
    if q.session in latest && q == latest[q.session].row {
      InRows(all, latest[q.session]);
      forall p | PendingState(rows, key, p) && p.session == q.session ensures p.version <= q.version {
        var s := FromRows(all, p);
        assert Relevant(s, user, site);
      }
    }
  }

  lemma PendingOf(latest: map<nat, Session>, all: seq<Session>, user: nat, site: nat, t: int, best: Session?)
    requires Newest(latest, all, user, site)
    requires best == null ==> forall id :: id in latest ==> !Contains(latest[id].row, t)
    requires best != null ==> best in latest.Values && Contains(best.row, t)
    requires best != null ==>
               forall id :: id in latest && Contains(latest[id].row, t) ==> Precedes(latest[id].row, best.row)
    ensures UniqueVersions(Rows(all)) ==> PendingResult(Rows(all), Key(user, site), t, RowOf(best))
  {
    if UniqueVersions(Rows(all)) {
      forall q ensures Latest(Rows(all), Key(user, site), q) <==> q.session in latest && q == latest[q.session].row {
        LatestIs(latest, all, user, site, q);
      }
    }
  }

  /** What the call to GetActiveSessionAt brings back. */
  datatype TableAnswer = Found(row: Row) | NotFound | Failed

  /** What loadSessionFromDB returns for event `e` when the database would answer `answer`. */
  ghost predicate Loaded(pending: seq<Row>, e: Event, answer: TableAnswer, res: TableAnswer) {
    || (res.Found? && PendingResult(pending, e.Visitor(), e.ts, Some(res.row)))
    || (res == answer && PendingResult(pending, e.Visitor(), e.ts, None))
  }

  lemma UpdateMeans(r: Row, e: Event, v: nat)
    ensures var n := UpdateRow(r, e, v);
            && n.version == v && n.session == r.session
            && (n.bounce == 1 <==> && r.bounce == 1 && n.pageviews <= 1
                                   && (e.interactive ==> e.name == "pageview" || e.name == "engagement"))
  {
  }

  /** internal/session/session.go, SessionManager. */
  class Manager {
    var versionCounter: nat
    var cache: map<Key, Session>
    const writeBuffer: WriteBuffer

    constructor (start: nat, batchSize: int)
      ensures versionCounter == start && cache == map[] && fresh(writeBuffer)
      ensures writeBuffer.buffer == [] && writeBuffer.inflight == [] && !writeBuffer.closed
    {
      versionCounter, cache := start, map[];
      writeBuffer := new WriteBuffer(batchSize);
    }

    ghost function Cached(): map<Key, Row>
      reads this`cache, cache.Values
    {
      map key | key in cache :: cache[key].row
    }

    ghost function Memory(): Memory
      reads this`cache, this`versionCounter, cache.Values, writeBuffer`buffer, writeBuffer.buffer
    {
      SessionHandling.Memory(versionCounter, Cached(), Rows(writeBuffer.buffer))
    }

    /** After Shutdown the write buffer takes no rows; the cache and the counter still move on. */
    ghost function Accepted(before: Memory, after: Memory): Memory
      reads writeBuffer`closed
    {
      if writeBuffer.closed then after.(buffer := before.buffer) else after
    }

    method NextVersion() returns (v: nat)
      modifies this`versionCounter
      ensures v == versionCounter == old(versionCounter) + 1
    {
      versionCounter := versionCounter + 1;
      v := versionCounter;
    }

    method NewSession(e: Event, id: nat) returns (s: Session)
      modifies this`versionCounter
      ensures versionCounter == old(versionCounter) + 1
      ensures fresh(s) && s.row == NewRow(e, id, versionCounter)
      ensures s.row.version == versionCounter && s.row.session == id && s.row.sign == 1
    {
      var host, pageviews := "", 0;
      if e.name == "pageview" {
        host := e.host;
        pageviews := pageviews + 1;
      }
      var bounce := 0;
      if e.name == "pageview" || !e.interactive {
        bounce := 1;
      }
      var v := NextVersion();
      s := new Session(Row(v, 1, id, e.user, e.site, e.ts, e.ts, pageviews, 1, 0, bounce,
                           e.path, e.path, host, e.details));
    }

    /** The new state is a fresh struct; the one it is made from is not touched. */
    method UpdateSession(s: Session, e: Event) returns (n: Session)
      modifies this`versionCounter
      ensures versionCounter == old(versionCounter) + 1
      ensures fresh(n) && n.row == UpdateRow(s.row, e, versionCounter)
      ensures n.row.version == versionCounter && n.row.session == s.row.session
      ensures n.row.bounce == 1 <==>
                && s.row.bounce == 1 && n.row.pageviews <= 1
                && (e.interactive ==> e.name == "pageview" || e.name == "engagement")
    {
      n := s.Copy();
      var v := NextVersion();
      n.row := n.row.(version := v);
      var pageview := e.name == "pageview";
      var pageviews := if pageview then s.row.pageviews + 1 else s.row.pageviews;
      n.row := n.row.(pageviews := pageviews);
      if e.ts > n.row.ts {
        n.row := n.row.(ts := e.ts);
      }
      if s.row.entryPage == "" && pageview {
        n.row := n.row.(entryPage := e.path);
      }
      if pageview && e.ts >= s.row.ts {
        n.row := n.row.(exitPage := e.path);
      }
      if s.row.host == "" && pageview {
        n.row := n.row.(host := e.host);
      }
      if s.row.bounce == 1 {
        if pageviews > 1 || (e.interactive && !pageview && e.name != "engagement") {
          n.row := n.row.(bounce := 0);
        }
      }
      n.row := n.row.(duration := DurationSeconds(s.row.start, n.row.ts));
      n.row := n.row.(events := n.row.events + 1);
      assert n.row == UpdateRow(s.row, e, versionCounter);
      hide UpdateRow;
      UpdateMeans(s.row, e, versionCounter);
    }

    method UpdateSessionCache(s: Session)
      modifies this`cache
      ensures Cached() == CacheAfter(old(Cached()), s.row)
      ensures var key := Key(s.row.user, s.row.site);
              key in cache &&
              if key in old(cache) && old(cache[key].row.session) != s.row.session && s.row.ts < old(cache[key].row.ts)
              then cache[key] == old(cache)[key] else cache[key] == s
      ensures forall key :: key in old(cache) && key != Key(s.row.user, s.row.site) ==>
                key in cache && cache[key] == old(cache)[key]
      ensures forall key :: key in cache ==> cache[key] == s || (key in old(cache) && cache[key] == old(cache)[key])
    {
      var key := s.row.Visitor();
      if key !in cache || cache[key].row.session == s.row.session || s.row.ts >= cache[key].row.ts {
        cache := cache[key := s];
      }
    }

    /** loadSessionFromDB: what memory holds comes first, and is copied; `answer` is what the database
        would say. */
    method Load(e: Event, answer: TableAnswer) returns (found: Session?, failed: bool)
      ensures found != null ==> fresh(found)
      ensures UniqueVersions(Rows(writeBuffer.All())) ==>
                Loaded(Rows(writeBuffer.All()), e, answer,
                       if failed then Failed else if found == null then NotFound else Found(found.row))
    {
      found, failed := null, false;
      var pending := writeBuffer.FindPendingAt(e.user, e.site, e.ts);
      ghost var rows := Rows(writeBuffer.All());
      if pending != null {
        found := pending.Copy();
        assert Rows(writeBuffer.All()) == rows;
        return;
      }
      match answer {
        case Found(row) => found := new Session(row);
        case NotFound =>
        case Failed => failed := true;
      }
    }

    /** findSession, and a load if the cached session does not contain the event. */
    method Choose(e: Event, answer: TableAnswer) returns (found: Session?, failed: bool)
      ensures var key := Key(e.user, e.site);
              key in cache && cache[key].row.start <= e.ts <= cache[key].row.ts + 1_800_000_000_000 ==>
                found == cache[key] && !failed
      ensures if Hit(e) then found == cache[e.Visitor()] && !failed
              else UniqueVersions(Rows(writeBuffer.All())) ==>
                     Loaded(Rows(writeBuffer.All()), e, answer,
                            if failed then Failed else if found == null then NotFound else Found(found.row))
    {
      if Hit(e) {
        return cache[e.Visitor()], false;
      }
      found, failed := Load(e, answer);
    }

    predicate Hit(e: Event)
      reads this`cache, cache.Values
    {
      e.Visitor() in cache && Contains(cache[e.Visitor()].row, e.ts)
    }

    /** The Sign=-1 copy. */
    method Cancel(s: Session) returns (t: Session)
      ensures fresh(t) && t.row == Tombstone(s.row) && t.row == s.row.(sign := -1)
    {
      t := s.Copy();
      t.row := t.row.(sign := -1);
    }

    method Append(s: Session)
      modifies writeBuffer`buffer
      ensures writeBuffer.buffer == old(writeBuffer.buffer) + if writeBuffer.closed then [] else [s]
      ensures Rows(writeBuffer.buffer) == old(Rows(writeBuffer.buffer)) + if writeBuffer.closed then [] else [s.row]
      ensures Cached() == old(Cached())
    {
      RowsAppend(writeBuffer.buffer, s);
      var _ := writeBuffer.Add(s);
    }

    /** handleEvent when no session contains the event. */
    method Open(e: Event, id: nat) returns (res: Session)
      requires e.name != "engagement"
      modifies this, writeBuffer`buffer
      ensures Memory() == Accepted(old(Memory()), SessionHandling.Handle(old(Memory()), e, None, id).0)
      ensures fresh(res) && Some(res.row) == SessionHandling.Handle(old(Memory()), e, None, id).1
      ensures versionCounter == old(versionCounter) + 1
      ensures res.row.version == versionCounter && res.row.session == id && res.row.sign == 1
      ensures writeBuffer.buffer == old(writeBuffer.buffer) + if writeBuffer.closed then [] else [res]
    {
      hide Rows, NewRow, CacheAfter;
      res := NewSession(e, id);
      assert Cached() == old(Cached()) && Rows(writeBuffer.buffer) == old(Rows(writeBuffer.buffer));
      StoreFirst(res);
    }

    method StoreFirst(res: Session)
      modifies this`cache, writeBuffer`buffer
      ensures writeBuffer.buffer == old(writeBuffer.buffer) + if writeBuffer.closed then [] else [res]
      ensures Rows(writeBuffer.buffer) == old(Rows(writeBuffer.buffer)) + if writeBuffer.closed then [] else [res.row]
      ensures Cached() == CacheAfter(old(Cached()), res.row)
    {
      Append(res);
      UpdateSessionCache(res);
    }

    /** The two rows of an update. */
    method MakePair(e: Event, found: Session) returns (dead: Session, res: Session)
      modifies this`versionCounter
      ensures versionCounter == old(versionCounter) + 1
      ensures fresh(dead) && dead.row == Tombstone(found.row) && dead.row == found.row.(sign := -1)
      ensures fresh(res) && res != dead && res.row == UpdateRow(found.row, e, versionCounter).(sign := 1)
      ensures res.row.version == versionCounter && res.row.session == found.row.session
    {
      dead := Cancel(found);
      res := UpdateSession(found, e);
      res.row := res.row.(sign := 1);
    }

    method Store(dead: Session, res: Session)
      modifies this`cache, writeBuffer`buffer
      ensures writeBuffer.buffer == old(writeBuffer.buffer) + if writeBuffer.closed then [] else [dead, res]
      ensures Rows(writeBuffer.buffer)
           == old(Rows(writeBuffer.buffer)) + if writeBuffer.closed then [] else [dead.row, res.row]
      ensures Cached() == CacheAfter(old(Cached()), res.row)
    {
      hide Rows, CacheAfter;
      Append(dead);
      Append(res);
      UpdateSessionCache(res);
      assert writeBuffer.buffer == old(writeBuffer.buffer) + if writeBuffer.closed then [] else [dead, res];
    }

    /** handleEvent when `found` contains the event. */
    method Update(e: Event, found: Session, ghost id: nat) returns (res: Session, ghost tombstone: Session)
      modifies this, writeBuffer`buffer
      ensures Memory() == Accepted(old(Memory()), SessionHandling.Handle(old(Memory()), e, Some(found.row), id).0)
      ensures tombstone.row == found.row.(sign := -1) && versionCounter == old(versionCounter) + 1
      ensures res.row.version == versionCounter && res.row.session == found.row.session && res.row.sign == 1
      ensures fresh(res) && fresh(tombstone) &&
                Some(res.row) == SessionHandling.Handle(old(Memory()), e, Some(found.row), id).1
      ensures writeBuffer.buffer == old(writeBuffer.buffer) + if writeBuffer.closed then [] else [tombstone, res]
    {
      hide Rows, UpdateRow, CacheAfter;
      var dead;
      dead, res := MakePair(e, found);
      assert Cached() == old(Cached()) && Rows(writeBuffer.buffer) == old(Rows(writeBuffer.buffer));
      Store(dead, res);
      tombstone := dead;
    }

    /** handleEvent once the session is chosen. It writes only fresh structs, so the rows already
        buffered, in flight or cached keep their values: memory changes as Handle says. */
    method HandleEvent(e: Event, found: Session?, id: nat) returns (res: Session?)
      modifies this, writeBuffer`buffer
      ensures var (m, r) := SessionHandling.Handle(old(Memory()), e, RowOf(found), id);
              && Memory() == Accepted(old(Memory()), m)
              && if res == null then r.None? else fresh(res) && r == Some(res.row)
      ensures res == null <==> found == null && e.name == "engagement"
      ensures res == null ==> versionCounter == old(versionCounter) && cache == old(cache)
      ensures res != null ==>
                && versionCounter == old(versionCounter) + 1
                && res.row.version == versionCounter && res.row.sign == 1
                && res.row.session == if found == null then id else found.row.session
      ensures old(writeBuffer.buffer) <= writeBuffer.buffer
      ensures var added := writeBuffer.buffer[|old(writeBuffer.buffer)|..];
              && fresh(added)
              && if res == null || writeBuffer.closed then added == []
                 else if found == null then added == [res]
                 else |added| == 2 && added[0].row == found.row.(sign := -1) && added[1] == res
    {
      res := null;
      if found == null {
        if e.name == "engagement" {
          return;
        }
        res := Open(e, id);
      } else {
        ghost var tombstone;
        res, tombstone := Update(e, found, id);
      }
    }
  }
}
