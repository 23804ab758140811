/** Session rows, the events that make and change them, and the pure parts of
    internal/session/session.go: the activity window, the duration, the row a
    first event creates and the row a later event turns an old row into. */
module SessionRows {
  import opened Common

  // Times are whole nanoseconds, as in Go's time.Time.
  const SECOND := 1_000_000_000
  const INACTIVITY := 30 * 60 * SECOND
  // GetActiveSessionAt looks at sessions that started at most seven days before the event.
  const LOOKBACK := 7 * 24 * 3600 * SECOND

  /** The cache key "session:user:site". */
  datatype Key = Key(user: nat, site: nat)

  /** `details` stands for every descriptive column that is only ever copied. */
  datatype Event = Event(user: nat, site: nat, name: string, interactive: bool, ts: int,
                         host: string, path: string, details: seq<string>)
  {
    function Visitor(): Key { Key(user, site) }
    predicate Pageview() { name == "pageview" }
    predicate Engagement() { name == "engagement" }
    // An interactive event that is neither a pageview nor an engagement ends a bounce.
    predicate EndsBounce() { interactive && !Pageview() && !Engagement() }
  }

  datatype Row = Row(version: nat, sign: int, session: nat, user: nat, site: nat, start: int, ts: int,
                     pageviews: int, events: int, duration: int, bounce: int,
                     entryPage: string, exitPage: string, host: string, details: seq<string>)
  {
    function Visitor(): Key { Key(user, site) }
  }

  predicate Contains(r: Row, t: int) {
    r.start <= t <= r.ts + INACTIVITY
  }

  function DurationSeconds(start: int, end: int): int {
    if end < start then 0 else (end - start) / SECOND
  }

  function NewRow(e: Event, session: nat, version: nat): Row {
    Row(version, 1, session, e.user, e.site, e.ts, e.ts,
        if e.Pageview() then 1 else 0, 1, 0,
        if e.Pageview() || !e.interactive then 1 else 0,
        e.path, e.path, if e.Pageview() then e.host else "", e.details)
  }

  function UpdateRow(r: Row, e: Event, version: nat): Row {
    var pageviews := if e.Pageview() then r.pageviews + 1 else r.pageviews;
    var ts := if e.ts > r.ts then e.ts else r.ts;
    r.(version := version,
       pageviews := pageviews,
       ts := ts,
       entryPage := if r.entryPage == "" && e.Pageview() then e.path else r.entryPage,
       exitPage := if e.Pageview() && e.ts >= r.ts then e.path else r.exitPage,
       host := if r.host == "" && e.Pageview() then e.host else r.host,
       bounce := if r.bounce == 1 && (pageviews > 1 || e.EndsBounce()) then 0 else r.bounce,
       duration := DurationSeconds(r.start, ts),
       events := r.events + 1)
  }

  /** The Sign=-1 copy that cancels `r`. */
  function Tombstone(r: Row): Row {
    r.(sign := -1)
  }

  /** One session from its first event on: `rows[i]` is the state after `evs[..i+1]`.
      Versions grow and every later event fell into the window it met. */
  ghost predicate IsHistory(rows: seq<Row>, evs: seq<Event>) {
    && 0 < |rows| == |evs|
    && !evs[0].Engagement()
    && rows[0] == NewRow(evs[0], rows[0].session, rows[0].version)
    && forall i :: 0 < i < |rows| ==> Follows(rows[i - 1], evs[i], rows[i])
  }

  ghost predicate Follows(r: Row, e: Event, next: Row) {
    && e.Visitor() == r.Visitor()
    && Contains(r, e.ts)
    && r.version < next.version
    && next == UpdateRow(r, e, next.version)
  }

  /** Identity, start and sign never change along a history; versions strictly grow
      and windows only widen. */
  lemma {:induction false} HistoryGrows(rows: seq<Row>, evs: seq<Event>, i: nat, j: nat)
    requires IsHistory(rows, evs)
    requires i <= j < |rows|
    ensures rows[i].session == rows[j].session && rows[i].Visitor() == rows[j].Visitor()
    ensures rows[i].start == rows[j].start && rows[i].ts <= rows[j].ts
    ensures rows[i].sign == rows[j].sign == 1
    ensures i < j ==> rows[i].version < rows[j].version
    ensures forall t :: Contains(rows[i], t) ==> Contains(rows[j], t)
    decreases j
  {
    if i < j {
      HistoryGrows(rows, evs, i, j - 1);
      assert Follows(rows[j - 1], evs[j], rows[j]);
    } else if 0 < j {
      HistoryGrows(rows, evs, j - 1, j - 1);
      assert Follows(rows[j - 1], evs[j], rows[j]);
    }
  }

  /** Extending a history by one accepted event keeps it a history. */
  lemma HistoryExtends(rows: seq<Row>, evs: seq<Event>, e: Event, next: Row)
    requires IsHistory(rows, evs)
    requires Follows(Last(rows), e, next)
    ensures IsHistory(rows + [next], evs + [e])
  {
    var rs, es := rows + [next], evs + [e];
    forall i | 0 < i < |rs| ensures Follows(rs[i - 1], es[i], rs[i]) {
      if i < |rows| {
        assert Follows(rows[i - 1], evs[i], rows[i]);
      }
    }
  }
}
