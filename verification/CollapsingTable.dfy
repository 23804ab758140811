/** The rows of the write buffer and of the VersionedCollapsingMergeTree table: how rows of
    equal session and version cancel, how the two lookups choose a row, and what they find
    when the rows of a session alternate between a state and its tombstone. */
module CollapsingTable {
  import opened Common
  import opened SessionRows

  // ---- Cancellation ------------------------------------------------------------------

  /** How many rows carry this session, version and sign. The engine cancels rows of one
      sorting key and version in pairs of opposite sign; the sorting key is fixed per session. */
  function Count(rows: seq<Row>, session: nat, version: nat, sign: int): nat {
    if rows == [] then 0
    else Count(rows[..|rows| - 1], session, version, sign)
         + if Matches(Last(rows), session, version, sign) then 1 else 0
  }

  predicate Matches(r: Row, session: nat, version: nat, sign: int) {
    r.session == session && r.version == version && r.sign == sign
  }

  function Net(rows: seq<Row>, session: nat, version: nat): int {
    Count(rows, session, version, 1) - Count(rows, session, version, -1)
  }

  /** A row that a query with FINAL still sees. */
  predicate Live(table: seq<Row>, r: Row) {
    r in table && r.sign == 1 && Net(table, r.session, r.version) > 0
  }

  function Of(rows: seq<Row>, session: nat): seq<Row> {
    if rows == [] then []
    else Of(rows[..|rows| - 1], session) + if Last(rows).session == session then [Last(rows)] else []
  }

  lemma {:induction false} OfMembers(rows: seq<Row>, session: nat)
    ensures forall r :: r in Of(rows, session) <==> r in rows && r.session == session
  {
    if rows != [] {
      var init := rows[..|rows| - 1];
      OfMembers(init, session);
      assert rows == init + [Last(rows)];
    }
  }

  lemma {:induction false} CountOf(rows: seq<Row>, session: nat, version: nat, sign: int)
    ensures Count(rows, session, version, sign) == Count(Of(rows, session), session, version, sign)
  {
    if rows != [] {
      var init, l := rows[..|rows| - 1], Last(rows);
      CountOf(init, session, version, sign);
      if l.session == session {
        assert Of(rows, session)[..|Of(init, session)|] == Of(init, session);
      } else {
        assert Of(rows, session) == Of(init, session);
      }
    }
  }

  lemma {:induction false} CountConcat(a: seq<Row>, b: seq<Row>, session: nat, version: nat, sign: int)
    ensures Count(a + b, session, version, sign)
         == Count(a, session, version, sign) + Count(b, session, version, sign)
    decreases |b|
  {
    if b == [] {
      assert a + b == a;
    } else {
      assert (a + b)[..|a + b| - 1] == a + b[..|b| - 1];
      CountConcat(a, b[..|b| - 1], session, version, sign);
    }
  }

  lemma {:induction false} CountPositive(rows: seq<Row>, r: Row)
    requires r in rows
    ensures Count(rows, r.session, r.version, r.sign) > 0
  {
    if r != Last(rows) {
      assert rows == rows[..|rows| - 1] + [Last(rows)];
      CountPositive(rows[..|rows| - 1], r);
    }
  }

  /** The order of the rows does not matter to cancellation, and fewer rows count less. */
  lemma {:induction false} CountMono(a: seq<Row>, b: seq<Row>, session: nat, version: nat, sign: int)
    requires multiset(a) <= multiset(b)
    ensures Count(a, session, version, sign) <= Count(b, session, version, sign)
    decreases |a|
  {
    if a != [] {
      var x, init := Last(a), a[..|a| - 1];
      var pre, post := Take(a, b);
      CountMono(init, pre + post, session, version, sign);
      CountConcat(pre, post, session, version, sign);
      CountConcat(pre, [x] + post, session, version, sign);
      CountConcat([x], post, session, version, sign);
      assert [x][..0] == [] && init + [x] == a;
    }
  }

  lemma Take(a: seq<Row>, b: seq<Row>) returns (pre: seq<Row>, post: seq<Row>)
    requires a != [] && multiset(a) <= multiset(b)
    ensures b == pre + ([Last(a)] + post)
    ensures multiset(a[..|a| - 1]) <= multiset(pre + post)
  {
    var x := Last(a);
    assert x in multiset(a);
    assert x in multiset(b);
    var i :| 0 <= i < |b| && b[i] == x;
    pre, post := b[..i], b[i + 1..];
    assert b == pre + ([x] + post);
    assert multiset(b) == multiset(pre) + (multiset([x]) + multiset(post));
    assert a == a[..|a| - 1] + [x];
    var m, n := multiset(a[..|a| - 1]), multiset(pre) + multiset(post);
    assert m + multiset{x} == multiset(a) && multiset(b) == n + multiset{x};
    forall y ensures m[y] <= n[y] {
      assert (m + multiset{x})[y] <= (n + multiset{x})[y];
    }
    assert multiset(pre + post) == n;
  }

  // ---- The rows of one session -------------------------------------------------------

  /** The first `len` rows of +r0, -r0, +r1, -r1, ... */
  function Zig(rows: seq<Row>, len: nat): seq<Row>
    requires len <= 2 * |rows|
  {
    seq(len, j requires 0 <= j < len => if j % 2 == 0 then rows[j / 2] else Tombstone(rows[j / 2]))
  }

  /** In such a log version `rows[i].version` has one +1 row if it was written and one -1 row if
      it was replaced, and no other version has any. */
  lemma {:induction false} ZigCounts(rows: seq<Row>, evs: seq<Event>, len: nat, version: nat)
    requires IsHistory(rows, evs) && len <= 2 * |rows|
    ensures forall i :: 0 <= i < |rows| && rows[i].version == version ==>
              Count(Zig(rows, len), rows[0].session, version, 1) == (if 2 * i < len then 1 else 0)
              && Count(Zig(rows, len), rows[0].session, version, -1) == (if 2 * i + 1 < len then 1 else 0)
    ensures (forall i :: 0 <= i < |rows| ==> rows[i].version != version) ==>
              Net(Zig(rows, len), rows[0].session, version) == 0
    decreases len
  {
    if len > 0 {
      ZigCounts(rows, evs, len - 1, version);
      assert Zig(rows, len)[..len - 1] == Zig(rows, len - 1);
      var k := (len - 1) / 2;
      HistoryGrows(rows, evs, 0, k);
      forall i | 0 <= i < |rows| && i != k ensures rows[i].version != rows[k].version {
        HistoryGrows(rows, evs, if i < k then i else k, if i < k then k else i);
      }
    }
  }

  lemma ZigMembers(rows: seq<Row>, evs: seq<Event>, len: nat, r: Row)
    requires IsHistory(rows, evs) && len <= 2 * |rows|
    requires r in Zig(rows, len)
    ensures r.session == rows[0].session
    ensures exists i :: 0 <= i < |rows| && (if r.sign == 1 then r == rows[i] else r == Tombstone(rows[i]))
  {
    var j :| 0 <= j < len && Zig(rows, len)[j] == r;
    HistoryGrows(rows, evs, 0, j / 2);
  }

  /** The log of one session: each state followed by its tombstone, except perhaps the newest. */
  ghost predicate SessionLog(log: seq<Row>, rows: seq<Row>, evs: seq<Event>, len: nat) {
    && IsHistory(rows, evs)
    && 2 * |rows| - 1 <= len <= 2 * |rows|
    && Of(log, rows[0].session) == Zig(rows, len)
  }

  lemma OfAppend(log: seq<Row>, r: Row, session: nat)
    ensures Of(log + [r], session) == if r.session == session then Of(log, session) + [r] else Of(log, session)
  {
    assert (log + [r])[..|log|] == log;
  }

  lemma HasMember(rows: seq<Row>)
    ensures rows == [] || exists r :: r in rows
  {
    if rows != [] {
      assert rows[0] in rows;
    }
  }

  lemma FirstState(log: seq<Row>, e: Event, r: Row)
    requires forall q :: q in log ==> q.session != r.session
    requires !e.Engagement() && r == NewRow(e, r.session, r.version)
    ensures SessionLog(log + [r], [r], [e], 1)
  {
    OfMembers(log, r.session);
    HasMember(Of(log, r.session));
    OfAppend(log, r, r.session);
    assert Zig([r], 1) == [r];
  }

  lemma ZigTombstone(rows: seq<Row>)
    requires rows != []
    ensures Zig(rows, 2 * |rows|) == Zig(rows, 2 * |rows| - 1) + [Tombstone(Last(rows))]
  {
  }

  lemma NextTombstone(log: seq<Row>, rows: seq<Row>, evs: seq<Event>)
    requires rows != [] && SessionLog(log, rows, evs, 2 * |rows| - 1)
    ensures SessionLog(log + [Tombstone(Last(rows))], rows, evs, 2 * |rows|)
  {
    HistoryGrows(rows, evs, 0, |rows| - 1);
    OfAppend(log, Tombstone(Last(rows)), rows[0].session);
    ZigTombstone(rows);
  }

  lemma NextState(log: seq<Row>, rows: seq<Row>, evs: seq<Event>, e: Event, r: Row)
    requires SessionLog(log, rows, evs, 2 * |rows|) && Follows(Last(rows), e, r)
    ensures SessionLog(log + [r], rows + [r], evs + [e], 2 * |rows| + 1)
  {
    HistoryGrows(rows, evs, 0, |rows| - 1);
    HistoryExtends(rows, evs, e, r);
    OfAppend(log, r, rows[0].session);
    assert Zig(rows + [r], 2 * |rows| + 1) == Zig(rows, 2 * |rows|) + [r];
  }

  lemma OtherSession(log: seq<Row>, r: Row, rows: seq<Row>, evs: seq<Event>, len: nat)
    requires SessionLog(log, rows, evs, len) && r.session != rows[0].session
    ensures SessionLog(log + [r], rows, evs, len)
  {
    OfAppend(log, r, rows[0].session);
  }

  /** Every row of the session's log is one of its states or the tombstone of one. */
  lemma LogRowOf(log: seq<Row>, rows: seq<Row>, evs: seq<Event>, len: nat, r: Row) returns (i: nat)
    requires SessionLog(log, rows, evs, len)
    requires r in log && r.session == rows[0].session
    ensures i < |rows| && (if r.sign == 1 then r == rows[i] else r == Tombstone(rows[i]))
  {
    OfMembers(log, r.session);
    ZigMembers(rows, evs, len, r);
    i :| 0 <= i < |rows| && (if r.sign == 1 then r == rows[i] else r == Tombstone(rows[i]));
  }

  /** Once the newest state is in the table, and no tombstone for it was written, a query sees it. */
  lemma NewestIsLive(table: seq<Row>, log: seq<Row>, rows: seq<Row>, evs: seq<Event>)
    requires rows != [] && SessionLog(log, rows, evs, 2 * |rows| - 1)
    requires multiset(table) <= multiset(log) && Last(rows) in table
    ensures Live(table, Last(rows))
  {
    var len, r := 2 * |rows| - 1, Last(rows);
    HistoryGrows(rows, evs, 0, |rows| - 1);
    CountPositive(table, r);
    CountMono(table, log, r.session, r.version, -1);
    CountOf(log, r.session, r.version, -1);
    ZigCounts(rows, evs, len, r.version);
  }

  /** A replaced state is not seen once the whole log is in the table. */
  lemma ReplacedIsNotLive(table: seq<Row>, log: seq<Row>, rows: seq<Row>, evs: seq<Event>, i: nat)
    requires i < |rows| - 1 && SessionLog(log, rows, evs, 2 * |rows| - 1) && multiset(table) == multiset(log)
    ensures Net(table, rows[i].session, rows[i].version) == 0
  {
    var id, v := rows[i].session, rows[i].version;
    HistoryGrows(rows, evs, 0, i);
    CountMono(table, log, id, v, 1);
    CountMono(log, table, id, v, 1);
    CountMono(table, log, id, v, -1);
    CountMono(log, table, id, v, -1);
    CountOf(log, id, v, 1);
    CountOf(log, id, v, -1);
    ZigCounts(rows, evs, 2 * |rows| - 1, v);
  }

  // ---- The two lookups ---------------------------------------------------------------

  predicate PendingState(pending: seq<Row>, key: Key, r: Row) {
    r in pending && r.sign == 1 && r.Visitor() == key
  }

  /** `r` is the newest pending state of its session. */
  ghost predicate Latest(pending: seq<Row>, key: Key, r: Row) {
    && PendingState(pending, key, r)
    && forall q :: PendingState(pending, key, q) && q.session == r.session ==> q.version <= r.version
  }

  predicate Precedes(q: Row, r: Row) {
    q.start < r.start || (q.start == r.start && q.version <= r.version)
  }

  /** What FindPendingAt may return: of the newest pending states whose window contains the time,
      one that starts last. */
  ghost predicate PendingResult(pending: seq<Row>, key: Key, t: int, res: Option<Row>) {
    match res
    case None => forall q :: Latest(pending, key, q) ==> !Contains(q, t)
    case Some(r) =>
      && Latest(pending, key, r) && Contains(r, t)
      && forall q :: Latest(pending, key, q) && Contains(q, t) ==> Precedes(q, r)
  }

  predicate Candidate(table: seq<Row>, key: Key, t: int, r: Row) {
    Live(table, r) && r.Visitor() == key && Contains(r, t) && t - LOOKBACK <= r.start
  }

  /** What GetActiveSessionAt may return. */
  ghost predicate TableResult(table: seq<Row>, key: Key, t: int, res: Option<Row>) {
    match res
    case None => forall q :: !Candidate(table, key, t, q)
    case Some(r) =>
      && Candidate(table, key, t, r)
      && forall q :: Candidate(table, key, t, q) ==> Precedes(q, r)
  }
}
