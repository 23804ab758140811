/** What a session row says about the events accepted into it, in closed form, and
    which of its columns depend on the order in which those events arrived. */
module SessionFold {
  import opened Common
  import opened SessionRows

  function Pageviews(evs: seq<Event>): nat {
    if evs == [] then 0 else Pageviews(evs[..|evs| - 1]) + if Last(evs).name == "pageview" then 1 else 0
  }

  ghost predicate IsLatest(evs: seq<Event>, t: int) {
    && (exists i :: 0 <= i < |evs| && evs[i].ts == t)
    && (forall i :: 0 <= i < |evs| ==> evs[i].ts <= t)
  }

  /** Event `k` sets the exit page: the first event, or a pageview not older than
      anything before it. */
  ghost predicate SetsExit(evs: seq<Event>, k: nat)
    requires k < |evs|
  {
    k == 0 || (evs[k].name == "pageview" && forall i :: 0 <= i < k ==> evs[i].ts <= evs[k].ts)
  }

  ghost predicate LastExit(evs: seq<Event>, k: nat) {
    k < |evs| && SetsExit(evs, k) && forall j :: k < j < |evs| ==> !SetsExit(evs, j)
  }

  /** `v` is the first non-empty value offered: by the first event if `first`, and by
      every pageview; "" when there is none. */
  ghost predicate FirstOffered(evs: seq<Event>, val: Event -> string, first: bool, v: string) {
    || (v == "" && forall i :: 0 <= i < |evs| && Offers(evs, i, first) ==> val(evs[i]) == "")
    || (v != "" && exists k :: 0 <= k < |evs| && Offers(evs, k, first) && val(evs[k]) == v
                               && forall i :: 0 <= i < k && Offers(evs, i, first) ==> val(evs[i]) == "")
  }

  predicate Offers(evs: seq<Event>, i: int, first: bool)
    requires 0 <= i < |evs|
  {
    evs[i].name == "pageview" || (first && i == 0)
  }

  ghost predicate Counts(r: Row, evs: seq<Event>) {
    && r.events == |evs|
    && r.pageviews == Pageviews(evs)
    && IsLatest(evs, r.ts)
    && r.start == evs[0].ts
    && r.user == evs[0].user && r.site == evs[0].site && r.sign == 1
    && r.details == evs[0].details
    && r.duration == (r.ts - r.start) / 1_000_000_000
    && r.bounce in {0, 1}
    && (r.bounce == 1 <==>
          && Pageviews(evs) <= 1
          && forall e :: e in evs && e.interactive ==> e.name == "pageview" || e.name == "engagement")
  }

  lemma BounceStep(evs: seq<Event>, e: Event)
    ensures Pageviews(evs + [e]) == Pageviews(evs) + if e.name == "pageview" then 1 else 0
    ensures (forall x :: x in evs + [e] && x.interactive ==> x.name == "pageview" || x.name == "engagement")
            <==> (forall x :: x in evs && x.interactive ==> x.name == "pageview" || x.name == "engagement")
                 && (e.interactive ==> e.name == "pageview" || e.name == "engagement")
  {
    var all := evs + [e];
    assert all[..|evs|] == evs;
    assert forall x :: x in all <==> x in evs || x == e;
  }

  lemma CountsStep(r: Row, evs: seq<Event>, e: Event, next: Row)
    requires evs != [] && Counts(r, evs) && Follows(r, e, next)
    ensures Counts(next, evs + [e])
  {
    BounceStep(evs, e);
    LatestStep(evs, r.ts, e);
    assert (evs + [e])[0] == evs[0];
    assert r.start <= r.ts;
  }

  /** Counts, latest time, start, duration (the clamp at zero never fires) and the bounce flag
      of every state of a session. */
  lemma {:induction false} RowCounts(rows: seq<Row>, evs: seq<Event>)
    requires IsHistory(rows, evs)
    ensures Counts(Last(rows), evs)
    decreases |rows|
  {
    var n := |rows| - 1;
    if n == 0 {
      BounceStep([], evs[0]);
      assert evs == [] + [evs[0]];
    } else {
      var rs, es := rows[..n], evs[..n];
      assert IsHistory(rs, es) by {
        forall i | 0 < i < n ensures Follows(rs[i - 1], es[i], rs[i]) {
          assert Follows(rows[i - 1], evs[i], rows[i]);
        }
      }
      RowCounts(rs, es);
      assert Follows(rows[n - 1], evs[n], rows[n]);
      assert evs == es + [evs[n]];
      CountsStep(rows[n - 1], es, evs[n], rows[n]);
    }
  }

  lemma LatestStep(evs: seq<Event>, t: int, e: Event)
    requires IsLatest(evs, t)
    ensures IsLatest(evs + [e], if e.ts > t then e.ts else t)
  {
    var k :| 0 <= k < |evs| && evs[k].ts == t;
    var all := evs + [e];
    assert all[k] == evs[k] && all[|evs|] == e;
  }

  /** The three columns that depend on arrival order, described without replaying the updates. */
  lemma {:induction false} RowPages(rows: seq<Row>, evs: seq<Event>)
    requires IsHistory(rows, evs)
    ensures exists k: nat :: LastExit(evs, k) && Last(rows).exitPage == evs[k].path
    ensures FirstOffered(evs, (e: Event) => e.path, true, Last(rows).entryPage)
    ensures FirstOffered(evs, (e: Event) => e.host, false, Last(rows).host)
    decreases |rows|
  {
    var n := |rows| - 1;
    if n == 0 {
      assert LastExit(evs, 0);
    } else {
      var rs, es, e := rows[..n], evs[..n], evs[n];
      assert IsHistory(rs, es) by {
        forall i | 0 < i < n ensures Follows(rs[i - 1], es[i], rs[i]) {
          assert Follows(rows[i - 1], evs[i], rows[i]);
        }
      }
      RowPages(rs, es);
      RowCounts(rs, es);
      assert Follows(rows[n - 1], e, rows[n]);
      assert evs == es + [e];
      var k: nat :| LastExit(es, k) && rows[n - 1].exitPage == es[k].path;
      ExitStep(es, k, rows[n - 1].ts, e);
      OfferStep(es, e, (e: Event) => e.path, true, rows[n - 1].entryPage);
      OfferStep(es, e, (e: Event) => e.host, false, rows[n - 1].host);
    }
  }

  lemma ExitStep(evs: seq<Event>, k: nat, t: int, e: Event)
    requires LastExit(evs, k) && IsLatest(evs, t)
    ensures LastExit(evs + [e], if e.name == "pageview" && e.ts >= t then |evs| else k)
  {
    var all := evs + [e];
    forall j: nat | j < |evs| ensures SetsExit(all, j) == SetsExit(evs, j) {
      assert all[..j] == evs[..j];
      assert forall i :: 0 <= i <= j ==> all[i] == evs[i];
    }
    assert all[|evs|] == e;
    assert forall i :: 0 <= i < |evs| ==> all[i] == evs[i];
    if e.ts < t {
      var m :| 0 <= m < |evs| && evs[m].ts == t;
      assert all[m].ts > e.ts;
    }
    assert SetsExit(all, |evs|) == (e.name == "pageview" && e.ts >= t);
  }

  lemma OfferStep(evs: seq<Event>, e: Event, val: Event -> string, first: bool, v: string)
    requires evs != [] && FirstOffered(evs, val, first, v)
    ensures FirstOffered(evs + [e], val, first, if v == "" && e.name == "pageview" then val(e) else v)
  {
    var all := evs + [e];
    assert forall i :: 0 <= i < |evs| ==> all[i] == evs[i] && Offers(all, i, first) == Offers(evs, i, first);
    assert all[|evs|] == e && Offers(all, |evs|, first) == (e.name == "pageview");
    if v != "" {
      var k :| 0 <= k < |evs| && Offers(evs, k, first) && val(evs[k]) == v
               && forall i :: 0 <= i < k && Offers(evs, i, first) ==> val(evs[i]) == "";
      assert Offers(all, k, first);
    }
  }

  // ---- Independence of arrival order -------------------------------------------------

  function Fold(r: Row, evs: seq<Event>): Row {
    if evs == [] then r else UpdateRow(Fold(r, evs[..|evs| - 1]), Last(evs), r.version)
  }

  /** A row without the three columns that depend on arrival order. */
  function Unordered(r: Row): Row {
    r.(entryPage := "", exitPage := "", host := "")
  }

  /** Replaying the events after the first gives the state a history ends in. */
  lemma {:induction false} HistoryIsFold(rows: seq<Row>, evs: seq<Event>)
    requires IsHistory(rows, evs)
    ensures Last(rows) == Fold(rows[0], evs[1..]).(version := Last(rows).version)
    decreases |rows|
  {
    var n := |rows| - 1;
    if n == 0 {
      assert evs[1..] == [];
    } else {
      var rs, es := rows[..n], evs[..n];
      assert IsHistory(rs, es) by {
        forall i | 0 < i < n ensures Follows(rs[i - 1], es[i], rs[i]) {
          assert Follows(rows[i - 1], evs[i], rows[i]);
        }
      }
      HistoryIsFold(rs, es);
      assert Follows(rows[n - 1], evs[n], rows[n]);
      assert evs[1..][..n - 1] == es[1..];
    }
  }

  lemma {:induction false} FoldIgnoresOrderColumns(r: Row, s: Row, evs: seq<Event>)
    requires Unordered(r) == Unordered(s)
    ensures Unordered(Fold(r, evs)) == Unordered(Fold(s, evs))
    decreases |evs|
  {
    if evs != [] {
      FoldIgnoresOrderColumns(r, s, evs[..|evs| - 1]);
    }
  }

  lemma {:induction false} FoldAppend(r: Row, a: seq<Event>, b: seq<Event>)
    ensures Fold(r, a + b) == Fold(Fold(r, a), b)
    decreases |b|
  {
    if b == [] {
      assert a + b == a;
    } else {
      var n := |b| - 1;
      FoldAppend(r, a, b[..n]);
      assert (a + b)[..|a + b| - 1] == a + b[..n];
      FoldVersion(r, a);
    }
  }

  lemma {:induction false} FoldVersion(r: Row, evs: seq<Event>)
    ensures Fold(r, evs).version == r.version
    decreases |evs|
  {
    if evs != [] {
      FoldVersion(r, evs[..|evs| - 1]);
    }
  }

  lemma UpdateCommutes(r: Row, a: Event, b: Event, v: nat)
    ensures Unordered(UpdateRow(UpdateRow(r, a, v), b, v)) == Unordered(UpdateRow(UpdateRow(r, b, v), a, v))
  {
  }

  lemma UpdateCongruent(r: Row, s: Row, e: Event, v: nat)
    requires Unordered(r) == Unordered(s)
    ensures Unordered(UpdateRow(r, e, v)) == Unordered(UpdateRow(s, e, v))
  {
  }

  lemma FoldStep(r: Row, evs: seq<Event>, e: Event)
    ensures Fold(r, evs + [e]) == UpdateRow(Fold(r, evs), e, r.version)
  {
    assert (evs + [e])[..|evs|] == evs;
  }

  /** An event may move past all the events after it. */
  lemma {:induction false} FoldRotate(r: Row, e: Event, evs: seq<Event>)
    ensures Unordered(Fold(r, [e] + evs)) == Unordered(Fold(r, evs + [e]))
    decreases |evs|
  {
    if evs == [] {
      assert [e] + evs == evs + [e];
    } else {
      var init, l := evs[..|evs| - 1], Last(evs);
      var v, mid := r.version, Fold(r, init);
      calc {
        Unordered(Fold(r, [e] + evs));
        { assert [e] + evs == ([e] + init) + [l]; FoldStep(r, [e] + init, l); }
        Unordered(UpdateRow(Fold(r, [e] + init), l, v));
        { FoldRotate(r, e, init); UpdateCongruent(Fold(r, [e] + init), Fold(r, init + [e]), l, v); }
        Unordered(UpdateRow(Fold(r, init + [e]), l, v));
        { FoldStep(r, init, e); }
        Unordered(UpdateRow(UpdateRow(mid, e, v), l, v));
        { UpdateCommutes(mid, e, l, v); }
        Unordered(UpdateRow(UpdateRow(mid, l, v), e, v));
        { FoldStep(r, init, l); assert init + [l] == evs; FoldStep(r, evs, e); }
        Unordered(Fold(r, evs + [e]));
      }
    }
  }

  /** Every column but entry page, exit page and host name is the same for every order in
      which the same events arrive after the first. */
  lemma {:induction false} OrderIrrelevant(r: Row, a: seq<Event>, b: seq<Event>)
    requires multiset(a) == multiset(b)
    ensures Unordered(Fold(r, a)) == Unordered(Fold(r, b))
    decreases |a|
  {
    if a == [] {
      assert |multiset(b)| == 0;
    } else {
      var n, x := |a| - 1, Last(a);
      var pre, post := Without(a, b);
      OrderIrrelevant(r, a[..n], pre + post);
      MoveToEnd(r, pre, x, post);
      FoldStep(r, a[..n], x);
      assert a[..n] + [x] == a;
      FoldStep(r, pre + post, x);
      UpdateCongruent(Fold(r, a[..n]), Fold(r, pre + post), x, r.version);
    }
  }

  lemma MoveToEnd(r: Row, pre: seq<Event>, x: Event, post: seq<Event>)
    ensures Unordered(Fold(r, pre + ([x] + post))) == Unordered(Fold(r, (pre + post) + [x]))
  {
    FoldAppend(r, pre, [x] + post);
    FoldRotate(Fold(r, pre), x, post);
    FoldAppend(r, pre, post + [x]);
    assert pre + (post + [x]) == (pre + post) + [x];
  }

  /** A row without what identifies it. */
  function Anonymous(r: Row): Row {
    r.(version := 0, session := 0)
  }

  /** Two sessions with the same first event whose later events are the same up to order end in
      rows that agree on all columns but version, session id and the three order-dependent ones. */
  lemma SameEventsSameRow(rows: seq<Row>, evs: seq<Event>, rows2: seq<Row>, evs2: seq<Event>)
    requires IsHistory(rows, evs) && IsHistory(rows2, evs2)
    requires evs[0] == evs2[0] && multiset(evs[1..]) == multiset(evs2[1..])
    ensures Anonymous(Unordered(Last(rows))) == Anonymous(Unordered(Last(rows2)))
  {
    HistoryIsFold(rows, evs);
    HistoryIsFold(rows2, evs2);
    OrderIrrelevant(rows[0], evs[1..], evs2[1..]);
    FoldIgnoresIdentity(rows[0], rows2[0], evs2[1..]);
  }

  lemma {:induction false} FoldIgnoresIdentity(r: Row, s: Row, evs: seq<Event>)
    requires Anonymous(r) == Anonymous(s)
    ensures Anonymous(Fold(r, evs)) == Anonymous(Fold(s, evs))
    decreases |evs|
  {
    if evs != [] {
      FoldIgnoresIdentity(r, s, evs[..|evs| - 1]);
    }
  }

  /** The event would set the exit page of the row. */
  predicate Exits(r: Row, e: Event) {
    e.name == "pageview" && e.ts >= r.ts
  }

  /** `x` sets another exit page, unless the later `y`, which sets none, arrives before it. */
  predicate Outdated(r: Row, x: Event, y: Event) {
    Exits(r, x) && x.ts < y.ts && y.name != "pageview" && x.path != r.exitPage
  }

  /** The exit page really does depend on the order: it differs for two events exactly when both are
      pageviews of different pages at the same time, not older than the row, or one of them is a
      pageview that the other, a later event of another kind, makes too old. */
  lemma ExitPageDependsOnOrder(r: Row, a: Event, b: Event)
    ensures Fold(r, [a, b]).exitPage != Fold(r, [b, a]).exitPage <==>
              || (Exits(r, a) && Exits(r, b) && a.ts == b.ts && a.path != b.path)
              || Outdated(r, a, b) || Outdated(r, b, a)
  {
    assert [a, b][..1] == [a] && [b, a][..1] == [b] && [a][..0] == [] && [b][..0] == [];
    assert Fold(r, [a]) == UpdateRow(r, a, r.version) && Fold(r, [b]) == UpdateRow(r, b, r.version);
  }
}
