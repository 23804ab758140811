/** The retry loops of writeBatch (internal/event/buffer.go and internal/session/buffer.go): one
    deduplication token per batch makes an insert that is repeated after a lost acknowledgement
    harmless. */
module Retry {
  import opened Common

  /** What the database does with one attempt: store the rows or not, and report success or not. It
      never reports success without having the rows; `cancelled` says whether the context ends while
      the writer waits before the next attempt. */
  datatype Attempt = Attempt(stores: bool, reports: bool, cancelled: bool)
  {
    predicate Honest() { reports ==> stores }
  }

  /** What a table holds, and the tokens of the inserts it has stored. */
  datatype Store<Row> = Store(rows: seq<Row>, tokens: set<nat>)

  /** One attempt: an insert with a token already seen is acknowledged and stores nothing. Without a
      token (the random source failed) every insert that goes through is stored. */
  function Inserted<Row>(s: Store<Row>, batch: seq<Row>, token: Option<nat>, stores: bool): Store<Row> {
    if !stores || (token.Some? && token.value in s.tokens) then s
    else Store(s.rows + batch, s.tokens + if token.Some? then {token.value} else {})
  }

  class Table<Row(==)> {
    var rows: seq<Row>
    var tokens: set<nat>

    constructor ()
      ensures Contents() == Store([], {})
    {
      rows, tokens := [], {};
    }

    ghost function Contents(): Store<Row>
      reads this
    {
      Store(rows, tokens)
    }

    method Insert(batch: seq<Row>, token: Option<nat>, a: Attempt)
      modifies this
      ensures Contents() == Inserted(old(Contents()), batch, token, a.stores)
    {
      if a.stores && !(token.Some? && token.value in tokens) {
        rows := rows + batch;
      }
      if a.stores && token.Some? {
        tokens := tokens + {token.value};
      }
    }
  }

  /** How many of the first `n` attempts store the rows. */
  function Stores(attempts: seq<Attempt>, n: nat): nat
    requires n <= |attempts|
    ensures Stores(attempts, n) > 0 <==> exists i :: 0 <= i < n && attempts[i].stores
  {
    if n == 0 then 0 else Stores(attempts, n - 1) + if attempts[n - 1].stores then 1 else 0
  }

  /** None of the first `i` attempts reports success or is followed by a wait that is cut short. */
  predicate GoesOn(attempts: seq<Attempt>, i: nat)
    requires i <= |attempts|
  {
    forall j :: 0 <= j < i ==> !attempts[j].reports && !attempts[j].cancelled
  }

  /** How many attempts are made: up to the first that reports success or whose wait is cut short. */
  function Made(attempts: seq<Attempt>, n: nat): nat
    requires n <= |attempts|
    ensures Made(attempts, n) <= n
    ensures forall i: nat :: i < n ==> (i < Made(attempts, n) <==> GoesOn(attempts, i))
  {
    if n == 0 then 0 else if GoesOn(attempts, n - 1) then n else Made(attempts, n - 1)
  }

  /** The table after the first `n` attempts. */
  function Tried<Row>(s: Store<Row>, batch: seq<Row>, token: Option<nat>, attempts: seq<Attempt>, n: nat): Store<Row>
    requires n <= |attempts|
  {
    if n == 0 then s
    else Inserted(Tried(s, batch, token, attempts, n - 1), batch, token, attempts[n - 1].stores)
  }

  function Copies<Row>(batch: seq<Row>, n: nat): seq<Row> {
    if n == 0 then [] else Copies(batch, n - 1) + batch
  }

  /** With a fresh token the rows are in the table once as soon as one attempt has gone through. */
  lemma {:induction false} OnceWithToken<Row>(
      s: Store<Row>, batch: seq<Row>, token: nat, attempts: seq<Attempt>, n: nat)
    requires n <= |attempts| && token !in s.tokens
    ensures var t := Tried(s, batch, Some(token), attempts, n);
            && t.rows == s.rows + (if Stores(attempts, n) > 0 then batch else [])
            && t.tokens == s.tokens + if Stores(attempts, n) > 0 then {token} else {}
  {
    if n > 0 {
      OnceWithToken(s, batch, token, attempts, n - 1);
    }
  }

  /** Without a token they are there as often as an attempt has gone through. */
  lemma {:induction false} CopiesWithoutToken<Row>(s: Store<Row>, batch: seq<Row>, attempts: seq<Attempt>, n: nat)
    requires n <= |attempts|
    ensures Tried(s, batch, None, attempts, n) == Store(s.rows + Copies(batch, Stores(attempts, n)), s.tokens)
  {
    if n == 0 {
      assert s.rows + [] == s.rows;
    } else {
      CopiesWithoutToken(s, batch, attempts, n - 1);
      var before := Copies(batch, Stores(attempts, n - 1));
      assert s.rows + before + batch == s.rows + (before + batch);
    }
  }

  lemma {:induction false} CopiesLength<Row>(batch: seq<Row>, n: nat)
    ensures |Copies(batch, n)| == n * |batch|
  {
    if n > 0 {
      CopiesLength(batch, n - 1);
    }
  }

  /** The guarantee needs the token: without one the rows of a batch are stored exactly once if and only
      if exactly one attempt goes through; with one, if and only if at least one does. */
  lemma DuplicateWithoutToken<Row>(s: Store<Row>, batch: seq<Row>, token: nat, attempts: seq<Attempt>, n: nat)
    requires batch != [] && n <= |attempts| && token !in s.tokens
    ensures Tried(s, batch, None, attempts, n).rows == s.rows + batch <==> Stores(attempts, n) == 1
    ensures Tried(s, batch, Some(token), attempts, n).rows == s.rows + batch <==> Stores(attempts, n) >= 1
  {
    var k := Stores(attempts, n);
    CopiesWithoutToken(s, batch, attempts, n);
    OnceWithToken(s, batch, token, attempts, n);
    CopiesLength(batch, k);
    if k == 1 {
      assert Copies(batch, 1) == Copies(batch, 0) + batch == batch;
    } else {
      assert k * |batch| != |batch|;
    }
  }

  /** `attempts` is what the database will do to each of the `retries` tries (5 for events, 3 for session
      rows). No error is returned if and only if some try reports success and no wait before it is cut
      short. With a fresh token the rows of the batch are then stored once, and otherwise once if some try
      stored them, up to the first that reports success or whose wait is cut short; without a token they
      are stored as often as such a try goes through. */
  method WriteBatch<Row(==)>(
      table: Table<Row>, batch: seq<Row>, token: Option<nat>, retries: nat, attempts: seq<Attempt>)
    returns (ok: bool)
    requires |attempts| == retries && forall a :: a in attempts ==> a.Honest()
    requires token.Some? ==> token.value !in table.tokens
    modifies table
    ensures ok <==> exists i ::
              0 <= i < retries && attempts[i].reports && forall j :: 0 <= j < i ==> !attempts[j].cancelled
    ensures table.Contents() == Tried(old(table.Contents()), batch, token, attempts, Made(attempts, retries))
    ensures token.Some? ==>
              var through := exists i ::
                0 <= i < retries && attempts[i].stores
                && forall j :: 0 <= j < i ==> !attempts[j].reports && !attempts[j].cancelled;
              table.rows == old(table.rows) + if through then batch else []
    ensures token.Some? && ok ==> table.rows == old(table.rows) + batch
    ensures token.None? ==> table.rows == old(table.rows) + Copies(batch, Stores(attempts, Made(attempts, retries)))
  {
    ok := false;
    ghost var before := table.Contents();
    for i := 0 to retries
      invariant GoesOn(attempts, i)
      invariant table.Contents() == Tried(before, batch, token, attempts, i)
    {
      hide Made, Stores, Copies, Inserted;
      var a := attempts[i];
      assert a in attempts && a.Honest();
      table.Insert(batch, token, a);
      if a.reports || a.cancelled {
        hide Tried;
        StopsAt(attempts, i, retries);
        Rows(before, batch, token, attempts, i + 1);
        Outcome(attempts, retries);
        ok := a.reports;
        return;
      }
    }
    hide Tried, Made, Stores, Copies;
    NeverStops(attempts, retries);
    Rows(before, batch, token, attempts, retries);
    Outcome(attempts, retries);
  }

  /** Some attempt made stores the rows exactly if some attempt does that no success and no cut comes
      before. */
  lemma Outcome(attempts: seq<Attempt>, n: nat)
    requires n <= |attempts|
    ensures Stores(attempts, Made(attempts, n)) > 0 <==>
              exists i :: 0 <= i < n && attempts[i].stores
                          && forall j :: 0 <= j < i ==> !attempts[j].reports && !attempts[j].cancelled
  {
    var m := Made(attempts, n);
    if i :| 0 <= i < n && attempts[i].stores
            && forall j :: 0 <= j < i ==> !attempts[j].reports && !attempts[j].cancelled {
      assert GoesOn(attempts, i);
    }
    if i :| 0 <= i < m && attempts[i].stores {
      assert GoesOn(attempts, i);
    }
  }

  lemma NeverStops(attempts: seq<Attempt>, n: nat)
    requires n <= |attempts| && GoesOn(attempts, n)
    ensures Made(attempts, n) == n
  {
    if n > 0 {
      assert GoesOn(attempts, n - 1);
    }
  }

  lemma Rows<Row>(s: Store<Row>, batch: seq<Row>, token: Option<nat>, attempts: seq<Attempt>, n: nat)
    requires n <= |attempts| && (token.Some? ==> token.value !in s.tokens)
    ensures Tried(s, batch, token, attempts, n).rows
         == s.rows + if token.None? then Copies(batch, Stores(attempts, n))
                     else if Stores(attempts, n) > 0 then batch else []
  {
    if token.Some? {
      OnceWithToken(s, batch, token.value, attempts, n);
    } else {
      CopiesWithoutToken(s, batch, attempts, n);
    }
  }

  lemma StopsAt(attempts: seq<Attempt>, i: nat, n: nat)
    requires i < n <= |attempts| && GoesOn(attempts, i)
    requires attempts[i].reports || attempts[i].cancelled
    ensures Made(attempts, n) == i + 1
  {
    if i + 1 < n {
      assert !GoesOn(attempts, i + 1);
    }
  }

  // ---- Many batches ------------------------------------------------------------------

  /** One call of writeBatch. */
  datatype Write<Row> = Write(batch: seq<Row>, token: nat)

  /** The attempts of concurrent writers reach the table in some order; an arrival says whose attempt
      it is and whether the database stores its rows. */
  function Deliver<Row>(s: Store<Row>, writes: seq<Write<Row>>, arrivals: seq<(nat, bool)>): Store<Row>
    requires forall k :: 0 <= k < |arrivals| ==> arrivals[k].0 < |writes|
  {
    if arrivals == [] then s
    else
      var t := Deliver(s, writes, arrivals[..|arrivals| - 1]);
      var (w, stores) := Last(arrivals);
      Inserted(t, writes[w].batch, Some(writes[w].token), stores)
  }

  predicate Arrived(arrivals: seq<(nat, bool)>, w: nat) {
    (w, true) in arrivals
  }

  /** The batches that got through, each once, in the order of their first success. */
  function FirstArrivals(arrivals: seq<(nat, bool)>): seq<nat> {
    if arrivals == [] then []
    else
      var init := arrivals[..|arrivals| - 1];
      var (w, stores) := Last(arrivals);
      FirstArrivals(init) + if stores && !Arrived(init, w) then [w] else []
  }

  function Batches<Row>(writes: seq<Write<Row>>, order: seq<nat>): seq<Row>
    requires forall k :: 0 <= k < |order| ==> order[k] < |writes|
  {
    if order == [] then [] else Batches(writes, order[..|order| - 1]) + writes[Last(order)].batch
  }

  lemma {:induction false} FirstArrivalsOnce(arrivals: seq<(nat, bool)>)
    ensures forall i, j :: 0 <= i < j < |FirstArrivals(arrivals)| ==>
              FirstArrivals(arrivals)[i] != FirstArrivals(arrivals)[j]
    ensures forall w :: w in FirstArrivals(arrivals) <==> Arrived(arrivals, w)
  {
    if arrivals != [] {
      FirstArrivalsOnce(arrivals[..|arrivals| - 1]);
      assert arrivals == arrivals[..|arrivals| - 1] + [Last(arrivals)];
    }
  }

  lemma ArrivedStep(arrivals: seq<(nat, bool)>, w: nat)
    requires arrivals != []
    ensures Arrived(arrivals, w) <==> Arrived(arrivals[..|arrivals| - 1], w) || Last(arrivals) == (w, true)
  {
    assert arrivals == arrivals[..|arrivals| - 1] + [Last(arrivals)];
  }

  /** The table knows the token of a batch exactly when one of its attempts was stored. */
  lemma {:induction false} TokenSeen<Row>(s: Store<Row>, writes: seq<Write<Row>>, arrivals: seq<(nat, bool)>, w: nat)
    requires forall k :: 0 <= k < |arrivals| ==> arrivals[k].0 < |writes|
    requires forall i, j :: 0 <= i < j < |writes| ==> writes[i].token != writes[j].token
    requires w < |writes| && writes[w].token !in s.tokens
    ensures writes[w].token in Deliver(s, writes, arrivals).tokens <==> Arrived(arrivals, w)
    decreases |arrivals|
  {
    if arrivals != [] {
      TokenSeen(s, writes, arrivals[..|arrivals| - 1], w);
      ArrivedStep(arrivals, w);
    }
  }

  lemma {:induction false} FirstArrivalsValid(arrivals: seq<(nat, bool)>, n: nat)
    requires forall k :: 0 <= k < |arrivals| ==> arrivals[k].0 < n
    ensures forall k :: 0 <= k < |FirstArrivals(arrivals)| ==> FirstArrivals(arrivals)[k] < n
  {
    if arrivals != [] {
      FirstArrivalsValid(arrivals[..|arrivals| - 1], n);
    }
  }

  lemma BatchesAppend<Row>(writes: seq<Write<Row>>, order: seq<nat>, w: nat)
    requires w < |writes| && forall k :: 0 <= k < |order| ==> order[k] < |writes|
    ensures Batches(writes, order + [w]) == Batches(writes, order) + writes[w].batch
  {
    assert (order + [w])[..|order|] == order;
  }

  lemma DeliverNext<Row>(s: Store<Row>, writes: seq<Write<Row>>, arrivals: seq<(nat, bool)>)
    requires arrivals != [] && forall k :: 0 <= k < |arrivals| ==> arrivals[k].0 < |writes|
    ensures var t, w := Deliver(s, writes, arrivals[..|arrivals| - 1]), writes[Last(arrivals).0];
            Deliver(s, writes, arrivals).rows
            == t.rows + if Last(arrivals).1 && w.token !in t.tokens then w.batch else []
  {
  }

  lemma FirstNext(arrivals: seq<(nat, bool)>)
    requires arrivals != []
    ensures var init, w := arrivals[..|arrivals| - 1], Last(arrivals).0;
            FirstArrivals(arrivals) == FirstArrivals(init) + if Last(arrivals).1 && !Arrived(init, w) then [w] else []
  {
  }

  /** However the attempts of many batches with different tokens interleave, the table ends up with
      each batch that got through exactly once, whole, and nothing else. */
  lemma {:induction false} EachBatchOnce<Row>(s: Store<Row>, writes: seq<Write<Row>>, arrivals: seq<(nat, bool)>)
    requires forall k :: 0 <= k < |arrivals| ==> arrivals[k].0 < |writes|
    requires forall i, j :: 0 <= i < j < |writes| ==> writes[i].token != writes[j].token
    requires forall w :: 0 <= w < |writes| ==> writes[w].token !in s.tokens
    ensures forall k :: 0 <= k < |FirstArrivals(arrivals)| ==> FirstArrivals(arrivals)[k] < |writes|
    ensures Deliver(s, writes, arrivals).rows == s.rows + Batches(writes, FirstArrivals(arrivals))
    decreases |arrivals|
  {
    hide Deliver, Batches, Arrived, FirstArrivals;
    FirstArrivalsValid(arrivals, |writes|);
    if arrivals == [] {
      NothingDelivered(s, writes);
    } else {
      var init, w := arrivals[..|arrivals| - 1], Last(arrivals).0;
      EachBatchOnce(s, writes, init);
      TokenSeen(s, writes, init, w);
      DeliverNext(s, writes, arrivals);
      FirstNext(arrivals);
      var first, rows := FirstArrivals(init), Batches(writes, FirstArrivals(init));
      if Last(arrivals).1 && !Arrived(init, w) {
        BatchesAppend(writes, first, w);
        assert s.rows + rows + writes[w].batch == s.rows + (rows + writes[w].batch);
      } else {
        assert first + [] == first && s.rows + rows + [] == s.rows + rows;
      }
    }
  }

  lemma NothingDelivered<Row>(s: Store<Row>, writes: seq<Write<Row>>)
    ensures FirstArrivals([]) == [] && Deliver(s, writes, []).rows == s.rows + Batches(writes, [])
  {
  }
}
