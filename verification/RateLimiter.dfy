/** internal/api/external/externalevent.go: the fixed-window limiter of event requests. */
module RateLimiter {
  import opened Common

  const SECOND := 1_000_000_000   // in nanoseconds

  /** The cache key joins a domain with the two settings. */
  datatype Key = Key(domain: string, scaleSeconds: int, limit: int)

  /** A window as the map holds it. */
  datatype Slot = Slot(count: int, resetTime: int)

  predicate Limited(k: Key) {
    k.scaleSeconds > 0 && k.limit > 0
  }

  function Scale(k: Key): int {
    k.scaleSeconds * SECOND
  }

  // ---- The code ----------------------------------------------------------------------

  class Window {
    var count: int
    const resetTime: int

    constructor (resetTime: int)
      ensures count == 1 && this.resetTime == resetTime
    {
      count := 1;
      this.resetTime := resetTime;
    }
  }

  class Limiter {
    var windows: map<Key, Window>

    constructor ()
      ensures Valid() && windows == map[]
    {
      windows := map[];
    }

    ghost predicate Valid()
      reads this
    {
      forall k, l :: k in windows && l in windows && windows[k] == windows[l] ==> k == l
    }

    ghost function Value(): map<Key, Slot>
      reads this, windows.Values
    {
      map k | k in windows :: Slot(windows[k].count, windows[k].resetTime)
    }

    method Allow(k: Key, now: int) returns (ok: bool)
      requires Valid()
      modifies this, windows.Values
      ensures Valid() && Value() == Called(old(Value()), k, now) && ok == Allows(old(Value()), k, now)
      ensures k.scaleSeconds <= 0 || k.limit <= 0 ==> ok && Value() == old(Value())
      ensures k.scaleSeconds > 0 && k.limit > 0 ==>
                var open := k in old(Value()) && now < old(Value())[k].resetTime;
                && (ok <==> !open || old(Value())[k].count < k.limit)
                && Value() == old(Value())[k :=
                     if !open then Slot(1, now + k.scaleSeconds * 1_000_000_000)
                     else Slot(old(Value())[k].count + if ok then 1 else 0, old(Value())[k].resetTime)]
    {
      if k.scaleSeconds <= 0 || k.limit <= 0 {
        return true;
      }
      if k in windows && now < windows[k].resetTime {
        if windows[k].count >= k.limit {
          return false;
        }
        windows[k].count := windows[k].count + 1;
        return true;
      }
      var w := new Window(now + Scale(k));
      windows := windows[k := w];
      ok := true;
    }

    method Cleanup(now: int)
      requires Valid()
      modifies this
      ensures Valid() && Value() == Cleaned(old(Value()), now)
      ensures forall k :: k in Value() <==> k in old(Value()) && now <= old(Value())[k].resetTime
      ensures forall k :: k in Value() ==> Value()[k] == old(Value())[k]
    {
      var todo := windows.Keys;
      while todo != {}
        invariant todo <= old(windows).Keys
        invariant forall k :: k in windows <==> k in old(windows) && (k in todo || now <= old(windows)[k].resetTime)
        invariant forall k :: k in windows ==> windows[k] == old(windows)[k]
        decreases |todo|
      {
        var k :| k in todo;
        if now > windows[k].resetTime {
          windows := windows - {k};
        }
        todo := todo - {k};
      }
    }
  }

  predicate Allows(m: map<Key, Slot>, k: Key, now: int) {
    Limited(k) && k in m && now < m[k].resetTime ==> m[k].count < k.limit
  }

  function Called(m: map<Key, Slot>, k: Key, now: int): map<Key, Slot> {
    if !Limited(k) then m
    else if k in m && now < m[k].resetTime
    then if m[k].count >= k.limit then m else m[k := m[k].(count := m[k].count + 1)]
    else m[k := Slot(1, now + Scale(k))]
  }

  function Cleaned(m: map<Key, Slot>, now: int): map<Key, Slot> {
    map k | k in m && now <= m[k].resetTime :: m[k]
  }

  // ---- Whole runs --------------------------------------------------------------------

  datatype Op = Call(key: Key, now: int) | Clean(now: int)

  predicate Ordered(ops: seq<Op>) {
    forall i, j :: 0 <= i < j < |ops| ==> ops[i].now <= ops[j].now
  }

  function RunOps(ops: seq<Op>): map<Key, Slot> {
    if ops == [] then map[]
    else
      var m := RunOps(ops[..|ops| - 1]);
      match Last(ops)
      case Call(k, now) => Called(m, k, now)
      case Clean(now) => Cleaned(m, now)
  }

  /** The times of a key's calls. */
  function TimesOf(ops: seq<Op>, k: Key): seq<int> {
    if ops == [] then []
    else
      var before := TimesOf(ops[..|ops| - 1], k);
      if Last(ops).Call? && Last(ops).key == k then before + [Last(ops).now] else before
  }

  /** Where the windows of a key start: at its first call, and then at each call after the end of the last
      window. */
  function Starts(k: Key, times: seq<int>): seq<int> {
    if times == [] then []
    else
      var before := Starts(k, times[..|times| - 1]);
      if Opens(k, before, Last(times)) then before + [Last(times)] else before
  }

  predicate Opens(k: Key, starts: seq<int>, now: int) {
    starts == [] || now >= Last(starts) + Scale(k)
  }

  /** How many of the times are in [a, b). */
  function CountIn(times: seq<int>, a: int, b: int): nat {
    if times == [] then 0
    else CountIn(times[..|times| - 1], a, b) + if a <= Last(times) < b then 1 else 0
  }

  /** The calls of a key in [a, b)... */
  function CallsIn(ops: seq<Op>, k: Key, a: int, b: int): nat {
    CountIn(TimesOf(ops, k), a, b)
  }

  /** ...and those among them that the limiter allowed. */
  function AllowedIn(ops: seq<Op>, k: Key, a: int, b: int): nat {
    if ops == [] then 0
    else
      var init, op := ops[..|ops| - 1], Last(ops);
      AllowedIn(init, k, a, b)
      + if Mine(op, k) && a <= op.now < b && Allows(RunOps(init), k, op.now) then 1 else 0
  }

  /** The map holds the last window of the key with the calls allowed in it, except that a window that is
      over may be missing; and no call came after the end of the last window. */
  predicate Agrees(m: map<Key, Slot>, k: Key, times: seq<int>, now: int) {
    var ss := Starts(k, times);
    && (times != [] ==> ss != [] && Last(ss) <= Last(times) < Last(ss) + Scale(k))
    && (if k in m then ss != [] && m[k] == Slot(LastCount(k, times), Last(ss) + Scale(k))
        else ss == [] || Last(ss) + Scale(k) <= now)
  }

  /** The calls allowed in the last window. */
  function LastCount(k: Key, times: seq<int>): int {
    var ss := Starts(k, times);
    if ss == [] then 0 else Min(CountIn(times, Last(ss), Last(ss) + Scale(k)), k.limit)
  }

  lemma CountNext(times: seq<int>, t: int, a: int, b: int)
    ensures CountIn(times + [t], a, b) == CountIn(times, a, b) + if a <= t < b then 1 else 0
  {
    assert (times + [t])[..|times|] == times;
  }

  lemma StartsNext(k: Key, times: seq<int>, t: int)
    ensures Starts(k, times + [t]) == Starts(k, times) + if Opens(k, Starts(k, times), t) then [t] else []
  {
    assert (times + [t])[..|times|] == times;
    assert Starts(k, times) + [] == Starts(k, times);
  }

  predicate Mine(op: Op, k: Key) {
    op.Call? && op.key == k
  }

  lemma CallsNext(ops: seq<Op>, k: Key, a: int, b: int)
    requires ops != []
    ensures var init, op := ops[..|ops| - 1], Last(ops);
            && TimesOf(ops, k) == TimesOf(init, k) + (if Mine(op, k) then [op.now] else [])
            && CallsIn(ops, k, a, b) == CallsIn(init, k, a, b) + (if Mine(op, k) && a <= op.now < b then 1 else 0)
            && AllowedIn(ops, k, a, b)
               == AllowedIn(init, k, a, b) +
                 (if Mine(op, k) && a <= op.now < b && Allows(RunOps(init), k, op.now) then 1 else 0)
  {
    CountNext(TimesOf(ops[..|ops| - 1], k), Last(ops).now, a, b);
  }

  predicate Sorted(times: seq<int>) {
    forall i, j :: 0 <= i < j < |times| ==> times[i] <= times[j]
  }

  lemma {:induction false} CountNone(times: seq<int>, a: int, b: int)
    requires forall i :: 0 <= i < |times| ==> times[i] < a
    ensures CountIn(times, a, b) == 0
  {
    if times != [] {
      CountNone(times[..|times| - 1], a, b);
    }
  }

  lemma NoStarts(k: Key)
    ensures Starts(k, []) == []
  {
  }

  lemma CallAgrees(m: map<Key, Slot>, k: Key, times: seq<int>, now: int)
    requires Limited(k) && Agrees(m, k, times, now) && Sorted(times) && (times != [] ==> Last(times) <= now)
    ensures Agrees(Called(m, k, now), k, times + [now], now)
    ensures var ss := Starts(k, times);
            if Opens(k, ss, now)
            then Allows(m, k, now) && CountIn(times, now, now + Scale(k)) == 0
            else
              && ss != [] && Last(ss) <= now
              && (Allows(m, k, now) <==> CountIn(times, Last(ss), Last(ss) + Scale(k)) < k.limit)
  {
    hide Starts, CountIn;
    var ss := Starts(k, times);
    NoStarts(k);
    StartsNext(k, times, now);
    if Opens(k, ss, now) {
      forall i | 0 <= i < |times| ensures times[i] < now {
        assert i < |times| - 1 ==> times[i] <= times[|times| - 1];
      }
      CountNone(times, now, now + Scale(k));
      CountNext(times, now, now, now + Scale(k));
    } else {
      CountNext(times, now, Last(ss), Last(ss) + Scale(k));
    }
  }

  lemma OtherAgrees(m: map<Key, Slot>, k: Key, times: seq<int>, now: int, op: Op)
    requires Agrees(m, k, times, now) && now <= op.now && (op.Call? ==> op.key != k)
    ensures Agrees(if op.Call? then Called(m, op.key, op.now) else Cleaned(m, op.now), k, times, op.now)
  {
  }

  lemma Later(m: map<Key, Slot>, k: Key, times: seq<int>, now: int, later: int)
    requires Agrees(m, k, times, now) && now <= later
    ensures Agrees(m, k, times, later)
  {
  }

  lemma {:induction false} TimesSorted(ops: seq<Op>, k: Key, now: int)
    requires Ordered(ops) && forall i :: 0 <= i < |ops| ==> ops[i].now <= now
    ensures Sorted(TimesOf(ops, k)) && forall i :: 0 <= i < |TimesOf(ops, k)| ==> TimesOf(ops, k)[i] <= now
  {
    if ops != [] {
      TimesSorted(ops[..|ops| - 1], k, Last(ops).now);
    }
  }

  lemma {:induction false} RunAgrees(ops: seq<Op>, k: Key, now: int)
    requires Limited(k) && Ordered(ops) && forall i :: 0 <= i < |ops| ==> ops[i].now <= now
    ensures Agrees(RunOps(ops), k, TimesOf(ops, k), now)
  {
    if ops != [] {
      var init, op := ops[..|ops| - 1], Last(ops);
      RunAgrees(init, k, op.now);
      TimesSorted(init, k, op.now);
      if Mine(op, k) {
        CallAgrees(RunOps(init), k, TimesOf(init, k), op.now);
      } else {
        OtherAgrees(RunOps(init), k, TimesOf(init, k), op.now, op);
      }
      Later(RunOps(ops), k, TimesOf(ops, k), op.now, now);
    }
  }

  /** An answer depends on the earlier calls of its key only: neither other keys nor any number of cleanups
      change it. */
  lemma {:induction false} AnswerIsPerKey(ops: seq<Op>, others: seq<Op>, k: Key, now: int)
    requires Limited(k) && Ordered(ops) && forall i :: 0 <= i < |ops| ==> ops[i].now <= now
    requires Ordered(others) && forall i :: 0 <= i < |others| ==> others[i].now <= now
    requires TimesOf(ops, k) == TimesOf(others, k)
    ensures Allows(RunOps(ops), k, now) == Allows(RunOps(others), k, now)
  {
    RunAgrees(ops, k, now);
    RunAgrees(others, k, now);
  }

  // ---- How much each window allows -----------------------------------------------------

  predicate Apart(k: Key, starts: seq<int>) {
    forall i, j :: 0 <= i < j < |starts| ==> starts[i] + Scale(k) <= starts[j]
  }

  /** The limiter allowed, in the window from `s`, exactly the smaller of its calls and the limit. */
  predicate WindowExact(ops: seq<Op>, k: Key, s: int) {
    AllowedIn(ops, k, s, s + Scale(k)) == Min(CallsIn(ops, k, s, s + Scale(k)), k.limit)
  }

  predicate Covers(k: Key, starts: seq<int>, now: int) {
    exists i :: 0 <= i < |starts| && starts[i] <= now < starts[i] + Scale(k)
  }

  lemma ApartNext(k: Key, ss: seq<int>, t: int)
    requires Limited(k) && Apart(k, ss) && Opens(k, ss, t)
    ensures Apart(k, ss + [t])
  {
    forall i | 0 <= i < |ss| ensures ss[i] + Scale(k) <= t {
      assert i < |ss| - 1 ==> ss[i] + Scale(k) <= ss[|ss| - 1];
    }
  }

  lemma OtherWindow(ops: seq<Op>, k: Key, s: int)
    requires ops != [] && WindowExact(ops[..|ops| - 1], k, s)
    requires Mine(Last(ops), k) ==> !(s <= Last(ops).now < s + Scale(k))
    ensures WindowExact(ops, k, s)
  {
    hide AllowedIn, CallsIn;
    CallsNext(ops, k, s, s + Scale(k));
  }

  lemma NoneAllowed(ops: seq<Op>, k: Key, a: int, b: int)
    requires CallsIn(ops, k, a, b) == 0
    ensures AllowedIn(ops, k, a, b) == 0
  {
    AllowedFits(ops, k, a, b);
  }

  lemma {:induction false} AllowedFits(ops: seq<Op>, k: Key, a: int, b: int)
    ensures AllowedIn(ops, k, a, b) <= CallsIn(ops, k, a, b)
  {
    if ops != [] {
      AllowedFits(ops[..|ops| - 1], k, a, b);
      CallsNext(ops, k, a, b);
    }
  }

  /** A call of the key, seen from its window: it opens one and is allowed, or is allowed in the last one if
      fewer calls than the limit came before it. */
  lemma CallMade(ops: seq<Op>, k: Key)
    requires Limited(k) && Ordered(ops) && ops != [] && Mine(Last(ops), k)
    ensures var init, t := ops[..|ops| - 1], Last(ops).now;
            var ss, tt := Starts(k, TimesOf(init, k)), Starts(k, TimesOf(ops, k));
            if Opens(k, ss, t) then tt == ss + [t] && Allows(RunOps(init), k, t) &&
              CallsIn(init, k, t, t + Scale(k)) == 0
            else tt == ss && ss != [] && Last(ss) <= t < Last(ss) + Scale(k)
                 && (Allows(RunOps(init), k, t) <==> CallsIn(init, k, Last(ss), Last(ss) + Scale(k)) < k.limit)
  {
    var init, t := ops[..|ops| - 1], Last(ops).now;
    hide Starts, TimesOf, RunOps, Allows, CountIn, Agrees;
    RunAgrees(init, k, t);
    TimesSorted(init, k, t);
    LastIn(TimesOf(init, k), t);
    CallAgrees(RunOps(init), k, TimesOf(init, k), t);
    CallsNext(ops, k, 0, 0);
    StartsNext(k, TimesOf(init, k), t);
  }

  lemma LastIn(times: seq<int>, t: int)
    requires forall i :: 0 <= i < |times| ==> times[i] <= t
    ensures times != [] ==> Last(times) <= t
  {
  }

  lemma CallWindow(ops: seq<Op>, k: Key, ss: seq<int>)
    requires Limited(k) && Ordered(ops) && ops != [] && Mine(Last(ops), k)
    requires ss == Starts(k, TimesOf(ops[..|ops| - 1], k))
    requires ss != [] ==> WindowExact(ops[..|ops| - 1], k, Last(ss))
    ensures var t, tt := Last(ops).now, Starts(k, TimesOf(ops, k));
            && (if Opens(k, ss, t) then tt == ss + [t] else ss != [] && tt == ss && Last(ss) <= t)
            && WindowExact(ops, k, Last(tt)) && Last(tt) <= t < Last(tt) + Scale(k)
  {
    hide Starts, TimesOf, CallsIn, AllowedIn, RunOps, Allows, Ordered;
    var init, t := ops[..|ops| - 1], Last(ops).now;
    CallMade(ops, k);
    if Opens(k, ss, t) {
      CallsNext(ops, k, t, t + Scale(k));
      NoneAllowed(init, k, t, t + Scale(k));
    } else {
      CallsNext(ops, k, Last(ss), Last(ss) + Scale(k));
    }
  }

  lemma {:induction false} WindowsAre(ops: seq<Op>, k: Key)
    requires Limited(k) && Ordered(ops)
    ensures var ss := Starts(k, TimesOf(ops, k));
            && Apart(k, ss)
            && (forall i :: 0 <= i < |ss| ==> WindowExact(ops, k, ss[i]))
            && (forall j :: 0 <= j < |ops| && ops[j].Call? && ops[j].key == k ==> Covers(k, ss, ops[j].now))
  {
    if ops != [] {
      var init, op := ops[..|ops| - 1], Last(ops);
      WindowsAre(init, k);
      var ss, tt := Starts(k, TimesOf(init, k)), Starts(k, TimesOf(ops, k));
      if Mine(op, k) {
        CallWindow(ops, k, ss);
        if Opens(k, ss, op.now) {
          ApartNext(k, ss, op.now);
        }
      }
      hide WindowExact, Opens, Starts, TimesOf;
      assert ss <= tt && (|tt| > |ss| ==> |tt| == |ss| + 1);
      forall i | 0 <= i < |tt| ensures WindowExact(ops, k, tt[i]) {
        if Mine(op, k) && i == |tt| - 1 {
        } else {
          OtherWindow(ops, k, tt[i]);
        }
      }
      forall j | 0 <= j < |ops| && ops[j].Call? && ops[j].key == k ensures Covers(k, tt, ops[j].now) {
        if j < |init| {
          assert init[j] == ops[j] && Covers(k, ss, ops[j].now);
          CoversMore(k, ss, tt, ops[j].now);
        } else {
          assert tt[|tt| - 1] <= op.now < tt[|tt| - 1] + Scale(k);
        }
      }
    }
  }

  /** Windows of a key last for its scale in seconds and never overlap, every call of it falls into one, and in
      each the limiter allows exactly the smaller of its calls and the limit. */
  lemma WindowsExact(ops: seq<Op>, k: Key)
    requires Limited(k) && Ordered(ops)
    ensures var ss, length := Starts(k, TimesOf(ops, k)), k.scaleSeconds * 1_000_000_000;
            && (forall i, j :: 0 <= i < j < |ss| ==> ss[i] + length <= ss[j])
            && (forall i :: 0 <= i < |ss| ==>
                  AllowedIn(ops, k, ss[i], ss[i] + length) == Min(CallsIn(ops, k, ss[i], ss[i] + length), k.limit))
            && (forall j :: 0 <= j < |ops| && ops[j].Call? && ops[j].key == k ==>
                  exists i :: 0 <= i < |ss| && ss[i] <= ops[j].now < ss[i] + length)
  {
    hide Starts, TimesOf, AllowedIn, CallsIn;
    WindowsAre(ops, k);
    var ss := Starts(k, TimesOf(ops, k));
    forall i | 0 <= i < |ss|
      ensures AllowedIn(ops, k, ss[i], ss[i] + Scale(k)) == Min(CallsIn(ops, k, ss[i], ss[i] + Scale(k)), k.limit)
    {
      assert WindowExact(ops, k, ss[i]);
    }
    forall j | 0 <= j < |ops| && ops[j].Call? && ops[j].key == k
      ensures exists i :: 0 <= i < |ss| && ss[i] <= ops[j].now < ss[i] + Scale(k)
    {
      assert Covers(k, ss, ops[j].now);
    }
  }

  /** The window that refuses a call stays full: the key is refused until the scale in seconds has passed since
      the call that opened the window, which has allowed exactly the limit, whatever other calls and cleanups
      there are. */
  lemma StaysRefused(ops: seq<Op>, k: Key, now: int) returns (start: int)
    requires Ordered(ops) && (forall i :: 0 <= i < |ops| ==> ops[i].now <= now) && !Allows(RunOps(ops), k, now)
    ensures Call(k, start) in ops
    ensures start <= now < start + k.scaleSeconds * 1_000_000_000
    ensures AllowedIn(ops, k, start, start + k.scaleSeconds * 1_000_000_000) == k.limit
    ensures forall more: seq<Op>, later: int ::
      && (forall i :: 0 <= i < |more| ==> more[i].now <= later)
      && now <= later < start + k.scaleSeconds * 1_000_000_000 ==>
        !Allows(RunOps(ops + more), k, later)
  {
    hide Starts, TimesOf, AllowedIn, CountIn, RunOps, Ordered;
    RunAgrees(ops, k, now);
    WindowsAre(ops, k);
    var ss := Starts(k, TimesOf(ops, k));
    start := Last(ss);
    assert WindowExact(ops, k, ss[|ss| - 1]);
    StartIsTime(k, TimesOf(ops, k), |ss| - 1);
    TimeIsCall(ops, k, start);
    assert RunOps(ops)[k] == Slot(k.limit, start + Scale(k));
    forall more: seq<Op>, later: int |
      (forall i :: 0 <= i < |more| ==> more[i].now <= later)
      && now <= later < start + k.scaleSeconds * 1_000_000_000
      ensures !Allows(RunOps(ops + more), k, later)
    {
      StaysFull(ops, more, k, start + Scale(k));
    }
  }

  lemma {:induction false} StaysFull(ops: seq<Op>, more: seq<Op>, k: Key, end: int)
    requires Limited(k) && k in RunOps(ops) && RunOps(ops)[k] == Slot(k.limit, end)
    requires forall i :: 0 <= i < |more| ==> more[i].now < end
    ensures k in RunOps(ops + more) && RunOps(ops + more)[k] == Slot(k.limit, end)
    decreases |more|
  {
    if more == [] {
      assert ops + more == ops;
    } else {
      StaysFull(ops, more[..|more| - 1], k, end);
      assert (ops + more)[..|ops + more| - 1] == ops + more[..|more| - 1];
    }
  }

  lemma {:induction false} StartIsTime(k: Key, times: seq<int>, n: nat)
    requires n < |Starts(k, times)|
    ensures Starts(k, times)[n] in times
  {
    var init := times[..|times| - 1];
    assert times == init + [Last(times)];
    if n < |Starts(k, init)| {
      StartIsTime(k, init, n);
    }
  }

  lemma {:induction false} TimeIsCall(ops: seq<Op>, k: Key, t: int)
    requires t in TimesOf(ops, k)
    ensures Call(k, t) in ops
  {
    var init := ops[..|ops| - 1];
    assert ops == init + [Last(ops)];
    if t in TimesOf(init, k) {
      TimeIsCall(init, k, t);
    }
  }

  lemma CoversMore(k: Key, ss: seq<int>, tt: seq<int>, now: int)
    requires ss <= tt && Covers(k, ss, now)
    ensures Covers(k, tt, now)
  {
    var i :| 0 <= i < |ss| && ss[i] <= now < ss[i] + Scale(k);
    assert tt[i] == ss[i];
  }

  // ---- How much any interval sees --------------------------------------------------------

  /** The windows that end after `a`. */
  function EndingAfter(k: Key, ss: seq<int>, a: int): nat {
    if ss == [] then 0
    else EndingAfter(k, ss[..|ss| - 1], a) + if Last(ss) + Scale(k) > a then 1 else 0
  }

  /** Of the windows ending after `a`, the first may have been open at `a`, the second ends after a + scale, and
      all others start after it; `last` calls were allowed in the last window and `c` in the interval. */
  predicate Bound(k: Key, ss: seq<int>, a: int, last: int, c: int) {
    var n := EndingAfter(k, ss, a);
    if n == 0 then c == 0 && (ss == [] || Last(ss) + Scale(k) <= a)
    else
      && ss != [] && Last(ss) + Scale(k) > a
      && (n == 1 ==> c <= last)
      && (n == 2 ==> c <= k.limit + last && Last(ss) > a)
      && (n >= 3 ==> c <= 2 * k.limit && Last(ss) > a + Scale(k))
  }

  function One(k: Key, a: int, t: int): nat {
    if a <= t <= a + Scale(k) then 1 else 0
  }

  lemma OpenBound(k: Key, ss: seq<int>, a: int, last: int, c: int, t: int)
    requires Limited(k) && Bound(k, ss, a, last, c) && Opens(k, ss, t) && last <= k.limit
    ensures Bound(k, ss + [t], a, 1, c + One(k, a, t))
  {
    assert (ss + [t])[..|ss|] == ss;
  }

  lemma StayBound(k: Key, ss: seq<int>, a: int, last: int, c: int, t: int, allowed: nat)
    requires Limited(k) && Bound(k, ss, a, last, c) && ss != [] && Last(ss) <= t < Last(ss) + Scale(k) && allowed <= 1
    ensures Bound(k, ss, a, last + allowed, c + if allowed == 1 then One(k, a, t) else 0)
  {
  }

  /** The calls allowed in the last window. */
  function LastAllowed(ops: seq<Op>, k: Key): int {
    var ss := Starts(k, TimesOf(ops, k));
    if ss == [] then 0 else AllowedIn(ops, k, Last(ss), Last(ss) + Scale(k))
  }

  lemma LastFits(ops: seq<Op>, k: Key)
    requires Limited(k) && Ordered(ops)
    ensures LastAllowed(ops, k) <= k.limit
  {
    WindowsAre(ops, k);
    var ss := Starts(k, TimesOf(ops, k));
    if ss != [] {
      assert WindowExact(ops, k, ss[|ss| - 1]);
    }
  }

  /** How one more call of the key changes the last window and the interval. */
  lemma CallCounts(ops: seq<Op>, k: Key, a: int)
    requires Limited(k) && Ordered(ops) && ops != [] && Mine(Last(ops), k)
    ensures var init, t := ops[..|ops| - 1], Last(ops).now;
            var ss, tt := Starts(k, TimesOf(init, k)), Starts(k, TimesOf(ops, k));
            var allowed := if Allows(RunOps(init), k, t) then 1 else 0;
            && AllowedIn(ops, k, a, a + Scale(k) + 1)
               == AllowedIn(init, k, a, a + Scale(k) + 1) + (if allowed == 1 then One(k, a, t) else 0)
            && if Opens(k, ss, t) then tt == ss + [t] && allowed == 1 && LastAllowed(ops, k) == 1
               else tt == ss && ss != [] && Last(ss) <= t < Last(ss) + Scale(k)
                    && LastAllowed(ops, k) == LastAllowed(init, k) + allowed
  {
    hide Starts, TimesOf, CallsIn, AllowedIn, RunOps, Allows;
    var init, t := ops[..|ops| - 1], Last(ops).now;
    var ss := Starts(k, TimesOf(init, k));
    CallMade(ops, k);
    CallsNext(ops, k, a, a + Scale(k) + 1);
    if Opens(k, ss, t) {
      CallsNext(ops, k, t, t + Scale(k));
      NoneAllowed(init, k, t, t + Scale(k));
    } else {
      CallsNext(ops, k, Last(ss), Last(ss) + Scale(k));
    }
  }

  lemma {:induction false} IntervalBound(ops: seq<Op>, k: Key, a: int)
    requires Limited(k) && Ordered(ops)
    ensures Bound(k, Starts(k, TimesOf(ops, k)), a, LastAllowed(ops, k), AllowedIn(ops, k, a, a + Scale(k) + 1))
  {
    if ops != [] {
      var init, op := ops[..|ops| - 1], Last(ops);
      IntervalBound(init, k, a);
      var ss, last, c := Starts(k, TimesOf(init, k)), LastAllowed(init, k), AllowedIn(init, k, a, a + Scale(k) + 1);
      if Mine(op, k) {
        hide Bound, Starts, TimesOf, AllowedIn, LastAllowed, Allows, RunOps;
        LastFits(init, k);
        CallCounts(ops, k, a);
        if Opens(k, ss, op.now) {
          OpenBound(k, ss, a, last, c, op.now);
        } else {
          StayBound(k, ss, a, last, c, op.now, if Allows(RunOps(init), k, op.now) then 1 else 0);
        }
      }
    }
  }

  /** Any interval as long as a window, ends included, sees at most twice the limit. */
  lemma AtMostTwiceTheLimit(ops: seq<Op>, k: Key, a: int)
    requires Limited(k) && Ordered(ops)
    ensures AllowedIn(ops, k, a, a + k.scaleSeconds * 1_000_000_000 + 1) <= 2 * k.limit
  {
    IntervalBound(ops, k, a);
    LastFits(ops, k);
  }

  /** `n` calls at `a`, then `m` calls one window later. */
  function Bursts(k: Key, a: int, n: nat, m: nat): seq<Op> {
    if m > 0 then Bursts(k, a, n, m - 1) + [Call(k, a + Scale(k))]
    else if n > 0 then Bursts(k, a, n - 1, 0) + [Call(k, a)]
    else []
  }

  predicate BurstIs(k: Key, a: int, ops: seq<Op>, n: nat, m: nat) {
    && Ordered(ops) && (forall i :: 0 <= i < |ops| ==> ops[i].now <= if m > 0 then a + Scale(k) else a)
    && Starts(k, TimesOf(ops, k)) == (if m > 0 then [a, a + Scale(k)] else if n > 0 then [a] else [])
    && CallsIn(ops, k, a, a + Scale(k)) == n && CallsIn(ops, k, a + Scale(k), a + Scale(k) + Scale(k)) == m
    && CallsIn(ops, k, a + Scale(k) + 1, a + Scale(k) + Scale(k)) == 0
  }

  lemma {:induction false} BurstTimes(k: Key, a: int, n: nat, m: nat)
    requires Limited(k) && (m > 0 ==> n > 0)
    ensures BurstIs(k, a, Bursts(k, a, n, m), n, m)
  {
    hide BurstIs;
    if m > 0 {
      BurstTimes(k, a, n, m - 1);
      BurstNext(Bursts(k, a, n, m - 1), k, a, a + Scale(k), n, m - 1);
    } else if n > 0 {
      BurstTimes(k, a, n - 1, 0);
      BurstNext(Bursts(k, a, n - 1, 0), k, a, a, n - 1, 0);
    } else {
      NoBurst(k, a);
    }
  }

  lemma NoBurst(k: Key, a: int)
    ensures BurstIs(k, a, [], 0, 0)
  {
  }

  lemma BurstNext(ops: seq<Op>, k: Key, a: int, t: int, n: nat, m: nat)
    requires Limited(k) && BurstIs(k, a, ops, n, m) && ((t == a && m == 0) || (t == a + Scale(k) && n > 0))
    ensures BurstIs(k, a, ops + [Call(k, t)], if t == a then n + 1 else n, if t == a then m else m + 1)
  {
    hide Starts, TimesOf, CallsIn;
    var all := ops + [Call(k, t)];
    assert all[..|all| - 1] == ops;
    CallsNext(all, k, a, a + Scale(k));
    CallsNext(all, k, a + Scale(k), a + Scale(k) + Scale(k));
    CallsNext(all, k, a + Scale(k) + 1, a + Scale(k) + Scale(k));
    StartsNext(k, TimesOf(ops, k), t);
  }

  lemma {:induction false} AllowedSplit(ops: seq<Op>, k: Key, a: int, b: int, c: int)
    requires a <= b <= c
    ensures AllowedIn(ops, k, a, c) == AllowedIn(ops, k, a, b) + AllowedIn(ops, k, b, c)
  {
    if ops != [] {
      AllowedSplit(ops[..|ops| - 1], k, a, b, c);
    }
  }

  /** For every limit the bound is reached, by as many calls as the limit in each of two windows that follow
      each other at once. */
  lemma TwiceIsReached(k: Key, a: int)
    requires Limited(k)
    ensures var ops := Bursts(k, a, k.limit, k.limit);
            Ordered(ops) && AllowedIn(ops, k, a, a + k.scaleSeconds * 1_000_000_000 + 1) == 2 * k.limit
  {
    BurstTimes(k, a, k.limit, k.limit);
    var ops := Bursts(k, a, k.limit, k.limit);
    WindowsAre(ops, k);
    BurstsAllowed(ops, k, a);
  }

  lemma BurstsAllowed(ops: seq<Op>, k: Key, a: int)
    requires Limited(k) && BurstIs(k, a, ops, k.limit, k.limit)
    requires forall i :: 0 <= i < |Starts(k, TimesOf(ops, k))| ==> WindowExact(ops, k, Starts(k, TimesOf(ops, k))[i])
    ensures AllowedIn(ops, k, a, a + Scale(k) + 1) == 2 * k.limit
  {
    hide AllowedIn, CallsIn, Starts, TimesOf, Scale, Ordered;
    var ss := Starts(k, TimesOf(ops, k));
    assert Scale(k) > 0 by { ScalePositive(k); }
    assert WindowExact(ops, k, ss[0]) && WindowExact(ops, k, ss[1]);
    AllowedSplit(ops, k, a, a + Scale(k), a + Scale(k) + 1);
    AllowedSplit(ops, k, a + Scale(k), a + Scale(k) + 1, a + Scale(k) + Scale(k));
    NoneAllowed(ops, k, a + Scale(k) + 1, a + Scale(k) + Scale(k));
  }

  lemma ScalePositive(k: Key)
    requires Limited(k)
    ensures Scale(k) > 0
  {
  }
}
