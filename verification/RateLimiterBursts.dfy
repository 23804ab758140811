/** Interleavings of calls in which the concurrent limiter allows as much as it can. */
module RateLimiterBursts {
  import opened Common
  import opened RateLimiterRuns
  import L = RateLimiter

  function Copies(g: Answer, n: nat): seq<Answer> {
    if n == 0 then [] else Copies(g, n - 1) + [g]
  }

  /** The state after window `w`, the one in the map, has allowed `n` calls that read the clock at `now`. */
  function Filled(s: State, w: nat, now: int, n: nat): State
    requires w < |s.wins|
  {
    s.(wins := s.wins[w := s.wins[w].(count := s.wins[w].count + n)],
       allowed := s.allowed + Copies(Answer(s.wins[w].key, now, w), n))
  }

  lemma FilledNone(s: State, w: nat, now: int)
    requires w < |s.wins|
    ensures Filled(s, w, now, 0) == s
  {
    assert s.allowed + [] == s.allowed;
  }

  lemma FilledNext(s: State, w: nat, now: int, n: nat)
    requires w < |s.wins| && n > 0
    requires s.wins[w].key in s.windows && s.windows[s.wins[w].key] == w
    requires now < Reset(s.wins[w]) && s.wins[w].count + n <= s.wins[w].key.limit
    ensures var t := Filled(s, w, now, n - 1);
            && Filled(s, w, now, n) == Counted(t, Looked(s.wins[w].key, now, Some(w)))
            && t.calls == s.calls && t.windows == s.windows && t.clock == s.clock && |t.wins| == |s.wins|
  {
    var g := Answer(s.wins[w].key, now, w);
    assert s.allowed + Copies(g, n) == s.allowed + Copies(g, n - 1) + [g];
  }

  lemma OneMore(i: State, acts: seq<Action>, k: Key, w: nat) returns (acts': seq<Action>, s: State)
    requires Run(i, acts).Some? && L.Limited(k)
    requires var s := Run(i, acts).value; 0 !in s.calls && k in s.windows && s.windows[k] == w && w < |s.wins|
    ensures Run(i, acts') == Some(s)
    ensures s == Counted(Run(i, acts).value, Looked(k, Run(i, acts).value.clock, Some(w)))
  {
    hide Run, Counted;
    acts', s := WholeCall(i, acts, k);
  }

  lemma {:induction false} Burst(i: State, acts: seq<Action>, w: nat, n: nat)
    returns (acts': seq<Action>, s: State)
    requires Run(i, acts).Some?
    requires var s := Run(i, acts).value;
             && 0 !in s.calls && w < |s.wins| && L.Limited(s.wins[w].key)
             && s.wins[w].key in s.windows && s.windows[s.wins[w].key] == w
             && s.clock < Reset(s.wins[w]) && s.wins[w].count + n <= s.wins[w].key.limit
    ensures Run(i, acts') == Some(s) && s == Filled(Run(i, acts).value, w, Run(i, acts).value.clock, n)
  {
    hide Run, Counted, Filled, Copies;
    var b := Run(i, acts).value;
    if n == 0 {
      FilledNone(b, w, b.clock);
      acts', s := acts, b;
    } else {
      acts', s := Burst(i, acts, w, n - 1);
      FilledNext(b, w, b.clock, n);
      acts', s := OneMore(i, acts', b.wins[w].key, w);
    }
  }

  lemma {:induction false} WithinCopies(answers: seq<Answer>, g: Answer, n: nat, k: Key, a: int, b: int)
    ensures Within(answers + Copies(g, n), k, a, b) == Within(answers, k, a, b) + if In(g, k, a, b) then n else 0
  {
    if n == 0 {
      assert answers + [] == answers;
    } else {
      WithinCopies(answers, g, n - 1, k, a, b);
      var all := answers + Copies(g, n);
      assert all[..|all| - 1] == answers + Copies(g, n - 1);
    }
  }

  lemma WithinNext(answers: seq<Answer>, g: Answer, k: Key, a: int, b: int)
    ensures Within(answers + [g], k, a, b) == Within(answers, k, a, b) + if In(g, k, a, b) then 1 else 0
  {
    assert (answers + [g])[..|answers|] == answers;
  }

  function FirstAnswers(k: Key, a: int): seq<Answer>
    requires L.Limited(k)
  {
    [Answer(k, a - L.Scale(k) + 1, 0)] + Copies(Answer(k, a, 0), k.limit - 1)
  }

  function SecondAnswers(k: Key, a: int): seq<Answer>
    requires L.Limited(k)
  {
    FirstAnswers(k, a) + [Answer(k, a, 1)] + Copies(Answer(k, a + 2, 1), k.limit - 1)
  }

  function ThirdAnswers(k: Key, a: int): seq<Answer>
    requires L.Limited(k)
  {
    SecondAnswers(k, a) + [Answer(k, a + L.Scale(k), 2)] + Copies(Answer(k, a + L.Scale(k), 2), k.limit - 1)
  }

  /** A window that ends just after `a`, filled at `a`. */
  lemma FirstWindow(delay: nat, k: Key, a: int) returns (acts: seq<Action>, s: State)
    requires L.Limited(k)
    ensures Run(Init(a - L.Scale(k) + 1, delay), acts) == Some(s)
    ensures s == State(a, delay, [Win(k, a - L.Scale(k) + 1, k.limit)], map[k := 0], map[], FirstAnswers(k, a), [])
  {
    var i := Init(a - L.Scale(k) + 1, delay);
    EmptyRun(i);
    hide Run;
    acts, s := WholeCall(i, [], k);
    acts, s := Extend(i, acts, Tick(a));
    acts, s := Burst(i, acts, 0, k.limit - 1);
  }

  /** A cleanup removes it while a call that read the clock at `a` is on the way, which opens the next. */
  lemma SecondOpened(delay: nat, k: Key, a: int) returns (acts: seq<Action>, s: State)
    requires L.Limited(k) && 2 <= delay
    ensures Run(Init(a - L.Scale(k) + 1, delay), acts) == Some(s)
    ensures s == State(a + 2, delay, [Win(k, a - L.Scale(k) + 1, k.limit), Win(k, a, 1)], map[k := 1], map[],
                       FirstAnswers(k, a) + [Answer(k, a, 1)], [])
  {
    var i := Init(a - L.Scale(k) + 1, delay);
    acts, s := FirstWindow(delay, k, a);
    hide Run, FirstAnswers, Copies;
    acts, s := Extend(i, acts, Begin(0, k));
    acts, s := Extend(i, acts, Tick(a + 2));
    acts, s := Extend(i, acts, Clean);
    assert s.windows == map[];
    acts, s := Extend(i, acts, Look(0));
    acts, s := Extend(i, acts, Update(0));
    assert s.calls == map[];
  }

  lemma SecondWindow(delay: nat, k: Key, a: int) returns (acts: seq<Action>, s: State)
    requires L.Limited(k) && 2 <= delay && 4 * delay <= L.Scale(k)
    ensures Run(Init(a - L.Scale(k) + 1, delay), acts) == Some(s)
    ensures s == State(a + 2, delay, [Win(k, a - L.Scale(k) + 1, k.limit), Win(k, a, k.limit)], map[k := 1], map[],
                       SecondAnswers(k, a), [])
  {
    hide Run, FirstAnswers, Copies;
    acts, s := SecondOpened(delay, k, a);
    acts, s := Burst(Init(a - L.Scale(k) + 1, delay), acts, 1, k.limit - 1);
  }

  /** For every limit and every delay of at least two nanoseconds some interleaving allows one call less than
      three times the limit: a cleanup removes the first window while a call that read the clock before its end
      is on the way, and that call opens the second one too early. */
  lemma AlmostThreeTimesIsReached(delay: nat, k: Key, a: int) returns (acts: seq<Action>, s: State)
    requires L.Limited(k) && 2 <= delay && 4 * delay <= k.scaleSeconds * 1_000_000_000
    ensures Run(Init(a - L.Scale(k) + 1, delay), acts) == Some(s)
    ensures AllowedFrom(s, k, a) == 3 * k.limit - 1
  {
    var i := Init(a - L.Scale(k) + 1, delay);
    acts, s := SecondWindow(delay, k, a);
    hide Run, SecondAnswers, Copies, Within;
    acts, s := Extend(i, acts, Tick(a + L.Scale(k)));
    acts, s := WholeCall(i, acts, k);
    acts, s := Burst(i, acts, 2, k.limit - 1);
    assert s.allowed == ThirdAnswers(k, a);
    ThreeBursts(k, a);
  }

  lemma ThreeBursts(k: Key, a: int)
    requires L.Limited(k) && L.Scale(k) >= 8
    ensures Within(ThirdAnswers(k, a), k, a, a + L.Scale(k) + 1) == 3 * k.limit - 1
  {
    hide Within, Copies;
    var n, b, first := k.limit - 1, a + L.Scale(k) + 1, Answer(k, a - L.Scale(k) + 1, 0);
    assert [] + [first] == [first];
    NothingWithin(k, a, b);
    WithinNext([], first, k, a, b);
    WithinCopies([first], Answer(k, a, 0), n, k, a, b);
    WithinNext(FirstAnswers(k, a), Answer(k, a, 1), k, a, b);
    WithinCopies(FirstAnswers(k, a) + [Answer(k, a, 1)], Answer(k, a + 2, 1), n, k, a, b);
    var third := Answer(k, a + L.Scale(k), 2);
    WithinNext(SecondAnswers(k, a), third, k, a, b);
    WithinCopies(SecondAnswers(k, a) + [third], third, n, k, a, b);
  }

  lemma NothingWithin(k: Key, a: int, b: int)
    ensures Within([], k, a, b) == 0
  {
  }

  // ---- Calls that are one nanosecond late ----------------------------------------------

  /** Calls 1 to `n` have read the clock. */
  function Waiting(k: Key, now: int, n: nat): map<nat, Call> {
    if n == 0 then map[] else Waiting(k, now, n - 1)[n := Timed(k, now)]
  }

  lemma {:induction false} WaitingIs(k: Key, now: int, n: nat)
    ensures forall id :: id in Waiting(k, now, n) ==> 1 <= id <= n && Waiting(k, now, n)[id] == Timed(k, now)
  {
    if n > 0 {
      WaitingIs(k, now, n - 1);
    }
  }

  lemma {:induction false} BeginMany(i: State, acts: seq<Action>, k: Key, n: nat)
    returns (acts': seq<Action>, s: State)
    requires Run(i, acts).Some? && Run(i, acts).value.calls == map[] && L.Limited(k)
    ensures Run(i, acts') == Some(s)
    ensures var b := Run(i, acts).value; s == b.(calls := Waiting(k, b.clock, n))
  {
    hide Run;
    var b := Run(i, acts).value;
    if n == 0 {
      acts', s := acts, b;
    } else {
      acts', s := BeginMany(i, acts, k, n - 1);
      WaitingIs(k, b.clock, n - 1);
      acts', s := Extend(i, acts', Begin(n, k));
    }
  }

  /** `j` of the waiting calls go through, each without interruption. */
  lemma {:induction false} DrainMany(i: State, acts: seq<Action>, w: nat, now: int, n: nat, j: nat)
    returns (acts': seq<Action>, s: State)
    requires Run(i, acts).Some? && j <= n
    requires var s := Run(i, acts).value;
             && w < |s.wins| && s.calls == Waiting(s.wins[w].key, now, n)
             && s.wins[w].key in s.windows && s.windows[s.wins[w].key] == w
             && now < Reset(s.wins[w]) && s.wins[w].count + n <= s.wins[w].key.limit
    ensures Run(i, acts') == Some(s)
    ensures var b := Run(i, acts).value;
            s == Filled(b, w, now, j).(calls := Waiting(b.wins[w].key, now, n - j))
  {
    hide Run, Counted, Filled, Copies, Waiting;
    var b := Run(i, acts).value;
    var k := b.wins[w].key;
    if j == 0 {
      FilledNone(b, w, now);
      acts', s := acts, b;
    } else {
      acts', s := DrainMany(i, acts, w, now, n, j - 1);
      FilledNext(b, w, now, j);
      acts', s := DrainOne(i, acts', k, w, now, n - j + 1);
      CountedCalls(Filled(b, w, now, j - 1), Looked(k, now, Some(w)), Waiting(k, now, n - j + 1),
                   Waiting(k, now, n - j));
    }
  }

  /** What a call does to windows and answers does not depend on the other calls. */
  lemma CountedCalls(s: State, c: Call, before: map<nat, Call>, after: map<nat, Call>)
    requires c.Looked?
    ensures Counted(s.(calls := before), c).(calls := after) == Counted(s, c).(calls := after)
  {
  }

  lemma DrainOne(i: State, acts: seq<Action>, k: Key, w: nat, now: int, id: nat)
    returns (acts': seq<Action>, s: State)
    requires Run(i, acts).Some? && id > 0
    requires var s := Run(i, acts).value;
             s.calls == Waiting(k, now, id) && k in s.windows && s.windows[k] == w
    ensures Run(i, acts') == Some(s)
    ensures s == Counted(Run(i, acts).value, Looked(k, now, Some(w))).(calls := Waiting(k, now, id - 1))
  {
    hide Run;
    var b := Run(i, acts).value;
    WaitingIs(k, now, id - 1);
    acts', s := Extend(i, acts, Look(id));
    acts', s := Extend(i, acts', Update(id));
    assert s.calls == Waiting(k, now, id - 1);
  }

  function TwoFull(k: Key, a: int): seq<Win>
    requires L.Limited(k)
  {
    [Win(k, a - L.Scale(k) + 1, k.limit), Win(k, a + 1, k.limit)]
  }

  function SecondInTimeAnswers(k: Key, a: int): seq<Answer>
    requires L.Limited(k)
  {
    FirstAnswers(k, a) + [Answer(k, a + 1, 1)] + Copies(Answer(k, a + 1, 1), k.limit - 1)
  }

  /** The second window is opened when the first is over, and filled. */
  lemma OpenedInTime(delay: nat, k: Key, a: int) returns (acts: seq<Action>, s: State)
    requires L.Limited(k)
    ensures Run(Init(a - L.Scale(k) + 1, delay), acts) == Some(s)
    ensures s == State(a + 1, delay, [Win(k, a - L.Scale(k) + 1, k.limit), Win(k, a + 1, 1)], map[k := 1], map[],
                       FirstAnswers(k, a) + [Answer(k, a + 1, 1)], [])
  {
    var i := Init(a - L.Scale(k) + 1, delay);
    acts, s := FirstWindow(delay, k, a);
    hide Run, FirstAnswers, Copies;
    acts, s := Extend(i, acts, Tick(a + 1));
    acts, s := WholeCall(i, acts, k);
  }

  lemma SecondInTime(delay: nat, k: Key, a: int) returns (acts: seq<Action>, s: State)
    requires L.Limited(k) && L.Scale(k) >= 4
    ensures Run(Init(a - L.Scale(k) + 1, delay), acts) == Some(s)
    ensures s == State(a + 1, delay, TwoFull(k, a), map[k := 1], map[], SecondInTimeAnswers(k, a), [])
  {
    hide Run, FirstAnswers, Copies;
    acts, s := OpenedInTime(delay, k, a);
    acts, s := Burst(Init(a - L.Scale(k) + 1, delay), acts, 1, k.limit - 1);
  }

  /** All but one of as many calls as the limit read the clock at the end of the interval... */
  lemma CallsBegun(delay: nat, k: Key, a: int) returns (acts: seq<Action>, s: State)
    requires L.Limited(k) && L.Scale(k) >= 4
    ensures Run(Init(a - L.Scale(k) + 1, delay), acts) == Some(s)
    ensures s == State(a + L.Scale(k), delay, TwoFull(k, a), map[k := 1], Waiting(k, a + L.Scale(k), k.limit - 1),
                       SecondInTimeAnswers(k, a), [])
  {
    var i := Init(a - L.Scale(k) + 1, delay);
    acts, s := SecondInTime(delay, k, a);
    hide Run, SecondInTimeAnswers, Waiting;
    acts, s := Extend(i, acts, Tick(a + L.Scale(k)));
    acts, s := BeginMany(i, acts, k, k.limit - 1);
  }

  lemma LateTick(s: State, k: Key, now: int, n: nat, time: int)
    requires s.calls == Waiting(k, now, n) && s.clock <= time <= now + s.delay
    ensures Enabled(s, Tick(time)) && 0 !in s.calls
  {
    WaitingIs(k, now, n);
  }

  /** ...and the last one opens the third window just after it. */
  lemma ThirdOpened(delay: nat, k: Key, a: int) returns (acts: seq<Action>, s: State)
    requires L.Limited(k) && 1 <= delay && 4 * delay <= L.Scale(k)
    ensures Run(Init(a - L.Scale(k) + 1, delay), acts) == Some(s)
    ensures s == State(a + L.Scale(k) + 1, delay, TwoFull(k, a) + [Win(k, a + L.Scale(k) + 1, 1)],
                       map[k := 2], Waiting(k, a + L.Scale(k), k.limit - 1),
                       SecondInTimeAnswers(k, a) + [Answer(k, a + L.Scale(k) + 1, 2)], [])
  {
    hide Run, SecondInTimeAnswers, Waiting, Enabled;
    var i := Init(a - L.Scale(k) + 1, delay);
    acts, s := CallsBegun(delay, k, a);
    LateTick(s, k, a + L.Scale(k), k.limit - 1, a + L.Scale(k) + 1);
    acts, s := Extend(i, acts, Tick(a + L.Scale(k) + 1));
    acts, s := WholeCall(i, acts, k);
  }

  function LateAnswers(k: Key, a: int): seq<Answer>
    requires L.Limited(k)
  {
    SecondInTimeAnswers(k, a)
    + [Answer(k, a + L.Scale(k) + 1, 2)] + Copies(Answer(k, a + L.Scale(k), 2), k.limit - 1)
  }

  lemma ThirdFilled(delay: nat, k: Key, a: int) returns (acts: seq<Action>, s: State)
    requires L.Limited(k) && 1 <= delay && 4 * delay <= L.Scale(k)
    ensures Run(Init(a - L.Scale(k) + 1, delay), acts) == Some(s) && s.allowed == LateAnswers(k, a)
  {
    hide Run, SecondInTimeAnswers, Copies, Waiting, Enabled;
    acts, s := ThirdOpened(delay, k, a);
    acts, s := DrainMany(Init(a - L.Scale(k) + 1, delay), acts, 2, a + L.Scale(k), k.limit - 1, k.limit - 1);
  }

  /** Calls that read the clock at the end of the interval are counted by a window opened just after it. */
  lemma LateCallsAreCounted(delay: nat, k: Key, a: int) returns (acts: seq<Action>, s: State)
    requires L.Limited(k) && 1 <= delay && 4 * delay <= k.scaleSeconds * 1_000_000_000
    ensures Run(Init(a - L.Scale(k) + 1, delay), acts) == Some(s)
    ensures AllowedFrom(s, k, a) == 3 * k.limit - 2
  {
    hide Run, Within, LateAnswers;
    acts, s := ThirdFilled(delay, k, a);
    LateBursts(k, a);
  }

  lemma LateBursts(k: Key, a: int)
    requires L.Limited(k) && L.Scale(k) >= 4
    ensures Within(LateAnswers(k, a), k, a, a + L.Scale(k) + 1) == 3 * k.limit - 2
  {
    hide Within, Copies;
    var n, b, first := k.limit - 1, a + L.Scale(k) + 1, Answer(k, a - L.Scale(k) + 1, 0);
    assert [] + [first] == [first];
    NothingWithin(k, a, b);
    WithinNext([], first, k, a, b);
    WithinCopies([first], Answer(k, a, 0), n, k, a, b);
    var second := Answer(k, a + 1, 1);
    WithinNext(FirstAnswers(k, a), second, k, a, b);
    var s := FirstAnswers(k, a) + [second];
    WithinCopies(s, second, n, k, a, b);
    s := s + Copies(second, n);
    WithinNext(s, Answer(k, b, 2), k, a, b);
    s := s + [Answer(k, b, 2)];
    WithinCopies(s, Answer(k, a + L.Scale(k), 2), n, k, a, b);
  }

  // ---- Exactly when twice the limit is the bound -----------------------------------------

  /** No interleaving allows more than twice the limit in an interval as long as a window. */
  ghost predicate TwiceSuffices(delay: nat, k: Key) {
    forall clock: int, acts: seq<Action>, a: int ::
      Run(Init(clock, delay), acts).Some? ==>
        AllowedFrom(Run(Init(clock, delay), acts).value, k, a) <= 2 * k.limit
  }

  lemma Exceeded(delay: nat, k: Key, clock: int, acts: seq<Action>, a: int)
    requires Run(Init(clock, delay), acts).Some?
    requires AllowedFrom(Run(Init(clock, delay), acts).value, k, a) > 2 * k.limit
    ensures !TwiceSuffices(delay, k)
  {
  }

  /** Twice the limit is the bound under concurrency exactly when calls take no time from reading the clock to
      their end, or the limit is one, or calls take one nanosecond at most and the limit is two. */
  lemma TwiceSufficesIff(delay: nat, k: Key)
    requires L.Limited(k) && 4 * delay <= k.scaleSeconds * 1_000_000_000
    ensures TwiceSuffices(delay, k) <==> delay == 0 || k.limit == 1 || (delay == 1 && k.limit == 2)
  {
    hide Run, AllowedFrom, TwiceSuffices;
    if delay == 0 || k.limit == 1 || (delay == 1 && k.limit == 2) {
      TwiceHolds(delay, k);
    } else if delay == 1 {
      var acts, s := LateCallsAreCounted(delay, k, 0);
      Exceeded(delay, k, 1 - L.Scale(k), acts, 0);
    } else {
      var acts, s := AlmostThreeTimesIsReached(delay, k, 0);
      Exceeded(delay, k, 1 - L.Scale(k), acts, 0);
    }
  }

  lemma TwiceHolds(delay: nat, k: Key)
    requires L.Limited(k) && 4 * delay <= L.Scale(k) && Most(delay, k.limit) <= 2 * k.limit
    ensures TwiceSuffices(delay, k)
  {
    forall clock: int, acts: seq<Action>, a: int | Run(Init(clock, delay), acts).Some?
      ensures AllowedFrom(Run(Init(clock, delay), acts).value, k, a) <= 2 * k.limit
    {
      AtMostMost(clock, delay, acts, k, a);
    }
  }
}
