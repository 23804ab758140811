/** The limiter of internal/api/external/externalevent.go under concurrent calls: a call reads the clock,
    looks its window up under the read lock, and counts itself under the write lock. */
module RateLimiterRuns {
  import opened Common
  import L = RateLimiter

  type Key = L.Key

  /** A window as an object: a call that has looked it up still holds it when the map has another one. */
  datatype Win = Win(key: Key, start: int, count: nat)

  datatype Call = Timed(key: Key, now: int) | Looked(key: Key, now: int, seen: Option<nat>)

  /** A call answered by the window `win`. */
  datatype Answer = Answer(key: Key, now: int, win: nat)

  datatype State = State(
    clock: int,
    delay: nat,              // no call takes longer than this from reading the clock to its end
    wins: seq<Win>,          // every window ever made
    windows: map<Key, nat>,
    calls: map<nat, Call>,
    // Recorded for the theorems only.
    allowed: seq<Answer>,
    refused: seq<Answer>
  )

  datatype Action =
    | Tick(time: int)
    | Begin(id: nat, key: Key)   // time.Now(); calls of a key without a limit are not limited
    | Look(id: nat)              // the section under the read lock
    | Update(id: nat)            // the section under the write lock
    | Clean

  function Init(clock: int, delay: nat): State {
    State(clock, delay, [], map[], map[], [], [])
  }

  function Reset(w: Win): int {
    w.start + L.Scale(w.key)
  }

  predicate Open(s: State, w: nat, now: int) {
    w < |s.wins| && now < Reset(s.wins[w])
  }

  predicate Enabled(s: State, a: Action) {
    match a
    case Tick(time) => time >= s.clock && forall id :: id in s.calls ==> time <= s.calls[id].now + s.delay
    case Begin(id, key) => id !in s.calls && L.Limited(key)
    case Look(id) => id in s.calls && s.calls[id].Timed?
    case Update(id) => id in s.calls && s.calls[id].Looked?
    case Clean => true
  }

  /** The window that counts the call: the one it saw, else the one that is there now, if it is open. */
  function Target(s: State, c: Call): Option<nat>
    requires c.Looked?
  {
    if c.seen.Some? && Open(s, c.seen.value, c.now) then c.seen
    else if c.key in s.windows && Open(s, s.windows[c.key], c.now) then Some(s.windows[c.key])
    else None
  }

  function Counted(s: State, c: Call): State
    requires c.Looked?
  {
    var t := Target(s, c);
    if t.None? then
      s.(wins := s.wins + [Win(c.key, c.now, 1)], windows := s.windows[c.key := |s.wins|],
         allowed := s.allowed + [Answer(c.key, c.now, |s.wins|)])
    else
      var w := s.wins[t.value];
      if w.count >= c.key.limit then s.(refused := s.refused + [Answer(c.key, c.now, t.value)])
      else s.(wins := s.wins[t.value := w.(count := w.count + 1)],
              allowed := s.allowed + [Answer(c.key, c.now, t.value)])
  }

  function Apply(s: State, a: Action): State
    requires Enabled(s, a)
  {
    match a
    case Tick(time) => s.(clock := time)
    case Begin(id, key) => s.(calls := s.calls[id := Timed(key, s.clock)])
    case Look(id) =>
      var c := s.calls[id];
      s.(calls := s.calls[id := Looked(c.key, c.now, if c.key in s.windows then Some(s.windows[c.key]) else None)])
    case Update(id) => Counted(s, s.calls[id]).(calls := s.calls - {id})
    case Clean =>
      s.(windows := map k | k in s.windows && s.windows[k] < |s.wins| && s.clock <= Reset(s.wins[s.windows[k]])
                      :: s.windows[k])
  }

  ghost function Run(i: State, acts: seq<Action>): Option<State> {
    if acts == [] then Some(i)
    else
      var before := Run(i, acts[..|acts| - 1]);
      if before.Some? && Enabled(before.value, Last(acts)) then Some(Apply(before.value, Last(acts))) else None
  }

  function CountWin(answers: seq<Answer>, w: nat): nat {
    if answers == [] then 0 else CountWin(answers[..|answers| - 1], w) + if Last(answers).win == w then 1 else 0
  }

  // ---- Invariant ---------------------------------------------------------------------

  predicate CallOk(s: State, c: Call) {
    && c.now <= s.clock <= c.now + s.delay && L.Limited(c.key)
    && (c.Looked? && c.seen.Some? ==> c.seen.value < |s.wins| && s.wins[c.seen.value].key == c.key)
  }

  /** The answer came from a window of the key that was open, made before the call's delay was over. */
  predicate AnswerOk(s: State, g: Answer) {
    && g.win < |s.wins| && s.wins[g.win].key == g.key
    && s.wins[g.win].start - s.delay <= g.now < Reset(s.wins[g.win])
  }

  predicate Opener(s: State, w: nat, g: Answer)
    requires w < |s.wins|
  {
    g in s.allowed && g.win == w && g.now == s.wins[w].start
  }

  /** A window counts the calls it allowed, the one that opened it among them. */
  ghost predicate WinOk(s: State, w: nat)
    requires w < |s.wins|
  {
    && L.Limited(s.wins[w].key) && s.wins[w].start <= s.clock
    && s.wins[w].count == CountWin(s.allowed, w) && s.wins[w].count <= s.wins[w].key.limit
    && exists g :: Opener(s, w, g)
  }

  predicate MapOk(s: State, k: Key)
    requires k in s.windows
  {
    s.windows[k] < |s.wins| && s.wins[s.windows[k]].key == k
  }

  ghost predicate Inv(s: State) {
    && (forall id :: id in s.calls ==> CallOk(s, s.calls[id]))
    && (forall k :: k in s.windows ==> MapOk(s, k))
    && (forall w :: 0 <= w < |s.wins| ==> WinOk(s, w))
    && (forall g :: g in s.allowed ==> AnswerOk(s, g))
    && (forall g :: g in s.refused ==> AnswerOk(s, g) && s.wins[g.win].count == g.key.limit)
  }

  lemma CountNext(answers: seq<Answer>, g: Answer, w: nat)
    ensures CountWin(answers + [g], w) == CountWin(answers, w) + if g.win == w then 1 else 0
  {
    assert (answers + [g])[..|answers|] == answers;
  }

  lemma {:induction false} CountNone(answers: seq<Answer>, w: nat)
    requires forall g :: g in answers ==> g.win != w
    ensures CountWin(answers, w) == 0
  {
    if answers != [] {
      CountNone(answers[..|answers| - 1], w);
    }
  }

  lemma OpenedKeeps(s: State, c: Call)
    requires Inv(s) && CallOk(s, c) && c.Looked? && Target(s, c).None?
    ensures Inv(Counted(s, c))
  {
    var t, n, g := Counted(s, c), |s.wins|, Answer(c.key, c.now, |s.wins|);
    forall w | 0 <= w < |t.wins| ensures WinOk(t, w) {
      CountNext(s.allowed, g, w);
      if w == n {
        CountNone(s.allowed, n);
        assert Opener(t, n, g);
      } else {
        assert WinOk(s, w);
        var h :| Opener(s, w, h);
        assert Opener(t, w, h);
      }
    }
    forall h | h in t.allowed ensures AnswerOk(t, h) {
      assert h in s.allowed ==> AnswerOk(s, h);
    }
    forall k | k in t.windows ensures MapOk(t, k) {
      assert k in s.windows ==> MapOk(s, k);
    }
    forall id | id in t.calls ensures CallOk(t, t.calls[id]) {
      assert CallOk(s, s.calls[id]);
    }
  }

  lemma WinBasics(s: State, w: nat)
    requires w < |s.wins| && WinOk(s, w)
    ensures s.wins[w].count <= s.wins[w].key.limit && s.wins[w].start <= s.clock
  {
  }

  lemma AddedWin(s: State, c: Call, v: nat, w: nat)
    requires c.Looked? && Target(s, c) == Some(v) && w < |s.wins| && WinOk(s, w) && v < |s.wins|
    requires s.wins[v].key == c.key
    ensures WinOk(Counted(s, c), w)
  {
    hide CountWin, Target;
    var t, g := Counted(s, c), Answer(c.key, c.now, v);
    CountNext(s.allowed, g, w);
    var h :| Opener(s, w, h);
    if s.wins[v].count >= c.key.limit {
      assert t == s.(refused := t.refused);
      assert Opener(t, w, h);
    } else {
      assert Opener(t, w, h);
    }
  }

  lemma AddedKeeps(s: State, c: Call, v: nat)
    requires Inv(s) && CallOk(s, c) && c.Looked? && Target(s, c) == Some(v)
    ensures Inv(Counted(s, c))
  {
    hide CountWin, WinOk;
    var t := Counted(s, c);
    assert c.key in s.windows ==> MapOk(s, c.key);
    assert s.wins[v].count <= s.wins[v].key.limit && s.wins[v].start <= s.clock by { WinBasics(s, v); }
    forall w | 0 <= w < |t.wins| ensures WinOk(t, w) {
      AddedWin(s, c, v, w);
    }
    forall h | h in t.allowed ensures AnswerOk(t, h) {
      assert h in s.allowed ==> AnswerOk(s, h);
    }
    forall h | h in t.refused ensures AnswerOk(t, h) && t.wins[h.win].count == h.key.limit {
      assert h in s.refused ==> AnswerOk(s, h) && s.wins[h.win].count == h.key.limit;
    }
    forall k | k in t.windows ensures MapOk(t, k) {
      assert MapOk(s, k);
    }
    forall id | id in t.calls ensures CallOk(t, t.calls[id]) {
      assert CallOk(s, s.calls[id]);
    }
  }

  lemma FewerCalls(s: State, t: State)
    requires Inv(s) && t == s.(calls := t.calls) && forall id :: id in t.calls ==> CallOk(s, t.calls[id])
    ensures Inv(t)
  {
    forall w | 0 <= w < |t.wins| ensures WinOk(t, w) {
      assert WinOk(s, w);
      var h :| Opener(s, w, h);
      assert Opener(t, w, h);
    }
    assert forall g :: g in t.allowed ==> AnswerOk(s, g);
    assert forall k :: k in t.windows ==> MapOk(s, k);
  }

  lemma TimeKeeps(s: State, a: Action)
    requires Inv(s) && Enabled(s, a) && (a.Tick? || a.Clean?)
    ensures Inv(Apply(s, a))
  {
    var t := Apply(s, a);
    forall w | 0 <= w < |t.wins| ensures WinOk(t, w) {
      assert WinOk(s, w);
      var h :| Opener(s, w, h);
      assert Opener(t, w, h);
    }
    assert forall g :: g in t.allowed ==> AnswerOk(s, g);
    assert forall k :: k in t.windows ==> MapOk(s, k);
    assert forall id :: id in t.calls ==> CallOk(s, t.calls[id]);
  }

  lemma StepKeeps(s: State, a: Action)
    requires Inv(s) && Enabled(s, a)
    ensures Inv(Apply(s, a))
  {
    match a {
      case Begin(id, key) => FewerCalls(s, Apply(s, a));
      case Look(id) =>
        assert CallOk(s, s.calls[id]);
        assert s.calls[id].key in s.windows ==> MapOk(s, s.calls[id].key);
        FewerCalls(s, Apply(s, a));
      case Update(id) =>
        var c := s.calls[id];
        assert CallOk(s, c);
        if Target(s, c).None? {
          OpenedKeeps(s, c);
        } else {
          AddedKeeps(s, c, Target(s, c).value);
        }
        FewerCalls(Counted(s, c), Apply(s, a));
      case _ => TimeKeeps(s, a);
    }
  }

  lemma {:induction false} Reachable(clock: int, delay: nat, acts: seq<Action>)
    requires Run(Init(clock, delay), acts).Some?
    ensures Inv(Run(Init(clock, delay), acts).value) && Run(Init(clock, delay), acts).value.delay == delay
  {
    hide Inv, Enabled, Apply;
    if acts == [] {
      InitInv(clock, delay);
    } else {
      Reachable(clock, delay, acts[..|acts| - 1]);
      StepKeeps(Run(Init(clock, delay), acts[..|acts| - 1]).value, Last(acts));
      DelayStays(Run(Init(clock, delay), acts[..|acts| - 1]).value, Last(acts));
    }
  }

  lemma InitInv(clock: int, delay: nat)
    ensures Inv(Init(clock, delay))
  {
  }

  lemma DelayStays(s: State, a: Action)
    requires Enabled(s, a)
    ensures Apply(s, a).delay == s.delay
  {
  }

  // ---- How far apart windows start -----------------------------------------------------

  /** By how much a window may start before the end of the one before it: that one must have been removed, so
      it was over on the cleanup's clock, and the caller read the clock at most the delay earlier. */
  function Slack(delay: nat): nat {
    if delay == 0 then 0 else delay - 1
  }

  ghost predicate Spaced(s: State, k: Key) {
    && (forall i, j :: 0 <= i < j < |s.wins| && s.wins[i].key == k && s.wins[j].key == k ==>
          s.wins[j].start >= s.wins[i].start + L.Scale(k) - Slack(s.delay))
    && forall w :: 0 <= w < |s.wins| && s.wins[w].key == k ==>
         if k in s.windows then w <= s.windows[k] else s.clock > Reset(s.wins[w])
  }

  lemma OpenedSpaced(s: State, c: Call, k: Key)
    requires Inv(s) && CallOk(s, c) && c.Looked? && Target(s, c).None? && Spaced(s, k) && s.delay <= L.Scale(k)
    ensures Spaced(Counted(s, c), k)
  {
    hide AnswerOk, WinOk;
    var t, n := Counted(s, c), |s.wins|;
    if c.key == k {
      assert k in s.windows ==> MapOk(s, k);
      forall i | 0 <= i < n && s.wins[i].key == k ensures c.now >= s.wins[i].start + L.Scale(k) - Slack(s.delay) {
        if k in s.windows {
          assert i < s.windows[k] ==> s.wins[s.windows[k]].start >= s.wins[i].start + L.Scale(k) - Slack(s.delay);
        }
      }
    }
  }

  lemma CleanSpaced(s: State, k: Key)
    requires Inv(s) && Spaced(s, k) && s.delay <= L.Scale(k)
    ensures Spaced(Apply(s, Clean), k)
  {
    hide AnswerOk, WinOk, CallOk;
    var t := Apply(s, Clean);
    if k in s.windows && k !in t.windows {
      assert MapOk(s, k);
      var last := s.windows[k];
      forall w | 0 <= w < |t.wins| && t.wins[w].key == k ensures t.clock > Reset(t.wins[w]) {
        assert w < last ==> s.wins[last].start >= s.wins[w].start + L.Scale(k) - Slack(s.delay);
      }
    }
  }

  lemma AddedSpaced(s: State, c: Call, k: Key)
    requires c.Looked? && Target(s, c).Some? && Spaced(s, k)
    ensures Spaced(Counted(s, c), k)
  {
  }

  lemma StepSpaced(s: State, a: Action, k: Key)
    requires Inv(s) && Enabled(s, a) && Spaced(s, k) && s.delay <= L.Scale(k)
    ensures Spaced(Apply(s, a), k)
  {
    match a {
      case Update(id) =>
        var c := s.calls[id];
        assert CallOk(s, c);
        if Target(s, c).None? {
          OpenedSpaced(s, c, k);
        } else {
          AddedSpaced(s, c, k);
        }
      case Clean => CleanSpaced(s, k);
      case _ =>
    }
  }

  lemma {:induction false} ReachableSpaced(clock: int, delay: nat, acts: seq<Action>, k: Key)
    requires Run(Init(clock, delay), acts).Some? && delay <= L.Scale(k)
    ensures Spaced(Run(Init(clock, delay), acts).value, k)
  {
    hide Inv, Enabled, Apply;
    if acts != [] {
      Reachable(clock, delay, acts[..|acts| - 1]);
      ReachableSpaced(clock, delay, acts[..|acts| - 1], k);
      StepSpaced(Run(Init(clock, delay), acts[..|acts| - 1]).value, Last(acts), k);
    }
  }

  // ---- How many calls an interval allows -----------------------------------------------

  predicate In(g: Answer, k: Key, a: int, b: int) {
    g.key == k && a <= g.now < b
  }

  function Within(answers: seq<Answer>, k: Key, a: int, b: int): nat {
    if answers == [] then 0
    else Within(answers[..|answers| - 1], k, a, b) + if In(Last(answers), k, a, b) then 1 else 0
  }

  lemma {:induction false} ByWindow(answers: seq<Answer>, k: Key, a: int, b: int, u: nat, v: nat, w: nat)
    requires forall g :: g in answers && In(g, k, a, b) ==> g.win in [u, v, w]
    ensures Within(answers, k, a, b) <= CountWin(answers, u) + CountWin(answers, v) + CountWin(answers, w)
  {
    if answers != [] {
      ByWindow(answers[..|answers| - 1], k, a, b, u, v, w);
      assert In(Last(answers), k, a, b) ==> Last(answers).win in [u, v, w];
    }
  }

  /** One less, if a call counted by one of the windows is not in the interval. */
  lemma {:induction false} ByWindowLess(
      answers: seq<Answer>, k: Key, a: int, b: int, u: nat, v: nat, w: nat, h: Answer)
    requires forall g :: g in answers && In(g, k, a, b) ==> g.win in [u, v, w]
    requires h in answers && h.win in [u, v, w] && !In(h, k, a, b)
    ensures Within(answers, k, a, b) < CountWin(answers, u) + CountWin(answers, v) + CountWin(answers, w)
  {
    var init := answers[..|answers| - 1];
    if Last(answers) == h {
      ByWindow(init, k, a, b, u, v, w);
    } else {
      assert answers == init + [Last(answers)];
      ByWindowLess(init, k, a, b, u, v, w, h);
      assert In(Last(answers), k, a, b) ==> Last(answers).win in [u, v, w];
    }
  }

  /** Two less, if two such calls are not. */
  lemma {:induction false} ByWindowLessTwo(
      answers: seq<Answer>, k: Key, a: int, b: int, u: nat, v: nat, w: nat, h: Answer, i: Answer)
    requires forall g :: g in answers && In(g, k, a, b) ==> g.win in [u, v, w]
    requires h != i && h in answers && h.win in [u, v, w] && !In(h, k, a, b)
    requires i in answers && i.win in [u, v, w] && !In(i, k, a, b)
    ensures Within(answers, k, a, b) + 2 <= CountWin(answers, u) + CountWin(answers, v) + CountWin(answers, w)
  {
    var init := answers[..|answers| - 1];
    assert answers == init + [Last(answers)];
    if Last(answers) == h {
      ByWindowLess(init, k, a, b, u, v, w, i);
    } else if Last(answers) == i {
      ByWindowLess(init, k, a, b, u, v, w, h);
    } else {
      ByWindowLessTwo(init, k, a, b, u, v, w, h, i);
      assert In(Last(answers), k, a, b) ==> Last(answers).win in [u, v, w];
    }
  }

  ghost predicate Hit(s: State, k: Key, a: int, w: nat) {
    exists g :: g in s.allowed && In(g, k, a, a + L.Scale(k) + 1) && g.win == w
  }

  lemma {:induction false} NextHit(s: State, k: Key, a: int, from: nat) returns (w: nat)
    requires from <= |s.wins|
    ensures from <= w <= |s.wins| && (w < |s.wins| ==> Hit(s, k, a, w))
    ensures forall v :: from <= v < w ==> !Hit(s, k, a, v)
    decreases |s.wins| - from
  {
    if from == |s.wins| || Hit(s, k, a, from) {
      w := from;
    } else {
      w := NextHit(s, k, a, from + 1);
    }
  }

  lemma HitStart(s: State, k: Key, a: int, w: nat)
    requires Inv(s) && Hit(s, k, a, w)
    ensures w < |s.wins| && s.wins[w].key == k
    ensures a - L.Scale(k) < s.wins[w].start <= a + L.Scale(k) + s.delay
  {
    var g :| g in s.allowed && In(g, k, a, a + L.Scale(k) + 1) && g.win == w;
    assert AnswerOk(s, g);
  }

  lemma NoFourth(s: State, k: Key, a: int, u: nat, v: nat, w: nat, x: nat)
    requires Inv(s) && Spaced(s, k) && 4 * s.delay <= L.Scale(k) && u < v < w < x
    requires Hit(s, k, a, u) && Hit(s, k, a, v) && Hit(s, k, a, w)
    ensures !Hit(s, k, a, x)
  {
    HitStart(s, k, a, u);
    HitStart(s, k, a, v);
    HitStart(s, k, a, w);
    assert s.wins[v].start >= s.wins[u].start + L.Scale(k) - Slack(s.delay);
    assert s.wins[w].start >= s.wins[v].start + L.Scale(k) - Slack(s.delay);
    if Hit(s, k, a, x) {
      HitStart(s, k, a, x);
      hide Inv;
      assert false;
    }
  }

  lemma WinFits(s: State, k: Key, w: nat)
    requires Inv(s) && w <= |s.wins| && (w < |s.wins| ==> s.wins[w].key == k)
    ensures CountWin(s.allowed, w) <= if w < |s.wins| && L.Limited(k) then k.limit else 0
  {
    if w < |s.wins| {
      assert WinOk(s, w);
    } else {
      forall g | g in s.allowed ensures g.win != w {
        assert AnswerOk(s, g);
      }
      CountNone(s.allowed, w);
    }
  }

  /** Of three windows that answer in one interval the first was opened before it, and the last after it if
      calls take one nanosecond at most; without any delay there are no three. */
  lemma ThreeHits(s: State, k: Key, a: int, u: nat, v: nat, w: nat)
    requires Inv(s) && Spaced(s, k) && 4 * s.delay <= L.Scale(k) && u < v < w
    requires Hit(s, k, a, u) && Hit(s, k, a, v) && Hit(s, k, a, w)
    ensures u < |s.wins| && w < |s.wins| && s.wins[u].start < a && s.delay > 0
    ensures s.delay == 1 ==> s.wins[w].start > a + L.Scale(k)
  {
    HitStart(s, k, a, u);
    HitStart(s, k, a, v);
    HitStart(s, k, a, w);
    hide Inv;
    assert s.wins[v].start >= s.wins[u].start + L.Scale(k) - Slack(s.delay);
    assert s.wins[w].start >= s.wins[v].start + L.Scale(k) - Slack(s.delay);
  }

  lemma OpenerOf(s: State, w: nat) returns (h: Answer)
    requires Inv(s) && w < |s.wins|
    ensures Opener(s, w, h)
  {
    assert WinOk(s, w);
    h :| Opener(s, w, h);
  }

  lemma Covered(s: State, k: Key, a: int, u: nat, v: nat, w: nat)
    requires Inv(s) && forall x :: 0 <= x < |s.wins| && x != u && x != v && x != w ==> !Hit(s, k, a, x)
    ensures forall g :: g in s.allowed && In(g, k, a, a + L.Scale(k) + 1) ==> g.win in [u, v, w]
  {
    forall g | g in s.allowed && In(g, k, a, a + L.Scale(k) + 1) ensures g.win in [u, v, w] {
      assert AnswerOk(s, g);
      assert Hit(s, k, a, g.win);
    }
  }

  /** The allowed calls of a key that read the clock in the interval from `a` as long as a window, ends
      included. */
  function AllowedFrom(s: State, k: Key, a: int): nat {
    Within(s.allowed, k, a, a + k.scaleSeconds * 1_000_000_000 + 1)
  }

  /** The most calls of a key that an interval as long as a window can see allowed. */
  function Most(delay: nat, limit: nat): int {
    if delay == 0 then 2 * limit
    else if delay == 1 then (if limit < 2 then 2 * limit else 3 * limit - 2)
    else 3 * limit - 1
  }

  /** Under every interleaving in which no call takes longer than a quarter of the window from reading the
      clock to its end, any interval as long as a window, ends included, sees less than three times the
      limit of a key allowed, and twice the limit if calls take no time. */
  lemma AtMostMost(clock: int, delay: nat, acts: seq<Action>, k: Key, a: int)
    requires Run(Init(clock, delay), acts).Some? && L.Limited(k) && 4 * delay <= k.scaleSeconds * 1_000_000_000
    ensures AllowedFrom(Run(Init(clock, delay), acts).value, k, a) <= Most(delay, k.limit)
  {
    hide Run, Inv, Spaced, Hit, Within, CountWin, Most;
    Reachable(clock, delay, acts);
    ReachableSpaced(clock, delay, acts, k);
    StateBound(Run(Init(clock, delay), acts).value, k, a);
  }

  lemma ThreeBound(s: State, k: Key, a: int, u: nat, v: nat, w: nat)
    requires Inv(s) && Spaced(s, k) && L.Limited(k) && 4 * s.delay <= L.Scale(k) && u < v < w
    requires Hit(s, k, a, u) && Hit(s, k, a, v) && Hit(s, k, a, w)
    requires forall g :: g in s.allowed && In(g, k, a, a + L.Scale(k) + 1) ==> g.win in [u, v, w]
    ensures Within(s.allowed, k, a, a + L.Scale(k) + 1) <= Most(s.delay, k.limit)
  {
    hide Inv, Spaced, Hit, Within, CountWin;
    ThreeHits(s, k, a, u, v, w);
    HitStart(s, k, a, u);
    HitStart(s, k, a, v);
    HitStart(s, k, a, w);
    WinFits(s, k, u);
    WinFits(s, k, v);
    WinFits(s, k, w);
    var h := OpenerOf(s, u);
    var i := OpenerOf(s, w);
    if s.delay == 1 {
      ByWindowLessTwo(s.allowed, k, a, a + L.Scale(k) + 1, u, v, w, h, i);
    } else {
      ByWindowLess(s.allowed, k, a, a + L.Scale(k) + 1, u, v, w, h);
    }
  }

  lemma StateBound(s: State, k: Key, a: int)
    requires Inv(s) && Spaced(s, k) && L.Limited(k) && 4 * s.delay <= L.Scale(k)
    ensures Within(s.allowed, k, a, a + L.Scale(k) + 1) <= Most(s.delay, k.limit)
  {
    hide Inv, Spaced, Hit, Within, CountWin, In;
    var n := |s.wins|;
    var u := NextHit(s, k, a, 0);
    var v := NextHit(s, k, a, if u < n then u + 1 else n);
    var w := NextHit(s, k, a, if v < n then v + 1 else n);
    if w < n {
      var x := NextHit(s, k, a, w + 1);
      if x < n {
        NoFourth(s, k, a, u, v, w, x);
        assert false;
      }
    }
    Covered(s, k, a, u, v, w);
    if w < n {
      ThreeBound(s, k, a, u, v, w);
    } else {
      if u < n { HitStart(s, k, a, u); }
      if v < n { HitStart(s, k, a, v); }
      WinFits(s, k, u);
      WinFits(s, k, v);
      WinFits(s, k, w);
      ByWindow(s.allowed, k, a, a + L.Scale(k) + 1, u, v, w);
    }
  }

  /** What each window promises under every interleaving: it never allows more than the limit, and where it
      refuses a call it is open on the caller's clock and has allowed exactly the limit. */
  lemma WindowsHold(clock: int, delay: nat, acts: seq<Action>, w: nat)
    requires Run(Init(clock, delay), acts).Some? && w < |Run(Init(clock, delay), acts).value.wins|
    ensures var s := Run(Init(clock, delay), acts).value;
            var end := s.wins[w].start + s.wins[w].key.scaleSeconds * 1_000_000_000;
            && CountWin(s.allowed, w) <= s.wins[w].key.limit
            && (forall g :: g in s.allowed && g.win == w ==> g.key == s.wins[w].key && g.now < end)
            && (forall g :: g in s.refused && g.win == w ==>
                  g.now < end && CountWin(s.allowed, w) == s.wins[w].key.limit)
  {
    Reachable(clock, delay, acts);
    var s := Run(Init(clock, delay), acts).value;
    hide Run;
    assert WinOk(s, w);
    forall g | g in s.allowed && g.win == w ensures g.key == s.wins[w].key && g.now < Reset(s.wins[w]) {
      assert AnswerOk(s, g);
    }
    forall g | g in s.refused && g.win == w
      ensures g.now < Reset(s.wins[w]) && CountWin(s.allowed, w) == s.wins[w].key.limit
    {
      assert AnswerOk(s, g);
    }
  }

  // ---- Calls that nobody interrupts ----------------------------------------------------

  lemma EmptyRun(i: State)
    ensures Run(i, []) == Some(i)
  {
  }

  lemma Extend(i: State, acts: seq<Action>, a: Action) returns (acts': seq<Action>, s: State)
    requires Run(i, acts).Some? && Enabled(Run(i, acts).value, a)
    ensures acts' == acts + [a] && s == Apply(Run(i, acts).value, a) && Run(i, acts') == Some(s)
  {
    acts' := acts + [a];
    assert acts'[..|acts|] == acts;
    s := Apply(Run(i, acts).value, a);
  }

  /** A call that nobody interrupts. */
  lemma WholeCall(i: State, acts: seq<Action>, k: Key) returns (acts': seq<Action>, s: State)
    requires Run(i, acts).Some? && 0 !in Run(i, acts).value.calls && L.Limited(k)
    requires var s := Run(i, acts).value; k in s.windows ==> s.windows[k] < |s.wins|
    ensures Run(i, acts') == Some(s)
    ensures var b := Run(i, acts).value;
            s == Counted(b, Looked(k, b.clock, if k in b.windows then Some(b.windows[k]) else None))
  {
    hide Run;
    var b := Run(i, acts).value;
    acts', s := Extend(i, acts, Begin(0, k));
    acts', s := Extend(i, acts', Look(0));
    acts', s := Extend(i, acts', Update(0));
    assert s.calls == b.calls;
  }

  function Value(s: State): map<Key, L.Slot> {
    map k | k in s.windows && s.windows[k] < |s.wins| ::
      L.Slot(s.wins[s.windows[k]].count, Reset(s.wins[s.windows[k]]))
  }

  /** When no other call comes between, a call does what the method `Allow` does, and a cleanup what
      `Cleanup` does. */
  lemma UninterruptedIsAllow(i: State, acts: seq<Action>, k: Key) returns (acts': seq<Action>, s: State)
    requires Run(i, acts).Some? && Inv(Run(i, acts).value) && 0 !in Run(i, acts).value.calls && L.Limited(k)
    ensures Run(i, acts') == Some(s)
    ensures var b := Run(i, acts).value;
            && Value(s) == L.Called(Value(b), k, b.clock)
            && |s.allowed| == |b.allowed| + (if L.Allows(Value(b), k, b.clock) then 1 else 0)
            && Value(Apply(b, Clean)) == L.Cleaned(Value(b), b.clock)
  {
    var b := Run(i, acts).value;
    assert k in b.windows ==> MapOk(b, k);
    acts', s := WholeCall(i, acts, k);
    CountedIsCalled(b, k);
    CleanIsCleaned(b);
  }

  lemma CountedIsCalled(b: State, k: Key)
    requires Inv(b) && L.Limited(k)
    ensures var s := Counted(b, Looked(k, b.clock, if k in b.windows then Some(b.windows[k]) else None));
            && Value(s) == L.Called(Value(b), k, b.clock)
            && |s.allowed| == |b.allowed| + (if L.Allows(Value(b), k, b.clock) then 1 else 0)
  {
    var c := Looked(k, b.clock, if k in b.windows then Some(b.windows[k]) else None);
    forall j | j in b.windows ensures MapOk(b, j) {
    }
    hide Inv;
    if Target(b, c).None? {
      OpenedValue(b, c);
    } else {
      AddedValue(b, c);
    }
  }

  lemma OpenedValue(b: State, c: Call)
    requires c.Looked? && Target(b, c).None? && forall j :: j in b.windows ==> MapOk(b, j)
    ensures Value(Counted(b, c)) == Value(b)[c.key := L.Slot(1, c.now + L.Scale(c.key))]
  {
    var t := Counted(b, c);
    forall j | j in b.windows ensures j in Value(t) && (j != c.key ==> Value(t)[j] == Value(b)[j]) {
      assert MapOk(b, j);
    }
  }

  lemma AddedValue(b: State, c: Call)
    requires c.Looked? && c.key in b.windows && Target(b, c) == Some(b.windows[c.key])
    requires forall j :: j in b.windows ==> MapOk(b, j)
    ensures var w := b.wins[b.windows[c.key]];
            Value(Counted(b, c)) == if w.count >= c.key.limit then Value(b)
                                    else Value(b)[c.key := L.Slot(w.count + 1, Reset(w))]
  {
    var t := Counted(b, c);
    assert MapOk(b, c.key);
    forall j | j in b.windows ensures j in Value(t) && (j != c.key ==> Value(t)[j] == Value(b)[j]) {
      assert MapOk(b, j);
    }
  }

  lemma CleanIsCleaned(b: State)
    requires Inv(b)
    ensures Value(Apply(b, Clean)) == L.Cleaned(Value(b), b.clock)
  {
    assert forall j :: j in b.windows ==> MapOk(b, j);
  }
}
