/** The self-tuning batch size of internal/event/buffer.go. Sizes are integers; a factor of 1.1 or 0.9
    is taken as n * 11 / 10 or n * 9 / 10, truncated as the code's conversion does. */
module AdaptiveBatch {
  import opened Common

  const MILLISECOND := 1_000_000
  const FAST := 100 * MILLISECOND
  const SLOW := 500 * MILLISECOND

  /** Go's integer division truncates toward zero. */
  function Quot(a: int, b: int): int
    requires b > 0
  {
    if a >= 0 then a / b else -(-a / b)
  }

  datatype Bounds = Bounds(min: int, max: int)

  /** NewWriteBuffer. */
  function BoundsFor(batchSize: int): Bounds {
    var min := Quot(batchSize, 2);
    var min := if min < 50 then 50 else min;
    var max := batchSize * 2;
    var max := if max < batchSize then batchSize else max;
    Bounds(if min > max then max else min, max)
  }

  function Sum(times: seq<int>): int {
    if times == [] then 0 else Sum(times[..|times| - 1]) + Last(times)
  }

  function Average(times: seq<int>): int
    requires times != []
  {
    Quot(Sum(times), |times|)
  }

  lemma {:induction false} SumConcat(s: seq<int>, t: seq<int>)
    ensures Sum(s + t) == Sum(s) + Sum(t)
    decreases |t|
  {
    if t == [] {
      assert s + t == s;
    } else {
      SumConcat(s, t[..|t| - 1]);
      assert (s + t)[..|s + t| - 1] == s + t[..|t| - 1];
    }
  }

  /** The sum adds up its elements, and the average is the whole number nearest to the mean towards zero. */
  lemma AverageIsMean(x: int, s: seq<int>, t: seq<int>)
    ensures Sum([]) == 0 && Sum([x]) == x && Sum(s + t) == Sum(s) + Sum(t)
    ensures s != [] ==>
              var n := |s|;
              if Sum(s) >= 0 then Average(s) * n <= Sum(s) < Average(s) * n + n
              else Average(s) * n - n < Sum(s) <= Average(s) * n
  {
    SumConcat(s, t);
    if s != [] {
      Divided(Sum(s), |s|);
    }
  }

  lemma Divided(a: int, b: int)
    requires b > 0
    ensures if a >= 0 then Quot(a, b) * b <= a < Quot(a, b) * b + b else Quot(a, b) * b - b < a <= Quot(a, b) * b
  {
    if a >= 0 {
      assert b * (a / b) + a % b == a;
    } else {
      assert b * (-a / b) + -a % b == -a;
      assert Quot(a, b) * b == -(b * (-a / b));
    }
  }

  /** Comparing the average with a whole number is comparing the sum with that many times the number. */
  lemma AverageBelow(times: seq<int>, limit: nat)
    requires times != [] && limit > 0
    ensures Average(times) < limit <==> Sum(times) < limit * |times|
  {
    var n, avg := |times|, Average(times);
    Divided(Sum(times), n);
    if avg < limit {
      Scaled(avg + 1, limit, n);
      assert (avg + 1) * n == avg * n + n;
    } else {
      Scaled(limit, avg, n);
    }
  }

  lemma Scaled(a: int, b: int, n: int)
    requires a <= b && n > 0
    ensures a * n <= b * n
  {
  }

  /** adjustBatchSize, from the size it loaded to the size it stores. */
  function Adjusted(b: Bounds, size: int, times: seq<int>): int {
    if times == [] then size
    else
      var avg := Average(times);
      var next := if avg < FAST && size < b.max then Quot(size * 11, 10)
                  else if avg > SLOW && size > b.min then Quot(size * 9, 10)
                  else size;
      if next < b.min then b.min else if next > b.max then b.max else next
  }

  predicate InRange(b: Bounds, size: int) {
    b.min <= size <= b.max
  }

  /** The initial size is inside the bounds computed from it unless it is one of 1 to 49. */
  lemma StartsInRange(batchSize: int)
    ensures InRange(BoundsFor(batchSize), batchSize) <==> !(1 <= batchSize < 50)
  {
  }

  // ---- Racing adjustments ------------------------------------------------------------

  /** Each goroutine loads the size, computes, and stores; between its load and its store others may
      store too. `loaded` maps the goroutines between the two to what they loaded. */
  datatype State = State(size: int, loaded: map<nat, int>)

  datatype Action = Load(g: nat) | Store(g: nat, times: seq<int>)

  predicate Enabled(s: State, a: Action) {
    match a
    case Load(g) => g !in s.loaded
    case Store(g, _) => g in s.loaded
  }

  function Apply(b: Bounds, s: State, a: Action): State
    requires Enabled(s, a)
  {
    match a
    case Load(g) => s.(loaded := s.loaded[g := s.size])
    case Store(g, times) =>
      var next := Adjusted(b, s.loaded[g], times);
      State(if next != s.loaded[g] then next else s.size, s.loaded - {g})
  }

  ghost function Run(b: Bounds, size: int, acts: seq<Action>): Option<State> {
    if acts == [] then Some(State(size, map[]))
    else
      var before := Run(b, size, acts[..|acts| - 1]);
      if before.Some? && Enabled(before.value, Last(acts)) then Some(Apply(b, before.value, Last(acts))) else None
  }

  /** Stale loads included, the size never leaves its bounds when it starts inside them. */
  lemma {:induction false} StaysInRange(batchSize: int, acts: seq<Action>)
    requires batchSize >= 50
    requires Run(BoundsFor(batchSize), batchSize, acts).Some?
    ensures var s := Run(BoundsFor(batchSize), batchSize, acts).value;
            var least := if batchSize < 100 then 50 else batchSize / 2;
            && least <= s.size <= 2 * batchSize
            && forall g :: g in s.loaded ==> least <= s.loaded[g] <= 2 * batchSize
    decreases |acts|
  {
    if acts == [] {
      StartsInRange(batchSize);
    } else {
      StaysInRange(batchSize, acts[..|acts| - 1]);
    }
  }

  // ---- Convergence -------------------------------------------------------------------

  /** The mean is below 100 ms. */
  predicate Fast(times: seq<int>) { times != [] && Sum(times) < 100_000_000 * |times| }

  /** The mean, rounded down to a whole nanosecond, is above 500 ms. */
  predicate Slow(times: seq<int>) { times != [] && Sum(times) >= 500_000_001 * |times| }

  /** A fast average moves the size up by a tenth of itself, or to the bound... */
  lemma FastGrows(b: Bounds, size: int, times: seq<int>)
    requires 50 <= b.min && InRange(b, size) && Fast(times)
    ensures var next := Adjusted(b, size, times);
            && InRange(b, next)
            && next == Min(b.max, size * 11 / 10) && (size < b.max ==> size < next)
  {
    AverageBelow(times, 100_000_000);
  }

  /** ...and a slow one moves it down. */
  lemma SlowShrinks(b: Bounds, size: int, times: seq<int>)
    requires 50 <= b.min && InRange(b, size) && Slow(times)
    ensures var next := Adjusted(b, size, times);
            && InRange(b, next)
            && next == (if size * 9 / 10 < b.min then b.min else size * 9 / 10) && (size > b.min ==> next < size)
  {
    AverageBelow(times, 500_000_001);
  }

  /** ...and any other leaves it. */
  lemma SteadyStays(b: Bounds, size: int, times: seq<int>)
    requires InRange(b, size) && !Fast(times) && !Slow(times)
    ensures Adjusted(b, size, times) == size
  {
    if times != [] {
      AverageBelow(times, 100_000_000);
      AverageBelow(times, 500_000_001);
    }
  }

  /** The size after one adjustment per element of `history`. */
  function Repeated(b: Bounds, size: int, history: seq<seq<int>>): int {
    if history == [] then size else Adjusted(b, Repeated(b, size, history[..|history| - 1]), Last(history))
  }

  /** Fast averages reach the upper bound after at most (max - size) / 5 rounded up adjustments. */
  lemma {:induction false} FastReachesMax(b: Bounds, size: int, history: seq<seq<int>>)
    requires 50 <= b.min && InRange(b, size) && forall t :: t in history ==> Fast(t)
    ensures InRange(b, Repeated(b, size, history))
    ensures Repeated(b, size, history) == b.max || Repeated(b, size, history) >= size + 5 * |history|
    ensures 5 * |history| >= b.max - size ==> Repeated(b, size, history) == b.max
  {
    if history != [] {
      var init := history[..|history| - 1];
      FastReachesMax(b, size, init);
      FastGrows(b, Repeated(b, size, init), Last(history));
    }
  }

  lemma {:induction false} SlowReachesMin(b: Bounds, size: int, history: seq<seq<int>>)
    requires 50 <= b.min && InRange(b, size) && forall t :: t in history ==> Slow(t)
    ensures InRange(b, Repeated(b, size, history))
    ensures Repeated(b, size, history) == b.min || Repeated(b, size, history) <= size - 5 * |history|
    ensures 5 * |history| >= size - b.min ==> Repeated(b, size, history) == b.min
  {
    if history != [] {
      var init := history[..|history| - 1];
      SlowReachesMin(b, size, init);
      SlowShrinks(b, Repeated(b, size, init), Last(history));
    }
  }

  lemma AdjustedMeans(b: Bounds, size: int, times: seq<int>)
    requires 50 <= b.min && InRange(b, size)
    ensures Adjusted(b, size, times) ==
              if Fast(times) then Min(b.max, size * 11 / 10)
              else if Slow(times) && size * 9 / 10 >= b.min then size * 9 / 10
              else if Slow(times) then b.min
              else size
  {
    if Fast(times) {
      FastGrows(b, size, times);
    } else if Slow(times) {
      SlowShrinks(b, size, times);
    } else {
      SteadyStays(b, size, times);
    }
  }

  /** recordWriteTime and adjustBatchSize as they update the buffer's fields. */
  class Tuner {
    var writeTimes: seq<int>
    var batchSize: int
    const bounds: Bounds

    constructor (batchSize: int)
      ensures bounds == BoundsFor(batchSize) && this.batchSize == batchSize && writeTimes == []
      ensures batchSize >= 50 ==> bounds == Bounds(if batchSize < 100 then 50 else batchSize / 2, 2 * batchSize)
    {
      bounds, this.batchSize, writeTimes := BoundsFor(batchSize), batchSize, [];
    }

    /** Keeps the last five durations. */
    method RecordWriteTime(duration: int)
      modifies this`writeTimes
      ensures 1 <= |writeTimes| <= 5 && Last(writeTimes) == duration
      ensures var all := old(writeTimes) + [duration];
              |writeTimes| <= |all| && writeTimes == all[|all| - |writeTimes|..] && (|all| <= 5 ==> writeTimes == all)
      ensures |old(writeTimes)| >= 5 ==> |writeTimes| == 5
    {
      writeTimes := writeTimes + [duration];
      if |writeTimes| > 5 {
        writeTimes := writeTimes[|writeTimes| - 5..];
      }
    }

    method AdjustBatchSize()
      modifies this`batchSize
      ensures batchSize == Adjusted(bounds, old(batchSize), writeTimes)
      ensures 50 <= bounds.min <= old(batchSize) <= bounds.max ==>
                var n, was := |writeTimes|, old(batchSize);
                batchSize ==
                  if n > 0 && Sum(writeTimes) < 100_000_000 * n then Min(bounds.max, was * 11 / 10)
                  else if n > 0 && Sum(writeTimes) >= 500_000_001 * n && was * 9 / 10 >= bounds.min then was * 9 / 10
                  else if n > 0 && Sum(writeTimes) >= 500_000_001 * n then bounds.min
                  else was
    {
      if 50 <= bounds.min <= batchSize <= bounds.max {
        AdjustedMeans(bounds, batchSize, writeTimes);
      }
      if |writeTimes| == 0 {
        return;
      }
      var avg := 0;
      for i := 0 to |writeTimes|
        invariant avg == Sum(writeTimes[..i])
      {
        avg := avg + writeTimes[i];
        assert writeTimes[..i + 1][..i] == writeTimes[..i];
      }
      assert writeTimes[..|writeTimes|] == writeTimes;
      avg := Quot(avg, |writeTimes|);
      var currentSize := batchSize;
      var newSize := currentSize;
      if avg < FAST && currentSize < bounds.max {
        newSize := Quot(currentSize * 11, 10);
      } else if avg > SLOW && currentSize > bounds.min {
        newSize := Quot(currentSize * 9, 10);
      }
      if newSize < bounds.min {
        newSize := bounds.min;
      } else if newSize > bounds.max {
        newSize := bounds.max;
      }
      if newSize != currentSize {
        batchSize := newSize;
      }
    }
  }
}
