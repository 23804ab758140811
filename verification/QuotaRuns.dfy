/** Every interleaving of requests, month changes, snapshots and row writes of the monthly quota. */
module QuotaRuns {
  import opened Common
  import opened Quota

  /** A flushSnapshot call under way, with the rows it has still to write. Recorded for the theorems only:
      `at`, how many calls had been counted when the counts were copied or handed out. */
  datatype Writing = Writing(month: Month, rows: map<nat, int>, at: nat)

  datatype State = State(
    memory: Memory,
    store: map<RowKey, int>,
    jobs: seq<Writing>,
    // Recorded for the theorems only.
    start: Month,
    base: map<RowKey, int>,  // the stored rows at the start
    readable: bool,          // loadFromDB succeeded
    granted: seq<RowKey>,    // one entry for each call that counted
    tried: seq<RowKey>,      // one entry for each TryIncrement
    handed: seq<Job>,        // what rotation handed out
    dirty: set<RowKey>,      // rows counted since the counts were last copied or handed out
    spoilt: set<RowKey>,     // rows written past an older copy of the same row, or with a failed write
    landed: map<RowKey, nat> // for each row written, the `at` of the write that landed last
  )

  datatype Action =
    | Increment(user: nat, now: Month)
    | TryIncrement(user: nat, max: int, now: Month)
    | Rotate(now: Month)             // the locked section of Flush and of the hourly tick
    | Snapshot                       // flushToDB's copy
    | WriteRow(j: nat, user: nat)    // the query of the row and its update or creation
    | FailRow(j: nat, user: nat)     // the same with an error, which flushSnapshot ignores

  function Init(base: map<RowKey, int>, start: Month, readable: bool): State {
    State(Start(base, start, readable), base, [], start, base, readable, [], [], [], {}, {}, map[])
  }

  /** The clock does not go back. */
  predicate Enabled(s: State, a: Action) {
    match a
    case Increment(_, now) => !Before(now, s.memory.month)
    case TryIncrement(_, _, now) => !Before(now, s.memory.month)
    case Rotate(now) => !Before(now, s.memory.month)
    case Snapshot => true
    case WriteRow(j, user) => j < |s.jobs| && user in s.jobs[j].rows
    case FailRow(j, user) => j < |s.jobs| && user in s.jobs[j].rows
  }

  function Begun(s: State, job: Job): Writing {
    Writing(job.month, job.rows, |s.granted|)
  }

  function AfterRotation(s: State, now: Month): State {
    var out := HandedOut(s.memory, now);
    if out.None? then s
    else
      s.(memory := Rotated(s.memory, now), jobs := s.jobs + [Begun(s, out.value)],
         handed := s.handed + [out.value], dirty := {})
  }

  function Grant(s: State, user: nat): State {
    var k := RowKey(user, s.memory.month);
    s.(memory := Counted(s.memory, user), granted := s.granted + [k], dirty := s.dirty + {k})
  }

  function Try(s: State, user: nat): State {
    s.(tried := s.tried + [RowKey(user, s.memory.month)])
  }

  function Apply(s: State, a: Action): State
    requires Enabled(s, a)
  {
    match a
    case Increment(user, now) => Grant(AfterRotation(s, now), user)
    case TryIncrement(user, max, now) =>
      var r := AfterRotation(s, now);
      if Full(r.memory, user, max) then Try(r, user) else Grant(Try(r, user), user)
    case Rotate(now) => AfterRotation(s, now)
    case Snapshot => s.(jobs := s.jobs + [Begun(s, Job(s.memory.month, s.memory.counts))], dirty := {})
    case WriteRow(j, user) =>
      var job := s.jobs[j];
      var k := RowKey(user, job.month);
      s.(store := s.store[k := job.rows[user]],
         jobs := s.jobs[j := job.(rows := job.rows - {user})],
         spoilt := s.spoilt + if Pending(s.jobs[..j], k).Some? then {k} else {},
         landed := s.landed[k := job.at])
    case FailRow(j, user) =>
      var job := s.jobs[j];
      s.(jobs := s.jobs[j := job.(rows := job.rows - {user})], spoilt := s.spoilt + {RowKey(user, job.month)})
  }

  ghost function Run(base: map<RowKey, int>, start: Month, readable: bool, acts: seq<Action>): Option<State> {
    if acts == [] then Some(Init(base, start, readable))
    else
      var before := Run(base, start, readable, acts[..|acts| - 1]);
      if before.Some? && Enabled(before.value, Last(acts)) then Some(Apply(before.value, Last(acts))) else None
  }

  // ---- What the store will say -------------------------------------------------------

  /** The last value still to be written for a row. */
  function Pending(jobs: seq<Writing>, k: RowKey): Option<int> {
    if jobs == [] then None
    else if Last(jobs).month == k.month && k.user in Last(jobs).rows then Some(Last(jobs).rows[k.user])
    else Pending(jobs[..|jobs| - 1], k)
  }

  /** The stored count once all writes have landed in order. */
  function Eventual(s: State, k: RowKey): int {
    var p := Pending(s.jobs, k);
    if p.Some? then p.value else Get(s.store, k)
  }

  function Loaded(s: State, user: nat): int {
    if s.memory.month == s.start && s.readable then Get(s.base, RowKey(user, s.start)) else 0
  }

  function Key(s: State, user: nat): RowKey {
    RowKey(user, s.memory.month)
  }

  predicate CountRight(s: State, user: nat) {
    && Get(s.memory.counts, user) == Loaded(s, user) + Times(Key(s, user), s.granted)
    && (user !in s.memory.counts ==> Times(Key(s, user), s.granted) == 0)
    && (user in s.memory.counts && !s.readable ==> Times(Key(s, user), s.granted) > 0)
    && (user !in s.memory.counts && s.memory.month == s.start && s.readable ==> RowKey(user, s.start) !in s.base)
  }

  predicate StoreRight(s: State, k: RowKey) {
    && (Before(s.memory.month, k.month) ==> Times(k, s.granted) == 0 == Times(k, s.tried))
    && (k in s.dirty ==> k.month == s.memory.month && k.user in s.memory.counts)
    && (k !in s.spoilt && k !in s.dirty ==> Eventual(s, k) == Kept(s, k) + Times(k, s.granted))
  }

  /** A failed load lost the count that was stored for `k`, and a counted call will overwrite it. */
  predicate Lost(s: State, k: RowKey) {
    !s.readable && k.month == s.start && Times(k, s.granted) > 0
  }

  function Kept(s: State, k: RowKey): int {
    if Lost(s, k) then 0 else Get(s.base, k)
  }

  predicate NoFutureRows(base: map<RowKey, int>, start: Month) {
    forall k :: k in base ==> !Before(start, k.month)
  }

  ghost predicate Inv(s: State) {
    && (forall user :: CountRight(s, user))
    && (forall k :: StoreRight(s, k))
    && !Before(s.memory.month, s.start)
    && NoFutureRows(s.base, s.start)
  }

  lemma PendingAppend(jobs: seq<Writing>, job: Writing, k: RowKey)
    ensures Pending(jobs + [job], k)
         == if job.month == k.month && k.user in job.rows then Some(job.rows[k.user]) else Pending(jobs, k)
  {
    assert (jobs + [job])[..|jobs|] == jobs;
  }

  /** Writing a row takes it out of its job; what is pending for it after that is what was pending in
      later jobs, or, if there is nothing later, what was pending in earlier ones. */
  lemma {:induction false} PendingWritten(jobs: seq<Writing>, j: nat, user: nat, k: RowKey)
    requires j < |jobs| && user in jobs[j].rows
    ensures var next := jobs[j := jobs[j].(rows := jobs[j].rows - {user})];
            if k != RowKey(user, jobs[j].month) then Pending(next, k) == Pending(jobs, k)
            else Pending(jobs, k).Some? &&
                 (Pending(next, k) == Pending(jobs, k) ||
                  (Pending(next, k) == Pending(jobs[..j], k) && Pending(jobs, k) == Some(jobs[j].rows[user])))
  {
    var next := jobs[j := jobs[j].(rows := jobs[j].rows - {user})];
    var n := |jobs| - 1;
    if j == n {
      assert next[..n] == jobs[..n];
    } else {
      PendingWritten(jobs[..n], j, user, k);
      assert next[..n] == jobs[..n][j := jobs[j].(rows := jobs[j].rows - {user})];
      assert jobs[..n][..j] == jobs[..j];
    }
  }

  lemma RotationKeeps(s: State, now: Month)
    requires Inv(s) && !Before(now, s.memory.month)
    ensures Inv(AfterRotation(s, now))
  {
    var t := AfterRotation(s, now);
    if HandedOut(s.memory, now).Some? {
      var job := Begun(s, Job(s.memory.month, s.memory.counts));
      forall user ensures CountRight(t, user) {
        assert StoreRight(s, RowKey(user, now));
      }
      forall k ensures StoreRight(t, k) {
        assert StoreRight(s, k) && CountRight(s, k.user);
        PendingAppend(s.jobs, job, k);
      }
    }
  }

  lemma GrantKeeps(s: State, user: nat)
    requires Inv(s)
    ensures Inv(Grant(s, user))
  {
    var t := Grant(s, user);
    forall u ensures CountRight(t, u) {
      assert CountRight(s, u);
      TimesAppend(Key(s, u), s.granted, Key(s, user));
    }
    forall k ensures StoreRight(t, k) {
      assert StoreRight(s, k);
      TimesAppend(k, s.granted, Key(s, user));
    }
  }

  lemma TryKeeps(s: State, user: nat)
    requires Inv(s)
    ensures Inv(Try(s, user))
  {
    var t := Try(s, user);
    forall u ensures CountRight(t, u) {
      assert CountRight(s, u);
    }
    forall k ensures StoreRight(t, k) {
      assert StoreRight(s, k);
      TimesAppend(k, s.tried, Key(s, user));
    }
  }

  lemma SnapshotKeeps(s: State)
    requires Inv(s)
    ensures Inv(Apply(s, Snapshot))
  {
    var t := Apply(s, Snapshot);
    forall user ensures CountRight(t, user) {
      assert CountRight(s, user);
    }
    forall k ensures StoreRight(t, k) {
      assert StoreRight(s, k) && CountRight(s, k.user);
      PendingAppend(s.jobs, Last(t.jobs), k);
    }
  }

  lemma WriteKeeps(s: State, j: nat, user: nat)
    requires Inv(s) && Enabled(s, WriteRow(j, user))
    ensures Inv(Apply(s, WriteRow(j, user)))
  {
    var t := Apply(s, WriteRow(j, user));
    forall u ensures CountRight(t, u) {
      assert CountRight(s, u);
    }
    forall k ensures StoreRight(t, k) {
      assert StoreRight(s, k);
      PendingWritten(s.jobs, j, user, k);
      assert k !in t.spoilt ==> Eventual(t, k) == Eventual(s, k);
    }
  }

  lemma FailKeeps(s: State, j: nat, user: nat)
    requires Inv(s) && Enabled(s, FailRow(j, user))
    ensures Inv(Apply(s, FailRow(j, user)))
  {
    var t := Apply(s, FailRow(j, user));
    forall u ensures CountRight(t, u) {
      assert CountRight(s, u);
    }
    forall k ensures StoreRight(t, k) {
      assert StoreRight(s, k);
      PendingWritten(s.jobs, j, user, k);
    }
  }

  lemma StepKeeps(s: State, a: Action)
    requires Inv(s) && Enabled(s, a)
    ensures Inv(Apply(s, a))
  {
    match a {
      case Increment(user, now) =>
        RotationKeeps(s, now);
        GrantKeeps(AfterRotation(s, now), user);
      case TryIncrement(user, max, now) =>
        RotationKeeps(s, now);
        TryKeeps(AfterRotation(s, now), user);
        GrantKeeps(Try(AfterRotation(s, now), user), user);
      case Rotate(now) => RotationKeeps(s, now);
      case Snapshot => SnapshotKeeps(s);
      case WriteRow(j, user) => WriteKeeps(s, j, user);
      case FailRow(j, user) => FailKeeps(s, j, user);
    }
  }

  lemma {:induction false} Reachable(base: map<RowKey, int>, start: Month, readable: bool, acts: seq<Action>)
    requires NoFutureRows(base, start) && Run(base, start, readable, acts).Some?
    ensures var s := Run(base, start, readable, acts).value;
            Inv(s) && s.base == base && s.start == start && s.readable == readable
    decreases |acts|
  {
    if acts == [] {
      var s := Init(base, start, readable);
      forall user ensures CountRight(s, user) {
        if readable {
          assert user in s.memory.counts <==> RowKey(user, start) in base;
        }
      }
    } else {
      Reachable(base, start, readable, acts[..|acts| - 1]);
      StepKeeps(Run(base, start, readable, acts[..|acts| - 1]).value, Last(acts));
    }
  }

  /** A user's count is the value loaded at the start, in the starting month only, plus the calls
      counted for the user this month. */
  lemma CountIsGranted(base: map<RowKey, int>, start: Month, readable: bool, acts: seq<Action>, user: nat)
    requires NoFutureRows(base, start) && Run(base, start, readable, acts).Some?
    ensures var s := Run(base, start, readable, acts).value;
            Get(s.memory.counts, user)
            == (if s.memory.month == start && readable then Get(base, RowKey(user, start)) else 0)
               + Times(RowKey(user, s.memory.month), s.granted)
  {
    Reachable(base, start, readable, acts);
    assert CountRight(Run(base, start, readable, acts).value, user);
  }

  // ---- When a stored count is right ----------------------------------------------------

  predicate StoredRight(s: State, k: RowKey) {
    Get(s.store, k) == Get(s.base, k) + Times(k, s.granted)
  }

  /** What the counts of k's month started from. */
  function AtStart(s: State, k: RowKey): int {
    if s.readable || k.month != s.start then Get(s.base, k) else 0
  }

  predicate Dated(s: State, k: RowKey, at: nat, count: int) {
    at <= |s.granted| && count == AtStart(s, k) + Times(k, s.granted[..at])
  }

  ghost predicate RowsDated(s: State, job: Writing) {
    forall user :: user in job.rows ==> Dated(s, RowKey(user, job.month), job.at, job.rows[user])
  }

  predicate StoreDated(s: State, k: RowKey) {
    if k in s.landed then Dated(s, k, s.landed[k], Get(s.store, k)) else Get(s.store, k) == Get(s.base, k)
  }

  ghost predicate AllDated(s: State) {
    && (forall j :: 0 <= j < |s.jobs| ==> RowsDated(s, s.jobs[j]))
    && forall k :: StoreDated(s, k)
  }

  /** Copies of the counts and handed-out counts are dated. */
  lemma CopyDated(s: State)
    requires Inv(s)
    ensures RowsDated(s, Begun(s, Job(s.memory.month, s.memory.counts)))
  {
    forall user | user in s.memory.counts ensures Dated(s, Key(s, user), |s.granted|, s.memory.counts[user]) {
      assert CountRight(s, user);
      assert s.granted[..|s.granted|] == s.granted;
    }
  }

  lemma DatedRotation(s: State, now: Month)
    requires Inv(s) && AllDated(s)
    ensures AllDated(AfterRotation(s, now))
  {
    var t := AfterRotation(s, now);
    CopyDated(s);
    forall j | 0 <= j < |t.jobs| ensures RowsDated(t, t.jobs[j]) {
      assert RowsDated(s, t.jobs[j]);
    }
    forall k ensures StoreDated(t, k) {
      assert StoreDated(s, k);
    }
  }

  lemma DatedGrant(s: State, user: nat)
    requires AllDated(s)
    ensures AllDated(Grant(s, user))
  {
    hide Times;
    var t := Grant(s, user);
    assert forall at: nat :: at <= |s.granted| ==> t.granted[..at] == s.granted[..at];
    forall j | 0 <= j < |t.jobs| ensures RowsDated(t, t.jobs[j]) {
      assert RowsDated(s, s.jobs[j]);
    }
    forall k ensures StoreDated(t, k) {
      assert StoreDated(s, k);
    }
  }

  lemma DatedWrite(s: State, j: nat, user: nat)
    requires AllDated(s) && Enabled(s, WriteRow(j, user))
    ensures AllDated(Apply(s, WriteRow(j, user)))
  {
    hide Times, Pending;
    var t := Apply(s, WriteRow(j, user));
    assert RowsDated(s, s.jobs[j]);
    forall i | 0 <= i < |t.jobs| ensures RowsDated(t, t.jobs[i]) {
      assert RowsDated(s, s.jobs[i]);
    }
    forall k ensures StoreDated(t, k) {
      assert StoreDated(s, k);
    }
  }

  lemma DatedFail(s: State, j: nat, user: nat)
    requires AllDated(s) && Enabled(s, FailRow(j, user))
    ensures AllDated(Apply(s, FailRow(j, user)))
  {
    var t := Apply(s, FailRow(j, user));
    assert RowsDated(s, s.jobs[j]);
    forall i | 0 <= i < |t.jobs| ensures RowsDated(t, t.jobs[i]) {
      assert RowsDated(s, s.jobs[i]);
    }
    forall k ensures StoreDated(t, k) {
      assert StoreDated(s, k);
    }
  }

  lemma DatedTry(s: State, user: nat)
    requires AllDated(s)
    ensures AllDated(Try(s, user))
  {
    var t := Try(s, user);
    forall j | 0 <= j < |t.jobs| ensures RowsDated(t, t.jobs[j]) {
      assert RowsDated(s, s.jobs[j]);
    }
    forall k ensures StoreDated(t, k) {
      assert StoreDated(s, k);
    }
  }

  lemma DatedSnapshot(s: State)
    requires Inv(s) && AllDated(s)
    ensures AllDated(Apply(s, Snapshot))
  {
    var t := Apply(s, Snapshot);
    CopyDated(s);
    forall j | 0 <= j < |t.jobs| ensures RowsDated(t, t.jobs[j]) {
      assert RowsDated(s, t.jobs[j]);
    }
    forall k ensures StoreDated(t, k) {
      assert StoreDated(s, k);
    }
  }

  lemma DatedStep(s: State, a: Action)
    requires Inv(s) && Enabled(s, a) && AllDated(s)
    ensures AllDated(Apply(s, a))
  {
    hide Inv, AllDated, AfterRotation, Counted, Full;
    match a {
      case Increment(user, now) =>
        DatedRotation(s, now);
        DatedGrant(AfterRotation(s, now), user);
      case TryIncrement(user, max, now) =>
        DatedRotation(s, now);
        DatedTry(AfterRotation(s, now), user);
        DatedGrant(Try(AfterRotation(s, now), user), user);
      case Rotate(now) => DatedRotation(s, now);
      case Snapshot => DatedSnapshot(s);
      case WriteRow(j, user) => DatedWrite(s, j, user);
      case FailRow(j, user) => DatedFail(s, j, user);
    }
  }

  lemma {:induction false} ReachableDated(base: map<RowKey, int>, start: Month, readable: bool, acts: seq<Action>)
    requires NoFutureRows(base, start) && Run(base, start, readable, acts).Some?
    ensures AllDated(Run(base, start, readable, acts).value)
    decreases |acts|
  {
    if acts != [] {
      Reachable(base, start, readable, acts[..|acts| - 1]);
      ReachableDated(base, start, readable, acts[..|acts| - 1]);
      DatedStep(Run(base, start, readable, acts[..|acts| - 1]).value, Last(acts));
    }
  }

  /** The write that landed last on the row was copied or handed out after the row's last counted call. */
  predicate LandedLast(s: State, k: RowKey) {
    if k in s.landed then s.landed[k] <= |s.granted| && k !in s.granted[s.landed[k]..] else k !in s.granted
  }

  /** A failed load lost the count that was stored, and a write has replaced it. */
  predicate Replaced(s: State, k: RowKey) {
    !s.readable && k.month == s.start && Get(s.base, k) != 0 && k in s.landed
  }

  /** At every moment of every run and for every row: the store holds what it held at the start plus the
      calls counted since if and only if the write that landed last on the row was copied or handed out
      after the row's last counted call, and did not replace a count that the load at the start missed. */
  lemma StoredRightIff(base: map<RowKey, int>, start: Month, readable: bool, acts: seq<Action>, k: RowKey)
    requires NoFutureRows(base, start) && Get(base, k) >= 0 && Run(base, start, readable, acts).Some?
    ensures var s := Run(base, start, readable, acts).value;
            StoredRight(s, k) <==> LandedLast(s, k) && !Replaced(s, k)
  {
    Reachable(base, start, readable, acts);
    ReachableDated(base, start, readable, acts);
    var s := Run(base, start, readable, acts).value;
    assert StoreDated(s, k);
    if k in s.landed {
      var at := s.landed[k];
      TimesConcat(k, s.granted[..at], s.granted[at..]);
      assert s.granted == s.granted[..at] + s.granted[at..];
    }
  }

  /** The row was copied or handed out after its last counted call, and all its writes have landed, none
      of them past an older one and none with an error. */
  predicate Flushed(s: State, k: RowKey) {
    k !in s.dirty && k !in s.spoilt && Pending(s.jobs, k).None?
  }

  /** Then the stored count is right, whatever became of other rows, exactly unless the load at the start
      failed, a call was counted for the row in that month, and there was a count to lose. */
  lemma StoredIsGranted(base: map<RowKey, int>, start: Month, readable: bool, acts: seq<Action>, k: RowKey)
    requires NoFutureRows(base, start) && Run(base, start, readable, acts).Some?
    requires Flushed(Run(base, start, readable, acts).value, k)
    ensures var s := Run(base, start, readable, acts).value;
            StoredRight(s, k) <==> readable || k.month != start || Times(k, s.granted) == 0 || Get(base, k) == 0
  {
    Reachable(base, start, readable, acts);
    assert StoreRight(Run(base, start, readable, acts).value, k);
  }

  // ---- The cap -----------------------------------------------------------------------

  /** The user's calls are all TryIncrement with this maximum. */
  predicate OnlyTries(acts: seq<Action>, user: nat, max: int) {
    forall i :: 0 <= i < |acts| ==>
      (acts[i].Increment? ==> acts[i].user != user)
      && (acts[i].TryIncrement? && acts[i].user == user ==> acts[i].max == max)
  }

  predicate Capped(s: State, user: nat, max: int) {
    Get(s.memory.counts, user) == Min(Loaded(s, user) + Times(Key(s, user), s.tried), max)
  }

  lemma CapRotation(s: State, now: Month, user: nat, max: nat)
    requires Inv(s) && !Before(now, s.memory.month) && Capped(s, user, max)
    ensures Capped(AfterRotation(s, now), user, max)
  {
    assert StoreRight(s, RowKey(user, now));
  }

  lemma CapTry(s: State, u: nat, m: int, user: nat, max: nat)
    requires Capped(s, user, max) && (u == user ==> m == max)
    ensures Capped(if Full(s.memory, u, m) then Try(s, u) else Grant(Try(s, u), u), user, max)
  {
    TimesAppend(Key(s, user), s.tried, Key(s, u));
  }

  lemma CapOther(s: State, u: nat, user: nat, max: nat)
    requires Capped(s, user, max) && u != user
    ensures Capped(Grant(s, u), user, max)
  {
  }

  lemma CapQuiet(s: State, a: Action, user: nat, max: nat)
    requires Capped(s, user, max) && (a.Snapshot? || a.WriteRow? || a.FailRow?) && Enabled(s, a)
    ensures Capped(Apply(s, a), user, max)
  {
  }

  lemma CapStep(s: State, a: Action, user: nat, max: nat)
    requires Inv(s) && Enabled(s, a) && Capped(s, user, max) && OnlyTries([a], user, max)
    ensures Capped(Apply(s, a), user, max)
  {
    hide Inv, Capped, AfterRotation, Counted, Full, Times;
    assert a == [a][0];
    match a {
      case Increment(u, now) =>
        CapRotation(s, now, user, max);
        CapOther(AfterRotation(s, now), u, user, max);
      case TryIncrement(u, m, now) =>
        CapRotation(s, now, user, max);
        CapTry(AfterRotation(s, now), u, m, user, max);
      case Rotate(now) => CapRotation(s, now, user, max);
      case _ => CapQuiet(s, a, user, max);
    }
  }

  /** Under a fixed maximum the count never passes it, and calls are refused only when it is reached:
      the count is the loaded value plus the attempts made this month, cut off at the maximum. */
  lemma {:induction false} CapIsExact(
      base: map<RowKey, int>, start: Month, readable: bool, acts: seq<Action>, user: nat, max: nat)
    requires NoFutureRows(base, start) && Run(base, start, readable, acts).Some?
    requires OnlyTries(acts, user, max)
    requires readable ==> Get(base, RowKey(user, start)) <= max
    ensures var s := Run(base, start, readable, acts).value;
            Get(s.memory.counts, user) <= max && Capped(s, user, max)
    decreases |acts|
  {
    if acts == [] {
      Reachable(base, start, readable, acts);
      assert CountRight(Init(base, start, readable), user);
    } else {
      var init := acts[..|acts| - 1];
      Reachable(base, start, readable, init);
      CapIsExact(base, start, readable, init, user, max);
      assert OnlyTries([Last(acts)], user, max);
      CapStep(Run(base, start, readable, init).value, Last(acts), user, max);
    }
  }

  // ---- Month rotation ----------------------------------------------------------------

  predicate Ascending(handed: seq<Job>, month: Month) {
    && (forall i, j :: 0 <= i < j < |handed| ==> Before(handed[i].month, handed[j].month))
    && (forall i :: 0 <= i < |handed| ==> Before(handed[i].month, month))
  }

  predicate Complete(s: State, job: Job, user: nat) {
    Get(job.rows, user)
    == (if job.month == s.start && s.readable then Get(s.base, RowKey(user, s.start)) else 0)
       + Times(RowKey(user, job.month), s.granted)
  }

  ghost predicate HandedRight(s: State, user: nat) {
    && Ascending(s.handed, s.memory.month)
    && forall i :: 0 <= i < |s.handed| ==> Complete(s, s.handed[i], user)
  }

  lemma HandedRotation(s: State, now: Month, user: nat)
    requires Inv(s) && !Before(now, s.memory.month) && HandedRight(s, user)
    ensures HandedRight(AfterRotation(s, now), user)
  {
    var t := AfterRotation(s, now);
    assert CountRight(s, user);
    forall i | 0 <= i < |t.handed| ensures Complete(t, t.handed[i], user) {
      if i < |s.handed| {
        assert t.handed[i] == s.handed[i];
      }
    }
  }

  lemma HandedGrant(s: State, u: nat, user: nat)
    requires HandedRight(s, user)
    ensures HandedRight(Grant(s, u), user)
  {
    forall i | 0 <= i < |s.handed| ensures Complete(Grant(s, u), s.handed[i], user) {
      assert Complete(s, s.handed[i], user);
      TimesAppend(RowKey(user, s.handed[i].month), s.granted, Key(s, u));
    }
  }

  lemma HandedTry(s: State, u: nat, user: nat)
    requires HandedRight(s, user)
    ensures HandedRight(Try(s, u), user)
  {
    forall i | 0 <= i < |s.handed| ensures Complete(Try(s, u), s.handed[i], user) {
      assert Complete(s, s.handed[i], user);
    }
  }

  lemma HandedStep(s: State, a: Action, user: nat)
    requires Inv(s) && Enabled(s, a) && HandedRight(s, user)
    ensures HandedRight(Apply(s, a), user)
  {
    match a {
      case Increment(u, now) =>
        HandedRotation(s, now, user);
        HandedGrant(AfterRotation(s, now), u, user);
      case TryIncrement(u, m, now) =>
        var r := AfterRotation(s, now);
        HandedRotation(s, now, user);
        HandedTry(r, u, user);
        HandedGrant(Try(r, u), u, user);
      case Rotate(now) => HandedRotation(s, now, user);
      case _ =>
        forall i | 0 <= i < |s.handed| ensures Complete(Apply(s, a), s.handed[i], user) {
          assert Complete(s, s.handed[i], user);
        }
    }
  }

  /** Each finished month is handed out once, after its last counted call: the months handed out are
      strictly increasing and over, and each job holds the final count of its month. */
  lemma {:induction false} HandedOutOnce(
      base: map<RowKey, int>, start: Month, readable: bool, acts: seq<Action>, user: nat)
    requires NoFutureRows(base, start) && Run(base, start, readable, acts).Some?
    ensures HandedRight(Run(base, start, readable, acts).value, user)
    decreases |acts|
  {
    if acts != [] {
      Reachable(base, start, readable, acts[..|acts| - 1]);
      HandedOutOnce(base, start, readable, acts[..|acts| - 1], user);
      HandedStep(Run(base, start, readable, acts[..|acts| - 1]).value, Last(acts), user);
    }
  }

  predicate Out(s: State, month: Month) {
    exists i :: 0 <= i < |s.handed| && s.handed[i].month == month
  }

  ghost predicate AllOut(s: State, k: RowKey) {
    Times(k, s.granted) > 0 && k.month != s.memory.month ==> Out(s, k.month)
  }

  lemma OutRotation(s: State, now: Month, k: RowKey)
    requires AllOut(s, k)
    ensures AllOut(AfterRotation(s, now), k)
  {
    var t := AfterRotation(s, now);
    if now != s.memory.month {
      assert t.handed[|s.handed|].month == s.memory.month;
      if Out(s, k.month) {
        var i :| 0 <= i < |s.handed| && s.handed[i].month == k.month;
        assert t.handed[i].month == k.month;
      }
    }
  }

  lemma OutGrant(s: State, user: nat, k: RowKey)
    requires AllOut(s, k)
    ensures AllOut(Grant(s, user), k)
  {
    TimesAppend(k, s.granted, Key(s, user));
  }

  lemma OutStep(s: State, a: Action, k: RowKey)
    requires Enabled(s, a) && AllOut(s, k)
    ensures AllOut(Apply(s, a), k)
  {
    match a {
      case Increment(user, now) =>
        OutRotation(s, now, k);
        OutGrant(AfterRotation(s, now), user, k);
      case TryIncrement(user, _, now) =>
        OutRotation(s, now, k);
        OutGrant(Try(AfterRotation(s, now), user), user, k);
      case Rotate(now) => OutRotation(s, now, k);
      case _ =>
    }
  }

  /** No finished month is forgotten: if a call was counted in it, it has been handed out. */
  lemma {:induction false} EveryMonthHandedOut(
      base: map<RowKey, int>, start: Month, readable: bool, acts: seq<Action>, k: RowKey)
    requires Run(base, start, readable, acts).Some?
    requires var s := Run(base, start, readable, acts).value; Times(k, s.granted) > 0 && k.month != s.memory.month
    ensures Out(Run(base, start, readable, acts).value, k.month)
  {
    OutInv(base, start, readable, acts, k);
  }

  lemma {:induction false} OutInv(base: map<RowKey, int>, start: Month, readable: bool, acts: seq<Action>, k: RowKey)
    requires Run(base, start, readable, acts).Some?
    ensures AllOut(Run(base, start, readable, acts).value, k)
    decreases |acts|
  {
    if acts != [] {
      OutInv(base, start, readable, acts[..|acts| - 1], k);
      OutStep(Run(base, start, readable, acts[..|acts| - 1]).value, Last(acts), k);
    }
  }

  // ---- What goes wrong without the hypotheses ----------------------------------------

  lemma Extend(base: map<RowKey, int>, start: Month, readable: bool, acts: seq<Action>, a: Action)
    returns (acts': seq<Action>, s: State)
    requires Run(base, start, readable, acts).Some? && Enabled(Run(base, start, readable, acts).value, a)
    ensures acts' == acts + [a] && s == Apply(Run(base, start, readable, acts).value, a)
    ensures Run(base, start, readable, acts') == Some(s)
  {
    acts' := acts + [a];
    assert acts'[..|acts|] == acts;
    s := Apply(Run(base, start, readable, acts).value, a);
  }

  /** A start whose loadFromDB failed overwrites the stored count with what was counted since. */
  lemma FailedLoadForgets(start: Month, user: nat, count: nat) returns (acts: seq<Action>, s: State)
    ensures Run(map[RowKey(user, start) := count], start, false, acts) == Some(s)
    ensures Flushed(s, RowKey(user, start))
    ensures Times(RowKey(user, start), s.granted) == 1 && Get(s.store, RowKey(user, start)) == 1
  {
    var base := map[RowKey(user, start) := count as int];
    acts, s := Extend(base, start, false, [], Increment(user, start));
    acts, s := Extend(base, start, false, acts, Snapshot);
    assert s.jobs == [Writing(start, map[user := 1], 1)];
    acts, s := Extend(base, start, false, acts, WriteRow(0, user));
    assert s.jobs[0].rows == map[];
  }

  lemma TwoSnapshots(start: Month, user: nat) returns (acts: seq<Action>, s: State)
    ensures Run(map[], start, true, acts) == Some(s) && s.memory.month == start
    ensures s.jobs == [Writing(start, map[user := 1], 1), Writing(start, map[user := 2], 2)]
    ensures s.dirty == {} && s.granted == [RowKey(user, start), RowKey(user, start)]
  {
    acts, s := Extend(map[], start, true, [], Increment(user, start));
    assert s.memory.counts == map[user := 1];
    acts, s := Extend(map[], start, true, acts, Snapshot);
    acts, s := Extend(map[], start, true, acts, Increment(user, start));
    assert s.memory.counts == map[user := 2];
    acts, s := Extend(map[], start, true, acts, Snapshot);
  }

  /** Two snapshots of one month whose writes land in the wrong order leave the older count behind. */
  lemma OvertakenWriteForgets(start: Month, user: nat) returns (acts: seq<Action>, s: State)
    ensures Run(map[], start, true, acts) == Some(s)
    ensures s.dirty == {} && forall j :: 0 <= j < |s.jobs| ==> s.jobs[j].rows == map[]
    ensures Times(RowKey(user, start), s.granted) == 2 && Get(s.store, RowKey(user, start)) == 1
  {
    acts, s := TwoSnapshots(start, user);
    acts, s := Extend(map[], start, true, acts, WriteRow(1, user));
    assert s.jobs[1].rows == map[];
    acts, s := Extend(map[], start, true, acts, WriteRow(0, user));
    assert s.jobs[0].rows == map[];
  }
}
