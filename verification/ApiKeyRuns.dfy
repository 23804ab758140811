/** API-key checks by concurrent requests, interleaved step by step with creation, deletion, status
    changes, cache sweeps and the clock. */
module ApiKeyRuns {
  import opened Common
  import opened ApiKeys

  /** Recorded for the theorems only: `keyAt` and `statusAt`, the times of the two database reads behind
      an entry, and `raced`, whether a deletion of the key or a change of the status was written while
      the call that made the entry held what it had read. */
  datatype Cached = Cached(key: Key, suspended: bool, cachedAt: int, keyAt: int, statusAt: int, raced: bool)

  /** A ValidateAPIKey call that missed the cache. */
  datatype Reader =
    | Looking(h: Hash)
    | HasKey(h: Hash, key: Key, keyAt: int, raced: bool)
    | HasStatus(h: Hash, key: Key, keyAt: int, suspended: bool, statusAt: int, raced: bool)

  /** The rest of a DeleteAPIKey or of an UpdateUserStatus after its write: the cache removals. A sweep
      visits what it found in the cache, `todo`, once it has started. */
  datatype Job = Drop(h: Hash) | Sweep(user: nat, todo: Option<set<Hash>>)

  datatype State = State(
    now: int,
    keys: map<Hash, Key>,
    statuses: map<nat, string>,
    cache: map<Hash, Cached>,
    readers: map<nat, Reader>,
    jobs: seq<Job>,
    // Recorded for the theorems only.
    deletedAt: map<Hash, int>,   // deletions so far; a hash is not used again
    changedAt: map<nat, int>     // the last status change of each user
  )

  datatype Action =
    | Tick(time: int)
    | Create(h: Hash, key: Key)
    | Delete(h: Hash)
    | SetStatus(user: nat, status: string)
    | SweepStart(j: nat)
    | SweepVisit(j: nat, h: Hash)
    | SweepEnd(j: nat)
    | DropCached(j: nat)
    | Evict(h: Hash)             // flushDirty, or a call that found the entry or the key expired
    | Miss(id: nat, h: Hash)     // no entry, or one older than the TTL
    | ReadKey(id: nat)           // ends the call if there is no key or it has expired
    | ReadStatus(id: nat)
    | Put(id: nat, cachedAt: int)

  predicate TooOld(s: State, h: Hash)
    requires h in s.cache
  {
    s.now > s.cache[h].cachedAt + TTL
  }

  predicate Enabled(s: State, a: Action) {
    match a
    case Tick(time) => time >= s.now
    case Create(h, key) => h !in s.keys && h !in s.deletedAt
    case Delete(h) => h in s.keys
    case SetStatus(user, _) => user in s.statuses
    case SweepStart(j) => j < |s.jobs| && s.jobs[j].Sweep? && s.jobs[j].todo.None?
    case SweepVisit(j, h) => j < |s.jobs| && s.jobs[j].Sweep? && s.jobs[j].todo.Some? && h in s.jobs[j].todo.value
    case SweepEnd(j) => j < |s.jobs| && s.jobs[j].Sweep? && s.jobs[j].todo == Some({})
    case DropCached(j) => j < |s.jobs| && s.jobs[j].Drop?
    case Evict(h) => h in s.cache
    case Miss(id, h) => id !in s.readers && (h !in s.cache || TooOld(s, h))
    case ReadKey(id) => id in s.readers && s.readers[id].Looking?
    case ReadStatus(id) => id in s.readers && s.readers[id].HasKey?
    case Put(id, cachedAt) =>
      id in s.readers && s.readers[id].HasStatus? && s.readers[id].statusAt <= cachedAt <= s.now
  }

  predicate Holds(r: Reader, h: Hash) {
    !r.Looking? && r.h == h
  }

  predicate HoldsStatus(r: Reader, user: nat) {
    r.HasStatus? && r.key.user == user
  }

  function Marked(r: Reader, race: bool): Reader {
    if race && !r.Looking? then r.(raced := true) else r
  }

  function Apply(s: State, a: Action): State
    requires Enabled(s, a)
  {
    match a
    case Tick(time) => s.(now := time)
    case Create(h, key) => s.(keys := s.keys[h := key])
    case Delete(h) =>
      s.(keys := s.keys - {h}, jobs := s.jobs + [Drop(h)], deletedAt := s.deletedAt[h := s.now],
         readers := map id | id in s.readers :: Marked(s.readers[id], Holds(s.readers[id], h)))
    case SetStatus(user, status) =>
      s.(statuses := s.statuses[user := status], jobs := s.jobs + [Sweep(user, None)],
         changedAt := s.changedAt[user := s.now],
         readers := map id | id in s.readers :: Marked(s.readers[id], HoldsStatus(s.readers[id], user)))
    case SweepStart(j) => s.(jobs := s.jobs[j := Sweep(s.jobs[j].user, Some(s.cache.Keys))])
    case SweepVisit(j, h) =>
      var job := s.jobs[j];
      s.(jobs := s.jobs[j := Sweep(job.user, Some(job.todo.value - {h}))],
         cache := if h in s.cache && s.cache[h].key.user == job.user then s.cache - {h} else s.cache)
    case SweepEnd(j) => s.(jobs := Except(s.jobs, j))
    case DropCached(j) => s.(jobs := Except(s.jobs, j), cache := s.cache - {s.jobs[j].h})
    case Evict(h) => s.(cache := s.cache - {h})
    case Miss(id, h) => s.(readers := s.readers[id := Looking(h)])
    case ReadKey(id) =>
      var h := s.readers[id].h;
      if h !in s.keys || After(s.now, s.keys[h].expires)
      then s.(readers := s.readers - {id})
      else s.(readers := s.readers[id := HasKey(h, s.keys[h], s.now, false)])
    case ReadStatus(id) =>
      var r := s.readers[id];
      var suspended := IsSuspended(s.statuses, r.key.user);
      s.(readers := s.readers[id := HasStatus(r.h, r.key, r.keyAt, suspended, s.now, r.raced)])
    case Put(id, cachedAt) =>
      var r := s.readers[id];
      s.(readers := s.readers - {id},
         cache := s.cache[r.h := Cached(r.key, r.suspended, cachedAt, r.keyAt, r.statusAt, r.raced)])
  }

  function Init(now: int, statuses: map<nat, string>): State {
    State(now, map[], statuses, map[], map[], [], map[], map[])
  }

  ghost function Run(now: int, statuses: map<nat, string>, acts: seq<Action>): Option<State> {
    if acts == [] then Some(Init(now, statuses))
    else
      var before := Run(now, statuses, acts[..|acts| - 1]);
      if before.Some? && Enabled(before.value, Last(acts)) then Some(Apply(before.value, Last(acts))) else None
  }

  /** What a call gets that finds an entry it may use; None if it has to read the database. */
  function Hit(s: State, h: Hash): Option<Answer> {
    if h !in s.cache || TooOld(s, h) then None
    else if After(s.now, s.cache[h].key.expires) then Some(Expired)
    else if s.cache[h].suspended then Some(Suspended)
    else Some(User(s.cache[h].key.user))
  }

  // ---- Invariant ---------------------------------------------------------------------

  predicate Covers(job: Job, h: Hash, user: nat) {
    match job
    case Drop(g) => g == h
    case Sweep(u, todo) => u == user && (todo.None? || h in todo.value)
  }

  predicate WillGo(jobs: seq<Job>, h: Hash, user: nat) {
    exists j :: 0 <= j < |jobs| && Covers(jobs[j], h, user)
  }

  predicate SameKey(s: State, h: Hash, key: Key) {
    h in s.keys && s.keys[h] == key
  }

  predicate CacheOk(s: State, h: Hash)
    requires h in s.cache
  {
    var e := s.cache[h];
    || e.raced || WillGo(s.jobs, h, e.key.user)
    || (SameKey(s, h, e.key) && e.suspended == IsSuspended(s.statuses, e.key.user))
  }

  predicate ReaderOk(s: State, r: Reader) {
    !r.Looking? && !r.raced ==>
      SameKey(s, r.h, r.key) && (r.HasStatus? ==> r.suspended == IsSuspended(s.statuses, r.key.user))
  }

  predicate Inv(s: State) {
    && (forall h :: h in s.cache ==> CacheOk(s, h))
    && (forall id :: id in s.readers ==> ReaderOk(s, s.readers[id]))
  }

  lemma WillGoElsewhere(s: seq<Job>, t: seq<Job>, j: nat, h: Hash, user: nat)
    requires j < |s| && WillGo(s, h, user) && !Covers(s[j], h, user)
    requires t == Except(s, j) || (|t| == |s| && t == s[j := t[j]])
    ensures WillGo(t, h, user)
  {
    var i :| 0 <= i < |s| && Covers(s[i], h, user);
    if t == Except(s, j) && i > j {
      assert t[i - 1] == s[i];
    } else {
      assert t[i] == s[i];
    }
  }

  lemma WillGoAppend(s: seq<Job>, job: Job, h: Hash, user: nat)
    ensures WillGo(s + [job], h, user) <==> WillGo(s, h, user) || Covers(job, h, user)
  {
    var t := s + [job];
    if WillGo(s, h, user) {
      var i :| 0 <= i < |s| && Covers(s[i], h, user);
      assert t[i] == s[i];
    }
    if Covers(job, h, user) {
      assert Covers(t[|s|], h, user);
    }
  }

  lemma DeleteKeeps(s: State, h: Hash)
    requires Inv(s) && Enabled(s, Delete(h))
    ensures Inv(Apply(s, Delete(h)))
  {
    var t := Apply(s, Delete(h));
    forall g | g in t.cache ensures CacheOk(t, g) {
      assert CacheOk(s, g);
      WillGoAppend(s.jobs, Drop(h), g, s.cache[g].key.user);
    }
    forall id | id in t.readers ensures ReaderOk(t, t.readers[id]) {
      assert ReaderOk(s, s.readers[id]);
    }
  }

  lemma StatusKeeps(s: State, user: nat, status: string)
    requires Inv(s) && Enabled(s, SetStatus(user, status))
    ensures Inv(Apply(s, SetStatus(user, status)))
  {
    var t := Apply(s, SetStatus(user, status));
    forall g | g in t.cache ensures CacheOk(t, g) {
      assert CacheOk(s, g);
      WillGoAppend(s.jobs, Sweep(user, None), g, s.cache[g].key.user);
    }
    forall id | id in t.readers ensures ReaderOk(t, t.readers[id]) {
      assert ReaderOk(s, s.readers[id]);
    }
  }

  lemma JobKeeps(s: State, a: Action)
    requires Inv(s) && Enabled(s, a) && (a.SweepStart? || a.SweepVisit? || a.SweepEnd? || a.DropCached?)
    ensures Inv(Apply(s, a))
  {
    var t := Apply(s, a);
    forall g | g in t.cache ensures CacheOk(t, g) {
      assert CacheOk(s, g);
      var user := s.cache[g].key.user;
      if WillGo(s.jobs, g, user) {
        if Covers(s.jobs[a.j], g, user) {
          assert Covers(t.jobs[a.j], g, user);
        } else {
          WillGoElsewhere(s.jobs, t.jobs, a.j, g, user);
        }
      }
    }
    forall id | id in t.readers ensures ReaderOk(t, t.readers[id]) {
      assert ReaderOk(s, s.readers[id]);
    }
  }

  lemma ReaderKeeps(s: State, a: Action)
    requires Inv(s) && Enabled(s, a) && (a.Miss? || a.ReadKey? || a.ReadStatus? || a.Put?)
    ensures Inv(Apply(s, a))
  {
    var t := Apply(s, a);
    forall g | g in t.cache ensures CacheOk(t, g) {
      if a.Put? && g == s.readers[a.id].h {
        assert ReaderOk(s, s.readers[a.id]);
      } else {
        assert CacheOk(s, g);
      }
    }
    forall id | id in t.readers ensures ReaderOk(t, t.readers[id]) {
      if id in s.readers {
        assert ReaderOk(s, s.readers[id]);
      }
    }
  }

  lemma OtherKeeps(s: State, a: Action)
    requires Inv(s) && Enabled(s, a) && (a.Tick? || a.Create? || a.Evict?)
    ensures Inv(Apply(s, a))
  {
    var t := Apply(s, a);
    forall g | g in t.cache ensures CacheOk(t, g) {
      assert CacheOk(s, g);
    }
    forall id | id in t.readers ensures ReaderOk(t, t.readers[id]) {
      assert ReaderOk(s, s.readers[id]);
    }
  }

  lemma {:induction false} Reachable(now: int, statuses: map<nat, string>, acts: seq<Action>)
    requires Run(now, statuses, acts).Some?
    ensures Inv(Run(now, statuses, acts).value)
    decreases |acts|
  {
    if acts != [] {
      Reachable(now, statuses, acts[..|acts| - 1]);
      var s := Run(now, statuses, acts[..|acts| - 1]).value;
      match Last(acts) {
        case Delete(h) => DeleteKeeps(s, h);
        case SetStatus(user, status) => StatusKeeps(s, user, status);
        case SweepStart(_) => JobKeeps(s, Last(acts));
        case SweepVisit(_, _) => JobKeeps(s, Last(acts));
        case SweepEnd(_) => JobKeeps(s, Last(acts));
        case DropCached(_) => JobKeeps(s, Last(acts));
        case Miss(_, _) => ReaderKeeps(s, Last(acts));
        case ReadKey(_) => ReaderKeeps(s, Last(acts));
        case ReadStatus(_) => ReaderKeeps(s, Last(acts));
        case Put(_, _) => ReaderKeeps(s, Last(acts));
        case _ => OtherKeeps(s, Last(acts));
      }
    }
  }

  // ---- How stale an answer can be ----------------------------------------------------

  /** The key was as read at `keyAt`, and if it has been deleted since, not before. */
  predicate TimedKey(s: State, h: Hash, key: Key, keyAt: int) {
    keyAt <= s.now && if h in s.deletedAt then keyAt <= s.deletedAt[h] else SameKey(s, h, key)
  }

  predicate TimedStatus(s: State, user: nat, suspended: bool, statusAt: int) {
    statusAt <= s.now
    && (suspended != IsSuspended(s.statuses, user) ==> user in s.changedAt && statusAt <= s.changedAt[user])
  }

  predicate TimedReader(s: State, r: Reader) {
    match r
    case Looking(_) => true
    case HasKey(h, key, keyAt, _) => TimedKey(s, h, key, keyAt)
    case HasStatus(h, key, keyAt, suspended, statusAt, _) =>
      TimedKey(s, h, key, keyAt) && TimedStatus(s, key.user, suspended, statusAt) && keyAt <= statusAt
  }

  predicate TimedCached(s: State, h: Hash, e: Cached) {
    && TimedKey(s, h, e.key, e.keyAt) && TimedStatus(s, e.key.user, e.suspended, e.statusAt)
    && e.keyAt <= e.statusAt <= e.cachedAt <= s.now
  }

  predicate Timed(s: State) {
    && (forall h :: h in s.keys ==> h !in s.deletedAt)
    && (forall id :: id in s.readers ==> TimedReader(s, s.readers[id]))
    && forall h :: h in s.cache ==> TimedCached(s, h, s.cache[h])
  }

  lemma KeyStays(s: State, a: Action, h: Hash, key: Key, keyAt: int)
    requires Enabled(s, a) && TimedKey(s, h, key, keyAt)
    ensures TimedKey(Apply(s, a), h, key, keyAt)
  {
  }

  lemma StatusStays(s: State, a: Action, user: nat, suspended: bool, statusAt: int)
    requires Enabled(s, a) && TimedStatus(s, user, suspended, statusAt)
    ensures TimedStatus(Apply(s, a), user, suspended, statusAt)
  {
  }

  /** Only Put makes an entry, and only the two reads change what a call holds. */
  lemma CacheFrom(s: State, a: Action, h: Hash)
    requires Enabled(s, a) && h in Apply(s, a).cache && !(a.Put? && h == s.readers[a.id].h)
    ensures h in s.cache && Apply(s, a).cache[h] == s.cache[h] && s.now <= Apply(s, a).now
  {
  }

  predicate SameReads(q: Reader, r: Reader) {
    r == q || r == Marked(q, true)
  }

  lemma NewReaderTimed(s: State, a: Action, id: nat)
    requires Enabled(s, a) && id in Apply(s, a).readers && forall h :: h in s.keys ==> h !in s.deletedAt
    requires id !in s.readers || (!SameReads(s.readers[id], Apply(s, a).readers[id]) && TimedReader(s, s.readers[id]))
    ensures var t := Apply(s, a); TimedReader(t, t.readers[id])
  {
  }

  lemma StepTimedReader(s: State, a: Action, id: nat)
    requires Timed(s) && Enabled(s, a) && id in Apply(s, a).readers
    ensures var t := Apply(s, a); TimedReader(t, t.readers[id])
  {
    hide TimedKey, TimedStatus, TimedCached;
    var t := Apply(s, a);
    if id in s.readers && SameReads(s.readers[id], t.readers[id]) {
      var r := s.readers[id];
      assert TimedReader(s, r);
      if !r.Looking? {
        KeyStays(s, a, r.h, r.key, r.keyAt);
        if r.HasStatus? {
          StatusStays(s, a, r.key.user, r.suspended, r.statusAt);
        }
      }
    } else {
      assert id in s.readers ==> TimedReader(s, s.readers[id]);
      NewReaderTimed(s, a, id);
    }
  }

  lemma StepTimedCached(s: State, a: Action, h: Hash)
    requires Timed(s) && Enabled(s, a) && h in Apply(s, a).cache
    ensures var t := Apply(s, a); TimedCached(t, h, t.cache[h])
  {
    if a.Put? && h == s.readers[a.id].h {
      assert TimedReader(s, s.readers[a.id]);
    } else {
      CacheFrom(s, a, h);
      var e := s.cache[h];
      assert TimedCached(s, h, e);
      KeyStays(s, a, h, e.key, e.keyAt);
      StatusStays(s, a, e.key.user, e.suspended, e.statusAt);
    }
  }

  lemma StepTimed(s: State, a: Action)
    requires Timed(s) && Enabled(s, a)
    ensures Timed(Apply(s, a))
  {
    var t := Apply(s, a);
    forall id | id in t.readers ensures TimedReader(t, t.readers[id]) {
      StepTimedReader(s, a, id);
    }
    forall h | h in t.cache ensures TimedCached(t, h, t.cache[h]) {
      StepTimedCached(s, a, h);
    }
  }

  lemma {:induction false} ReachableTimed(now: int, statuses: map<nat, string>, acts: seq<Action>)
    requires Run(now, statuses, acts).Some?
    ensures Timed(Run(now, statuses, acts).value)
    decreases |acts|
  {
    if acts != [] {
      ReachableTimed(now, statuses, acts[..|acts| - 1]);
      StepTimed(Run(now, statuses, acts[..|acts| - 1]).value, Last(acts));
    }
  }

  /** The cache refines the database: as soon as the deletions and status changes made so far have
      returned, an answer from the cache is the database's, except exactly when the call that made the
      entry held its reads while one of them was written, and that write counts: the key is gone, or it
      has not expired and the status is another one. */
  lemma HitIsLookup(now: int, statuses: map<nat, string>, acts: seq<Action>, h: Hash)
    requires Run(now, statuses, acts).Some?
    requires var s := Run(now, statuses, acts).value; s.jobs == [] && Hit(s, h).Some?
    ensures var s := Run(now, statuses, acts).value;
            var e := s.cache[h];
            var expired := e.key.expires.Some? && s.now > e.key.expires.value;
            var suspended := e.key.user in s.statuses && s.statuses[e.key.user] == "suspended";
            && (Hit(s, h).value == Lookup(s.keys, s.statuses, h, s.now) <==>
                  !e.raced || (h in s.keys && (expired || e.suspended == suspended)))
            && (Hit(s, h).value.Expired? <==> expired)
            && (Hit(s, h).value.User? ==> Hit(s, h).value == User(e.key.user) && (!e.raced ==> !suspended))
  {
    Reachable(now, statuses, acts);
    ReachableTimed(now, statuses, acts);
    var s := Run(now, statuses, acts).value;
    assert CacheOk(s, h) && TimedCached(s, h, s.cache[h]);
  }

  /** Under any interleaving an entry is used for at most the TTL, and what it says was true when it was
      read: a key is accepted from the cache after its deletion, or an outdated status after the last
      change, for at most the TTL plus the time the call that filled the entry took for its reads. */
  lemma StaleAtMostTTL(now: int, statuses: map<nat, string>, acts: seq<Action>, h: Hash)
    requires Run(now, statuses, acts).Some? && Hit(Run(now, statuses, acts).value, h).Some?
    ensures var s := Run(now, statuses, acts).value;
            var e := s.cache[h];
            var suspended := e.key.user in s.statuses && s.statuses[e.key.user] == "suspended";
            && s.now <= e.cachedAt + 600_000_000_000 && e.keyAt <= e.statusAt <= e.cachedAt
            && (if h in s.deletedAt then s.now <= s.deletedAt[h] + 600_000_000_000 + (e.cachedAt - e.keyAt)
                else h in s.keys && s.keys[h] == e.key)
            && (e.suspended != suspended ==>
                  && e.key.user in s.changedAt
                  && s.now <= s.changedAt[e.key.user] + 600_000_000_000 + (e.cachedAt - e.statusAt))
  {
    ReachableTimed(now, statuses, acts);
    var s := Run(now, statuses, acts).value;
    assert TimedCached(s, h, s.cache[h]);
  }

  lemma Extend(
      now: int, statuses: map<nat, string>, acts: seq<Action>, a: Action) returns (acts': seq<Action>, s: State)
    requires Run(now, statuses, acts).Some? && Enabled(Run(now, statuses, acts).value, a)
    ensures acts' == acts + [a] && s == Apply(Run(now, statuses, acts).value, a)
    ensures Run(now, statuses, acts') == Some(s)
  {
    acts' := acts + [a];
    assert acts'[..|acts|] == acts;
    s := Apply(Run(now, statuses, acts).value, a);
  }

  lemma EmptyRun(now: int, statuses: map<nat, string>)
    ensures Run(now, statuses, []) == Some(Init(now, statuses))
  {
  }

  lemma ReadsMade(now: int, statuses: map<nat, string>, h: Hash, key: Key) returns (acts: seq<Action>, s: State)
    requires key.expires.None? && !IsSuspended(statuses, key.user)
    ensures Run(now, statuses, acts) == Some(s)
    ensures s == Init(now, statuses).(keys := map[h := key],
                                      readers := map[0 := HasStatus(h, key, now, false, now, false)])
  {
    hide Run;
    EmptyRun(now, statuses);
    acts, s := Extend(now, statuses, [], Create(h, key));
    acts, s := Extend(now, statuses, acts, Miss(0, h));
    acts, s := Extend(now, statuses, acts, ReadKey(0));
    acts, s := Extend(now, statuses, acts, ReadStatus(0));
  }

  /** The race is real: a call that read the key before its deletion caches it after the deletion has
      returned, and the key goes on being accepted. */
  lemma DeletedKeyAccepted(now: int, h: Hash, key: Key) returns (acts: seq<Action>, s: State)
    requires key.expires.None?
    ensures Run(now, map[], acts) == Some(s)
    ensures s.jobs == [] && s.readers == map[] && h in s.deletedAt
    ensures Hit(s, h) == Some(User(key.user)) && Lookup(s.keys, s.statuses, h, s.now) == Invalid
  {
    hide Run;
    acts, s := ReadsMade(now, map[], h, key);
    acts, s := Extend(now, map[], acts, Delete(h));
    acts, s := Extend(now, map[], acts, DropCached(0));
    acts, s := Extend(now, map[], acts, Put(0, now));
    assert s.readers == map[];
  }

  /** So it is for a suspension: a call that read the status before it was changed caches it after
      UpdateUserStatus has returned, and the key of the suspended user goes on being accepted. */
  lemma SuspendedKeyAccepted(now: int, h: Hash, key: Key) returns (acts: seq<Action>, s: State)
    requires key.expires.None?
    ensures Run(now, map[key.user := "active"], acts) == Some(s)
    ensures s.jobs == [] && s.readers == map[] && IsSuspended(s.statuses, key.user)
    ensures Hit(s, h) == Some(User(key.user)) && Lookup(s.keys, s.statuses, h, s.now) == Suspended
  {
    hide Run;
    var statuses := map[key.user := "active"];
    acts, s := ReadsMade(now, statuses, h, key);
    acts, s := Extend(now, statuses, acts, SetStatus(key.user, "suspended"));
    acts, s := Extend(now, statuses, acts, SweepStart(0));
    assert s.jobs[0].todo.value == {};
    acts, s := Extend(now, statuses, acts, SweepEnd(0));
    acts, s := Extend(now, statuses, acts, Put(0, now));
    assert s.readers == map[];
  }

  // ---- Exactly when a deletion takes effect at once --------------------------------------

  ghost predicate Held(s: State, h: Hash) {
    exists id :: id in s.readers && Holds(s.readers[id], h)
  }

  /** Whatever happens after the deletion, once it and the changes after it have returned the key is not
      answered from the cache any more. */
  ghost predicate DeletesAtOnce(now: int, statuses: map<nat, string>, acts: seq<Action>, h: Hash) {
    forall more: seq<Action> ::
      Run(now, statuses, acts + [Delete(h)] + more).Some? &&
        Run(now, statuses, acts + [Delete(h)] + more).value.jobs == [] ==>
        Hit(Run(now, statuses, acts + [Delete(h)] + more).value, h).None?
  }

  /** The key is deleted, no call holds it, and if it is cached the removal is under way. */
  ghost predicate Going(s: State, h: Hash) {
    && h in s.deletedAt && h !in s.keys && !Held(s, h)
    && (h in s.cache ==> Drop(h) in s.jobs)
  }

  lemma DropStays(s: State, a: Action, h: Hash)
    requires Enabled(s, a) && Drop(h) in s.jobs && h in Apply(s, a).cache
    ensures Drop(h) in Apply(s, a).jobs
  {
    var j :| 0 <= j < |s.jobs| && s.jobs[j] == Drop(h);
    var t := Apply(s, a);
    if a.SweepEnd? || a.DropCached? {
      assert a.j != j;
      assert t.jobs[if j < a.j then j else j - 1] == Drop(h);
    } else {
      assert t.jobs[j] == Drop(h);
    }
  }

  lemma StepGoing(s: State, a: Action, h: Hash)
    requires Enabled(s, a) && Going(s, h)
    ensures Going(Apply(s, a), h)
  {
    var t := Apply(s, a);
    forall id | id in t.readers ensures !Holds(t.readers[id], h) {
      if id in s.readers {
        assert !Holds(s.readers[id], h);
      }
    }
    assert a.Put? ==> !Holds(s.readers[a.id], h);
    if h in t.cache {
      DropStays(s, a, h);
    }
  }

  lemma {:induction false} StaysGoing(
      now: int, statuses: map<nat, string>, acts: seq<Action>, more: seq<Action>, h: Hash)
    requires Run(now, statuses, acts).Some? && Going(Run(now, statuses, acts).value, h)
    requires Run(now, statuses, acts + more).Some?
    ensures Going(Run(now, statuses, acts + more).value, h)
    decreases |more|
  {
    if more == [] {
      assert acts + more == acts;
    } else {
      assert (acts + more)[..|acts + more| - 1] == acts + more[..|more| - 1];
      StaysGoing(now, statuses, acts, more[..|more| - 1], h);
      StepGoing(Run(now, statuses, acts + more[..|more| - 1]).value, Last(more), h);
    }
  }

  lemma DeleteGoing(s: State, h: Hash)
    requires Enabled(s, Delete(h)) && !Held(s, h)
    ensures Going(Apply(s, Delete(h)), h)
  {
    var t := Apply(s, Delete(h));
    assert t.jobs[|s.jobs|] == Drop(h);
    forall id | id in t.readers ensures !Holds(t.readers[id], h) {
      assert !Holds(s.readers[id], h);
    }
  }

  /** The call that holds the key puts it into the cache after the deletion has removed it. */
  lemma HolderPuts(
      now: int, statuses: map<nat, string>, acts: seq<Action>, h: Hash, id: nat) returns (more: seq<Action>)
    requires Run(now, statuses, acts).Some?
    requires var s := Run(now, statuses, acts).value;
             Timed(s) && s.jobs == [] && h in s.keys && id in s.readers && Holds(s.readers[id], h)
    ensures Run(now, statuses, acts + [Delete(h)] + more).Some?
    ensures var t := Run(now, statuses, acts + [Delete(h)] + more).value; t.jobs == [] && Hit(t, h).Some?
  {
    hide Run;
    var acts1, s1 := Extend(now, statuses, acts, Delete(h));
    assert s1.jobs == [Drop(h)];
    var acts2, s2 := Extend(now, statuses, acts1, DropCached(0));
    more := [DropCached(0)];
    if s2.readers[id].HasKey? {
      acts2, s2 := Extend(now, statuses, acts2, ReadStatus(id));
      more := more + [ReadStatus(id)];
    } else {
      assert TimedReader(Run(now, statuses, acts).value, Run(now, statuses, acts).value.readers[id]);
    }
    assert acts2 == acts1 + more;
    var acts3, s3 := Extend(now, statuses, acts2, Put(id, s2.now));
    more := more + [Put(id, s2.now)];
    assert acts3 == acts1 + more;
  }

  /** A deletion takes effect as soon as it has returned, whatever the schedule, if and only if no call
      holds the key as read from the database at the moment the row is deleted. */
  lemma DeletesAtOnceIff(now: int, statuses: map<nat, string>, acts: seq<Action>, h: Hash)
    requires Run(now, statuses, acts).Some?
    requires var s := Run(now, statuses, acts).value; s.jobs == [] && h in s.keys
    ensures DeletesAtOnce(now, statuses, acts, h) <==> !Held(Run(now, statuses, acts).value, h)
  {
    var s := Run(now, statuses, acts).value;
    if Held(s, h) {
      var id :| id in s.readers && Holds(s.readers[id], h);
      ReachableTimed(now, statuses, acts);
      var more := HolderPuts(now, statuses, acts, h, id);
      assert !DeletesAtOnce(now, statuses, acts, h);
    } else {
      var acts1, s1 := Extend(now, statuses, acts, Delete(h));
      DeleteGoing(s, h);
      forall more: seq<Action> |
        Run(now, statuses, acts + [Delete(h)] + more).Some? &&
          Run(now, statuses, acts + [Delete(h)] + more).value.jobs == []
        ensures Hit(Run(now, statuses, acts + [Delete(h)] + more).value, h).None?
      {
        StaysGoing(now, statuses, acts1, more, h);
      }
    }
  }

  // ---- Exactly when a suspension takes effect at once ------------------------------------

  /** The call could make an entry that accepts a key of the user. */
  predicate Accepting(s: State, r: Reader, user: nat) {
    r.HasStatus? && r.key.user == user && !r.suspended && (r.key.expires.Some? ==> s.now <= r.key.expires.value)
  }

  ghost predicate HeldActive(s: State, user: nat) {
    exists id :: id in s.readers && Accepting(s, s.readers[id], user)
  }

  predicate Leaves(acts: seq<Action>, user: nat) {
    forall i :: 0 <= i < |acts| && acts[i].SetStatus? ==> acts[i].user != user
  }

  /** Whatever happens after the suspension, while the status is not changed again and once the changes
      made so far have returned, no key of the user is accepted from the cache. */
  ghost predicate SuspendsAtOnce(now: int, statuses: map<nat, string>, acts: seq<Action>, user: nat) {
    forall more: seq<Action>, h: Hash ::
      var all := acts + [SetStatus(user, "suspended")] + more;
      Leaves(more, user) && Run(now, statuses, all).Some? && Run(now, statuses, all).value.jobs == [] ==>
        Hit(Run(now, statuses, all).value, h) != Some(User(user))
  }

  predicate Harmless(s: State, h: Hash, user: nat)
    requires h in s.cache
  {
    var e := s.cache[h];
    e.key.user == user && !e.suspended ==> After(s.now, e.key.expires) || WillGo(s.jobs, h, user)
  }

  /** The user is suspended and every entry that says otherwise is expired or will be removed. */
  ghost predicate Suspending(s: State, user: nat) {
    && IsSuspended(s.statuses, user) && !HeldActive(s, user)
    && forall h :: h in s.cache ==> Harmless(s, h, user)
  }

  lemma StepHarmless(s: State, a: Action, user: nat, h: Hash)
    requires Enabled(s, a) && Suspending(s, user) && h in Apply(s, a).cache
    ensures Harmless(Apply(s, a), h, user)
  {
    var t := Apply(s, a);
    if a.Put? && h == s.readers[a.id].h {
      assert !Accepting(s, s.readers[a.id], user);
    } else {
      assert Harmless(s, h, user);
      if WillGo(s.jobs, h, user) && s.cache[h].key.user == user && t.jobs != s.jobs {
        JobStays(s, a, user, h);
      }
    }
  }

  lemma JobStays(s: State, a: Action, user: nat, h: Hash)
    requires Enabled(s, a) && h in Apply(s, a).cache && Apply(s, a).jobs != s.jobs
    requires h in s.cache && s.cache[h].key.user == user && WillGo(s.jobs, h, user)
    ensures WillGo(Apply(s, a).jobs, h, user)
  {
    var t := Apply(s, a);
    if a.Delete? {
      WillGoAppend(s.jobs, Drop(a.h), h, user);
    } else if a.SetStatus? {
      WillGoAppend(s.jobs, Sweep(a.user, None), h, user);
    } else if Covers(s.jobs[a.j], h, user) {
      assert Covers(t.jobs[a.j], h, user);
    } else {
      WillGoElsewhere(s.jobs, t.jobs, a.j, h, user);
    }
  }

  lemma StepNotHeld(s: State, a: Action, user: nat)
    requires Enabled(s, a) && !HeldActive(s, user)
    requires IsSuspended(s.statuses, user)
    ensures !HeldActive(Apply(s, a), user)
  {
    var t := Apply(s, a);
    forall id | id in t.readers ensures !Accepting(t, t.readers[id], user) {
      if id in s.readers {
        assert !Accepting(s, s.readers[id], user);
      }
    }
  }

  lemma StepSuspending(s: State, a: Action, user: nat)
    requires Enabled(s, a) && Suspending(s, user) && (a.SetStatus? ==> a.user != user)
    ensures Suspending(Apply(s, a), user)
  {
    StepNotHeld(s, a, user);
    forall h | h in Apply(s, a).cache ensures Harmless(Apply(s, a), h, user) {
      StepHarmless(s, a, user, h);
    }
  }

  lemma {:induction false} StaysSuspending(
      now: int, statuses: map<nat, string>, acts: seq<Action>, more: seq<Action>, user: nat)
    requires Run(now, statuses, acts).Some? && Suspending(Run(now, statuses, acts).value, user)
    requires Run(now, statuses, acts + more).Some? && Leaves(more, user)
    ensures Suspending(Run(now, statuses, acts + more).value, user)
    decreases |more|
  {
    if more == [] {
      assert acts + more == acts;
    } else {
      var fewer := more[..|more| - 1];
      assert (acts + more)[..|acts + more| - 1] == acts + fewer;
      StaysSuspending(now, statuses, acts, fewer, user);
      assert Last(acts + more) == Last(more);
      StepSuspending(Run(now, statuses, acts + fewer).value, Last(more), user);
    }
  }

  lemma SuspendSuspending(s: State, user: nat)
    requires Enabled(s, SetStatus(user, "suspended")) && !HeldActive(s, user)
    ensures Suspending(Apply(s, SetStatus(user, "suspended")), user)
  {
    var t := Apply(s, SetStatus(user, "suspended"));
    forall h | h in t.cache ensures Harmless(t, h, user) {
      WillGoAppend(s.jobs, Sweep(user, None), h, user);
    }
    forall id | id in t.readers ensures !Accepting(t, t.readers[id], user) {
      assert !Accepting(s, s.readers[id], user);
    }
  }

  /** The sweep visits everything it has left and ends. */
  lemma {:induction false} SweepOut(now: int, statuses: map<nat, string>, acts: seq<Action>, user: nat, todo: set<Hash>)
      returns (more: seq<Action>)
    requires Run(now, statuses, acts).Some? && Run(now, statuses, acts).value.jobs == [Sweep(user, Some(todo))]
    ensures Leaves(more, user) && Run(now, statuses, acts + more).Some?
    ensures var s := Run(now, statuses, acts).value;
            var t := Run(now, statuses, acts + more).value;
            t.jobs == [] && t.readers == s.readers && t.now == s.now
    decreases todo
  {
    hide Run;
    if todo == {} {
      var acts1, s1 := Extend(now, statuses, acts, SweepEnd(0));
      more := [SweepEnd(0)];
    } else {
      var h :| h in todo;
      var acts1, s1 := Extend(now, statuses, acts, SweepVisit(0, h));
      var rest := SweepOut(now, statuses, acts1, user, todo - {h});
      more := [SweepVisit(0, h)] + rest;
      assert acts + more == acts1 + rest;
    }
  }

  /** The call that holds the status puts its entry into the cache after the sweep. */
  lemma ActivePuts(now: int, statuses: map<nat, string>, acts: seq<Action>, user: nat, id: nat)
      returns (more: seq<Action>, h: Hash)
    requires Run(now, statuses, acts).Some?
    requires var s := Run(now, statuses, acts).value;
             Timed(s) && s.jobs == [] && user in s.statuses && id in s.readers && Accepting(s, s.readers[id], user)
    ensures var all := acts + [SetStatus(user, "suspended")] + more;
            && Leaves(more, user) && Run(now, statuses, all).Some? && Run(now, statuses, all).value.jobs == []
            && Hit(Run(now, statuses, all).value, h) == Some(User(user))
  {
    hide Run;
    var s := Run(now, statuses, acts).value;
    assert TimedReader(s, s.readers[id]);
    h := s.readers[id].h;
    var acts1, s1 := Extend(now, statuses, acts, SetStatus(user, "suspended"));
    assert s1.jobs == [Sweep(user, None)];
    var acts2, s2 := Extend(now, statuses, acts1, SweepStart(0));
    var rest := SweepOut(now, statuses, acts2, user, s1.cache.Keys);
    var acts3, s3 := Extend(now, statuses, acts2 + rest, Put(id, s.now));
    more := [SweepStart(0)] + rest + [Put(id, s.now)];
    assert acts3 == acts + [SetStatus(user, "suspended")] + more;
  }

  /** A suspension takes effect as soon as it has returned, whatever the schedule, if and only if no call
      holds an active status of the user for a key that has not expired at the moment of the write. */
  lemma SuspendsAtOnceIff(now: int, statuses: map<nat, string>, acts: seq<Action>, user: nat)
    requires Run(now, statuses, acts).Some?
    requires var s := Run(now, statuses, acts).value; s.jobs == [] && user in s.statuses
    ensures SuspendsAtOnce(now, statuses, acts, user) <==> !HeldActive(Run(now, statuses, acts).value, user)
  {
    var s := Run(now, statuses, acts).value;
    if HeldActive(s, user) {
      var id :| id in s.readers && Accepting(s, s.readers[id], user);
      ReachableTimed(now, statuses, acts);
      var more, h := ActivePuts(now, statuses, acts, user, id);
      assert !SuspendsAtOnce(now, statuses, acts, user);
    } else {
      var acts1, s1 := Extend(now, statuses, acts, SetStatus(user, "suspended"));
      SuspendSuspending(s, user);
      forall more: seq<Action>, h: Hash |
        Leaves(more, user) && Run(now, statuses, acts1 + more).Some? &&
          Run(now, statuses, acts1 + more).value.jobs == []
        ensures Hit(Run(now, statuses, acts1 + more).value, h) != Some(User(user))
      {
        StaysSuspending(now, statuses, acts1, more, user);
        var t := Run(now, statuses, acts1 + more).value;
        assert h in t.cache ==> Harmless(t, h, user);
      }
    }
  }
}
