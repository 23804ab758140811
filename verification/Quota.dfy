/** internal/event/quota.go: per-user counters of the current month, handed out for writing when the
    month changes and copied for writing every hour and at shutdown. */
module Quota {
  import opened Common

  datatype Month = Month(year: int, month: int)

  predicate Before(a: Month, b: Month) {
    a.year < b.year || (a.year == b.year && a.month < b.month)
  }

  /** One row of monthly_event_count is found by user, year and month. */
  datatype RowKey = RowKey(user: nat, month: Month)

  /** Counts of one month on their way to the database. */
  datatype Job = Job(month: Month, rows: map<nat, int>)

  /** What the lock protects. */
  datatype Memory = Memory(counts: map<nat, int>, month: Month)

  function Get<K>(m: map<K, int>, k: K): int {
    if k in m then m[k] else 0
  }

  function Rotated(q: Memory, now: Month): Memory {
    if now == q.month then q else Memory(map[], now)
  }

  function HandedOut(q: Memory, now: Month): Option<Job> {
    if now == q.month then None else Some(Job(q.month, q.counts))
  }

  function Counted(q: Memory, user: nat): Memory {
    q.(counts := q.counts[user := Get(q.counts, user) + 1])
  }

  /** Whether TryIncrement refuses; a negative maximum means no limit. */
  predicate Full(q: Memory, user: nat, max: int) {
    max >= 0 && Get(q.counts, user) >= max
  }

  // ---- The code ----------------------------------------------------------------------

  class CountTable {
    var m: map<nat, int>

    constructor ()
      ensures m == map[]
    {
      m := map[];
    }
  }

  class Store {
    var rows: map<RowKey, int>

    /** Query().Only. */
    method Find(k: RowKey) returns (found: Option<int>)
      ensures found == if k in rows then Some(rows[k]) else None
    {
      found := if k in rows then Some(rows[k]) else None;
    }

    method Update(k: RowKey, count: int)
      requires k in rows
      modifies this
      ensures rows == old(rows)[k := count]
    {
      rows := rows[k := count];
    }

    method Create(k: RowKey, count: int)
      requires k !in rows
      modifies this
      ensures rows == old(rows)[k := count]
    {
      rows := rows[k := count];
    }
  }

  function Written(rows: map<RowKey, int>, job: Job): map<RowKey, int> {
    map k | k in rows.Keys + (set u | u in job.rows :: RowKey(u, job.month)) ::
      if k.month == job.month && k.user in job.rows then job.rows[k.user] else rows[k]
  }

  function Part(job: Job, users: set<nat>): Job {
    Job(job.month, map u | u in users && u in job.rows :: job.rows[u])
  }

  lemma WrittenNext(rows: map<RowKey, int>, job: Job, users: set<nat>, user: nat)
    requires user in job.rows
    ensures Written(rows, Part(job, users + {user}))
         == Written(rows, Part(job, users))[RowKey(user, job.month) := job.rows[user]]
  {
    var a := Written(rows, Part(job, users + {user}));
    var b := Written(rows, Part(job, users))[RowKey(user, job.month) := job.rows[user]];
    forall k ensures (k in a <==> k in b) && (k in a ==> a[k] == b[k]) {
      if k == RowKey(user, job.month) {
        assert k in a;
      } else {
        assert k in a <==> k in rows || (k.month == job.month && k.user in users && k.user in job.rows);
      }
    }
  }

  lemma WrittenNone(rows: map<RowKey, int>, job: Job)
    requires job.rows == map[]
    ensures Written(rows, job) == rows
  {
  }

  lemma WrittenMeans(rows: map<RowKey, int>, job: Job)
    ensures forall k ::
      && (k in Written(rows, job) <==> k in rows || (k.month == job.month && k.user in job.rows))
      && (k in Written(rows, job) ==>
            Written(rows, job)[k] == if k.month == job.month && k.user in job.rows then job.rows[k.user] else rows[k])
  {
  }

  class MonthlyQuota {
    var counts: CountTable
    var month: Month
    ghost var past: seq<CountTable>   // every table ever handed out

    /** GetMonthlyQuota: starts from the stored rows of the month, or from nothing if they cannot be read. */
    constructor (now: Month, db: Store, readable: bool)
      ensures Valid() && fresh(counts) && past == [] && Value() == Start(db.rows, now, readable)
      ensures month == now && forall u :: u in counts.m <==> readable && RowKey(u, now) in db.rows
      ensures forall u :: u in counts.m ==> counts.m[u] == db.rows[RowKey(u, now)]
    {
      counts := new CountTable();
      month, past := now, [];
      new;
      if readable {
        var todo := set k | k in db.rows && k.month == now :: k;
        ghost var all := todo;
        while todo != {}
          invariant todo <= all
          invariant forall k :: k in all && k !in todo ==>
                      k.user in this.counts.m && this.counts.m[k.user] == db.rows[k]
          invariant forall u :: u in this.counts.m ==> RowKey(u, now) in all && RowKey(u, now) !in todo
          invariant month == now && past == [] && fresh(counts)
          modifies counts
          decreases |todo|
        {
          var k :| k in todo;
          counts.m := counts.m[k.user := db.rows[k]];
          todo := todo - {k};
        }
      }
    }

    ghost predicate Valid()
      reads this
    {
      && counts !in past
      && forall i, j :: 0 <= i < j < |past| ==> past[i] != past[j]
    }

    ghost function Value(): Memory
      reads this, counts
    {
      Memory(counts.m, month)
    }

    /** Hands the table of a finished month to the caller. It is never handed out again, and every
        method changes at most the table in use, which is none of those handed out. */
    method CheckAndRotate(now: Month) returns (old_: CountTable?, oldMonth: Month, rotated: bool)
      requires Valid()
      modifies this
      ensures Valid() && Value() == Rotated(old(Value()), now)
      ensures rotated <==> HandedOut(old(Value()), now).Some?
      ensures rotated ==> old_ == old(counts) && HandedOut(old(Value()), now) == Some(Job(oldMonth, old_.m))
      ensures rotated ==> fresh(counts) && past == old(past) + [old(counts)]
      ensures !rotated ==> old_ == null && counts == old(counts) && past == old(past)
    {
      if now.year == month.year && now.month == month.month {
        return null, Month(0, 0), false;
      }
      old_, oldMonth := counts, month;
      past := past + [counts];
      counts := new CountTable();
      month := now;
      rotated := true;
    }

    method Increment(user: nat, now: Month) returns (count: int, old_: CountTable?, oldMonth: Month)
      requires Valid()
      modifies this, counts
      ensures Valid() && Value() == Counted(Rotated(old(Value()), now), user)
      ensures month == now && user in counts.m && counts.m[user] == count
      ensures count == 1 + if old(month) == now && user in old(counts.m) then old(counts.m)[user] else 0
      ensures forall u :: u != user ==>
                && (u in counts.m <==> old(month) == now && u in old(counts.m))
                && (u in counts.m ==> counts.m[u] == old(counts.m)[u])
      ensures if old(month) == now then old_ == null
              else old_ != null && old_.m == old(counts.m) && oldMonth == old(month)
      ensures HandedOut(old(Value()), now) == if old_ == null then None else Some(Job(oldMonth, old_.m))
      ensures old_ == null || old_ == old(counts)
      ensures past == old(past) + if old_ == null then [] else [old(counts)]
      ensures forall t :: t in past ==> t.m == old(t.m)
    {
      var rotated;
      old_, oldMonth, rotated := CheckAndRotate(now);
      counts.m := counts.m[user := Get(counts.m, user) + 1];
      count := Get(counts.m, user);
    }

    method TryIncrement(user: nat, max: int, now: Month) returns (ok: bool, old_: CountTable?, oldMonth: Month)
      requires Valid()
      modifies this, counts
      ensures Valid() && ok == !Full(Rotated(old(Value()), now), user, max)
      ensures Value() == var q := Rotated(old(Value()), now); if ok then Counted(q, user) else q
      ensures var before := if old(month) == now && user in old(counts.m) then old(counts.m)[user] else 0;
              && month == now && (ok <==> max < 0 || before < max)
              && (if user in counts.m then counts.m[user] else 0) == before + if ok then 1 else 0
      ensures forall u :: u != user ==>
                && (u in counts.m <==> old(month) == now && u in old(counts.m))
                && (u in counts.m ==> counts.m[u] == old(counts.m)[u])
      ensures if old(month) == now then old_ == null
              else old_ != null && old_.m == old(counts.m) && oldMonth == old(month)
      ensures HandedOut(old(Value()), now) == if old_ == null then None else Some(Job(oldMonth, old_.m))
      ensures past == old(past) + if old_ == null then [] else [old(counts)]
      ensures forall t :: t in past ==> t.m == old(t.m)
    {
      var rotated;
      old_, oldMonth, rotated := CheckAndRotate(now);
      if max >= 0 && Get(counts.m, user) >= max {
        return false, old_, oldMonth;
      }
      counts.m := counts.m[user := Get(counts.m, user) + 1];
      ok := true;
    }

    /** Copies the counts; the lock is held for the copy only. */
    method Snapshot() returns (job: Job)
      ensures job == Job(month, counts.m)
    {
      var snapshot: map<nat, int> := map[];
      var todo := counts.m.Keys;
      while todo != {}
        invariant todo <= counts.m.Keys
        invariant snapshot == map k | k in counts.m.Keys - todo :: counts.m[k]
        decreases |todo|
      {
        var k :| k in todo;
        snapshot := snapshot[k := counts.m[k]];
        todo := todo - {k};
      }
      job := Job(month, snapshot);
    }

    /** Sets the stored count of every user of the job, in any order, and nothing else. */
    method FlushSnapshot(job: Job, db: Store)
      modifies db
      ensures db.rows == Written(old(db.rows), job)
      ensures forall k ::
        && (k in db.rows <==> k in old(db.rows) || (k.month == job.month && k.user in job.rows))
        && (k in db.rows ==>
              db.rows[k] == if k.month == job.month && k.user in job.rows then job.rows[k.user] else old(db.rows)[k])
    {
      hide Written;
      var todo := job.rows.Keys;
      WrittenNone(db.rows, Part(job, job.rows.Keys - todo));
      while todo != {}
        invariant todo <= job.rows.Keys
        invariant db.rows == Written(old(db.rows), Part(job, job.rows.Keys - todo))
        decreases |todo|
      {
        var user :| user in todo;
        WrittenNext(old(db.rows), job, job.rows.Keys - todo, user);
        assert job.rows.Keys - (todo - {user}) == job.rows.Keys - todo + {user};
        var k := RowKey(user, job.month);
        var existing := db.Find(k);
        if existing.Some? {
          db.Update(k, job.rows[user]);
        } else {
          db.Create(k, job.rows[user]);
        }
        todo := todo - {user};
      }
      assert Part(job, job.rows.Keys - todo) == job;
      WrittenMeans(old(db.rows), job);
    }

    method Flush(now: Month, db: Store)
      requires Valid()
      modifies this, db
      ensures Valid() && Value() == Rotated(old(Value()), now)
      ensures var handed := HandedOut(old(Value()), now);
              db.rows == Written(if handed.None? then old(db.rows) else Written(old(db.rows), handed.value),
                                 Job(month, counts.m))
      ensures month == now && (if old(month) == now then counts.m == old(counts.m) else counts.m == map[])
      ensures forall k: RowKey ::
        var last := k.month == old(month) && k.user in old(counts.m);
        && (k in db.rows <==> k in old(db.rows) || last)
        && (k in db.rows ==> db.rows[k] == if last then old(counts.m)[k.user] else old(db.rows)[k])
    {
      var old_, oldMonth, rotated := CheckAndRotate(now);
      if rotated {
        FlushSnapshot(Job(oldMonth, old_.m), db);
      }
      var job := Snapshot();
      FlushSnapshot(job, db);
    }
  }

  function Start(rows: map<RowKey, int>, now: Month, readable: bool): Memory {
    Memory(if readable then map k | k in rows && k.month == now :: k.user := rows[k] else map[], now)
  }
}
