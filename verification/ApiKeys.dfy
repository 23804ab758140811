/** internal/service/apikey.go and UpdateUserStatus of internal/service/users.go: API keys are checked
    against the database through a cache. Calls here run one after the other. */
module ApiKeys {
  import opened Common

  const TTL := 600_000_000_000   // apiKeyCacheTTL, ten minutes in nanoseconds

  datatype Key = Key(id: nat, user: nat, expires: Option<int>, lastUsed: Option<int>)

  datatype Answer = User(id: nat) | Invalid | Expired | Suspended

  type Hash = string

  function IsSuspended(statuses: map<nat, string>, user: nat): bool {
    user in statuses && statuses[user] == "suspended"   // no configuration counts as active
  }

  predicate After(now: int, expires: Option<int>) {
    expires.Some? && now > expires.value
  }

  /** The answer without a cache. */
  function Lookup(keys: map<Hash, Key>, statuses: map<nat, string>, h: Hash, now: int): Answer {
    if h !in keys then Invalid
    else if After(now, keys[h].expires) then Expired
    else if IsSuspended(statuses, keys[h].user) then Suspended
    else User(keys[h].user)
  }

  predicate UniqueIds(keys: map<Hash, Key>) {
    forall h, g :: h in keys && g in keys && keys[h].id == keys[g].id ==> h == g
  }

  function Touched(keys: map<Hash, Key>, id: nat, t: int): map<Hash, Key> {
    map h | h in keys :: if keys[h].id == id then keys[h].(lastUsed := Some(t)) else keys[h]
  }

  function Flushed(keys: map<Hash, Key>, batch: seq<(nat, int)>): (r: map<Hash, Key>)
    ensures r.Keys == keys.Keys
  {
    if batch == [] then keys else Touched(Flushed(keys, batch[..|batch| - 1]), Last(batch).0, Last(batch).1)
  }

  function WithUse(batch: seq<(nat, int)>, id: nat, use: Option<int>): seq<(nat, int)> {
    if use.None? then batch else batch + [(id, use.value)]
  }

  class Database {
    var keys: map<Hash, Key>           // by key_hash, which is unique
    var statuses: map<nat, string>     // of the users that have a configuration

    method UpdateLastUsed(id: nat, t: int)
      modifies this`keys
      ensures keys == Touched(old(keys), id, t)
    {
      keys := map h | h in keys :: if keys[h].id == id then keys[h].(lastUsed := Some(t)) else keys[h];
    }
  }

  class Entry {
    const keyId: nat
    const userId: nat
    const suspended: bool
    const expiresAt: Option<int>
    const cachedAt: int
    var lastUsedAt: int
    var dirty: bool

    constructor (keyId: nat, userId: nat, suspended: bool, expiresAt: Option<int>, cachedAt: int)
      ensures this.keyId == keyId && this.userId == userId && this.suspended == suspended
      ensures this.expiresAt == expiresAt && this.cachedAt == cachedAt
    {
      this.keyId, this.userId, this.suspended := keyId, userId, suspended;
      this.expiresAt, this.cachedAt := expiresAt, cachedAt;
      lastUsedAt, dirty := 0, false;
    }

    predicate CacheExpired(now: int) {
      now > cachedAt + TTL
    }

    method Touch(now: int)
      modifies this
      ensures lastUsedAt == now && dirty
    {
      lastUsedAt, dirty := now, true;
    }
  }

  class Service {
    const db: Database
    var cache: map<Hash, Entry>

    constructor (db: Database)
      requires UniqueIds(db.keys)
      ensures this.db == db && Valid() && cache == map[]
    {
      this.db := db;
      cache := map[];
    }

    /** Every entry says what the database says. */
    ghost predicate Valid()
      reads this, db
    {
      && UniqueIds(db.keys)
      && (forall h, g :: h in cache && g in cache && cache[h] == cache[g] ==> h == g)
      && forall h :: h in cache ==> h in db.keys && Agrees(cache[h], db.keys[h], db.statuses)
    }

    static predicate Agrees(e: Entry, k: Key, statuses: map<nat, string>) {
      && e.keyId == k.id && e.userId == k.user && e.expiresAt == k.expires
      && e.suspended == IsSuspended(statuses, k.user)
    }

    /** With the cache the answer is the one the database alone would give. */
    method Validate(h: Hash, now: int) returns (a: Answer)
      requires Valid()
      modifies this`cache, cache.Values
      ensures Valid() && a == Lookup(db.keys, db.statuses, h, now)
      ensures a.Invalid? <==> h !in db.keys
      ensures h in db.keys ==>
                var k := db.keys[h];
                && (a.Expired? <==> k.expires.Some? && now > k.expires.value)
                && (a.Suspended? || a.User? <==> (k.expires.Some? ==> now <= k.expires.value))
                && (a.Suspended? ==> k.user in db.statuses && db.statuses[k.user] == "suspended")
                && (a.User? ==> a.id == k.user && (k.user in db.statuses ==> db.statuses[k.user] != "suspended"))
      ensures a.User? ==> h in cache && cache[h].dirty && cache[h].lastUsedAt == now
      ensures forall g :: g != h ==> (g in cache <==> g in old(cache)) && (g in cache ==> cache[g] == old(cache[g]))
      ensures forall e :: e in old(cache.Values) && e !in cache.Values ==>
                now > e.cachedAt + 600_000_000_000 || a.Expired?
    {
      if h in cache {
        var entry := cache[h];
        if !entry.CacheExpired(now) {
          if entry.expiresAt.Some? && now > entry.expiresAt.value {
            cache := cache - {h};
            return Expired;
          }
          if entry.suspended {
            return Suspended;
          }
          entry.Touch(now);
          return User(entry.userId);
        }
        cache := cache - {h};
      }
      if h !in db.keys {
        return Invalid;
      }
      var key := db.keys[h];
      if After(now, key.expires) {
        return Expired;
      }
      var suspended := IsSuspended(db.statuses, key.user);
      var entry := new Entry(key.id, key.user, suspended, key.expires, now);
      entry.Touch(now);
      cache := cache[h := entry];
      a := if suspended then Suspended else User(key.user);
    }

    /** A random key whose hash is taken is refused by the database. */
    method Create(user: nat, h: Hash, id: nat, expires: Option<int>) returns (ok: bool)
      requires Valid() && forall g :: g in db.keys ==> db.keys[g].id != id
      modifies db`keys
      ensures Valid() && ok == (h !in old(db.keys))
      ensures db.keys == if ok then old(db.keys)[h := Key(id, user, expires, None)] else old(db.keys)
    {
      ok := h !in db.keys;
      if ok {
        db.keys := db.keys[h := Key(id, user, expires, None)];
      }
    }

    method Delete(user: nat, id: nat) returns (found: bool)
      requires Valid()
      modifies this`cache, db`keys
      ensures Valid()
      ensures found <==> exists h :: h in old(db.keys) && old(db.keys)[h].id == id && old(db.keys)[h].user == user
      ensures found ==> forall h :: h in db.keys <==> h in old(db.keys) && old(db.keys)[h].id != id
      ensures !found ==> db.keys == old(db.keys) && cache == old(cache)
      ensures forall h :: h in db.keys ==> db.keys[h] == old(db.keys)[h]
      ensures forall h :: h in cache <==> h in old(cache) && h in db.keys
    {
      if h :| h in db.keys && db.keys[h].id == id && db.keys[h].user == user {
        db.keys := db.keys - {h};
        cache := cache - {h};
        found := true;
      } else {
        found := false;
      }
    }

    /** Fails for a user without a configuration. */
    method UpdateUserStatus(user: nat, status: string) returns (ok: bool)
      requires Valid()
      modifies this`cache, db`statuses
      ensures Valid() && ok == (user in old(db.statuses))
      ensures db.statuses == if ok then old(db.statuses)[user := status] else old(db.statuses)
      ensures forall h :: h in cache <==> h in old(cache) && (ok ==> old(cache)[h].userId != user)
    {
      if user !in db.statuses {
        return false;
      }
      db.statuses := db.statuses[user := status];
      InvalidateUser(user);
      ok := true;
    }

    method InvalidateUser(user: nat)
      modifies this`cache
      ensures cache == map h | h in old(cache) && old(cache)[h].userId != user :: old(cache)[h]
    {
      var todo := cache.Keys;
      while todo != {}
        invariant todo <= old(cache).Keys
        invariant cache == map h | h in old(cache) && (h in todo || old(cache)[h].userId != user) :: old(cache)[h]
        decreases |todo|
      {
        var h :| h in todo;
        if h in cache && cache[h].userId == user {
          cache := cache - {h};
        }
        todo := todo - {h};
      }
    }

    /** The dirty marks are those of `was`, except that the entries in `done` have been visited. */
    ghost predicate Marked(was: map<Hash, Option<int>>, done: set<Hash>)
      reads this, cache.Values
    {
      cache.Keys == was.Keys && forall h :: h in cache ==>
        && (cache[h].dirty <==> h !in done && was[h].Some?)
        && (was[h].Some? ==> was[h].value == cache[h].lastUsedAt)
    }

    /** One visit of the Range over the cache: a dirty entry is marked clean and put on the batch, a
        clean one that is too old is to be dropped. */
    method Visit(h: Hash, now: int, batch: seq<(nat, int)>, ghost was: map<Hash, Option<int>>, ghost done: set<Hash>)
      returns (batch': seq<(nat, int)>, drop: bool)
      requires Valid() && Marked(was, done) && h in cache && h !in done
      requires IsSaved(Flushed(db.keys, batch), db.keys, was, done)
      modifies cache[h]
      ensures Marked(was, done + {h})
      ensures IsSaved(Flushed(db.keys, batch'), db.keys, was, done + {h})
      ensures drop == (was[h].None? && cache[h].CacheExpired(now))
    {
      var entry := cache[h];
      batch', drop := batch, false;
      if entry.dirty {
        batch' := batch + [(entry.keyId, entry.lastUsedAt)];
        entry.dirty := false;
      } else if entry.CacheExpired(now) {
        drop := true;
      }
      SavedNext(db.keys, was, done, h, batch, batch');
    }

    method Collect(now: int, ghost was: map<Hash, Option<int>>) returns (batch: seq<(nat, int)>, evict: set<Hash>)
      requires Valid() && Marked(was, {})
      modifies cache.Values
      ensures IsSaved(Flushed(db.keys, batch), db.keys, was, cache.Keys)
      ensures forall h :: h in evict <==> h in cache && was[h].None? && cache[h].CacheExpired(now)
      ensures Marked(was, cache.Keys)
    {
      batch, evict := [], {};
      var todo := cache.Keys;
      ghost var done: set<Hash> := {};
      while todo != {}
        invariant forall h :: h in todo <==> h in cache && h !in done
        invariant done <= cache.Keys && Marked(was, done)
        invariant IsSaved(Flushed(db.keys, batch), db.keys, was, done)
        invariant forall h :: h in evict <==> h in done && was[h].None? && cache[h].CacheExpired(now)
        decreases |todo|
      {
        var h :| h in todo;
        var drop;
        batch, drop := Visit(h, now, batch, was, done);
        if drop {
          evict := evict + {h};
        }
        todo, done := todo - {h}, done + {h};
      }
      assert done == cache.Keys;
    }

    /** The loop that writes the batch. */
    method WriteBack(batch: seq<(nat, int)>)
      modifies db`keys
      ensures db.keys == Flushed(old(db.keys), batch)
    {
      var i := 0;
      while i < |batch|
        invariant 0 <= i <= |batch| && db.keys == Flushed(old(db.keys), batch[..i])
      {
        FlushedNext(old(db.keys), batch[..i], batch[i].0, batch[i].1);
        assert batch[..i + 1] == batch[..i] + [batch[i]];
        db.UpdateLastUsed(batch[i].0, batch[i].1);
        i := i + 1;
      }
      assert batch[..i] == batch;
    }

    /** Writes the last use of every dirty entry to its own row, and drops exactly the entries that are
        clean and older than the TTL. */
    method FlushDirty(now: int, ghost was: map<Hash, Option<int>>)
      requires Valid() && Marked(was, {})
      modifies this`cache, cache.Values, db`keys
      ensures Valid() && db.keys.Keys == old(db.keys).Keys
      ensures forall h :: h in db.keys ==>
                db.keys[h] == if h in was && was[h].Some? then old(db.keys)[h].(lastUsed := was[h]) else old(db.keys)[h]
      ensures forall h :: h in cache <==>
                h in old(cache) && (was[h].Some? || now <= old(cache)[h].cachedAt + 600_000_000_000)
      ensures forall h :: h in cache ==> cache[h] == old(cache)[h]
      ensures forall h :: h in cache ==> !cache[h].dirty
    {
      var batch, evict := Collect(now, was);
      cache := cache - evict;
      WriteBack(batch);
    }
  }

  /** `r` is `keys` with the unwritten last uses among `done` filled in, each in its own row. */
  ghost predicate IsSaved(r: map<Hash, Key>, keys: map<Hash, Key>, unwritten: map<Hash, Option<int>>, done: set<Hash>) {
    r.Keys == keys.Keys && forall h :: h in r ==> r[h] == SavedKey(keys[h], h, unwritten, done)
  }

  function SavedKey(k: Key, h: Hash, unwritten: map<Hash, Option<int>>, done: set<Hash>): Key {
    if h in done && h in unwritten && unwritten[h].Some? then k.(lastUsed := unwritten[h]) else k
  }

  lemma SavedNext(keys: map<Hash, Key>, unwritten: map<Hash, Option<int>>, done: set<Hash>, h: Hash,
                  batch: seq<(nat, int)>, batch': seq<(nat, int)>)
    requires UniqueIds(keys) && h in keys && h in unwritten
    requires IsSaved(Flushed(keys, batch), keys, unwritten, done)
    requires batch' == WithUse(batch, keys[h].id, unwritten[h])
    ensures IsSaved(Flushed(keys, batch'), keys, unwritten, done + {h})
  {
    if unwritten[h].Some? {
      FlushedNext(keys, batch, keys[h].id, unwritten[h].value);
      var f := Flushed(keys, batch);
      forall g | g in keys ensures Flushed(keys, batch')[g] == SavedKey(keys[g], g, unwritten, done + {h}) {
        assert f[g].id == keys[g].id;
        assert keys[g].id == keys[h].id ==> g == h;
      }
    }
  }

  lemma FlushedNext(keys: map<Hash, Key>, batch: seq<(nat, int)>, id: nat, t: int)
    ensures Flushed(keys, batch + [(id, t)]) == Touched(Flushed(keys, batch), id, t)
  {
    assert (batch + [(id, t)])[..|batch|] == batch;
  }
}
