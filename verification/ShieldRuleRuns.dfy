/** Every interleaving of listings, changes and evictions under the read/write lock. */
module ShieldRuleRuns {
  import opened Common
  import opened ShieldRules

  /** A listing between RLock and RUnlock. */
  datatype Reader =
    | Started(slot: Slot)
    | Missed(slot: Slot)
    | Fetched(slot: Slot, rules: seq<Rule>)
    | Answered(slot: Slot, rules: seq<Rule>)
    | Failed(slot: Slot)

  /** A change between Lock and Unlock. */
  datatype Writer =
    | Locked(change: Change)
    | Written(change: Change)
    | Invalidated(change: Change)
    | Refused(change: Change)

  datatype State = State(
    store: Store,
    caches: map<Slot, seq<Rule>>,
    readers: map<nat, Reader>,
    writer: Option<Writer>
  )

  datatype Action =
    | RLock(id: nat, slot: Slot)
    | Get(id: nat)
    | Query(id: nat, ok: bool)     // ok is false for a database error
    | Fill(id: nat)
    | RUnlock(id: nat)
    | Lock(change: Change)
    | Write(ok: bool)              // ok is false for a database error, which leaves the store as it is
    | Invalidate
    | Unlock
    | Evict(slot: Slot)

  function Init(store: Store): State {
    State(store, map[], map[], None)
  }

  predicate Enabled(s: State, a: Action) {
    match a
    case RLock(id, _) => id !in s.readers && s.writer.None?
    case Get(id) => id in s.readers && s.readers[id].Started?
    case Query(id, _) => id in s.readers && s.readers[id].Missed?
    case Fill(id) => id in s.readers && s.readers[id].Fetched?
    case RUnlock(id) => id in s.readers && (s.readers[id].Answered? || s.readers[id].Failed?)
    case Lock(_) => s.readers == map[] && s.writer.None?
    case Write(_) => s.writer.Some? && s.writer.value.Locked?
    case Invalidate => s.writer.Some? && s.writer.value.Written?
    case Unlock => s.writer.Some? && (s.writer.value.Invalidated? || s.writer.value.Refused?)
    case Evict(slot) => slot in s.caches
  }

  function Apply(s: State, a: Action): State
    requires Enabled(s, a)
  {
    match a
    case RLock(id, slot) => s.(readers := s.readers[id := Started(slot)])
    case Get(id) =>
      var slot := s.readers[id].slot;
      s.(readers := s.readers[id := if slot in s.caches then Answered(slot, s.caches[slot]) else Missed(slot)])
    case Query(id, ok) =>
      var slot := s.readers[id].slot;
      s.(readers := s.readers[id := if ok then Fetched(slot, Stored(s.store, slot)) else Failed(slot)])
    case Fill(id) =>
      var r := s.readers[id];
      s.(caches := s.caches[r.slot := r.rules], readers := s.readers[id := Answered(r.slot, r.rules)])
    case RUnlock(id) => s.(readers := s.readers - {id})
    case Lock(change) => s.(writer := Some(Locked(change)))
    case Write(ok) =>
      var c := s.writer.value.change;
      if ok && Succeeds(s.store, c) then s.(store := Changed(s.store, c), writer := Some(Written(c)))
      else s.(writer := Some(Refused(c)))
    case Invalidate =>
      var c := s.writer.value.change;
      s.(caches := s.caches - {Target(c)}, writer := Some(Invalidated(c)))
    case Unlock => s.(writer := None)
    case Evict(slot) => s.(caches := s.caches - {slot})
  }

  ghost function Run(store: Store, acts: seq<Action>): Option<State> {
    if acts == [] then Some(Init(store))
    else
      var before := Run(store, acts[..|acts| - 1]);
      if before.Some? && Enabled(before.value, Last(acts)) then Some(Apply(before.value, Last(acts))) else None
  }

  /** The change has been stored and its cache entry not yet removed. */
  predicate Between(s: State, slot: Slot) {
    s.writer.Some? && s.writer.value.Written? && Target(s.writer.value.change) == slot
  }

  predicate ReaderOk(s: State, r: Reader) {
    r.Fetched? || r.Answered? ==> r.rules == Stored(s.store, r.slot)
  }

  predicate Inv(s: State) {
    && UniqueIds(s.store)
    && (s.writer.Some? ==> s.readers == map[])
    && (forall id :: id in s.readers ==> ReaderOk(s, s.readers[id]))
    && forall slot :: slot in s.caches && !Between(s, slot) ==> s.caches[slot] == Stored(s.store, slot)
  }

  lemma WriteKeeps(s: State, ok: bool)
    requires Inv(s) && Enabled(s, Write(ok))
    ensures Inv(Apply(s, Write(ok)))
  {
    var c := s.writer.value.change;
    ChangeKeepsIds(s.store, c);
    forall slot | slot != Target(c) ensures Stored(Changed(s.store, c), slot) == Stored(s.store, slot) {
      OthersUnchanged(s.store, c, slot);
    }
  }

  lemma OtherKeeps(s: State, a: Action)
    requires Inv(s) && Enabled(s, a) && !a.Write?
    ensures Inv(Apply(s, a))
  {
    var t := Apply(s, a);
    forall id | id in t.readers ensures ReaderOk(t, t.readers[id]) {
      if id in s.readers {
        assert ReaderOk(s, s.readers[id]);
      }
    }
    if a.Fill? {
      assert ReaderOk(s, s.readers[a.id]);
    }
  }

  lemma {:induction false} Reachable(store: Store, acts: seq<Action>)
    requires UniqueIds(store) && Run(store, acts).Some?
    ensures Inv(Run(store, acts).value)
    decreases |acts|
  {
    if acts != [] {
      Reachable(store, acts[..|acts| - 1]);
      var s := Run(store, acts[..|acts| - 1]).value;
      if Last(acts).Write? {
        WriteKeeps(s, Last(acts).ok);
      } else {
        OtherKeeps(s, Last(acts));
      }
    }
  }

  /** Whenever no change holds the lock, every cached list is the stored one. */
  lemma CachesCoherent(store: Store, acts: seq<Action>, slot: Slot)
    requires UniqueIds(store) && Run(store, acts).Some?
    requires var s := Run(store, acts).value; s.writer.None? && slot in s.caches
    ensures var s := Run(store, acts).value; s.caches[slot] == Stored(s.store, slot)
  {
    Reachable(store, acts);
  }

  /** A listing that returns rules returns exactly the rules its site has at that moment: those of all
      changes that have returned, and of no removed rule. */
  lemma ListIsCurrent(store: Store, acts: seq<Action>, id: nat, r: Rule)
    requires UniqueIds(store) && Run(store, acts).Some?
    requires var s := Run(store, acts).value; id in s.readers && s.readers[id].Answered?
    ensures var s := Run(store, acts).value;
            var slot := s.readers[id].slot;
            && s.readers[id].rules == Stored(s.store, slot)
            && (r in s.readers[id].rules <==> r in All(s.store, slot.kind) && r.site == slot.site)
  {
    Reachable(store, acts);
    var s := Run(store, acts).value;
    assert ReaderOk(s, s.readers[id]);
    RulesOfIs(All(s.store, s.readers[id].slot.kind), s.readers[id].slot.site, r);
  }

  /** The change that the action `a` makes to the store. */
  function Effect(s: State, a: Action): seq<Change>
    requires Enabled(s, a)
  {
    if a == Write(true) && Succeeds(s.store, s.writer.value.change) then [s.writer.value.change] else []
  }

  /** The changes whose write took effect, in order. */
  ghost function Made(store: Store, acts: seq<Action>): seq<Change>
    requires Run(store, acts).Some?
    decreases |acts|
  {
    if acts == [] then []
    else Made(store, acts[..|acts| - 1]) + Effect(Run(store, acts[..|acts| - 1]).value, Last(acts))
  }

  function ChangedBy(store: Store, changes: seq<Change>): Store {
    if changes == [] then store else Changed(ChangedBy(store, changes[..|changes| - 1]), Last(changes))
  }

  lemma ChangedByNext(store: Store, changes: seq<Change>, s: State, a: Action)
    requires Enabled(s, a) && s.store == ChangedBy(store, changes)
    ensures Apply(s, a).store == ChangedBy(store, changes + Effect(s, a))
  {
    if Effect(s, a) != [] {
      assert (changes + Effect(s, a))[..|changes|] == changes;
    } else {
      assert changes + [] == changes;
    }
  }

  /** Interleaving does not matter: the store is what the changes make of it one after the other. */
  lemma {:induction false} StoreIsSerial(store: Store, acts: seq<Action>)
    requires Run(store, acts).Some?
    ensures Run(store, acts).value.store == ChangedBy(store, Made(store, acts))
    decreases |acts|
  {
    if acts != [] {
      StoreIsSerial(store, acts[..|acts| - 1]);
      ChangedByNext(store, Made(store, acts[..|acts| - 1]), Run(store, acts[..|acts| - 1]).value, Last(acts));
    }
  }
}
