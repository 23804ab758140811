/** internal/service/sites.go: the shield rules of a site are read through caches, and one read/write
    lock serialises changes of the rules against fills of the caches. */
module ShieldRules {
  datatype Kind = Ip | Hostname | Country | Referrer

  /** `subject` is the address, pattern, country or host the rule is about. */
  datatype Rule = Rule(id: nat, site: nat, subject: string, action: string)

  /** Per kind, the stored rules, newest first. */
  type Store = map<Kind, seq<Rule>>

  /** One cache per kind, one entry per site. */
  datatype Slot = Slot(kind: Kind, site: nat)

  function RulesOf(rules: seq<Rule>, site: nat): seq<Rule> {
    if rules == [] then []
    else if rules[0].site == site then [rules[0]] + RulesOf(rules[1..], site)
    else RulesOf(rules[1..], site)
  }

  function Less(rules: seq<Rule>, id: nat): seq<Rule> {
    if rules == [] then []
    else if rules[0].id == id then rules[1..]
    else [rules[0]] + Less(rules[1..], id)
  }

  function All(store: Store, kind: Kind): seq<Rule> {
    if kind in store then store[kind] else []
  }

  /** The rules of the slot's kind and site, as the database would list them. */
  function Stored(store: Store, slot: Slot): seq<Rule> {
    RulesOf(All(store, slot.kind), slot.site)
  }

  /** The unique indexes: a site has one rule per address, pattern or country, but may have several
      for one referrer host. */
  predicate Taken(rules: seq<Rule>, kind: Kind, r: Rule) {
    exists i :: 0 <= i < |rules| &&
      (rules[i].id == r.id || (!kind.Referrer? && rules[i].site == r.site && rules[i].subject == r.subject))
  }

  /** Whether a rule passes the checks made before it is stored; `checked` is the outcome of ParseInet
      for an address and of looking up the acting user for a country. */
  predicate WellFormed(kind: Kind, r: Rule, checked: bool) {
    match kind
    case Ip => checked
    case Country => checked
    case Referrer => r.subject != "" && (r.action == "allow" || r.action == "deny")
    case _ => true
  }

  predicate Owned(store: Store, slot: Slot, id: nat) {
    var all := All(store, slot.kind);
    exists i :: 0 <= i < |all| && all[i].id == id && all[i].site == slot.site
  }

  datatype Change = Add(kind: Kind, rule: Rule, checked: bool) | Remove(slot: Slot, id: nat)

  function Target(c: Change): Slot {
    match c
    case Add(kind, rule, _) => Slot(kind, rule.site)
    case Remove(slot, _) => slot
  }

  /** Whether the change is made: a rule is added unless it is malformed or taken, and removed if the
      site owns a rule with that id. */
  predicate Succeeds(store: Store, c: Change) {
    match c
    case Add(kind, rule, checked) => WellFormed(kind, rule, checked) && !Taken(All(store, kind), kind, rule)
    case Remove(slot, id) => Owned(store, slot, id)
  }

  function Changed(store: Store, c: Change): Store {
    if !Succeeds(store, c) then store
    else match c
      case Add(kind, rule, _) => store[kind := [rule] + All(store, kind)]
      case Remove(slot, id) => store[slot.kind := Less(All(store, slot.kind), id)]
  }

  predicate Ids(rules: seq<Rule>) {
    forall i, j :: 0 <= i < j < |rules| ==> rules[i].id != rules[j].id
  }

  predicate UniqueIds(store: Store) {
    forall kind :: kind in store ==> Ids(store[kind])
  }

  lemma {:induction false} LessIs(rules: seq<Rule>, id: nat, r: Rule)
    requires Ids(rules)
    ensures r in Less(rules, id) <==> r in rules && r.id != id
  {
    if rules != [] {
      var rest := rules[1..];
      assert rules == [rules[0]] + rest;
      LessIs(rest, id, r);
      if rules[0].id == id && r in rest {
        var k :| 0 <= k < |rest| && rest[k] == r;
        assert rules[k + 1] == r;
      }
    }
  }

  lemma {:induction false} LessIds(rules: seq<Rule>, id: nat)
    requires Ids(rules)
    ensures Ids(Less(rules, id))
  {
    if rules != [] && rules[0].id != id {
      var rest := rules[1..];
      LessIds(rest, id);
      var w := Less(rest, id);
      forall j | 0 <= j < |w| ensures w[j].id != rules[0].id {
        LessIs(rest, id, w[j]);
        assert w[j] in rest;
        var k :| 0 <= k < |rest| && rest[k] == w[j];
        assert rules[k + 1] == w[j];
      }
    }
  }

  lemma {:induction false} LessElsewhere(rules: seq<Rule>, id: nat, site: nat)
    requires forall r :: r in rules && r.id == id ==> r.site != site
    ensures RulesOf(Less(rules, id), site) == RulesOf(rules, site)
  {
    if rules != [] && rules[0].id != id {
      var rest := rules[1..];
      LessElsewhere(rest, id, site);
      assert ([rules[0]] + Less(rest, id))[1..] == Less(rest, id);
    }
  }

  /** A change touches no list but its target's. */
  lemma OthersUnchanged(store: Store, c: Change, slot: Slot)
    requires UniqueIds(store) && slot != Target(c)
    ensures Stored(Changed(store, c), slot) == Stored(store, slot)
  {
    if Succeeds(store, c) && slot.kind == Target(c).kind {
      var all := All(store, slot.kind);
      match c {
        case Add(_, rule, _) =>
          assert ([rule] + all)[1..] == all;
        case Remove(target, id) =>
          var i :| 0 <= i < |all| && all[i].id == id && all[i].site == target.site;
          forall r | r in all && r.id == id ensures r.site != slot.site {
            var j :| 0 <= j < |all| && all[j] == r;
            assert j == i;
          }
          LessElsewhere(all, id, slot.site);
      }
    }
  }

  lemma ChangeKeepsIds(store: Store, c: Change)
    requires UniqueIds(store)
    ensures UniqueIds(Changed(store, c))
  {
    if Succeeds(store, c) {
      var all := All(store, Target(c).kind);
      assert Ids(all);
      match c {
        case Add(_, rule, _) =>
          var next := [rule] + all;
          forall i, j | 0 <= i < j < |next| ensures next[i].id != next[j].id {
            assert next[j] == all[j - 1];
          }
        case Remove(_, id) => LessIds(all, id);
      }
    }
  }

  /** The list of a site holds exactly its stored rules. */
  lemma {:induction false} RulesOfIs(rules: seq<Rule>, site: nat, r: Rule)
    ensures r in RulesOf(rules, site) <==> r in rules && r.site == site
  {
    if rules != [] {
      assert rules == [rules[0]] + rules[1..];
      RulesOfIs(rules[1..], site, r);
    }
  }

  /** Listing keeps the rules of the site, in their order. */
  lemma {:induction false} RulesOfFilters(r: Rule, rules: seq<Rule>, more: seq<Rule>, site: nat)
    ensures RulesOf([r], site) == if r.site == site then [r] else []
    ensures RulesOf(rules + more, site) == RulesOf(rules, site) + RulesOf(more, site)
    decreases |rules|
  {
    if rules == [] {
      assert rules + more == more;
    } else {
      RulesOfFilters(r, rules[1..], more, site);
      assert (rules + more)[1..] == rules[1..] + more;
    }
  }

  /** Removal takes out the rule with the id and moves no other. */
  lemma {:induction false} LessAt(rules: seq<Rule>, id: nat, i: nat)
    requires Ids(rules) && i < |rules| && rules[i].id == id
    ensures Less(rules, id) == rules[..i] + rules[i + 1..]
  {
    if i > 0 {
      assert rules[0].id != id;
      LessAt(rules[1..], id, i - 1);
    }
  }

  // ---- The code, one call at a time --------------------------------------------------

  class SiteService {
    var store: Store
    var caches: map<Slot, seq<Rule>>

    constructor (store: Store)
      requires UniqueIds(store)
      ensures Valid() && this.store == store
    {
      this.store, caches := store, map[];
    }

    ghost predicate Valid()
      reads this
    {
      UniqueIds(store) && forall slot :: slot in caches ==> caches[slot] == Stored(store, slot)
    }

    /** ListShieldRule*: the stored rules, cached or not. */
    method List(slot: Slot) returns (rules: seq<Rule>)
      requires Valid()
      modifies this`caches
      ensures Valid() && rules == Stored(store, slot) && slot in caches
      ensures forall r :: r in rules <==> slot.kind in store && r in store[slot.kind] && r.site == slot.site
    {
      forall r ensures r in Stored(store, slot) <==> r in All(store, slot.kind) && r.site == slot.site {
        RulesOfIs(All(store, slot.kind), slot.site, r);
      }
      if slot in caches {
        return caches[slot];
      }
      rules := RulesOf(All(store, slot.kind), slot.site);
      caches := caches[slot := rules];
    }

    /** AddShieldRule*. */
    method AddRule(kind: Kind, rule: Rule, checked: bool) returns (ok: bool)
      requires Valid()
      modifies this
      ensures Valid() && ok == Succeeds(old(store), Add(kind, rule, checked))
      ensures store == Changed(old(store), Add(kind, rule, checked))
      ensures ok <==>
                && (kind.Ip? || kind.Country? ==> checked)
                && (kind.Referrer? ==> rule.subject != "" && (rule.action == "allow" || rule.action == "deny"))
                && (kind in old(store) ==>
                      forall r :: r in old(store)[kind] ==>
                        r.id != rule.id && (kind.Referrer? || r.site != rule.site || r.subject != rule.subject))
      ensures store == if !ok then old(store)
                       else old(store)[kind := [rule] + if kind in old(store) then old(store)[kind] else []]
      ensures ok ==> Stored(store, Slot(kind, rule.site)) == [rule] + Stored(old(store), Slot(kind, rule.site))
    {
      ghost var c := Add(kind, rule, checked);
      if (kind.Ip? || kind.Country?) && !checked {
        return false;
      }
      if kind.Referrer? && (rule.subject == "" || (rule.action != "allow" && rule.action != "deny")) {
        return false;
      }
      if Taken(All(store, kind), kind, rule) {
        return false;
      }
      ChangeKeepsIds(store, c);
      forall slot | slot != Target(c) ensures Stored(Changed(store, c), slot) == Stored(store, slot) {
        OthersUnchanged(store, c, slot);
      }
      assert ([rule] + All(store, kind))[1..] == All(store, kind);
      store := store[kind := [rule] + All(store, kind)];
      caches := caches - {Slot(kind, rule.site)};
      ok := true;
    }

    /** RemoveShieldRule*. */
    method RemoveRule(slot: Slot, id: nat) returns (ok: bool)
      requires Valid()
      modifies this
      ensures Valid() && ok == Succeeds(old(store), Remove(slot, id))
      ensures store == Changed(old(store), Remove(slot, id))
      ensures ok <==>
                slot.kind in old(store) && exists r :: r in old(store)[slot.kind] && r.id == id && r.site == slot.site
      ensures !ok ==> store == old(store)
      ensures ok ==> exists i: nat ::
                && i < |old(store)[slot.kind]| && old(store)[slot.kind][i].id == id
                && store == old(store)[slot.kind := old(store)[slot.kind][..i] + old(store)[slot.kind][i + 1..]]
      ensures forall r :: r in Stored(store, slot) <==> r in Stored(old(store), slot) && r.id != id
    {
      ghost var c := Remove(slot, id);
      ChangeKeepsIds(store, c);
      forall other | other != slot ensures Stored(Changed(store, c), other) == Stored(store, other) {
        OthersUnchanged(store, c, other);
      }
      RemoveIs(store, slot, id);
      if !Owned(store, slot, id) {
        return false;
      }
      ghost var all := All(store, slot.kind);
      ghost var i :| 0 <= i < |all| && all[i].id == id && all[i].site == slot.site;
      assert all[i] in all && slot.kind in store;
      LessAt(all, id, i);
      store := store[slot.kind := Less(All(store, slot.kind), id)];
      caches := caches - {slot};
      ok := true;
    }

    /** The LRU drops an entry, or its five minutes are over. */
    method Evict(slot: Slot)
      requires Valid()
      modifies this`caches
      ensures Valid() && caches == old(caches) - {slot}
    {
      caches := caches - {slot};
    }
  }

  lemma NotOwned(store: Store, slot: Slot, id: nat, r: Rule)
    requires !Owned(store, slot, id) && r in All(store, slot.kind) && r.site == slot.site
    ensures r.id != id
  {
    var all := All(store, slot.kind);
    var i :| 0 <= i < |all| && all[i] == r;
    assert all[i].site == slot.site;
  }

  lemma RemoveIs(store: Store, slot: Slot, id: nat)
    requires UniqueIds(store)
    ensures forall r :: r in Stored(Changed(store, Remove(slot, id)), slot) <==> r in Stored(store, slot) && r.id != id
  {
    var all := All(store, slot.kind);
    var next := All(Changed(store, Remove(slot, id)), slot.kind);
    assert Ids(all);
    forall r ensures r in RulesOf(next, slot.site) <==> r in RulesOf(all, slot.site) && r.id != id {
      LessIs(all, id, r);
      if !Owned(store, slot, id) && r in all && r.site == slot.site {
        NotOwned(store, slot, id, r);
      }
      RulesOfIs(all, slot.site, r);
      RulesOfIs(next, slot.site, r);
    }
  }
}
