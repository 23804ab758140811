/** internal/event/event.go and internal/event/referrer_blocklist.go: whether an event is dropped for
    its referrer. Host names are taken as NormalizeHostname leaves them. */
module Referrer {
  import opened Common

  /** A site's rule, newest first in the list. */
  datatype Rule = Rule(host: string, action: string)

  function TrimPrefix(s: string, prefix: string): string {
    if prefix <= s then s[|prefix|..] else s
  }

  predicate HasSuffix(s: string, suffix: string) {
    |suffix| <= |s| && s[|s| - |suffix|..] == suffix
  }

  function Domain(r: Rule): string {
    TrimPrefix(r.host, "*.")
  }

  /** The host is the domain or one of its subdomains. */
  predicate Under(host: string, domain: string) {
    domain != "" && (host == domain || HasSuffix(host, "." + domain))
  }

  predicate Applies(r: Rule, host: string) {
    (r.action == "allow" || r.action == "deny") && Under(host, Domain(r))
  }

  /** Rule `i` decides: no rule that applies is about a longer domain, and no newer one about a domain
      as long. */
  predicate Decides(rules: seq<Rule>, host: string, i: int) {
    && 0 <= i < |rules| && Applies(rules[i], host)
    && forall j :: 0 <= j < |rules| && Applies(rules[j], host) ==>
         |Domain(rules[j])| <= |Domain(rules[i])| && (j < i ==> |Domain(rules[j])| < |Domain(rules[i])|)
  }

  /** A position where a label of the host starts. */
  predicate LabelStart(host: string, p: int) {
    0 <= p < |host| && (p == 0 || host[p - 1] == '.')
  }

  ghost predicate SomeSuffixIn(host: string, spammers: set<string>) {
    exists p :: LabelStart(host, p) && host[p..] in spammers
  }

  // ---- The code ----------------------------------------------------------------------

  predicate NoneApplies(rules: seq<Rule>, host: string) {
    forall i :: 0 <= i < |rules| ==> !Applies(rules[i], host)
  }

  lemma NextRule(rules: seq<Rule>, r: Rule, host: string, w: int)
    requires NoneApplies(rules, host) || Decides(rules, host, w)
    ensures var all := rules + [r];
            if Applies(r, host) && (NoneApplies(rules, host) || |Domain(r)| > |Domain(rules[w])|)
              then Decides(all, host, |rules|)
            else if NoneApplies(rules, host) then NoneApplies(all, host)
            else Decides(all, host, w)
  {
    var all := rules + [r];
    assert forall j :: 0 <= j < |rules| ==> all[j] == rules[j];
  }

  /** The action of the deciding rule, or "" if there is none. */
  method RuleAction(rules: seq<Rule>, host: string) returns (action: string)
    ensures || (action == "" && NoneApplies(rules, host))
            || (exists i :: Decides(rules, host, i) && action == rules[i].action)
  {
    var best := -1;
    action := "";
    ghost var w := 0;
    var i := 0;
    while i < |rules|
      invariant 0 <= i <= |rules|
      invariant if best == -1 then action == "" && NoneApplies(rules[..i], host)
                else Decides(rules[..i], host, w) && best == |Domain(rules[w])| && action == rules[w].action
    {
      var rule := rules[i];
      NextRule(rules[..i], rule, host, w);
      assert rules[..i + 1] == rules[..i] + [rule];
      if rule.action != "allow" && rule.action != "deny" {
        i := i + 1;
        continue;
      }
      var domain := TrimPrefix(rule.host, "*.");
      if domain != "" && |domain| > best && (host == domain || HasSuffix(host, "." + domain)) {
        best, action := |domain|, rule.action;
        w := i;
      }
      i := i + 1;
    }
    assert rules[..i] == rules;
  }

  function IndexOfDot(s: string): (i: int)
    ensures -1 <= i < |s|
    ensures i == -1 ==> '.' !in s
    ensures i >= 0 ==> s[i] == '.' && forall j :: 0 <= j < i ==> s[j] != '.'
  {
    if s == "" then -1
    else if s[0] == '.' then 0
    else
      var i := IndexOfDot(s[1..]);
      if i < 0 then -1 else i + 1
  }

  /** The walk from label to label; without a list it finds nothing. */
  method IsSpam(host: string, spammers: Option<set<string>>) returns (spam: bool)
    ensures spam == (spammers.Some? && SomeSuffixIn(host, spammers.value))
  {
    if host == "" || spammers.None? {
      return false;
    }
    var rest := host;
    ghost var p := 0;
    while rest != ""
      invariant 0 <= p <= |host| && rest == host[p..] && (rest != "" ==> LabelStart(host, p))
      invariant forall q :: q < p && LabelStart(host, q) ==> host[q..] !in spammers.value
      decreases |rest|
    {
      if rest in spammers.value {
        assert LabelStart(host, p);
        return true;
      }
      var dot := IndexOfDot(rest);
      NextLabel(host, p, dot);
      if dot < 0 {
        break;
      }
      rest := rest[dot + 1..];
      p := p + dot + 1;
    }
    spam := false;
  }

  /** Between a label start and the next dot there is no other label start. */
  lemma NextLabel(host: string, p: nat, dot: int)
    requires p < |host| && dot == IndexOfDot(host[p..])
    ensures forall q :: p < q && LabelStart(host, q) ==> dot >= 0 && p + dot + 1 <= q
    ensures dot >= 0 ==> host[p..][dot + 1..] == host[p + dot + 1..]
  {
    var rest := host[p..];
    forall q | p < q && LabelStart(host, q) ensures dot >= 0 && p + dot + 1 <= q {
      assert rest[q - 1 - p] == '.';
    }
  }

  method Drops(rules: seq<Rule>, host: string, spammers: Option<set<string>>) returns (drop: bool)
    ensures drop <==> Dropped(rules, host, spammers)
  {
    var action := RuleAction(rules, host);
    DecisionIsOne(rules, host);
    if action == "allow" {
      drop := false;
    } else if action == "deny" {
      drop := true;
    } else {
      drop := IsSpam(host, spammers);
      if spammers.Some? {
        SpamIsUnder(host, spammers.value);
      }
    }
  }

  // ---- What it decides ---------------------------------------------------------------

  predicate Listed(host: string, spammers: set<string>) {
    exists d :: d in spammers && Under(host, d)
  }

  /** The newest of the site's most specific rules decides; with no rule for the host, it is dropped
      if it belongs to a listed domain. */
  ghost predicate Dropped(rules: seq<Rule>, host: string, spammers: Option<set<string>>) {
    if exists i :: 0 <= i < |rules| && Applies(rules[i], host)
    then exists i :: Decides(rules, host, i) && rules[i].action == "deny"
    else spammers.Some? && Listed(host, spammers.value)
  }

  /** At most one rule decides. */
  lemma DecisionIsOne(rules: seq<Rule>, host: string)
    ensures forall i, j :: Decides(rules, host, i) && Decides(rules, host, j) ==> i == j
  {
  }

  /** The domains of a host are its suffixes that start at a label. */
  lemma UnderIsLabelSuffix(host: string, domain: string)
    ensures Under(host, domain) <==> exists p :: LabelStart(host, p) && host[p..] == domain
  {
    if Under(host, domain) {
      var p := |host| - |domain|;
      if host != domain {
        var tail := host[p - 1..];
        assert tail == "." + domain;
        assert host[p - 1] == tail[0];
        assert host[p..] == tail[1..] == domain;
      }
      assert LabelStart(host, p) && host[p..] == domain;
    }
    if p :| LabelStart(host, p) && host[p..] == domain {
      if p > 0 {
        assert host[p - 1..] == [host[p - 1]] + host[p..];
        assert |"." + domain| == |host| - (p - 1);
      }
    }
  }

  /** A rule is about a host exactly when it allows or denies, and its host, after one leading "*." if there is one,
      is the host from the start of one of its labels on. */
  lemma AppliesMeans(r: Rule, host: string)
    ensures Applies(r, host) <==>
              && (r.action == "allow" || r.action == "deny")
              && exists p :: 0 <= p < |host| && (p == 0 || host[p - 1] == '.')
                             && (r.host == "*." + host[p..] || (r.host == host[p..] && !("*." <= host[p..])))
    ensures r.host == "*." + Domain(r) || (r.host == Domain(r) && !("*." <= r.host))
  {
    UnderIsLabelSuffix(host, Domain(r));
    if p :| 0 <= p < |host| && (p == 0 || host[p - 1] == '.') &&
            (r.host == "*." + host[p..] || (r.host == host[p..] && !("*." <= host[p..]))) {
      assert LabelStart(host, p);
      assert Domain(r) == host[p..];
    }
    if p :| LabelStart(host, p) && host[p..] == Domain(r) {
      assert r.host == "*." + host[p..] || (r.host == host[p..] && !("*." <= host[p..]));
    }
  }

  /** Two domains of equal length that contain the host are the same, so rules that tie are about one
      domain. */
  lemma EqualLengthIsEqual(host: string, d: string, e: string)
    requires Under(host, d) && Under(host, e) && |d| == |e|
    ensures d == e
  {
    UnderIsLabelSuffix(host, d);
    UnderIsLabelSuffix(host, e);
    var p :| LabelStart(host, p) && host[p..] == d;
    var q :| LabelStart(host, q) && host[q..] == e;
    assert p == q;
  }

  /** The walk finds a host exactly when it is, or is under, a listed domain. */
  lemma SpamIsUnder(host: string, spammers: set<string>)
    ensures SomeSuffixIn(host, spammers) <==> Listed(host, spammers)
  {
    if SomeSuffixIn(host, spammers) {
      var p :| LabelStart(host, p) && host[p..] in spammers;
      UnderIsLabelSuffix(host, host[p..]);
    }
    if d :| d in spammers && Under(host, d) {
      UnderIsLabelSuffix(host, d);
    }
  }

  /** Moving a rule further down the list changes the decision only if a rule it passes is about the
      same domain: two neighbours about different domains can be swapped. */
  lemma OrderMattersForTiesOnly(rules: seq<Rule>, host: string, k: nat, spammers: Option<set<string>>)
    requires k + 1 < |rules| && Domain(rules[k]) != Domain(rules[k + 1])
    ensures Dropped(rules, host, spammers)
        <==> Dropped(rules[k := rules[k + 1]][k + 1 := rules[k]], host, spammers)
  {
    SwapKeeps(rules, host, k);
    var swapped := rules[k := rules[k + 1]][k + 1 := rules[k]];
    assert swapped[k := swapped[k + 1]][k + 1 := swapped[k]] == rules;
    SwapKeeps(swapped, host, k);
    if i :| 0 <= i < |rules| && Applies(rules[i], host) {
      assert Applies(swapped[Swap(k, i)], host);
    }
    if i :| 0 <= i < |rules| && Applies(swapped[i], host) {
      assert Applies(rules[Swap(k, i)], host);
    }
  }

  function Swap(k: nat, i: int): int {
    if i == k then k + 1 else if i == k + 1 then k else i
  }

  lemma SwapKeeps(rules: seq<Rule>, host: string, k: nat)
    requires k + 1 < |rules| && Domain(rules[k]) != Domain(rules[k + 1])
    ensures var swapped := rules[k := rules[k + 1]][k + 1 := rules[k]];
            forall i :: Decides(rules, host, i) ==>
              Decides(swapped, host, Swap(k, i)) && swapped[Swap(k, i)] == rules[i]
  {
    var swapped := rules[k := rules[k + 1]][k + 1 := rules[k]];
    forall i | Decides(rules, host, i) ensures Decides(swapped, host, Swap(k, i)) {
      forall j | 0 <= j < |rules| && Applies(swapped[j], host)
        ensures |Domain(swapped[j])| <= |Domain(rules[i])| &&
                  (j < Swap(k, i) ==> |Domain(swapped[j])| < |Domain(rules[i])|)
      {
        assert swapped[j] == rules[Swap(k, j)];
        if |Domain(swapped[j])| == |Domain(rules[i])| {
          EqualLengthIsEqual(host, Domain(swapped[j]), Domain(rules[i]));
        }
      }
    }
  }
}
