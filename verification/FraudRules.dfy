/** The stored fraud rules: creation, update and deletion by an organisation, and the query that feeds the engine. */
module FraudRules {
  import opened Common
  import opened Schema

  datatype RuleError = InvalidRule | RuleNotFound | DuplicateRule

  datatype NewRule = NewRule(
    id: Id,
    ruleName: string,
    ruleType: string,
    description: string,
    scoreImpact: int,
    isActive: bool,
    config: map<string, int>)

  datatype RuleChanges = RuleChanges(
    description: Option<string>,
    scoreImpact: Option<int>,
    isActive: Option<bool>,
    config: Option<map<string, int>>)

  datatype RuleCall =
    | CreateRule(org: Id, data: NewRule)
    | UpdateRule(org: Id, id: Id, changes: RuleChanges)
    | DeleteRule(org: Id, id: Id)

  /** The field limits the request schemas impose. */
  predicate Accepted(call: RuleCall) {
    match call
    case CreateRule(org, d) => 2 <= |d.ruleName| <= 100 && |d.description| <= 500 && 0 <= d.scoreImpact <= 100
    case UpdateRule(org, id, c) => c.scoreImpact.Some? ==> 0 <= c.scoreImpact.value <= 100
    case DeleteRule(org, id) => true
  }

  function FindRule(rules: seq<FraudRule>, id: Id): (i: int)
    ensures -1 <= i < |rules|
    ensures i >= 0 ==> rules[i].id == id
    ensures forall k :: 0 <= k < |rules| && k > i ==> rules[k].id != id
  {
    Find(rules, (r: FraudRule) => r.id == id)
  }

  function Changed(r: FraudRule, c: RuleChanges): FraudRule {
    r.(description := if c.description.Some? then c.description.value else r.description,
       scoreImpact := if c.scoreImpact.Some? then c.scoreImpact.value else r.scoreImpact,
       isActive := if c.isActive.Some? then c.isActive.value else r.isActive,
       config := if c.config.Some? then c.config.value else r.config)
  }

  function RuleOutcome(rules: seq<FraudRule>, call: RuleCall): (seq<FraudRule>, Option<RuleError>) {
    if !Accepted(call) then (rules, Some(InvalidRule))
    else
      match call
      case CreateRule(org, d) =>
        if FindRule(rules, d.id) >= 0 then (rules, Some(DuplicateRule))
        else
          var rule := FraudRule(d.id, Some(org), d.ruleName, d.ruleType, d.description,
                                d.scoreImpact, d.isActive, d.config);
          (rules + [rule], None)
      case UpdateRule(org, id, changes) =>
        var i := FindRule(rules, id);
        if i < 0 || (rules[i].orgId.Some? && rules[i].orgId != Some(org)) then (rules, Some(RuleNotFound))
        else (rules[i := Changed(rules[i], changes)], None)
      case DeleteRule(org, id) =>
        var i := FindRule(rules, id);
        if i < 0 || rules[i].orgId != Some(org) then (rules, Some(RuleNotFound))
        else (rules[..i] + rules[i + 1..], None)
  }

  function RulesAfter(rules: seq<FraudRule>, calls: seq<RuleCall>): seq<FraudRule> {
    if calls == [] then rules else RuleOutcome(RulesAfter(rules, calls[..|calls| - 1]), calls[|calls| - 1]).0
  }

  ghost predicate ImpactsInRange(rules: seq<FraudRule>) {
    forall i :: 0 <= i < |rules| ==> 0 <= rules[i].scoreImpact <= 100
  }

  lemma {:induction false} RuleStepInRange(rules: seq<FraudRule>, call: RuleCall)
    requires ImpactsInRange(rules)
    ensures ImpactsInRange(RuleOutcome(rules, call).0)
  {
    hide FindRule;
  }

  /** Over every run of rule calls the stored impacts stay within 0..100. */
  lemma {:induction false} ImpactsStayInRange(rules: seq<FraudRule>, calls: seq<RuleCall>)
    requires ImpactsInRange(rules)
    ensures ImpactsInRange(RulesAfter(rules, calls))
  {
    if calls == [] {
    } else {
      ImpactsStayInRange(rules, calls[..|calls| - 1]);
      RuleStepInRange(RulesAfter(rules, calls[..|calls| - 1]), calls[|calls| - 1]);
    }
  }

  /** The rules of one owner, in stored order; `None` owns the global rules. */
  function OwnedBy(rules: seq<FraudRule>, owner: Option<Id>): seq<FraudRule> {
    if rules == [] then []
    else
      var last := rules[|rules| - 1];
      OwnedBy(rules[..|rules| - 1], owner) + (if last.orgId == owner then [last] else [])
  }

  lemma {:induction false} OwnedConcat(a: seq<FraudRule>, b: seq<FraudRule>, owner: Option<Id>)
    ensures OwnedBy(a + b, owner) == OwnedBy(a, owner) + OwnedBy(b, owner)
  {
    if b == [] {
      assert a + b == a;
    } else {
      assert (a + b)[..|a + b| - 1] == a + b[..|b| - 1];
      OwnedConcat(a, b[..|b| - 1], owner);
    }
  }

  lemma {:induction false} OwnedSplit(rules: seq<FraudRule>, i: nat, owner: Option<Id>)
    requires i < |rules|
    ensures OwnedBy(rules, owner)
         == OwnedBy(rules[..i], owner) + (if rules[i].orgId == owner then [rules[i]] else [])
          + OwnedBy(rules[i + 1..], owner)
  {
    hide *;
    SplitAt(rules, i);
    OwnedConcat(rules[..i], [rules[i]] + rules[i + 1..], owner);
    OwnedConcat([rules[i]], rules[i + 1..], owner);
    OwnedOne(rules[i], owner);
  }

  lemma {:induction false} SplitAt<T>(s: seq<T>, i: nat)
    requires i < |s|
    ensures s == s[..i] + ([s[i]] + s[i + 1..])
  {
  }

  lemma {:induction false} OwnedOne(r: FraudRule, owner: Option<Id>)
    ensures OwnedBy([r], owner) == if r.orgId == owner then [r] else []
  {
    assert [r][..0] == [];
  }

  lemma {:induction false} ReplaceOwned(rules: seq<FraudRule>, i: nat, r: FraudRule, owner: Option<Id>)
    requires i < |rules| && r.orgId == rules[i].orgId
    ensures |OwnedBy(rules[i := r], owner)| == |OwnedBy(rules, owner)|
    ensures r.orgId != owner ==> OwnedBy(rules[i := r], owner) == OwnedBy(rules, owner)
  {
    var after := rules[i := r];
    OwnedSplit(rules, i, owner);
    OwnedSplit(after, i, owner);
    assert after[..i] == rules[..i] && after[i + 1..] == rules[i + 1..];
  }

  lemma {:induction false} RemoveOwned(rules: seq<FraudRule>, i: nat, owner: Option<Id>)
    requires i < |rules| && rules[i].orgId != owner
    ensures OwnedBy(rules[..i] + rules[i + 1..], owner) == OwnedBy(rules, owner)
  {
    OwnedSplit(rules, i, owner);
    OwnedConcat(rules[..i], rules[i + 1..], owner);
  }

  /** A call never touches another organisation's rules, and the number of global rules never changes. */
  lemma {:induction false} RuleCallsAreScoped(rules: seq<FraudRule>, call: RuleCall, other: Id)
    requires other != call.org
    ensures OwnedBy(RuleOutcome(rules, call).0, Some(other)) == OwnedBy(rules, Some(other))
    ensures |OwnedBy(RuleOutcome(rules, call).0, None)| == |OwnedBy(rules, None)|
    ensures !call.UpdateRule? ==> OwnedBy(RuleOutcome(rules, call).0, None) == OwnedBy(rules, None)
  {
    var after := RuleOutcome(rules, call).0;
    hide OwnedBy, Accepted;
    if after != rules {
      if call.CreateRule? {
        AppendOwned(rules, after[|rules|], Some(other));
        AppendOwned(rules, after[|rules|], None);
      } else {
        var i := FindRule(rules, call.id);
        if call.UpdateRule? {
          ReplaceOwned(rules, i, after[i], Some(other));
          ReplaceOwned(rules, i, after[i], None);
        } else {
          RemoveOwned(rules, i, Some(other));
          RemoveOwned(rules, i, None);
        }
      }
    }
  }

  /**
   Updates are promised to be scoped to the organisation. One leaves the global rules alone exactly
   when its rule is not global or already holds the new values: any organisation may change a global rule.
   */
  lemma {:induction false} UpdateIsScopedIff(rules: seq<FraudRule>, org: Id, id: Id, changes: RuleChanges)
    requires Accepted(UpdateRule(org, id, changes))
    ensures var o, i := RuleOutcome(rules, UpdateRule(org, id, changes)), FindRule(rules, id);
      && (o.1 == None <==> i >= 0 && (rules[i].orgId == Some(org) || rules[i].orgId == None))
      && (OwnedBy(o.0, None) == OwnedBy(rules, None) <==>
            i < 0 || rules[i].orgId.Some? || Changed(rules[i], changes) == rules[i])
  {
    var i := FindRule(rules, id);
    hide OwnedBy, FindRule, Accepted, Changed;
    if i >= 0 && rules[i].orgId.Some? {
      var r := RuleOutcome(rules, UpdateRule(org, id, changes)).0[i];
      ChangedKeepsOwner(rules[i], changes);
      ReplaceOwned(rules, i, r, None);
    } else if i >= 0 {
      var r := Changed(rules[i], changes);
      ChangedKeepsOwner(rules[i], changes);
      var after := rules[i := r];
      OwnedSplit(rules, i, None);
      OwnedSplit(after, i, None);
      assert after[..i] == rules[..i] && after[i + 1..] == rules[i + 1..];
      var head := OwnedBy(rules[..i], None);
      assert OwnedBy(after, None)[|head|] == r && OwnedBy(rules, None)[|head|] == rules[i];
      assert r == rules[i] ==> after == rules;
    }
  }

  /** An organisation raises the impact of a global rule, for everyone. */
  lemma {:induction false} UpdateReachesGlobal() returns (rules: seq<FraudRule>, changes: RuleChanges)
    ensures Accepted(UpdateRule(1, 7, changes)) && |rules| == 1 && rules[0].orgId == None
    ensures var o := RuleOutcome(rules, UpdateRule(1, 7, changes));
      o.1 == None && OwnedBy(o.0, None) != OwnedBy(rules, None)
  {
    rules := [FraudRule(7, None, "phone_reused", "phone", "Phone seen before", 20, true, map[])];
    changes := RuleChanges(None, Some(90), None, None);
    assert FindRule(rules, 7) == 0;
    assert Changed(rules[0], changes).scoreImpact == 90;
    hide OwnedBy;
    UpdateIsScopedIff(rules, 1, 7, changes);
  }

  lemma {:induction false} ChangedKeepsOwner(r: FraudRule, c: RuleChanges)
    ensures Changed(r, c).orgId == r.orgId
  {
  }

  lemma {:induction false} AppendOwned(rules: seq<FraudRule>, r: FraudRule, owner: Option<Id>)
    requires r.orgId != owner
    ensures OwnedBy(rules + [r], owner) == OwnedBy(rules, owner)
  {
    assert (rules + [r])[..|rules|] == rules;
  }

  ghost predicate UniqueRules(rules: seq<FraudRule>) {
    forall i, j :: 0 <= i < j < |rules| ==> rules[i].id != rules[j].id
  }

  ghost predicate HasRule(rules: seq<FraudRule>, id: Id) {
    exists i :: 0 <= i < |rules| && rules[i].id == id
  }

  /** A creation within the limits of the schema adds the rule to its organisation as given. */
  lemma {:induction false} CreateRuleIs(rules: seq<FraudRule>, org: Id, d: NewRule)
    ensures var o := RuleOutcome(rules, CreateRule(org, d));
      if |d.ruleName| < 2 || |d.ruleName| > 100 || |d.description| > 500 || d.scoreImpact < 0 || d.scoreImpact > 100
      then o == (rules, Some(InvalidRule))
      else if HasRule(rules, d.id) then o == (rules, Some(DuplicateRule))
      else
        && o.1 == None && |o.0| == |rules| + 1 && o.0[..|rules|] == rules
        && var r := o.0[|rules|];
           && r.id == d.id && r.orgId == Some(org) && r.ruleName == d.ruleName && r.ruleType == d.ruleType
           && r.description == d.description && r.scoreImpact == d.scoreImpact && r.isActive == d.isActive
           && r.config == d.config
  {
    assert HasRule(rules, d.id) <==> FindRule(rules, d.id) >= 0;
    hide FindRule, HasRule;
  }

  /** An update within the limits changes the given fields of the one rule, when it is global or own. */
  lemma {:induction false} UpdateRuleIs(rules: seq<FraudRule>, org: Id, id: Id, c: RuleChanges, i: nat)
    requires UniqueRules(rules) && (c.scoreImpact.Some? ==> 0 <= c.scoreImpact.value <= 100)
    ensures var o := RuleOutcome(rules, UpdateRule(org, id, c));
      && (!HasRule(rules, id) ==> o == (rules, Some(RuleNotFound)))
      && (i < |rules| && rules[i].id == id ==>
           if rules[i].orgId != None && rules[i].orgId != Some(org) then o == (rules, Some(RuleNotFound))
           else
             && o.1 == None && |o.0| == |rules| && (forall k :: 0 <= k < |rules| && k != i ==> o.0[k] == rules[k])
             && var r, r' := rules[i], o.0[i];
                && r'.id == r.id && r'.orgId == r.orgId && r'.ruleName == r.ruleName && r'.ruleType == r.ruleType
                && Some(r'.description) == (if c.description.Some? then c.description else Some(r.description))
                && Some(r'.scoreImpact) == (if c.scoreImpact.Some? then c.scoreImpact else Some(r.scoreImpact))
                && Some(r'.isActive) == (if c.isActive.Some? then c.isActive else Some(r.isActive))
                && Some(r'.config) == (if c.config.Some? then c.config else Some(r.config)))
  {
    assert HasRule(rules, id) <==> FindRule(rules, id) >= 0;
    assert i < |rules| && rules[i].id == id ==> FindRule(rules, id) == i;
    hide FindRule, HasRule;
  }

  /** A deletion takes the one rule out, when it is the organisation's own. */
  lemma {:induction false} DeleteRuleIs(rules: seq<FraudRule>, org: Id, id: Id, i: nat)
    requires UniqueRules(rules)
    ensures var o := RuleOutcome(rules, DeleteRule(org, id));
      && (!HasRule(rules, id) ==> o == (rules, Some(RuleNotFound)))
      && (i < |rules| && rules[i].id == id ==>
           if rules[i].orgId != Some(org) then o == (rules, Some(RuleNotFound))
           else (o.1 == None && |o.0| == |rules| - 1
                 && forall k :: 0 <= k < |o.0| ==> o.0[k] == rules[if k < i then k else k + 1]))
  {
    assert HasRule(rules, id) <==> FindRule(rules, id) >= 0;
    assert i < |rules| && rules[i].id == id ==> FindRule(rules, id) == i;
    hide FindRule, HasRule;
  }

  /** Creating a rule and deleting it again restores the table. */
  lemma {:induction false} CreateThenDelete(rules: seq<FraudRule>, org: Id, d: NewRule)
    requires Accepted(CreateRule(org, d)) && forall i :: 0 <= i < |rules| ==> rules[i].id != d.id
    ensures RulesAfter(rules, [CreateRule(org, d), DeleteRule(org, d.id)]) == rules
  {
    var calls := [CreateRule(org, d), DeleteRule(org, d.id)];
    assert calls[..1] == [CreateRule(org, d)] && calls[..1][..0] == [];
    var created := RulesAfter(rules, calls[..1]);
    assert created == RuleOutcome(RulesAfter(rules, []), CreateRule(org, d)).0;
    assert FindRule(rules, d.id) == -1;
    assert created[|rules|].id == d.id && FindRule(created, d.id) == |rules|;
  }

  function Merged(c: RuleChanges, d: RuleChanges): RuleChanges {
    RuleChanges(if d.description.Some? then d.description else c.description,
                if d.scoreImpact.Some? then d.scoreImpact else c.scoreImpact,
                if d.isActive.Some? then d.isActive else c.isActive,
                if d.config.Some? then d.config else c.config)
  }

  /** Two accepted updates of a rule by one organisation amount to one update in which the later fields win. */
  lemma {:induction false} UpdatesMerge(rules: seq<FraudRule>, org: Id, id: Id, c: RuleChanges, d: RuleChanges)
    requires Accepted(UpdateRule(org, id, c)) && Accepted(UpdateRule(org, id, d))
    ensures RuleOutcome(RuleOutcome(rules, UpdateRule(org, id, c)).0, UpdateRule(org, id, d)).0
         == RuleOutcome(rules, UpdateRule(org, id, Merged(c, d))).0
  {
    var i := FindRule(rules, id);
    var once := RuleOutcome(rules, UpdateRule(org, id, c)).0;
    assert forall k :: 0 <= k < |rules| ==> once[k].id == rules[k].id && once[k].orgId == rules[k].orgId;
    assert FindRule(once, id) == i;
    hide FindRule;
  }

  // ---- The query `get_active_rules` ----

  predicate Applies(r: FraudRule, org: Option<Id>) {
    r.isActive && (r.orgId.None? || r.orgId == org)
  }

  function Applicable(rules: seq<FraudRule>, org: Option<Id>): seq<FraudRule> {
    if rules == [] then []
    else
      var last := rules[|rules| - 1];
      Applicable(rules[..|rules| - 1], org) + (if Applies(last, org) then [last] else [])
  }

  ghost predicate DescendingImpact(rules: seq<FraudRule>) {
    forall i, j :: 0 <= i < j < |rules| ==> rules[i].scoreImpact >= rules[j].scoreImpact
  }

  /** What the query may return: the applicable rules in some order of descending impact. */
  ghost predicate IsActiveRules(rules: seq<FraudRule>, org: Option<Id>, result: seq<FraudRule>) {
    multiset(result) == multiset(Applicable(rules, org)) && DescendingImpact(result)
  }

  function InsertByImpact(rules: seq<FraudRule>, r: FraudRule): seq<FraudRule> {
    if rules == [] || rules[|rules| - 1].scoreImpact >= r.scoreImpact then rules + [r]
    else InsertByImpact(rules[..|rules| - 1], r) + [rules[|rules| - 1]]
  }

  function SortByImpact(rules: seq<FraudRule>): seq<FraudRule> {
    if rules == [] then [] else InsertByImpact(SortByImpact(rules[..|rules| - 1]), rules[|rules| - 1])
  }

  /** One order the query may return: ties in stored order. */
  function ActiveRules(rules: seq<FraudRule>, org: Option<Id>): seq<FraudRule> {
    SortByImpact(Applicable(rules, org))
  }

  lemma {:induction false} InsertIsPermutation(rules: seq<FraudRule>, r: FraudRule)
    ensures multiset(InsertByImpact(rules, r)) == multiset(rules) + multiset{r}
  {
    if rules == [] {
    } else {
      assert rules == rules[..|rules| - 1] + [rules[|rules| - 1]];
      InsertIsPermutation(rules[..|rules| - 1], r);
    }
  }

  ghost predicate AllAtLeast(rules: seq<FraudRule>, impact: int) {
    forall i :: 0 <= i < |rules| ==> rules[i].scoreImpact >= impact
  }

  lemma {:induction false} InsertKeepsBound(rules: seq<FraudRule>, r: FraudRule, impact: int)
    requires AllAtLeast(rules, impact) && r.scoreImpact >= impact
    ensures AllAtLeast(InsertByImpact(rules, r), impact)
  {
    if rules == [] {
    } else {
      InsertKeepsBound(rules[..|rules| - 1], r, impact);
    }
  }

  lemma {:induction false} InsertKeepsOrder(rules: seq<FraudRule>, r: FraudRule)
    requires DescendingImpact(rules)
    ensures DescendingImpact(InsertByImpact(rules, r))
  {
    if rules != [] && rules[|rules| - 1].scoreImpact < r.scoreImpact {
      var before, last := rules[..|rules| - 1], rules[|rules| - 1];
      InsertKeepsOrder(before, r);
      assert AllAtLeast(before, last.scoreImpact);
      InsertKeepsBound(before, r, last.scoreImpact);
      AppendKeepsOrder(InsertByImpact(before, r), last);
    }
  }

  lemma {:induction false} AppendKeepsOrder(rules: seq<FraudRule>, last: FraudRule)
    requires DescendingImpact(rules) && AllAtLeast(rules, last.scoreImpact)
    ensures DescendingImpact(rules + [last])
  {
  }

  lemma {:induction false} ApplicableCounts(rules: seq<FraudRule>, org: Option<Id>, r: FraudRule)
    ensures multiset(Applicable(rules, org))[r]
         == if r.isActive && (r.orgId == None || r.orgId == org) then multiset(rules)[r] else 0
  {
    if rules == [] {
    } else {
      var before, last := rules[..|rules| - 1], rules[|rules| - 1];
      assert rules == before + [last];
      ApplicableCounts(before, org, r);
    }
  }

  /** The query returns the stored rules that are active and global or own, and no other, by descending impact. */
  lemma {:induction false} ActiveRulesAre(rules: seq<FraudRule>, org: Option<Id>)
    ensures forall r :: multiset(ActiveRules(rules, org))[r]
                     == if r.isActive && (r.orgId == None || r.orgId == org) then multiset(rules)[r] else 0
    ensures var a := ActiveRules(rules, org);
      forall i, j :: 0 <= i < j < |a| ==> a[i].scoreImpact >= a[j].scoreImpact
  {
    ActiveRulesIsAnswer(rules, org);
    forall r ensures multiset(Applicable(rules, org))[r]
         == if r.isActive && (r.orgId == None || r.orgId == org) then multiset(rules)[r] else 0
    {
      ApplicableCounts(rules, org, r);
    }
    hide ActiveRules, Applicable;
  }

  lemma {:induction false} ActiveRulesIsAnswer(rules: seq<FraudRule>, org: Option<Id>)
    ensures IsActiveRules(rules, org, ActiveRules(rules, org))
  {
    SortIsPermutation(Applicable(rules, org));
  }

  lemma {:induction false} SortIsPermutation(rules: seq<FraudRule>)
    ensures DescendingImpact(SortByImpact(rules)) && multiset(SortByImpact(rules)) == multiset(rules)
  {
    if rules == [] {
    } else {
      var before, last := rules[..|rules| - 1], rules[|rules| - 1];
      assert rules == before + [last];
      SortIsPermutation(before);
      hide DescendingImpact, InsertByImpact;
      InsertKeepsOrder(SortByImpact(before), last);
      InsertIsPermutation(SortByImpact(before), last);
    }
  }

  class FraudRuleService {
    const db: Session

    constructor (db: Session)
      ensures this.db == db
    {
      this.db := db;
    }

    method Create(org: Id, data: NewRule) returns (error: Option<RuleError>)
      modifies db`tables
      ensures var o := RuleOutcome(old(db.tables.rules), CreateRule(org, data));
        db.tables == old(db.tables).(rules := o.0) && error == o.1
    {
      hide FindRule, Accepted;
      if !Accepted(CreateRule(org, data)) { return Some(InvalidRule); }
      if FindRule(db.tables.rules, data.id) >= 0 { return Some(DuplicateRule); }
      var rule := FraudRule(data.id, Some(org), data.ruleName, data.ruleType, data.description,
                            data.scoreImpact, data.isActive, data.config);
      db.tables := db.tables.(rules := db.tables.rules + [rule]);
      return None;
    }

    method Update(org: Id, id: Id, changes: RuleChanges) returns (error: Option<RuleError>)
      modifies db`tables
      ensures var o := RuleOutcome(old(db.tables.rules), UpdateRule(org, id, changes));
        db.tables == old(db.tables).(rules := o.0) && error == o.1
    {
      hide FindRule, Accepted, Changed;
      if !Accepted(UpdateRule(org, id, changes)) { return Some(InvalidRule); }
      var rules := db.tables.rules;
      var i := FindRule(rules, id);
      if i < 0 || (rules[i].orgId.Some? && rules[i].orgId.value != org) { return Some(RuleNotFound); }
      db.tables := db.tables.(rules := rules[i := Changed(rules[i], changes)]);
      return None;
    }

    method Delete(org: Id, id: Id) returns (error: Option<RuleError>)
      modifies db`tables
      ensures var o := RuleOutcome(old(db.tables.rules), DeleteRule(org, id));
        db.tables == old(db.tables).(rules := o.0) && error == o.1
    {
      hide FindRule;
      var rules := db.tables.rules;
      var i := FindRule(rules, id);
      if i < 0 || rules[i].orgId != Some(org) { return Some(RuleNotFound); }
      db.tables := db.tables.(rules := rules[..i] + rules[i + 1..]);
      return None;
    }
  }
}
