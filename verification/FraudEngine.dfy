/** The fraud rule engine: which rules a payload triggers, the clamped score, the breakdown and the decision. */
module FraudEngine {
  import opened Common
  import opened Schema
  import opened Text
  import opened FraudRules

  /** What the engine is told about one payload; `domains` are the disposable mail domains. */
  datatype Signals = Signals(
    data: Payload,
    phoneSeen: bool,
    deviceBlacklisted: bool,
    ipCount: int)

  datatype Evaluation = Evaluation(totalScore: int, reasons: seq<string>, breakdown: map<string, int>)

  const DISPOSABLE := "disposable_email"
  const BAD_PAN := "invalid_pan_format"
  const PHONE_REUSED := "phone_reused"
  const BLACKLISTED := "blacklisted_device"
  const VELOCITY := "high_velocity"

  function AfterAt(email: string): string {
    if email == "" then "" else if email[0] == '@' then email[1..] else AfterAt(email[1..])
  }

  predicate IsDisposable(email: string, domains: set<string>) {
    '@' in email && Strip(Lower(AfterAt(email))) in domains
  }

  /** Five capitals, four digits, one capital, once surrounding whitespace is gone. */
  predicate IsValidPan(pan: string) {
    var p := Strip(pan);
    && |p| == 10
    && (forall i :: 0 <= i < 5 ==> IsUpperLetter(p[i]))
    && (forall i :: 5 <= i < 9 ==> IsDigit(p[i]))
    && IsUpperLetter(p[9])
  }

  function Threshold(config: map<string, int>): int {
    if "max_requests" in config then config["max_requests"] else 5
  }

  /** The country check is a stub that never fires, so it falls under the last branch. */
  predicate Triggered(r: FraudRule, s: Signals, domains: set<string>) {
    if r.ruleType == "email" then
      r.ruleName == DISPOSABLE && s.data.email != "" && IsDisposable(s.data.email, domains)
    else if r.ruleType == "document" then
      r.ruleName == BAD_PAN && Given(s.data.pan) && !IsValidPan(s.data.pan.value)
    else if r.ruleType == "phone" then
      r.ruleName == PHONE_REUSED && Given(s.data.phone) && s.phoneSeen
    else if r.ruleType == "device" then
      r.ruleName == BLACKLISTED && Given(s.data.deviceId) && s.deviceBlacklisted
    else if r.ruleType == "velocity" then
      r.ruleName == VELOCITY && Given(s.data.ipAddress) && s.ipCount >= Threshold(r.config)
    else false
  }

  lemma {:induction false} AfterAtIs(local: string, d: string)
    requires '@' !in local
    ensures AfterAt(local + "@" + d) == d
  {
    var s := local + "@" + d;
    if local == "" {
      assert s[1..] == d;
    } else {
      assert s[0] == local[0] && s[1..] == local[1..] + "@" + d;
      AfterAtIs(local[1..], d);
    }
  }

  lemma {:induction false} SplitAtSign(s: string) returns (local: string)
    requires '@' in s
    ensures '@' !in local && s == local + "@" + AfterAt(s)
  {
    if s[0] == '@' {
      local := "";
      assert s == "" + "@" + s[1..];
    } else {
      var rest := SplitAtSign(s[1..]);
      local := [s[0]] + rest;
      assert s == [s[0]] + s[1..];
    }
  }

  /** The address has a domain, after its first at sign, that is one of the given ones in lower case and trimmed. */
  ghost predicate MailAtOneOf(email: string, domains: set<string>) {
    exists local, d :: email == local + "@" + d && '@' !in local && Strip(Lower(d)) in domains
  }

  lemma {:induction false} DisposableIff(email: string, domains: set<string>)
    ensures IsDisposable(email, domains) <==> MailAtOneOf(email, domains)
  {
    hide Lower, Strip;
    if IsDisposable(email, domains) {
      var local := SplitAtSign(email);
      assert email == local + "@" + AfterAt(email);
    }
    if MailAtOneOf(email, domains) {
      var local, d :| email == local + "@" + d && '@' !in local && Strip(Lower(d)) in domains;
      AfterAtIs(local, d);
      assert email[|local|] == '@';
    }
  }

  /** Trimmed, the text is five capitals, four digits and a capital. */
  ghost predicate PanShaped(pan: string) {
    var p := Strip(pan);
    |p| == 10 && forall i :: 0 <= i < 10 ==>
      if i < 5 || i == 9 then 'A' <= p[i] <= 'Z' else '0' <= p[i] <= '9'
  }

  lemma {:induction false} PanIff(pan: string)
    ensures IsValidPan(pan) <==> PanShaped(pan)
  {
    hide Strip;
  }

  lemma {:induction false} TypesDiffer()
    ensures "phone" != "email" && "document" != "email" && "device" != "email" && "velocity" != "email"
    ensures "document" != "phone" && "document" != "device" && "document" != "velocity"
    ensures "phone" != "device" && "phone" != "velocity" && "device" != "velocity"
  {
    assert |"phone"| == 5 && |"email"| == 5 && |"document"| == 8 && |"velocity"| == 8 && |"device"| == 6;
    assert "phone"[0] == 'p' && "email"[0] == 'e' && "document"[0] == 'd' && "velocity"[0] == 'v';
  }

  predicate Fires(r: FraudRule, s: Signals, domains: set<string>) {
    r.isActive && Triggered(r, s, domains)
  }

  /** The sum of the impacts of the firing rules. */
  function Sum(rules: seq<FraudRule>, s: Signals, domains: set<string>): int {
    if rules == [] then 0
    else
      var last := rules[|rules| - 1];
      Sum(rules[..|rules| - 1], s, domains) + (if Fires(last, s, domains) then last.scoreImpact else 0)
  }

  function Reasons(rules: seq<FraudRule>, s: Signals, domains: set<string>): seq<string> {
    if rules == [] then []
    else
      var last := rules[|rules| - 1];
      Reasons(rules[..|rules| - 1], s, domains)
      + (if Fires(last, s, domains) then [if last.description != "" then last.description else last.ruleName] else [])
  }

  /** The last firing rule of a name decides its entry. */
  function Breakdown(rules: seq<FraudRule>, s: Signals, domains: set<string>): map<string, int> {
    if rules == [] then map[]
    else
      var last := rules[|rules| - 1];
      var before := Breakdown(rules[..|rules| - 1], s, domains);
      if Fires(last, s, domains) then before[last.ruleName := last.scoreImpact] else before
  }

  function Clamp(x: int): int { if x < 0 then 0 else if x > 100 then 100 else x }

  function Evaluate(rules: seq<FraudRule>, s: Signals, domains: set<string>): Evaluation {
    Evaluation(Clamp(Sum(rules, s, domains)), Reasons(rules, s, domains), Breakdown(rules, s, domains))
  }

  function MakeDecision(score: int): string {
    if score <= 30 then "APPROVED" else if score <= 60 then "REVIEW" else "REJECT"
  }

  /** APPROVED < REVIEW < REJECT. */
  function Severity(decision: string): nat {
    if decision == "APPROVED" then 0 else if decision == "REVIEW" then 1 else 2
  }

  class FraudService {
    const domains: set<string>

    constructor (domains: set<string>)
      ensures this.domains == domains
    {
      this.domains := domains;
    }

    method EvaluateRules(rules: seq<FraudRule>, s: Signals) returns (result: Evaluation)
      ensures result == Evaluate(rules, s, domains)
    {
      var totalScore, reasons, breakdown := 0, [], map[];
      for i := 0 to |rules|
        invariant totalScore == Sum(rules[..i], s, domains)
        invariant reasons == Reasons(rules[..i], s, domains)
        invariant breakdown == Breakdown(rules[..i], s, domains)
      {
        var rule := rules[i];
        assert rules[..i + 1][..i] == rules[..i] && rules[..i + 1][i] == rule;
        if !rule.isActive { continue; }
        if Triggered(rule, s, domains) {
          totalScore := totalScore + rule.scoreImpact;
          reasons := reasons + [if rule.description != "" then rule.description else rule.ruleName];
          breakdown := breakdown[rule.ruleName := rule.scoreImpact];
        }
      }
      assert rules[..|rules|] == rules;
      totalScore := if totalScore < 0 then 0 else totalScore;
      totalScore := if totalScore > 100 then 100 else totalScore;
      return Evaluation(totalScore, reasons, breakdown);
    }
  }

  // ---- Score ----

  lemma {:induction false} SumConcat(a: seq<FraudRule>, b: seq<FraudRule>, s: Signals, domains: set<string>)
    ensures Sum(a + b, s, domains) == Sum(a, s, domains) + Sum(b, s, domains)
  {
    if b == [] {
      assert a + b == a;
    } else {
      assert (a + b)[..|a + b| - 1] == a + b[..|b| - 1];
      SumConcat(a, b[..|b| - 1], s, domains);
    }
  }

  lemma {:induction false} RemoveOne<T>(b: seq<T>, i: nat)
    requires i < |b|
    ensures multiset(b[..i] + b[i + 1..]) == multiset(b) - multiset{b[i]}
  {
    assert b == b[..i] + [b[i]] + b[i + 1..];
  }

  lemma {:induction false} SumRemove(b: seq<FraudRule>, i: nat, s: Signals, domains: set<string>)
    requires i < |b|
    ensures Sum(b, s, domains)
         == Sum(b[..i] + b[i + 1..], s, domains) + (if Fires(b[i], s, domains) then b[i].scoreImpact else 0)
  {
    assert b == b[..i + 1] + b[i + 1..] && b[..i + 1][..i] == b[..i];
    SumConcat(b[..i], b[i + 1..], s, domains);
    SumConcat(b[..i + 1], b[i + 1..], s, domains);
  }

  /** Two lists with the same rules still have them when the last of one is taken from both. */
  lemma {:induction false} TakeLast<T>(a: seq<T>, b: seq<T>) returns (i: nat)
    requires a != [] && multiset(a) == multiset(b)
    ensures i < |b| && b[i] == a[|a| - 1]
    ensures multiset(a[..|a| - 1]) == multiset(b[..i] + b[i + 1..])
  {
    var last := a[|a| - 1];
    assert a == a[..|a| - 1] + [last];
    assert last in multiset(b);
    i :| 0 <= i < |b| && b[i] == last;
    RemoveOne(b, i);
  }

  /** The score does not depend on the order of the rules. */
  lemma {:induction false} OrderDoesNotMatter(a: seq<FraudRule>, b: seq<FraudRule>, s: Signals, domains: set<string>)
    requires multiset(a) == multiset(b)
    ensures Sum(a, s, domains) == Sum(b, s, domains)
  {
    hide Fires;
    if a == [] {
      assert |multiset(b)| == 0;
    } else {
      var i := TakeLast(a, b);
      OrderDoesNotMatter(a[..|a| - 1], b[..i] + b[i + 1..], s, domains);
      SumRemove(b, i, s, domains);
    }
  }

  ghost predicate NonNegative(rules: seq<FraudRule>) {
    forall i :: 0 <= i < |rules| ==> rules[i].scoreImpact >= 0
  }

  /** `t` raises the signals of `s` on the same payload. */
  ghost predicate Raises(s: Signals, t: Signals) {
    && s.data == t.data && s.ipCount <= t.ipCount
    && (s.phoneSeen ==> t.phoneSeen) && (s.deviceBlacklisted ==> t.deviceBlacklisted)
  }

  lemma {:induction false} RaisingRaisesSum(rules: seq<FraudRule>, s: Signals, t: Signals, domains: set<string>)
    requires NonNegative(rules)
    requires forall i :: 0 <= i < |rules| && Fires(rules[i], s, domains) ==> Fires(rules[i], t, domains)
    ensures Sum(rules, s, domains) <= Sum(rules, t, domains)
  {
    if rules == [] {
    } else {
      RaisingRaisesSum(rules[..|rules| - 1], s, t, domains);
    }
  }

  lemma {:induction false} SeverityMonotone(x: int, y: int)
    requires x <= y
    ensures Clamp(x) <= Clamp(y) && Severity(MakeDecision(Clamp(x))) <= Severity(MakeDecision(Clamp(y)))
  {
  }

  /** When each kind of rule fires on what the engine is told, and that no other ever does. */
  lemma {:induction false} RulesFire(r: FraudRule, s: Signals, domains: set<string>)
    ensures !r.isActive ==> !Fires(r, s, domains)
    ensures r.isActive && r.ruleType == "email" ==>
      (Fires(r, s, domains) <==> r.ruleName == "disposable_email" && MailAtOneOf(s.data.email, domains))
    ensures r.isActive && r.ruleType == "document" ==>
      (Fires(r, s, domains) <==> r.ruleName == "invalid_pan_format" && s.data.pan.Some? && s.data.pan.value != ""
                                 && !PanShaped(s.data.pan.value))
    ensures r.isActive && r.ruleType == "phone" ==>
      (Fires(r, s, domains) <==> r.ruleName == "phone_reused" && s.data.phone.Some? && s.data.phone.value != ""
                                 && s.phoneSeen)
    ensures r.isActive && r.ruleType == "device" ==>
      (Fires(r, s, domains) <==> r.ruleName == "blacklisted_device" && s.data.deviceId.Some?
                                 && s.data.deviceId.value != "" && s.deviceBlacklisted)
    ensures r.isActive && r.ruleType == "velocity" ==>
      (Fires(r, s, domains) <==> r.ruleName == "high_velocity" && s.data.ipAddress.Some? && s.data.ipAddress.value != ""
                                 && s.ipCount >= if "max_requests" in r.config then r.config["max_requests"] else 5)
    ensures r.ruleType !in ["email", "document", "phone", "device", "velocity"] ==> !Fires(r, s, domains)
  {
    TypesDiffer();
    DisposableIff(s.data.email, domains);
    assert MailAtOneOf(s.data.email, domains) ==> s.data.email != "";
    if Given(s.data.pan) { PanIff(s.data.pan.value); }
    hide IsDisposable, MailAtOneOf, IsValidPan, PanShaped;
  }

  lemma {:induction false} ReasonsConcat(a: seq<FraudRule>, b: seq<FraudRule>, s: Signals, domains: set<string>)
    ensures Reasons(a + b, s, domains) == Reasons(a, s, domains) + Reasons(b, s, domains)
  {
    hide Fires;
    if b == [] {
      assert a + b == a;
    } else {
      assert (a + b)[..|a + b| - 1] == a + b[..|b| - 1];
      ReasonsConcat(a, b[..|b| - 1], s, domains);
    }
  }

  /** Each firing rule gives one reason, its description or else its name, in the place its rule has among the rules. */
  lemma {:induction false} ReasonsInOrder(rules: seq<FraudRule>, i: nat, s: Signals, domains: set<string>)
    requires i < |rules|
    ensures Reasons([], s, domains) == []
    ensures Reasons(rules, s, domains)
         == Reasons(rules[..i], s, domains)
          + (if !Fires(rules[i], s, domains) then []
             else if rules[i].description == "" then [rules[i].ruleName] else [rules[i].description])
          + Reasons(rules[i + 1..], s, domains)
  {
    assert rules == rules[..i + 1] + rules[i + 1..] && rules[..i + 1][..i] == rules[..i];
    ReasonsConcat(rules[..i + 1], rules[i + 1..], s, domains);
    hide Fires;
  }

  /** The score lies in 0..100, and the decisions are the three documented bands of it. */
  lemma {:induction false} DecisionBands(rules: seq<FraudRule>, s: Signals, domains: set<string>)
    ensures var score := Evaluate(rules, s, domains).totalScore; var decision := MakeDecision(score);
      && 0 <= score <= 100
      && (decision == "APPROVED" <==> 0 <= score <= 30)
      && (decision == "REVIEW" <==> 31 <= score <= 60)
      && (decision == "REJECT" <==> 61 <= score <= 100)
      && Severity(decision) == if score <= 30 then 0 else if score <= 60 then 1 else 2
  {
    assert |"APPROVED"| == 8 && "REVIEW"[2] == 'V' && "REJECT"[2] == 'J';
  }

  /** Raising a signal never lowers the score or the severity of the decision. */
  lemma {:induction false} RaisingNeverLowers(rules: seq<FraudRule>, s: Signals, t: Signals, domains: set<string>)
    requires NonNegative(rules) && Raises(s, t)
    ensures var x, y := Evaluate(rules, s, domains).totalScore, Evaluate(rules, t, domains).totalScore;
      x <= y && Severity(MakeDecision(x)) <= Severity(MakeDecision(y))
  {
    RaisingRaisesSum(rules, s, t, domains);
    SeverityMonotone(Sum(rules, s, domains), Sum(rules, t, domains));
  }

  /** Adding rules of non-negative impact anywhere never lowers the score or the severity. */
  lemma {:induction false} AddingNeverLowers(a: seq<FraudRule>, added: seq<FraudRule>, b: seq<FraudRule>, s: Signals,
                                             domains: set<string>)
    requires NonNegative(added)
    ensures var x, y := Evaluate(a + b, s, domains).totalScore, Evaluate(a + added + b, s, domains).totalScore;
      x <= y && Severity(MakeDecision(x)) <= Severity(MakeDecision(y))
  {
    SumConcat(a, b, s, domains);
    SumConcat(a, added, s, domains);
    SumConcat(a + added, b, s, domains);
    SumNonNegative(added, s, domains);
    SeverityMonotone(Sum(a + b, s, domains), Sum(a + added + b, s, domains));
  }

  lemma {:induction false} SumNonNegative(rules: seq<FraudRule>, s: Signals, domains: set<string>)
    requires NonNegative(rules)
    ensures Sum(rules, s, domains) >= 0
  {
    if rules == [] {
    } else {
      SumNonNegative(rules[..|rules| - 1], s, domains);
    }
  }

  // ---- Breakdown ----

  const NAMES := [DISPOSABLE, BAD_PAN, PHONE_REUSED, BLACKLISTED, VELOCITY]

  function Entry(m: map<string, int>, name: string): int { if name in m then m[name] else 0 }

  /** The sum of the first `n` of the five possible entries. */
  function EntrySum(m: map<string, int>, n: nat): int
    requires n <= |NAMES|
  {
    if n == 0 then 0 else EntrySum(m, n - 1) + Entry(m, NAMES[n - 1])
  }

  lemma {:induction false} NamesDiffer()
    ensures forall i, j :: 0 <= i < j < |NAMES| ==> NAMES[i] != NAMES[j]
  {
    assert |DISPOSABLE| == 16 && |BAD_PAN| == 18 && |PHONE_REUSED| == 12 && |BLACKLISTED| == 18 && |VELOCITY| == 13;
    assert BAD_PAN[0] == 'i' && BLACKLISTED[0] == 'b';
  }

  lemma {:induction false} FiringNames(r: FraudRule, s: Signals, domains: set<string>) returns (i: nat)
    requires Fires(r, s, domains)
    ensures i < |NAMES| && NAMES[i] == r.ruleName
  {
    i := if r.ruleType == "email" then 0 else if r.ruleType == "document" then 1
         else if r.ruleType == "phone" then 2 else if r.ruleType == "device" then 3 else 4;
  }

  lemma {:induction false} EntryUpdate(m: map<string, int>, name: string, v: int, n: nat)
    requires n <= |NAMES|
    ensures (exists i :: 0 <= i < n && NAMES[i] == name) ==>
      EntrySum(m[name := v], n) == EntrySum(m, n) - Entry(m, name) + v
    ensures !(exists i :: 0 <= i < n && NAMES[i] == name) ==> EntrySum(m[name := v], n) == EntrySum(m, n)
  {
    NamesDiffer();
    if n == 0 {
    } else {
      EntryUpdate(m, name, v, n - 1);
    }
  }

  ghost predicate DistinctFiringNames(rules: seq<FraudRule>, s: Signals, domains: set<string>) {
    forall i, j :: 0 <= i < j < |rules| && Fires(rules[i], s, domains) && Fires(rules[j], s, domains) ==>
      rules[i].ruleName != rules[j].ruleName
  }

  ghost predicate FiresNamed(rules: seq<FraudRule>, s: Signals, domains: set<string>, name: string) {
    exists i :: 0 <= i < |rules| && Fires(rules[i], s, domains) && rules[i].ruleName == name
  }

  lemma {:induction false} FiresNamedStep(rules: seq<FraudRule>, s: Signals, domains: set<string>, name: string)
    requires rules != []
    ensures var before, last := rules[..|rules| - 1], rules[|rules| - 1];
      FiresNamed(rules, s, domains, name)
      <==> FiresNamed(before, s, domains, name) || (Fires(last, s, domains) && last.ruleName == name)
  {
    var before, last := rules[..|rules| - 1], rules[|rules| - 1];
    assert forall i :: 0 <= i < |before| ==> before[i] == rules[i];
    if FiresNamed(before, s, domains, name) {
      var i :| 0 <= i < |before| && Fires(before[i], s, domains) && before[i].ruleName == name;
      assert rules[i] == before[i];
    }
  }

  /** An entry exists exactly when a rule of that name fires, and only for the five known names. */
  lemma {:induction false} BreakdownKeys(rules: seq<FraudRule>, s: Signals, domains: set<string>, name: string)
    ensures name in Breakdown(rules, s, domains) <==> FiresNamed(rules, s, domains, name)
    ensures name in Breakdown(rules, s, domains) ==> name in NAMES
  {
    if rules == [] {
    } else {
      var before, last := rules[..|rules| - 1], rules[|rules| - 1];
      BreakdownKeys(before, s, domains, name);
      FiresNamedStep(rules, s, domains, name);
      if Fires(last, s, domains) {
        var k := FiringNames(last, s, domains);
      }
      hide Fires, FiresNamed;
    }
  }

  ghost predicate FiresWith(rules: seq<FraudRule>, s: Signals, domains: set<string>, name: string, impact: int) {
    exists i :: 0 <= i < |rules| && Fires(rules[i], s, domains)
      && rules[i].ruleName == name && rules[i].scoreImpact == impact
  }

  /** With rules in order of descending impact, an entry is the least impact among the firing rules of its name. */
  lemma {:induction false} BreakdownIsLeast(rules: seq<FraudRule>, s: Signals, domains: set<string>)
    requires DescendingImpact(rules)
    ensures forall i :: 0 <= i < |rules| && Fires(rules[i], s, domains) ==>
      rules[i].ruleName in Breakdown(rules, s, domains)
      && Breakdown(rules, s, domains)[rules[i].ruleName] <= rules[i].scoreImpact
    ensures forall name :: name in Breakdown(rules, s, domains) ==>
      FiresWith(rules, s, domains, name, Breakdown(rules, s, domains)[name])
  {
    if rules == [] {
    } else {
      var before, last := rules[..|rules| - 1], rules[|rules| - 1];
      BreakdownIsLeast(before, s, domains);
      var m, m' := Breakdown(before, s, domains), Breakdown(rules, s, domains);
      forall i | 0 <= i < |rules| && Fires(rules[i], s, domains)
        ensures rules[i].ruleName in m' && m'[rules[i].ruleName] <= rules[i].scoreImpact
      {
        if i < |before| { assert rules[i] == before[i]; }
      }
      forall name | name in m'
        ensures FiresWith(rules, s, domains, name, m'[name])
      {
        if Fires(last, s, domains) && name == last.ruleName {
          assert rules[|rules| - 1] == last;
        } else {
          var i :| 0 <= i < |before| && Fires(before[i], s, domains)
            && before[i].ruleName == name && before[i].scoreImpact == m[name];
          assert rules[i] == before[i];
        }
      }
    }
  }

  /** The entries sum to at most the unclamped score, and to exactly it when no firing name repeats. */
  lemma {:induction false} BreakdownSum(rules: seq<FraudRule>, s: Signals, domains: set<string>)
    requires NonNegative(rules)
    ensures EntrySum(Breakdown(rules, s, domains), |NAMES|) <= Sum(rules, s, domains)
    ensures DistinctFiringNames(rules, s, domains) ==>
      EntrySum(Breakdown(rules, s, domains), |NAMES|) == Sum(rules, s, domains)
    ensures forall name :: name in Breakdown(rules, s, domains) ==> Breakdown(rules, s, domains)[name] >= 0
  {
    if rules == [] {
      assert EntrySum(map[], |NAMES|) == 0 by { EmptySum(|NAMES|); }
    } else {
      var before, last := rules[..|rules| - 1], rules[|rules| - 1];
      BreakdownSum(before, s, domains);
      if Fires(last, s, domains) {
        var m := Breakdown(before, s, domains);
        var k := FiringNames(last, s, domains);
        EntryUpdate(m, last.ruleName, last.scoreImpact, |NAMES|);
        BreakdownKeys(before, s, domains, last.ruleName);
        assert forall i :: 0 <= i < |before| ==> before[i] == rules[i];
      }
    }
  }

  lemma {:induction false} EmptySum(n: nat)
    requires n <= |NAMES|
    ensures EntrySum(map[], n) == 0
  {
    if n == 0 {
    } else {
      EmptySum(n - 1);
    }
  }

  /** Whatever order the query breaks ties in, score, decision and breakdown are the same. */
  lemma {:induction false} AnyQueryOrderAgrees(a: seq<FraudRule>, b: seq<FraudRule>, s: Signals, domains: set<string>)
    requires multiset(a) == multiset(b) && DescendingImpact(a) && DescendingImpact(b)
    ensures Evaluate(a, s, domains).totalScore == Evaluate(b, s, domains).totalScore
    ensures Evaluate(a, s, domains).breakdown == Evaluate(b, s, domains).breakdown
  {
    OrderDoesNotMatter(a, b, s, domains);
    BreakdownIsLeast(a, s, domains);
    BreakdownIsLeast(b, s, domains);
    LeastAgrees(a, b, s, domains);
    LeastAgrees(b, a, s, domains);
    var m, n := Breakdown(a, s, domains), Breakdown(b, s, domains);
    assert forall name :: name in m <==> name in n;
    assert forall name :: name in m ==> m[name] == n[name];
  }

  lemma {:induction false} LeastAgrees(a: seq<FraudRule>, b: seq<FraudRule>, s: Signals, domains: set<string>)
    requires multiset(a) == multiset(b) && DescendingImpact(a) && DescendingImpact(b)
    ensures forall name :: name in Breakdown(a, s, domains) ==>
      name in Breakdown(b, s, domains) && Breakdown(b, s, domains)[name] <= Breakdown(a, s, domains)[name]
  {
    BreakdownIsLeast(a, s, domains);
    BreakdownIsLeast(b, s, domains);
    forall name | name in Breakdown(a, s, domains)
      ensures name in Breakdown(b, s, domains) && Breakdown(b, s, domains)[name] <= Breakdown(a, s, domains)[name]
    {
      var i :| 0 <= i < |a| && Fires(a[i], s, domains) && a[i].ruleName == name
        && a[i].scoreImpact == Breakdown(a, s, domains)[name];
      assert a[i] in multiset(b);
      var j :| 0 <= j < |b| && b[j] == a[i];
    }
  }
}
