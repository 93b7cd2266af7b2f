/** The verification pipeline: `submit` with its counters and stored rows, `simulate`, and history. */
module Verification {
  import opened Common
  import opened Schema
  import opened Text
  import opened TtlStore
  import opened Counters
  import opened FraudRules
  import opened FraudEngine
  import Paging

  /** What the request schema of `submit`, unlike that of `simulate`, does to the PAN. */
  function NormalisedPan(pan: Option<string>): Option<string> {
    if Given(pan) then Some(Strip(Upper(pan.value))) else pan
  }

  function Normalised(raw: Payload): Payload { raw.(pan := NormalisedPan(raw.pan)) }

  /** The signals `submit` gathers for a payload. */
  function SignalsAt(store: Store, blacklist: set<string>, data: Payload, now: int): Signals {
    Signals(data,
            PhoneSeen(store, data.phone, now),
            Given(data.deviceId) && data.deviceId.value in blacklist,
            IpVelocity(store, data.ipAddress, now))
  }

  function SubmitEvaluation(rules: seq<FraudRule>, store: Store, blacklist: set<string>, domains: set<string>,
                            org: Id, raw: Payload, now: int): Evaluation
  {
    Evaluate(ActiveRules(rules, Some(org)), SignalsAt(store, blacklist, Normalised(raw), now), domains)
  }

  function SimulateEvaluation(rules: seq<FraudRule>, domains: set<string>, org: Option<Id>, raw: Payload): Evaluation {
    Evaluate(ActiveRules(rules, org), Signals(raw, false, false, 0), domains)
  }

  function Submitted(db: Tables, evaluation: Evaluation, org: Id, raw: Payload, id: Id, now: int): Tables {
    db.(requests := db.requests + [RequestRow(id, org, Normalised(raw), "completed", now)],
        results := db.results + [ResultRow(id, evaluation.totalScore, MakeDecision(evaluation.totalScore),
                                           evaluation.reasons, evaluation.breakdown)])
  }

  datatype Response = Response(
    id: Id,
    riskScore: int,
    decision: string,
    reasons: seq<string>,
    breakdown: map<string, int>)

  datatype HistoryItem = HistoryItem(
    id: Id,
    email: string,
    riskScore: int,
    decision: string,
    status: string,
    createdAt: int)

  /** The requests of one organisation, in stored order. */
  function OrgRequests(requests: seq<RequestRow>, org: Id): seq<RequestRow> {
    if requests == [] then []
    else
      var last := requests[|requests| - 1];
      OrgRequests(requests[..|requests| - 1], org) + (if last.orgId == org then [last] else [])
  }

  function FindResult(results: seq<ResultRow>, id: Id): (i: int)
    ensures -1 <= i < |results|
    ensures i >= 0 ==> results[i].requestId == id
    ensures forall k :: 0 <= k < |results| && k > i ==> results[k].requestId != id
  {
    Find(results, (x: ResultRow) => x.requestId == id)
  }

  function ItemOf(r: RequestRow, results: seq<ResultRow>): HistoryItem {
    var i := FindResult(results, r.id);
    HistoryItem(r.id, r.data.email,
                if i >= 0 then results[i].riskScore else 0,
                if i >= 0 then results[i].decision else "PENDING",
                r.status, r.createdAt)
  }

  /** An item shows the score and decision of the request's one result, or 0 and PENDING when it has none. */
  lemma {:induction false} ItemIs(r: RequestRow, results: seq<ResultRow>, k: nat)
    requires forall i, j :: 0 <= i < j < |results| ==> results[i].requestId != results[j].requestId
    ensures var item := ItemOf(r, results);
      && item.id == r.id && item.email == r.data.email && item.status == r.status && item.createdAt == r.createdAt
      && (k < |results| && results[k].requestId == r.id ==>
            item.riskScore == results[k].riskScore && item.decision == results[k].decision)
      && ((forall i :: 0 <= i < |results| ==> results[i].requestId != r.id) ==>
            item.riskScore == 0 && item.decision == "PENDING")
  {
    var f := FindResult(results, r.id);
    assert k < |results| && results[k].requestId == r.id ==> f == k;
    hide FindResult;
  }

  class VerificationService {
    const db: Session
    const redis: Redis
    const fraudService: FraudService
    const blacklist: set<string>

    constructor (db: Session, redis: Redis, domains: set<string>, blacklist: set<string>)
      ensures this.db == db && this.redis == redis && this.blacklist == blacklist && fraudService.domains == domains
    {
      this.db, this.redis, this.blacklist := db, redis, blacklist;
      fraudService := new FraudService(domains);
    }

    method Submit(org: Id, raw: Payload, id: Id, now: int) returns (r: Response)
      modifies db`tables, redis
      ensures var e := SubmitEvaluation(old(db.tables.rules), old(redis.store), blacklist, fraudService.domains,
                                        org, raw, now);
        && db.tables == Submitted(old(db.tables), e, org, raw, id, now)
        && redis.store == RunFrom(old(redis.store), CounterTouches(raw.phone, raw.ipAddress, now))
        && r == Response(id, e.totalScore, MakeDecision(e.totalScore), e.reasons, e.breakdown)
    {
      hide RunFrom, ActiveRules, Evaluate, MakeDecision;
      var data := Normalised(raw);
      var row := RequestRow(id, org, data, "processing", now);
      db.tables := db.tables.(requests := db.tables.requests + [row]);

      var phoneSeen := CheckPhoneSeen(data.phone, now);
      var blacklisted := Given(data.deviceId) && data.deviceId.value in blacklist;
      var ipCount := GetIpVelocity(data.ipAddress, now);
      var rules := ActiveRules(db.tables.rules, Some(org));
      var e := fraudService.EvaluateRules(rules, Signals(data, phoneSeen, blacklisted, ipCount));
      var decision := MakeDecision(e.totalScore);

      var result := ResultRow(id, e.totalScore, decision, e.reasons, e.breakdown);
      db.tables := db.tables.(results := db.tables.results + [result]);
      var n := |db.tables.requests| - 1;
      db.tables := db.tables.(requests := db.tables.requests[n := row.(status := "completed")]);
      assert db.tables.requests == old(db.tables.requests) + [row.(status := "completed")];
      UpdateRedisCounters(data.phone, data.ipAddress, now);
      return Response(id, e.totalScore, decision, e.reasons, e.breakdown);
    }

    /** The loop of `get_history` over the rows of one page. */
    method ToItems(items: seq<RequestRow>) returns (history: seq<HistoryItem>)
      ensures |history| == |items|
      ensures forall i :: 0 <= i < |items| ==> history[i] == ItemOf(items[i], db.tables.results)
    {
      hide FindResult;
      history := [];
      for k := 0 to |items|
        invariant |history| == k
        invariant forall i :: 0 <= i < k ==> history[i] == ItemOf(items[i], db.tables.results)
      {
        var item := items[k];
        var r := FindResult(db.tables.results, item.id);
        var score, decision := 0, "PENDING";
        if r >= 0 {
          score, decision := db.tables.results[r].riskScore, db.tables.results[r].decision;
        }
        history := history + [HistoryItem(item.id, item.data.email, score, decision, item.status, item.createdAt)];
      }
    }

    /** One history page, cut from the order the query returned, with the number of rows and of pages. */
    method GetHistory(org: Id, page: nat, pageSize: nat, order: seq<RequestRow>)
      returns (history: seq<HistoryItem>, total: nat, totalPages: nat)
      requires page >= 1 && 1 <= pageSize <= 100 && Paging.IsHistory(OrgRequests(db.tables.requests, org), order)
      ensures total == |OrgRequests(db.tables.requests, org)| && totalPages == Paging.TotalPages(total, pageSize)
      ensures |history| == |Paging.Page(order, page, pageSize)|
      ensures forall i :: 0 <= i < |history| ==>
        history[i] == ItemOf(Paging.Page(order, page, pageSize)[i], db.tables.results)
    {
      hide Paging.IsHistory, Paging.Slice, OrgRequests, ItemOf;
      var offset := (page - 1) * pageSize;
      history := ToItems(Paging.Slice(order, offset, pageSize));
      total := |OrgRequests(db.tables.requests, org)|;
      totalPages := (total + pageSize - 1) / pageSize;
    }

    method CheckPhoneSeen(phone: Option<string>, now: int) returns (seen: bool)
      ensures seen == PhoneSeen(redis.store, phone, now)
    {
      if !Given(phone) { return false; }
      var count := redis.Get(PhoneKey(phone.value), now);
      return count > 0;
    }

    method GetIpVelocity(ip: Option<string>, now: int) returns (n: nat)
      ensures n == IpVelocity(redis.store, ip, now)
    {
      if !Given(ip) { return 0; }
      n := redis.Get(IpKey(ip.value), now);
    }

    method UpdateRedisCounters(phone: Option<string>, ip: Option<string>, now: int)
      modifies redis
      ensures redis.store == RunFrom(old(redis.store), CounterTouches(phone, ip, now))
    {
      ghost var touches := CounterTouches(phone, ip, now);
      if Given(phone) {
        var key := PhoneKey(phone.value);
        var n := redis.Incr(key, now);
        redis.Expire(key, PHONE_TTL, now);
        assert touches[..1] == [Touch(now, key, PHONE_TTL, false)];
        assert redis.store == RunFrom(old(redis.store), touches[..1]);
      }
      if Given(ip) {
        var key := IpKey(ip.value);
        var n := redis.Incr(key, now);
        redis.Expire(key, IP_TTL, now);
        assert redis.store == RunFrom(old(redis.store), touches) by {
          assert touches[..|touches| - 1] == if Given(phone) then touches[..1] else [];
        }
      } else {
        assert touches == if Given(phone) then touches[..1] else [];
      }
    }
  }

  // ---- What the engine is told, and what it makes of it ----

  /** When the rules that need no counter fire on a submission, in terms of the payload as sent. */
  lemma {:induction false} SubmittedRulesFire(r: FraudRule, raw: Payload, store: Store, blacklist: set<string>,
                                              domains: set<string>,
                           now: int)
    requires r.isActive
    ensures var s := SignalsAt(store, blacklist, Normalised(raw), now);
      && (r.ruleType == "email" ==>
            (Fires(r, s, domains) <==> r.ruleName == "disposable_email" && MailAtOneOf(raw.email, domains)))
      && (r.ruleType == "document" && (raw.pan == None || raw.pan == Some("")) ==> !Fires(r, s, domains))
      && (r.ruleType == "document" && raw.pan.Some? && raw.pan.value != "" ==>
            (Fires(r, s, domains) <==> r.ruleName == "invalid_pan_format" && Strip(Upper(raw.pan.value)) != ""
                                       && !PanShaped(Strip(Upper(raw.pan.value)))))
      && (r.ruleType == "device" ==>
            (Fires(r, s, domains) <==> r.ruleName == "blacklisted_device" && raw.deviceId.Some?
                                       && raw.deviceId.value != "" && raw.deviceId.value in blacklist))
  {
    RulesFire(r, SignalsAt(store, blacklist, Normalised(raw), now), domains);
    TypesDiffer();
    hide Fires, MailAtOneOf, PanShaped, PhoneSeen, IpVelocity, Strip, Upper;
  }

  /** The impacts of the stored rules that apply to the organisation and fire. */
  function FiringImpact(rules: seq<FraudRule>, org: Option<Id>, s: Signals, domains: set<string>): int {
    if rules == [] then 0
    else
      var last := rules[|rules| - 1];
      FiringImpact(rules[..|rules| - 1], org, s, domains)
      + (if (last.orgId == None || last.orgId == org) && Fires(last, s, domains) then last.scoreImpact else 0)
  }

  lemma {:induction false} ApplicableSum(rules: seq<FraudRule>, org: Option<Id>, s: Signals, domains: set<string>)
    ensures Sum(Applicable(rules, org), s, domains) == FiringImpact(rules, org, s, domains)
  {
    hide Triggered;
    if rules == [] {
    } else {
      var before, last := rules[..|rules| - 1], rules[|rules| - 1];
      ApplicableSum(before, org, s, domains);
      var a := Applicable(before, org);
      assert (a + [last])[..|a|] == a;
      assert a + [] == a;
    }
  }

  /** The score is the sum over the stored rules that are global or own and fire, cut off at 0 and 100. */
  lemma {:induction false} ScoreIs(rules: seq<FraudRule>, org: Option<Id>, s: Signals, domains: set<string>)
    ensures var sum := FiringImpact(rules, org, s, domains);
      Evaluate(ActiveRules(rules, org), s, domains).totalScore == if sum < 0 then 0 else if sum > 100 then 100 else sum
  {
    ActiveRulesIsAnswer(rules, org);
    hide ActiveRules, Applicable, Sum, FiringImpact;
    OrderDoesNotMatter(ActiveRules(rules, org), Applicable(rules, org), s, domains);
    ApplicableSum(rules, org, s, domains);
  }

  /** A simulation scores the payload as typed, for an unseen phone, a trusted device and no earlier requests. */
  lemma {:induction false} SimulatedScoreIs(rules: seq<FraudRule>, domains: set<string>, org: Option<Id>, raw: Payload)
    ensures var sum := FiringImpact(rules, org, Signals(raw, false, false, 0), domains);
      SimulateEvaluation(rules, domains, org, raw).totalScore == if sum < 0 then 0 else if sum > 100 then 100 else sum
  {
    ScoreIs(rules, org, Signals(raw, false, false, 0), domains);
    hide Evaluate, FiringImpact, ActiveRules;
  }

  // ---- Simulation against submission ----

  predicate PanFires(pan: Option<string>) { Given(pan) && !IsValidPan(pan.value) }

  /** The PAN as typed is only rejected when its upper-cased, trimmed form is still there and rejected too. */
  predicate PanAgrees(pan: Option<string>) { PanFires(pan) ==> PanFires(NormalisedPan(pan)) }

  lemma {:induction false} SimulatedRulesFire(r: FraudRule, raw: Payload, submit: Signals, domains: set<string>)
    requires PanAgrees(raw.pan) && submit.data == Normalised(raw) && submit.ipCount >= 0
    requires Fires(r, Signals(raw, false, false, 0), domains)
    ensures Fires(r, submit, domains)
  {
  }

  lemma {:induction false} ActiveRulesNonNegative(rules: seq<FraudRule>, org: Option<Id>)
    requires NonNegative(rules)
    ensures NonNegative(ActiveRules(rules, org))
  {
    var active := ActiveRules(rules, org);
    ActiveRulesIsAnswer(rules, org);
    ApplicableAreRules(rules, org);
    forall i | 0 <= i < |active| ensures active[i].scoreImpact >= 0 {
      assert active[i] in multiset(active);
    }
  }

  lemma {:induction false} ApplicableAreRules(rules: seq<FraudRule>, org: Option<Id>)
    ensures forall r :: r in multiset(Applicable(rules, org)) ==> r in rules && Applies(r, org)
  {
    if rules == [] {
    } else {
      ApplicableAreRules(rules[..|rules| - 1], org);
      assert rules == rules[..|rules| - 1] + [rules[|rules| - 1]];
    }
  }

  /**
   In any counter state, a simulation scores and decides no more severely than the submission would,
   given such a PAN.
   */
  lemma {:induction false} SimulateIsNoStricter(rules: seq<FraudRule>, store: Store, blacklist: set<string>,
                                                domains: set<string>,
                             org: Id, raw: Payload, now: int)
    requires NonNegative(rules) && PanAgrees(raw.pan)
    ensures var simulated := SimulateEvaluation(rules, domains, Some(org), raw).totalScore;
      var submitted := SubmitEvaluation(rules, store, blacklist, domains, org, raw, now).totalScore;
      simulated <= submitted && Severity(MakeDecision(simulated)) <= Severity(MakeDecision(submitted))
  {
    var active := ActiveRules(rules, Some(org));
    ActiveRulesNonNegative(rules, Some(org));
    var s, t := Signals(raw, false, false, 0), SignalsAt(store, blacklist, Normalised(raw), now);
    hide ActiveRules, Normalised, PanAgrees;
    forall i | 0 <= i < |active| && Fires(active[i], s, domains) ensures Fires(active[i], t, domains) {
      SimulatedRulesFire(active[i], raw, t, domains);
    }
    RaisingRaisesSum(active, s, t, domains);
    SeverityMonotone(Sum(active, s, domains), Sum(active, t, domains));
  }

  /** One rule that rejects every malformed PAN outright. */
  const PAN_RULE := FraudRule(0, None, BAD_PAN, "document", "", 61, true, map[])

  lemma {:induction false} OneActiveRule(rule: FraudRule, org: Option<Id>)
    requires rule.isActive && rule.orgId == None
    ensures ActiveRules([rule], org) == [rule]
  {
    assert [rule][..0] == [];
    assert Applicable([rule], org) == [rule];
    assert SortByImpact([rule]) == InsertByImpact(SortByImpact([]), rule) == [rule];
  }

  /** The PAN as typed fires the rule, its submitted form does not. */
  lemma {:induction false} PanRuleFires(raw: Payload, submit: Signals, domains: set<string>)
    requires !PanAgrees(raw.pan) && submit.data == Normalised(raw)
    ensures Fires(PAN_RULE, Signals(raw, false, false, 0), domains) && !Fires(PAN_RULE, submit, domains)
  {
    RulesFire(PAN_RULE, Signals(raw, false, false, 0), domains);
    hide IsValidPan, IsDisposable, Strip, Upper;
  }

  lemma {:induction false} PanRuleDecides(raw: Payload, store: Store, blacklist: set<string>, domains: set<string>,
                                          org: Id, now: int)
    requires !PanAgrees(raw.pan)
    ensures SimulateEvaluation([PAN_RULE], domains, Some(org), raw).totalScore == 61
    ensures SubmitEvaluation([PAN_RULE], store, blacklist, domains, org, raw, now).totalScore == 0
  {
    var s, t := Signals(raw, false, false, 0), SignalsAt(store, blacklist, Normalised(raw), now);
    hide ActiveRules, Fires, Sum, PanAgrees, Normalised, PhoneSeen, IpVelocity;
    OneActiveRule(PAN_RULE, Some(org));
    PanRuleFires(raw, t, domains);
    SingleRule(PAN_RULE, s, domains);
    SingleRule(PAN_RULE, t, domains);
  }

  /** For any other PAN some rule makes the simulation stricter, in score and in decision, so the condition is exact. */
  lemma {:induction false} SimulateIsNoStricterIff(raw: Payload, store: Store, blacklist: set<string>,
                                                   domains: set<string>, org: Id,
                                now: int)
    ensures PanAgrees(raw.pan) <==>
      forall rules :: NonNegative(rules) ==>
        SimulateEvaluation(rules, domains, Some(org), raw).totalScore
        <= SubmitEvaluation(rules, store, blacklist, domains, org, raw, now).totalScore
    ensures PanAgrees(raw.pan) <==>
      forall rules :: NonNegative(rules) ==>
        Severity(MakeDecision(SimulateEvaluation(rules, domains, Some(org), raw).totalScore))
        <= Severity(MakeDecision(SubmitEvaluation(rules, store, blacklist, domains, org, raw, now).totalScore))
  {
    hide PanAgrees, SimulateEvaluation, SubmitEvaluation;
    if PanAgrees(raw.pan) {
      hide NonNegative, Severity, MakeDecision;
      forall rules | NonNegative(rules)
        ensures SimulateEvaluation(rules, domains, Some(org), raw).totalScore
             <= SubmitEvaluation(rules, store, blacklist, domains, org, raw, now).totalScore
        ensures Severity(MakeDecision(SimulateEvaluation(rules, domains, Some(org), raw).totalScore))
             <= Severity(MakeDecision(SubmitEvaluation(rules, store, blacklist, domains, org, raw, now).totalScore))
      {
        SimulateIsNoStricter(rules, store, blacklist, domains, org, raw, now);
      }
    } else {
      PanRuleDecides(raw, store, blacklist, domains, org, now);
      assert NonNegative([PAN_RULE]);
      SeverityEnds();
    }
  }

  lemma {:induction false} SeverityEnds()
    ensures Severity(MakeDecision(61)) == 2 && Severity(MakeDecision(0)) == 0
  {
    assert |"REJECT"| == 6 && |"REVIEW"| == 6 && |"APPROVED"| == 8 && "REJECT"[2] == 'J' && "REVIEW"[2] == 'V';
  }

  lemma {:induction false} SingleRule(r: FraudRule, s: Signals, domains: set<string>)
    ensures Sum([r], s, domains) == if Fires(r, s, domains) then r.scoreImpact else 0
  {
    assert [r][..0] == [];
  }

  lemma {:induction false} Trimmed(s: string)
    requires s != "" && !IsSpace(s[0]) && !IsSpace(s[|s| - 1])
    ensures Strip(s) == s
  {
  }

  lemma {:induction false} LowerCasePan()
    ensures !PanAgrees(Some("abcde1234f"))
  {
    var typed, upper := "abcde1234f", "ABCDE1234F";
    Trimmed(typed);
    Trimmed(upper);
    hide Strip;
    var u := Upper(typed);
    assert u[0] == 'A' && u[1] == 'B' && u[2] == 'C' && u[3] == 'D' && u[4] == 'E';
    assert u[5] == '1' && u[6] == '2' && u[7] == '3' && u[8] == '4' && u[9] == 'F';
    assert u == upper;
    assert !IsUpperLetter(typed[0]);
  }

  lemma {:induction false} BlankPan()
    ensures !PanAgrees(Some(" "))
  {
    assert Upper(" ") == " ";
    assert StripLeft(" ", IsSpace) == "" by {
      assert " "[1..] == "";
    }
    assert Strip(" ") == "";
  }

  /** Two PANs that break it: a valid number typed in lower case, and blanks. */
  lemma {:induction false} PansThatDisagree()
    ensures !PanAgrees(Some("abcde1234f")) && !PanAgrees(Some(" "))
  {
    LowerCasePan();
    BlankPan();
  }
}
