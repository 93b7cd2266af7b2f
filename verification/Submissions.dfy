/** What holds over every run for the submissions: their signals, their scores and the rows they leave. */
module Submissions {
  import opened Common
  import opened Schema
  import opened Text
  import opened TtlStore
  import opened RateLimiter
  import opened Counters
  import opened FraudRules
  import opened FraudEngine
  import opened Verification
  import opened Traffic

  /** When the payloads with this phone were submitted. */
  function PhoneTimes(run: seq<Event>, phone: string): seq<int> {
    if run == [] then []
    else
      var last := run[|run| - 1];
      PhoneTimes(run[..|run| - 1], phone) + (if last.Submit? && last.raw.phone == Some(phone) then [last.at] else [])
  }

  /** When the payloads with this address were submitted. */
  function IpTimes(run: seq<Event>, ip: string): seq<int> {
    if run == [] then []
    else
      var last := run[|run| - 1];
      IpTimes(run[..|run| - 1], ip) + (if last.Submit? && last.raw.ipAddress == Some(ip) then [last.at] else [])
  }

  lemma {:induction false} TimesConcat(a: seq<Touch>, b: seq<Touch>, key: string)
    ensures TimesOf(a + b, key) == TimesOf(a, key) + TimesOf(b, key)
  {
    if b == [] {
      assert a + b == a;
    } else {
      assert (a + b)[..|a + b| - 1] == a + b[..|b| - 1];
      TimesConcat(a, b[..|b| - 1], key);
    }
  }

  lemma {:induction false} OneTouch(t: Touch, key: string)
    ensures TimesOf([t], key) == if t.key == key then [t.at] else []
  {
    assert [t][..0] == [];
  }

  lemma {:induction false} EventTimes(e: Event, phone: string, ip: string)
    requires phone != "" && ip != ""
    ensures TimesOf(TouchesOf(e), PhoneKey(phone)) == if e.Submit? && e.raw.phone == Some(phone) then [e.at] else []
    ensures TimesOf(TouchesOf(e), IpKey(ip)) == if e.Submit? && e.raw.ipAddress == Some(ip) then [e.at] else []
  {
    if e.Hit? {
      KeysDiffer(e.request, phone, ip);
      OneTouch(TouchesOf(e)[0], PhoneKey(phone));
      OneTouch(TouchesOf(e)[0], IpKey(ip));
    } else if e.Submit? {
      var own := if Given(e.raw.phone) then [Touch(e.at, PhoneKey(e.raw.phone.value), PHONE_TTL, false)] else [];
      var rest := if Given(e.raw.ipAddress) then [Touch(e.at, IpKey(e.raw.ipAddress.value), IP_TTL, false)] else [];
      assert TouchesOf(e) == own + rest;
      TimesConcat(own, rest, PhoneKey(phone));
      TimesConcat(own, rest, IpKey(ip));
      if own != [] {
        KeysInjective(e.raw.phone.value, phone);
        KeysDiffer(HttpRequest(None, None, None), e.raw.phone.value, ip);
        OneTouch(own[0], PhoneKey(phone));
        OneTouch(own[0], IpKey(ip));
      }
      if rest != [] {
        KeysInjective(e.raw.ipAddress.value, ip);
        KeysDiffer(HttpRequest(None, None, None), phone, e.raw.ipAddress.value);
        OneTouch(rest[0], PhoneKey(phone));
        OneTouch(rest[0], IpKey(ip));
      }
    }
  }

  lemma {:induction false} RunTimes(run: seq<Event>, phone: string, ip: string)
    requires phone != "" && ip != ""
    ensures TimesOf(Flatten(run), PhoneKey(phone)) == PhoneTimes(run, phone)
    ensures TimesOf(Flatten(run), IpKey(ip)) == IpTimes(run, ip)
  {
    if run == [] {
    } else {
      var before, last := run[..|run| - 1], run[|run| - 1];
      RunTimes(before, phone, ip);
      EventTimes(last, phone, ip);
      TimesConcat(Flatten(before), TouchesOf(last), PhoneKey(phone));
      TimesConcat(Flatten(before), TouchesOf(last), IpKey(ip));
    }
  }

  lemma {:induction false} TimesSorted(run: seq<Event>, phone: string, ip: string, now: int)
    requires InOrder(run) && forall m :: 0 <= m < |run| && !run[m].ChangeRules? ==> run[m].at <= now
    ensures Sorted(PhoneTimes(run, phone), now) && Sorted(IpTimes(run, ip), now)
  {
    if run == [] {
    } else {
      var before, last := run[..|run| - 1], run[|run| - 1];
      TimesSorted(before, phone, ip, if last.ChangeRules? then now else last.at);
    }
  }

  /**
   The velocity read for an address is the length of the longest chain of its submissions up
   to now with every gap under an hour; it is never below the number in the last hour, and
   equals that number exactly when a full hour passed before the first of them.
   */
  lemma {:induction false} VelocityIsChain(env: Env, seeds: seq<FraudRule>, run: seq<Event>, ip: string, now: int)
    requires InOrder(run) && (forall m :: 0 <= m < |run| && !run[m].ChangeRules? ==> run[m].at <= now) && ip != ""
    ensures var times := IpTimes(run, ip); var n := IpVelocity(SysAfter(env, seeds, run).store, Some(ip), now);
      var hour := 3600 * SECOND; var recent := Recent(times, now, hour);
      var chain := |times| - n; var first := |times| - recent;
      && chain >= 0 && ShortGapsFrom(times, chain, now, hour) && IdleBefore(times, chain, now, hour)
      && n >= recent
      && (n == recent <==> IdleBefore(times, first, now, hour))
  {
    hide SysAfter, IpTimes, Chain, Recent, IpVelocity, ShortGapsFrom, IdleBefore;
    VelocityReads(env, seeds, run, ip, now);
    TimesSorted(run, "x", ip, now);
    hide InOrder, Sorted;
    ChainIsMaximal(IpTimes(run, ip), now, IP_TTL);
    ChainVersusRecent(IpTimes(run, ip), now, IP_TTL);
  }

  lemma {:induction false} VelocityReads(env: Env, seeds: seq<FraudRule>, run: seq<Event>, ip: string, now: int)
    requires ip != ""
    ensures IpVelocity(SysAfter(env, seeds, run).store, Some(ip), now) == Chain(IpTimes(run, ip), now, IP_TTL)
  {
    StoreIsRun(env, seeds, run);
    FlattenShapes(run, HttpRequest(None, None, None), "x", ip);
    CounterIsChain(Flatten(run), IpKey(ip), IP_TTL, now);
    RunTimes(run, "x", ip);
  }

  /** Submissions at 0 and 40 minutes, read at 80: the velocity is 2, though only one fell in the last hour. */
  lemma {:induction false} VelocityOutlivesHour(env: Env, seeds: seq<FraudRule>, org: Id, raw: Payload, ip: string)
    returns (run: seq<Event>, now: int)
    requires raw.ipAddress == Some(ip) && ip != ""
    ensures InOrder(run) && (forall m :: 0 <= m < |run| ==> run[m].Submit? && run[m].at <= now) && FreshIds(run)
    ensures IpVelocity(SysAfter(env, seeds, run).store, Some(ip), now) == 2
    ensures Recent(IpTimes(run, ip), now, 3600 * SECOND) == 1
  {
    run, now := [Submit(0, org, raw, 1), Submit(2400 * SECOND, org, raw, 2)], 4800 * SECOND;
    TwoInOrder(run[0], run[1], now);
    hide *;
    VelocityReads(env, seeds, run, ip, now);
    TwoIpTimes(run[0], run[1], ip);
    ChainOfTwo(now);
  }

  lemma {:induction false} TwoInOrder(a: Event, b: Event, now: int)
    requires a.Submit? && b.Submit? && a.id != b.id && a.at <= b.at <= now
    ensures InOrder([a, b]) && FreshIds([a, b]) && forall m :: 0 <= m < 2 ==> [a, b][m].Submit? && [a, b][m].at <= now
  {
  }

  lemma {:induction false} TwoIpTimes(a: Event, b: Event, ip: string)
    requires a.Submit? && b.Submit? && a.raw.ipAddress == b.raw.ipAddress == Some(ip)
    ensures IpTimes([a, b], ip) == [a.at, b.at]
  {
    assert [a, b][..1] == [a] && [a][..0] == [];
    assert IpTimes([a], ip) == [a.at];
  }

  lemma {:induction false} ChainOfTwo(now: int)
    requires now == 4800 * SECOND
    ensures Chain([0, 2400 * SECOND], now, IP_TTL) == 2 && Recent([0, 2400 * SECOND], now, 3600 * SECOND) == 1
  {
    assert [0, 2400 * SECOND][..1] == [0] && [0][..0] == [];
    assert Chain([0], 2400 * SECOND, IP_TTL) == 1 && Recent([0], now, 3600 * SECOND) == 0;
  }

  lemma {:induction false} PhoneTimesAre(run: seq<Event>, phone: string, t: int)
    ensures t in PhoneTimes(run, phone) <==>
      exists m :: 0 <= m < |run| && run[m].Submit? && run[m].raw.phone == Some(phone) && run[m].at == t
  {
    if run == [] {
    } else {
      var before, last := run[..|run| - 1], run[|run| - 1];
      PhoneTimesAre(before, phone, t);
      if t in PhoneTimes(before, phone) {
        var m :| 0 <= m < |before| && before[m].Submit? && before[m].raw.phone == Some(phone) && before[m].at == t;
        assert run[m] == before[m];
      } else if t in PhoneTimes(run, phone) {
        assert run[|run| - 1].at == t;
      }
      if m :| 0 <= m < |run| && run[m].Submit? && run[m].raw.phone == Some(phone) && run[m].at == t {
        if m < |before| { assert before[m] == run[m]; }
      }
    }
  }

  ghost predicate SubmittedPhoneSince(run: seq<Event>, phone: string, since: int) {
    exists m :: 0 <= m < |run| && run[m].Submit? && run[m].raw.phone == Some(phone) && since < run[m].at
  }

  /** A phone counts as seen exactly when some payload with it was submitted less than thirty days ago. */
  lemma {:induction false} PhoneSeenIff(env: Env, seeds: seq<FraudRule>, run: seq<Event>, phone: string, now: int)
    requires InOrder(run) && (forall m :: 0 <= m < |run| && !run[m].ChangeRules? ==> run[m].at <= now) && phone != ""
    ensures PhoneSeen(SysAfter(env, seeds, run).store, Some(phone), now)
      <==> SubmittedPhoneSince(run, phone, now - 30 * 86400 * SECOND)
  {
    StoreIsRun(env, seeds, run);
    FlattenShapes(run, HttpRequest(None, None, None), phone, "x");
    CounterIsChain(Flatten(run), PhoneKey(phone), PHONE_TTL, now);
    RunTimes(run, phone, "x");
    TimesSorted(run, phone, "x", now);
    var times := PhoneTimes(run, phone);
    PositiveIffRecent(times, now, PHONE_TTL);
    if i :| 0 <= i < |times| && now < times[i] + PHONE_TTL {
      PhoneTimesAre(run, phone, times[i]);
    }
    if m :| 0 <= m < |run| && run[m].Submit? && run[m].raw.phone == Some(phone) && now - PHONE_TTL < run[m].at {
      PhoneTimesAre(run, phone, run[m].at);
      var i :| 0 <= i < |times| && times[i] == run[m].at;
    }
  }

  /** When the two rules fed by the counters fire on the i-th event, in terms of the earlier submissions alone. */
  lemma {:induction false} StatefulRulesFire(env: Env, seeds: seq<FraudRule>, run: seq<Event>, i: nat, r: FraudRule)
    requires InOrder(run) && i < |run| && run[i].Submit? && r.isActive
    ensures var s := SignalsAt(SysAfter(env, seeds, run[..i]).store, env.blacklist, Normalised(run[i].raw), run[i].at);
      && (r.ruleType == "phone" && r.ruleName == PHONE_REUSED && Given(run[i].raw.phone) ==>
            (Fires(r, s, env.domains) <==>
              SubmittedPhoneSince(run[..i], run[i].raw.phone.value, run[i].at - 30 * 86400 * SECOND)))
      && (r.ruleType == "velocity" && r.ruleName == VELOCITY && Given(run[i].raw.ipAddress) ==>
            (Fires(r, s, env.domains) <==>
              Chain(IpTimes(run[..i], run[i].raw.ipAddress.value), run[i].at, 3600 * SECOND)
              >= if "max_requests" in r.config then r.config["max_requests"] else 5))
  {
    if Given(run[i].raw.phone) {
      PhoneSeenIff(env, seeds, run[..i], run[i].raw.phone.value, run[i].at);
    }
    if Given(run[i].raw.ipAddress) {
      VelocityReads(env, seeds, run[..i], run[i].raw.ipAddress.value, run[i].at);
    }
    TypesDiffer();
    hide SysAfter, IpTimes, Chain, SubmittedPhoneSince, PhoneSeen, IpVelocity;
  }

  // ---- Resubmission ----

  /** Later submissions, all within one `ttl` of `t`, only lengthen the chain. */
  lemma {:induction false} ChainGrows(times: seq<int>, t: int, rest: seq<int>, now: int, ttl: int)
    requires Sorted(times + [t] + rest, now) && now < t + ttl
    ensures Chain(times + [t] + rest, now, ttl) >= Chain(times, t, ttl) + 1
  {
    var all := times + [t] + rest;
    if rest == [] {
      assert all[..|all| - 1] == times && all[|all| - 1] == t;
    } else {
      var before, last := rest[..|rest| - 1], rest[|rest| - 1];
      var shorter := times + [t] + before;
      assert all[..|all| - 1] == shorter && all[|all| - 1] == last && all[|times|] == t;
      assert forall i :: 0 <= i < |shorter| ==> shorter[i] == all[i] && all[i] <= last;
      ChainGrows(times, t, before, last, ttl);
    }
  }

  lemma {:induction false} IpTimesExtend(run: seq<Event>, i: nat, ip: string) returns (rest: seq<int>)
    requires i < |run| && run[i].Submit? && run[i].raw.ipAddress == Some(ip)
    ensures IpTimes(run, ip) == IpTimes(run[..i], ip) + [run[i].at] + rest
  {
    var before := run[..|run| - 1];
    if i == |before| {
      rest := [];
    } else {
      var shorter := IpTimesExtend(before, i, ip);
      assert before[..i] == run[..i];
      rest := shorter + IpTimes(run, ip)[|IpTimes(before, ip)|..];
    }
  }

  lemma {:induction false} RulesInRange(env: Env, seeds: seq<FraudRule>, run: seq<Event>)
    requires ImpactsInRange(seeds)
    ensures ImpactsInRange(SysAfter(env, seeds, run).db.rules)
  {
    if run == [] {
    } else {
      var before, last := run[..|run| - 1], run[|run| - 1];
      RulesInRange(env, seeds, before);
      if last.ChangeRules? {
        var rules := SysAfter(env, seeds, before).db.rules;
        ImpactsStayInRange(rules, [last.call]);
        assert RulesAfter(rules, [last.call][..0]) == rules;
      }
    }
  }

  /** Event `j` submits the payload of event `i` again, for the same organisation, less than an hour later. */
  ghost predicate Resubmits(run: seq<Event>, i: nat, j: nat) {
    && i < j < |run| && run[i].Submit? && run[j].Submit?
    && run[i].raw == run[j].raw && run[i].org == run[j].org && run[j].at < run[i].at + 3600 * SECOND
  }

  lemma {:induction false} SignalsRise(env: Env, seeds: seq<FraudRule>, run: seq<Event>, i: nat, j: nat)
    requires InOrder(run) && Resubmits(run, i, j)
    ensures var data := Normalised(run[i].raw);
      Raises(SignalsAt(SysAfter(env, seeds, run[..i]).store, env.blacklist, data, run[i].at),
             SignalsAt(SysAfter(env, seeds, run[..j]).store, env.blacklist, data, run[j].at))
  {
    var data := run[i].raw;
    if Given(data.ipAddress) {
      VelocityRises(env, seeds, run, i, j);
    }
    if Given(data.phone) {
      PhoneSeenIff(env, seeds, run[..j], data.phone.value, run[j].at);
      assert run[..j][i] == run[i];
    }
  }

  lemma {:induction false} VelocityRises(env: Env, seeds: seq<FraudRule>, run: seq<Event>, i: nat, j: nat)
    requires InOrder(run) && i < j < |run| && run[i].Submit? && run[j].Submit? && run[i].raw == run[j].raw
    requires run[i].raw.ipAddress.Some? && run[i].raw.ipAddress.value != "" && run[j].at < run[i].at + IP_TTL
    ensures IpVelocity(SysAfter(env, seeds, run[..i]).store, run[i].raw.ipAddress, run[i].at)
          < IpVelocity(SysAfter(env, seeds, run[..j]).store, run[j].raw.ipAddress, run[j].at)
  {
    var ip := run[i].raw.ipAddress.value;
    hide *;
    VelocityReads(env, seeds, run[..i], ip, run[i].at);
    VelocityReads(env, seeds, run[..j], ip, run[j].at);
    TimesUpTo(run, j, ip);
    var rest := TimesBetween(run, i, j, ip);
    ChainGrows(IpTimes(run[..i], ip), run[i].at, rest, run[j].at, IP_TTL);
  }

  lemma {:induction false} TimesUpTo(run: seq<Event>, j: nat, ip: string)
    requires InOrder(run) && j < |run| && run[j].Submit?
    ensures Sorted(IpTimes(run[..j], ip), run[j].at)
  {
    TimesSorted(run[..j], "x", ip, run[j].at);
  }

  lemma {:induction false} TimesBetween(run: seq<Event>, i: nat, j: nat, ip: string) returns (rest: seq<int>)
    requires i < j < |run| && run[i].Submit? && run[i].raw.ipAddress == Some(ip)
    ensures IpTimes(run[..j], ip) == IpTimes(run[..i], ip) + [run[i].at] + rest
  {
    assert run[..j][..i] == run[..i] && run[..j][i] == run[i];
    hide IpTimes;
    rest := IpTimesExtend(run[..j], i, ip);
  }

  /**
   Resubmitting a payload within the hour, under unchanged rules, never lowers its score or the
   severity of its decision.
   */
  lemma {:induction false} ResubmissionNeverHelps(env: Env, seeds: seq<FraudRule>, run: seq<Event>, i: nat, j: nat)
    requires InOrder(run) && Resubmits(run, i, j) && ImpactsInRange(seeds)
    requires SysAfter(env, seeds, run[..i]).db.rules == SysAfter(env, seeds, run[..j]).db.rules
    ensures var x := EvaluationAt(env, SysAfter(env, seeds, run[..i]), run[i]).totalScore;
      var y := EvaluationAt(env, SysAfter(env, seeds, run[..j]), run[j]).totalScore;
      x <= y && Severity(MakeDecision(x)) <= Severity(MakeDecision(y))
  {
    var rules := SysAfter(env, seeds, run[..i]).db.rules;
    RulesInRange(env, seeds, run[..i]);
    ActiveRulesNonNegative(rules, Some(run[i].org));
    SignalsRise(env, seeds, run, i, j);
    hide SysAfter, SignalsAt, ActiveRules, Evaluate, MakeDecision, Severity, Raises, NonNegative;
    RaisingNeverLowers(
      ActiveRules(rules, Some(run[i].org)),
      SignalsAt(SysAfter(env, seeds, run[..i]).store, env.blacklist, Normalised(run[i].raw), run[i].at),
      SignalsAt(SysAfter(env, seeds, run[..j]).store, env.blacklist, Normalised(run[j].raw), run[j].at),
      env.domains);
  }

  /** The events at the given places resubmit one payload, each within an hour of the one before. */
  ghost predicate ResubmissionChain(run: seq<Event>, places: seq<nat>) {
    forall k :: 0 < k < |places| ==> Resubmits(run, places[k - 1], places[k])
  }

  ghost predicate SameRulesAt(env: Env, seeds: seq<FraudRule>, run: seq<Event>, places: seq<nat>,
                              rules: seq<FraudRule>) {
    forall k :: 0 <= k < |places| ==> places[k] < |run| && SysAfter(env, seeds, run[..places[k]]).db.rules == rules
  }

  function ScoreAt(env: Env, seeds: seq<FraudRule>, run: seq<Event>, i: nat): int
    requires i < |run| && run[i].Submit?
  {
    EvaluationAt(env, SysAfter(env, seeds, run[..i]), run[i]).totalScore
  }

  lemma {:induction false} LinkOf(run: seq<Event>, places: seq<nat>, q: nat)
    requires ResubmissionChain(run, places) && 0 < q < |places|
    ensures Resubmits(run, places[q - 1], places[q])
    ensures places[q] < |run| && places[q - 1] < |run| && run[places[q - 1]].Submit? && run[places[q]].Submit?
  {
  }

  lemma {:induction false} RulesAt(env: Env, seeds: seq<FraudRule>, run: seq<Event>, places: seq<nat>,
                                   rules: seq<FraudRule>, q: nat)
    requires SameRulesAt(env, seeds, run, places, rules) && q < |places|
    ensures places[q] < |run| && SysAfter(env, seeds, run[..places[q]]).db.rules == rules
  {
    hide SysAfter;
  }

  /**
   Over a whole chain of resubmissions with gaps under an hour, whatever happens in between, scores
   and severities never fall.
   */
  lemma {:induction false} ScoresRiseAlongChain(env: Env, seeds: seq<FraudRule>, run: seq<Event>, places: seq<nat>,
                                                rules: seq<FraudRule>, p: nat, q: nat)
    requires InOrder(run) && ImpactsInRange(seeds) && ResubmissionChain(run, places)
    requires SameRulesAt(env, seeds, run, places, rules) && p <= q < |places| && |places| >= 2
    ensures places[p] < |run| && places[q] < |run| && run[places[p]].Submit? && run[places[q]].Submit?
    ensures var x, y := ScoreAt(env, seeds, run, places[p]), ScoreAt(env, seeds, run, places[q]);
      x <= y && Severity(MakeDecision(x)) <= Severity(MakeDecision(y))
  {
    hide *;
    if p == q {
      LinkOf(run, places, if p == 0 then 1 else p);
    } else {
      ScoresRiseAlongChain(env, seeds, run, places, rules, p, q - 1);
      LinkOf(run, places, q);
      RulesAt(env, seeds, run, places, rules, q - 1);
      RulesAt(env, seeds, run, places, rules, q);
      ResubmissionRises(env, seeds, run, places[q - 1], places[q]);
    }
  }

  lemma {:induction false} ResubmissionRises(env: Env, seeds: seq<FraudRule>, run: seq<Event>, i: nat, j: nat)
    requires InOrder(run) && i < |run| && j < |run| && run[i].Submit? && run[j].Submit? && Resubmits(run, i, j)
    requires ImpactsInRange(seeds) && SysAfter(env, seeds, run[..i]).db.rules == SysAfter(env, seeds, run[..j]).db.rules
    ensures var x, y := ScoreAt(env, seeds, run, i), ScoreAt(env, seeds, run, j);
      x <= y && Severity(MakeDecision(x)) <= Severity(MakeDecision(y))
  {
    hide SysAfter, EvaluationAt, MakeDecision, Severity, InOrder, Resubmits, ImpactsInRange;
    ResubmissionNeverHelps(env, seeds, run, i, j);
  }

  // ---- The stored rows ----

  ghost predicate CleanRow(request: RequestRow, result: ResultRow) {
    && request.status == "completed" && result.requestId == request.id
    && 0 <= result.riskScore <= 100 && result.decision == MakeDecision(result.riskScore)
  }

  ghost predicate FreshIds(run: seq<Event>) {
    forall i, j :: 0 <= i < j < |run| && run[i].Submit? && run[j].Submit? ==> run[i].id != run[j].id
  }

  ghost predicate Drawn(run: seq<Event>, id: Id) {
    exists m :: 0 <= m < |run| && run[m].Submit? && run[m].id == id
  }

  lemma {:induction false} DrawnGrows(run: seq<Event>, e: Event, id: Id)
    ensures Drawn(run + [e], id) <==> Drawn(run, id) || (e.Submit? && e.id == id)
  {
    var all := run + [e];
    if Drawn(run, id) {
      var m :| 0 <= m < |run| && run[m].Submit? && run[m].id == id;
      assert all[m] == run[m];
    }
    assert all[|run|] == e;
  }

  /** The stored rows after a run: paired, clean, and under ids drawn in it. */
  ghost predicate CleanRows(run: seq<Event>, requests: seq<RequestRow>, results: seq<ResultRow>) {
    && |requests| == |results|
    && (forall k :: 0 <= k < |requests| ==> CleanRow(requests[k], results[k]))
    && (forall k, l :: 0 <= k < l < |requests| ==> requests[k].id != requests[l].id)
    && (forall k :: 0 <= k < |requests| ==> Drawn(run, requests[k].id))
  }

  lemma {:induction false} CleanStep(run: seq<Event>, e: Event, requests: seq<RequestRow>, results: seq<ResultRow>,
                  request: seq<RequestRow>, result: seq<ResultRow>)
    requires CleanRows(run, requests, results)
    requires if e.Submit? then
               && |request| == |result| == 1 && CleanRow(request[0], result[0])
               && request[0].id == e.id && !Drawn(run, e.id)
             else request == [] && result == []
    ensures CleanRows(run + [e], requests + request, results + result)
  {
    var all := requests + request;
    forall k | 0 <= k < |all| ensures Drawn(run + [e], all[k].id) {
      DrawnGrows(run, e, all[k].id);
    }
    hide Drawn, CleanRow;
  }

  lemma {:induction false} SysOneMore(env: Env, seeds: seq<FraudRule>, run: seq<Event>)
    requires run != []
    ensures SysAfter(env, seeds, run) == Next(env, SysAfter(env, seeds, run[..|run| - 1]), run[|run| - 1])
  {
    hide Next;
  }

  lemma {:induction false} LastIsNew(run: seq<Event>)
    requires run != [] && FreshIds(run)
    ensures var before, last := run[..|run| - 1], run[|run| - 1];
      FreshIds(before) && before + [last] == run && (last.Submit? ==> !Drawn(before, last.id))
  {
  }

  lemma {:induction false} NoRows()
    ensures CleanRows([], [], [])
  {
  }

  /**
   Every stored request is completed and has exactly one result, with its score in range and its
   decision from the score.
   */
  lemma {:induction false} RowsAreClean(env: Env, seeds: seq<FraudRule>, run: seq<Event>)
    requires FreshIds(run)
    ensures var db := SysAfter(env, seeds, run).db; CleanRows(run, db.requests, db.results)
  {
    if run == [] {
      hide CleanRows;
      NoRows();
    } else {
      hide *;
      var before, last := run[..|run| - 1], run[|run| - 1];
      LastIsNew(run);
      RowsAreClean(env, seeds, before);
      SysOneMore(env, seeds, run);
      var sys := SysAfter(env, seeds, before);
      var request, result := NextRows(env, sys, last);
      CleanStep(before, last, sys.db.requests, sys.db.results, request, result);
    }
  }

  /** The rows a submission leaves: the request as sent but for its PAN, and its result. */
  ghost predicate RowsOf(request: RequestRow, result: ResultRow, e: Event, evaluation: Evaluation)
    requires e.Submit?
  {
    && request.id == e.id && request.orgId == e.org && request.createdAt == e.at && request.status == "completed"
    && request.data.(pan := None) == e.raw.(pan := None)
    && request.data.pan == (if e.raw.pan.Some? && e.raw.pan.value != "" then Some(Strip(Upper(e.raw.pan.value)))
                            else e.raw.pan)
    && result.requestId == e.id && result.riskScore == evaluation.totalScore
    && result.decision == MakeDecision(evaluation.totalScore)
    && result.reasons == evaluation.reasons && result.breakdown == evaluation.breakdown
  }

  lemma {:induction false} NextRows(env: Env, sys: Sys, e: Event)
    returns (request: seq<RequestRow>, result: seq<ResultRow>)
    ensures var db, db' := sys.db, Next(env, sys, e).db;
      && db'.requests == db.requests + request && db'.results == db.results + result
      && if e.Submit? then
           && |request| == |result| == 1 && CleanRow(request[0], result[0]) && request[0].id == e.id
           && RowsOf(request[0], result[0], e, EvaluationAt(env, sys, e))
         else request == [] && result == []
  {
    request, result := [], [];
    if e.Submit? {
      EvaluationInRange(env, sys, e);
      var evaluation := EvaluationAt(env, sys, e);
      hide EvaluationAt, Strip, Upper, MakeDecision;
      request := [RequestRow(e.id, e.org, Normalised(e.raw), "completed", e.at)];
      result := [ResultRow(e.id, evaluation.totalScore, MakeDecision(evaluation.totalScore),
                           evaluation.reasons, evaluation.breakdown)];
    }
  }

  /** Row `k` holds event `i` of the run, and no other row has its id. */
  ghost predicate HoldsAt(env: Env, seeds: seq<FraudRule>, run: seq<Event>, i: nat, db: Tables, k: nat)
    requires i < |run| && run[i].Submit?
  {
    && k < |db.requests| == |db.results|
    && RowsOf(db.requests[k], db.results[k], run[i], EvaluationAt(env, SysAfter(env, seeds, run[..i]), run[i]))
    && (forall l :: 0 <= l < |db.requests| && db.requests[l].id == run[i].id ==> l == k)
    && (forall l :: 0 <= l < |db.results| && db.results[l].requestId == run[i].id ==> l == k)
  }

  lemma {:induction false} IdsApart(run: seq<Event>, db: Tables, k: nat, id: Id)
    requires CleanRows(run, db.requests, db.results) && k < |db.requests| && db.requests[k].id == id
    ensures forall l :: 0 <= l < |db.requests| && db.requests[l].id == id ==> l == k
    ensures forall l :: 0 <= l < |db.results| && db.results[l].requestId == id ==> l == k
  {
    assert forall l :: 0 <= l < |db.requests| ==> CleanRow(db.requests[l], db.results[l]);
    hide Drawn;
  }

  lemma {:induction false} RowStored(env: Env, seeds: seq<FraudRule>, run: seq<Event>, i: nat) returns (k: nat)
    requires i < |run| && run[i].Submit? && FreshIds(run)
    ensures var db := SysAfter(env, seeds, run).db;
      && k < |db.requests| == |db.results|
      && RowsOf(db.requests[k], db.results[k], run[i], EvaluationAt(env, SysAfter(env, seeds, run[..i]), run[i]))
  {
    hide *;
    var before, last := run[..|run| - 1], run[|run| - 1];
    LastIsNew(run);
    RowsAreClean(env, seeds, before);
    PairedLengths(before, SysAfter(env, seeds, before).db);
    SysOneMore(env, seeds, run);
    var request, result := NextRows(env, SysAfter(env, seeds, before), last);
    if i == |run| - 1 {
      k := |SysAfter(env, seeds, before).db.requests|;
    } else {
      assert before[..i] == run[..i] && before[i] == run[i];
      k := RowStored(env, seeds, before, i);
    }
  }

  lemma {:induction false} PairedLengths(run: seq<Event>, db: Tables)
    requires CleanRows(run, db.requests, db.results)
    ensures |db.requests| == |db.results|
  {
  }

  /**
   In the database after a run every submission has exactly one request and one result: the payload, organisation and
   moment of the event, and the score, decision, reasons and breakdown it was answered with.
   */
  lemma {:induction false} StoredAsScored(env: Env, seeds: seq<FraudRule>, run: seq<Event>, i: nat) returns (k: nat)
    requires i < |run| && run[i].Submit? && FreshIds(run)
    ensures HoldsAt(env, seeds, run, i, SysAfter(env, seeds, run).db, k)
    ensures SysAfter(env, seeds, run).db.results[k].riskScore == ScoreAt(env, seeds, run, i)
  {
    k := RowStored(env, seeds, run, i);
    RowsAreClean(env, seeds, run);
    hide SysAfter, EvaluationAt, CleanRows, FreshIds;
    IdsApart(run, SysAfter(env, seeds, run).db, k, run[i].id);
    hide MakeDecision, Strip, Upper;
  }

  /** The score of a submission: the impacts of the stored rules of its moment that apply and fire, within 0..100. */
  lemma {:induction false} ScoreAtIs(env: Env, seeds: seq<FraudRule>, run: seq<Event>, i: nat)
    requires i < |run| && run[i].Submit?
    ensures var sys, e := SysAfter(env, seeds, run[..i]), run[i];
      var s := SignalsAt(sys.store, env.blacklist, Normalised(e.raw), e.at);
      var sum := FiringImpact(sys.db.rules, Some(e.org), s, env.domains);
      ScoreAt(env, seeds, run, i) == if sum < 0 then 0 else if sum > 100 then 100 else sum
  {
    var sys, e := SysAfter(env, seeds, run[..i]), run[i];
    var s := SignalsAt(sys.store, env.blacklist, Normalised(e.raw), e.at);
    hide SysAfter, SignalsAt, FiringImpact, Evaluate, ActiveRules, Normalised;
    ScoreIs(sys.db.rules, Some(e.org), s, env.domains);
  }

  /** Each submission shows in the history with the score and decision it was answered with. */
  lemma {:induction false} HistoryShowsScore(env: Env, seeds: seq<FraudRule>, run: seq<Event>, i: nat, k: nat)
    requires i < |run| && run[i].Submit? && FreshIds(run)
    requires var db := SysAfter(env, seeds, run).db; k < |db.requests| && db.requests[k].id == run[i].id
    ensures var db, score := SysAfter(env, seeds, run).db, ScoreAt(env, seeds, run, i);
      ItemOf(db.requests[k], db.results)
      == HistoryItem(run[i].id, run[i].raw.email, score, MakeDecision(score), "completed", run[i].at)
  {
    var n := StoredAsScored(env, seeds, run, i);
    hide SysAfter, EvaluationAt, MakeDecision, Strip, Upper, FreshIds;
    var db := SysAfter(env, seeds, run).db;
    assert n == k;
    assert db.requests[k].data.email == run[i].raw.email by {
      assert db.requests[k].data.(pan := None).email == run[i].raw.(pan := None).email;
    }
    assert FindResult(db.results, run[i].id) == k;
    hide FindResult;
  }

  lemma {:induction false} EvaluationInRange(env: Env, sys: Sys, e: Event)
    requires e.Submit?
    ensures 0 <= EvaluationAt(env, sys, e).totalScore <= 100
  {
  }
}
