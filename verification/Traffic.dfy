/**
 Runs of everything that moves the counters or the verification tables: limited requests,
 submissions and rule changes, over one Redis store and one database.
 */
module Traffic {
  import opened Common
  import opened Schema
  import opened TtlStore
  import opened FixedWindow
  import opened RateLimiter
  import opened Counters
  import opened FraudRules
  import opened FraudEngine
  import opened Verification

  datatype Event =
    | Hit(at: int, request: HttpRequest)
    | Submit(at: int, org: Id, raw: Payload, id: Id)
    | ChangeRules(call: RuleCall)

  datatype Env = Env(domains: set<string>, blacklist: set<string>, limits: Limits)

  datatype Sys = Sys(db: Tables, store: Store)

  function EvaluationAt(env: Env, sys: Sys, e: Event): Evaluation
    requires e.Submit?
  {
    SubmitEvaluation(sys.db.rules, sys.store, env.blacklist, env.domains, e.org, e.raw, e.at)
  }

  function Next(env: Env, sys: Sys, e: Event): Sys {
    match e
    case Hit(at, request) => sys.(store := Touched(sys.store, LimiterTouch(request, at)))
    case Submit(at, org, raw, id) =>
      Sys(Submitted(sys.db, EvaluationAt(env, sys, e), org, raw, id, at),
          RunFrom(sys.store, CounterTouches(raw.phone, raw.ipAddress, at)))
    case ChangeRules(call) => sys.(db := sys.db.(rules := RuleOutcome(sys.db.rules, call).0))
  }

  /** The system after a run from an empty store and the given first rules. */
  function SysAfter(env: Env, seeds: seq<FraudRule>, run: seq<Event>): Sys {
    if run == [] then Sys(EMPTY.(rules := seeds), map[])
    else Next(env, SysAfter(env, seeds, run[..|run| - 1]), run[|run| - 1])
  }

  ghost predicate InOrder(run: seq<Event>) {
    forall i, j :: 0 <= i < j < |run| && !run[i].ChangeRules? && !run[j].ChangeRules? ==> run[i].at <= run[j].at
  }

  // ---- The store of a run is the run of its touches ----

  function TouchesOf(e: Event): seq<Touch> {
    match e
    case Hit(at, request) => [LimiterTouch(request, at)]
    case Submit(at, org, raw, id) => CounterTouches(raw.phone, raw.ipAddress, at)
    case ChangeRules(call) => []
  }

  function Flatten(run: seq<Event>): seq<Touch> {
    if run == [] then [] else Flatten(run[..|run| - 1]) + TouchesOf(run[|run| - 1])
  }

  lemma {:induction false} StoreIsRun(env: Env, seeds: seq<FraudRule>, run: seq<Event>)
    ensures SysAfter(env, seeds, run).store == Run(Flatten(run))
  {
    if run == [] {
    } else {
      var before, last := run[..|run| - 1], run[|run| - 1];
      StoreIsRun(env, seeds, before);
      RunConcat(map[], Flatten(before), TouchesOf(last));
      var sys := SysAfter(env, seeds, before);
      assert Next(env, sys, last).store == RunFrom(sys.store, TouchesOf(last)) by {
        hide EvaluationAt;
        assert TouchesOf(last)[..0] == [];
      }
    }
  }

  lemma {:induction false} KeysDiffer(r: HttpRequest, phone: string, ip: string)
    ensures Bucket(r) != PhoneKey(phone) && Bucket(r) != IpKey(ip) && PhoneKey(phone) != IpKey(ip)
  {
    assert Bucket(r)[3] == 'r' && PhoneKey(phone)[3] == 'p' && IpKey(ip)[3] == 'i';
  }

  lemma {:induction false} KeysInjective(a: string, b: string)
    ensures PhoneKey(a) == PhoneKey(b) <==> a == b
    ensures IpKey(a) == IpKey(b) <==> a == b
  {
    assert PhoneKey(a)[|PHONE_PREFIX|..] == a && PhoneKey(b)[|PHONE_PREFIX|..] == b;
    assert IpKey(a)[|Counters.IP_PREFIX|..] == a && IpKey(b)[|Counters.IP_PREFIX|..] == b;
  }

  /** What an event's touches of one key look like. */
  lemma {:induction false} TouchShapes(e: Event, r: HttpRequest, phone: string, ip: string)
    ensures forall i :: 0 <= i < |TouchesOf(e)| ==>
      var t := TouchesOf(e)[i];
      && (t.key == Bucket(r) ==> e.Hit? && t.onFirst && t.ttl == WINDOW)
      && (t.key == PhoneKey(phone) ==> !t.onFirst && t.ttl == PHONE_TTL)
      && (t.key == IpKey(ip) ==> !t.onFirst && t.ttl == IP_TTL)
      && !e.ChangeRules? && t.at == e.at
    ensures e.Submit? && Given(e.raw.phone) ==> TouchesOf(e) != [] && TouchesOf(e)[0].key == PhoneKey(e.raw.phone.value)
  {
    var touches := TouchesOf(e);
    if e.Hit? {
      KeysDiffer(e.request, phone, ip);
    } else if e.Submit? {
      var p, i := e.raw.phone, e.raw.ipAddress;
      if Given(p) {
        KeysDiffer(r, p.value, ip);
        assert touches[0] == Touch(e.at, PhoneKey(p.value), PHONE_TTL, false);
      }
      if Given(i) {
        KeysDiffer(r, phone, i.value);
        assert touches[|touches| - 1] == Touch(e.at, IpKey(i.value), IP_TTL, false);
      }
    }
  }

  /** The deadline policies of the three kinds of keys. */
  ghost predicate Shaped(touches: seq<Touch>, r: HttpRequest, phone: string, ip: string) {
    && AllFixed(touches, Bucket(r))
    && AllSliding(touches, PhoneKey(phone), PHONE_TTL)
    && AllSliding(touches, IpKey(ip), IP_TTL)
  }

  lemma {:induction false} ShapedConcat(a: seq<Touch>, b: seq<Touch>, r: HttpRequest, phone: string, ip: string)
    requires Shaped(a, r, phone, ip) && Shaped(b, r, phone, ip)
    ensures Shaped(a + b, r, phone, ip)
  {
    hide Bucket, PhoneKey, IpKey;
  }

  lemma {:induction false} EventShaped(e: Event, r: HttpRequest, phone: string, ip: string)
    ensures Shaped(TouchesOf(e), r, phone, ip)
  {
    TouchShapes(e, r, phone, ip);
    hide TouchesOf, Bucket, PhoneKey, IpKey;
  }

  lemma {:induction false} RunShaped(run: seq<Event>, r: HttpRequest, phone: string, ip: string)
    ensures Shaped(Flatten(run), r, phone, ip)
  {
    hide Shaped, TouchesOf;
    if run == [] {
      EmptyShaped(r, phone, ip);
    } else {
      RunShaped(run[..|run| - 1], r, phone, ip);
      EventShaped(run[|run| - 1], r, phone, ip);
      ShapedConcat(Flatten(run[..|run| - 1]), TouchesOf(run[|run| - 1]), r, phone, ip);
    }
  }

  lemma {:induction false} EmptyShaped(r: HttpRequest, phone: string, ip: string)
    ensures Shaped([], r, phone, ip)
  {
  }

  lemma {:induction false} FlattenShapes(run: seq<Event>, r: HttpRequest, phone: string, ip: string)
    ensures AllFixed(Flatten(run), Bucket(r))
    ensures AllSliding(Flatten(run), PhoneKey(phone), PHONE_TTL)
    ensures AllSliding(Flatten(run), IpKey(ip), IP_TTL)
  {
    RunShaped(run, r, phone, ip);
  }

  lemma {:induction false} FlattenBounded(run: seq<Event>, t: int)
    requires forall m :: 0 <= m < |run| && !run[m].ChangeRules? ==> run[m].at <= t
    ensures forall i :: 0 <= i < |Flatten(run)| ==> Flatten(run)[i].at <= t
  {
    if run == [] {
    } else {
      FlattenBounded(run[..|run| - 1], t);
    }
  }

  lemma {:induction false} FlattenInOrder(run: seq<Event>)
    requires InOrder(run)
    ensures InTimeOrder(Flatten(run))
  {
    if run == [] {
    } else {
      var before, last := run[..|run| - 1], run[|run| - 1];
      FlattenInOrder(before);
      var touches := TouchesOf(last);
      assert touches != [] ==> !last.ChangeRules? && forall i :: 0 <= i < |touches| ==> touches[i].at == last.at;
      if touches != [] {
        FlattenBounded(before, last.at);
      }
      hide TouchesOf;
    }
  }
}
