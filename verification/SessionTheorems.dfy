/** What holds over every run of the authentication service. */
module SessionTheorems {
  import opened Common
  import opened Schema
  import opened Text
  import opened Tokens
  import opened Auth
  import opened Organizations
  import opened Sessions

  lemma {:induction false} FreshPrefix(layer: Layer, run: seq<Event>, k: nat, life: int)
    requires FreshRun(layer, run, life) && k <= |run|
    ensures FreshRun(layer, run[..k], life)
    ensures k < |run| ==> FreshDraw(State(layer, run[..k], life), run[k])
  {
    if k == |run| {
      assert run[..k] == run;
    } else {
      var before := run[..|run| - 1];
      FreshPrefix(layer, before, k, life);
      assert before[..k] == run[..k];
      assert k == |before| ==> before == run[..k];
    }
  }

  /** A state reached by one more event of the run. */
  lemma {:induction false} StateNext(layer: Layer, run: seq<Event>, k: nat, life: int)
    requires k < |run|
    ensures State(layer, run[..k + 1], life) == After(layer, State(layer, run[..k], life), run[k], life)
  {
    assert run[..k + 1][..k] == run[..k];
    LastStep(layer, run[..k + 1], life);
  }

  /** Stored rows are never removed or re-attributed, and revocation is never undone. */
  lemma {:induction false} RowsPersist(layer: Layer, run: seq<Event>, k: nat, life: int)
    requires FreshRun(layer, run, life) && k <= |run|
    ensures SameRows(State(layer, run[..k], life).tokens, State(layer, run, life).tokens)
  {
    if k == |run| {
      assert run[..k] == run;
    } else {
      var before := run[..|run| - 1];
      RowsPersist(layer, before, k, life);
      assert before[..k] == run[..k];
      Reachable(layer, before, life);
      var db := State(layer, before, life);
      LastStep(layer, run, life);
      hide ServiceOutcome, GrantsOf, After;
      var c := StepChange(layer, db, run[|run| - 1], life);
      ApplyKeepsRows(db.tokens, c);
      SameRowsTransitive(State(layer, run[..k], life).tokens, db.tokens, Apply(db.tokens, c));
    }
  }

  lemma {:induction false} SameRowsTransitive(a: seq<TokenRow>, b: seq<TokenRow>, c: seq<TokenRow>)
    requires SameRows(a, b) && SameRows(b, c)
    ensures SameRows(a, c)
  {
    forall k | 0 <= k < |a|
      ensures c[k] == a[k].(isRevoked := c[k].isRevoked) && (a[k].isRevoked ==> c[k].isRevoked)
    {
      assert b[k] == a[k].(isRevoked := b[k].isRevoked);
    }
  }

  /** The event is a successful exchange of a token of family `sid`. */
  ghost predicate Exchanges(db: Tables, e: Event, life: int, sid: string) {
    e.Call? && e.call.Refresh? && ServiceOutcome(db, e, life).reply.Success? &&
    var t := FindHash(db.tokens, Sha256(e.call.raw));
    t >= 0 && db.tokens[t].sessionId == sid
  }

  /** Event `m` of the run is one. */
  ghost predicate ExchangesIn(layer: Layer, run: seq<Event>, m: nat, life: int, sid: string)
    requires m < |run|
  {
    run[m].Call? && run[m].call.Refresh? && LastOutcome(layer, run[..m + 1], life).reply.Success? &&
    var rows := State(layer, run[..m], life).tokens;
    var t := FindHash(rows, Sha256(run[m].call.raw));
    t >= 0 && rows[t].sessionId == sid
  }

  lemma {:induction false} ExchangesAt(layer: Layer, run: seq<Event>, m: nat, life: int, sid: string)
    requires m < |run|
    ensures ExchangesIn(layer, run, m, life, sid) <==> Exchanges(State(layer, run[..m], life), run[m], life, sid)
  {
    assert run[..m + 1][..m] == run[..m];
    LastStep(layer, run[..m + 1], life);
    hide ServiceOutcome;
  }

  /** In every family at most one token is unrevoked, and no token was issued in it later. */
  lemma {:induction false} LiveTokenIsNewest(layer: Layer, run: seq<Event>, life: int, i: nat, j: nat)
    requires FreshRun(layer, run, life)
    requires var rows := State(layer, run, life).tokens;
      i < |rows| && j < |rows| && rows[i].sessionId == rows[j].sessionId && !rows[i].isRevoked
    ensures j <= i
    ensures j < i ==> State(layer, run, life).tokens[j].isRevoked
    ensures State(layer, run, life).tokens[j].userId == State(layer, run, life).tokens[i].userId
  {
    hide State, Grants, FreshRun;
    Reachable(layer, run, life);
  }

  /** Row `i` is the token just before row `j` in its family: revoked, and of the same user. */
  ghost predicate Precedes(rows: seq<TokenRow>, i: nat, j: nat)
    requires i < j < |rows|
  {
    && rows[i].isRevoked && rows[i].sessionId == rows[j].sessionId && rows[i].userId == rows[j].userId
    && forall k :: i < k < j ==> rows[k].sessionId != rows[j].sessionId
  }

  /** The n-th token of a family was issued for the (n-1)-th, the first for none. */
  lemma {:induction false} FamilyIsAChain(layer: Layer, run: seq<Event>, life: int, j: nat)
    requires FreshRun(layer, run, life) && j < |State(layer, run, life).tokens|
    ensures var rows := State(layer, run, life).tokens; var grants := Grants(layer, run, life);
      && |grants| == |rows| && grants[j].token == rows[j].hashedToken
      && match grants[j].parent
         case None => forall i :: 0 <= i < j ==> rows[i].sessionId != rows[j].sessionId
         case Some(h) => exists i :: 0 <= i < j && rows[i].hashedToken == h && Precedes(rows, i, j)
  {
    Reachable(layer, run, life);
    var rows := State(layer, run, life).tokens;
    var p := LastOf(rows, rows[j].sessionId, j);
    assert Grants(layer, run, life)[j].parent == ParentOf(rows, j);
    assert p >= 0 ==> Precedes(rows, p, j);
  }

  lemma {:induction false} ExchangeRevokes(layer: Layer, db: Tables, e: Event, life: int)
    requires e.Call? && e.call.Refresh? && ServiceOutcome(db, e, life).reply.Success?
    requires NamedSessions(db.tokens)
    ensures var t := FindHash(db.tokens, Sha256(e.call.raw)); var rows := After(layer, db, e, life).tokens;
      0 <= t < |db.tokens| < |rows| && rows[t].isRevoked && !db.tokens[t].isRevoked
  {
    RefreshChange(db, e.call.raw, e.draw, e.at, life);
  }

  /** A refresh token is exchanged successfully at most once in any run. */
  lemma {:induction false} ExchangedAtMostOnce(layer: Layer, run: seq<Event>, life: int, i: nat, j: nat, a: string,
                                               b: string)
    requires FreshRun(layer, run, life) && i < j < |run|
    requires ExchangesIn(layer, run, i, life, a) && ExchangesIn(layer, run, j, life, b)
    ensures run[i].call.raw != run[j].call.raw
  {
    hide State, Grants, FreshRun, FreshDraw, ServiceOutcome, After, Superseded, Chained;
    var h := Sha256(run[i].call.raw);
    var early, next := State(layer, run[..i], life), State(layer, run[..i + 1], life);
    var late := State(layer, run[..j], life);
    FreshPrefix(layer, run, i, life);
    FreshPrefix(layer, run, j, life);
    Reachable(layer, run[..i], life);
    Reachable(layer, run[..j], life);
    StateNext(layer, run, i, life);
    ExchangesAt(layer, run, i, life, a);
    ExchangesAt(layer, run, j, life, b);
    ExchangeRevokes(layer, early, run[i], life);
    ExchangeRevokes(layer, late, run[j], life);
    assert run[..j][..i] == run[..i] && run[..j][..i + 1] == run[..i + 1];
    RowsPersist(layer, run[..j], i, life);
    RowsPersist(layer, run[..j], i + 1, life);
    var t := FindHash(early.tokens, h);
    assert late.tokens[t].hashedToken == h && late.tokens[t].isRevoked;
  }

  // ---- Families that can never be resumed ----

  /** Every token of the family is revoked, or has expired before `bound`. */
  ghost predicate Closed(rows: seq<TokenRow>, sid: string, bound: Option<int>) {
    && HasFamily(rows, sid)
    && forall i :: 0 <= i < |rows| && rows[i].sessionId == sid ==>
      rows[i].isRevoked || (bound.Some? && rows[i].expiresAt < bound.value)
  }

  lemma {:induction false} SizeFrame(a: seq<TokenRow>, b: seq<TokenRow>, sid: string)
    requires |a| == |b| && forall i :: 0 <= i < |a| ==> a[i].sessionId == b[i].sessionId
    ensures FamilySize(a, sid) == FamilySize(b, sid)
  {
    if a == [] {
    } else {
      SizeFrame(a[..|a| - 1], b[..|b| - 1], sid);
    }
  }

  /** A change adds a row to a family exactly when it opens it or exchanges one of its tokens. */
  lemma {:induction false} SizeStep(rows: seq<TokenRow>, c: Change, sid: string)
    requires Legal(rows, c)
    ensures FamilySize(Apply(rows, c), sid)
         == FamilySize(rows, sid) + if (c.Open? || c.Rotate?) && c.row.sessionId == sid then 1 else 0
  {
    var rows' := Apply(rows, c);
    ApplyKeepsRows(rows, c);
    SizeFrame(rows, rows'[..|rows|], sid);
    assert |rows'| == |rows| ==> rows'[..|rows|] == rows';
  }

  lemma {:induction false} ClosedApply(rows: seq<TokenRow>, c: Change, sid: string, bound: Option<int>)
    requires Legal(rows, c) && Closed(rows, sid, bound)
    requires c.Rotate? && bound.Some? ==> bound.value <= rows[c.i].expiresAt
    ensures Closed(Apply(rows, c), sid, bound)
    ensures (c.Open? || c.Rotate?) ==> c.row.sessionId != sid
  {
    ApplyKeepsRows(rows, c);
    var i :| 0 <= i < |rows| && rows[i].sessionId == sid;
    assert Apply(rows, c)[i].sessionId == sid;
  }

  lemma {:induction false} ClosedStep(layer: Layer, db: Tables, e: Event, life: int, sid: string, bound: Option<int>)
    requires NamedSessions(db.tokens) && FreshDraw(db, e) && Closed(db.tokens, sid, bound)
    requires e.Call? && bound.Some? ==> bound.value <= e.at
    ensures Closed(After(layer, db, e, life).tokens, sid, bound)
    ensures FamilySize(After(layer, db, e, life).tokens, sid) == FamilySize(db.tokens, sid)
    ensures !Exchanges(db, e, life, sid)
  {
    if e.Call? && e.call.Refresh? {
      RefreshChange(db, e.call.raw, e.draw, e.at, life);
    }
    hide ServiceOutcome, GrantsOf, After;
    var c := StepChange(layer, db, e, life);
    ClosedApply(db.tokens, c, sid, bound);
    SizeStep(db.tokens, c, sid);
  }

  /** From event `k` on, no event of the run exchanges a token of the family. */
  ghost predicate NoExchangeFrom(layer: Layer, run: seq<Event>, k: nat, life: int, sid: string) {
    forall m :: k <= m < |run| ==> !ExchangesIn(layer, run, m, life, sid)
  }

  lemma {:induction false} ClosedForever(layer: Layer, run: seq<Event>, k: nat, life: int, sid: string,
                                         bound: Option<int>)
    requires FreshRun(layer, run, life) && k <= |run|
    requires Closed(State(layer, run[..k], life).tokens, sid, bound)
    requires bound.Some? ==> forall m :: k <= m < |run| && run[m].Call? ==> bound.value <= run[m].at
    ensures Closed(State(layer, run, life).tokens, sid, bound)
    ensures FamilySize(State(layer, run, life).tokens, sid) == FamilySize(State(layer, run[..k], life).tokens, sid)
    ensures NoExchangeFrom(layer, run, k, life, sid)
  {
    hide ServiceOutcome, After, Grants, GrantsOf, Superseded, Chained, Closed;
    if k == |run| {
      assert run[..k] == run;
    } else {
      var before := run[..|run| - 1];
      assert before[..k] == run[..k];
      ClosedForever(layer, before, k, life, sid, bound);
      Reachable(layer, before, life);
      LastStep(layer, run, life);
      ExchangesAt(layer, run, |run| - 1, life, sid);
      ClosedStep(layer, State(layer, before, life), run[|run| - 1], life, sid, bound);
      forall m | k <= m < |run| ensures !ExchangesIn(layer, run, m, life, sid) {
        if m < |run| - 1 {
          assert before[..m] == run[..m] && before[..m + 1] == run[..m + 1];
          assert !ExchangesIn(layer, before, m, life, sid);
        }
      }
    }
  }

  /** A family without a live token gets no token ever again. */
  lemma {:induction false} RevokedFamilyNeverResumes(layer: Layer, run: seq<Event>, k: nat, life: int, sid: string)
    requires FreshRun(layer, run, life) && k <= |run|
    requires var rows := State(layer, run[..k], life).tokens; HasFamily(rows, sid) && FamilyRevoked(rows, sid)
    ensures FamilyRevoked(State(layer, run, life).tokens, sid)
    ensures FamilySize(State(layer, run, life).tokens, sid) == FamilySize(State(layer, run[..k], life).tokens, sid)
    ensures NoExchangeFrom(layer, run, k, life, sid)
  {
    ClosedForever(layer, run, k, life, sid, None);
  }

  ghost predicate MonotoneClock(run: seq<Event>) {
    forall i, j :: 0 <= i < j < |run| && run[i].Call? && run[j].Call? ==> run[i].at <= run[j].at
  }

  /** A family whose newest token has expired (it was issued more than a lifetime ago) can never be resumed. */
  lemma {:induction false} IdleFamilyNeverResumes(layer: Layer, run: seq<Event>, k: nat, life: int, newest: nat)
    requires FreshRun(layer, run, life) && MonotoneClock(run) && k < |run| && run[k].Call?
    requires var rows := State(layer, run[..k], life).tokens;
      && newest < |rows| && LastOf(rows, rows[newest].sessionId, |rows|) == newest
      && rows[newest].expiresAt < run[k].at
    ensures var before := State(layer, run[..k], life).tokens; var sid := before[newest].sessionId;
      && NoExchangeFrom(layer, run, k, life, sid)
      && FamilySize(State(layer, run, life).tokens, sid) == FamilySize(before, sid)
  {
    hide State, Grants, FreshRun, FreshDraw, Chained, ExchangesIn;
    FreshPrefix(layer, run, k, life);
    Reachable(layer, run[..k], life);
    var rows := State(layer, run[..k], life).tokens;
    assert Closed(rows, rows[newest].sessionId, Some(run[k].at));
    ClosedForever(layer, run, k, life, rows[newest].sessionId, Some(run[k].at));
  }

  // ---- Counting and timing the exchanges of a family ----

  ghost function ExchangeCount(layer: Layer, run: seq<Event>, life: int, sid: string): nat {
    if run == [] then 0
    else
      ExchangeCount(layer, run[..|run| - 1], life, sid)
      + (if ExchangesIn(layer, run, |run| - 1, life, sid) then 1 else 0)
  }

  lemma {:induction false} CountStep(layer: Layer, db: Tables, e: Event, life: int, sid: string)
    requires NamedSessions(db.tokens) && FreshDraw(db, e)
    ensures var rows' := After(layer, db, e, life).tokens;
      FamilySize(rows', sid) - (if HasFamily(rows', sid) then 1 else 0)
      == FamilySize(db.tokens, sid) - (if HasFamily(db.tokens, sid) then 1 else 0)
       + (if Exchanges(db, e, life, sid) then 1 else 0)
  {
    if e.Call? && e.call.Refresh? {
      RefreshChange(db, e.call.raw, e.draw, e.at, life);
    }
    hide ServiceOutcome, GrantsOf, After;
    var c := StepChange(layer, db, e, life);
    SizeStep(db.tokens, c, sid);
    FamilyStep(db.tokens, c, sid);
  }

  lemma {:induction false} FamilyStep(rows: seq<TokenRow>, c: Change, sid: string)
    requires Legal(rows, c)
    ensures HasFamily(Apply(rows, c), sid) <==> (HasFamily(rows, sid) || (c.Open? && c.row.sessionId == sid))
  {
    var rows' := Apply(rows, c);
    ApplyKeepsRows(rows, c);
    if HasFamily(rows, sid) {
      var i :| 0 <= i < |rows| && rows[i].sessionId == sid;
      assert rows'[i].sessionId == sid;
    }
    if c.Open? {
      assert rows'[|rows|] == c.row;
    }
    if HasFamily(rows', sid) {
      var i :| 0 <= i < |rows'| && rows'[i].sessionId == sid;
      assert i < |rows| ==> rows[i].sessionId == sid;
      assert c.Rotate? && i == |rows| ==> rows[c.i].sessionId == sid;
    }
  }

  /** n successful exchanges in a family leave it with exactly n + 1 tokens. */
  lemma {:induction false} ExchangesCountTokens(layer: Layer, run: seq<Event>, life: int, sid: string)
    requires FreshRun(layer, run, life)
    ensures var rows := State(layer, run, life).tokens;
      FamilySize(rows, sid) == ExchangeCount(layer, run, life, sid) + if HasFamily(rows, sid) then 1 else 0
  {
    hide ServiceOutcome, After, Grants, GrantsOf, Superseded, Chained;
    if run == [] {
    } else {
      var before := run[..|run| - 1];
      ExchangesCountTokens(layer, before, life, sid);
      Reachable(layer, before, life);
      LastStep(layer, run, life);
      ExchangesAt(layer, run, |run| - 1, life, sid);
      CountStep(layer, State(layer, before, life), run[|run| - 1], life, sid);
    }
  }

  /** A token was still unexpired when its successor was issued. */
  ghost predicate Prompt(rows: seq<TokenRow>, life: int) {
    forall j :: 0 <= j < |rows| ==>
      var p := LastOf(rows, rows[j].sessionId, j); p >= 0 ==> rows[j].expiresAt - life <= rows[p].expiresAt
  }

  lemma {:induction false} LastFrame(a: seq<TokenRow>, b: seq<TokenRow>, j: nat)
    requires j < |a| <= |b|
    requires forall k :: 0 <= k <= j ==> a[k].sessionId == b[k].sessionId
    ensures LastOf(a, a[j].sessionId, j) == LastOf(b, b[j].sessionId, j)
  {
    var p, q := LastOf(a, a[j].sessionId, j), LastOf(b, b[j].sessionId, j);
    assert p >= 0 ==> b[p].sessionId == b[j].sessionId;
    assert q >= 0 ==> a[q].sessionId == a[j].sessionId;
  }

  lemma {:induction false} OldLasts(rows: seq<TokenRow>, rows': seq<TokenRow>, j: nat)
    requires SameRows(rows, rows') && j < |rows|
    ensures LastOf(rows', rows'[j].sessionId, j) == LastOf(rows, rows[j].sessionId, j)
  {
    assert forall k :: 0 <= k <= j ==> rows[k].sessionId == rows'[k].sessionId;
    LastFrame(rows, rows', j);
  }

  lemma {:induction false} NewLast(rows: seq<TokenRow>, c: Change)
    requires Superseded(rows) && Legal(rows, c) && (c.Open? || c.Rotate?)
    ensures LastOf(Apply(rows, c), c.row.sessionId, |rows|) == if c.Open? then -1 else c.i
  {
    var rows' := Apply(rows, c);
    var p := LastOf(rows', c.row.sessionId, |rows|);
    assert forall k :: 0 <= k < |rows| ==> rows'[k].sessionId == rows[k].sessionId;
    hide LastOf;
  }

  lemma {:induction false} PromptStep(rows: seq<TokenRow>, c: Change, life: int)
    requires Prompt(rows, life) && Superseded(rows) && Legal(rows, c)
    requires c.Rotate? ==> c.row.expiresAt - life <= rows[c.i].expiresAt
    ensures Prompt(Apply(rows, c), life)
  {
    var rows' := Apply(rows, c);
    ApplyKeepsRows(rows, c);
    AppliedLength(rows, c);
    assert forall k :: 0 <= k < |rows| ==> rows'[k].expiresAt == rows[k].expiresAt;
    assert c.Rotate? ==> c.i < |rows|;
    hide Apply, Legal, Superseded, LastOf, SameRows;
    forall j | 0 <= j < |rows'|
      ensures var p := LastOf(rows', rows'[j].sessionId, j); p >= 0 ==> rows'[j].expiresAt - life <= rows'[p].expiresAt
    {
      if j < |rows| {
        OldLasts(rows, rows', j);
      } else {
        NewLast(rows, c);
      }
    }
  }

  lemma {:induction false} ReachablePrompt(layer: Layer, run: seq<Event>, life: int)
    requires FreshRun(layer, run, life)
    ensures Prompt(State(layer, run, life).tokens, life)
  {
    hide ServiceOutcome, After, Grants, GrantsOf, Superseded, Chained, Prompt;
    if run != [] {
      var before := run[..|run| - 1];
      ReachablePrompt(layer, before, life);
      Reachable(layer, before, life);
      LastStep(layer, run, life);
      var db := State(layer, before, life);
      var c := StepChange(layer, db, run[|run| - 1], life);
      PromptStep(db.tokens, c, life);
    } else {
      EmptyPrompt(life);
    }
  }

  lemma {:induction false} EmptyPrompt(life: int)
    ensures Prompt([], life)
  {
  }

  lemma {:induction false} GrantsBounded(layer: Layer, run: seq<Event>, life: int, t: int)
    requires forall m :: 0 <= m < |run| && run[m].Call? ==> run[m].at <= t
    ensures forall i :: 0 <= i < |Grants(layer, run, life)| ==> Grants(layer, run, life)[i].at <= t
  {
    if run == [] {
    } else {
      GrantsBounded(layer, run[..|run| - 1], life, t);
    }
  }

  ghost predicate InOrder(g: seq<Grant>) {
    forall i, j :: 0 <= i < j < |g| ==> g[i].at <= g[j].at
  }

  lemma {:induction false} GrantsOrdered(layer: Layer, run: seq<Event>, life: int)
    requires MonotoneClock(run)
    ensures InOrder(Grants(layer, run, life))
  {
    hide ServiceOutcome, After, State;
    if run == [] {
    } else {
      var before, last := run[..|run| - 1], run[|run| - 1];
      GrantsOrdered(layer, before, life);
      var g, granted := Grants(layer, before, life), GrantOf(last, LastOutcome(layer, run, life).reply);
      assert Grants(layer, run, life) == g + granted && |granted| <= 1;
      if granted != [] {
        assert last.Call? && granted[0].at == last.at;
        GrantsBounded(layer, before, life, last.at);
      }
    }
  }

  /** Successive tokens of a family are never issued further apart than the configured lifetime. */
  lemma {:induction false} ExchangesArePrompt(layer: Layer, run: seq<Event>, life: int, i: nat, j: nat)
    requires FreshRun(layer, run, life) && MonotoneClock(run)
    requires var rows := State(layer, run, life).tokens; i < j < |rows| && LastOf(rows, rows[j].sessionId, j) == i
    ensures var g := Grants(layer, run, life); j < |g| && 0 <= g[j].at - g[i].at <= life
  {
    hide State, Grants, FreshRun, Superseded, UniqueHashes, MonotoneClock;
    Reachable(layer, run, life);
    ReachablePrompt(layer, run, life);
    GrantsOrdered(layer, run, life);
  }

  // ---- Reuse of a revoked token ----

  /** The event presents a stored token that is revoked already. */
  ghost predicate Reuses(db: Tables, e: Event) {
    e.Call? && e.call.Refresh? &&
    var t := FindHash(db.tokens, Sha256(e.call.raw)); t >= 0 && db.tokens[t].isRevoked
  }

  ghost function FamilyPresented(db: Tables, e: Event): string
    requires Reuses(db, e)
  {
    db.tokens[FindHash(db.tokens, Sha256(e.call.raw))].sessionId
  }

  /** In the service, presenting a revoked token ends its family for good and touches no other. */
  lemma {:induction false} ReuseEndsFamilyInService(run: seq<Event>, k: nat, life: int)
    requires FreshRun(Service, run, life) && k < |run| && Reuses(State(Service, run[..k], life), run[k])
    ensures var before := State(Service, run[..k], life); var sid := FamilyPresented(before, run[k]);
      var after := State(Service, run[..k + 1], life);
      && ServiceOutcome(before, run[k], life).reply == Failure(ReusedToken)
      && FamilyRevoked(after.tokens, sid) && |after.tokens| == |before.tokens|
      && (forall i :: 0 <= i < |before.tokens| && before.tokens[i].sessionId != sid ==>
            after.tokens[i] == before.tokens[i])
      && NoExchangeFrom(Service, run, k + 1, life, sid)
  {
    StateNext(Service, run, k, life);
    hide State, FreshRun;
    var before := State(Service, run[..k], life);
    var sid := FamilyPresented(before, run[k]);
    var t := FindHash(before.tokens, Sha256(run[k].call.raw));
    assert State(Service, run[..k + 1], life).tokens[t].sessionId == sid;
    RevokedFamilyNeverResumes(Service, run, k + 1, life, sid);
  }

  /**
   In a request the raised error undoes the revocation, so the promised invalidation of the
   family holds exactly when its newest token was revoked before the request.
   */
  lemma {:induction false} ReuseRequestInvalidatesIff(run: seq<Event>, k: nat, life: int)
    requires FreshRun(Request, run, life) && k < |run| && Reuses(State(Request, run[..k], life), run[k])
    ensures var before := State(Request, run[..k], life); var sid := FamilyPresented(before, run[k]);
      var newest := LastOf(before.tokens, sid, |before.tokens|);
      && State(Request, run[..k + 1], life) == before && newest >= 0
      && (FamilyRevoked(State(Request, run[..k + 1], life).tokens, sid) <==> before.tokens[newest].isRevoked)
  {
    StateNext(Request, run, k, life);
    FreshPrefix(Request, run, k, life);
    Reachable(Request, run[..k], life);
    ReuseRolledBack(State(Request, run[..k], life), run[k], life);
    hide State, FreshRun, FreshDraw, After, ServiceOutcome, Superseded, Chained, Grants;
    hide UniqueHashes, LastOf, FamilyRevoked;
    var before := State(Request, run[..k], life);
    NewestDecides(before.tokens, FindHash(before.tokens, Sha256(run[k].call.raw)));
  }

  lemma {:induction false} ReuseRolledBack(db: Tables, e: Event, life: int)
    requires Reuses(db, e)
    ensures After(Request, db, e, life) == db
  {
  }

  lemma {:induction false} NewestDecides(rows: seq<TokenRow>, t: nat)
    requires Superseded(rows) && t < |rows|
    ensures var sid := rows[t].sessionId; var newest := LastOf(rows, sid, |rows|);
      newest >= 0 && (FamilyRevoked(rows, sid) <==> rows[newest].isRevoked)
  {
    var sid := rows[t].sessionId;
    var newest := LastOf(rows, sid, |rows|);
    assert forall i :: 0 <= i < |rows| && rows[i].sessionId == sid ==> i == newest || rows[i].isRevoked;
  }

  lemma {:induction false} Extend(layer: Layer, run: seq<Event>, e: Event, life: int)
    requires FreshRun(layer, run, life) && FreshDraw(State(layer, run, life), e)
    ensures FreshRun(layer, run + [e], life)
    ensures State(layer, run + [e], life) == After(layer, State(layer, run, life), e, life)
  {
    assert (run + [e])[..|run|] == run;
    LastStep(layer, run + [e], life);
    hide ServiceOutcome;
  }

  function DemoRow(n: nat, life: int, revoked: bool): TokenRow {
    TokenRow(0, Sha256(if n == 0 then "t0" else if n == 1 then "t1" else "t3"), "s0", n + life, revoked)
  }

  const DEMO_DRAW := Draw("t0", "s0", 0, 0, 9)
  const DEMO_CALL := Register("ada@example.com", "Secret123", "Ada Example", "acme")
  const DEMO_OWNER := User(0, Lower("ada@example.com"), "Secret123", "Ada Example", "admin", Some(0), true)

  lemma {:induction false} DemoNames()
    ensures "t0" != "t1" && "t1" != "t3" && "t0" != "t3" && "s0" != "s1"
  {
    assert "t0"[1] == '0' && "t1"[1] == '1' && "t3"[1] == '3' && "s0"[1] == '0' && "s1"[1] == '1';
  }

  lemma {:induction false} DemoRegister(life: int)
    ensures var db := After(Request, EMPTY, Event.Call(0, DEMO_CALL, DEMO_DRAW), life);
      db.tokens == [DemoRow(0, life, false)] && db.users == [DEMO_OWNER]
    ensures FreshDraw(EMPTY, Event.Call(0, DEMO_CALL, DEMO_DRAW))
  {
    hide AllottedSlug;
    assert FindEmail([], Lower("ada@example.com")) == -1 && FindUser([], 0) == -1 && FindOrg([], 0) == -1;
    assert FindHash([], Sha256("t0")) == -1;
  }

  lemma {:induction false} DemoRotate(db: Tables, draw: Draw, life: int)
    requires db.tokens == [DemoRow(0, life, false)] && db.users == [DEMO_OWNER] && draw.rawToken == "t1" && life >= 3
    requires draw.sessionId == "s1"
    ensures FreshDraw(db, Event.Call(1, Refresh("t0"), draw))
    ensures var db' := After(Request, db, Event.Call(1, Refresh("t0"), draw), life);
      db'.users == db.users && db'.tokens == [DemoRow(0, life, true), DemoRow(1, life, false)]
  {
    DemoNames();
    assert FindHash(db.tokens, Sha256("t0")) == 0;
    assert FindUser(db.users, 0) == 0;
    var rotated := RevokeAt(db.tokens, 0);
    assert FindHash(rotated, Sha256("t1")) == -1;
  }

  lemma {:induction false} DemoReused(db: Tables, e: Event, life: int)
    requires db.tokens == [DemoRow(0, life, true), DemoRow(1, life, false)]
    requires e.Call? && e.call == Refresh("t0") && e.draw.sessionId == "s1"
    ensures Reuses(db, e) && After(Request, db, e, life) == db && FreshDraw(db, e)
  {
    DemoNames();
    assert db.tokens[0].hashedToken == Sha256("t0");
    assert FindHash(db.tokens, Sha256("t0")) == 0;
    hide Find, FindUser;
  }

  lemma {:induction false} DemoExchange(db: Tables, next: Event, life: int)
    requires db.tokens == [DemoRow(0, life, true), DemoRow(1, life, false)] && db.users == [DEMO_OWNER] && life >= 3
    requires next.Call? && next.call == Refresh("t1") && next.at == 3 && next.draw.rawToken == "t3"
    requires next.draw.sessionId == "s1"
    ensures Exchanges(db, next, life, "s0") && FreshDraw(db, next)
  {
    DemoNames();
    assert FindHash(db.tokens, Sha256("t1")) == 1;
    assert FindUser(db.users, 0) == 0;
    var rotated := RevokeAt(db.tokens, 1);
    assert FindHash(rotated, Sha256("t3")) == -1;
  }

  lemma {:induction false} DemoStart(life: int)
    ensures FreshRun(Request, [], life) && State(Request, [], life) == EMPTY
  {
  }

  /** A stolen first token is replayed after its owner rotated it, and the owner's session goes on. */
  lemma {:induction false} ReplayLeavesSessionAlive(life: int) returns (run: seq<Event>)
    requires life >= 3
    ensures |run| == 4 && FreshRun(Request, run, life) && run[0].Call? && run[0].call == DEMO_CALL
    ensures Reuses(State(Request, run[..2], life), run[2])
    ensures ExchangesIn(Request, run, 3, life, "s0")
  {
    var registered := Event.Call(0, DEMO_CALL, DEMO_DRAW);
    var rotate := Event.Call(1, Refresh("t0"), DEMO_DRAW.(rawToken := "t1", sessionId := "s1"));
    var replay := Event.Call(2, Refresh("t0"), DEMO_DRAW.(rawToken := "t2", sessionId := "s1"));
    var next := Event.Call(3, Refresh("t1"), DEMO_DRAW.(rawToken := "t3", sessionId := "s1"));
    hide State, After, FreshRun, FreshDraw, ServiceOutcome, Exchanges, Reuses, DemoRow;
    DemoRegister(life);
    DemoStart(life);
    Extend(Request, [], registered, life);
    var r1 := [] + [registered];
    DemoRotate(State(Request, r1, life), rotate.draw, life);
    Extend(Request, r1, rotate, life);
    var r2 := r1 + [rotate];
    DemoReused(State(Request, r2, life), replay, life);
    Extend(Request, r2, replay, life);
    var r3 := r2 + [replay];
    DemoExchange(State(Request, r3, life), next, life);
    Extend(Request, r3, next, life);
    run := r3 + [next];
    assert run[..2] == r2 && run[..3] == r3;
    ExchangesAt(Request, run, 3, life, "s0");
  }

  lemma {:induction false} LogoutChange(layer: Layer, db: Tables, e: Event, life: int)
    requires e.Call? && e.call.Logout? && FindHash(db.tokens, Sha256(e.call.raw)) >= 0
    ensures var t := FindHash(db.tokens, Sha256(e.call.raw)); var rows' := After(layer, db, e, life).tokens;
      |rows'| == |db.tokens| && (forall i :: 0 <= i < |rows'| ==>
        rows'[i] == if i == t then db.tokens[i].(isRevoked := true) else db.tokens[i])
  {
  }

  /**
   After logging out with a stored token, its family is revoked exactly when that token was the
   newest, or the newest was revoked.
   */
  lemma {:induction false} LogoutEndsFamilyIff(layer: Layer, run: seq<Event>, k: nat, life: int)
    requires FreshRun(layer, run, life) && k < |run| && run[k].Call? && run[k].call.Logout?
    requires FindHash(State(layer, run[..k], life).tokens, Sha256(run[k].call.raw)) >= 0
    ensures var rows := State(layer, run[..k], life).tokens; var t := FindHash(rows, Sha256(run[k].call.raw));
      var sid := rows[t].sessionId; var newest := LastOf(rows, sid, |rows|);
      var ended := FamilyRevoked(State(layer, run[..k + 1], life).tokens, sid);
      && newest >= 0 && (ended <==> t == newest || rows[newest].isRevoked)
      && (ended ==> NoExchangeFrom(layer, run, k + 1, life, sid))
  {
    StateNext(layer, run, k, life);
    FreshPrefix(layer, run, k, life);
    Reachable(layer, run[..k], life);
    LogoutChange(layer, State(layer, run[..k], life), run[k], life);
    hide State, FreshRun, FreshDraw, Superseded, Chained, Grants, After, UniqueHashes, LastOf;
    hide FamilyRevoked, NoExchangeFrom;
    var rows, after := State(layer, run[..k], life).tokens, State(layer, run[..k + 1], life).tokens;
    var t := FindHash(rows, Sha256(run[k].call.raw));
    RevokedOneEnds(rows, t, after);
    if FamilyRevoked(after, rows[t].sessionId) {
      RevokedFamilyNeverResumes(layer, run, k + 1, life, rows[t].sessionId);
    }
  }

  lemma {:induction false} RevokedOneEnds(rows: seq<TokenRow>, t: nat, after: seq<TokenRow>)
    requires Superseded(rows) && t < |rows| == |after|
    requires forall i :: 0 <= i < |rows| ==> after[i] == if i == t then rows[i].(isRevoked := true) else rows[i]
    ensures var sid := rows[t].sessionId; var newest := LastOf(rows, sid, |rows|);
      && newest >= 0 && HasFamily(after, sid)
      && (FamilyRevoked(after, sid) <==> t == newest || rows[newest].isRevoked)
  {
    var sid := rows[t].sessionId;
    var newest := LastOf(rows, sid, |rows|);
    assert after[newest].sessionId == sid;
    assert forall i :: 0 <= i < |rows| && rows[i].sessionId == sid ==> i == newest || rows[i].isRevoked;
  }

  // ---- Organisations created along the way ----

  lemma {:induction false} RegisterKeepsSlugs(db: Tables, email: string, password: string, fullName: string,
                                              orgName: string,
                           draw: Draw, now: int, life: int)
    requires DistinctSlugs(db.orgs)
    ensures var orgs := RegisterOutcome(db, email, password, fullName, orgName, draw, now, life).db.orgs;
      DistinctSlugs(orgs) && KeepsSlugs(db.orgs, orgs)
  {
    AllottedSlugIsFree(db.orgs, orgName);
    hide AllottedSlug, FindEmail, FindUser, FindOrg, FindHash;
  }

  lemma {:induction false} TokenCallsKeepOrgs(db: Tables, e: Event, life: int)
    requires e.UsersChanged? || e.call.Login? || e.call.Refresh? || e.call.Logout?
    ensures ServiceOutcome(db, e, life).db.orgs == db.orgs
  {
    hide FindEmail, FindUser, FindHash, RevokeAt, RevokeFamily;
  }

  lemma {:induction false} OrgsAfter(layer: Layer, db: Tables, e: Event, life: int)
    requires DistinctSlugs(db.orgs)
    ensures DistinctSlugs(After(layer, db, e, life).orgs) && KeepsSlugs(db.orgs, After(layer, db, e, life).orgs)
  {
    hide RegisterOutcome, LoginOutcome, RefreshOutcome, LogoutOutcome, OrgOutcome;
    if e.UsersChanged? || e.call.Login? || e.call.Refresh? || e.call.Logout? {
      TokenCallsKeepOrgs(db, e, life);
    } else if e.call.Register? {
      RegisterKeepsSlugs(db, e.call.email, e.call.password, e.call.fullName, e.call.orgName, e.draw, e.at, life);
    } else {
      OrgStepKeepsSlugs(db.orgs, e.call.call);
    }
    hide DistinctSlugs;
  }

  /** Slugs stay pairwise distinct over every run, and none is ever changed or taken away. */
  lemma {:induction false} SlugsStayDistinct(layer: Layer, run: seq<Event>, k: nat, life: int)
    requires k <= |run|
    ensures DistinctSlugs(State(layer, run, life).orgs)
    ensures KeepsSlugs(State(layer, run[..k], life).orgs, State(layer, run, life).orgs)
  {
    hide ServiceOutcome, After;
    if k == |run| {
      assert run[..k] == run;
      if run != [] {
        SlugsStayDistinct(layer, run[..|run| - 1], 0, life);
        LastStep(layer, run, life);
        OrgsAfter(layer, State(layer, run[..|run| - 1], life), run[|run| - 1], life);
      }
    } else {
      var before := run[..|run| - 1];
      assert before[..k] == run[..k];
      SlugsStayDistinct(layer, before, k, life);
      LastStep(layer, run, life);
      OrgsAfter(layer, State(layer, before, life), run[|run| - 1], life);
    }
  }
}
