/**
 Runs of the authentication service, at two layers: the service alone, where every change
 stays in the session, and whole requests, where a raised error rolls the session back.
 */
module Sessions {
  import opened Common
  import opened Schema
  import opened Tokens
  import opened Auth
  import opened Organizations

  datatype Layer = Service | Request

  datatype Call =
    | Register(email: string, password: string, fullName: string, orgName: string)
    | Login(email: string, password: string)
    | Refresh(raw: string)
    | Logout(raw: string)
    | Organization(call: OrgCall)

  /** A call at a clock reading with its random draws, or any outside change of the user table. */
  datatype Event =
    | Call(at: int, call: Call, draw: Draw)
    | UsersChanged(users: seq<User>)

  function ServiceOutcome(db: Tables, e: Event, life: int): Outcome {
    match e
    case UsersChanged(users) => Outcome(db.(users := users), Success(None))
    case Call(at, call, draw) =>
      match call
      case Register(email, password, fullName, orgName) =>
        RegisterOutcome(db, email, password, fullName, orgName, draw, at, life)
      case Login(email, password) => LoginOutcome(db, email, password, draw, at, life)
      case Refresh(raw) => RefreshOutcome(db, raw, draw, at, life)
      case Logout(raw) => LogoutOutcome(db, raw)
      case Organization(c) =>
        var o := OrgOutcome(db.orgs, c);
        Outcome(db.(orgs := o.0), if o.1.None? then Success(None) else Failure(OrganizationError))
  }

  /** What `get_db` leaves stored: a normal return is committed, a raise rolled back. */
  function Stored(layer: Layer, db: Tables, o: Outcome): Tables {
    if layer.Request? && o.reply.Failure? then db else o.db
  }

  function After(layer: Layer, db: Tables, e: Event, life: int): Tables {
    Stored(layer, db, ServiceOutcome(db, e, life))
  }

  /** The tables after a run. */
  function State(layer: Layer, run: seq<Event>, life: int): Tables
    decreases |run|, 2
  {
    if run == [] then EMPTY else Stored(layer, State(layer, run[..|run| - 1], life), LastOutcome(layer, run, life))
  }

  /** What the last event of a run did. */
  function LastOutcome(layer: Layer, run: seq<Event>, life: int): Outcome
    requires run != []
    decreases |run|, 1
  {
    OutcomeNext(layer, run[..|run| - 1], run[|run| - 1], life)
  }

  /** What an event does when it follows a run. */
  function OutcomeNext(layer: Layer, run: seq<Event>, e: Event, life: int): Outcome
    decreases |run|, 3
  {
    ServiceOutcome(State(layer, run, life), e, life)
  }

  lemma {:induction false} LastStep(layer: Layer, run: seq<Event>, life: int)
    requires run != []
    ensures var db, e := State(layer, run[..|run| - 1], life), run[|run| - 1];
      && LastOutcome(layer, run, life) == ServiceOutcome(db, e, life)
      && State(layer, run, life) == After(layer, db, e, life)
  {
    hide ServiceOutcome;
    assert LastOutcome(layer, run, life) == OutcomeNext(layer, run[..|run| - 1], run[|run| - 1], life);
  }

  /** `secrets.token_hex(32)` is not empty and collides with no stored session id. */
  ghost predicate FreshDraw(db: Tables, e: Event) {
    e.Call? ==> e.draw.sessionId != "" && !HasFamily(db.tokens, e.draw.sessionId)
  }

  ghost predicate FreshRun(layer: Layer, run: seq<Event>, life: int) {
    run == [] ||
    (var before := run[..|run| - 1];
     FreshRun(layer, before, life) && FreshDraw(State(layer, before, life), run[|run| - 1]))
  }

  /** One token response: the token presented for it, if any, the token issued, and when. */
  datatype Grant = Grant(parent: Option<Digest>, token: Digest, at: int)

  function GrantOf(e: Event, reply: Reply): seq<Grant> {
    if e.Call? && reply.Success? && reply.value.Some? then
      [Grant(if e.call.Refresh? then Some(Sha256(e.call.raw)) else None, Sha256(reply.value.value), e.at)]
    else []
  }

  function GrantsOf(db: Tables, e: Event, life: int): seq<Grant> {
    GrantOf(e, ServiceOutcome(db, e, life).reply)
  }

  /** Every token response of the run, in order. */
  function Grants(layer: Layer, run: seq<Event>, life: int): seq<Grant> {
    if run == [] then []
    else Grants(layer, run[..|run| - 1], life) + GrantOf(run[|run| - 1], LastOutcome(layer, run, life).reply)
  }

  /** The five ways a step can change the token table. */
  datatype Change =
    | Keep
    | RevokeOne(i: nat)
    | RevokeSession(sid: string)
    | Open(row: TokenRow)
    | Rotate(i: nat, row: TokenRow)

  ghost predicate Legal(rows: seq<TokenRow>, c: Change) {
    match c
    case Keep => true
    case RevokeOne(i) => i < |rows|
    case RevokeSession(sid) => FamilyRevokedToken(rows, sid)
    case Open(row) => NewRow(rows, row) && !HasFamily(rows, row.sessionId)
    case Rotate(i, row) =>
      && i < |rows| && !rows[i].isRevoked && NewRow(rows, row)
      && row.sessionId == rows[i].sessionId && row.userId == rows[i].userId
  }

  ghost predicate NamedSessions(rows: seq<TokenRow>) {
    forall i :: 0 <= i < |rows| ==> rows[i].sessionId != ""
  }

  ghost predicate FamilyRevokedToken(rows: seq<TokenRow>, sid: string) {
    exists i :: 0 <= i < |rows| && rows[i].sessionId == sid && rows[i].isRevoked
  }

  ghost predicate NewRow(rows: seq<TokenRow>, row: TokenRow) {
    && !row.isRevoked && row.sessionId != ""
    && forall i :: 0 <= i < |rows| ==> rows[i].hashedToken != row.hashedToken
  }

  ghost function Apply(rows: seq<TokenRow>, c: Change): seq<TokenRow>
    requires Legal(rows, c)
  {
    match c
    case Keep => rows
    case RevokeOne(i) => RevokeAt(rows, i)
    case RevokeSession(sid) => RevokeFamily(rows, sid)
    case Open(row) => rows + [row]
    case Rotate(i, row) => RevokeAt(rows, i) + [row]
  }

  lemma {:induction false} RefreshChange(db: Tables, raw: string, draw: Draw, at: int, life: int)
    requires NamedSessions(db.tokens)
    ensures var o := RefreshOutcome(db, raw, draw, at, life); var t := FindHash(db.tokens, Sha256(raw));
      if o.reply.Success? then
        && t >= 0 && !db.tokens[t].isRevoked && at <= db.tokens[t].expiresAt
        && o.reply == Success(Some(draw.rawToken))
        && var row := TokenRow(db.tokens[t].userId, Sha256(draw.rawToken), db.tokens[t].sessionId, at + life, false);
           NewRow(db.tokens, row) && o.db.tokens == RevokeAt(db.tokens, t) + [row]
      else if t < 0 then o.db == db
      else if db.tokens[t].isRevoked then o.db.tokens == RevokeFamily(db.tokens, db.tokens[t].sessionId)
      else o.db.tokens == RevokeAt(db.tokens, t)
  {
    var t := FindHash(db.tokens, Sha256(raw));
    if t >= 0 {
      var rotated := RevokeAt(db.tokens, t);
      assert forall i :: 0 <= i < |rotated| ==> rotated[i].hashedToken == db.tokens[i].hashedToken;
    }
  }

  lemma {:induction false} OpeningChange(db: Tables, e: Event, life: int)
    requires e.Call? && (e.call.Register? || e.call.Login?) && FreshDraw(db, e)
    ensures var o := ServiceOutcome(db, e, life);
      if o.reply.Success? then
        && o.reply == Success(Some(e.draw.rawToken)) && |o.db.tokens| == |db.tokens| + 1
        && var row := o.db.tokens[|db.tokens|];
           && o.db.tokens == db.tokens + [row] && NewRow(db.tokens, row) && row.expiresAt == e.at + life
           && row.sessionId == e.draw.sessionId && row.hashedToken == Sha256(e.draw.rawToken)
      else o.db.tokens == db.tokens
  {
    hide AllottedSlug, FindEmail, FindUser, FindOrg, FindHash, HasFamily;
    if e.call.Register? {
      assert ServiceOutcome(db, e, life)
          == RegisterOutcome(db, e.call.email, e.call.password, e.call.fullName, e.call.orgName, e.draw, e.at, life);
    } else {
      assert ServiceOutcome(db, e, life) == LoginOutcome(db, e.call.email, e.call.password, e.draw, e.at, life);
    }
  }

  /** The change of a step, with the grant it answers. */
  lemma {:induction false} StepChange(layer: Layer, db: Tables, e: Event, life: int) returns (c: Change)
    requires FreshDraw(db, e)
    requires NamedSessions(db.tokens)
    ensures Legal(db.tokens, c) && After(layer, db, e, life).tokens == Apply(db.tokens, c)
    ensures c.Open? ==> GrantsOf(db, e, life) == [Grant(None, c.row.hashedToken, c.row.expiresAt - life)]
    ensures c.Rotate? ==>
      && e.Call? && e.call.Refresh? && e.at <= db.tokens[c.i].expiresAt && c.row.expiresAt == e.at + life
      && c.i == FindHash(db.tokens, Sha256(e.call.raw))
      && GrantsOf(db, e, life) == [Grant(Some(db.tokens[c.i].hashedToken), c.row.hashedToken, e.at)]
    ensures c.Keep? || c.RevokeOne? || c.RevokeSession? ==> GrantsOf(db, e, life) == []
    ensures c.Rotate? <==> e.Call? && e.call.Refresh? && ServiceOutcome(db, e, life).reply.Success?
  {
    var o := ServiceOutcome(db, e, life);
    if e.UsersChanged? || e.call.Organization? {
      c := Keep;
    } else if e.call.Register? || e.call.Login? {
      OpeningChange(db, e, life);
      c := if o.reply.Failure? then Keep else Open(o.db.tokens[|db.tokens|]);
    } else {
      var t := FindHash(db.tokens, Sha256(e.call.raw));
      if e.call.Refresh? {
        RefreshChange(db, e.call.raw, e.draw, e.at, life);
      }
      c := if t < 0 || (layer.Request? && o.reply.Failure?) then Keep
      else if e.call.Logout? then (if db.tokens[t].isRevoked then Keep else RevokeOne(t))
      else if o.reply.Success? then Rotate(t, o.db.tokens[|db.tokens|])
      else if db.tokens[t].isRevoked then RevokeSession(db.tokens[t].sessionId)
      else RevokeOne(t);
    }
  }

  // ---- What every reachable token table looks like ----

  /** The token a row was exchanged for: the row before it in its family. */
  ghost function ParentOf(rows: seq<TokenRow>, j: nat): Option<Digest>
    requires j < |rows|
  {
    var p := LastOf(rows, rows[j].sessionId, j);
    if p < 0 then None else Some(rows[p].hashedToken)
  }

  /** Only the newest token of a family may be unrevoked, and a family belongs to one user. */
  ghost predicate Superseded(rows: seq<TokenRow>) {
    forall i, j :: 0 <= i < j < |rows| && rows[i].sessionId == rows[j].sessionId ==>
      rows[i].isRevoked && rows[i].userId == rows[j].userId
  }

  /** Rows and grants correspond, and each grant answers the previous token of its family. */
  ghost predicate Chained(rows: seq<TokenRow>, grants: seq<Grant>, life: int) {
    && |grants| == |rows|
    && forall j :: 0 <= j < |rows| ==>
      && grants[j].token == rows[j].hashedToken
      && grants[j].at + life == rows[j].expiresAt
      && grants[j].parent == ParentOf(rows, j)
  }

  ghost predicate Inv(rows: seq<TokenRow>, grants: seq<Grant>, life: int) {
    && UniqueHashes(rows)
    && NamedSessions(rows)
    && Superseded(rows)
    && Chained(rows, grants, life)
  }

  lemma {:induction false} ParentFrame(a: seq<TokenRow>, b: seq<TokenRow>, j: nat)
    requires j < |a| <= |b|
    requires forall k :: 0 <= k <= j ==> a[k].sessionId == b[k].sessionId && a[k].hashedToken == b[k].hashedToken
    ensures ParentOf(a, j) == ParentOf(b, j)
  {
    var p, q := LastOf(a, a[j].sessionId, j), LastOf(b, b[j].sessionId, j);
    assert p >= 0 ==> b[p].sessionId == b[j].sessionId;
    assert q >= 0 ==> a[q].sessionId == a[j].sessionId;
  }

  /** Rows keep their identity; at most their revocation changes. */
  ghost predicate SameRows(a: seq<TokenRow>, b: seq<TokenRow>) {
    |a| <= |b| && forall k :: 0 <= k < |a| ==>
      b[k] == a[k].(isRevoked := b[k].isRevoked) && (a[k].isRevoked ==> b[k].isRevoked)
  }

  lemma {:induction false} ApplyKeepsRows(rows: seq<TokenRow>, c: Change)
    requires Legal(rows, c)
    ensures SameRows(rows, Apply(rows, c))
  {
  }

  lemma {:induction false} RowsStep(rows: seq<TokenRow>, c: Change)
    requires UniqueHashes(rows) && NamedSessions(rows) && Superseded(rows) && Legal(rows, c)
    ensures UniqueHashes(Apply(rows, c)) && NamedSessions(Apply(rows, c)) && Superseded(Apply(rows, c))
  {
    ApplyKeepsRows(rows, c);
  }

  lemma {:induction false} NewParent(rows: seq<TokenRow>, c: Change)
    requires Superseded(rows) && Legal(rows, c)
    ensures c.Open? ==> ParentOf(Apply(rows, c), |rows|) == None
    ensures c.Rotate? ==> ParentOf(Apply(rows, c), |rows|) == Some(rows[c.i].hashedToken)
  {
    if c.Open? || c.Rotate? {
      var rows' := Apply(rows, c);
      var p := LastOf(rows', c.row.sessionId, |rows|);
      assert forall k :: 0 <= k < |rows| ==> rows'[k].sessionId == rows[k].sessionId;
    }
  }

  lemma {:induction false} OldParents(rows: seq<TokenRow>, c: Change)
    requires Legal(rows, c)
    ensures |Apply(rows, c)| >= |rows|
    ensures forall j :: 0 <= j < |rows| ==> ParentOf(Apply(rows, c), j) == ParentOf(rows, j)
  {
    ApplyKeepsRows(rows, c);
    forall j | 0 <= j < |rows| ensures ParentOf(Apply(rows, c), j) == ParentOf(rows, j) {
      ParentFrame(rows, Apply(rows, c), j);
    }
  }

  lemma {:induction false} AppliedLength(rows: seq<TokenRow>, c: Change)
    requires Legal(rows, c)
    ensures var rows' := Apply(rows, c);
      if c.Open? || c.Rotate? then |rows'| == |rows| + 1 && rows'[|rows|] == c.row else |rows'| == |rows|
  {
  }

  lemma {:induction false} ChainStep(rows: seq<TokenRow>, c: Change, grants: seq<Grant>, grant: seq<Grant>, life: int)
    requires Superseded(rows) && Legal(rows, c) && Chained(rows, grants, life)
    requires match c
      case Open(row) => grant == [Grant(None, row.hashedToken, row.expiresAt - life)]
      case Rotate(i, row) => grant == [Grant(Some(rows[i].hashedToken), row.hashedToken, row.expiresAt - life)]
      case _ => grant == []
    ensures Chained(Apply(rows, c), grants + grant, life)
  {
    ApplyKeepsRows(rows, c);
    OldParents(rows, c);
    NewParent(rows, c);
    AppliedLength(rows, c);
    hide Apply, Legal, Superseded, ParentOf;
    ChainedOld(rows, Apply(rows, c), grants, grants + grant, life);
    hide Chained, SameRows;
    assert c.Open? || c.Rotate? ==> (grants + grant)[|rows|] == grant[0];
    ChainedWhole(rows, Apply(rows, c), grants, grants + grant, life);
  }

  /** Row `j` and grant `j` correspond. */
  ghost predicate ChainedAt(rows: seq<TokenRow>, grants: seq<Grant>, j: nat, life: int)
    requires j < |rows| && j < |grants|
  {
    && grants[j].token == rows[j].hashedToken
    && grants[j].at + life == rows[j].expiresAt
    && grants[j].parent == ParentOf(rows, j)
  }

  lemma {:induction false} ChainedOld(rows: seq<TokenRow>, rows': seq<TokenRow>, grants: seq<Grant>,
                                      grants': seq<Grant>, life: int)
    requires Chained(rows, grants, life) && SameRows(rows, rows') && |grants| <= |grants'|
    requires forall j :: 0 <= j < |grants| ==> grants'[j] == grants[j]
    requires forall j :: 0 <= j < |rows| ==> ParentOf(rows', j) == ParentOf(rows, j)
    ensures |grants| == |rows| <= |rows'|
    ensures forall j :: 0 <= j < |rows| ==> ChainedAt(rows', grants', j, life)
  {
    hide ParentOf;
    forall j | 0 <= j < |rows| ensures ChainedAt(rows', grants', j, life) {
      assert rows'[j] == rows[j].(isRevoked := rows'[j].isRevoked);
    }
  }

  lemma {:induction false} ChainedWhole(rows: seq<TokenRow>, rows': seq<TokenRow>, grants: seq<Grant>,
                                        grants': seq<Grant>, life: int)
    requires |grants| == |rows| && |rows| <= |rows'| == |grants'| <= |rows| + 1
    requires forall j :: 0 <= j < |rows| ==> ChainedAt(rows', grants', j, life)
    requires |rows'| > |rows| ==> ChainedAt(rows', grants', |rows|, life)
    ensures Chained(rows', grants', life)
  {
    hide ParentOf;
    forall j | 0 <= j < |rows'|
      ensures grants'[j].token == rows'[j].hashedToken
      ensures grants'[j].at + life == rows'[j].expiresAt
      ensures grants'[j].parent == ParentOf(rows', j)
    {
      assert ChainedAt(rows', grants', j, life);
    }
  }

  lemma {:induction false} InvStep(layer: Layer, db: Tables, grants: seq<Grant>, e: Event, life: int)
    requires Inv(db.tokens, grants, life) && FreshDraw(db, e)
    ensures Inv(After(layer, db, e, life).tokens, grants + GrantsOf(db, e, life), life)
  {
    hide ServiceOutcome, GrantsOf, After, UniqueHashes, NamedSessions, Superseded, Chained, Legal, Apply, FreshDraw;
    var c := StepChange(layer, db, e, life);
    RowsStep(db.tokens, c);
    ChainStep(db.tokens, c, grants, GrantsOf(db, e, life), life);
  }

  lemma {:induction false} Reachable(layer: Layer, run: seq<Event>, life: int)
    requires FreshRun(layer, run, life)
    ensures Inv(State(layer, run, life).tokens, Grants(layer, run, life), life)
  {
    if run == [] {
    } else {
      var before := run[..|run| - 1];
      Reachable(layer, before, life);
      LastStep(layer, run, life);
      hide After, ServiceOutcome, GrantOf, Inv;
      InvStep(layer, State(layer, before, life), Grants(layer, before, life), run[|run| - 1], life);
    }
  }
}
