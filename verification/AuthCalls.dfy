/** What single authentication calls do, in terms of the stored rows. */
module AuthCalls {
  import opened Common
  import opened Schema
  import opened Text
  import opened Tokens
  import opened Auth
  import opened Organizations
  import opened Sessions

  /** Row `t` is the presented token, live and unexpired, and user `u` its active owner. */
  ghost predicate Exchangeable(db: Tables, raw: string, now: int, t: nat, u: nat)
    requires t < |db.tokens| && u < |db.users|
  {
    && db.tokens[t].hashedToken == Sha256(raw) && !db.tokens[t].isRevoked && now <= db.tokens[t].expiresAt
    && db.users[u].id == db.tokens[t].userId && db.users[u].isActive
  }

  ghost predicate UniqueUsers(users: seq<User>) {
    forall i, j :: 0 <= i < j < |users| ==> users[i].id != users[j].id
  }

  /** An exchange succeeds exactly for a live, unexpired token of an active user, given an unused new token. */
  lemma {:induction false} RefreshSucceedsIff(db: Tables, raw: string, draw: Draw, now: int, life: int)
    requires UniqueHashes(db.tokens) && NamedSessions(db.tokens) && UniqueUsers(db.users)
    ensures RefreshOutcome(db, raw, draw, now, life).reply.Success? <==>
      && (exists t, u :: 0 <= t < |db.tokens| && 0 <= u < |db.users| && Exchangeable(db, raw, now, t, u))
      && (forall i :: 0 <= i < |db.tokens| ==> db.tokens[i].hashedToken != Sha256(draw.rawToken))
  {
    RefreshChange(db, raw, draw, now, life);
    var t := FindHash(db.tokens, Sha256(raw));
    if t >= 0 {
      var u := FindUser(db.users, db.tokens[t].userId);
      var rotated := RevokeAt(db.tokens, t);
      var n := FindHash(rotated, Sha256(draw.rawToken));
      assert n >= 0 ==> db.tokens[n].hashedToken == Sha256(draw.rawToken);
      if RefreshOutcome(db, raw, draw, now, life).reply.Success? {
        assert Exchangeable(db, raw, now, t, u);
      }
    }
  }

  ghost predicate UniqueEmails(users: seq<User>) {
    forall i, j :: 0 <= i < j < |users| ==> users[i].email != users[j].email
  }

  ghost predicate HasDigest(rows: seq<TokenRow>, raw: string) {
    exists j :: 0 <= j < |rows| && rows[j].hashedToken == Sha256(raw)
  }

  /** User `i` is the one the address, in any capitalisation, and the password belong to. */
  ghost predicate Knows(users: seq<User>, i: nat, typed: string, password: string) {
    i < |users| && users[i].email == Lower(typed) && users[i].password == password
  }

  /**
   A login goes to the one user of the address and password: it adds exactly one token, of that user, when the user
   is active and the new digest is not stored yet; otherwise it changes nothing and says why.
   */
  lemma {:induction false} LoginIs(db: Tables, typed: string, password: string, draw: Draw, now: int, life: int, i: nat)
    requires UniqueEmails(db.users)
    ensures var o := LoginOutcome(db, typed, password, draw, now, life);
      && (o.reply == Failure(BadCredentials) <==> forall k: nat :: !Knows(db.users, k, typed, password))
      && (Knows(db.users, i, typed, password) ==>
            && (o.reply == Failure(Deactivated) <==> !db.users[i].isActive)
            && (o.reply == Failure(IntegrityError) <==> db.users[i].isActive && HasDigest(db.tokens, draw.rawToken))
            && (o.reply.Success? <==> db.users[i].isActive && !HasDigest(db.tokens, draw.rawToken)))
      && (o.reply.Failure? ==> o.db == db)
      && (Knows(db.users, i, typed, password) && o.reply.Success? ==>
            && o.reply == Success(Some(draw.rawToken))
            && o.db == db.(tokens := db.tokens + [TokenRow(db.users[i].id, Sha256(draw.rawToken), draw.sessionId,
                                                           now + life, false)]))
  {
    var u := FindEmail(db.users, Lower(typed));
    assert Knows(db.users, i, typed, password) ==> u == i;
    assert forall k: nat :: Knows(db.users, k, typed, password) ==> k == u;
    assert u >= 0 && db.users[u].password == password ==> Knows(db.users, u, typed, password);
    assert HasDigest(db.tokens, draw.rawToken) <==> FindHash(db.tokens, Sha256(draw.rawToken)) >= 0;
    hide FindEmail, FindHash, Lower, HasDigest, UniqueEmails, Knows;
  }

  /** A registration succeeds exactly for a new address, given unused ids and an unused new token. */
  lemma {:induction false} RegisterSucceedsIff(db: Tables, email: string, password: string, fullName: string,
                                               orgName: string,
                            draw: Draw, now: int, life: int)
    ensures var reply := RegisterOutcome(db, email, password, fullName, orgName, draw, now, life).reply;
      var taken := exists i :: 0 <= i < |db.users| && db.users[i].email == Lower(email);
      var clash := HasOrg(db.orgs, draw.orgId) || HasUser(db.users, draw.userId) || HasDigest(db.tokens, draw.rawToken);
      && (reply == Failure(EmailTaken) <==> taken)
      && (reply == Failure(IntegrityError) <==> !taken && clash)
      && (reply.Success? <==> !taken && !clash)
  {
    assert FindEmail(db.users, Lower(email)) >= 0 <==>
      exists i :: 0 <= i < |db.users| && db.users[i].email == Lower(email);
    assert FindOrg(db.orgs, draw.orgId) >= 0 <==> HasOrg(db.orgs, draw.orgId);
    assert FindUser(db.users, draw.userId) >= 0 <==> HasUser(db.users, draw.userId);
    assert FindHash(db.tokens, Sha256(draw.rawToken)) >= 0 <==> HasDigest(db.tokens, draw.rawToken);
    hide AllottedSlug, FindEmail, FindUser, FindOrg, FindHash, Lower, HasOrg, HasUser, HasDigest;
  }

  ghost predicate HasUser(users: seq<User>, id: Id) {
    exists i :: 0 <= i < |users| && users[i].id == id
  }

  /** Why a refresh is refused, in terms of the stored rows alone. */
  lemma {:induction false} RefreshRefusedBecause(db: Tables, raw: string, draw: Draw, now: int, life: int, t: nat)
    requires UniqueHashes(db.tokens) && NamedSessions(db.tokens) && UniqueUsers(db.users)
    ensures var reply := RefreshOutcome(db, raw, draw, now, life).reply;
      reply == Failure(UnknownToken) <==> forall i :: 0 <= i < |db.tokens| ==> db.tokens[i].hashedToken != Sha256(raw)
    ensures t < |db.tokens| && db.tokens[t].hashedToken == Sha256(raw) ==>
      var reply, row := RefreshOutcome(db, raw, draw, now, life).reply, db.tokens[t];
      && (reply == Failure(ReusedToken) <==> row.isRevoked)
      && (reply == Failure(ExpiredToken) <==> !row.isRevoked && row.expiresAt < now)
      && (reply == Failure(NoActiveUser) <==>
            !row.isRevoked && now <= row.expiresAt && !ActiveUser(db.users, row.userId))
  {
    RefreshChange(db, raw, draw, now, life);
    var f := FindHash(db.tokens, Sha256(raw));
    if f >= 0 {
      var u := FindUser(db.users, db.tokens[f].userId);
      assert u >= 0 ==> db.users[u].id == db.tokens[f].userId;
      assert ActiveUser(db.users, db.tokens[f].userId) <==> u >= 0 && db.users[u].isActive;
    }
  }

  ghost predicate ActiveUser(users: seq<User>, id: Id) {
    exists u :: 0 <= u < |users| && users[u].id == id && users[u].isActive
  }

  /** What a successful registration adds: one active admin who owns the one new organisation, and one token. */
  ghost predicate Registered(db: Tables, o: Outcome, email: string, password: string, fullName: string,
                             orgName: string, draw: Draw, expires: int)
  {
    && |o.db.users| == |db.users| + 1 && |o.db.tokens| == |db.tokens| + 1 && |o.db.orgs| == |db.orgs| + 1
    && (forall i :: 0 <= i < |db.users| ==> o.db.users[i] == db.users[i])
    && (forall i :: 0 <= i < |db.tokens| ==> o.db.tokens[i] == db.tokens[i])
    && (forall i :: 0 <= i < |db.orgs| ==> o.db.orgs[i] == db.orgs[i])
    && o.reply == Success(Some(draw.rawToken))
    && var user, org, row := o.db.users[|db.users|], o.db.orgs[|db.orgs|], o.db.tokens[|db.tokens|];
       && org.name == orgName && org.slug == AllottedSlug(db.orgs, orgName) && user.fullName == fullName
       && user.email == Lower(email) && user.password == password && user.isActive && user.role == "admin"
       && user.orgId == Some(org.id) && org.ownerId == user.id && org.isActive
       && row == TokenRow(user.id, Sha256(draw.rawToken), draw.sessionId, expires, false)
  }

  lemma {:induction false} RegisterAdds(db: Tables, email: string, password: string, fullName: string, orgName: string,
                     draw: Draw, now: int, life: int)
    requires RegisterOutcome(db, email, password, fullName, orgName, draw, now, life).reply.Success?
    requires draw.sessionId != ""
    ensures Registered(db, RegisterOutcome(db, email, password, fullName, orgName, draw, now, life),
                       email, password, fullName, orgName, draw, now + life)
  {
    hide AllottedSlug, FindOrg, FindUser, FindEmail, FindHash, Lower;
  }

  lemma {:induction false} RegisteredLogsIn(db: Tables, o: Outcome, email: string, password: string, fullName: string,
                                            orgName: string,
                         draw: Draw, expires: int, typed: string, tried: string, next: Draw, later: int, life: int)
    requires Registered(db, o, email, password, fullName, orgName, draw, expires) && Lower(typed) == Lower(email)
    requires FindHash(o.db.tokens, Sha256(next.rawToken)) < 0
    ensures LoginOutcome(o.db, typed, tried, next, later, life).reply.Success? <==> tried == password
  {
    assert FindEmail(o.db.users, Lower(email)) == |db.users|;
    hide FindEmail, FindHash, Lower;
  }

  lemma {:induction false} RegisteredIsTaken(db: Tables, o: Outcome, email: string, password: string,
                                             fullName: string, orgName: string,
                          draw: Draw, expires: int, typed: string, again: string, next: Draw, later: int, life: int)
    requires Registered(db, o, email, password, fullName, orgName, draw, expires) && Lower(typed) == Lower(email)
    ensures RegisterOutcome(o.db, typed, again, fullName, orgName, next, later, life).reply == Failure(EmailTaken)
  {
    assert FindEmail(o.db.users, Lower(email)) == |db.users|;
    hide FindEmail, Lower, AllottedSlug, FindOrg, FindUser, IssueOutcome;
  }

  lemma {:induction false} RegisteredRefreshes(db: Tables, o: Outcome, email: string, password: string,
                                               fullName: string,
                            orgName: string, draw: Draw, expires: int, next: Draw, later: int, life: int)
    requires Registered(db, o, email, password, fullName, orgName, draw, expires)
    requires FindHash(o.db.tokens, Sha256(next.rawToken)) < 0
    ensures RefreshOutcome(o.db, draw.rawToken, next, later, life).reply.Success? <==> later <= expires
  {
    var tokens := o.db.tokens;
    assert FindHash(tokens, Sha256(draw.rawToken)) == |db.tokens|;
    assert FindUser(o.db.users, o.db.users[|db.users|].id) == |db.users|;
    var rotated := RevokeAt(tokens, |db.tokens|);
    assert forall i :: 0 <= i < |rotated| ==> rotated[i].hashedToken == tokens[i].hashedToken;
    hide Lower, Find;
  }

  /**
   After a registration the registrant is the active admin and owner of the new organisation;
   the address in any capitalisation logs in with exactly the chosen password and cannot be
   registered again, and the token handed out can be exchanged exactly until it expires; the
   later calls drawing tokens whose digests are not stored yet.
   */
  lemma {:induction false} RegistrationHolds(db: Tables, email: string, password: string, fullName: string,
                                             orgName: string,
                          draw: Draw, now: int, life: int, typed: string, tried: string, next: Draw, later: int)
    requires RegisterOutcome(db, email, password, fullName, orgName, draw, now, life).reply.Success?
    requires Lower(typed) == Lower(email) && draw.sessionId != ""
    requires var o := RegisterOutcome(db, email, password, fullName, orgName, draw, now, life);
      FindHash(o.db.tokens, Sha256(next.rawToken)) < 0
    ensures var o := RegisterOutcome(db, email, password, fullName, orgName, draw, now, life);
      && Registered(db, o, email, password, fullName, orgName, draw, now + life)
      && (LoginOutcome(o.db, typed, tried, next, later, life).reply.Success? <==> tried == password)
      && RegisterOutcome(o.db, typed, tried, fullName, orgName, next, later, life).reply == Failure(EmailTaken)
      && (RefreshOutcome(o.db, draw.rawToken, next, later, life).reply.Success? <==> later <= now + life)
  {
    hide *;
    var o := RegisterOutcome(db, email, password, fullName, orgName, draw, now, life);
    RegisterAdds(db, email, password, fullName, orgName, draw, now, life);
    RegisteredLogsIn(db, o, email, password, fullName, orgName, draw, now + life, typed, tried, next, later, life);
    RegisteredIsTaken(db, o, email, password, fullName, orgName, draw, now + life, typed, tried, next, later, life);
    RegisteredRefreshes(db, o, email, password, fullName, orgName, draw, now + life, next, later, life);
  }
}
