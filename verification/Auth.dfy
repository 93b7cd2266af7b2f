/**
 The authentication service: register, login, refresh and logout over the user,
 organisation and refresh-token tables. Each method is specified by a function
 giving what the call leaves in the session and what it returns or raises.
 */
module Auth {
  import opened Common
  import opened Schema
  import opened Text
  import opened Tokens
  import opened Organizations

  datatype AuthError =
    | EmailTaken | BadCredentials | Deactivated
    | UnknownToken | ReusedToken | ExpiredToken | NoActiveUser
    | IntegrityError | OrganizationError

  /** A token response carries the raw refresh token; logout carries nothing. */
  type Reply = Result<Option<string>, AuthError>

  datatype Outcome = Outcome(db: Tables, reply: Reply)

  /** The random values one request draws. */
  datatype Draw = Draw(rawToken: string, sessionId: string, userId: Id, orgId: Id, placeholderOwner: Id)

  function FindEmail(users: seq<User>, email: string): int {
    Find(users, (u: User) => u.email == email)
  }

  function FindUser(users: seq<User>, id: Id): int {
    Find(users, (u: User) => u.id == id)
  }

  /** `_issue_tokens`: the row joins the given family, or opens one under the drawn id. */
  function IssueOutcome(db: Tables, user: Id, session: Option<string>, draw: Draw, now: int, life: int): Outcome {
    var sid := if session.Some? && session.value != "" then session.value else draw.sessionId;
    var o := Tokens.CreateOutcome(db.tokens, TokenRow(user, Sha256(draw.rawToken), sid, now + life, false));
    Outcome(db.(tokens := o.0), if o.1 then Success(Some(draw.rawToken)) else Failure(IntegrityError))
  }

  function RegisterOutcome(db: Tables, email: string, password: string, fullName: string, orgName: string,
                           draw: Draw, now: int, life: int): Outcome
  {
    if FindEmail(db.users, Lower(email)) >= 0 then Outcome(db, Failure(EmailTaken))
    else
      var slug := AllottedSlug(db.orgs, orgName);
      var created := Org(draw.orgId, orgName, slug, None, None, true, draw.placeholderOwner);
      var o := Organizations.CreateOutcome(db.orgs, created);
      var withOrg := db.(orgs := o.0);
      if o.1.Some? || FindUser(db.users, draw.userId) >= 0 then Outcome(withOrg, Failure(IntegrityError))
      else
        var org := Org(draw.orgId, orgName, slug, None, None, true, draw.userId);
        var user := User(draw.userId, Lower(email), password, fullName, "admin", Some(draw.orgId), true);
        IssueOutcome(db.(orgs := db.orgs + [org], users := db.users + [user]), draw.userId, None, draw, now, life)
  }

  function LoginOutcome(db: Tables, email: string, password: string, draw: Draw, now: int, life: int): Outcome {
    var u := FindEmail(db.users, Lower(email));
    if u < 0 || db.users[u].password != password then Outcome(db, Failure(BadCredentials))
    else if !db.users[u].isActive then Outcome(db, Failure(Deactivated))
    else IssueOutcome(db, db.users[u].id, None, draw, now, life)
  }

  function RefreshOutcome(db: Tables, raw: string, draw: Draw, now: int, life: int): Outcome {
    var t := FindHash(db.tokens, Sha256(raw));
    if t < 0 then Outcome(db, Failure(UnknownToken))
    else
      var row := db.tokens[t];
      if row.isRevoked then
        Outcome(db.(tokens := RevokeFamily(db.tokens, row.sessionId)), Failure(ReusedToken))
      else
        var rotated := db.(tokens := RevokeAt(db.tokens, t));
        if row.expiresAt < now then Outcome(rotated, Failure(ExpiredToken))
        else
          var u := FindUser(db.users, row.userId);
          if u < 0 || !db.users[u].isActive then Outcome(rotated, Failure(NoActiveUser))
          else IssueOutcome(rotated, row.userId, Some(row.sessionId), draw, now, life)
  }

  function LogoutOutcome(db: Tables, raw: string): Outcome {
    var t := FindHash(db.tokens, Sha256(raw));
    if t >= 0 && !db.tokens[t].isRevoked
    then Outcome(db.(tokens := RevokeAt(db.tokens, t)), Success(None))
    else Outcome(db, Success(None))
  }

  class AuthService {
    const db: Session
    const tokenRepo: RefreshTokenRepository
    const orgService: OrganizationService

    constructor (db: Session, lifetime: int)
      ensures this.db == db && tokenRepo.lifetime == lifetime && Valid()
    {
      this.db := db;
      tokenRepo := new RefreshTokenRepository(db, lifetime);
      orgService := new OrganizationService(db);
    }

    /** The repositories work on this service's session. */
    predicate Valid() {
      tokenRepo.db == db && orgService.repo.db == db
    }

    method Register(email: string, password: string, fullName: string, orgName: string, draw: Draw, now: int)
      returns (reply: Reply)
      requires Valid()
      modifies db`tables
      ensures Outcome(db.tables, reply)
           == RegisterOutcome(old(db.tables), email, password, fullName, orgName, draw, now, tokenRepo.lifetime)
    {
      hide AllottedSlug, FindOrg, FindUser, FindEmail, Lower, IssueOutcome;
      if FindEmail(db.tables.users, Lower(email)) >= 0 { return Failure(EmailTaken); }
      var error := orgService.CreateOrgInternal(draw.orgId, orgName, draw.placeholderOwner);
      if error.Some? || FindUser(db.tables.users, draw.userId) >= 0 { return Failure(IntegrityError); }
      var user := User(draw.userId, Lower(email), password, fullName, "admin", Some(draw.orgId), true);
      db.tables := db.tables.(users := db.tables.users + [user]);
      var orgs := db.tables.orgs;
      var org := orgs[|orgs| - 1].(ownerId := user.id);
      db.tables := db.tables.(orgs := orgs[|orgs| - 1 := org]);
      assert db.tables.orgs == old(db.tables.orgs) + [org];
      reply := IssueTokens(user.id, None, draw, now);
    }

    method Login(email: string, password: string, draw: Draw, now: int) returns (reply: Reply)
      requires Valid()
      modifies db`tables
      ensures Outcome(db.tables, reply) == LoginOutcome(old(db.tables), email, password, draw, now, tokenRepo.lifetime)
    {
      var u := FindEmail(db.tables.users, Lower(email));
      if u < 0 || db.tables.users[u].password != password { return Failure(BadCredentials); }
      if !db.tables.users[u].isActive { return Failure(Deactivated); }
      reply := IssueTokens(db.tables.users[u].id, None, draw, now);
    }

    method Refresh(raw: string, draw: Draw, now: int) returns (reply: Reply)
      requires Valid()
      modifies db`tables
      ensures Outcome(db.tables, reply) == RefreshOutcome(old(db.tables), raw, draw, now, tokenRepo.lifetime)
    {
      var t := tokenRepo.GetByHash(Sha256(raw));
      if t < 0 { return Failure(UnknownToken); }
      var row := db.tables.tokens[t];
      if row.isRevoked {
        tokenRepo.RevokeSession(row.sessionId);
        return Failure(ReusedToken);
      }
      if row.expiresAt < now {
        tokenRepo.Revoke(t);
        return Failure(ExpiredToken);
      }
      tokenRepo.Revoke(t);
      var u := FindUser(db.tables.users, row.userId);
      if u < 0 || !db.tables.users[u].isActive { return Failure(NoActiveUser); }
      reply := IssueTokens(db.tables.users[u].id, Some(row.sessionId), draw, now);
    }

    method Logout(raw: string) returns (reply: Reply)
      requires Valid()
      modifies db`tables
      ensures Outcome(db.tables, reply) == LogoutOutcome(old(db.tables), raw)
    {
      var t := tokenRepo.GetByHash(Sha256(raw));
      if t >= 0 && !db.tables.tokens[t].isRevoked {
        tokenRepo.Revoke(t);
      }
      reply := Success(None);
    }

    method IssueTokens(user: Id, session: Option<string>, draw: Draw, now: int) returns (reply: Reply)
      requires Valid()
      modifies db`tables
      ensures Outcome(db.tables, reply) == IssueOutcome(old(db.tables), user, session, draw, now, tokenRepo.lifetime)
    {
      var sid := if session.Some? && session.value != "" then session.value else draw.sessionId;
      var ok := tokenRepo.CreateToken(user, Sha256(draw.rawToken), sid, now);
      reply := if ok then Success(Some(draw.rawToken)) else Failure(IntegrityError);
    }
  }
}
