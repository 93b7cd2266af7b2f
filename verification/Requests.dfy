/** One request: a service call inside the session that `get_db` provides. */
module Requests {
  import opened Common
  import opened Schema
  import opened Auth
  import opened Organizations
  import opened Sessions

  class AuthEndpoint {
    const service: AuthService

    constructor (db: Session, lifetime: int)
      ensures service.db == db && service.tokenRepo.lifetime == lifetime && service.Valid()
    {
      service := new AuthService(db, lifetime);
    }

    method Dispatch(at: int, call: Call, draw: Draw) returns (reply: Reply)
      requires service.Valid()
      modifies service.db`tables
      ensures Outcome(service.db.tables, reply)
           == ServiceOutcome(old(service.db.tables), Event.Call(at, call, draw), service.tokenRepo.lifetime)
    {
      hide RegisterOutcome, LoginOutcome, RefreshOutcome, LogoutOutcome, OrgOutcome;
      match call
      case Register(email, password, fullName, orgName) =>
        reply := service.Register(email, password, fullName, orgName, draw, at);
      case Login(email, password) => reply := service.Login(email, password, draw, at);
      case Refresh(raw) => reply := service.Refresh(raw, draw, at);
      case Logout(raw) => reply := service.Logout(raw);
      case Organization(c) =>
        var error: Option<OrgError>;
        match c {
          case CreateOrg(id, name, description, website, owner) =>
            error := service.orgService.CreateOrg(id, name, description, website, owner);
          case UpdateOrg(id, changes, requester) => error := service.orgService.UpdateOrg(id, changes, requester);
          case DeactivateOrg(id) => error := service.orgService.DeactivateOrg(id);
        }
        reply := if error.None? then Success(None) else Failure(OrganizationError);
    }

    /** Commits when the service returns, rolls back when it raises: the stored tables move as in `Sessions.After`. */
    method Handle(at: int, call: Call, draw: Draw) returns (reply: Reply)
      requires service.Valid() && service.db.tables == service.db.committed
      modifies service.db
      ensures service.db.tables == service.db.committed
      ensures service.db.committed
           == After(Layer.Request, old(service.db.committed), Event.Call(at, call, draw), service.tokenRepo.lifetime)
      ensures reply
           == ServiceOutcome(old(service.db.committed), Event.Call(at, call, draw), service.tokenRepo.lifetime).reply
    {
      reply := Dispatch(at, call, draw);
      if reply.Success? {
        service.db.Commit();
      } else {
        service.db.Rollback();
      }
    }
  }
}
