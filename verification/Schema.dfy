/** The rows of the database tables, and the tables one database session sees. */
module Schema {
  import opened Common

  type Id = nat

  datatype User = User(
    id: Id,
    email: string,
    password: string,
    fullName: string,
    role: string,
    orgId: Option<Id>,
    isActive: bool)

  datatype Org = Org(
    id: Id,
    name: string,
    slug: string,
    description: Option<string>,
    website: Option<string>,
    isActive: bool,
    ownerId: Id)

  /** A stored digest. SHA-256 is taken to be injective, so a digest is its preimage under a constructor. */
  datatype Digest = Sha256(raw: string)

  datatype TokenRow = TokenRow(
    userId: Id,
    hashedToken: Digest,
    sessionId: string,
    expiresAt: int,
    isRevoked: bool)

  datatype FraudRule = FraudRule(
    id: Id,
    orgId: Option<Id>,
    ruleName: string,
    ruleType: string,
    description: string,
    scoreImpact: int,
    isActive: bool,
    config: map<string, int>)

  datatype Payload = Payload(
    name: string,
    email: string,
    phone: Option<string>,
    pan: Option<string>,
    ipAddress: Option<string>,
    deviceId: Option<string>)

  datatype RequestRow = RequestRow(id: Id, orgId: Id, data: Payload, status: string, createdAt: int)

  datatype ResultRow = ResultRow(
    requestId: Id,
    riskScore: int,
    decision: string,
    reasons: seq<string>,
    breakdown: map<string, int>)

  datatype Tables = Tables(
    users: seq<User>,
    orgs: seq<Org>,
    tokens: seq<TokenRow>,
    rules: seq<FraudRule>,
    requests: seq<RequestRow>,
    results: seq<ResultRow>)

  const EMPTY := Tables([], [], [], [], [], [])

  /** One database session: what it sees after its own flushes, and what a rollback returns to. */
  class Session {
    var tables: Tables
    var committed: Tables

    constructor (stored: Tables)
      ensures tables == committed == stored
    {
      tables, committed := stored, stored;
    }

    method Commit()
      modifies this
      ensures tables == committed == old(tables)
    {
      committed := tables;
    }

    method Rollback()
      modifies this
      ensures tables == committed == old(committed)
    {
      tables := committed;
    }
  }
}
