/** The refresh-token table and the repository that changes it. */
module Tokens {
  import opened Common
  import opened Schema

  ghost predicate UniqueHashes(rows: seq<TokenRow>) {
    forall i, j :: 0 <= i < j < |rows| ==> rows[i].hashedToken != rows[j].hashedToken
  }

  function FindHash(rows: seq<TokenRow>, h: Digest): (r: int)
    ensures -1 <= r < |rows|
    ensures r >= 0 ==> rows[r].hashedToken == h
    ensures forall i :: 0 <= i < |rows| && i > r ==> rows[i].hashedToken != h
  {
    Find(rows, (row: TokenRow) => row.hashedToken == h)
  }

  function RevokeAt(rows: seq<TokenRow>, i: nat): seq<TokenRow>
    requires i < |rows|
  {
    rows[i := rows[i].(isRevoked := true)]
  }

  function RevokeFamily(rows: seq<TokenRow>, sid: string): (r: seq<TokenRow>)
    ensures |r| == |rows|
    ensures forall i :: 0 <= i < |rows| ==>
      r[i] == if rows[i].sessionId == sid then rows[i].(isRevoked := true) else rows[i]
  {
    seq(|rows|, i requires 0 <= i < |rows| =>
      if rows[i].sessionId == sid then rows[i].(isRevoked := true) else rows[i])
  }

  ghost predicate HasFamily(rows: seq<TokenRow>, sid: string) {
    exists i :: 0 <= i < |rows| && rows[i].sessionId == sid
  }

  /** No token of the family can be exchanged any more. */
  ghost predicate FamilyRevoked(rows: seq<TokenRow>, sid: string) {
    forall i :: 0 <= i < |rows| && rows[i].sessionId == sid ==> rows[i].isRevoked
  }

  /** The position of the last row of family `sid` among the first `n` rows, or -1. */
  ghost function LastOf(rows: seq<TokenRow>, sid: string, n: nat): (r: int)
    requires n <= |rows|
    ensures -1 <= r < n
    ensures r >= 0 ==> rows[r].sessionId == sid
    ensures forall k :: r < k < n ==> rows[k].sessionId != sid
  {
    if n == 0 then -1
    else if rows[n - 1].sessionId == sid then n - 1
    else LastOf(rows, sid, n - 1)
  }

  ghost function FamilySize(rows: seq<TokenRow>, sid: string): nat {
    if rows == [] then 0
    else FamilySize(rows[..|rows| - 1], sid) + if rows[|rows| - 1].sessionId == sid then 1 else 0
  }

  /** Creating a row fails when its digest is stored already: the column is unique. */
  function CreateOutcome(rows: seq<TokenRow>, row: TokenRow): (seq<TokenRow>, bool) {
    if FindHash(rows, row.hashedToken) >= 0 then (rows, false) else (rows + [row], true)
  }

  class RefreshTokenRepository {
    const db: Session
    const lifetime: int

    constructor (db: Session, lifetime: int)
      ensures this.db == db && this.lifetime == lifetime
    {
      this.db, this.lifetime := db, lifetime;
    }

    method CreateToken(user: Id, hashed: Digest, sid: string, now: int) returns (ok: bool)
      modifies db`tables
      ensures var o := CreateOutcome(old(db.tables.tokens), TokenRow(user, hashed, sid, now + lifetime, false));
        db.tables == old(db.tables).(tokens := o.0) && ok == o.1
    {
      var expiresAt := now + lifetime;
      ok := FindHash(db.tables.tokens, hashed) < 0;
      if ok {
        db.tables := db.tables.(tokens := db.tables.tokens + [TokenRow(user, hashed, sid, expiresAt, false)]);
      }
    }

    /** The position of the row, by which the caller changes it; negative when no row has the digest. */
    method GetByHash(hashed: Digest) returns (position: int)
      ensures position == FindHash(db.tables.tokens, hashed)
      ensures position >= 0 <==> exists i :: 0 <= i < |db.tables.tokens| && db.tables.tokens[i].hashedToken == hashed
      ensures position >= 0 && UniqueHashes(db.tables.tokens) ==>
        forall i :: 0 <= i < |db.tables.tokens| ==> (db.tables.tokens[i].hashedToken == hashed <==> i == position)
    {
      position := FindHash(db.tables.tokens, hashed);
    }

    method Revoke(position: nat)
      requires position < |db.tables.tokens|
      modifies db`tables
      ensures db.tables == old(db.tables).(tokens := RevokeAt(old(db.tables.tokens), position))
    {
      var row := db.tables.tokens[position];
      db.tables := db.tables.(tokens := db.tables.tokens[position := row.(isRevoked := true)]);
    }

    method RevokeSession(sid: string)
      modifies db`tables
      ensures db.tables == old(db.tables).(tokens := RevokeFamily(old(db.tables.tokens), sid))
    {
      var rows := db.tables.tokens;
      var i := 0;
      while i < |rows|
        invariant 0 <= i <= |rows| == |old(db.tables.tokens)|
        invariant rows[..i] == RevokeFamily(old(db.tables.tokens), sid)[..i]
        invariant rows[i..] == old(db.tables.tokens)[i..]
      {
        assert rows[i] == rows[i..][0] == old(db.tables.tokens)[i];
        if rows[i].sessionId == sid {
          rows := rows[i := rows[i].(isRevoked := true)];
        }
        i := i + 1;
      }
      db.tables := db.tables.(tokens := rows);
    }
  }
}
