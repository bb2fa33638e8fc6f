// The JavaScript backend's refresh-token ledger: the `refresh_tokens` table
// (primary key `id`; `token` is an ordinary, non-unique column) and the four
// statements that read and change it.
module RefreshLedger {
  import opened Common
  import opened Jwt

  /** One row of `refresh_tokens`, without its key. */
  datatype TokenRecord = TokenRecord(userId: string, token: Token, expiresAtMs: int)

  /** A row as `findRefreshToken` returns it: `id, user_id, token, expires_at`. */
  datatype StoredToken = StoredToken(id: string, userId: string, token: Token, expiresAtMs: int)

  type Rows = map<string, TokenRecord>

  /** Some row carries the token value `t`. */
  predicate HasToken(rows: Rows, t: Token)
  {
    exists id :: id in rows && rows[id].token == t
  }

  /** The ids of the rows that belong to `userId`. */
  function RecordsOf(rows: Rows, userId: string): (ids: set<string>)
    ensures forall id :: id in ids <==> id in rows && rows[id].userId == userId
  {
    set id | id in rows && rows[id].userId == userId
  }

  /** The table after `DELETE FROM refresh_tokens WHERE token = ?`. */
  function WithoutToken(rows: Rows, t: Token): (r: Rows)
    ensures forall id :: id in r <==> id in rows && rows[id].token != t
    ensures forall id :: id in r ==> r[id] == rows[id]
    ensures !HasToken(r, t)
  {
    map id | id in rows && rows[id].token != t :: rows[id]
  }

  /** The table after `DELETE FROM refresh_tokens WHERE user_id = ?`. */
  function WithoutUser(rows: Rows, userId: string): (r: Rows)
    ensures forall id :: id in r <==> id in rows && rows[id].userId != userId
    ensures forall id :: id in r ==> r[id] == rows[id]
    ensures RecordsOf(r, userId) == {}
  {
    map id | id in rows && rows[id].userId != userId :: rows[id]
  }

  /** Deleting a value no row carries leaves the table as it was. */
  lemma WithoutAbsentToken(rows: Rows, t: Token)
    requires !HasToken(rows, t)
    ensures WithoutToken(rows, t) == rows
  {
    assert forall id :: id in rows ==> rows[id].token != t;
  }

  /** Deleting one user's rows twice is deleting them once; other users' rows
      are kept with their contents. */
  lemma WithoutUserIdempotent(rows: Rows, userId: string, other: string)
    requires other != userId
    ensures WithoutUser(WithoutUser(rows, userId), userId) == WithoutUser(rows, userId)
    ensures RecordsOf(WithoutUser(rows, userId), other) == RecordsOf(rows, other)
  {
    var once := WithoutUser(rows, userId);
    WithoutUserOfNone(once, userId);
  }

  lemma WithoutUserOfNone(rows: Rows, userId: string)
    requires RecordsOf(rows, userId) == {}
    ensures WithoutUser(rows, userId) == rows
  {
    forall id | id in rows ensures rows[id].userId != userId {
      assert id !in RecordsOf(rows, userId);
    }
  }

  /** A row inserted with value `t` is found by `t`. */
  lemma FindAfterInsert(rows: Rows, id: string, rec: TokenRecord)
    ensures HasToken(rows[id := rec], rec.token)
  {
    assert rows[id := rec][id].token == rec.token;
  }

  class Ledger {
    var rows: Rows

    constructor ()
      ensures rows == map[]
    {
      rows := map[];
    }

    /** `INSERT INTO refresh_tokens (id, user_id, token, expires_at)`; the insert
        fails on a duplicate primary key and then changes nothing. */
    method CreateRefreshToken(id: string, userId: string, token: Token, expiresAtMs: int)
      returns (inserted: bool)
      modifies this
      ensures inserted <==> id !in old(rows)
      ensures rows == if inserted then old(rows)[id := TokenRecord(userId, token, expiresAtMs)] else old(rows)
    {
      inserted := id !in rows;
      if inserted {
        rows := rows[id := TokenRecord(userId, token, expiresAtMs)];
      }
    }

    /** `SELECT ... WHERE token = ? LIMIT 1`: one of the rows with that value
        (which one is unspecified), or null when there is none. */
    method FindRefreshToken(token: Token) returns (r: Option<StoredToken>)
      ensures r.None? <==> !HasToken(rows, token)
      ensures r.Some? ==> r.value.id in rows && r.value.token == token
      ensures r.Some? ==> rows[r.value.id] == TokenRecord(r.value.userId, r.value.token, r.value.expiresAtMs)
    {
      if HasToken(rows, token) {
        var id :| id in rows && rows[id].token == token;
        var rec := rows[id];
        r := Some(StoredToken(id, rec.userId, rec.token, rec.expiresAtMs));
      } else {
        r := None;
      }
    }

    /** `DELETE FROM refresh_tokens WHERE token = ?`. */
    method DeleteRefreshToken(token: Token)
      modifies this
      ensures rows == WithoutToken(old(rows), token)
    {
      rows := WithoutToken(rows, token);
    }

    /** `DELETE FROM refresh_tokens WHERE user_id = ?`. */
    method DeleteRefreshTokensForUser(userId: string)
      modifies this
      ensures rows == WithoutUser(old(rows), userId)
    {
      rows := WithoutUser(rows, userId);
    }
  }
}
