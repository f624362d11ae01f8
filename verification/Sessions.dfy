/** The refresh-token store and the requests that run against it, one transaction each.

    A raw token and its stored hash are identified: the hash is taken to be injective. Random
    tokens and family ids arrive as parameters, fresh by assumption. */
module Sessions {
  import opened Common

  datatype Token = Token(serial: nat)

  datatype Family = Family(serial: nat)

  /** One refresh token. usedAt is set once the token has been exchanged for its successor. */
  datatype SessionRow = SessionRow(user: nat, family: Family, usedAt: Option<Time>, expiresAt: Time)

  /** The sessions table, keyed by its unique column. */
  type SessionTable = map<Token, SessionRow>

  const REFRESH_TOKEN_LIFETIME: Time := 7 * 24 * 60 * 60 * MICROSECONDS_PER_SECOND

  /** The three clock readings one rotation takes, in the order it takes them. */
  datatype Clock = Clock(checked: Time, burnt: Time, issued: Time)

  datatype Reply = Issued(user: nat, token: Token) | InvalidSession | LoggedOut | RateLimited | InvalidCredentials

  function Lookup(rows: SessionTable, token: Token): Option<SessionRow> {
    if token in rows then Some(rows[token]) else None
  }

  function WithoutFamily(rows: SessionTable, family: Family): SessionTable {
    map token | token in rows && rows[token].family != family :: rows[token]
  }

  function Burnt(row: SessionRow, now: Time): SessionRow {
    row.(usedAt := Some(now))
  }

  /** The row a new token starts with, in a new family or an existing one. */
  function NewRow(user: nat, family: Family, now: Time): SessionRow {
    SessionRow(user, family, None, now + REFRESH_TOKEN_LIFETIME)
  }

  predicate Expired(row: SessionRow, now: Time) {
    row.expiresAt < now
  }

  // What one whole request does to the committed table, and what it answers.

  function OpenedSession(rows: SessionTable, user: nat, family: Family, token: Token, now: Time)
    : (SessionTable, Reply)
  {
    (rows[token := NewRow(user, family, now)], Issued(user, token))
  }

  function RefreshedSession(rows: SessionTable, token: Token, clock: Clock, successor: Token): (SessionTable, Reply) {
    match Lookup(rows, token)
    case None => (rows, InvalidSession)
    case Some(row) =>
      if row.usedAt.Some? then
        (WithoutFamily(rows, row.family), InvalidSession)
      else if Expired(row, clock.checked) then
        (rows, InvalidSession)
      else
        (rows[token := Burnt(row, clock.burnt)][successor := NewRow(row.user, row.family, clock.issued)],
         Issued(row.user, successor))
  }

  function EndedSession(rows: SessionTable, token: Token): (SessionTable, Reply) {
    match Lookup(rows, token)
    case None => (rows, LoggedOut)
    case Some(row) => (WithoutFamily(rows, row.family), LoggedOut)
  }

  /** A request's database session: the committed table, and the transaction's own view of it. */
  class SessionDb {
    var committed: SessionTable
    var working: SessionTable

    constructor (rows: SessionTable)
      ensures committed == rows && working == rows
    {
      committed := rows;
      working := rows;
    }

    method Commit()
      modifies this
      ensures committed == working == old(working)
    {
      committed := working;
    }

    method Rollback()
      modifies this
      ensures committed == working == old(committed)
    {
      working := committed;
    }

    method LockSessionByTokenHash(token: Token) returns (row: Option<SessionRow>)
      ensures row.Some? <==> token in working
      ensures row.Some? ==> row.value == working[token]
    {
      row := if token in working then Some(working[token]) else None;
    }

    method CreateSession(user: nat, family: Family, token: Token, expiresAt: Time)
      requires token !in working
      modifies this`working
      ensures working == old(working)[token := SessionRow(user, family, None, expiresAt)]
    {
      working := working[token := SessionRow(user, family, None, expiresAt)];
    }

    method MarkSessionUsed(token: Token, now: Time)
      requires token in working
      modifies this`working
      ensures working == old(working)[token := Burnt(old(working)[token], now)]
    {
      working := working[token := working[token].(usedAt := Some(now))];
    }

    method RevokeFamily(family: Family)
      modifies this`working
      ensures forall token :: token in working <==> token in old(working) && old(working)[token].family != family
      ensures forall token :: token in working ==> working[token] == old(working)[token]
    {
      working := map token | token in working && working[token].family != family :: working[token];
    }

    method IssueTokenPair(user: nat, family: Family, now: Time, successor: Token) returns (reply: Reply)
      requires successor !in working
      modifies this`working
      ensures working == old(working)[successor := NewRow(user, family, now)]
      ensures reply == Issued(user, successor)
    {
      CreateSession(user, family, successor, now + REFRESH_TOKEN_LIFETIME);
      reply := Issued(user, successor);
    }

    /** The rotation service. InvalidSession stands for the exception it raises: the caller then
        rolls back, and only the revocation of a replayed family has been committed by then. */
    method RefreshSession(token: Token, clock: Clock, successor: Token) returns (reply: Reply)
      requires working == committed && successor !in committed
      modifies this
      ensures reply == RefreshedSession(old(committed), token, clock, successor).1
      ensures reply.Issued? ==>
                committed == old(committed) && working == RefreshedSession(old(committed), token, clock, successor).0
      ensures !reply.Issued? ==> committed == RefreshedSession(old(committed), token, clock, successor).0
    {
      var current := LockSessionByTokenHash(token);
      if current.None? {
        return InvalidSession;
      }
      if current.value.usedAt.Some? {
        RevokeFamily(current.value.family);
        assert working == WithoutFamily(committed, current.value.family);
        Commit();
        return InvalidSession;
      }
      if Expired(current.value, clock.checked) {
        return InvalidSession;
      }
      MarkSessionUsed(token, clock.burnt);
      reply := IssueTokenPair(current.value.user, current.value.family, clock.issued, successor);
    }

    method LogoutUser(token: Token)
      requires working == committed
      modifies this`working
      ensures working == EndedSession(old(committed), token).0
    {
      var current := LockSessionByTokenHash(token);
      if current.Some? {
        RevokeFamily(current.value.family);
        assert working == WithoutFamily(old(committed), current.value.family);
      }
    }

    /** The refresh route under the request's transaction: commit on success, roll back on failure. */
    method HandleRefresh(cookie: Option<Token>, clock: Clock, successor: Token) returns (reply: Reply)
      requires working == committed && successor !in committed
      modifies this
      ensures working == committed
      ensures cookie.None? ==> committed == old(committed) && reply == InvalidSession
      ensures cookie.Some? ==> (committed, reply) == RefreshedSession(old(committed), cookie.value, clock, successor)
    {
      if cookie.None? {
        Rollback();
        return InvalidSession;
      }
      reply := RefreshSession(cookie.value, clock, successor);
      if reply.Issued? {
        Commit();
      } else {
        Rollback();
      }
    }

    method HandleLogout(cookie: Option<Token>) returns (reply: Reply)
      requires working == committed
      modifies this
      ensures working == committed && reply == LoggedOut
      ensures cookie.None? ==> committed == old(committed)
      ensures cookie.Some? ==> (committed, reply) == EndedSession(old(committed), cookie.value)
    {
      if cookie.Some? {
        LogoutUser(cookie.value);
      }
      Commit();
      reply := LoggedOut;
    }

    /** The login route. allowed is the limiter's verdict; user is whoever the email and password
        belong to, if they match. */
    method HandleLogin(allowed: bool, user: Option<nat>, family: Family, token: Token, now: Time)
      returns (reply: Reply)
      requires working == committed && token !in committed
      modifies this
      ensures working == committed
      ensures !allowed ==> committed == old(committed) && reply == RateLimited
      ensures allowed && user.None? ==> committed == old(committed) && reply == InvalidCredentials
      ensures allowed && user.Some? ==>
                (committed, reply) == OpenedSession(old(committed), user.value, family, token, now)
    {
      if !allowed {
        Rollback();
        return RateLimited;
      }
      if user.None? {
        Rollback();
        return InvalidCredentials;
      }
      reply := IssueTokenPair(user.value, family, now, token);
      Commit();
    }
  }
}
