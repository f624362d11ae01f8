/** Runs of whole requests, each one atomic: the table implements a machine that keeps one
    current token per login, and a revoked login never comes back. */
module SessionRuns {
  import opened Common
  import opened Sessions

  datatype Request =
    | Login(user: nat, family: Family, first: Token, now: Time)
    | Refresh(token: Token, clock: Clock, successor: Token)
    | Logout(token: Token)

  /** The committed table, with every token and family id issued so far. */
  datatype Server = Server(rows: SessionTable, tokens: set<Token>, families: set<Family>)

  const EMPTY := Server(map[], {}, {})

  ghost predicate WellFormed(s: Server) {
    forall token | token in s.rows :: token in s.tokens && s.rows[token].family in s.families
  }

  /** New tokens and family ids are random, so they have never been issued before. A refresh draws a
      token only if it comes to issuing one. */
  predicate Enabled(s: Server, r: Request) {
    match r
    case Login(_, family, first, _) => first !in s.tokens && family !in s.families
    case Refresh(token, clock, successor) =>
      RefreshedSession(s.rows, token, clock, successor).1.Issued? ==> successor !in s.tokens
    case Logout(_) => true
  }

  function Served(s: Server, r: Request): (Server, Reply) {
    match r
    case Login(user, family, first, now) =>
      var (rows, reply) := OpenedSession(s.rows, user, family, first, now);
      (Server(rows, s.tokens + {first}, s.families + {family}), reply)
    case Refresh(token, clock, successor) =>
      var (rows, reply) := RefreshedSession(s.rows, token, clock, successor);
      (Server(rows, if reply.Issued? then s.tokens + {successor} else s.tokens, s.families), reply)
    case Logout(token) =>
      var (rows, reply) := EndedSession(s.rows, token);
      (s.(rows := rows), reply)
  }

  predicate Valid(s: Server, rs: seq<Request>)
    decreases |rs|
  {
    rs == [] || (Enabled(s, rs[0]) && Valid(Served(s, rs[0]).0, rs[1..]))
  }

  function Run(s: Server, rs: seq<Request>): Server
    decreases |rs|
  {
    if rs == [] then s else Run(Served(s, rs[0]).0, rs[1..])
  }

  function Replies(s: Server, rs: seq<Request>): seq<Reply>
    decreases |rs|
  {
    if rs == [] then [] else [Served(s, rs[0]).1] + Replies(Served(s, rs[0]).0, rs[1..])
  }

  // The simple machine: per login, one current token with its expiry, and the retired ones.

  datatype LiveLogin = LiveLogin(user: nat, current: Token, expiresAt: Time, retired: set<Token>)

  type Logins = map<Family, LiveLogin>

  ghost predicate Knows(login: LiveLogin, token: Token) {
    token == login.current || token in login.retired
  }

  ghost function Holder(logins: Logins, token: Token): Option<Family> {
    if family :| family in logins && Knows(logins[family], token) then Some(family) else None
  }

  ghost function SimplyServed(logins: Logins, r: Request): (Logins, Reply) {
    match r
    case Login(user, family, first, now) =>
      (logins[family := LiveLogin(user, first, now + REFRESH_TOKEN_LIFETIME, {})], Issued(user, first))
    case Refresh(token, clock, successor) =>
      (match Holder(logins, token)
       case None => (logins, InvalidSession)
       case Some(family) =>
         var login := logins[family];
         if token in login.retired then (logins - {family}, InvalidSession)
         else if login.expiresAt < clock.checked then (logins, InvalidSession)
         else (logins[family := LiveLogin(login.user, successor, clock.issued + REFRESH_TOKEN_LIFETIME,
                                          login.retired + {token})],
               Issued(login.user, successor)))
    case Logout(token) =>
      (match Holder(logins, token)
       case None => (logins, LoggedOut)
       case Some(family) => (logins - {family}, LoggedOut))
  }

  ghost function SimpleReplies(logins: Logins, rs: seq<Request>): seq<Reply>
    decreases |rs|
  {
    if rs == [] then []
    else [SimplyServed(logins, rs[0]).1] + SimpleReplies(SimplyServed(logins, rs[0]).0, rs[1..])
  }

  /** Unspent rows are the current tokens, spent rows the retired ones, and nothing else is stored. */
  ghost predicate Represents(rows: SessionTable, logins: Logins) {
    && (forall token | token in rows ::
          var row := rows[token];
          && row.family in logins
          && row.user == logins[row.family].user
          && if row.usedAt.Some? then token in logins[row.family].retired
             else token == logins[row.family].current && row.expiresAt == logins[row.family].expiresAt)
    && (forall family | family in logins ::
          var current := logins[family].current;
          current in rows && rows[current].family == family && rows[current].usedAt.None?)
    && (forall family, token | family in logins && token in logins[family].retired ::
          token in rows && rows[token].family == family && rows[token].usedAt.Some?)
  }

  lemma HolderIsTheRowsFamily(rows: SessionTable, logins: Logins, token: Token)
    requires Represents(rows, logins)
    ensures Holder(logins, token) == if token in rows then Some(rows[token].family) else None
  {
    if token in rows {
      assert Knows(logins[rows[token].family], token);
    }
  }

  lemma OpeningRefines(rows: SessionTable, logins: Logins, user: nat, family: Family, first: Token, now: Time)
    requires Represents(rows, logins) && first !in rows
    requires forall token | token in rows :: rows[token].family != family
    ensures Represents(rows[first := NewRow(user, family, now)],
                       logins[family := LiveLogin(user, first, now + REFRESH_TOKEN_LIFETIME, {})])
  {
    forall known | known in logins
      ensures known != family
    {
      assert rows[logins[known].current].family == known;
    }
  }

  lemma RevokingRefines(rows: SessionTable, logins: Logins, family: Family)
    requires Represents(rows, logins)
    ensures Represents(WithoutFamily(rows, family), logins - {family})
  {}

  lemma RotatingRefines(rows: SessionTable, logins: Logins, token: Token, burnt: Time, successor: Token, issued: Time)
    requires Represents(rows, logins) && token in rows && rows[token].usedAt.None? && successor !in rows
    ensures var row := rows[token];
            var login := logins[row.family];
            Represents(rows[token := Burnt(row, burnt)][successor := NewRow(row.user, row.family, issued)],
                       logins[row.family := LiveLogin(row.user, successor, issued + REFRESH_TOKEN_LIFETIME,
                                                      login.retired + {token})])
  {
    var row := rows[token];
    var login := logins[row.family];
    var rows' := rows[token := Burnt(row, burnt)][successor := NewRow(row.user, row.family, issued)];
    var login' := LiveLogin(row.user, successor, issued + REFRESH_TOKEN_LIFETIME, login.retired + {token});
    forall other | other in rows' && other != token && other != successor
      ensures rows'[other].family == row.family && rows[other].usedAt.None? ==> false
    {
      assert other in rows;
    }
  }

  lemma ServedKeepsWellFormed(s: Server, r: Request)
    requires WellFormed(s) && Enabled(s, r)
    ensures WellFormed(Served(s, r).0)
  {}

  lemma RefreshRefines(rows: SessionTable, logins: Logins, token: Token, clock: Clock, successor: Token)
    requires Represents(rows, logins)
    requires RefreshedSession(rows, token, clock, successor).1.Issued? ==> successor !in rows
    ensures var (rows', reply) := RefreshedSession(rows, token, clock, successor);
            var (logins', reply') := SimplyServed(logins, Refresh(token, clock, successor));
            reply == reply' && Represents(rows', logins')
  {
    HolderIsTheRowsFamily(rows, logins, token);
    if token in rows {
      if rows[token].usedAt.Some? {
        RevokingRefines(rows, logins, rows[token].family);
      } else if !Expired(rows[token], clock.checked) {
        assert token !in logins[rows[token].family].retired;
        RotatingRefines(rows, logins, token, clock.burnt, successor, clock.issued);
      }
    }
  }

  lemma LogoutRefines(rows: SessionTable, logins: Logins, token: Token)
    requires Represents(rows, logins)
    ensures var (rows', reply) := EndedSession(rows, token);
            var (logins', reply') := SimplyServed(logins, Logout(token));
            reply == reply' && Represents(rows', logins')
  {
    HolderIsTheRowsFamily(rows, logins, token);
    if token in rows {
      RevokingRefines(rows, logins, rows[token].family);
    }
  }

  /** One request on the table answers as the simple machine does, and the two stay in step. */
  lemma ServedRefines(s: Server, logins: Logins, r: Request)
    requires WellFormed(s) && Represents(s.rows, logins) && Enabled(s, r)
    ensures Served(s, r).1 == SimplyServed(logins, r).1
    ensures Represents(Served(s, r).0.rows, SimplyServed(logins, r).0)
  {
    match r
    case Login(user, family, first, now) =>
      OpeningRefines(s.rows, logins, user, family, first, now);
    case Refresh(token, clock, successor) =>
      RefreshRefines(s.rows, logins, token, clock, successor);
    case Logout(token) =>
      LogoutRefines(s.rows, logins, token);
  }

  /** Every run answers exactly what the simple machine answers. */
  lemma {:induction false} RunRefines(s: Server, logins: Logins, rs: seq<Request>)
    requires WellFormed(s) && Represents(s.rows, logins) && Valid(s, rs)
    ensures Replies(s, rs) == SimpleReplies(logins, rs)
    decreases |rs|
  {
    if rs != [] {
      ServedKeepsWellFormed(s, rs[0]);
      ServedRefines(s, logins, rs[0]);
      RunRefines(Served(s, rs[0]).0, SimplyServed(logins, rs[0]).0, rs[1..]);
    }
  }

  lemma TableRefinesSimpleMachine(rs: seq<Request>)
    requires Valid(EMPTY, rs)
    ensures Replies(EMPTY, rs) == SimpleReplies(map[], rs)
  {
    RunRefines(EMPTY, map[], rs);
  }

  // What is stored.

  /** A login stores one row: unspent, for its user and family, expiring 7 days after it was issued. */
  lemma LoginStores(rows: SessionTable, user: nat, family: Family, first: Token, now: Time)
    ensures var (after, reply) := OpenedSession(rows, user, family, first, now);
            && reply == Issued(user, first)
            && after == rows[first := SessionRow(user, family, None, now + 7 * 86_400 * 1_000_000)]
  {}

  /** A rotation stamps the row presented with the time it was burnt and stores one row more: unspent,
      for the same user and family, expiring 7 days after it was issued. */
  lemma RotationStores(rows: SessionTable, token: Token, clock: Clock, successor: Token)
    requires RefreshedSession(rows, token, clock, successor).1.Issued? && successor !in rows
    ensures token in rows && rows[token].usedAt == None && rows[token].expiresAt >= clock.checked
    ensures var row := rows[token];
            RefreshedSession(rows, token, clock, successor)
            == (rows[token := SessionRow(row.user, row.family, Some(clock.burnt), row.expiresAt)]
                    [successor := SessionRow(row.user, row.family, None, clock.issued + 7 * 86_400 * 1_000_000)],
                Issued(row.user, successor))
  {}

  // In numbers.

  /** A token that nobody exchanged or revoked is exchanged for up to 7 days after it was issued, to
      the instant, and refused without a change after that. */
  lemma TokenLivesSevenDays(rows: SessionTable, token: Token, user: nat, family: Family, issued: Time, clock: Clock,
                            successor: Token)
    requires token in rows && rows[token] == NewRow(user, family, issued)
    ensures var (after, reply) := RefreshedSession(rows, token, clock, successor);
            if clock.checked <= issued + 7 * 86_400 * 1_000_000
            then reply == Issued(user, successor) && after.Keys == rows.Keys + {successor}
            else reply == InvalidSession && after == rows
  {}

  // Revocation.

  /** The request presents a token that is stored, and either replays it or logs it out. */
  predicate Revokes(s: Server, r: Request) {
    match r
    case Login(_, _, _, _) => false
    case Refresh(token, _, _) => token in s.rows && s.rows[token].usedAt.Some?
    case Logout(token) => token in s.rows
  }

  ghost predicate Revoked(s: Server, family: Family, tokens: set<Token>) {
    && family in s.families && tokens <= s.tokens && tokens !! s.rows.Keys
    && forall token | token in s.rows :: s.rows[token].family != family
  }

  lemma {:induction false} RevokedStays(s: Server, family: Family, tokens: set<Token>, rs: seq<Request>)
    requires WellFormed(s) && Valid(s, rs) && Revoked(s, family, tokens)
    ensures Revoked(Run(s, rs), family, tokens)
    decreases |rs|
  {
    if rs != [] {
      RevokedStays(Served(s, rs[0]).0, family, tokens, rs[1..]);
    }
  }

  /** After a replay or a logout, whatever requests follow: the family has no row, every token
      it had is refused without a change, and a replay answers as a failure all the same. */
  lemma RevocationIsPermanent(s: Server, r: Request, rs: seq<Request>, clock: Clock, successor: Token)
    requires WellFormed(s) && Revokes(s, r) && Enabled(s, r) && Valid(Served(s, r).0, rs)
    ensures !Served(s, r).1.Issued?
    ensures var family := s.rows[r.token].family;
            var later := Run(Served(s, r).0, rs).rows;
            && (forall token | token in later :: later[token].family != family)
            && (forall token | token in s.rows && s.rows[token].family == family ::
                  RefreshedSession(later, token, clock, successor) == (later, InvalidSession))
  {
    var family := s.rows[r.token].family;
    var tokens := set token | token in s.rows && s.rows[token].family == family;
    RevokedStays(Served(s, r).0, family, tokens, rs);
  }
}
