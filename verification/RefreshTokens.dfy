/** Refresh-token families: issuing, rotation with reuse detection, and the ways to revoke. */
module RefreshTokens {
  import opened Prelude
  import opened Sequences

  datatype Reason =
    | Rotated | ReuseDetected | Expired | Logout | LogoutAll | PasswordChanged | PasswordReset | SessionRevoked

  datatype Revocation = Revocation(at: int, reason: Reason)

  /**
    * A stored token. Its identity is its place in the table; `raw` stands for the random secret it was
    * issued under, which its stored hash determines.
    */
  datatype Token = Token(
    user: nat, raw: nat, family: nat, parent: Option<nat>, expiresAt: int, revoked: Option<Revocation>)

  /** The rows that matter: tokens in order of creation, and which users exist and are active. */
  datatype Db = Db(tokens: seq<Token>, users: map<nat, bool>)

  datatype AuthError = InvalidToken | ReuseWasDetected | TokenExpired | AccountUnavailable

  // ---------------------------------------------------------------- state functions

  predicate Live(token: Token) { token.revoked.None? }

  function Find(tokens: seq<Token>, raw: nat): (i: Option<nat>)
    ensures i.Some? ==> i.value < |tokens| && tokens[i.value].raw == raw
    ensures i.None? ==> forall k :: 0 <= k < |tokens| ==> tokens[k].raw != raw
  {
    if tokens == [] then None
    else
      var last := |tokens| - 1;
      if tokens[last].raw == raw then Some(last) else Find(tokens[..last], raw)
  }

  /** One bulk `UPDATE`: every token the predicate selects gets the revocation. */
  function Revoke(tokens: seq<Token>, which: Token -> bool, revocation: Revocation): (r: seq<Token>)
    ensures |r| == |tokens|
    ensures forall i :: 0 <= i < |tokens| ==>
      r[i] == if which(tokens[i]) then tokens[i].(revoked := Some(revocation)) else tokens[i]
  {
    seq(|tokens|, i requires 0 <= i < |tokens| =>
      if which(tokens[i]) then tokens[i].(revoked := Some(revocation)) else tokens[i])
  }

  function LiveInFamily(family: nat): Token -> bool {
    (t: Token) => t.family == family && Live(t)
  }

  function LiveOfUser(user: nat): Token -> bool {
    (t: Token) => t.user == user && Live(t)
  }

  /** Deleting a session also rewrites the revocation of tokens that were revoked before. */
  function SessionOf(user: nat, family: nat): Token -> bool {
    (t: Token) => t.user == user && t.family == family
  }

  // ---------------------------------------------------------------- committed effect of each request

  /** The outcome of `/auth/refresh` and the state it leaves committed. */
  function RefreshStep(db: Db, raw: nat, now: int, newRaw: nat, ttl: nat): (Db, Result<nat, AuthError>) {
    match Find(db.tokens, raw)
    case None => (db, Err(InvalidToken))
    case Some(i) =>
      var record := db.tokens[i];
      if !Live(record) then
        (db.(tokens := Revoke(db.tokens, LiveInFamily(record.family), Revocation(now, ReuseDetected))), Err(ReuseWasDetected))
      else if record.expiresAt <= now then (db, Err(TokenExpired))
      else if record.user !in db.users || !db.users[record.user] then (db, Err(AccountUnavailable))
      else
        (db.(tokens := db.tokens[i := record.(revoked := Some(Revocation(now, Rotated)))]
                       + [Token(record.user, newRaw, record.family, Some(i), now + ttl, None)]),
         Ok(newRaw))
  }

  /** Login or signup: a token at the root of a new family. */
  function IssueStep(db: Db, user: nat, now: int, newRaw: nat, newFamily: nat, ttl: nat): Db {
    db.(tokens := db.tokens + [Token(user, newRaw, newFamily, None, now + ttl, None)])
  }

  function LogoutStep(db: Db, raw: Option<nat>, user: nat, allDevices: bool, now: int): Db {
    if allDevices then db.(tokens := Revoke(db.tokens, LiveOfUser(user), Revocation(now, LogoutAll)))
    else if raw.None? then db
    else
      match Find(db.tokens, raw.value)
      case None => db
      case Some(i) =>
        if db.tokens[i].user == user
        then db.(tokens := db.tokens[i := db.tokens[i].(revoked := Some(Revocation(now, Logout)))])
        else db
  }

  /** A password change or reset: every live token of the user. */
  function RevokeUserStep(db: Db, user: nat, reason: Reason, now: int): Db {
    db.(tokens := Revoke(db.tokens, LiveOfUser(user), Revocation(now, reason)))
  }

  function DeleteSessionStep(db: Db, user: nat, family: nat, now: int): Db {
    db.(tokens := Revoke(db.tokens, SessionOf(user, family), Revocation(now, SessionRevoked)))
  }

  // ---------------------------------------------------------------- the session and its endpoints

  /** A database session: `stored` is what is committed, `pending` what this request sees and changes. */
  class Session {
    var stored: Db
    var pending: Db

    constructor (db: Db)
      ensures stored == db && pending == db
    {
      stored := db;
      pending := db;
    }

    method Commit()
      modifies this
      ensures stored == old(pending) && pending == old(pending)
    {
      stored := pending;
    }

    /** Leaving the request scope without a commit rolls back. */
    method Close()
      modifies this
      ensures stored == old(stored) && pending == old(stored)
    {
      pending := stored;
    }

    method IssueTokens(user: nat, family: nat, parent: Option<nat>, now: int, newRaw: nat, ttl: nat)
      modifies this`pending
      ensures pending == old(pending).(tokens := old(pending).tokens + [Token(user, newRaw, family, parent, now + ttl, None)])
    {
      var refresh := Token(user, newRaw, family, parent, now + ttl, None);
      pending := pending.(tokens := pending.tokens + [refresh]);
    }

    /** The service: it writes before it knows whether it will succeed, and commits only on reuse. */
    method RotateRefreshToken(raw: nat, now: int, newRaw: nat, ttl: nat) returns (result: Result<nat, AuthError>)
      requires pending == stored
      modifies this
      ensures result == RefreshStep(old(stored), raw, now, newRaw, ttl).1
      ensures result.Ok? ==> stored == old(stored) && pending == RefreshStep(old(stored), raw, now, newRaw, ttl).0
      ensures result.Err? ==> stored == RefreshStep(old(stored), raw, now, newRaw, ttl).0
      ensures result == Err(InvalidToken) || result == Err(ReuseWasDetected) ==> pending == stored
      ensures result == Err(TokenExpired) || result == Err(AccountUnavailable) ==>
        exists i :: Find(old(stored).tokens, raw) == Some(i) && i < |old(stored).tokens|
          && pending == old(stored).(tokens := old(stored).tokens[i := old(stored).tokens[i].(revoked :=
               Some(Revocation(now, if result == Err(TokenExpired) then Expired else Rotated)))])
    {
      var found := Find(pending.tokens, raw);
      if found.None? {
        return Err(InvalidToken);
      }
      var i := found.value;
      var record := pending.tokens[i];
      if record.revoked.Some? {
        pending := pending.(tokens := Revoke(pending.tokens, LiveInFamily(record.family), Revocation(now, ReuseDetected)));
        Commit();
        return Err(ReuseWasDetected);
      }
      if record.expiresAt <= now {
        pending := pending.(tokens := pending.tokens[i := record.(revoked := Some(Revocation(now, Expired)))]);
        return Err(TokenExpired);
      }
      pending := pending.(tokens := pending.tokens[i := record.(revoked := Some(Revocation(now, Rotated)))]);
      if record.user !in pending.users || !pending.users[record.user] {
        return Err(AccountUnavailable);
      }
      IssueTokens(record.user, record.family, Some(i), now, newRaw, ttl);
      result := Ok(newRaw);
    }

    /** The router commits after success; what a failed rotation wrote but did not commit is lost. */
    method RefreshEndpoint(raw: nat, now: int, newRaw: nat, ttl: nat) returns (result: Result<nat, AuthError>)
      requires pending == stored
      modifies this
      ensures pending == stored
      ensures (stored, result) == RefreshStep(old(stored), raw, now, newRaw, ttl)
    {
      result := RotateRefreshToken(raw, now, newRaw, ttl);
      if result.Ok? {
        Commit();
      }
      Close();
    }

    method LoginEndpoint(user: nat, now: int, newRaw: nat, newFamily: nat, ttl: nat)
      requires pending == stored
      modifies this
      ensures pending == stored == IssueStep(old(stored), user, now, newRaw, newFamily, ttl)
    {
      IssueTokens(user, newFamily, None, now, newRaw, ttl);
      Commit();
    }

    method RevokeRefresh(raw: Option<nat>, user: nat, allDevices: bool, now: int)
      modifies this`pending
      ensures pending == LogoutStep(old(pending), raw, user, allDevices, now)
    {
      if allDevices {
        pending := pending.(tokens := Revoke(pending.tokens, LiveOfUser(user), Revocation(now, LogoutAll)));
        return;
      }
      if raw.Some? {
        var found := Find(pending.tokens, raw.value);
        if found.Some? && pending.tokens[found.value].user == user {
          var record := pending.tokens[found.value].(revoked := Some(Revocation(now, Logout)));
          pending := pending.(tokens := pending.tokens[found.value := record]);
        }
      }
    }

    method LogoutEndpoint(raw: Option<nat>, user: nat, allDevices: bool, now: int)
      requires pending == stored
      modifies this
      ensures pending == stored == LogoutStep(old(stored), raw, user, allDevices, now)
    {
      RevokeRefresh(raw, user, allDevices, now);
      Commit();
    }

    /** The tail of both password endpoints. */
    method RevokeForPassword(user: nat, reason: Reason, now: int)
      requires pending == stored
      modifies this
      ensures pending == stored == RevokeUserStep(old(stored), user, reason, now)
    {
      pending := pending.(tokens := Revoke(pending.tokens, LiveOfUser(user), Revocation(now, reason)));
      Commit();
    }

    method DeleteSessionEndpoint(user: nat, family: nat, now: int)
      requires pending == stored
      modifies this
      ensures pending == stored == DeleteSessionStep(old(stored), user, family, now)
    {
      pending := pending.(tokens := Revoke(pending.tokens, SessionOf(user, family), Revocation(now, SessionRevoked)));
      Commit();
    }

    /** `sessions_endpoint`: live tokens of a user, newest first, the first of each family. */
    method ListSessions(user: nat) returns (output: seq<Token>)
      ensures output == FirstPer(Family(), LiveRows(pending.tokens, user))
    {
      var rows := LiveRows(pending.tokens, user);
      var seen: set<nat> := {};
      output := [];
      for n := 0 to |rows|
        invariant seen == Keys(Family(), rows[..n])
        invariant output == FirstPer(Family(), rows[..n])
      {
        var row := rows[n];
        KeysStep(Family(), rows, n);
        assert rows[..n + 1][..n] == rows[..n];
        if row.family in seen {
          continue;
        }
        seen := seen + {row.family};
        output := output + [row];
      }
      assert rows[..|rows|] == rows;
    }
  }

  /** The query behind the session list: live tokens of the user, newest first. */
  function LiveRows(tokens: seq<Token>, user: nat): seq<Token> {
    if tokens == [] then []
    else
      var last := tokens[|tokens| - 1];
      (if last.user == user && Live(last) then [last] else []) + LiveRows(tokens[..|tokens| - 1], user)
  }

  function Family(): Token -> nat {
    (token: Token) => token.family
  }

  /** No two live tokens share a family. */
  ghost predicate OneLivePerFamily(tokens: seq<Token>) {
    forall i, j :: 0 <= i < j < |tokens| && Live(tokens[i]) && Live(tokens[j]) ==> tokens[i].family != tokens[j].family
  }
}
