/** What holds of refresh tokens over every run of atomic requests. */
module TokenRuns {
  import opened Prelude
  import opened Sequences
  import opened RefreshTokens

  /** A request, with the clock it reads and the fresh values it would draw. */
  datatype Request =
    | Login(user: nat, now: int, newRaw: nat, newFamily: nat)
    | Refresh(raw: nat, now: int, newRaw: nat)
    | LogOut(token: Option<nat>, user: nat, allDevices: bool, now: int)
    | NewPassword(user: nat, reason: Reason, now: int)
    | DeleteSession(user: nat, family: nat, now: int)
    | SetActive(user: nat, active: bool)

  function Apply(db: Db, request: Request, ttl: nat): Db {
    match request
    case Login(user, now, newRaw, newFamily) => IssueStep(db, user, now, newRaw, newFamily, ttl)
    case Refresh(raw, now, newRaw) => RefreshStep(db, raw, now, newRaw, ttl).0
    case LogOut(token, user, allDevices, now) => LogoutStep(db, token, user, allDevices, now)
    case NewPassword(user, reason, now) => RevokeUserStep(db, user, reason, now)
    case DeleteSession(user, family, now) => DeleteSessionStep(db, user, family, now)
    case SetActive(user, active) => db.(users := db.users[user := active])
  }

  /** Random secrets and family ids have not been drawn before. */
  ghost predicate Fresh(db: Db, request: Request) {
    match request
    case Login(_, _, newRaw, newFamily) =>
      forall i :: 0 <= i < |db.tokens| ==> db.tokens[i].raw != newRaw && db.tokens[i].family != newFamily
    case Refresh(_, _, newRaw) => forall i :: 0 <= i < |db.tokens| ==> db.tokens[i].raw != newRaw
    case _ => true
  }

  function Run(db: Db, requests: seq<Request>, ttl: nat): Db {
    if requests == [] then db
    else Apply(Run(db, requests[..|requests| - 1], ttl), requests[|requests| - 1], ttl)
  }

  ghost predicate FreshRun(db: Db, requests: seq<Request>, ttl: nat) {
    forall i :: 0 <= i < |requests| ==> Fresh(Run(db, requests[..i], ttl), requests[i])
  }

  // ---------------------------------------------------------------- the invariant

  /**
    * Token `i` continues its family: a root starts a family nobody had, any other token follows, without a
    * gap, a revoked token of the same family and user.
    */
  ghost predicate Continues(tokens: seq<Token>, i: nat)
    requires i < |tokens|
  {
    match tokens[i].parent
    case None => forall j :: 0 <= j < i ==> tokens[j].family != tokens[i].family
    case Some(p) =>
      && p < i
      && tokens[p].family == tokens[i].family
      && tokens[p].user == tokens[i].user
      && !Live(tokens[p])
      && forall j :: p < j < i ==> tokens[j].family != tokens[i].family
  }

  ghost predicate Last(tokens: seq<Token>, i: nat)
    requires i < |tokens|
  {
    forall j :: i < j < |tokens| ==> tokens[j].family != tokens[i].family
  }

  ghost predicate Inv(tokens: seq<Token>) {
    && (forall i :: 0 <= i < |tokens| ==> Continues(tokens, i))
    && (forall i :: 0 <= i < |tokens| && Live(tokens[i]) ==> Last(tokens, i))
    && (forall i, j :: 0 <= i < j < |tokens| ==> tokens[i].raw != tokens[j].raw)
  }

  /** The same tokens, some of them newly revoked or with another revocation. */
  ghost predicate OnlyRevokes(s: seq<Token>, t: seq<Token>) {
    && |s| == |t|
    && forall i :: 0 <= i < |s| ==> t[i] == s[i].(revoked := t[i].revoked) && (!Live(s[i]) ==> !Live(t[i]))
  }

  lemma RevokingKeepsInv(s: seq<Token>, t: seq<Token>)
    requires Inv(s) && OnlyRevokes(s, t)
    ensures Inv(t)
  {
    forall i | 0 <= i < |t| ensures Continues(t, i) { assert Continues(s, i); }
    forall i | 0 <= i < |t| && Live(t[i]) ensures Last(t, i) { assert Last(s, i); }
  }

  lemma RootKeepsInv(s: seq<Token>, root: Token)
    requires Inv(s) && root.parent.None?
    requires forall i :: 0 <= i < |s| ==> s[i].raw != root.raw && s[i].family != root.family
    ensures Inv(s + [root])
  {
    var t := s + [root];
    forall i | 0 <= i < |t| ensures Continues(t, i) { if i < |s| { assert Continues(s, i); } }
    forall i | 0 <= i < |t| && Live(t[i]) ensures Last(t, i) { if i < |s| { assert Last(s, i); } }
  }

  lemma ChildKeepsInv(s: seq<Token>, p: nat, child: Token)
    requires Inv(s) && p < |s| && Last(s, p) && !Live(s[p])
    requires child.parent == Some(p) && child.family == s[p].family && child.user == s[p].user
    requires forall i :: 0 <= i < |s| ==> s[i].raw != child.raw
    ensures Inv(s + [child])
  {
    var t := s + [child];
    forall i | 0 <= i < |t| ensures Continues(t, i) { if i < |s| { assert Continues(s, i); } }
    forall i | 0 <= i < |t| && Live(t[i]) ensures Last(t, i) {
      if i < |s| {
        assert Last(s, i);
        assert i != p;
      }
    }
  }

  /** What every request may do to the tokens: revoke some, and then at most append one. */
  ghost predicate Grows(s: seq<Token>, t: seq<Token>) {
    |s| <= |t| && OnlyRevokes(s, t[..|s|])
  }

  /** A successful rotation, spelled out. */
  lemma RotationShape(db: Db, raw: nat, now: int, newRaw: nat, ttl: nat)
    requires RefreshStep(db, raw, now, newRaw, ttl).1.Ok?
    ensures
      var i := Find(db.tokens, raw);
      var record := db.tokens[i.value];
      var rotated := db.tokens[i.value := record.(revoked := Some(Revocation(now, Rotated)))];
      && i.Some? && Live(record)
      && OnlyRevokes(db.tokens, rotated)
      && RefreshStep(db, raw, now, newRaw, ttl).0.tokens
           == rotated + [Token(record.user, newRaw, record.family, Some(i.value), now + ttl, None)]
  {
  }

  lemma {:induction false} StepKeepsInv(db: Db, request: Request, ttl: nat)
    requires Inv(db.tokens) && Fresh(db, request)
    ensures Inv(Apply(db, request, ttl).tokens)
    ensures Grows(db.tokens, Apply(db, request, ttl).tokens)
  {
    var next := Apply(db, request, ttl);
    match request
    case Login(user, now, newRaw, newFamily) =>
      RootKeepsInv(db.tokens, Token(user, newRaw, newFamily, None, now + ttl, None));
    case Refresh(raw, now, newRaw) =>
      if RefreshStep(db, raw, now, newRaw, ttl).1.Ok? {
        RotationShape(db, raw, now, newRaw, ttl);
        var i := Find(db.tokens, raw).value;
        var record := db.tokens[i];
        var rotated := db.tokens[i := record.(revoked := Some(Revocation(now, Rotated)))];
        RevokingKeepsInv(db.tokens, rotated);
        assert Last(db.tokens, i);
        ChildKeepsInv(rotated, i, Token(record.user, newRaw, record.family, Some(i), now + ttl, None));
        assert next.tokens[..|db.tokens|] == rotated;
      } else {
        RevokingKeepsInv(db.tokens, next.tokens);
      }
    case LogOut(_, _, _, _) => RevokingKeepsInv(db.tokens, next.tokens);
    case NewPassword(_, _, _) => RevokingKeepsInv(db.tokens, next.tokens);
    case DeleteSession(_, _, _) => RevokingKeepsInv(db.tokens, next.tokens);
    case SetActive(_, _) =>
  }

  lemma GrowsTransitive(s: seq<Token>, t: seq<Token>, u: seq<Token>)
    requires Grows(s, t) && Grows(t, u)
    ensures Grows(s, u)
  {
    forall i | 0 <= i < |s|
      ensures u[i] == s[i].(revoked := u[i].revoked) && (!Live(s[i]) ==> !Live(u[i]))
    {
      assert t[..|s|][i] == t[i] && u[..|t|][i] == u[i];
    }
  }

  /** Over every run: the invariant holds throughout, and a revoked token is never live again. */
  lemma {:induction false} RunsKeepInv(db: Db, requests: seq<Request>, ttl: nat)
    requires Inv(db.tokens) && FreshRun(db, requests, ttl)
    ensures Inv(Run(db, requests, ttl).tokens)
    ensures Grows(db.tokens, Run(db, requests, ttl).tokens)
  {
    if requests != [] {
      var n := |requests| - 1;
      FreshPrefix(db, requests, n, ttl);
      RunsKeepInv(db, requests[..n], ttl);
      var before := Run(db, requests[..n], ttl);
      StepKeepsInv(before, requests[n], ttl);
      GrowsTransitive(db.tokens, before.tokens, Run(db, requests, ttl).tokens);
    }
  }

  // ---------------------------------------------------------------- what the invariant says of a family

  /** A family has one owner. */
  lemma {:induction false} FamilyHasOneOwner(tokens: seq<Token>, i: nat, j: nat)
    requires Inv(tokens) && i < j < |tokens| && tokens[i].family == tokens[j].family
    ensures tokens[i].user == tokens[j].user
    decreases j
  {
    assert Continues(tokens, j);
    var p := tokens[j].parent.value;
    if p > i { FamilyHasOneOwner(tokens, i, p); }
  }

  /** Token `i` is token `j`, its parent, its parent's parent, and so on. */
  ghost predicate Ancestor(tokens: seq<Token>, i: nat, j: nat) {
    || i == j
    || (j < |tokens| && tokens[j].parent.Some? && tokens[j].parent.value < j && Ancestor(tokens, i, tokens[j].parent.value))
  }

  /** A family is a chain: of any two tokens the earlier is an ancestor of the later exactly when they share a family. */
  lemma {:induction false} FamilyIsAChain(tokens: seq<Token>, i: nat, j: nat)
    requires Inv(tokens) && i <= j < |tokens|
    ensures tokens[i].family == tokens[j].family <==> Ancestor(tokens, i, j)
    decreases j
  {
    assert Continues(tokens, j);
    if i < j && tokens[j].parent.Some? {
      var p := tokens[j].parent.value;
      if i <= p { FamilyIsAChain(tokens, i, p); } else { AncestorsComeFirst(tokens, i, p); }
    }
  }

  lemma {:induction false} AncestorsComeFirst(tokens: seq<Token>, i: nat, j: nat)
    ensures Ancestor(tokens, i, j) ==> i <= j
    decreases j
  {
    if i != j && j < |tokens| && tokens[j].parent.Some? && tokens[j].parent.value < j {
      AncestorsComeFirst(tokens, i, tokens[j].parent.value);
    }
  }

  /** The chain does not branch: no two tokens have one parent. */
  lemma NoTwoChildren(tokens: seq<Token>, i: nat, j: nat)
    requires Inv(tokens) && i < j < |tokens| && tokens[i].parent == tokens[j].parent
    ensures tokens[i].parent == None
  {
    assert Continues(tokens, i) && Continues(tokens, j);
  }

  /** At most one member of a family is live, and it is the last. */
  lemma LiveTokenIsTheTail(tokens: seq<Token>)
    requires Inv(tokens)
    ensures OneLivePerFamily(tokens)
    ensures forall i, j :: 0 <= i < |tokens| && 0 <= j < |tokens| && Live(tokens[i]) && tokens[j].family == tokens[i].family ==> j <= i
  {
    forall i | 0 <= i < |tokens| && Live(tokens[i]) ensures Last(tokens, i) { }
  }

  lemma {:induction false} RowsOfDistinctFamilies(tokens: seq<Token>, user: nat)
    requires OneLivePerFamily(tokens)
    ensures FirstPer(Family(), LiveRows(tokens, user)) == LiveRows(tokens, user)
  {
    LiveRowsDistinct(tokens, user);
    AllFirst(Family(), LiveRows(tokens, user));
  }

  lemma {:induction false} LiveRowsDistinct(tokens: seq<Token>, user: nat)
    requires OneLivePerFamily(tokens)
    ensures DistinctKeys(Family(), LiveRows(tokens, user))
    ensures forall row <- LiveRows(tokens, user) :: exists k :: 0 <= k < |tokens| && tokens[k] == row && Live(row)
  {
    if tokens != [] {
      var n := |tokens| - 1;
      LiveRowsDistinct(tokens[..n], user);
      if Live(tokens[n]) {
        forall row | row in LiveRows(tokens[..n], user) ensures row.family != tokens[n].family {
          var k :| 0 <= k < n && tokens[..n][k] == row && Live(row);
          assert Live(tokens[k]);
        }
      }
      forall row | row in LiveRows(tokens, user) ensures exists k :: 0 <= k < |tokens| && tokens[k] == row && Live(row) {
        if row in LiveRows(tokens[..n], user) {
          var k :| 0 <= k < n && tokens[..n][k] == row && Live(row);
          assert tokens[k] == row;
        } else {
          assert tokens[n] == row;
        }
      }
    }
  }

  /** In every reachable state the session list drops no row: its `seen` filter never fires. */
  lemma SessionListDropsNothing(requests: seq<Request>, users: map<nat, bool>, ttl: nat, user: nat)
    requires FreshRun(Db([], users), requests, ttl)
    ensures
      var tokens := Run(Db([], users), requests, ttl).tokens;
      FirstPer(Family(), LiveRows(tokens, user)) == LiveRows(tokens, user)
  {
    RunsKeepInv(Db([], users), requests, ttl);
    var tokens := Run(Db([], users), requests, ttl).tokens;
    LiveTokenIsTheTail(tokens);
    RowsOfDistinctFamilies(tokens, user);
  }

  // ---------------------------------------------------------------- single use, and reuse

  lemma FindsTheOnlyOne(tokens: seq<Token>, raw: nat, i: nat)
    requires Inv(tokens) && i < |tokens| && tokens[i].raw == raw
    ensures Find(tokens, raw) == Some(i)
  {
  }

  /** A revoked token is answered with reuse detected in every later state. */
  lemma RevokedNeverRefreshes(db: Db, i: nat, later: seq<Request>, now: int, newRaw: nat, ttl: nat)
    requires Inv(db.tokens) && i < |db.tokens| && !Live(db.tokens[i])
    requires FreshRun(db, later, ttl)
    ensures RefreshStep(Run(db, later, ttl), db.tokens[i].raw, now, newRaw, ttl).1 == Err(ReuseWasDetected)
  {
    RunsKeepInv(db, later, ttl);
    var reached := Run(db, later, ttl);
    assert reached.tokens[..|db.tokens|][i] == reached.tokens[i];
    FindsTheOnlyOne(reached.tokens, db.tokens[i].raw, i);
  }

  /**
    * A raw token rotates at most once: after a success, presenting it again anywhere later in the run is
    * always answered with reuse detected.
    */
  lemma RotatesAtMostOnce(db: Db, raw: nat, now: int, newRaw: nat, later: seq<Request>, now': int, newRaw': nat, ttl: nat)
    requires Inv(db.tokens)
    requires Fresh(db, Refresh(raw, now, newRaw))
    requires RefreshStep(db, raw, now, newRaw, ttl).1.Ok?
    requires FreshRun(RefreshStep(db, raw, now, newRaw, ttl).0, later, ttl)
    ensures
      var reached := Run(RefreshStep(db, raw, now, newRaw, ttl).0, later, ttl);
      RefreshStep(reached, raw, now', newRaw', ttl).1 == Err(ReuseWasDetected)
  {
    var after := RefreshStep(db, raw, now, newRaw, ttl).0;
    StepKeepsInv(db, Refresh(raw, now, newRaw), ttl);
    RotationShape(db, raw, now, newRaw, ttl);
    RevokedNeverRefreshes(after, Find(db.tokens, raw).value, later, now', newRaw', ttl);
  }

  // ---------------------------------------------------------------- what a refresh asks for

  /** Some token has this secret, is live, lives past `now`, and belongs to an active user. */
  ghost predicate MayRefresh(db: Db, raw: nat, now: int) {
    exists i :: 0 <= i < |db.tokens| && db.tokens[i].raw == raw && db.tokens[i].revoked == None && now < db.tokens[i].expiresAt
      && db.tokens[i].user in db.users && db.users[db.tokens[i].user]
  }

  /**
    * A refresh succeeds if and only if the secret is that of a live, unexpired token of an active user; and it
    * is answered with reuse if and only if the secret is that of a revoked token.
    */
  lemma RefreshOkIff(db: Db, raw: nat, now: int, newRaw: nat, ttl: nat)
    requires Inv(db.tokens)
    ensures RefreshStep(db, raw, now, newRaw, ttl).1.Ok? <==> MayRefresh(db, raw, now)
    ensures RefreshStep(db, raw, now, newRaw, ttl).1 == Err(ReuseWasDetected) <==>
      exists i :: 0 <= i < |db.tokens| && db.tokens[i].raw == raw && db.tokens[i].revoked.Some?
    ensures RefreshStep(db, raw, now, newRaw, ttl).1 == Err(TokenExpired) <==>
      exists i :: 0 <= i < |db.tokens| && db.tokens[i].raw == raw && db.tokens[i].revoked.None? && db.tokens[i].expiresAt <= now
  {
    if i :| 0 <= i < |db.tokens| && db.tokens[i].raw == raw { FindsTheOnlyOne(db.tokens, raw, i); }
  }

  /** A token presented at or after its expiry is refused in every continuation. */
  lemma ExpiredNeverRefreshes(db: Db, i: nat, later: seq<Request>, now: int, newRaw: nat, ttl: nat)
    requires Inv(db.tokens) && FreshRun(db, later, ttl)
    requires i < |db.tokens| && db.tokens[i].expiresAt <= now
    ensures RefreshStep(Run(db, later, ttl), db.tokens[i].raw, now, newRaw, ttl).1.Err?
  {
    RunsKeepInv(db, later, ttl);
    var reached := Run(db, later, ttl);
    assert reached.tokens[..|db.tokens|][i] == reached.tokens[i];
    FindsTheOnlyOne(reached.tokens, db.tokens[i].raw, i);
  }

  /** No refresh of the run is asked for before `start`. */
  ghost predicate RefreshesFrom(requests: seq<Request>, start: int) {
    forall k :: 0 <= k < |requests| && requests[k].Refresh? ==> requests[k].now >= start
  }

  /** The tokens of a family are among the first `n`, and any live one has expired by `start`. */
  ghost predicate RunOut(tokens: seq<Token>, family: nat, n: nat, start: int) {
    && (exists i :: 0 <= i < |tokens| && tokens[i].family == family)
    && forall i :: 0 <= i < |tokens| && tokens[i].family == family ==>
         i < n && (tokens[i].revoked.None? ==> tokens[i].expiresAt <= start)
  }

  lemma StepKeepsRunOut(db: Db, request: Request, ttl: nat, family: nat, n: nat, start: int)
    requires Inv(db.tokens) && Fresh(db, request) && RunOut(db.tokens, family, n, start)
    requires request.Refresh? ==> request.now >= start
    ensures RunOut(Apply(db, request, ttl).tokens, family, n, start)
  {
    var next := Apply(db, request, ttl).tokens;
    StepKeepsInv(db, request, ttl);
    forall i | 0 <= i < |db.tokens|
      ensures next[i] == db.tokens[i].(revoked := next[i].revoked) && (!Live(db.tokens[i]) ==> !Live(next[i]))
    {
      assert next[..|db.tokens|][i] == next[i];
    }
    var k :| 0 <= k < |db.tokens| && db.tokens[k].family == family;
    assert next[k].family == family;
    if request.Refresh? && RefreshStep(db, request.raw, request.now, request.newRaw, ttl).1.Ok? {
      RotationShape(db, request.raw, request.now, request.newRaw, ttl);
      RefreshOkIff(db, request.raw, request.now, request.newRaw, ttl);
    }
  }

  /** A family whose live token has expired gets no further token from any run after the expiry. */
  lemma {:induction false} ExpiredFamilyStopsGrowing(db: Db, requests: seq<Request>, ttl: nat, family: nat, n: nat, start: int)
    requires Inv(db.tokens) && FreshRun(db, requests, ttl) && RefreshesFrom(requests, start)
    requires RunOut(db.tokens, family, n, start)
    ensures RunOut(Run(db, requests, ttl).tokens, family, n, start)
  {
    if requests != [] {
      hide RunOut, Apply, Inv, Fresh;
      var m := |requests| - 1;
      FreshPrefix(db, requests, m, ttl);
      ExpiredFamilyStopsGrowing(db, requests[..m], ttl, family, n, start);
      RunsKeepInv(db, requests[..m], ttl);
      assert requests[..m] + [requests[m]] == requests;
      assert Fresh(Run(db, requests[..m], ttl), requests[m]);
      StepKeepsRunOut(Run(db, requests[..m], ttl), requests[m], ttl, family, n, start);
    }
  }

  // ---------------------------------------------------------------- reuse kills a family

  /** A family that exists and has no live member. */
  ghost predicate Dead(tokens: seq<Token>, family: nat) {
    && (exists i :: 0 <= i < |tokens| && tokens[i].family == family)
    && (forall i :: 0 <= i < |tokens| && tokens[i].family == family ==> !Live(tokens[i]))
  }

  /** A dead family stays dead: it could only grow by rotating a live member. */
  lemma StepKeepsDead(db: Db, request: Request, ttl: nat, family: nat)
    requires Inv(db.tokens) && Fresh(db, request) && Dead(db.tokens, family)
    ensures Dead(Apply(db, request, ttl).tokens, family)
  {
    var next := Apply(db, request, ttl).tokens;
    StepKeepsInv(db, request, ttl);
    forall i | 0 <= i < |db.tokens|
      ensures next[i].family == db.tokens[i].family && (!Live(db.tokens[i]) ==> !Live(next[i]))
    {
      assert next[..|db.tokens|][i] == next[i];
    }
    var k :| 0 <= k < |db.tokens| && db.tokens[k].family == family;
    assert next[k].family == family;
    if request.Refresh? && RefreshStep(db, request.raw, request.now, request.newRaw, ttl).1.Ok? {
      RotationShape(db, request.raw, request.now, request.newRaw, ttl);
    }
  }

  lemma {:induction false} RunsKeepDead(db: Db, requests: seq<Request>, ttl: nat, family: nat)
    requires Inv(db.tokens) && FreshRun(db, requests, ttl) && Dead(db.tokens, family)
    ensures Dead(Run(db, requests, ttl).tokens, family)
  {
    if requests != [] {
      var n := |requests| - 1;
      FreshPrefix(db, requests, n, ttl);
      RunsKeepDead(db, requests[..n], ttl, family);
      RunsKeepInv(db, requests[..n], ttl);
      StepKeepsDead(Run(db, requests[..n], ttl), requests[n], ttl, family);
    }
  }

  lemma FreshPrefix(db: Db, requests: seq<Request>, n: nat, ttl: nat)
    requires FreshRun(db, requests, ttl) && n <= |requests|
    ensures FreshRun(db, requests[..n], ttl)
  {
    forall i | 0 <= i < n ensures Fresh(Run(db, requests[..n][..i], ttl), requests[..n][i]) {
      assert requests[..n][..i] == requests[..i];
    }
  }

  /**
    * Presenting a revoked token kills its family for good: no state of any continuation has a live token
    * of that family.
    */
  lemma ReuseKillsTheFamily(db: Db, raw: nat, now: int, newRaw: nat, later: seq<Request>, ttl: nat)
    requires Inv(db.tokens)
    requires Find(db.tokens, raw).Some? && !Live(db.tokens[Find(db.tokens, raw).value])
    requires FreshRun(RefreshStep(db, raw, now, newRaw, ttl).0, later, ttl)
    ensures
      var family := db.tokens[Find(db.tokens, raw).value].family;
      && RefreshStep(db, raw, now, newRaw, ttl).1 == Err(ReuseWasDetected)
      && Dead(Run(RefreshStep(db, raw, now, newRaw, ttl).0, later, ttl).tokens, family)
  {
    var i := Find(db.tokens, raw).value;
    var after := RefreshStep(db, raw, now, newRaw, ttl).0;
    RevokingKeepsInv(db.tokens, after.tokens);
    assert after.tokens[i].family == db.tokens[i].family;
    RunsKeepDead(after, later, ttl, db.tokens[i].family);
  }

  /** A refresh that fails for any reason but reuse leaves the committed state as it was. */
  lemma OtherFailuresChangeNothing(db: Db, raw: nat, now: int, newRaw: nat, ttl: nat)
    ensures
      var (next, result) := RefreshStep(db, raw, now, newRaw, ttl);
      result.Err? && result.error != ReuseWasDetected ==> next == db
  {
  }

  /** A user whose password changed, or who logged out everywhere, can refresh nothing issued before. */
  lemma NewPasswordLocksOut(db: Db, user: nat, reason: Reason, now: int, later: seq<Request>, ttl: nat,
                            i: nat, now': int, newRaw': nat)
    requires Inv(db.tokens) && i < |db.tokens| && db.tokens[i].user == user
    requires FreshRun(RevokeUserStep(db, user, reason, now), later, ttl)
    ensures
      var reached := Run(RevokeUserStep(db, user, reason, now), later, ttl);
      RefreshStep(reached, db.tokens[i].raw, now', newRaw', ttl).1 == Err(ReuseWasDetected)
  {
    var after := RevokeUserStep(db, user, reason, now);
    RevokingKeepsInv(db.tokens, after.tokens);
    RevokedNeverRefreshes(after, i, later, now', newRaw', ttl);
  }

  /** Logging out everywhere does the same, whatever token is presented with it. */
  lemma LogoutEverywhereLocksOut(db: Db, user: nat, token: Option<nat>, now: int, later: seq<Request>, ttl: nat,
                                 i: nat, now': int, newRaw': nat)
    requires Inv(db.tokens) && i < |db.tokens| && db.tokens[i].user == user
    requires FreshRun(LogoutStep(db, token, user, true, now), later, ttl)
    ensures
      var reached := Run(LogoutStep(db, token, user, true, now), later, ttl);
      RefreshStep(reached, db.tokens[i].raw, now', newRaw', ttl).1 == Err(ReuseWasDetected)
  {
    var after := LogoutStep(db, token, user, true, now);
    RevokingKeepsInv(db.tokens, after.tokens);
    RevokedNeverRefreshes(after, i, later, now', newRaw', ttl);
  }

  // ---------------------------------------------------------------- the list of sessions

  ghost predicate LiveOf(tokens: seq<Token>, user: nat, i: int) {
    0 <= i < |tokens| && tokens[i].user == user && tokens[i].revoked.None?
  }

  /** The `k`th listed session is the live token at place `places[k]`, and the places fall. */
  ghost predicate ListsAt(tokens: seq<Token>, user: nat, rows: seq<Token>, places: seq<nat>) {
    && |places| == |rows|
    && (forall k :: 0 <= k < |rows| ==> LiveOf(tokens, user, places[k]) && rows[k] == tokens[places[k]])
    && (forall k, l :: 0 <= k < l < |rows| ==> places[k] > places[l])
    && (forall i :: LiveOf(tokens, user, i) ==> exists k :: 0 <= k < |places| && places[k] == i)
  }

  lemma LastNotListed(tokens: seq<Token>, user: nat, rows: seq<Token>, places: seq<nat>)
    requires tokens != [] && ListsAt(tokens[..|tokens| - 1], user, rows, places)
    requires !LiveOf(tokens, user, |tokens| - 1)
    ensures ListsAt(tokens, user, rows, places)
  {
    var before := tokens[..|tokens| - 1];
    forall i | LiveOf(tokens, user, i) ensures LiveOf(before, user, i) { }
    forall k | 0 <= k < |rows| ensures LiveOf(tokens, user, places[k]) && rows[k] == tokens[places[k]] {
      assert LiveOf(before, user, places[k]);
    }
  }

  lemma LastListedFirst(tokens: seq<Token>, user: nat, rows: seq<Token>, places: seq<nat>)
    requires tokens != [] && ListsAt(tokens[..|tokens| - 1], user, rows, places)
    requires LiveOf(tokens, user, |tokens| - 1)
    ensures ListsAt(tokens, user, [tokens[|tokens| - 1]] + rows, [|tokens| - 1] + places)
  {
    var n := |tokens| - 1;
    var all, at := [tokens[n]] + rows, [n] + places;
    forall k | 0 <= k < |all| ensures LiveOf(tokens, user, at[k]) && all[k] == tokens[at[k]] && (k > 0 ==> at[k] < n) {
      if k > 0 { assert LiveOf(tokens[..n], user, places[k - 1]); }
    }
    forall i | LiveOf(tokens, user, i) ensures exists k :: 0 <= k < |at| && at[k] == i {
      if i < n {
        assert LiveOf(tokens[..n], user, i);
        var k :| 0 <= k < |places| && places[k] == i;
        assert at[k + 1] == i;
      } else {
        assert at[0] == i;
      }
    }
  }

  lemma {:induction false} LiveRowsFall(tokens: seq<Token>, user: nat) returns (places: seq<nat>)
    ensures ListsAt(tokens, user, LiveRows(tokens, user), places)
  {
    if tokens == [] {
      places := [];
    } else {
      hide ListsAt;
      var n := |tokens| - 1;
      places := LiveRowsFall(tokens[..n], user);
      if LiveOf(tokens, user, n) {
        LastListedFirst(tokens, user, LiveRows(tokens[..n], user), places);
        places := [n] + places;
      } else {
        LastNotListed(tokens, user, LiveRows(tokens[..n], user), places);
        assert [] + LiveRows(tokens[..n], user) == LiveRows(tokens[..n], user);
      }
    }
  }

  /** In every reachable state the session list is the user's live tokens, each once, newest first. */
  lemma SessionsAreTheLiveTokens(requests: seq<Request>, users: map<nat, bool>, ttl: nat, user: nat)
    requires FreshRun(Db([], users), requests, ttl)
    ensures
      var tokens := Run(Db([], users), requests, ttl).tokens;
      exists places :: ListsAt(tokens, user, FirstPer(Family(), LiveRows(tokens, user)), places)
  {
    SessionListDropsNothing(requests, users, ttl, user);
    var tokens := Run(Db([], users), requests, ttl).tokens;
    var places := LiveRowsFall(tokens, user);
  }

  // ---------------------------------------------------------------- ending a session, and what requests leave alone

  /** Deleting a session ends its family for good. */
  lemma DeletedSessionStaysEnded(db: Db, user: nat, family: nat, now: int, i: nat, later: seq<Request>, ttl: nat)
    requires Inv(db.tokens) && i < |db.tokens| && db.tokens[i].family == family && db.tokens[i].user == user
    requires FreshRun(DeleteSessionStep(db, user, family, now), later, ttl)
    ensures Dead(Run(DeleteSessionStep(db, user, family, now), later, ttl).tokens, family)
  {
    var after := DeleteSessionStep(db, user, family, now);
    RevokingKeepsInv(db.tokens, after.tokens);
    forall j | 0 <= j < |db.tokens| && db.tokens[j].family == family ensures !Live(after.tokens[j]) {
      if i < j { FamilyHasOneOwner(db.tokens, i, j); } else if j < i { FamilyHasOneOwner(db.tokens, j, i); }
    }
    assert after.tokens[i].family == family;
    RunsKeepDead(after, later, ttl, family);
  }

  /**
    * Logging out with one token ends its family exactly when the token is the live one, or the family had
    * ended before: with a token already rotated, the family's live token stays in use.
    */
  lemma LogoutEndsFamilyIff(db: Db, i: nat, now: int)
    requires Inv(db.tokens) && i < |db.tokens|
    ensures
      var after := LogoutStep(db, Some(db.tokens[i].raw), db.tokens[i].user, false, now);
      Dead(after.tokens, db.tokens[i].family) <==> Live(db.tokens[i]) || Dead(db.tokens, db.tokens[i].family)
  {
    FindsTheOnlyOne(db.tokens, db.tokens[i].raw, i);
    var after := LogoutStep(db, Some(db.tokens[i].raw), db.tokens[i].user, false, now);
    var family := db.tokens[i].family;
    assert after.tokens[i].family == family && !Live(after.tokens[i]);
    forall j | 0 <= j < |db.tokens| && j != i ensures after.tokens[j] == db.tokens[j] { }
    if Live(db.tokens[i]) {
      forall j | 0 <= j < |db.tokens| && j != i && db.tokens[j].family == family ensures !Live(db.tokens[j]) {
        LiveTokenIsTheTail(db.tokens);
      }
    }
  }

  /** Login, refresh, then logout with the token of the login. */
  const LATE_LOGOUT := [Login(0, 0, 1, 1), Refresh(1, 1, 2), LogOut(Some(1), 0, false, 2)]

  /** The store after the first two requests, and after the third. */
  lemma LateLogoutStates(ttl: nat)
    requires ttl > 1
    ensures
      var start, login := Db([], map[0 := true]), Token(0, 1, 1, None, ttl, None);
      var rotated, child := login.(revoked := Some(Revocation(1, Rotated))), Token(0, 2, 1, Some(0), 1 + ttl, None);
      && Run(start, LATE_LOGOUT[..0], ttl) == start
      && Run(start, LATE_LOGOUT[..1], ttl) == start.(tokens := [login])
      && Run(start, LATE_LOGOUT[..2], ttl) == start.(tokens := [rotated, child])
      && Run(start, LATE_LOGOUT, ttl)
           == start.(tokens := [rotated.(revoked := Some(Revocation(2, Logout))), child])
  {
    var start, login := Db([], map[0 := true]), Token(0, 1, 1, None, ttl, None);
    var rotated, child := login.(revoked := Some(Revocation(1, Rotated))), Token(0, 2, 1, Some(0), 1 + ttl, None);
    assert LATE_LOGOUT[..0] == [];
    assert LATE_LOGOUT[..1][..0] == [] && Run(start, LATE_LOGOUT[..1], ttl) == start.(tokens := [login]);
    assert LATE_LOGOUT[..2][..1] == LATE_LOGOUT[..1];
    assert Find([login], 1) == Some(0);
    assert Run(start, LATE_LOGOUT[..2], ttl) == start.(tokens := [rotated, child]);
    assert LATE_LOGOUT[..3] == LATE_LOGOUT && LATE_LOGOUT[..3][..2] == LATE_LOGOUT[..2];
    assert Find([rotated, child], 1) == Some(0);
  }

  /** That user is still logged in: the token of the refresh stays live and refreshes again. */
  lemma LateLogoutLeavesSession(ttl: nat, now: int)
    requires ttl > 1 && now < 1 + ttl
    ensures
      var db := Run(Db([], map[0 := true]), LATE_LOGOUT, ttl);
      && FreshRun(Db([], map[0 := true]), LATE_LOGOUT, ttl)
      && |db.tokens| == 2 && db.tokens[0].family == db.tokens[1].family && Live(db.tokens[1])
      && RefreshStep(db, 2, now, 3, ttl).1 == Ok(3)
  {
    LateLogoutStates(ttl);
    var db := Run(Db([], map[0 := true]), LATE_LOGOUT, ttl);
    hide Run;
    assert Find(db.tokens, 2) == Some(1);
  }

  /** Whose tokens a request may change. */
  ghost predicate Concerns(db: Db, request: Request, token: Token) {
    match request
    case Login(_, _, _, _) => false
    case Refresh(raw, _, _) =>
      Find(db.tokens, raw).Some? && db.tokens[Find(db.tokens, raw).value].family == token.family
    case LogOut(_, user, _, _) => token.user == user
    case NewPassword(user, _, _) => token.user == user
    case DeleteSession(user, family, _) => token.user == user && token.family == family
    case SetActive(_, _) => false
  }

  /** A refresh touches one family only, and no other request touches another user's tokens. */
  lemma OthersAreUntouched(db: Db, request: Request, ttl: nat, i: nat)
    requires i < |db.tokens| && !Concerns(db, request, db.tokens[i])
    ensures i < |Apply(db, request, ttl).tokens| && Apply(db, request, ttl).tokens[i] == db.tokens[i]
  {
  }
}
