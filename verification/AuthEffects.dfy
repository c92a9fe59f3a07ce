/**
 What each account request does for its caller: who is let in, for how long what it hands out lives,
 and what a password, a second factor or a revocation changes.
 */
module AuthEffects {
  import opened Wrappers
  import opened Auth
  import opened AuthSafety

  function After(s: State, ms: nat): State {
    Step(s, OpWait(ms)).0
  }

  /** Whole seconds that tick while the clock moves from `from` to `to`. */
  function Seconds(from: nat, to: nat): int {
    to / 1000 - from / 1000
  }

  // ---------------------------------------------------------------- login

  /** May sign in at all: the account exists, is not deleted, banned, suspended or locked. */
  predicate Welcome(s: State, u: Uid) {
    && u in s.users && !s.users[u].deleted && !s.users[u].banned
    && (s.users[u].suspendedUntil.Some? ==> s.users[u].suspendedUntil.value <= s.clock)
    && (s.users[u].lockedUntil.Some? ==> s.users[u].lockedUntil.value <= s.clock)
  }

  /** A lock that is over starts the count again. */
  function FailuresSoFar(usr: User): nat {
    if usr.lockedUntil.Some? then 0 else usr.failedLoginAttempts
  }

  /** The password in force is `p`: it opens a session or, under a second factor, a challenge; every
      other password is refused and counted. */
  ghost predicate PasswordIs(s: State, u: Uid, p: string)
    requires u in s.users
  {
    forall q ::
      var (s', r) := Step(s, OpLogin(u, q));
      if q == p then
        if s.users[u].twoFactorEnabled then r.Challenged? else r.Granted? && r.access.uid == u
      else r == Refused && u in s'.users && s'.users[u].failedLoginAttempts == 1 + FailuresSoFar(s.users[u])
  }

  /** A login by password succeeds exactly for a welcome user with the stored password. */
  lemma LoginVerdict(s: State, u: Uid, p: string)
    ensures var (s', r) := Step(s, OpLogin(u, p));
      && (r.Granted? <==> Welcome(s, u) && s.users[u].password == Some(p) && !s.users[u].twoFactorEnabled)
      && (r.Challenged? <==> Welcome(s, u) && s.users[u].password == Some(p) && s.users[u].twoFactorEnabled)
      && (r.Granted? || r.Challenged? || r == Refused)
      && (r.Granted? ==> r.access.uid == u && s'.users[u].failedLoginAttempts == 0 && s'.users[u].lockedUntil == None)
      && (r == Refused ==> s'.tokens == s.tokens && s'.challenges == s.challenges && s'.issued == s.issued)
  {
  }

  /** The rows differ at most in the two lockout columns. */
  predicate OnlyLock(a: User, b: User) {
    b == a.(failedLoginAttempts := b.failedLoginAttempts, lockedUntil := b.lockedUntil)
  }

  lemma LockSteps(usr: User, now: nat)
    ensures OnlyLock(usr, ExpireLock(usr, now)) && OnlyLock(usr, ClearLock(ExpireLock(usr, now)))
    ensures OnlyLock(usr, CountFailure(ExpireLock(usr, now), now))
  {
  }

  /** Of the users table a login touches nothing but that user's two lockout columns. */
  lemma LoginTouches(s: State, u: Uid, p: string)
    ensures var users' := Step(s, OpLogin(u, p)).0.users;
      && (u !in s.users ==> users' == s.users)
      && (u in s.users ==> u in users' && users' == s.users[u := users'[u]] && OnlyLock(s.users[u], users'[u]))
  {
    if Live(s, u) {
      LockSteps(s.users[u], s.clock);
    } else if u in s.users {
      assert s.users[u := s.users[u]] == s.users;
    }
  }

  lemma StoredPasswordIs(s: State, u: Uid, p: string)
    requires Welcome(s, u) && s.users[u].password == Some(p)
    ensures PasswordIs(s, u, p)
  {
    forall q
      ensures var (s', r) := Step(s, OpLogin(u, q));
        if q == p then
          if s.users[u].twoFactorEnabled then r.Challenged? else r.Granted? && r.access.uid == u
        else r == Refused && u in s'.users && s'.users[u].failedLoginAttempts == 1 + FailuresSoFar(s.users[u])
    {
      LoginVerdict(s, u, q);
    }
  }

  /** Google sign-in: no password and no lockout, but the second factor stands. */
  lemma GoogleVerdict(s: State, u: Uid)
    ensures var (s', r) := Step(s, OpGoogleLogin(u));
      var open := Live(s, u) && !s.users[u].banned && (s.users[u].suspendedUntil.Some? ==> s.users[u].suspendedUntil.value <= s.clock);
      && (r.Granted? <==> open && !s.users[u].twoFactorEnabled)
      && (r.Challenged? <==> open && s.users[u].twoFactorEnabled)
      && (r.Granted? ==> r.access.uid == u)
      && (!open ==> s' == s)
  {
  }

  /** A new account signs in with the password it was created with, without a second factor. */
  lemma RegisteredPassword(s: State, p: string)
    ensures var (s', r) := Step(s, OpRegister(Some(p)));
      && r.Granted? && r.access.uid == s.nextUser && PasswordIs(s', s.nextUser, p)
      && !s'.users[s.nextUser].twoFactorEnabled && s'.users[s.nextUser].backupCodes == [] && s'.users[s.nextUser].resetToken == None
  {
    StoredPasswordIs(Step(s, OpRegister(Some(p))).0, s.nextUser, p);
  }

  // ---------------------------------------------------------------- passwords

  /** The new password is stored, and what decides about signing in is otherwise as before. */
  predicate SameButPassword(a: User, b: User, password: string) {
    && b.password == Some(password) && b.failedLoginAttempts == a.failedLoginAttempts && b.lockedUntil == a.lockedUntil
    && b.banned == a.banned && b.suspendedUntil == a.suspendedUntil && b.deleted == a.deleted
    && b.twoFactorEnabled == a.twoFactorEnabled && b.twoFactorSecret == a.twoFactorSecret
    && b.backupCodes == a.backupCodes && b.lastTotpTimeStep == a.lastTotpTimeStep
  }

  /** A reset succeeds exactly with the current, unexpired token of a live user. After it the new
      password is in force for a welcome user and the token is spent. */
  lemma ResetLaw(s: State, u: Uid, token: string, newPassword: string)
    ensures var (s', r) := Step(s, OpResetPassword(u, token, newPassword));
      && (r == Done <==>
            (&& Live(s, u) && s.users[u].resetToken == Some(token)
             && s.users[u].resetExpires.Some? && s.clock <= s.users[u].resetExpires.value))
      && (r == Done || r == Refused)
      && (r == Done ==> u in s'.users && SameButPassword(s.users[u], s'.users[u], newPassword))
      && (r == Done && Welcome(s, u) ==> PasswordIs(s', u, newPassword))
      && (r == Done ==> forall again :: Step(s', OpResetPassword(u, token, again)).1 == Refused)
      && (r == Refused && u in s.users ==> u in s'.users && s'.users[u].password == s.users[u].password && s'.tokens == s.tokens)
  {
    var (s', r) := Step(s, OpResetPassword(u, token, newPassword));
    if r == Done && Welcome(s, u) {
      StoredPasswordIs(s', u, newPassword);
    }
  }

  /** A reset token works for one hour. */
  lemma ResetTokenLives(s: State, u: Uid, token: string, newPassword: string, ms: nat)
    requires Live(s, u)
    ensures Step(After(Step(s, OpForgotPassword(u, token)).0, ms), OpResetPassword(u, token, newPassword)).1 == Done <==> ms <= 3600000
  {
  }

  /** A change of password needs the password in force and a different one, which is then in force. */
  lemma ChangeLaw(s: State, u: Uid, currentPassword: string, newPassword: string)
    ensures var (s', r) := Step(s, OpChangePassword(u, currentPassword, newPassword));
      && (r == Done <==> Live(s, u) && s.users[u].password == Some(currentPassword) && newPassword != currentPassword)
      && (r == Done ==> u in s'.users && SameButPassword(s.users[u], s'.users[u], newPassword))
      && (r == Done && Welcome(s, u) ==> PasswordIs(s', u, newPassword))
      && (r != Done ==> r == Refused && s' == s)
  {
    var (s', r) := Step(s, OpChangePassword(u, currentPassword, newPassword));
    if r == Done && Welcome(s, u) {
      StoredPasswordIs(s', u, newPassword);
    }
  }

  /** A lock lasts fifteen minutes, for the right password too. */
  lemma LockLasts(s: State, u: Uid, p: string, wrong: string, ms: nat)
    requires Welcome(s, u) && s.users[u].lockedUntil == None && s.users[u].failedLoginAttempts == 4
    requires s.users[u].password == Some(p) && wrong != p
    ensures Step(After(Step(s, OpLogin(u, wrong)).0, ms), OpLogin(u, p)).1 != Refused <==> ms >= 900000
  {
    var s1 := Step(s, OpLogin(u, wrong)).0;
    assert s1 == WithUser(s, u, CountFailure(s.users[u], s.clock));
    assert s1.users[u].lockedUntil == Some(s.clock + 900000);
    LoginVerdict(After(s1, ms), u, p);
  }

  // ---------------------------------------------------------------- what is granted, to whom, for how long

  /** Every grant is an Issue to a live user at the version in force. */
  ghost predicate IsIssue(s: State, s0: State, u: Uid, after: (State, Reply)) {
    && Live(s0, u) && after == Issue(s0, u, s0.users[u].tokenVersion) && s0.nextToken == s.nextToken
    && s0.clock == s.clock && s0.refreshTtl == s.refreshTtl && s0.accessTtl == s.accessTtl
  }

  /** The user a granted request belongs to. */
  function Grantee(s: State, op: Op): Uid {
    match op
    case OpRegister(_) => s.nextUser
    case OpLogin(u, _) => u
    case OpGoogleLogin(u) => u
    case OpRefresh(j) => if j in s.tokens then s.tokens[j].userId else 0
    case OpVerifyChallenge(c, _, _) => if c in s.challenges then s.challenges[c].userId else 0
    case _ => 0
  }

  lemma SignInIssues(s: State, op: Op) returns (s0: State)
    requires (op.OpRegister? || op.OpLogin? || op.OpGoogleLogin?) && Step(s, op).1.Granted?
    ensures IsIssue(s, s0, Grantee(s, op), Step(s, op))
  {
    match op
    case OpRegister(p) => s0 := WithUser(s, s.nextUser, FRESH.(password := p)).(nextUser := s.nextUser + 1);
    case OpLogin(u, _) => s0 := WithUser(s, u, ClearLock(ExpireLock(s.users[u], s.clock)));
    case OpGoogleLogin(_) => s0 := s;
  }

  lemma RefreshIssues(s: State, j: nat) returns (s0: State)
    requires Step(s, OpRefresh(j)).1.Granted?
    ensures j in s.tokens && IsIssue(s, s0, s.tokens[j].userId, Step(s, OpRefresh(j)))
  {
    s0 := RevokeOne(s, j);
  }

  lemma VerifyIssues(s: State, ch: nat, code: string, m: Option<nat>) returns (s0: State)
    requires Step(s, OpVerifyChallenge(ch, code, m)).1.Granted?
    ensures ch in s.challenges && IsIssue(s, s0, s.challenges[ch].userId, Step(s, OpVerifyChallenge(ch, code, m)))
  {
    var c := s.challenges[ch];
    var usr := s.users[c.userId];
    s0 := WithUser(WithChallenge(s, ch, c.(used := true)), c.userId, Consume(usr, TotpStep(usr, m), code));
  }

  lemma OnlySignInsGrant(s: State, op: Op)
    ensures Step(s, op).1.Granted? ==>
      op.OpRegister? || op.OpLogin? || op.OpGoogleLogin? || op.OpRefresh? || op.OpVerifyChallenge?
  {
  }

  lemma GrantIsIssue(s: State, op: Op) returns (s0: State)
    requires Step(s, op).1.Granted?
    ensures IsIssue(s, s0, Grantee(s, op), Step(s, op))
  {
    OnlySignInsGrant(s, op);
    match op
    case OpRefresh(j) => s0 := RefreshIssues(s, j);
    case OpVerifyChallenge(c, code, m) => s0 := VerifyIssues(s, c, code, m);
    case _ => s0 := SignInIssues(s, op);
  }

  /** Not barred now: neither banned nor suspended beyond this moment. */
  predicate Free(s: State, u: Uid)
    requires u in s.users
  {
    !s.users[u].banned && (s.users[u].suspendedUntil.Some? ==> s.users[u].suspendedUntil.value <= s.clock)
  }

  lemma IssueLives(s0: State, u: Uid, ms: nat)
    requires Live(s0, u)
    ensures var (s1, r) := Issue(s0, u, s0.users[u].tokenVersion);
      var later := After(s1, ms);
      && r.Granted? && r.access.uid == u && u in s1.users && r.jti == s0.nextToken
      && s1.tokens == s0.tokens[r.jti := RefreshRow(u, false, s0.clock + 1000 * s0.refreshTtl, s0.clock)]
      && (Step(later, OpRefresh(r.jti)).1.Granted? <==> Seconds(s0.clock, s0.clock + ms) < s0.refreshTtl && Free(later, u))
      && (Authenticate(later, r.access) <==> Seconds(s0.clock, s0.clock + ms) < s0.accessTtl && Free(later, u))
  {
    var (s1, r) := Issue(s0, u, s0.users[u].tokenVersion);
    var later := After(s1, ms);
    if Verifies(later, r.jti) {
      assert later.clock < (s0.clock / 1000 + s0.refreshTtl) * 1000 <= s0.clock + s0.refreshTtl * 1000;
    }
  }

  /** What a sign-in or refresh hands out belongs to its user and, left alone, lives exactly as long as
      configured: the refresh token can be exchanged, and the access token passes authenticate, while
      fewer seconds have passed than its lifetime, unless the user is barred at that moment. */
  lemma GrantsLive(s: State, op: Op, ms: nat)
    requires Step(s, op).1.Granted?
    ensures var (s1, r) := Step(s, op);
      var u, later := Grantee(s, op), After(s1, ms);
      && r.access.uid == u && u in later.users && r.jti == s.nextToken
      && r.jti in s1.tokens && s1.tokens[r.jti] == RefreshRow(u, false, s.clock + 1000 * s.refreshTtl, s.clock)
      && (Step(later, OpRefresh(r.jti)).1.Granted? <==> Seconds(s.clock, s.clock + ms) < s.refreshTtl && Free(later, u))
      && (Authenticate(later, r.access) <==> Seconds(s.clock, s.clock + ms) < s.accessTtl && Free(later, u))
  {
    var s0 := GrantIsIssue(s, op);
    IssueLives(s0, Grantee(s, op), ms);
  }

  /** A refresh succeeds exactly with a verifying JWT whose row is there, neither revoked nor expired, and
      whose user is live and not barred. An expired row is revoked on sight; apart from that and from
      reuse, a refused refresh changes nothing. */
  lemma RefreshVerdict(s: State, j: nat)
    ensures var (s', r) := Step(s, OpRefresh(j));
      var verifies := j in s.jwts && s.clock / 1000 < s.jwts[j].exp && j in s.tokens && s.tokens[j].userId in s.users;
      && (r.Granted? <==>
            (&& verifies && !s.tokens[j].revoked && s.clock <= s.tokens[j].expiresAt
             && !s.users[s.tokens[j].userId].deleted && Free(s, s.tokens[j].userId)))
      && (r.Granted? || r == Refused)
      && (verifies && !s.tokens[j].revoked && s.clock > s.tokens[j].expiresAt ==>
            s' == s.(tokens := s.tokens[j := s.tokens[j].(revoked := true, updatedAt := s.clock)]))
      && (r == Refused && s' != s ==> verifies && (s.tokens[j].revoked || s.clock > s.tokens[j].expiresAt))
  {
  }

  /** In a reachable state a JWT expires before its row, so the row's expiry does not matter. */
  lemma ActiveRefreshVerdict(s: State, j: nat)
    requires Sound(s)
    ensures Step(s, OpRefresh(j)).1.Granted? <==>
      (&& j in s.tokens && j in Active(s, s.tokens[j].userId) && s.clock / 1000 < s.jwts[j].exp
       && Live(s, s.tokens[j].userId) && Free(s, s.tokens[j].userId))
  {
    RefreshVerdict(s, j);
  }

  /** The code proves the second factor of the user: a fresh time step, or a backup code. */
  predicate RightCode(usr: User, code: string, matches: Option<nat>) {
    || (usr.twoFactorSecret.Some? && matches.Some? && (usr.lastTotpTimeStep.Some? ==> matches.value > usr.lastTotpTimeStep.value))
    || code in usr.backupCodes
  }

  /** The challenge waits for its user. */
  predicate Pending(s: State, ch: nat) {
    && ch in s.challenges && !s.challenges[ch].used && s.challenges[ch].attempts < 5 && s.clock <= s.challenges[ch].expiresAt
    && Live(s, s.challenges[ch].userId) && Free(s, s.challenges[ch].userId)
  }

  /** A challenge is passed exactly by a right code while it is pending; a wrong one then costs an
      attempt; passing clears the failed logins and uses the challenge up. */
  lemma VerifyVerdict(s: State, ch: nat, code: string, matches: Option<nat>)
    ensures var (s', r) := Step(s, OpVerifyChallenge(ch, code, matches));
      && (r.Granted? <==> Pending(s, ch) && RightCode(s.users[s.challenges[ch].userId], code, matches))
      && (r == WrongCode <==> Pending(s, ch) && !RightCode(s.users[s.challenges[ch].userId], code, matches))
      && (r == WrongCode ==> s' == s.(challenges := s.challenges[ch := s.challenges[ch].(attempts := s.challenges[ch].attempts + 1)]))
      && (r.Granted? ==> ch in s'.challenges && s'.challenges[ch].used && r.access.uid == s.challenges[ch].userId)
      && (r.Granted? ==> r.access.uid in s'.users && s'.users[r.access.uid].failedLoginAttempts == 0)
      && (r.Granted? ==> s'.users[r.access.uid].lockedUntil == None)
  {
  }

  /** A deleted, banned or suspended user gets in by no request, and none of its access tokens passes. */
  lemma BarredIsOut(s: State, op: Op, u: Uid, a: Access)
    requires Sound(s) && u in s.users && (s.users[u].deleted || !Free(s, u))
    ensures !(Step(s, op).1.Granted? && Grantee(s, op) == u)
    ensures a.uid == u ==> !Authenticate(s, a)
  {
    OnlySignInsGrant(s, op);
    match op
    case OpLogin(v, p) => LoginVerdict(s, v, p);
    case OpGoogleLogin(v) => GoogleVerdict(s, v);
    case OpRefresh(j) => RefreshVerdict(s, j);
    case OpVerifyChallenge(c, code, m) => VerifyVerdict(s, c, code, m);
    case _ =>
  }

  /** An administrator's ban, suspension or soft delete sets exactly those three columns. */
  lemma ModerationSays(s: State, u: Uid, banned: bool, suspendedUntil: Option<nat>, deleted: bool)
    requires u in s.users
    ensures var s' := Step(s, OpModerate(u, banned, suspendedUntil, deleted)).0;
      && s' == s.(users := s'.users) && s'.users.Keys == s.users.Keys
      && s'.users[u] == s.users[u].(banned := banned, suspendedUntil := suspendedUntil, deleted := deleted)
      && (forall v :: v in s.users && v != u ==> s'.users[v] == s.users[v])
  {
  }

  // ---------------------------------------------------------------- the second factor

  /** Setting up stores the secret; enabling needs a stored secret and a valid code; disabling needs the
      password. Each otherwise changes nothing. */
  lemma SecondFactorVerdicts(s: State, u: Uid, secret: string, valid: bool, codes: seq<string>, password: string)
    ensures Step(s, OpSetup(u, secret)).1 == Done <==> Live(s, u) && !s.users[u].twoFactorEnabled
    ensures Step(s, OpEnable(u, valid, codes)).1 == Done
      <==> Live(s, u) && !s.users[u].twoFactorEnabled && s.users[u].twoFactorSecret.Some? && valid
    ensures Step(s, OpDisable(u, password)).1 == Done
      <==> Live(s, u) && s.users[u].twoFactorEnabled && s.users[u].password == Some(password)
    ensures Step(s, OpSetup(u, secret)).1 != Done ==> Step(s, OpSetup(u, secret)).0 == s
    ensures Step(s, OpEnable(u, valid, codes)).1 != Done ==> Step(s, OpEnable(u, valid, codes)).0 == s
    ensures Step(s, OpDisable(u, password)).1 != Done ==> Step(s, OpDisable(u, password)).0 == s
  {
  }

  /** Setup followed by enable turns the second factor on, with the stored secret and the generated
      codes; the password stays in force, and Google sign-in is challenged too. */
  lemma EnablingWorks(s: State, u: Uid, secret: string, codes: seq<string>, password: string)
    requires Welcome(s, u) && !s.users[u].twoFactorEnabled && s.users[u].password == Some(password)
    ensures var (s', r) := Step(Step(s, OpSetup(u, secret)).0, OpEnable(u, true, codes));
      && r == Done && u in s'.users
      && s'.users[u] == s.users[u].(tokenVersion := s.users[u].tokenVersion + 1, twoFactorEnabled := true,
                                    twoFactorSecret := Some(secret), backupCodes := codes)
      && PasswordIs(s', u, password) && Step(s', OpGoogleLogin(u)).1.Challenged?
  {
    var s' := Step(Step(s, OpSetup(u, secret)).0, OpEnable(u, true, codes)).0;
    StoredPasswordIs(s', u, password);
  }

  /** Disabling undoes it: the password alone signs in again, and setup is free again. */
  lemma DisablingWorks(s: State, u: Uid, secret: string, password: string)
    requires Welcome(s, u) && s.users[u].twoFactorEnabled && s.users[u].password == Some(password)
    ensures var (s', r) := Step(s, OpDisable(u, password));
      && r == Done && u in s'.users
      && s'.users[u] == s.users[u].(tokenVersion := s.users[u].tokenVersion + 1, twoFactorEnabled := false,
                                    twoFactorSecret := None, backupCodes := [], lastTotpTimeStep := None)
      && PasswordIs(s', u, password) && Step(s', OpGoogleLogin(u)).1.Granted? && Step(s', OpSetup(u, secret)).1 == Done
  {
    StoredPasswordIs(Step(s, OpDisable(u, password)).0, u, password);
  }

  /** The challenge a login hands out is for that user, fresh, and lives five minutes. */
  lemma ChallengesLive(s: State, op: Op, ms: nat, code: string, matches: Option<nat>)
    requires Sound(s) && (op.OpLogin? || op.OpGoogleLogin?) && Step(s, op).1.Challenged?
    ensures var (s1, r) := Step(s, op);
      var later := After(s1, ms);
      && r.challenge !in s.challenges && r.challenge in s1.challenges && s1.challenges[r.challenge].userId == op.u && op.u in s1.users
      && s1.challenges[r.challenge].attempts == 0 && s1.users == s.users[op.u := s1.users[op.u]]
      && (Step(later, OpVerifyChallenge(r.challenge, code, matches)).1.Granted? <==>
            (ms <= 300000 && Free(later, op.u) && RightCode(s1.users[op.u], code, matches)))
  {
    var (s1, r) := Step(s, op);
    if op.OpLogin? {
      LoginVerdict(s, op.u, op.password);
    } else {
      GoogleVerdict(s, op.u);
    }
    VerifyVerdict(After(s1, ms), r.challenge, code, matches);
  }

  // ---------------------------------------------------------------- ending sessions

  /** Logging out with a token ends that session, without one all of the caller's; nobody else's. */
  lemma LogoutEnds(s: State, u: Uid, j: Option<nat>, v: Uid)
    ensures var s' := Step(s, OpLogout(u, j)).0;
      && Active(s', v) == (if v != u then Active(s, v) else if j.Some? then Active(s, u) - {j.value} else {})
      && s'.tokens.Keys == s.tokens.Keys && s'.users == s.users
  {
  }

  /** Revoking a session succeeds exactly on an active one of the caller, and ends that one only. */
  lemma RevocationEnds(s: State, u: Uid, j: nat, v: Uid)
    ensures var (s', r) := Step(s, OpRevokeSession(u, j));
      && (r == Done <==> j in Active(s, u))
      && Active(s', v) == (if v == u && r == Done then Active(s, u) - {j} else Active(s, v))
      && s'.tokens.Keys == s.tokens.Keys && s'.users == s.users && (r != Done ==> s' == s)
  {
  }

  /** Revoking all sessions works for every user there is. */
  lemma RevokeAllWorks(s: State, u: Uid)
    ensures Step(s, OpRevokeAllSessions(u)).1 == Done <==> u in s.users
    ensures u !in s.users ==> Step(s, OpRevokeAllSessions(u)).0 == s
  {
  }

  /** The cleanup keeps a row exactly while it is unexpired and not revoked for more than seven days;
      a row revoked now is thus kept for seven days. */
  lemma CleanupKeeps(s: State, j: nat)
    requires j in s.tokens
    ensures var s' := Step(s, OpCleanupRefreshTokens).0;
      && (j in s'.tokens <==> s.clock <= s.tokens[j].expiresAt && (s.tokens[j].revoked ==> s.clock <= s.tokens[j].updatedAt + 604800000))
      && (j in s'.tokens ==> s'.tokens[j] == s.tokens[j]) && s'.users == s.users && s'.jwts == s.jwts
  {
  }

  lemma RevokedNowIsKept(s: State, u: Uid, j: nat, ms: nat)
    requires j in Active(s, u) && s.clock + ms <= s.tokens[j].expiresAt
    ensures j in Step(After(Step(s, OpRevokeSession(u, j)).0, ms), OpCleanupRefreshTokens).0.tokens <==> ms <= 604800000
  {
    CleanupKeeps(After(Step(s, OpRevokeSession(u, j)).0, ms), j);
  }

  /** The other cleanup keeps exactly the unexpired challenges. */
  lemma ChallengeCleanupKeeps(s: State, ch: nat)
    requires ch in s.challenges
    ensures var s' := Step(s, OpCleanupChallenges).0;
      && (ch in s'.challenges <==> s.clock <= s.challenges[ch].expiresAt)
      && (ch in s'.challenges ==> s'.challenges[ch] == s.challenges[ch]) && s'.tokens == s.tokens && s'.users == s.users
  {
  }

  /** A hard delete leaves nothing of the user and everything of the others. */
  lemma HardDeleteSays(s: State, u: Uid)
    ensures var s' := Step(s, OpHardDelete(u)).0;
      && u !in s'.users && (forall v :: v in s.users && v != u ==> v in s'.users && s'.users[v] == s.users[v])
      && (forall j :: j in s.tokens ==> (j in s'.tokens <==> s.tokens[j].userId != u) && (j in s'.tokens ==> s'.tokens[j] == s.tokens[j]))
      && (forall c :: c in s.challenges ==>
            (c in s'.challenges <==> s.challenges[c].userId != u) && (c in s'.challenges ==> s'.challenges[c] == s.challenges[c]))
  {
  }
}
