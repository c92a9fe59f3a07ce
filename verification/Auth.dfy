/**
 Accounts, sessions and the second factor as one serial state machine: login with lockout,
 refresh rotation with reuse detection, the tokenVersion kill, login challenges, TOTP time
 steps, backup codes and the token cleanup.
 */
module Auth {
  import opened Wrappers

  type Uid = nat

  const MAX_FAILED_ATTEMPTS := 5
  const LOCK_DURATION_MS: nat := 15 * 60 * 1000
  const RESET_TOKEN_TTL_MS: nat := 60 * 60 * 1000
  const CHALLENGE_TTL_MS: nat := 5 * 60 * 1000
  const MAX_CHALLENGE_ATTEMPTS := 5
  const BACKUP_CODE_COUNT := 10

  // ---------------------------------------------------------------- data

  /** A users row. Hashes are injective, so a hashed column is the value that was hashed. */
  datatype User = User(
    password: Option<string>, tokenVersion: nat,
    failedLoginAttempts: nat, lockedUntil: Option<nat>,
    banned: bool, suspendedUntil: Option<nat>, deleted: bool,
    resetToken: Option<string>, resetExpires: Option<nat>,
    twoFactorEnabled: bool, twoFactorSecret: Option<string>,
    backupCodes: seq<string>, lastTotpTimeStep: Option<nat>)

  /** A refresh_tokens row, keyed by the identity of the JWT whose hash it stores. */
  datatype RefreshRow = RefreshRow(userId: Uid, revoked: bool, expiresAt: nat, updatedAt: nat)

  datatype Challenge = Challenge(userId: Uid, expiresAt: nat, used: bool, attempts: nat)

  /** A signed refresh JWT; `exp` is in seconds. */
  datatype Jwt = Jwt(sub: Uid, exp: nat)

  /** A signed access token; `exp` is in seconds. */
  datatype Access = Access(uid: Uid, tokenVersion: nat, exp: nat)

  /** The tables, the clock in milliseconds, the configured lifetimes in seconds, and every token
      ever signed. The three counters stand for random identifiers: each use is a fresh one. */
  datatype State = State(
    users: map<Uid, User>, tokens: map<nat, RefreshRow>, challenges: map<nat, Challenge>,
    nextUser: Uid, nextToken: nat, nextChallenge: nat,
    clock: nat, refreshTtl: nat, accessTtl: nat,
    jwts: map<nat, Jwt>, issued: set<Access>)

  datatype Reply =
    | Granted(access: Access, jti: nat)
    | Challenged(challenge: nat)
    | Done
    | WrongCode
    | Refused

  // ---------------------------------------------------------------- statements

  function WithUser(s: State, u: Uid, usr: User): State {
    s.(users := s.users[u := usr])
  }

  function Revoke(row: RefreshRow, now: nat): RefreshRow {
    row.(revoked := true, updatedAt := now)
  }

  /** updateMany where userId and revoked = false. */
  function RevokeActive(s: State, u: Uid): State {
    s.(tokens := map j | j in s.tokens ::
      if s.tokens[j].userId == u && !s.tokens[j].revoked then Revoke(s.tokens[j], s.clock) else s.tokens[j])
  }

  /** updateMany where userId: the family, already revoked rows included. */
  function RevokeFamily(s: State, u: Uid): State {
    s.(tokens := map j | j in s.tokens ::
      if s.tokens[j].userId == u then Revoke(s.tokens[j], s.clock) else s.tokens[j])
  }

  function RevokeOne(s: State, j: nat): State
    requires j in s.tokens
  {
    s.(tokens := s.tokens[j := Revoke(s.tokens[j], s.clock)])
  }

  function BumpVersion(s: State, u: Uid): State
    requires u in s.users
  {
    WithUser(s, u, s.users[u].(tokenVersion := s.users[u].tokenVersion + 1))
  }

  /** createRefreshTokenRecord and signToken. */
  function Issue(s: State, u: Uid, tokenVersion: nat): (State, Reply) {
    var access := Access(u, tokenVersion, s.clock / 1000 + s.accessTtl);
    (s.(jwts := s.jwts[s.nextToken := Jwt(u, s.clock / 1000 + s.refreshTtl)],
        tokens := s.tokens[s.nextToken := RefreshRow(u, false, s.clock + s.refreshTtl * 1000, s.clock)],
        nextToken := s.nextToken + 1,
        issued := s.issued + {access}),
     Granted(access, s.nextToken))
  }

  function CreateChallenge(s: State, u: Uid): (State, Reply) {
    (s.(challenges := s.challenges[s.nextChallenge := Challenge(u, s.clock + CHALLENGE_TTL_MS, false, 0)],
        nextChallenge := s.nextChallenge + 1),
     Challenged(s.nextChallenge))
  }

  predicate Live(s: State, u: Uid) {
    u in s.users && !s.users[u].deleted
  }

  /** Banned, or suspended at this moment. */
  predicate Barred(usr: User, now: nat) {
    usr.banned || (usr.suspendedUntil.Some? && usr.suspendedUntil.value > now)
  }

  // ---------------------------------------------------------------- auth.middleware.js

  predicate Authenticate(s: State, a: Access) {
    && a in s.issued && s.clock / 1000 < a.exp
    && Live(s, a.uid) && a.tokenVersion == s.users[a.uid].tokenVersion
    && !Barred(s.users[a.uid], s.clock)
  }

  // ---------------------------------------------------------------- auth.service.js

  const FRESH := User(None, 0, 0, None, false, None, false, None, None, false, None, [], None)

  /** register; without a password, the account googleLogin creates. */
  function Register(s: State, password: Option<string>): (State, Reply) {
    var s1 := WithUser(s, s.nextUser, FRESH.(password := password)).(nextUser := s.nextUser + 1);
    Issue(s1, s.nextUser, 0)
  }

  predicate Locked(usr: User, now: nat) {
    usr.lockedUntil.Some? && usr.lockedUntil.value > now
  }

  function ClearLock(usr: User): User {
    usr.(failedLoginAttempts := 0, lockedUntil := None)
  }

  /** Reset the lock when it has expired. */
  function ExpireLock(usr: User, now: nat): User {
    if usr.lockedUntil.Some? && usr.lockedUntil.value <= now then ClearLock(usr) else usr
  }

  function CountFailure(usr: User, now: nat): User {
    var n := usr.failedLoginAttempts + 1;
    usr.(failedLoginAttempts := n,
         lockedUntil := if n >= MAX_FAILED_ATTEMPTS then Some(now + LOCK_DURATION_MS) else usr.lockedUntil)
  }

  /** A login that counts toward lockout: a wrong password, or any password on an account that
      has none, while the account is not locked. */
  predicate Counts(s: State, u: Uid, password: string) {
    Live(s, u) && !Locked(s.users[u], s.clock) && s.users[u].password != Some(password)
  }

  function Login(s: State, u: Uid, password: string): (State, Reply) {
    if !Live(s, u) then (s, Refused)
    else
      var usr := ExpireLock(s.users[u], s.clock);
      var s1 := WithUser(s, u, usr);
      if Counts(s, u, password) then (WithUser(s, u, CountFailure(usr, s.clock)), Refused)
      else if Locked(s.users[u], s.clock) || Barred(usr, s.clock) then (s1, Refused)
      else if usr.twoFactorEnabled then CreateChallenge(s1, u)
      else Issue(WithUser(s, u, ClearLock(usr)), u, usr.tokenVersion)
  }

  /** googleLogin of an existing account. */
  function GoogleLogin(s: State, u: Uid): (State, Reply) {
    if !Live(s, u) || Barred(s.users[u], s.clock) then (s, Refused)
    else if s.users[u].twoFactorEnabled then CreateChallenge(s, u)
    else Issue(s, u, s.users[u].tokenVersion)
  }

  /** The signature and expiry check of a presented refresh JWT. */
  predicate Verifies(s: State, j: nat) {
    j in s.jwts && s.clock / 1000 < s.jwts[j].exp
  }

  function Refresh(s: State, j: nat): (State, Reply) {
    if !Verifies(s, j) || j !in s.tokens || s.tokens[j].userId !in s.users then (s, Refused)
    else
      var row := s.tokens[j];
      var u := row.userId;
      if row.revoked then (BumpVersion(RevokeFamily(s, u), u), Refused)
      else if row.expiresAt < s.clock then (RevokeOne(s, j), Refused)
      else if s.users[u].deleted || Barred(s.users[u], s.clock) then (s, Refused)
      else Issue(RevokeOne(s, j), u, s.users[u].tokenVersion)
  }

  function Logout(s: State, u: Uid, j: Option<nat>): (State, Reply) {
    match j
    case None => (RevokeActive(s, u), Done)
    case Some(t) => (if t in s.tokens && s.tokens[t].userId == u then RevokeOne(s, t) else s, Done)
  }

  function ForgotPassword(s: State, u: Uid, token: string): (State, Reply) {
    if !Live(s, u) then (s, Done)
    else (WithUser(s, u, s.users[u].(resetToken := Some(token), resetExpires := Some(s.clock + RESET_TOKEN_TTL_MS))), Done)
  }

  /** One transaction: a change to the user row, the tokenVersion bump and the revocation. */
  function Kill(s: State, u: Uid, usr: User): State
    requires u in s.users
  {
    RevokeActive(WithUser(s, u, usr.(tokenVersion := s.users[u].tokenVersion + 1)), u)
  }

  function ResetPassword(s: State, u: Uid, token: string, newPassword: string): (State, Reply) {
    if !Live(s, u) || s.users[u].resetToken != Some(token) then (s, Refused)
    else
      var usr := s.users[u].(resetToken := None, resetExpires := None);
      if s.users[u].resetExpires.None? || s.users[u].resetExpires.value < s.clock then (WithUser(s, u, usr), Refused)
      else (Kill(s, u, usr.(password := Some(newPassword))), Done)
  }

  function ChangePassword(s: State, u: Uid, currentPassword: string, newPassword: string): (State, Reply) {
    if !Live(s, u) || s.users[u].password != Some(currentPassword) || newPassword == currentPassword then (s, Refused)
    else (Kill(s, u, s.users[u].(password := Some(newPassword))), Done)
  }

  // ---------------------------------------------------------------- twofa.service.js

  function Setup(s: State, u: Uid, secret: string): (State, Reply) {
    if !Live(s, u) || s.users[u].twoFactorEnabled then (s, Refused)
    else (WithUser(s, u, s.users[u].(twoFactorSecret := Some(secret))), Done)
  }

  /** `valid` is the library's verdict on the code; `codes` are the generated backup codes. */
  function Enable(s: State, u: Uid, valid: bool, codes: seq<string>): (State, Reply) {
    if !Live(s, u) || s.users[u].twoFactorEnabled || s.users[u].twoFactorSecret.None? || !valid then (s, Refused)
    else (Kill(s, u, s.users[u].(twoFactorEnabled := true, backupCodes := codes)), Done)
  }

  function Disable(s: State, u: Uid, password: string): (State, Reply) {
    if !Live(s, u) || !s.users[u].twoFactorEnabled || s.users[u].password != Some(password) then (s, Refused)
    else (Kill(s, u, s.users[u].(twoFactorEnabled := false, twoFactorSecret := None, backupCodes := [], lastTotpTimeStep := None)), Done)
  }

  /** The library contract: a code whose time step is not after `afterTimeStep` is rejected. */
  function TotpStep(usr: User, matches: Option<nat>): Option<nat> {
    if usr.twoFactorSecret.Some? && matches.Some?
       && (usr.lastTotpTimeStep.None? || matches.value > usr.lastTotpTimeStep.value)
    then matches else None
  }

  function Without(codes: seq<string>, code: string): seq<string> {
    if codes == [] then []
    else (if codes[0] == code then [] else [codes[0]]) + Without(codes[1..], code)
  }

  /** The checks that come before the code is looked at. */
  predicate Open(s: State, ch: nat) {
    && ch in s.challenges && !s.challenges[ch].used && s.challenges[ch].attempts < MAX_CHALLENGE_ATTEMPTS
    && s.challenges[ch].expiresAt >= s.clock
    && Live(s, s.challenges[ch].userId) && !Barred(s.users[s.challenges[ch].userId], s.clock)
  }

  /** The user row after an accepted code: a time step pinned, or a backup code consumed. */
  function Consume(usr: User, step: Option<nat>, code: string): User {
    if step.Some? then ClearLock(usr).(lastTotpTimeStep := step)
    else ClearLock(usr).(backupCodes := Without(usr.backupCodes, code))
  }

  function WithChallenge(s: State, ch: nat, c: Challenge): State {
    s.(challenges := s.challenges[ch := c])
  }

  /** `matches` is the time step of the user's secret that `code` matches in the window, if any. */
  function VerifyChallenge(s: State, ch: nat, code: string, matches: Option<nat>): (State, Reply) {
    if !Open(s, ch) then
      if ch in s.challenges && !s.challenges[ch].used && s.challenges[ch].attempts < MAX_CHALLENGE_ATTEMPTS
         && s.challenges[ch].expiresAt < s.clock
      then (s.(challenges := s.challenges - {ch}), Refused)
      else (s, Refused)
    else
      var c := s.challenges[ch];
      var usr := s.users[c.userId];
      var step := TotpStep(usr, matches);
      if step.None? && code !in usr.backupCodes then (WithChallenge(s, ch, c.(attempts := c.attempts + 1)), WrongCode)
      else Issue(WithUser(WithChallenge(s, ch, c.(used := true)), c.userId, Consume(usr, step, code)), c.userId, usr.tokenVersion)
  }

  // ---------------------------------------------------------------- session.service.js

  function RevokeSession(s: State, u: Uid, j: nat): (State, Reply) {
    if j !in s.tokens || s.tokens[j].userId != u || s.tokens[j].revoked then (s, Refused) else (RevokeOne(s, j), Done)
  }

  /** The update of a missing user row fails and rolls the transaction back. */
  function RevokeAllSessions(s: State, u: Uid): (State, Reply) {
    if u !in s.users then (s, Refused) else (Kill(s, u, s.users[u]), Done)
  }

  // ---------------------------------------------------------------- maintenance.worker.js, admin, deletion

  const TOKEN_RETENTION_MS: nat := 7 * DAY_MS

  /** Rows cleanupRefreshTokens keeps. */
  predicate Retained(row: RefreshRow, now: nat) {
    row.expiresAt >= now && !(row.revoked && row.updatedAt + TOKEN_RETENTION_MS < now)
  }

  function CleanupRefreshTokens(s: State): State {
    s.(tokens := map j | j in s.tokens && Retained(s.tokens[j], s.clock) :: s.tokens[j])
  }

  function CleanupChallenges(s: State): State {
    s.(challenges := map c | c in s.challenges && s.challenges[c].expiresAt >= s.clock :: s.challenges[c])
  }

  /** Anything an administrator may set: ban, suspension, soft delete and restore. */
  function Moderate(s: State, u: Uid, banned: bool, suspendedUntil: Option<nat>, deleted: bool): State {
    if u !in s.users then s
    else WithUser(s, u, s.users[u].(banned := banned, suspendedUntil := suspendedUntil, deleted := deleted))
  }

  /** Deleting the users row cascades to its refresh tokens and challenges. */
  function HardDelete(s: State, u: Uid): State {
    s.(users := s.users - {u},
       tokens := map j | j in s.tokens && s.tokens[j].userId != u :: s.tokens[j],
       challenges := map c | c in s.challenges && s.challenges[c].userId != u :: s.challenges[c])
  }

  // ---------------------------------------------------------------- runs

  datatype Op =
    | OpRegister(newAccount: Option<string>)
    | OpLogin(u: Uid, password: string)
    | OpGoogleLogin(u: Uid)
    | OpRefresh(jti: nat)
    | OpLogout(u: Uid, token: Option<nat>)
    | OpForgotPassword(u: Uid, secretToken: string)
    | OpResetPassword(u: Uid, secretToken: string, newPassword: string)
    | OpChangePassword(u: Uid, password: string, newPassword: string)
    | OpSetup(u: Uid, secret: string)
    | OpEnable(u: Uid, valid: bool, codes: seq<string>)
    | OpDisable(u: Uid, password: string)
    | OpVerifyChallenge(challenge: nat, code: string, matches: Option<nat>)
    | OpRevokeSession(u: Uid, jti: nat)
    | OpRevokeAllSessions(u: Uid)
    | OpCleanupRefreshTokens
    | OpCleanupChallenges
    | OpModerate(u: Uid, banned: bool, suspendedUntil: Option<nat>, deleted: bool)
    | OpHardDelete(u: Uid)
    | OpWait(ms: nat)

  function Step(s: State, op: Op): (State, Reply) {
    match op
    case OpRegister(p) => Register(s, p)
    case OpLogin(u, p) => Login(s, u, p)
    case OpGoogleLogin(u) => GoogleLogin(s, u)
    case OpRefresh(j) => Refresh(s, j)
    case OpLogout(u, j) => Logout(s, u, j)
    case OpForgotPassword(u, t) => ForgotPassword(s, u, t)
    case OpResetPassword(u, t, p) => ResetPassword(s, u, t, p)
    case OpChangePassword(u, p, q) => ChangePassword(s, u, p, q)
    case OpSetup(u, k) => Setup(s, u, k)
    case OpEnable(u, v, codes) => Enable(s, u, v, codes)
    case OpDisable(u, p) => Disable(s, u, p)
    case OpVerifyChallenge(c, code, m) => VerifyChallenge(s, c, code, m)
    case OpRevokeSession(u, j) => RevokeSession(s, u, j)
    case OpRevokeAllSessions(u) => RevokeAllSessions(s, u)
    case OpCleanupRefreshTokens => (CleanupRefreshTokens(s), Done)
    case OpCleanupChallenges => (CleanupChallenges(s), Done)
    case OpModerate(u, b, t, d) => (Moderate(s, u, b, t, d), Done)
    case OpHardDelete(u) => (HardDelete(s, u), Done)
    case OpWait(ms) => (s.(clock := s.clock + ms), Done)
  }

  function Run(s: State, ops: seq<Op>): State
    decreases |ops|
  {
    if ops == [] then s else Run(Step(s, ops[0]).0, ops[1..])
  }
}
