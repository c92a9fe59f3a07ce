/** The account services over mutable tables, statement by statement as the source runs them. */
module AuthService {
  import opened Wrappers
  import opened Auth

  class AuthStore {
    var users: map<Uid, User>
    var tokens: map<nat, RefreshRow>
    var challenges: map<nat, Challenge>
    var nextUser: Uid
    var nextToken: nat
    var nextChallenge: nat
    var clock: nat
    const refreshTtl: nat
    const accessTtl: nat
    var jwts: map<nat, Jwt>
    var issued: set<Access>

    constructor (s: State)
      ensures Current() == s
    {
      users, tokens, challenges := s.users, s.tokens, s.challenges;
      nextUser, nextToken, nextChallenge := s.nextUser, s.nextToken, s.nextChallenge;
      clock, refreshTtl, accessTtl := s.clock, s.refreshTtl, s.accessTtl;
      jwts, issued := s.jwts, s.issued;
    }

    function Current(): State
      reads this
    {
      State(users, tokens, challenges, nextUser, nextToken, nextChallenge, clock, refreshTtl, accessTtl, jwts, issued)
    }

    /** createRefreshTokenRecord, followed by signToken. */
    method SignIn(u: Uid, tokenVersion: nat) returns (r: Reply)
      modifies `jwts, `tokens, `nextToken, `issued
      ensures (Current(), r) == Issue(old(Current()), u, tokenVersion)
    {
      var jti := nextToken;
      nextToken := nextToken + 1;
      jwts := jwts[jti := Jwt(u, clock / 1000 + refreshTtl)];
      tokens := tokens[jti := RefreshRow(u, false, clock + refreshTtl * 1000, clock)];
      var access := Access(u, tokenVersion, clock / 1000 + accessTtl);
      issued := issued + {access};
      r := Granted(access, jti);
    }

    method NewChallenge(u: Uid) returns (r: Reply)
      modifies `challenges, `nextChallenge
      ensures (Current(), r) == CreateChallenge(old(Current()), u)
    {
      challenges := challenges[nextChallenge := Challenge(u, clock + CHALLENGE_TTL_MS, false, 0)];
      r := Challenged(nextChallenge);
      nextChallenge := nextChallenge + 1;
    }

    method LoginWithPassword(u: Uid, password: string) returns (r: Reply)
      modifies this
      ensures (Current(), r) == Login(old(Current()), u, password)
    {
      if u !in users || users[u].deleted {
        return Refused;
      }
      var user := users[u];
      var isLocked := user.lockedUntil.Some? && user.lockedUntil.value > clock;
      if user.lockedUntil.Some? && user.lockedUntil.value <= clock {
        user := user.(failedLoginAttempts := 0, lockedUntil := None);
        users := users[u := user];
      }
      var canCompare := user.password.Some? && !isLocked;
      var valid := canCompare && password == user.password.value;
      if !valid {
        if !isLocked {
          var attempts := user.failedLoginAttempts + 1;
          users := users[u := user.(failedLoginAttempts := attempts)];
          if attempts >= MAX_FAILED_ATTEMPTS {
            users := users[u := users[u].(lockedUntil := Some(clock + LOCK_DURATION_MS))];
          }
        }
        assert users == old(users)[u := if isLocked then user else CountFailure(user, clock)];
        return Refused;
      }
      assert users == old(users)[u := user];
      if user.banned || (user.suspendedUntil.Some? && user.suspendedUntil.value > clock) {
        return Refused;
      }
      if user.twoFactorEnabled {
        r := NewChallenge(u);
        return;
      }
      users := users[u := user.(failedLoginAttempts := 0, lockedUntil := None)];
      assert users == old(users)[u := ClearLock(user)];
      r := SignIn(u, user.tokenVersion);
    }

    method RefreshTokens(j: nat) returns (r: Reply)
      modifies this
      ensures (Current(), r) == Refresh(old(Current()), j)
    {
      if !(j in jwts && clock / 1000 < jwts[j].exp) || j !in tokens || tokens[j].userId !in users {
        return Refused;
      }
      var stored := tokens[j];
      var u := stored.userId;
      if stored.revoked {
        tokens := map t | t in tokens :: if tokens[t].userId == u then Revoke(tokens[t], clock) else tokens[t];
        users := users[u := users[u].(tokenVersion := users[u].tokenVersion + 1)];
        return Refused;
      }
      if stored.expiresAt < clock {
        tokens := tokens[j := Revoke(stored, clock)];
        return Refused;
      }
      var user := users[u];
      if user.deleted || user.banned || (user.suspendedUntil.Some? && user.suspendedUntil.value > clock) {
        return Refused;
      }
      tokens := tokens[j := Revoke(stored, clock)];
      r := SignIn(u, user.tokenVersion);
    }

    /** The updateMany on refresh tokens shared by every kill. */
    method RevokeAllRefreshTokens(u: Uid)
      modifies `tokens
      ensures Current() == RevokeActive(old(Current()), u)
    {
      tokens := map t | t in tokens ::
        if tokens[t].userId == u && !tokens[t].revoked then Revoke(tokens[t], clock) else tokens[t];
    }

    method LogoutSession(u: Uid, j: Option<nat>) returns (r: Reply)
      modifies `tokens
      ensures (Current(), r) == Logout(old(Current()), u, j)
    {
      if j.Some? {
        if j.value in tokens && tokens[j.value].userId == u {
          tokens := tokens[j.value := Revoke(tokens[j.value], clock)];
        }
      } else {
        RevokeAllRefreshTokens(u);
      }
      r := Done;
    }

    method ResetPasswordWith(u: Uid, token: string, newPassword: string) returns (r: Reply)
      modifies this
      ensures (Current(), r) == ResetPassword(old(Current()), u, token, newPassword)
    {
      if u !in users || users[u].deleted || users[u].resetToken != Some(token) {
        return Refused;
      }
      var user := users[u];
      if user.resetExpires.None? || user.resetExpires.value < clock {
        users := users[u := user.(resetToken := None, resetExpires := None)];
        return Refused;
      }
      users := users[u := user.(password := Some(newPassword), resetToken := None, resetExpires := None,
        tokenVersion := user.tokenVersion + 1)];
      RevokeAllRefreshTokens(u);
      r := Done;
    }

    method ChangePasswordOf(u: Uid, currentPassword: string, newPassword: string) returns (r: Reply)
      modifies this
      ensures (Current(), r) == ChangePassword(old(Current()), u, currentPassword, newPassword)
    {
      if u !in users || users[u].deleted || users[u].password.None? {
        return Refused;
      }
      var user := users[u];
      if currentPassword != user.password.value || newPassword == user.password.value {
        return Refused;
      }
      users := users[u := user.(password := Some(newPassword), tokenVersion := user.tokenVersion + 1)];
      RevokeAllRefreshTokens(u);
      r := Done;
    }

    /** `random` are the successive outputs of the random generator. */
    method EnableTwoFactor(u: Uid, valid: bool, random: seq<string>) returns (r: Reply, backupCodes: seq<string>)
      requires |random| >= BACKUP_CODE_COUNT
      modifies this
      ensures (Current(), r) == Enable(old(Current()), u, valid, random[..BACKUP_CODE_COUNT])
      ensures r == Done ==> backupCodes == random[..BACKUP_CODE_COUNT] && |backupCodes| == 10
    {
      backupCodes := [];
      if u !in users || users[u].deleted || users[u].twoFactorEnabled || users[u].twoFactorSecret.None? || !valid {
        return Refused, [];
      }
      var hashedCodes: seq<string> := [];
      var i := 0;
      while i < BACKUP_CODE_COUNT
        invariant 0 <= i <= BACKUP_CODE_COUNT
        invariant backupCodes == random[..i] && hashedCodes == random[..i]
      {
        var raw := random[i];
        backupCodes := backupCodes + [raw];
        hashedCodes := hashedCodes + [raw];
        i := i + 1;
      }
      var user := users[u];
      users := users[u := user.(twoFactorEnabled := true, backupCodes := hashedCodes, tokenVersion := user.tokenVersion + 1)];
      RevokeAllRefreshTokens(u);
      r := Done;
    }

    method DisableTwoFactor(u: Uid, password: string) returns (r: Reply)
      modifies this
      ensures (Current(), r) == Disable(old(Current()), u, password)
    {
      if u !in users || users[u].deleted || !users[u].twoFactorEnabled || users[u].password != Some(password) {
        return Refused;
      }
      var user := users[u];
      users := users[u := user.(twoFactorEnabled := false, twoFactorSecret := None, backupCodes := [],
        lastTotpTimeStep := None, tokenVersion := user.tokenVersion + 1)];
      RevokeAllRefreshTokens(u);
      r := Done;
    }

    /** The loop over the stored codes, stopping at the first match. */
    static method FindBackupCode(codes: seq<string>, code: string) returns (found: bool)
      ensures found == (code in codes)
    {
      found := false;
      var i := 0;
      while i < |codes|
        invariant 0 <= i <= |codes| && !found && code !in codes[..i]
      {
        if codes[i] == code {
          return true;
        }
        i := i + 1;
      }
    }

    static lemma {:induction false} WithoutSnoc(a: seq<string>, x: string, code: string)
      ensures Without(a + [x], code) == Without(a, code) + (if x == code then [] else [x])
    {
      if a == [] {
        assert [x][1..] == [];
      } else {
        assert (a + [x])[1..] == a[1..] + [x];
        WithoutSnoc(a[1..], x, code);
      }
    }

    /** The filter that drops a consumed code. */
    static method RemoveBackupCode(codes: seq<string>, code: string) returns (remaining: seq<string>)
      ensures remaining == Without(codes, code)
    {
      remaining := [];
      for i := 0 to |codes|
        invariant remaining == Without(codes[..i], code)
      {
        assert codes[..i + 1] == codes[..i] + [codes[i]];
        WithoutSnoc(codes[..i], codes[i], code);
        if codes[i] != code {
          remaining := remaining + [codes[i]];
        }
      }
      assert codes[..|codes|] == codes;
    }

    method VerifyLoginChallenge(ch: nat, code: string, matches: Option<nat>) returns (r: Reply)
      modifies this
      ensures (Current(), r) == VerifyChallenge(old(Current()), ch, code, matches)
    {
      if ch !in challenges {
        return Refused;
      }
      var stored := challenges[ch];
      if stored.used || stored.attempts >= MAX_CHALLENGE_ATTEMPTS {
        return Refused;
      }
      if stored.expiresAt < clock {
        challenges := challenges - {ch};
        return Refused;
      }
      var u := stored.userId;
      if u !in users || users[u].deleted || Barred(users[u], clock) {
        return Refused;
      }
      var user := users[u];
      var step := TotpStep(user, matches);
      var matched := false;
      if step.None? {
        matched := FindBackupCode(user.backupCodes, code);
      }
      if step.None? && !matched {
        challenges := challenges[ch := stored.(attempts := stored.attempts + 1)];
        return WrongCode;
      }
      challenges := challenges[ch := stored.(used := true)];
      if matched {
        var remaining := RemoveBackupCode(user.backupCodes, code);
        users := users[u := user.(backupCodes := remaining)];
      }
      users := users[u := users[u].(failedLoginAttempts := 0, lockedUntil := None,
        lastTotpTimeStep := if step.Some? then step else users[u].lastTotpTimeStep)];
      assert users == old(users)[u := Consume(user, step, code)];
      r := SignIn(u, user.tokenVersion);
    }

    method RevokeOneSession(u: Uid, j: nat) returns (r: Reply)
      modifies `tokens
      ensures (Current(), r) == RevokeSession(old(Current()), u, j)
    {
      if j !in tokens || tokens[j].userId != u || tokens[j].revoked {
        return Refused;
      }
      tokens := tokens[j := Revoke(tokens[j], clock)];
      r := Done;
    }

    method RevokeEverySession(u: Uid) returns (r: Reply)
      modifies this
      ensures (Current(), r) == RevokeAllSessions(old(Current()), u)
    {
      if u !in users {
        return Refused;
      }
      RevokeAllRefreshTokens(u);
      users := users[u := users[u].(tokenVersion := users[u].tokenVersion + 1)];
      r := Done;
    }

    method CleanupTokens()
      modifies `tokens
      ensures Current() == CleanupRefreshTokens(old(Current()))
    {
      tokens := map j | j in tokens && Retained(tokens[j], clock) :: tokens[j];
    }

    method AuthenticateRequest(a: Access) returns (ok: bool)
      ensures ok == Authenticate(Current(), a)
    {
      if a !in issued || a.exp <= clock / 1000 {
        return false;
      }
      if a.uid !in users || users[a.uid].deleted {
        return false;
      }
      if a.tokenVersion != users[a.uid].tokenVersion {
        return false;
      }
      ok := !users[a.uid].banned && !(users[a.uid].suspendedUntil.Some? && users[a.uid].suspendedUntil.value > clock);
    }
  }
}
