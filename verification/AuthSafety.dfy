/** What every step of the account machine keeps, and the safety of whole runs that follows. */
module AuthSafety {
  import opened Wrappers
  import opened Auth

  // ---------------------------------------------------------------- invariant and progress

  predicate LockSound(usr: User) {
    && usr.failedLoginAttempts <= MAX_FAILED_ATTEMPTS
    && (usr.failedLoginAttempts == MAX_FAILED_ATTEMPTS <==> usr.lockedUntil.Some?)
  }

  ghost predicate UsersSound(s: State) {
    forall u :: u in s.users ==> u < s.nextUser && LockSound(s.users[u])
  }

  ghost predicate TokensSound(s: State) {
    && (forall j :: j in s.tokens ==>
          && j in s.jwts && s.jwts[j].sub == s.tokens[j].userId && s.tokens[j].userId in s.users
          && s.tokens[j].updatedAt <= s.clock
          && s.jwts[j].exp * 1000 <= s.tokens[j].updatedAt + s.refreshTtl * 1000
          && s.jwts[j].exp * 1000 <= s.tokens[j].expiresAt)
    && (forall j :: j in s.jwts ==> j < s.nextToken && s.jwts[j].sub < s.nextUser)
  }

  /** No access token outruns the version of its user. */
  ghost predicate AccessSound(s: State) {
    forall a :: a in s.issued ==>
      a.uid < s.nextUser && (a.uid in s.users ==> a.tokenVersion <= s.users[a.uid].tokenVersion)
  }

  ghost predicate ChallengesSound(s: State) {
    forall c :: c in s.challenges ==> c < s.nextChallenge && s.challenges[c].userId in s.users
  }

  ghost predicate Sound(s: State) {
    UsersSound(s) && TokensSound(s) && AccessSound(s) && ChallengesSound(s)
  }

  /** Users are never re-created and their version never decreases. */
  ghost predicate UsersForward(a: State, b: State) {
    forall u :: u in b.users && u < a.nextUser ==>
      u in a.users && a.users[u].tokenVersion <= b.users[u].tokenVersion
  }

  /** Refresh rows are never re-created and never un-revoked. */
  ghost predicate TokensForward(a: State, b: State) {
    forall j :: j in b.tokens && j < a.nextToken ==>
      && j in a.tokens && b.tokens[j].userId == a.tokens[j].userId
      && (a.tokens[j].revoked ==> b.tokens[j].revoked)
  }

  ghost predicate HistoryForward(a: State, b: State) {
    && a.clock <= b.clock && a.nextUser <= b.nextUser && a.nextToken <= b.nextToken && a.nextChallenge <= b.nextChallenge
    && a.refreshTtl == b.refreshTtl && a.issued <= b.issued
    && (forall j :: j in a.jwts ==> j in b.jwts && b.jwts[j] == a.jwts[j])
  }

  ghost predicate Evolves(a: State, b: State) {
    UsersForward(a, b) && TokensForward(a, b) && HistoryForward(a, b)
  }

  lemma EvolvesTransitive(a: State, b: State, c: State)
    requires Evolves(a, b) && Evolves(b, c)
    ensures Evolves(a, c)
  {
  }

  // ---------------------------------------------------------------- one lemma per statement

  lemma WithUserSound(s: State, u: Uid, usr: User)
    requires Sound(s) && u in s.users && LockSound(usr) && s.users[u].tokenVersion <= usr.tokenVersion
    ensures Sound(WithUser(s, u, usr)) && Evolves(s, WithUser(s, u, usr))
  {
  }

  /** Rows dropped, or revoked now. */
  lemma TokensChangedSound(s: State, s': State)
    requires Sound(s) && s' == s.(tokens := s'.tokens)
    requires forall j :: j in s'.tokens ==>
      j in s.tokens && (s'.tokens[j] == s.tokens[j] || s'.tokens[j] == Revoke(s.tokens[j], s.clock))
    ensures Sound(s') && Evolves(s, s')
  {
  }

  lemma IssueSound(s: State, u: Uid, tokenVersion: nat)
    requires Sound(s) && u in s.users && tokenVersion <= s.users[u].tokenVersion
    ensures Sound(Issue(s, u, tokenVersion).0) && Evolves(s, Issue(s, u, tokenVersion).0)
  {
    assert (s.clock / 1000 + s.refreshTtl) * 1000 <= s.clock + s.refreshTtl * 1000;
  }

  lemma ChallengesChangedSound(s: State, s': State)
    requires Sound(s) && s' == s.(challenges := s'.challenges)
    requires forall c :: c in s'.challenges ==> c in s.challenges && s'.challenges[c].userId == s.challenges[c].userId
    ensures Sound(s') && Evolves(s, s')
  {
  }

  lemma CreateChallengeSound(s: State, u: Uid)
    requires Sound(s) && u in s.users
    ensures Sound(CreateChallenge(s, u).0) && Evolves(s, CreateChallenge(s, u).0)
  {
  }

  lemma KillSound(s: State, u: Uid, usr: User)
    requires Sound(s) && u in s.users && LockSound(usr)
    ensures Sound(Kill(s, u, usr)) && Evolves(s, Kill(s, u, usr))
  {
    var s1 := WithUser(s, u, usr.(tokenVersion := s.users[u].tokenVersion + 1));
    WithUserSound(s, u, usr.(tokenVersion := s.users[u].tokenVersion + 1));
    TokensChangedSound(s1, Kill(s, u, usr));
    EvolvesTransitive(s, s1, Kill(s, u, usr));
  }

  lemma HardDeleteSound(s: State, u: Uid)
    requires Sound(s)
    ensures Sound(HardDelete(s, u)) && Evolves(s, HardDelete(s, u))
  {
  }

  // ---------------------------------------------------------------- one lemma per request with several statements

  /** INSERT of a users row under a fresh id. */
  lemma NewUserSound(s: State, usr: User)
    requires Sound(s) && LockSound(usr)
    ensures var s' := s.(users := s.users[s.nextUser := usr], nextUser := s.nextUser + 1);
      Sound(s') && Evolves(s, s')
  {
    var s' := s.(users := s.users[s.nextUser := usr], nextUser := s.nextUser + 1);
    assert TokensSound(s') && UsersSound(s');
    assert AccessSound(s') && ChallengesSound(s');
  }

  lemma RegisterSound(s: State, password: Option<string>)
    requires Sound(s)
    ensures Sound(Register(s, password).0) && Evolves(s, Register(s, password).0)
  {
    var usr := FRESH.(password := password);
    var s1 := s.(users := s.users[s.nextUser := usr], nextUser := s.nextUser + 1);
    NewUserSound(s, usr);
    assert Register(s, password) == Issue(s1, s.nextUser, 0);
    assert s1.users[s.nextUser].tokenVersion == 0;
    IssueSound(s1, s.nextUser, 0);
    EvolvesTransitive(s, s1, Register(s, password).0);
  }

  lemma LoginSound(s: State, u: Uid, password: string)
    requires Sound(s)
    ensures Sound(Login(s, u, password).0) && Evolves(s, Login(s, u, password).0)
  {
    if Live(s, u) {
      var usr := ExpireLock(s.users[u], s.clock);
      var s' := Login(s, u, password).0;
      WithUserSound(s, u, usr);
      if Counts(s, u, password) {
        WithUserSound(s, u, CountFailure(usr, s.clock));
      } else if Locked(s.users[u], s.clock) || Barred(usr, s.clock) {
      } else if usr.twoFactorEnabled {
        CreateChallengeSound(WithUser(s, u, usr), u);
        EvolvesTransitive(s, WithUser(s, u, usr), s');
      } else {
        var s1 := WithUser(s, u, ClearLock(usr));
        WithUserSound(s, u, ClearLock(usr));
        IssueSound(s1, u, usr.tokenVersion);
        EvolvesTransitive(s, s1, s');
      }
    }
  }

  lemma BumpVersionSound(s: State, u: Uid)
    requires Sound(s) && u in s.users
    ensures Sound(BumpVersion(s, u)) && Evolves(s, BumpVersion(s, u))
  {
    var usr := s.users[u].(tokenVersion := s.users[u].tokenVersion + 1);
    assert LockSound(s.users[u]);
    WithUserSound(s, u, usr);
    assert BumpVersion(s, u) == WithUser(s, u, usr);
  }

  lemma RevokeFamilySound(s: State, u: Uid)
    requires Sound(s)
    ensures Sound(RevokeFamily(s, u)) && Evolves(s, RevokeFamily(s, u))
  {
    TokensChangedSound(s, RevokeFamily(s, u));
  }

  lemma ReuseSound(s: State, u: Uid)
    requires Sound(s) && u in s.users
    ensures var s' := BumpVersion(RevokeFamily(s, u), u); Sound(s') && Evolves(s, s')
  {
    var s1 := RevokeFamily(s, u);
    RevokeFamilySound(s, u);
    BumpVersionSound(s1, u);
    EvolvesTransitive(s, s1, BumpVersion(s1, u));
  }

  lemma RevokeOneSound(s: State, j: nat)
    requires Sound(s) && j in s.tokens
    ensures Sound(RevokeOne(s, j)) && Evolves(s, RevokeOne(s, j))
  {
    TokensChangedSound(s, RevokeOne(s, j));
  }

  lemma RotateSound(s: State, j: nat)
    requires Sound(s) && j in s.tokens
    ensures var u := s.tokens[j].userId;
      var s' := Issue(RevokeOne(s, j), u, s.users[u].tokenVersion).0;
      Sound(s') && Evolves(s, s')
  {
    var s1, u := RevokeOne(s, j), s.tokens[j].userId;
    TokensChangedSound(s, s1);
    IssueSound(s1, u, s.users[u].tokenVersion);
    EvolvesTransitive(s, s1, Issue(s1, u, s.users[u].tokenVersion).0);
  }

  lemma RefreshSound(s: State, j: nat)
    requires Sound(s)
    ensures Sound(Refresh(s, j).0) && Evolves(s, Refresh(s, j).0)
  {
    if Verifies(s, j) && j in s.tokens {
      var u := s.tokens[j].userId;
      if s.tokens[j].revoked {
        ReuseSound(s, u);
        assert Refresh(s, j).0 == BumpVersion(RevokeFamily(s, u), u);
      } else {
        RevokeOneSound(s, j);
        RotateSound(s, j);
        assert Refresh(s, j).0 in {s, RevokeOne(s, j), Issue(RevokeOne(s, j), u, s.users[u].tokenVersion).0};
      }
    }
  }

  lemma VerifyChallengeSound(s: State, ch: nat, code: string, matches: Option<nat>)
    requires Sound(s)
    ensures var s' := VerifyChallenge(s, ch, code, matches).0; Sound(s') && Evolves(s, s')
  {
    var s' := VerifyChallenge(s, ch, code, matches).0;
    if Open(s, ch) {
      var c := s.challenges[ch];
      var usr := s.users[c.userId];
      var step := TotpStep(usr, matches);
      if step.Some? || code in usr.backupCodes {
        var s1 := WithChallenge(s, ch, c.(used := true));
        ChallengesChangedSound(s, s1);
        var s2 := WithUser(s1, c.userId, Consume(usr, step, code));
        WithUserSound(s1, c.userId, Consume(usr, step, code));
        IssueSound(s2, c.userId, usr.tokenVersion);
        EvolvesTransitive(s, s1, s2);
        EvolvesTransitive(s, s2, s');
      } else {
        ChallengesChangedSound(s, s');
      }
    } else if s' != s {
      ChallengesChangedSound(s, s');
    }
  }

  lemma SessionStepSound(s: State, op: Op)
    requires Sound(s)
    requires op.OpLogout? || op.OpRevokeSession? || op.OpCleanupRefreshTokens? || op.OpCleanupChallenges? || op.OpRevokeAllSessions?
    ensures Sound(Step(s, op).0) && Evolves(s, Step(s, op).0)
  {
    var s' := Step(s, op).0;
    if op.OpRevokeAllSessions? {
      if s' != s {
        KillSound(s, op.u, s.users[op.u]);
      }
    } else if op.OpCleanupChallenges? {
      ChallengesChangedSound(s, s');
    } else {
      TokensChangedSound(s, s');
    }
  }

  lemma AccountStepSound(s: State, op: Op)
    requires Sound(s)
    requires op.OpForgotPassword? || op.OpChangePassword? || op.OpSetup? || op.OpEnable? || op.OpModerate?
    ensures Sound(Step(s, op).0) && Evolves(s, Step(s, op).0)
  {
    var s' := Step(s, op).0;
    if s' != s {
      if op.OpChangePassword? {
        KillSound(s, op.u, s.users[op.u].(password := Some(op.newPassword)));
      } else if op.OpEnable? {
        KillSound(s, op.u, s.users[op.u].(twoFactorEnabled := true, backupCodes := op.codes));
      } else {
        WithUserSound(s, op.u, s'.users[op.u]);
      }
    }
  }

  lemma GoogleLoginSound(s: State, u: Uid)
    requires Sound(s)
    ensures Sound(GoogleLogin(s, u).0) && Evolves(s, GoogleLogin(s, u).0)
  {
    if Live(s, u) {
      IssueSound(s, u, s.users[u].tokenVersion);
      CreateChallengeSound(s, u);
    }
  }

  lemma WaitSound(s: State, ms: nat)
    requires Sound(s)
    ensures var s' := s.(clock := s.clock + ms); Sound(s') && Evolves(s, s')
  {
  }

  lemma ResetPasswordSound(s: State, u: Uid, token: string, newPassword: string)
    requires Sound(s)
    ensures var s' := ResetPassword(s, u, token, newPassword).0; Sound(s') && Evolves(s, s')
  {
    if Live(s, u) {
      var usr := s.users[u].(resetToken := None, resetExpires := None);
      WithUserSound(s, u, usr);
      KillSound(s, u, usr.(password := Some(newPassword)));
    }
  }

  lemma DisableSound(s: State, u: Uid, password: string)
    requires Sound(s)
    ensures Sound(Disable(s, u, password).0) && Evolves(s, Disable(s, u, password).0)
  {
    if Live(s, u) {
      KillSound(s, u, s.users[u].(twoFactorEnabled := false, twoFactorSecret := None, backupCodes := [], lastTotpTimeStep := None));
    }
  }

  lemma StepSound(s: State, op: Op)
    requires Sound(s)
    ensures Sound(Step(s, op).0) && Evolves(s, Step(s, op).0)
  {
    match op
    case OpRegister(p) => RegisterSound(s, p);
    case OpLogin(u, p) => LoginSound(s, u, p);
    case OpGoogleLogin(u) => GoogleLoginSound(s, u);
    case OpRefresh(j) => RefreshSound(s, j);
    case OpResetPassword(u, t, p) => ResetPasswordSound(s, u, t, p);
    case OpDisable(u, p) => DisableSound(s, u, p);
    case OpVerifyChallenge(c, code, m) => VerifyChallengeSound(s, c, code, m);
    case OpHardDelete(u) => HardDeleteSound(s, u);
    case OpWait(ms) => WaitSound(s, ms);
    case OpForgotPassword(_, _) => AccountStepSound(s, op);
    case OpChangePassword(_, _, _) => AccountStepSound(s, op);
    case OpSetup(_, _) => AccountStepSound(s, op);
    case OpEnable(_, _, _) => AccountStepSound(s, op);
    case OpModerate(_, _, _, _) => AccountStepSound(s, op);
    case _ => SessionStepSound(s, op);
  }

  lemma {:induction false} RunSound(s: State, ops: seq<Op>)
    requires Sound(s)
    ensures Sound(Run(s, ops)) && Evolves(s, Run(s, ops))
    decreases |ops|
  {
    if ops != [] {
      StepSound(s, ops[0]);
      RunSound(Step(s, ops[0]).0, ops[1..]);
      EvolvesTransitive(s, Step(s, ops[0]).0, Run(s, ops));
    }
  }

  /** Every run from empty tables is sound. */
  lemma EveryRunIsSound(clock: nat, refreshTtl: nat, accessTtl: nat, ops: seq<Op>)
    ensures Sound(Run(State(map[], map[], map[], 0, 0, 0, clock, refreshTtl, accessTtl, map[], {}), ops))
  {
    RunSound(State(map[], map[], map[], 0, 0, 0, clock, refreshTtl, accessTtl, map[], {}), ops);
  }

  // ---------------------------------------------------------------- the kill switch

  /** The requests that promise to end every session of `u`. */
  predicate Kills(s: State, op: Op, u: Uid) {
    match op
    case OpResetPassword(v, _, _) => v == u && Step(s, op).1.Done?
    case OpChangePassword(v, _, _) => v == u && Step(s, op).1.Done?
    case OpEnable(v, _, _) => v == u && Step(s, op).1.Done?
    case OpDisable(v, _) => v == u && Step(s, op).1.Done?
    case OpRevokeAllSessions(v) => v == u && Step(s, op).1.Done?
    case OpRefresh(j) => Verifies(s, j) && j in s.tokens && s.tokens[j].revoked && s.tokens[j].userId == u
    case _ => false
  }

  /** Every token signed so far for `u` is spent. */
  ghost predicate Killed(s: State, u: Uid) {
    && (forall a :: a in s.issued && a.uid == u && u in s.users ==> a.tokenVersion < s.users[u].tokenVersion)
    && (forall j :: j in s.tokens && s.tokens[j].userId == u ==> s.tokens[j].revoked)
  }

  lemma KillSpendsAll(s: State, op: Op, u: Uid)
    requires Sound(s) && u in s.users && Kills(s, op, u)
    ensures Killed(Step(s, op).0, u) && Step(s, op).0.issued == s.issued && Step(s, op).0.nextToken == s.nextToken
  {
  }

  /** A refresh token revoked or removed at some moment is never exchanged afterwards. */
  lemma SpentForever(a: State, b: State, j: nat)
    requires Sound(a) && Evolves(a, b) && j < a.nextToken
    requires j in a.tokens ==> a.tokens[j].revoked
    ensures !Refresh(b, j).1.Granted?
  {
  }

  /** After a kill, in whatever happens next: no access token issued before it passes authenticate
      again, and no refresh token issued before it is exchanged again. */
  lemma KillIsForever(s: State, op: Op, u: Uid, later: seq<Op>)
    requires Sound(s) && u in s.users && Kills(s, op, u)
    ensures var end := Run(Step(s, op).0, later);
      && (forall a :: a in s.issued && a.uid == u ==> !Authenticate(end, a))
      && (forall j :: j in s.jwts && s.jwts[j].sub == u ==> !Refresh(end, j).1.Granted?)
  {
    var s1 := Step(s, op).0;
    StepSound(s, op);
    KillSpendsAll(s, op, u);
    RunSound(s1, later);
    var end := Run(s1, later);
    forall j | j in s.jwts && s.jwts[j].sub == u
      ensures !Refresh(end, j).1.Granted?
    {
      SpentForever(s1, end, j);
    }
  }

  // ---------------------------------------------------------------- rotation

  function Exchanges(s: State, ops: seq<Op>, j: nat): nat
    decreases |ops|
  {
    if ops == [] then 0
    else (if ops[0] == OpRefresh(j) && Refresh(s, j).1.Granted? then 1 else 0) + Exchanges(Step(s, ops[0]).0, ops[1..], j)
  }

  /** In every run each refresh token is exchanged at most once, and never once it is spent. */
  lemma {:induction false} ExchangedAtMostOnce(s: State, ops: seq<Op>, j: nat)
    requires Sound(s)
    ensures Exchanges(s, ops, j) <= 1
    ensures j < s.nextToken && (j in s.tokens ==> s.tokens[j].revoked) ==> Exchanges(s, ops, j) == 0
    decreases |ops|
  {
    if ops != [] {
      StepSound(s, ops[0]);
      ExchangedAtMostOnce(Step(s, ops[0]).0, ops[1..], j);
    }
  }

  ghost function Active(s: State, u: Uid): set<nat> {
    set j | j in s.tokens && s.tokens[j].userId == u && !s.tokens[j].revoked
  }

  lemma RotateActive(s: State, j: nat, u: Uid)
    requires Sound(s) && j in s.tokens && !s.tokens[j].revoked
    ensures var v := s.tokens[j].userId;
      Active(Issue(RevokeOne(s, j), v, s.users[v].tokenVersion).0, u)
      == (if u == v then Active(s, u) - {j} + {s.nextToken} else Active(s, u))
  {
  }

  /** A successful refresh swaps one active token of the family for one fresh one and leaves every
      other family alone; the access token it signs passes authenticate at once. */
  lemma RefreshRotates(s: State, j: nat, u: Uid)
    requires Sound(s) && Refresh(s, j).1.Granted?
    ensures var (s', r) := Refresh(s, j);
      && r.jti !in s.jwts && j in Active(s, s.tokens[j].userId)
      && Active(s', u) == (if u == s.tokens[j].userId then Active(s, u) - {j} + {r.jti} else Active(s, u))
      && |Active(s', u)| == |Active(s, u)|
  {
    var (s', r) := Refresh(s, j);
    RotateActive(s, j, u);
    if u == s.tokens[j].userId {
      assert j in Active(s, u) && r.jti !in Active(s, u);
    }
  }

  lemma RefreshedAccessPasses(s: State, j: nat)
    requires Sound(s) && Refresh(s, j).1.Granted? && s.accessTtl > 0
    ensures var (s', r) := Refresh(s, j); Authenticate(s', r.access) && r.access.uid == s.tokens[j].userId
  {
  }

  // ---------------------------------------------------------------- who may begin and end sessions

  /** The request may make refresh token `j` of `u` unusable: `u` ends it, a token of the family is
      presented for refresh, or the cleanup finds it expired. */
  predicate MayEnd(s: State, op: Op, u: Uid, j: nat)
    requires u in s.users
  {
    match op
    case OpRefresh(k) => k in s.tokens && s.tokens[k].userId == u
    case OpLogout(v, _) => v == u
    case OpResetPassword(v, t, _) => v == u && s.users[u].resetToken == Some(t)
    case OpChangePassword(v, p, _) => v == u && s.users[u].password == Some(p)
    case OpEnable(v, _, _) => v == u
    case OpDisable(v, p) => v == u && s.users[u].password == Some(p)
    case OpRevokeSession(v, k) => v == u && k == j
    case OpRevokeAllSessions(v) => v == u
    case OpCleanupRefreshTokens => j in s.tokens && s.tokens[j].expiresAt < s.clock
    case OpHardDelete(v) => v == u
    case _ => false
  }

  /** The request may start a session of `u`: it proves the first factor while `u` has no second one,
      or completes a challenge of `u`, or trades in an active token of `u`. */
  ghost predicate MayBegin(s: State, op: Op, u: Uid)
    requires u in s.users
  {
    match op
    case OpLogin(v, p) => v == u && Live(s, u) && s.users[u].password == Some(p) && !Locked(s.users[u], s.clock)
      && !s.users[u].twoFactorEnabled && !Barred(s.users[u], s.clock)
    case OpGoogleLogin(v) => v == u && Live(s, u) && !s.users[u].twoFactorEnabled && !Barred(s.users[u], s.clock)
    case OpVerifyChallenge(ch, code, m) => Open(s, ch) && s.challenges[ch].userId == u
      && (TotpStep(s.users[u], m).Some? || code in s.users[u].backupCodes)
    case OpRefresh(k) => k in Active(s, u) && Verifies(s, k)
    case _ => false
  }

  ghost predicate ByRight(s: State, op: Op, u: Uid)
    requires u in s.users
  {
    && (forall j :: j in Active(s, u) && j !in Active(Step(s, op).0, u) ==> MayEnd(s, op, u, j))
    && (forall j :: j in Active(Step(s, op).0, u) && j !in Active(s, u) ==> MayBegin(s, op, u))
  }

  lemma SignInsByRight(s: State, op: Op, u: Uid)
    requires Sound(s) && u in s.users && (op.OpRegister? || op.OpGoogleLogin?)
    ensures ByRight(s, op, u)
  {
  }

  lemma LoginByRight(s: State, op: Op, u: Uid)
    requires Sound(s) && u in s.users && op.OpLogin?
    ensures ByRight(s, op, u)
  {
  }

  lemma VerifyByRight(s: State, op: Op, u: Uid)
    requires Sound(s) && u in s.users && op.OpVerifyChallenge?
    ensures ByRight(s, op, u)
  {
  }

  lemma RefreshByRight(s: State, op: Op, u: Uid)
    requires Sound(s) && u in s.users && op.OpRefresh?
    ensures ByRight(s, op, u)
  {
  }

  lemma KillsByRight(s: State, op: Op, u: Uid)
    requires Sound(s) && u in s.users
    requires op.OpEnable? || op.OpDisable? || op.OpRevokeAllSessions?
    ensures ByRight(s, op, u)
  {
  }

  lemma PasswordsByRight(s: State, op: Op, u: Uid)
    requires Sound(s) && u in s.users && (op.OpResetPassword? || op.OpChangePassword?)
    ensures ByRight(s, op, u)
  {
  }

  lemma RevocationsByRight(s: State, op: Op, u: Uid)
    requires Sound(s) && u in s.users
    requires op.OpLogout? || op.OpRevokeSession? || op.OpCleanupRefreshTokens? || op.OpHardDelete?
    ensures ByRight(s, op, u)
  {
  }

  lemma OtherTokensStay(s: State, op: Op)
    requires op.OpForgotPassword? || op.OpSetup? || op.OpCleanupChallenges? || op.OpModerate? || op.OpWait?
    ensures Step(s, op).0.tokens == s.tokens
  {
  }

  /** Whatever the request, sessions of a user begin and end only by right: nobody else's request ends
      them, and with a second factor only a completed challenge or a refresh starts one. */
  lemma SessionsChangeByRight(s: State, op: Op, u: Uid)
    requires Sound(s) && u in s.users
    ensures ByRight(s, op, u)
  {
    match op
    case OpRegister(_) => SignInsByRight(s, op, u);
    case OpLogin(_, _) => LoginByRight(s, op, u);
    case OpGoogleLogin(_) => SignInsByRight(s, op, u);
    case OpVerifyChallenge(_, _, _) => VerifyByRight(s, op, u);
    case OpRefresh(_) => RefreshByRight(s, op, u);
    case OpLogout(_, _) => RevocationsByRight(s, op, u);
    case OpRevokeSession(_, _) => RevocationsByRight(s, op, u);
    case OpCleanupRefreshTokens => RevocationsByRight(s, op, u);
    case OpHardDelete(_) => RevocationsByRight(s, op, u);
    case OpResetPassword(_, _, _) => PasswordsByRight(s, op, u);
    case OpChangePassword(_, _, _) => PasswordsByRight(s, op, u);
    case OpEnable(_, _, _) => KillsByRight(s, op, u);
    case OpDisable(_, _) => KillsByRight(s, op, u);
    case OpRevokeAllSessions(_) => KillsByRight(s, op, u);
    case _ => OtherTokensStay(s, op);
  }

  // ---------------------------------------------------------------- reuse detection and the cleanup

  /** Every refresh JWT of an existing user either has its row or no longer verifies. */
  ghost predicate Traced(s: State) {
    forall j :: j in s.jwts && s.jwts[j].sub in s.users && j !in s.tokens ==> s.jwts[j].exp * 1000 <= s.clock
  }

  /** The lifetime up to which the seven-day retention of revoked rows suffices. */
  predicate ShortLived(s: State) {
    s.refreshTtl * 1000 <= TOKEN_RETENTION_MS
  }

  lemma CleanupTraced(s: State)
    requires Sound(s) && Traced(s) && ShortLived(s)
    ensures Traced(CleanupRefreshTokens(s))
  {
  }

  /** Rows of surviving users stay, and every JWT signed has its row. */
  ghost predicate KeepsRows(a: State, b: State) {
    && (forall j :: j in a.tokens && a.tokens[j].userId in b.users ==> j in b.tokens)
    && (forall j :: j in b.jwts && j !in a.jwts ==> j in b.tokens)
  }

  lemma SignInKeepsRows(s: State, op: Op)
    requires Sound(s) && (op.OpRegister? || op.OpLogin? || op.OpGoogleLogin?)
    ensures KeepsRows(s, Step(s, op).0)
  {
  }

  lemma RefreshKeepsRows(s: State, j: nat)
    requires Sound(s)
    ensures KeepsRows(s, Refresh(s, j).0)
  {
  }

  lemma VerifyKeepsRows(s: State, c: nat, code: string, m: Option<nat>)
    requires Sound(s)
    ensures KeepsRows(s, VerifyChallenge(s, c, code, m).0)
  {
  }

  lemma AccountKeepsRows(s: State, op: Op)
    requires Sound(s)
    requires op.OpForgotPassword? || op.OpResetPassword? || op.OpChangePassword? || op.OpSetup? || op.OpEnable? || op.OpDisable?
    ensures KeepsRows(s, Step(s, op).0)
  {
  }

  /** No request other than the cleanup drops the row of a token whose user stays. */
  lemma OnlyCleanupDrops(s: State, op: Op)
    requires Sound(s) && !op.OpCleanupRefreshTokens?
    ensures KeepsRows(s, Step(s, op).0)
  {
    match op
    case OpRegister(_) => SignInKeepsRows(s, op);
    case OpLogin(_, _) => SignInKeepsRows(s, op);
    case OpGoogleLogin(_) => SignInKeepsRows(s, op);
    case OpRefresh(j) => RefreshKeepsRows(s, j);
    case OpVerifyChallenge(c, code, m) => VerifyKeepsRows(s, c, code, m);
    case OpForgotPassword(_, _) => AccountKeepsRows(s, op);
    case OpResetPassword(_, _, _) => AccountKeepsRows(s, op);
    case OpChangePassword(_, _, _) => AccountKeepsRows(s, op);
    case OpSetup(_, _) => AccountKeepsRows(s, op);
    case OpEnable(_, _, _) => AccountKeepsRows(s, op);
    case OpDisable(_, _) => AccountKeepsRows(s, op);
    case _ =>
  }

  lemma StepTraced(s: State, op: Op)
    requires Sound(s) && Traced(s) && ShortLived(s)
    ensures Traced(Step(s, op).0)
  {
    StepSound(s, op);
    var s' := Step(s, op).0;
    if op.OpCleanupRefreshTokens? {
      CleanupTraced(s);
    } else {
      OnlyCleanupDrops(s, op);
      forall j | j in s'.jwts && s'.jwts[j].sub in s'.users && j !in s'.tokens
        ensures s'.jwts[j].exp * 1000 <= s'.clock
      {
        assert j in s.jwts && j !in s.tokens;
      }
    }
  }

  lemma {:induction false} RunTraced(s: State, ops: seq<Op>)
    requires Sound(s) && Traced(s) && ShortLived(s)
    ensures Traced(Run(s, ops))
    decreases |ops|
  {
    if ops != [] {
      StepTraced(s, ops[0]);
      StepSound(s, ops[0]);
      RunTraced(Step(s, ops[0]).0, ops[1..]);
    }
  }

  /** With a refresh lifetime of at most seven days, cleanup at any moments never blinds reuse
      detection: a token revoked at some point whose JWT still verifies later is found, the request
      is refused, the whole family is revoked and tokenVersion goes up. */
  lemma ReuseIsAlwaysDetected(s: State, ops: seq<Op>, j: nat)
    requires Sound(s) && Traced(s) && ShortLived(s)
    requires j in s.tokens && s.tokens[j].revoked
    ensures var now, u := Run(s, ops), s.tokens[j].userId;
      Verifies(now, j) && u in now.users ==>
        && j in now.tokens
        && Kills(now, OpRefresh(j), u)
        && Refresh(now, j).1 == Refused
        && Refresh(now, j).0.users[u].tokenVersion == now.users[u].tokenVersion + 1
        && Active(Refresh(now, j).0, u) == {}
  {
    RunSound(s, ops);
    RunTraced(s, ops);
  }

  const EMPTY := State(map[], map[], map[], 0, 0, 0, 0, 0, 0, map[], {})

  lemma RunConcat(s: State, xs: seq<Op>, ys: seq<Op>)
    ensures Run(s, xs + ys) == Run(Run(s, xs), ys)
    decreases |xs|
  {
    if xs == [] {
      assert xs + ys == ys;
    } else {
      assert (xs + ys)[1..] == xs[1..] + ys;
      RunConcat(Step(s, xs[0]).0, xs[1..], ys);
    }
  }

  lemma RunTwo(s: State, a: Op, b: Op)
    ensures Run(s, [a, b]) == Step(Step(s, a).0, b).0
  {
    assert [a, b][1..] == [b];
    assert [b][1..] == [];
    assert Run(Step(s, a).0, [b]) == Run(Step(Step(s, a).0, b).0, []);
  }

  lemma CleanedUp(s: State, ttl: nat)
    requires ttl * 1000 > TOKEN_RETENTION_MS && s.clock == 0
    requires s.tokens == map[0 := RefreshRow(0, true, ttl * 1000, 0), 1 := RefreshRow(0, false, ttl * 1000, 0)]
    ensures var now := Step(Step(s, OpWait(TOKEN_RETENTION_MS + 1)).0, OpCleanupRefreshTokens).0;
      && now == s.(clock := TOKEN_RETENTION_MS + 1, tokens := map[1 := RefreshRow(0, false, ttl * 1000, 0)])
  {
    var s3 := s.(clock := TOKEN_RETENTION_MS + 1);
    assert CleanupRefreshTokens(s3).tokens == map[1 := RefreshRow(0, false, ttl * 1000, 0)];
  }

  lemma RotatedAtOnce(ttl: nat) returns (s: State)
    requires ttl > 0
    ensures s == Step(Step(EMPTY.(refreshTtl := ttl), OpRegister(None)).0, OpRefresh(0)).0
    ensures s.tokens == map[0 := RefreshRow(0, true, ttl * 1000, 0), 1 := RefreshRow(0, false, ttl * 1000, 0)]
    ensures s.jwts == map[0 := Jwt(0, ttl), 1 := Jwt(0, ttl)]
    ensures s.users == map[0 := FRESH] && s.clock == 0 && s.refreshTtl == ttl
  {
    var s1 := Step(EMPTY.(refreshTtl := ttl), OpRegister(None)).0;
    assert Verifies(s1, 0);
    s := Step(s1, OpRefresh(0)).0;
  }

  /** With a longer lifetime the guarantee fails: rotate a token at once, let the cleanup run just
      after seven days, and the stolen token is refused without its family being revoked. */
  lemma LongLivedTokensBlindDetection(ttl: nat)
    requires ttl * 1000 > TOKEN_RETENTION_MS
    ensures Sound(EMPTY.(refreshTtl := ttl)) && Traced(EMPTY.(refreshTtl := ttl))
    ensures var now := Run(EMPTY.(refreshTtl := ttl),
        [OpRegister(None), OpRefresh(0)] + [OpWait(TOKEN_RETENTION_MS + 1), OpCleanupRefreshTokens]);
      && Verifies(now, 0) && 0 in now.users && 0 !in now.tokens
      && Refresh(now, 0) == (now, Refused) && 1 in Active(now, 0)
  {
    var s := EMPTY.(refreshTtl := ttl);
    var s2 := RotatedAtOnce(ttl);
    RunConcat(s, [OpRegister(None), OpRefresh(0)], [OpWait(TOKEN_RETENTION_MS + 1), OpCleanupRefreshTokens]);
    RunTwo(s, OpRegister(None), OpRefresh(0));
    RunTwo(s2, OpWait(TOKEN_RETENTION_MS + 1), OpCleanupRefreshTokens);
    CleanedUp(s2, ttl);
  }
}
