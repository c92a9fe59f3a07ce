/** Rate limits and single use over whole serial runs: lockout, challenge attempts, TOTP steps, backup codes. */
module AuthLimits {
  import opened Wrappers
  import opened Auth
  import opened AuthSafety

  // ---------------------------------------------------------------- lockout

  /** The request counts as a failed login of `u`. */
  predicate CountsFor(s: State, op: Op, u: Uid) {
    op.OpLogin? && op.u == u && Counts(s, u, op.password)
  }

  /** The request clears the failure count of `u`: a granted login or a verified challenge. */
  predicate Resets(s: State, op: Op, u: Uid) {
    || (op.OpLogin? && op.u == u && Step(s, op).1.Granted?)
    || (op.OpVerifyChallenge? && Step(s, op).1.Granted? && s.challenges[op.challenge].userId == u)
  }

  function Failures(s: State, ops: seq<Op>, u: Uid): nat
    decreases |ops|
  {
    if ops == [] then 0
    else (if CountsFor(s, ops[0], u) then 1 else 0) + Failures(Step(s, ops[0]).0, ops[1..], u)
  }

  predicate NeverResets(s: State, ops: seq<Op>, u: Uid)
    decreases |ops|
  {
    ops == [] || (!Resets(s, ops[0], u) && NeverResets(Step(s, ops[0]).0, ops[1..], u))
  }

  predicate SameLock(a: User, b: User) {
    a.failedLoginAttempts == b.failedLoginAttempts && a.lockedUntil == b.lockedUntil
  }

  lemma LoginLock(s: State, v: Uid, password: string, u: Uid)
    requires Sound(s) && u in s.users && !(u == v && Login(s, v, password).1.Granted?)
    ensures var usr, usr' := s.users[u], Login(s, v, password).0.users[u];
      if u == v && Counts(s, u, password) then usr' == CountFailure(ExpireLock(usr, s.clock), s.clock)
      else SameLock(usr, usr') || SameLock(ExpireLock(usr, s.clock), usr')
  {
  }

  lemma VerifyLock(s: State, ch: nat, code: string, matches: Option<nat>, u: Uid)
    requires Sound(s) && u in s.users
    requires !(VerifyChallenge(s, ch, code, matches).1.Granted? && s.challenges[ch].userId == u)
    ensures VerifyChallenge(s, ch, code, matches).0.users[u] == s.users[u]
  {
  }

  predicate SameSecondFactor(a: User, b: User) {
    a.twoFactorEnabled == b.twoFactorEnabled && a.lastTotpTimeStep == b.lastTotpTimeStep && a.backupCodes == b.backupCodes
  }

  /** Requests that work on tokens, challenges and sessions. */
  predicate OnSessions(op: Op) {
    op.OpRegister? || op.OpGoogleLogin? || op.OpLogout? || op.OpRevokeSession? || op.OpRevokeAllSessions?
    || op.OpCleanupRefreshTokens? || op.OpCleanupChallenges? || op.OpHardDelete? || op.OpWait?
  }

  lemma RefreshKeepsRow(s: State, j: nat, u: Uid)
    requires u in s.users
    ensures SameLock(s.users[u], Refresh(s, j).0.users[u]) && SameSecondFactor(s.users[u], Refresh(s, j).0.users[u])
  {
  }

  lemma SignInsKeepRow(s: State, op: Op, u: Uid)
    requires Sound(s) && u in s.users && (op.OpRegister? || op.OpGoogleLogin?)
    ensures u in Step(s, op).0.users && Step(s, op).0.users[u] == s.users[u]
  {
    if op.OpRegister? {
      assert u != s.nextUser;
    }
  }

  lemma SessionOpsKeepRow(s: State, op: Op, u: Uid)
    requires u in s.users && u in Step(s, op).0.users && OnSessions(op) && !op.OpRegister? && !op.OpGoogleLogin?
    ensures SameLock(s.users[u], Step(s, op).0.users[u]) && SameSecondFactor(s.users[u], Step(s, op).0.users[u])
  {
  }

  predicate Succeeds(s: State, op: Op, u: Uid) {
    Step(s, op).1.Done? && (op.OpDisable? || op.OpEnable?) && op.u == u
  }

  lemma KillOpsKeepRow(s: State, op: Op, u: Uid)
    requires u in s.users && u in Step(s, op).0.users
    requires op.OpResetPassword? || op.OpChangePassword? || op.OpEnable? || op.OpDisable?
    ensures SameLock(s.users[u], Step(s, op).0.users[u])
    ensures !Succeeds(s, op, u) ==> SameSecondFactor(s.users[u], Step(s, op).0.users[u])
  {
  }

  lemma ColumnOpsKeepRow(s: State, op: Op, u: Uid)
    requires u in s.users && u in Step(s, op).0.users && (op.OpForgotPassword? || op.OpSetup? || op.OpModerate?)
    ensures SameLock(s.users[u], Step(s, op).0.users[u]) && SameSecondFactor(s.users[u], Step(s, op).0.users[u])
  {
  }

  lemma OtherOpsKeepRow(s: State, op: Op, u: Uid)
    requires Sound(s) && u in s.users && u in Step(s, op).0.users && !op.OpLogin? && !op.OpVerifyChallenge?
    ensures SameLock(s.users[u], Step(s, op).0.users[u])
    ensures !Succeeds(s, op, u) ==> SameSecondFactor(s.users[u], Step(s, op).0.users[u])
  {
    if op.OpRefresh? {
      RefreshKeepsRow(s, op.jti, u);
    } else if op.OpRegister? || op.OpGoogleLogin? {
      SignInsKeepRow(s, op, u);
    } else if OnSessions(op) {
      SessionOpsKeepRow(s, op, u);
    } else if op.OpForgotPassword? || op.OpSetup? || op.OpModerate? {
      ColumnOpsKeepRow(s, op, u);
    } else {
      KillOpsKeepRow(s, op, u);
    }
  }

  /** What a request that does not reset may do to the two lockout columns. */
  lemma LockColumns(s: State, op: Op, u: Uid)
    requires Sound(s) && u in s.users && u in Step(s, op).0.users && !Resets(s, op, u)
    ensures var usr, usr' := s.users[u], Step(s, op).0.users[u];
      if CountsFor(s, op, u) then usr' == CountFailure(ExpireLock(usr, s.clock), s.clock)
      else SameLock(usr, usr') || SameLock(ExpireLock(usr, s.clock), usr')
  {
    if op.OpLogin? {
      LoginLock(s, op.u, op.password, u);
    } else if op.OpVerifyChallenge? {
      VerifyLock(s, op.challenge, op.code, op.matches, u);
    } else {
      OtherOpsKeepRow(s, op, u);
    }
  }

  /** `failures` counted since `start`, and `locks` completed or running lock periods since then. */
  predicate Budget(usr: User, now: nat, start: nat, failures: nat, locks: nat) {
    match usr.lockedUntil
    case None => failures <= 5 * locks + usr.failedLoginAttempts && start + locks * LOCK_DURATION_MS <= now
    case Some(until) => failures <= 5 * locks && (locks > 0 ==> start + locks * LOCK_DURATION_MS <= until <= now + LOCK_DURATION_MS)
  }

  /** What a request may do to the lockout columns keeps the budget. */
  lemma ColumnsBudget(usr: User, usr': User, counts: bool, now: nat, now': nat, start: nat, failures: nat, locks: nat)
    returns (locks': nat)
    requires LockSound(usr) && start <= now <= now' && (counts ==> !Locked(usr, now))
    requires Budget(usr, now, start, failures, locks)
    requires if counts then SameLock(CountFailure(ExpireLock(usr, now), now), usr')
             else SameLock(usr, usr') || SameLock(ExpireLock(usr, now), usr')
    ensures Budget(usr', now', start, failures + (if counts then 1 else 0), locks')
  {
    locks' := locks;
    if counts && usr'.lockedUntil.Some? {
      locks' := locks + 1;
    }
  }

  lemma ClockForward(s: State, op: Op)
    ensures s.clock <= Step(s, op).0.clock
  {
  }

  lemma StepBudget(s: State, op: Op, u: Uid, start: nat, failures: nat, locks: nat) returns (locks': nat)
    requires Sound(s) && u in s.users && u in Step(s, op).0.users && !Resets(s, op, u) && start <= s.clock
    requires Budget(s.users[u], s.clock, start, failures, locks)
    ensures var s' := Step(s, op).0;
      start <= s'.clock && Budget(s'.users[u], s'.clock, start, failures + (if CountsFor(s, op, u) then 1 else 0), locks')
  {
    LockColumns(s, op, u);
    ClockForward(s, op);
    locks' := ColumnsBudget(s.users[u], Step(s, op).0.users[u], CountsFor(s, op, u), s.clock, Step(s, op).0.clock, start, failures, locks);
  }

  /** A budget bounds the failures by the started lock periods. */
  lemma BudgetBounds(usr: User, now: nat, start: nat, failures: nat, locks: nat)
    requires LockSound(usr) && start <= now && Budget(usr, now, start, failures, locks)
    ensures failures <= 5 * (1 + (now - start) / LOCK_DURATION_MS)
  {
  }

  /** The user is there at the end, so it was there all along. */
  lemma UserStays(s: State, op: Op, rest: seq<Op>, u: Uid)
    requires Sound(s) && u in s.users && u in Run(Step(s, op).0, rest).users
    ensures Sound(Step(s, op).0) && u in Step(s, op).0.users
  {
    StepSound(s, op);
    RunSound(Step(s, op).0, rest);
  }

  lemma {:induction false} RunBudget(s: State, ops: seq<Op>, u: Uid, start: nat, failures: nat, locks: nat)
    requires Sound(s) && u in s.users && u in Run(s, ops).users && NeverResets(s, ops, u) && start <= s.clock
    requires Budget(s.users[u], s.clock, start, failures, locks)
    ensures start <= Run(s, ops).clock
    ensures failures + Failures(s, ops, u) <= 5 * (1 + (Run(s, ops).clock - start) / LOCK_DURATION_MS)
    decreases |ops|
  {
    if ops == [] {
      BudgetBounds(s.users[u], s.clock, start, failures, locks);
    } else {
      UserStays(s, ops[0], ops[1..], u);
      var locks' := StepBudget(s, ops[0], u, start, failures, locks);
      RunBudget(Step(s, ops[0]).0, ops[1..], u, start, failures + (if CountsFor(s, ops[0], u) then 1 else 0), locks');
    }
  }

  /** Lockout rate bound: while nothing resets the count of `u`, the failed logins counted between
      two moments are at most five for each started lock period between them. */
  lemma LockoutRateBound(s: State, ops: seq<Op>, u: Uid)
    requires Sound(s) && u in s.users && u in Run(s, ops).users && NeverResets(s, ops, u)
    ensures s.clock <= Run(s, ops).clock
    ensures Failures(s, ops, u) <= 5 * (1 + (Run(s, ops).clock - s.clock) / LOCK_DURATION_MS)
  {
    RunBudget(s, ops, u, s.clock, 0, 0);
  }

  // ---------------------------------------------------------------- accounts without a password

  /** Every login on an unlocked account without a password counts toward lockout. */
  lemma PasswordlessCounts(s: State, u: Uid, password: string)
    requires u in s.users && s.users[u].password == None
    ensures Counts(s, u, password) <==> Live(s, u) && !Locked(s.users[u], s.clock)
  {
  }

  function Logins(u: Uid, passwords: seq<string>): seq<Op> {
    if passwords == [] then [] else [OpLogin(u, passwords[0])] + Logins(u, passwords[1..])
  }

  lemma FailureCounts(s: State, u: Uid, passwords: seq<string>)
    requires Live(s, u) && s.users[u].lockedUntil == None
    requires passwords != [] && s.users[u].password != Some(passwords[0])
    ensures Run(s, Logins(u, passwords)) == Run(WithUser(s, u, CountFailure(s.users[u], s.clock)), Logins(u, passwords[1..]))
  {
    var ops := Logins(u, passwords);
    assert ops[0] == OpLogin(u, passwords[0]) && ops[1..] == Logins(u, passwords[1..]);
    assert Login(s, u, passwords[0]).0 == WithUser(s, u, CountFailure(s.users[u], s.clock));
  }

  /** The row after `n` more counted failures. */
  function Failed(usr: User, n: nat, now: nat): User {
    var count := usr.failedLoginAttempts + n;
    usr.(failedLoginAttempts := count,
         lockedUntil := if count >= MAX_FAILED_ATTEMPTS then Some(now + LOCK_DURATION_MS) else usr.lockedUntil)
  }

  /** Wrong logins in a row from an unlocked account: each counts, and the fifth locks. */
  lemma {:induction false} FailuresLock(s: State, u: Uid, passwords: seq<string>)
    requires Live(s, u) && s.users[u].lockedUntil == None
    requires 0 < |passwords| && s.users[u].failedLoginAttempts + |passwords| <= MAX_FAILED_ATTEMPTS
    requires forall i :: 0 <= i < |passwords| ==> s.users[u].password != Some(passwords[i])
    ensures Run(s, Logins(u, passwords)) == WithUser(s, u, Failed(s.users[u], |passwords|, s.clock))
    decreases |passwords|
  {
    var usr, rest := CountFailure(s.users[u], s.clock), passwords[1..];
    FailureCounts(s, u, passwords);
    if rest == [] {
      assert Logins(u, rest) == [];
    } else {
      FailuresLock(WithUser(s, u, usr), u, rest);
      assert Failed(usr, |rest|, s.clock) == Failed(s.users[u], |passwords|, s.clock);
    }
  }

  /** So five logins, whatever the passwords, lock a fresh account created through Google. */
  lemma PasswordlessLocks(s: State, passwords: seq<string>)
    requires |passwords| == MAX_FAILED_ATTEMPTS
    ensures var created := Register(s, None).0;
      var end := Run(created, Logins(s.nextUser, passwords));
      s.nextUser in end.users && end.users[s.nextUser].lockedUntil == Some(s.clock + LOCK_DURATION_MS)
  {
    FailuresLock(Register(s, None).0, s.nextUser, passwords);
  }

  // ---------------------------------------------------------------- second factor: what one request does

  /** The request completes a login of `u` through a challenge. */
  predicate Verifies2FA(s: State, op: Op, u: Uid) {
    op.OpVerifyChallenge? && Step(s, op).1.Granted? && s.challenges[op.challenge].userId == u
  }

  function AcceptedStep(s: State, op: Op, u: Uid): Option<nat> {
    if Verifies2FA(s, op, u) && u in s.users then TotpStep(s.users[u], op.matches) else None
  }

  function AcceptedCode(s: State, op: Op, u: Uid): Option<string> {
    if Verifies2FA(s, op, u) && AcceptedStep(s, op, u).None? then Some(op.code) else None
  }

  lemma VerifyColumns(s: State, op: Op, u: Uid)
    requires Sound(s) && u in s.users && op.OpVerifyChallenge?
    ensures var usr, usr' := s.users[u], Step(s, op).0.users[u];
      var step, code := AcceptedStep(s, op, u), AcceptedCode(s, op, u);
      && usr'.twoFactorEnabled == usr.twoFactorEnabled
      && usr'.lastTotpTimeStep == (if step.Some? then step else usr.lastTotpTimeStep)
      && usr'.backupCodes == (if code.Some? then Without(usr.backupCodes, code.value) else usr.backupCodes)
      && (step.Some? && usr.lastTotpTimeStep.Some? ==> usr.lastTotpTimeStep.value < step.value)
      && (code.Some? ==> code.value in usr.backupCodes)
  {
  }

  lemma LoginKeepsSecondFactor(s: State, v: Uid, password: string, u: Uid)
    requires u in s.users
    ensures SameSecondFactor(s.users[u], Login(s, v, password).0.users[u])
  {
    if Live(s, v) {
      var s1 := WithUser(s, v, ExpireLock(s.users[v], s.clock));
      assert CreateChallenge(s1, v).0.users == s1.users;
    }
  }

  lemma OtherColumns(s: State, op: Op, u: Uid)
    requires Sound(s) && u in s.users && u in Step(s, op).0.users
    requires !op.OpVerifyChallenge? && !Succeeds(s, op, u)
    ensures SameSecondFactor(s.users[u], Step(s, op).0.users[u])
  {
    if op.OpLogin? {
      LoginKeepsSecondFactor(s, op.u, op.password, u);
    } else {
      OtherOpsKeepRow(s, op, u);
    }
  }

  // ---------------------------------------------------------------- TOTP time steps

  /** No disable of `u` succeeds along the run, and the user row stays. */
  predicate StaysEnrolled(s: State, ops: seq<Op>, u: Uid)
    decreases |ops|
  {
    && u in s.users
    && (ops == [] || (!(ops[0].OpDisable? && Succeeds(s, ops[0], u)) && StaysEnrolled(Step(s, ops[0]).0, ops[1..], u)))
  }

  function AcceptedSteps(s: State, ops: seq<Op>, u: Uid): seq<nat>
    decreases |ops|
  {
    if ops == [] then []
    else (match AcceptedStep(s, ops[0], u) case Some(t) => [t] case None => []) + AcceptedSteps(Step(s, ops[0]).0, ops[1..], u)
  }

  ghost predicate StrictlyIncreasing(a: seq<nat>) {
    forall i, j :: 0 <= i < j < |a| ==> a[i] < a[j]
  }

  lemma StepColumns(s: State, op: Op, u: Uid)
    requires Sound(s) && u in s.users && u in Step(s, op).0.users && !(op.OpDisable? && Succeeds(s, op, u))
    ensures var usr, usr' := s.users[u], Step(s, op).0.users[u];
      var step := AcceptedStep(s, op, u);
      && usr'.lastTotpTimeStep == (if step.Some? then step else usr.lastTotpTimeStep)
      && (step.Some? && usr.lastTotpTimeStep.Some? ==> usr.lastTotpTimeStep.value < step.value)
      && (usr.twoFactorEnabled ==> usr'.twoFactorEnabled)
  {
    if op.OpVerifyChallenge? {
      VerifyColumns(s, op, u);
    } else if !Succeeds(s, op, u) {
      OtherColumns(s, op, u);
    }
  }

  /** Between one disable and the next, the time steps accepted for a user strictly increase, so no
      code is accepted twice within its window. */
  lemma {:induction false} TotpStepsIncrease(s: State, ops: seq<Op>, u: Uid)
    requires Sound(s) && StaysEnrolled(s, ops, u)
    ensures var steps := AcceptedSteps(s, ops, u);
      && StrictlyIncreasing(steps)
      && (forall i :: 0 <= i < |steps| && s.users[u].lastTotpTimeStep.Some? ==> s.users[u].lastTotpTimeStep.value < steps[i])
    decreases |ops|
  {
    if ops != [] {
      StepSound(s, ops[0]);
      StepColumns(s, ops[0], u);
      TotpStepsIncrease(Step(s, ops[0]).0, ops[1..], u);
    }
  }

  // ---------------------------------------------------------------- backup codes

  function AcceptedCodes(s: State, ops: seq<Op>, u: Uid): seq<string>
    decreases |ops|
  {
    if ops == [] then []
    else (match AcceptedCode(s, ops[0], u) case Some(c) => [c] case None => []) + AcceptedCodes(Step(s, ops[0]).0, ops[1..], u)
  }

  ghost predicate NoRepeats(a: seq<string>) {
    forall i, j :: 0 <= i < j < |a| ==> a[i] != a[j]
  }

  lemma {:induction false} WithoutAbsent(codes: seq<string>, c: string)
    requires c !in codes
    ensures Without(codes, c) == codes
  {
    if codes != [] {
      WithoutAbsent(codes[1..], c);
    }
  }

  lemma {:induction false} WithoutSubset(codes: seq<string>, c: string)
    ensures forall x :: x in Without(codes, c) ==> x in codes && x != c
  {
    if codes != [] {
      WithoutSubset(codes[1..], c);
      assert codes == [codes[0]] + codes[1..];
    }
  }

  lemma {:induction false} WithoutOne(codes: seq<string>, c: string)
    requires NoRepeats(codes) && c in codes
    ensures NoRepeats(Without(codes, c))
    ensures multiset(codes) == multiset(Without(codes, c)) + multiset{c}
  {
    var head, tail := codes[0], codes[1..];
    assert codes == [head] + tail;
    if head == c {
      assert c !in tail;
      WithoutAbsent(tail, c);
      assert Without(codes, c) == tail;
    } else {
      WithoutOne(tail, c);
      WithoutSubset(tail, c);
      assert Without(codes, c) == [head] + Without(tail, c);
      assert head !in tail;
    }
  }

  lemma StepConserves(s: State, op: Op, u: Uid)
    requires Sound(s) && u in s.users && u in Step(s, op).0.users && !(op.OpDisable? && Succeeds(s, op, u))
    requires s.users[u].twoFactorEnabled && NoRepeats(s.users[u].backupCodes)
    ensures var usr, usr' := s.users[u], Step(s, op).0.users[u];
      var code := AcceptedCode(s, op, u);
      && usr'.twoFactorEnabled && NoRepeats(usr'.backupCodes)
      && multiset(usr.backupCodes) == multiset(usr'.backupCodes) + (if code.Some? then multiset{code.value} else multiset{})
  {
    if op.OpVerifyChallenge? {
      VerifyColumns(s, op, u);
      if AcceptedCode(s, op, u).Some? {
        WithoutOne(s.users[u].backupCodes, op.code);
      }
    } else {
      OtherColumns(s, op, u);
    }
  }

  /** Backup codes are conserved: what was there is what remains plus what was accepted. */
  lemma {:induction false} BackupCodesConserved(s: State, ops: seq<Op>, u: Uid)
    requires Sound(s) && StaysEnrolled(s, ops, u)
    requires s.users[u].twoFactorEnabled && NoRepeats(s.users[u].backupCodes)
    ensures u in Run(s, ops).users
    ensures multiset(s.users[u].backupCodes) == multiset(Run(s, ops).users[u].backupCodes) + multiset(AcceptedCodes(s, ops, u))
    decreases |ops|
  {
    if ops != [] {
      StepSound(s, ops[0]);
      StepConserves(s, ops[0], u);
      BackupCodesConserved(Step(s, ops[0]).0, ops[1..], u);
    }
  }

  lemma {:induction false} OnceEach(a: seq<string>, c: string)
    requires NoRepeats(a)
    ensures multiset(a)[c] <= 1
  {
    if c in a {
      WithoutOne(a, c);
      WithoutSubset(a, c);
      assert c !in multiset(Without(a, c));
    }
  }

  /** A sequence that repeats an element holds it at least twice. */
  lemma RepeatIsTwice(a: seq<string>, i: nat, j: nat)
    requires i < j < |a| && a[i] == a[j]
    ensures multiset(a)[a[i]] >= 2
  {
    assert a == a[..j] + ([a[j]] + a[j + 1..]);
    assert a[..j][i] == a[i];
    assert multiset(a)[a[i]] == multiset(a[..j])[a[i]] + multiset([a[j]] + a[j + 1..])[a[i]];
    assert ([a[j]] + a[j + 1..])[0] == a[i];
  }

  /** Splitting a sequence without repeats into two leaves two disjoint parts without repeats. */
  lemma SplitOnce(whole: seq<string>, left: seq<string>, right: seq<string>)
    requires NoRepeats(whole) && multiset(whole) == multiset(left) + multiset(right)
    ensures |whole| == |left| + |right| && NoRepeats(right)
    ensures forall c :: c in right ==> c in whole && c !in left
  {
    assert |multiset(whole)| == |whole| && |multiset(left)| == |left| && |multiset(right)| == |right|;
    forall c
      ensures multiset(left)[c] + multiset(right)[c] <= 1
      ensures c in right ==> multiset(right)[c] > 0 && c in whole
      ensures c in left ==> multiset(left)[c] > 0
    {
      assert c in multiset(right) ==> c in multiset(whole);
      OnceEach(whole, c);
    }
    forall i, j | 0 <= i < j < |right|
      ensures right[i] != right[j]
    {
      if right[i] == right[j] {
        RepeatIsTwice(right, i, j);
      }
    }
  }

  /** After enable with ten distinct codes and until a disable, remaining plus accepted codes are
      ten, every accepted code is one of the ten, and none is accepted twice. */
  lemma TenBackupCodes(s: State, u: Uid, codes: seq<string>, ops: seq<Op>)
    requires Sound(s) && Enable(s, u, true, codes).1.Done? && |codes| == 10 && NoRepeats(codes)
    requires StaysEnrolled(Enable(s, u, true, codes).0, ops, u)
    ensures var s1 := Enable(s, u, true, codes).0;
      var accepted := AcceptedCodes(s1, ops, u);
      && u in Run(s1, ops).users
      && |Run(s1, ops).users[u].backupCodes| + |accepted| == 10
      && (forall c :: c in accepted ==> c in codes && c !in Run(s1, ops).users[u].backupCodes)
      && NoRepeats(accepted)
  {
    var s1 := Enable(s, u, true, codes).0;
    StepSound(s, OpEnable(u, true, codes));
    assert s1.users[u].backupCodes == codes && s1.users[u].twoFactorEnabled;
    BackupCodesConserved(s1, ops, u);
    SplitOnce(codes, Run(s1, ops).users[u].backupCodes, AcceptedCodes(s1, ops, u));
  }

  // ---------------------------------------------------------------- challenge attempts, serially

  function WrongCodes(s: State, ops: seq<Op>, ch: nat): nat
    decreases |ops|
  {
    if ops == [] then 0
    else (if ops[0].OpVerifyChallenge? && ops[0].challenge == ch && Step(s, ops[0]).1.WrongCode? then 1 else 0)
         + WrongCodes(Step(s, ops[0]).0, ops[1..], ch)
  }

  function Sessions(s: State, ops: seq<Op>, ch: nat): nat
    decreases |ops|
  {
    if ops == [] then 0
    else (if ops[0].OpVerifyChallenge? && ops[0].challenge == ch && Step(s, ops[0]).1.Granted? then 1 else 0)
         + Sessions(Step(s, ops[0]).0, ops[1..], ch)
  }

  /** The wrong codes and sessions a challenge may still see. */
  function WrongLeft(s: State, ch: nat): nat {
    if ch in s.challenges && s.challenges[ch].attempts < MAX_CHALLENGE_ATTEMPTS
    then MAX_CHALLENGE_ATTEMPTS - s.challenges[ch].attempts
    else if ch in s.challenges || ch < s.nextChallenge then 0 else MAX_CHALLENGE_ATTEMPTS
  }

  function SessionsLeft(s: State, ch: nat): nat {
    if ch in s.challenges then (if s.challenges[ch].used then 0 else 1)
    else if ch < s.nextChallenge then 0 else 1
  }

  lemma SessionOpsSpend(s: State, op: Op, ch: nat)
    requires Sound(s) && OnSessions(op)
    ensures var s' := Step(s, op).0;
      WrongLeft(s', ch) <= WrongLeft(s, ch) && SessionsLeft(s', ch) <= SessionsLeft(s, ch)
  {
  }

  lemma AccountOpsSpend(s: State, op: Op)
    requires !OnSessions(op) && !op.OpLogin? && !op.OpVerifyChallenge?
    ensures Step(s, op).0.challenges == s.challenges && Step(s, op).0.nextChallenge == s.nextChallenge
  {
  }

  lemma VerifySpends(s: State, c: nat, code: string, matches: Option<nat>, ch: nat)
    requires Sound(s)
    ensures var (s', r) := VerifyChallenge(s, c, code, matches);
      && WrongLeft(s', ch) + (if c == ch && r.WrongCode? then 1 else 0) <= WrongLeft(s, ch)
      && SessionsLeft(s', ch) + (if c == ch && r.Granted? then 1 else 0) <= SessionsLeft(s, ch)
  {
  }

  lemma LoginSpends(s: State, u: Uid, password: string, ch: nat)
    requires Sound(s)
    ensures var s' := Login(s, u, password).0;
      WrongLeft(s', ch) <= WrongLeft(s, ch) && SessionsLeft(s', ch) <= SessionsLeft(s, ch)
  {
  }

  lemma ChallengeSpends(s: State, op: Op, ch: nat)
    requires Sound(s)
    ensures var (s', r) := Step(s, op);
      var mine := op.OpVerifyChallenge? && op.challenge == ch;
      && WrongLeft(s', ch) + (if mine && r.WrongCode? then 1 else 0) <= WrongLeft(s, ch)
      && SessionsLeft(s', ch) + (if mine && r.Granted? then 1 else 0) <= SessionsLeft(s, ch)
  {
    if op.OpVerifyChallenge? {
      VerifySpends(s, op.challenge, op.code, op.matches, ch);
    } else if op.OpLogin? {
      LoginSpends(s, op.u, op.password, ch);
    } else if OnSessions(op) {
      SessionOpsSpend(s, op, ch);
    } else {
      AccountOpsSpend(s, op);
    }
  }

  /** In every serial run a challenge sees at most five wrong codes and yields at most one session. */
  lemma {:induction false} ChallengeIsCapped(s: State, ops: seq<Op>, ch: nat)
    requires Sound(s)
    ensures WrongCodes(s, ops, ch) <= WrongLeft(s, ch) <= MAX_CHALLENGE_ATTEMPTS
    ensures Sessions(s, ops, ch) <= SessionsLeft(s, ch) <= 1
    decreases |ops|
  {
    if ops != [] {
      StepSound(s, ops[0]);
      ChallengeSpends(s, ops[0], ch);
      ChallengeIsCapped(Step(s, ops[0]).0, ops[1..], ch);
    }
  }
}
