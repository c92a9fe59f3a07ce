/**
 Concurrent verifyChallenge requests for one login challenge, split at their database calls.
 A run is any schedule of statements, so every interleaving is covered.
 */
module ChallengeRace {
  import opened Wrappers
  import opened Auth

  datatype Row = Row(used: bool, attempts: nat, expiresAt: nat)

  /** Where a request stands. `ok` is whether its code, once looked at, is right; `barred` whether
      its user is deleted, banned or suspended when the row is read. */
  datatype Pc =
    | Reading(ok: bool, barred: bool)
    | Expiring
    | Failing
    | Claiming
    | Issuing
    | Failed
    | Rejected
    | Session

  datatype Sys = Sys(row: Option<Row>, reqs: seq<Pc>, clock: nat)

  datatype Action =
    | Arrive(ok: bool, barred: bool)
    | Exec(r: nat)
    | CleanupChallenges
    | Wait(ms: nat)

  /** findUnique and the checks on what it returned. */
  function AfterRead(row: Option<Row>, ok: bool, barred: bool, now: nat): Pc {
    if row.None? || row.value.used || row.value.attempts >= MAX_CHALLENGE_ATTEMPTS then Rejected
    else if row.value.expiresAt < now then Expiring
    else if barred then Rejected
    else if ok then Claiming
    else Failing
  }

  function Goto(s: Sys, r: nat, pc: Pc): Sys
    requires r < |s.reqs|
  {
    s.(reqs := s.reqs[r := pc])
  }

  function Advance(s: Sys, r: nat): Sys
    requires r < |s.reqs|
  {
    match s.reqs[r]
    case Reading(ok, barred) => Goto(s, r, AfterRead(s.row, ok, barred, s.clock))
    case Expiring => Goto(s, r, Rejected).(row := None)
    case Failing =>
      // An update of a deleted row fails.
      if s.row.None? then Goto(s, r, Rejected)
      else Goto(s, r, Failed).(row := Some(s.row.value.(attempts := s.row.value.attempts + 1)))
    case Claiming =>
      // updateMany where used is false: one winner.
      if s.row.Some? && !s.row.value.used then Goto(s, r, Issuing).(row := Some(s.row.value.(used := true)))
      else Goto(s, r, Rejected)
    case Issuing => Goto(s, r, Session)
    case _ => s
  }

  function Step(s: Sys, a: Action): Sys {
    match a
    case Arrive(ok, barred) => s.(reqs := s.reqs + [Reading(ok, barred)])
    case Exec(r) => if r < |s.reqs| then Advance(s, r) else s
    case CleanupChallenges => if s.row.Some? && s.row.value.expiresAt < s.clock then s.(row := None) else s
    case Wait(ms) => s.(clock := s.clock + ms)
  }

  function Run(s: Sys, schedule: seq<Action>): Sys
    decreases |schedule|
  {
    if schedule == [] then s else Run(Step(s, schedule[0]), schedule[1..])
  }

  // ---------------------------------------------------------------- one winner, exact count

  ghost function Winners(reqs: seq<Pc>): set<nat> {
    set r | 0 <= r < |reqs| && (reqs[r].Issuing? || reqs[r].Session?)
  }

  ghost function Losers(reqs: seq<Pc>): set<nat> {
    set r | 0 <= r < |reqs| && reqs[r].Failed?
  }

  /** `base` is the attempts recorded before any of these requests. */
  ghost predicate Inv(s: Sys, base: nat) {
    && |Winners(s.reqs)| <= 1
    && (s.row.Some? && !s.row.value.used ==> Winners(s.reqs) == {})
    && (s.row.Some? ==> s.row.value.attempts == base + |Losers(s.reqs)|)
  }

  lemma MoveSets(reqs: seq<Pc>, r: nat, pc: Pc)
    requires r < |reqs| && !reqs[r].Failed? && !reqs[r].Session?
    ensures Winners(reqs[r := pc]) == if pc.Issuing? || pc.Session? then Winners(reqs) + {r} else Winners(reqs) - {r}
    ensures Losers(reqs[r := pc]) == if pc.Failed? then Losers(reqs) + {r} else Losers(reqs)
    ensures reqs[r].Issuing? ==> r in Winners(reqs)
    ensures !reqs[r].Issuing? ==> r !in Winners(reqs)
    ensures r !in Losers(reqs)
  {
  }

  /** A move that neither wins nor fails. */
  lemma NeutralMove(s: Sys, s': Sys, r: nat, pc: Pc, base: nat)
    requires Inv(s, base) && r < |s.reqs| && !s.reqs[r].Failed? && !s.reqs[r].Session? && !pc.Failed?
    requires s.reqs[r].Issuing? <==> pc.Session? || pc.Issuing?
    requires s'.reqs == s.reqs[r := pc] && (s'.row == s.row || s'.row == None)
    ensures Inv(s', base)
  {
    MoveSets(s.reqs, r, pc);
    assert Winners(s'.reqs) == Winners(s.reqs);
  }

  lemma FailMove(s: Sys, r: nat, base: nat)
    requires Inv(s, base) && r < |s.reqs| && s.reqs[r].Failing? && s.row.Some?
    ensures Inv(Advance(s, r), base)
  {
    MoveSets(s.reqs, r, Failed);
    assert Winners(Advance(s, r).reqs) == Winners(s.reqs);
  }

  lemma WinMove(s: Sys, r: nat, base: nat)
    requires Inv(s, base) && r < |s.reqs| && s.reqs[r].Claiming? && s.row.Some? && !s.row.value.used
    ensures Inv(Advance(s, r), base)
  {
    MoveSets(s.reqs, r, Issuing);
    assert Winners(Advance(s, r).reqs) == {r};
  }

  lemma AdvanceInv(s: Sys, r: nat, base: nat)
    requires Inv(s, base) && r < |s.reqs| && !s.reqs[r].Failed? && !s.reqs[r].Session? && !s.reqs[r].Rejected?
    ensures Inv(Advance(s, r), base)
  {
    var s' := Advance(s, r);
    if s.reqs[r].Failing? && s.row.Some? {
      FailMove(s, r, base);
    } else if s.reqs[r].Claiming? && s.row.Some? && !s.row.value.used {
      WinMove(s, r, base);
    } else {
      NeutralMove(s, s', r, s'.reqs[r], base);
    }
  }

  lemma StepInv(s: Sys, a: Action, base: nat)
    requires Inv(s, base)
    ensures Inv(Step(s, a), base)
  {
    match a
    case Arrive(ok, barred) =>
      var reqs' := s.reqs + [Reading(ok, barred)];
      assert Winners(reqs') == Winners(s.reqs) && Losers(reqs') == Losers(s.reqs);
    case Exec(r) =>
      if r < |s.reqs| && !s.reqs[r].Failed? && !s.reqs[r].Session? && !s.reqs[r].Rejected? {
        AdvanceInv(s, r, base);
      }
    case CleanupChallenges =>
    case Wait(_) =>
  }

  lemma OneMember(w: set<nat>, i: nat, j: nat)
    requires |w| <= 1 && i in w && j in w
    ensures i == j
  {
    assert |w - {i}| == |w| - 1;
    assert w - {i} == {};
  }

  /** In every interleaving of requests, cleanups and waits: at most one session comes out of the
      challenge, none while it is unclaimed, and no failed attempt goes unrecorded. */
  lemma {:induction false} AtMostOneSession(s: Sys, schedule: seq<Action>, base: nat)
    requires Inv(s, base)
    ensures Inv(Run(s, schedule), base)
    ensures forall i, j | 0 <= i < |Run(s, schedule).reqs| && 0 <= j < |Run(s, schedule).reqs|
              && Run(s, schedule).reqs[i].Session? && Run(s, schedule).reqs[j].Session? :: i == j
    decreases |schedule|
  {
    if schedule != [] {
      StepInv(s, schedule[0], base);
      AtMostOneSession(Step(s, schedule[0]), schedule[1..], base);
    } else {
      forall i, j | 0 <= i < |s.reqs| && 0 <= j < |s.reqs| && s.reqs[i].Session? && s.reqs[j].Session?
        ensures i == j
      {
        OneMember(Winners(s.reqs), i, j);
      }
    }
  }

  /** The same from the moment the challenge is created. */
  lemma OneSessionPerChallenge(expiresAt: nat, clock: nat, schedule: seq<Action>)
    ensures var end := Run(Sys(Some(Row(false, 0, expiresAt)), [], clock), schedule);
      && (forall i, j | 0 <= i < |end.reqs| && 0 <= j < |end.reqs| && end.reqs[i].Session? && end.reqs[j].Session? :: i == j)
      && (end.row.Some? ==> end.row.value.attempts == |Losers(end.reqs)|)
      && (end.row.Some? && !end.row.value.used ==> forall i :: 0 <= i < |end.reqs| ==> !end.reqs[i].Session?)
  {
    var start := Sys(Some(Row(false, 0, expiresAt)), [], clock);
    AtMostOneSession(start, schedule, 0);
    var end := Run(start, schedule);
    if end.row.Some? && !end.row.value.used {
      assert forall i :: 0 <= i < |end.reqs| && end.reqs[i].Session? ==> i in Winners(end.reqs);
    }
  }

  // ---------------------------------------------------------------- the attempt cap

  predicate Capped(row: Option<Row>) {
    row.None? || row.value.attempts >= MAX_CHALLENGE_ATTEMPTS
  }

  /** Past the gate: its code is, or was, looked at. */
  predicate Evaluated(pc: Pc) {
    pc.Failing? || pc.Failed? || pc.Claiming? || pc.Issuing? || pc.Session?
  }

  lemma StepCapped(s: Sys, a: Action)
    requires Capped(s.row)
    ensures Capped(Step(s, a).row) && |s.reqs| <= |Step(s, a).reqs|
    ensures forall r :: 0 <= r < |Step(s, a).reqs| && Evaluated(Step(s, a).reqs[r]) ==> r < |s.reqs| && Evaluated(s.reqs[r])
  {
  }

  /** Once five failures are recorded (or the row is gone), no request that has not read the row yet
      ever has its code evaluated, so none of them yields a session. */
  lemma {:induction false} NothingEvaluatedAfterCap(s: Sys, schedule: seq<Action>)
    requires Capped(s.row)
    ensures var s' := Run(s, schedule);
      && |s.reqs| <= |s'.reqs|
      && (forall r :: 0 <= r < |s'.reqs| && Evaluated(s'.reqs[r]) ==> r < |s.reqs| && Evaluated(s.reqs[r]))
    decreases |schedule|
  {
    if schedule != [] {
      StepCapped(s, schedule[0]);
      NothingEvaluatedAfterCap(Step(s, schedule[0]), schedule[1..]);
    }
  }

  // ---------------------------------------------------------------- one request alone

  function RowOf(s: State, ch: nat): Option<Row> {
    if ch in s.challenges then Some(Row(s.challenges[ch].used, s.challenges[ch].attempts, s.challenges[ch].expiresAt)) else None
  }

  predicate CodeIsRight(s: State, ch: nat, code: string, matches: Option<nat>) {
    ch in s.challenges && s.challenges[ch].userId in s.users
    && var usr := s.users[s.challenges[ch].userId];
       TotpStep(usr, matches).Some? || code in usr.backupCodes
  }

  predicate UserIsBarred(s: State, ch: nat) {
    ch in s.challenges ==> !Live(s, s.challenges[ch].userId) || Barred(s.users[s.challenges[ch].userId], s.clock)
  }

  lemma RunThree(s: Sys, a: Action)
    ensures Run(s, [a, a, a]) == Step(Step(Step(s, a), a), a)
  {
    assert [a, a, a][1..] == [a, a] && [a, a][1..] == [a] && [a][1..] == [];
    assert Run(Step(Step(s, a), a), [a]) == Run(Step(Step(Step(s, a), a), a), []);
  }

  /** What is left to do after the read, done at once. */
  lemma Finish(s: Sys)
    requires |s.reqs| == 1 && !s.reqs[0].Reading?
    requires s.reqs[0].Failing? || s.reqs[0].Claiming? ==> s.row.Some? && !s.row.value.used
    ensures var end := Step(Step(s, Exec(0)), Exec(0));
      match s.reqs[0]
      case Expiring => end == Sys(None, [Rejected], s.clock)
      case Failing => end == Sys(Some(s.row.value.(attempts := s.row.value.attempts + 1)), [Failed], s.clock)
      case Claiming => end == Sys(Some(s.row.value.(used := true)), [Session], s.clock)
      case Issuing => end == Sys(s.row, [Session], s.clock)
      case _ => end == s
  {
    var next := Advance(s, 0).reqs[0];
    assert Step(s, Exec(0)).reqs == [next];
  }

  /** The statements of one request run back to back are the serial verifyChallenge: the same row
      afterwards and the same verdict. */
  lemma AloneIsVerifyChallenge(s: State, ch: nat, code: string, matches: Option<nat>)
    ensures var start := Sys(RowOf(s, ch), [Reading(CodeIsRight(s, ch, code, matches), UserIsBarred(s, ch))], s.clock);
      var end := Run(start, [Exec(0), Exec(0), Exec(0)]);
      var (s', reply) := VerifyChallenge(s, ch, code, matches);
      && end.row == RowOf(s', ch)
      && (end.reqs == [Session] <==> reply.Granted?)
      && (end.reqs == [Failed] <==> reply == WrongCode)
      && (end.reqs == [Rejected] <==> reply == Refused)
  {
    var start := Sys(RowOf(s, ch), [Reading(CodeIsRight(s, ch, code, matches), UserIsBarred(s, ch))], s.clock);
    RunThree(start, Exec(0));
    var pc := AfterRead(start.row, CodeIsRight(s, ch, code, matches), UserIsBarred(s, ch), s.clock);
    assert Step(start, Exec(0)) == Sys(start.row, [pc], s.clock);
    Finish(Sys(start.row, [pc], s.clock));
  }

  /** The cleanup between statements is the cleanup of the account machine, seen from one challenge. */
  lemma CleanupIsCleanup(s: State, ch: nat, reqs: seq<Pc>)
    ensures Step(Sys(RowOf(s, ch), reqs, s.clock), CleanupChallenges)
      == Sys(RowOf(Auth.CleanupChallenges(s), ch), reqs, s.clock)
  {
  }
}
