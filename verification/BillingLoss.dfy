/**
 Which schedules lose an event.  While the ledger is not pruned, a delivered event is dropped exactly
 when its process dies before its guarded update, or its guarded update found no row and then its
 create found one or its process died.
 */
module BillingLoss {
  import opened Wrappers
  import opened Billing
  import opened BillingProtocol
  import opened BillingFirstWriters

  // ---------------------------------------------------------------- read off the schedule

  /** The step kills the request of `e` after the ledger insert and before its guarded update. */
  predicate Dies(s: Sys, a: Action, e: Event) {
    a.Crash? && a.r < |s.reqs| && (s.reqs[a.r].Upserting? || s.reqs[a.r].Updating?) && s.reqs[a.r].event == e
  }

  /** The step is the guarded update of `e`, and there is no row to compare with. */
  predicate Misses(s: Sys, a: Action, e: Event) {
    a.Run? && a.r < |s.reqs| && s.reqs[a.r].Updating? && s.reqs[a.r].event == e && !Exists(s.db, e.sub.id)
  }

  /** The step is the create of `e` although there is a row by now, or kills it before its create. */
  predicate ComesLate(s: Sys, a: Action, e: Event) {
    && (a.Run? || a.Crash?) && a.r < |s.reqs| && s.reqs[a.r].Creating? && s.reqs[a.r].event == e
    && (a.Run? ==> Exists(s.db, e.sub.id))
  }

  /** Some step of the schedule comes late. */
  predicate LateSomewhere(s: Sys, schedule: seq<Action>, e: Event)
    decreases |schedule|
  {
    schedule != [] && (ComesLate(s, schedule[0], e) || LateSomewhere(Step(s, schedule[0]), schedule[1..], e))
  }

  /** Some step kills the request of `e`, or some step misses and some later one comes late. */
  predicate Loses(s: Sys, schedule: seq<Action>, e: Event)
    decreases |schedule|
  {
    schedule != []
    && var next := Step(s, schedule[0]);
       || Dies(s, schedule[0], e)
       || (Misses(s, schedule[0], e) && LateSomewhere(next, schedule[1..], e))
       || Loses(next, schedule[1..], e)
  }

  /** The delivered events that the schedule does not lose. */
  function Survivors(s: Sys, schedule: seq<Action>): set<Event> {
    set e | e in RunAll(s, schedule).log.delivered && !Loses(s, schedule, e)
  }

  /** Some step kills the request of `e`. */
  predicate DiesSomewhere(s: Sys, schedule: seq<Action>, e: Event)
    decreases |schedule|
  {
    schedule != [] && (Dies(s, schedule[0], e) || DiesSomewhere(Step(s, schedule[0]), schedule[1..], e))
  }

  predicate Unpruned(schedule: seq<Action>) {
    forall i :: 0 <= i < |schedule| ==> !schedule[i].Prune?
  }

  // ---------------------------------------------------------------- one passage through the ledger

  /** The ledger lets an event into its handler once, so its fate is decided once. */
  ghost predicate Once(s: Sys, e: Event) {
    && (forall i, j | 0 <= i < |s.reqs| && 0 <= j < |s.reqs| && Reaching(s.reqs[i], e) && Reaching(s.reqs[j], e) :: i == j)
    && (e in s.log.dropped ==> e !in s.log.landed && !AnyReaching(s.reqs, e))
    && (e in s.log.landed ==> forall r :: 0 <= r < |s.reqs| && Reaching(s.reqs[r], e) ==> s.reqs[r].Creating?)
    && (e.id !in s.db.ledger ==> e !in s.log.landed && e !in s.log.dropped && !AnyReaching(s.reqs, e))
  }

  /** `missed` tells whether the guarded update of `e` has met no row. */
  ghost predicate Tracked(s: Sys, e: Event, missed: bool) {
    && Once(s, e)
    && (missed ==> e.id in s.db.ledger && forall r :: 0 <= r < |s.reqs| && Reaching(s.reqs[r], e) ==> s.reqs[r].Creating?)
    && (forall r :: 0 <= r < |s.reqs| && Reaching(s.reqs[r], e) && s.reqs[r].Creating? ==> (e in s.log.landed <==> !missed))
  }

  /** A step that leaves the requests holding `e`, and its fate, alone. */
  lemma OtherTracked(s: Sys, s': Sys, e: Event, missed: bool)
    requires Tracked(s, e, missed)
    requires forall r :: 0 <= r < |s'.reqs| && Reaching(s'.reqs[r], e) ==> r < |s.reqs| && s'.reqs[r] == s.reqs[r]
    requires e.id in s'.db.ledger <==> e.id in s.db.ledger
    requires e in s'.log.landed <==> e in s.log.landed
    requires e in s'.log.dropped <==> e in s.log.dropped
    ensures Tracked(s', e, missed)
  {
  }

  /** The request holding `e` moves on. */
  lemma MoveTracked(s: Sys, s': Sys, r: nat, e: Event, missed: bool, missed': bool)
    requires Tracked(s, e, missed) && r < |s.reqs| == |s'.reqs| && Reaching(s.reqs[r], e)
    requires s'.reqs == s.reqs[r := s'.reqs[r]] && s'.db.ledger == s.db.ledger
    requires e in s'.log.dropped ==> e !in s'.log.landed && !Reaching(s'.reqs[r], e)
    requires Reaching(s'.reqs[r], e) && !s'.reqs[r].Creating? ==> e !in s'.log.landed && !missed'
    requires Reaching(s'.reqs[r], e) && s'.reqs[r].Creating? ==> (e in s'.log.landed <==> !missed')
    ensures Tracked(s', e, missed')
  {
    assert AnyReaching(s.reqs, e);
    assert forall i :: 0 <= i < |s.reqs| && i != r ==> s'.reqs[i] == s.reqs[i] && !Reaching(s.reqs[i], e);
  }

  lemma EntryTracked(s: Sys, r: nat, e: Event, missed: bool)
    requires Tracked(s, e, missed) && r < |s.reqs| && s.reqs[r] == Arrived(e) && e.id !in s.db.ledger
    ensures !missed && Tracked(InsertLedger(s, r, e), e, false)
    ensures e !in InsertLedger(s, r, e).log.dropped
  {
    var s' := InsertLedger(s, r, e);
    assert forall i :: 0 <= i < |s.reqs| && i != r ==> s'.reqs[i] == s.reqs[i] && !Reaching(s.reqs[i], e);
  }

  /** The guarded update of `e`: it lands, or misses. */
  lemma UpdateTracked(c: Scene, s: Sys, r: nat, e: Event, d: Row, missed: bool)
    requires AllCarried(c, s) && Distinct(c) && e in c.events && Relevant(c, e)
    requires Tracked(s, e, missed) && r < |s.reqs| && s.reqs[r] == Updating(e, d)
    ensures !missed && Tracked(GuardedUpdate(s, r, e, d), e, !Exists(s.db, e.sub.id))
    ensures e !in s.log.dropped && e !in GuardedUpdate(s, r, e, d).log.dropped
  {
    assert Carried(c, s.log.delivered, s.reqs[r]) && Regular(c.db, e);
    assert AnyReaching(s.reqs, e);
    MoveTracked(s, GuardedUpdate(s, r, e, d), r, e, missed, !Exists(s.db, e.sub.id));
  }

  /** The create of `e` drops it exactly when it missed and comes late. */
  lemma CreateTracked(c: Scene, s: Sys, r: nat, e: Event, d: Row, missed: bool)
    requires AllCarried(c, s) && Distinct(c) && e in c.events && Relevant(c, e)
    requires Tracked(s, e, missed) && r < |s.reqs| && s.reqs[r] == Creating(e, d)
    ensures Tracked(CreateRow(s, r, e, d), e, missed)
    ensures e !in s.log.dropped && (e in CreateRow(s, r, e, d).log.dropped <==> missed && Exists(s.db, e.sub.id))
  {
    assert Carried(c, s.log.delivered, s.reqs[r]) && Regular(c.db, e);
    assert AnyReaching(s.reqs, e);
    MoveTracked(s, CreateRow(s, r, e, d), r, e, missed, missed);
  }

  /** A crash drops the event exactly before its guarded update, or before its create when it missed. */
  lemma CrashTracked(s: Sys, r: nat, e: Event, missed: bool)
    requires Tracked(s, e, missed) && r < |s.reqs|
    ensures Tracked(CrashAt(s, r), e, missed)
    ensures e in CrashAt(s, r).log.dropped
      <==> e in s.log.dropped || Dies(s, Crash(r), e) || (missed && ComesLate(s, Crash(r), e))
  {
    if Reaching(s.reqs[r], e) {
      assert AnyReaching(s.reqs, e);
      MoveTracked(s, CrashAt(s, r), r, e, missed, missed);
    } else {
      OtherTracked(s, CrashAt(s, r), e, missed);
    }
  }

  lemma AppendTracked(s: Sys, s': Sys, pc: Pc, e: Event, missed: bool)
    requires Tracked(s, e, missed) && !Reaching(pc, e)
    requires s'.reqs == s.reqs + [pc] && s'.db == s.db
    requires s'.log.landed == s.log.landed && s'.log.dropped == s.log.dropped
    ensures Tracked(s', e, missed)
  {
    OtherTracked(s, s', e, missed);
  }

  /** A statement of a request that does not hold `e`. */
  lemma ElsewhereTracked(c: Scene, s: Sys, r: nat, e: Event, missed: bool)
    requires AllCarried(c, s) && Distinct(c) && e in c.events
    requires Tracked(s, e, missed) && r < |s.reqs| && !Reaching(s.reqs[r], e)
    requires s.reqs[r] == Arrived(e) ==> e.id in s.db.ledger
    ensures Tracked(Advance(s, r), e, missed) && (e in Advance(s, r).log.dropped <==> e in s.log.dropped)
  {
    assert Carried(c, s.log.delivered, s.reqs[r]);
    assert s.reqs[r].Arrived? && s.reqs[r].event.id == e.id ==> s.reqs[r].event == e;
    OtherTracked(s, Advance(s, r), e, missed);
  }

  lemma AdvanceTracked(c: Scene, s: Sys, r: nat, e: Event, missed: bool)
    requires AllCarried(c, s) && Distinct(c) && e in c.events && Relevant(c, e)
    requires Tracked(s, e, missed) && r < |s.reqs|
    ensures var s' := Advance(s, r);
      && Tracked(s', e, missed || Misses(s, Run(r), e))
      && (e in s'.log.dropped <==> e in s.log.dropped || (missed && ComesLate(s, Run(r), e)))
  {
    if Reaching(s.reqs[r], e) {
      match s.reqs[r]
      case Upserting(_) =>
        assert AnyReaching(s.reqs, e);
        MoveTracked(s, LookUpPlan(s, r, e), r, e, missed, missed);
      case Updating(_, d) => UpdateTracked(c, s, r, e, d, missed);
      case Creating(_, d) => CreateTracked(c, s, r, e, d, missed);
    } else if s.reqs[r] == Arrived(e) && e.id !in s.db.ledger {
      EntryTracked(s, r, e, missed);
    } else {
      ElsewhereTracked(c, s, r, e, missed);
    }
  }

  lemma StepTracked(c: Scene, s: Sys, a: Action, e: Event, missed: bool)
    requires AllCarried(c, s) && Distinct(c) && e in c.events && Relevant(c, e)
    requires Tracked(s, e, missed) && !a.Prune?
    ensures var s' := Step(s, a);
      && Tracked(s', e, missed || Misses(s, a, e))
      && (e in s'.log.dropped <==> e in s.log.dropped || Dies(s, a, e) || (missed && ComesLate(s, a, e)))
  {
    match a
    case Run(r) =>
      if r < |s.reqs| {
        AdvanceTracked(c, s, r, e, missed);
      }
    case Crash(r) =>
      if r < |s.reqs| {
        CrashTracked(s, r, e, missed);
      }
    case Deliver(f) => AppendTracked(s, Step(s, a), Arrived(f), e, missed);
    case RequestCancel(rid, ok) => AppendTracked(s, Step(s, a), CancelReading(rid, ok), e, missed);
    case Wait(_) =>
  }

  lemma StepCarried(c: Scene, s: Sys, a: Action)
    requires AllCarried(c, s) && Distinct(c) && (a.Deliver? ==> a.event in c.events)
    ensures AllCarried(c, Step(s, a))
  {
    match a
    case Run(r) =>
      if r < |s.reqs| {
        AdvanceCarried(c, s, r);
      }
    case Crash(r) =>
      if r < |s.reqs| {
        CrashCarried(c, s, r);
      }
    case _ =>
      forall r | 0 <= r < |s.reqs|
        ensures Carried(c, Step(s, a).log.delivered, s.reqs[r])
      {
        assert Carried(c, s.log.delivered, s.reqs[r]);
      }
  }

  /** Over every schedule without prunes, what is dropped is what the schedule loses. */
  lemma {:induction false} DroppedIsLost(c: Scene, s: Sys, schedule: seq<Action>, e: Event, missed: bool)
    requires AllCarried(c, s) && Distinct(c) && Within(c, schedule) && Unpruned(schedule)
    requires e in c.events && Relevant(c, e) && Tracked(s, e, missed)
    ensures e in RunAll(s, schedule).log.dropped
      <==> e in s.log.dropped || Loses(s, schedule, e) || (missed && LateSomewhere(s, schedule, e))
    decreases |schedule|
  {
    if schedule != [] {
      var a := schedule[0];
      StepTracked(c, s, a, e, missed);
      StepCarried(c, s, a);
      DroppedIsLost(c, Step(s, a), schedule[1..], e, missed || Misses(s, a, e));
    }
  }

  // ---------------------------------------------------------------- the exact conditions

  lemma RestIsTracked(c: Scene, s: Sys, e: Event)
    requires Start(s) && c.db == s.db && e.id !in s.db.ledger
    ensures AllCarried(c, s) && Tracked(s, e, false)
  {
  }

  lemma DroppedIsLostFromRest(c: Scene, s: Sys, schedule: seq<Action>, e: Event)
    requires Unwritten(c, s) && Distinct(c) && Within(c, schedule) && Unpruned(schedule)
    requires e in RunAll(s, schedule).log.delivered && Relevant(c, e)
    ensures e in RunAll(s, schedule).log.dropped <==> Loses(s, schedule, e)
  {
    var v := RunWatches(c, s, schedule, Absent);
    RestIsTracked(c, s, e);
    DroppedIsLost(c, s, schedule, e, false);
  }

  /** Greatest depends on the relevant members only. */
  lemma SameGreatest(c: Scene, a: set<Event>, b: set<Event>, e: Event)
    requires forall x :: Relevant(c, x) ==> (x in a <==> x in b)
    ensures Greatest(c, a, e) <==> Greatest(c, b, e)
  {
  }

  /** Starting without a row and without pruning: once every request is done, the newest delivered
      event has the row iff the schedule does not lose it; more generally the row is that of the
      newest delivered event the schedule does not lose. */
  lemma FirstWritersLoseExactly(c: Scene, s: Sys, schedule: seq<Action>, e: Event)
    requires Unwritten(c, s) && Distinct(c) && Within(c, schedule) && Unpruned(schedule) && Quiet(RunAll(s, schedule))
    requires e in RunAll(s, schedule).log.delivered && Relevant(c, e)
    ensures var s' := RunAll(s, schedule);
      && (Greatest(c, s'.log.delivered, e) ==> (RowIs(c, s', e) <==> !Loses(s, schedule, e)))
      && (Greatest(c, Survivors(s, schedule), e) ==> RowIs(c, s', e))
  {
    var s' := RunAll(s, schedule);
    FirstWritersConverge(c, s, schedule, e);
    forall x | x in s'.log.delivered && Relevant(c, x)
      ensures x in s'.log.dropped <==> Loses(s, schedule, x)
    {
      DroppedIsLostFromRest(c, s, schedule, x);
    }
    SameGreatest(c, Kept(s'), Survivors(s, schedule), e);
  }

  lemma {:induction false} RowMeansNoMiss(c: Scene, s: Sys, schedule: seq<Action>, src: Row, e: Event)
    requires Converging(c, s, src) && Distinct(c) && Within(c, schedule) && e.sub.id == c.sid
    ensures Loses(s, schedule, e) <==> DiesSomewhere(s, schedule, e)
    decreases |schedule|
  {
    if schedule != [] {
      assert Exists(s.db, c.sid);
      var src' := StepConverges(c, s, schedule[0], src);
      RowMeansNoMiss(c, Step(s, schedule[0]), schedule[1..], src', e);
    }
  }

  /** With the row there from the start and without pruning, a crash between the ledger insert and the
      guarded update is the only way to lose: the newest delivered event, if newer than the
      initial row, has the row iff none of its requests died there. */
  lemma CrashIsTheOnlyLoss(c: Scene, s: Sys, schedule: seq<Action>, e: Event)
    requires Opening(c, s) && Distinct(c) && Within(c, schedule) && Unpruned(schedule) && Quiet(RunAll(s, schedule))
    requires Greatest(c, RunAll(s, schedule).log.delivered, e) && StampAtMost(c.base.stamp, DataOf(e, 0).stamp)
    requires c.base.stamp != DataOf(e, 0).stamp
    ensures var s' := RunAll(s, schedule);
      && c.rid in s'.db.rows
      && (Shows(s'.db.rows[c.rid], DataOf(e, 0), c.rid in s'.log.canceled) <==> !DiesSomewhere(s, schedule, e))
  {
    var s' := RunAll(s, schedule);
    var src := RunConverges(c, s, schedule, c.base);
    FinishedShowsNewest(c, s', src);
    RestIsTracked(c, s, e);
    DroppedIsLost(c, s, schedule, e, false);
    RowMeansNoMiss(c, s, schedule, c.base, e);
    if src != c.base {
      var f :| f in s'.log.landed && Relevant(c, f) && src == DataOf(f, 0);
      if DataOf(f, 0).stamp == DataOf(e, 0).stamp {
        StampTells(c, e, f);
      }
    }
  }
}
