/**
 First writers: interleavings that start without a row for the subscription.  Once every request is
 done the row is that of the newest event that was not dropped.
 */
module BillingFirstWriters {
  import opened Wrappers
  import opened Billing
  import opened BillingProtocol

  // ---------------------------------------------------------------- no delivered event vanishes

  /** Past the ledger, before the end of its handler. */
  predicate Reaching(pc: Pc, e: Event) {
    (pc.Upserting? || pc.Updating? || pc.Creating?) && pc.event == e
  }

  ghost predicate AnyReaching(reqs: seq<Pc>, e: Event) {
    exists r :: 0 <= r < |reqs| && Reaching(reqs[r], e)
  }

  /** Landed in the row, dropped, or on its way. */
  ghost predicate Decided(s: Sys, e: Event) {
    e in s.log.landed || e in s.log.dropped || AnyReaching(s.reqs, e)
  }

  ghost predicate Accounted(s: Sys, e: Event) {
    && (e in s.log.delivered ==> Decided(s, e) || Waiting(s.reqs, e))
    && (e.id in s.db.ledger ==> Decided(s, e))
  }

  ghost predicate AllAccounted(c: Scene, s: Sys) {
    forall e :: e in c.events && Relevant(c, e) ==> Accounted(s, e)
  }

  lemma MoveReaches(reqs: seq<Pc>, r: nat, pc: Pc, x: Event)
    requires r < |reqs|
    ensures AnyReaching(reqs, x) && !Reaching(reqs[r], x) ==> AnyReaching(reqs[r := pc], x)
    ensures Waiting(reqs, x) && reqs[r] != Arrived(x) ==> Waiting(reqs[r := pc], x)
    ensures Reaching(pc, x) ==> AnyReaching(reqs[r := pc], x)
  {
    var moved := reqs[r := pc];
    if i :| 0 <= i < |reqs| && Reaching(reqs[i], x) && i != r {
      assert Reaching(moved[i], x);
    }
    if i :| 0 <= i < |reqs| && reqs[i] == Arrived(x) && i != r {
      assert moved[i] == Arrived(x);
    }
    assert moved[r] == pc;
  }

  /** A create of a relevant event lands or drops it: it does not throw. */
  lemma CreateDecides(c: Scene, s: Sys, r: nat, e: Event, d: Row)
    requires AllCarried(c, s) && Distinct(c) && r < |s.reqs| && s.reqs[r] == Creating(e, d)
    requires e in c.events && Relevant(c, e)
    ensures var s' := CreateRow(s, r, e, d); e in s'.log.landed || e in s'.log.dropped
  {
    assert Carried(c, s.log.delivered, s.reqs[r]);
    assert Regular(c.db, e);
  }

  /** A guarded update of a relevant event lands or goes on to the create. */
  lemma UpdateDecides(c: Scene, s: Sys, r: nat, e: Event, d: Row)
    requires AllCarried(c, s) && Distinct(c) && r < |s.reqs| && s.reqs[r] == Updating(e, d)
    requires e in c.events && Relevant(c, e)
    ensures var s' := GuardedUpdate(s, r, e, d); e in s'.log.landed || s'.reqs[r] == Creating(e, d)
  {
    assert Carried(c, s.log.delivered, s.reqs[r]);
    assert Regular(c.db, e);
  }

  /** A request past the ledger that moves on. */
  lemma MoveAccounts(s: Sys, s': Sys, r: nat, x: Event)
    requires Accounted(s, x) && r < |s.reqs| == |s'.reqs| && !s.reqs[r].Arrived?
    requires s'.reqs == s.reqs[r := s'.reqs[r]] && s'.db.ledger == s.db.ledger && s'.log.delivered == s.log.delivered
    requires x in s.log.landed || x in s.log.dropped ==> x in s'.log.landed || x in s'.log.dropped
    requires Reaching(s.reqs[r], x) ==> x in s'.log.landed || x in s'.log.dropped || Reaching(s'.reqs[r], x)
    ensures Accounted(s', x)
  {
    MoveReaches(s.reqs, r, s'.reqs[r], x);
  }

  lemma EntryAccounts(s: Sys, r: nat, e: Event, x: Event)
    requires Accounted(s, x) && r < |s.reqs| && s.reqs[r] == Arrived(e)
    requires e.id == x.id ==> e == x && e.kind == Upserted && Complete(e.sub)
    ensures Accounted(InsertLedger(s, r, e), x)
  {
    MoveReaches(s.reqs, r, InsertLedger(s, r, e).reqs[r], x);
  }

  lemma CancelAccounts(s: Sys, r: nat, x: Event)
    requires Accounted(s, x) && r < |s.reqs|
    requires s.reqs[r].Deleting? || s.reqs[r].CancelReading? || s.reqs[r].CancelWriting?
    ensures Accounted(Advance(s, r), x)
  {
    MoveAccounts(s, Advance(s, r), r, x);
  }

  lemma AdvanceAccounts(c: Scene, s: Sys, r: nat, x: Event)
    requires AllCarried(c, s) && Distinct(c) && AllAccounted(c, s) && r < |s.reqs|
    requires x in c.events && Relevant(c, x)
    ensures Accounted(Advance(s, r), x)
  {
    assert Carried(c, s.log.delivered, s.reqs[r]);
    assert Accounted(s, x);
    match s.reqs[r]
    case Finished =>
    case Arrived(e) => EntryAccounts(s, r, e, x);
    case Updating(e, d) =>
      if e == x {
        UpdateDecides(c, s, r, e, d);
      }
      MoveAccounts(s, GuardedUpdate(s, r, e, d), r, x);
    case Creating(e, d) =>
      if e == x {
        CreateDecides(c, s, r, e, d);
      }
      MoveAccounts(s, CreateRow(s, r, e, d), r, x);
    case Upserting(e) => MoveAccounts(s, LookUpPlan(s, r, e), r, x);
    case _ => CancelAccounts(s, r, x);
  }

  lemma CrashAccounts(c: Scene, s: Sys, r: nat)
    requires AllAccounted(c, s) && r < |s.reqs|
    ensures AllAccounted(c, CrashAt(s, r))
  {
    forall x | x in c.events && Relevant(c, x)
      ensures Accounted(CrashAt(s, r), x)
    {
      assert Accounted(s, x);
      if !s.reqs[r].Arrived? {
        MoveAccounts(s, CrashAt(s, r), r, x);
      }
    }
  }

  lemma AppendAccounts(c: Scene, s: Sys, s': Sys, pc: Pc)
    requires AllAccounted(c, s) && s'.reqs == s.reqs + [pc] && s'.db == s.db
    requires s'.log.landed == s.log.landed && s'.log.dropped == s.log.dropped
    requires s'.log.delivered == s.log.delivered || (pc.Arrived? && s'.log.delivered == s.log.delivered + {pc.event})
    ensures AllAccounted(c, s')
  {
    forall x | x in c.events && Relevant(c, x)
      ensures Accounted(s', x)
    {
      assert Accounted(s, x);
      AppendKeepsEvent(s.reqs, pc, x);
      if r :| 0 <= r < |s.reqs| && Reaching(s.reqs[r], x) {
        assert Reaching(s'.reqs[r], x);
      }
      assert s'.reqs[|s.reqs|] == pc;
    }
  }

  // ---------------------------------------------------------------- the row, once there is one

  /** No row of the subscription yet, and no relevant event landed. */
  ghost predicate Blank(c: Scene, s: Sys) {
    && UniqueIds(s.db) && !Exists(s.db, c.sid)
    && (forall e :: e in c.events && Relevant(c, e) ==> e !in s.log.landed)
  }

  /** The row is that of the newest landed event, cancellations apart. */
  ghost predicate Holding(c: Scene, s: Sys, rid: nat, src: Row) {
    && RowShows(c.(rid := rid, base := src), s, src)
    && (exists e :: e in s.log.landed && Relevant(c, e) && src == DataOf(e, 0))
  }

  datatype View = Absent | Present(rid: nat, src: Row)

  ghost predicate Watching(c: Scene, s: Sys, v: View) {
    && AllCarried(c, s) && AllAccounted(c, s)
    && match v
       case Absent => Blank(c, s)
       case Present(rid, src) => Holding(c, s, rid, src)
  }

  lemma SameRelevance(c: Scene, s: Sys, rid: nat, base: Row)
    ensures var c' := c.(rid := rid, base := base);
      && (AllCarried(c, s) ==> AllCarried(c', s)) && (Distinct(c) ==> Distinct(c'))
  {
    var c' := c.(rid := rid, base := base);
    if AllCarried(c, s) {
      forall r | 0 <= r < |s.reqs|
        ensures Carried(c', s.log.delivered, s.reqs[r])
      {
        assert Carried(c, s.log.delivered, s.reqs[r]);
      }
    }
    assert forall e :: Relevant(c, e) <==> Relevant(c', e);
  }

  lemma LandedGrows(s: Sys, r: nat)
    requires r < |s.reqs|
    ensures s.log.landed <= Advance(s, r).log.landed
  {
  }

  /** A newest landed event can serve as the base itself. */
  lemma Rebase(c: Scene, s: Sys, landed: set<Event>, rid: nat, src: Row, src': Row)
    requires RowShows(c.(rid := rid, base := src), s, src') && landed <= s.log.landed
    requires exists e :: e in landed && Relevant(c, e) && src == DataOf(e, 0)
    ensures Holding(c, s, rid, src')
  {
    var e :| e in landed && Relevant(c, e) && src == DataOf(e, 0);
    var c' := c.(rid := rid, base := src);
    assert Relevant(c', e) && e in s.log.landed;
    assert forall x :: Relevant(c, x) <==> Relevant(c', x);
    assert forall x :: Relevant(c, x) <==> Relevant(c.(rid := rid, base := src'), x);
  }

  lemma AdvanceHolds(c: Scene, s: Sys, r: nat, rid: nat, src: Row) returns (src': Row)
    requires AllCarried(c, s) && Distinct(c) && Holding(c, s, rid, src) && r < |s.reqs|
    ensures Holding(c, Advance(s, r), rid, src')
  {
    var c' := c.(rid := rid, base := src);
    SameRelevance(c, s, rid, src);
    src' := AdvanceShows(c', s, r, src);
    LandedGrows(s, r);
    Rebase(c, Advance(s, r), s.log.landed, rid, src, src');
  }

  lemma UpdateBlank(c: Scene, s: Sys, r: nat, e: Event, d: Row)
    requires AllCarried(c, s) && Blank(c, s) && r < |s.reqs| && s.reqs[r] == Updating(e, d)
    ensures Blank(c, GuardedUpdate(s, r, e, d))
  {
    assert Carried(c, s.log.delivered, s.reqs[r]);
    if GuardMatches(s.db, d) {
      UpdateInPlace(s.db, d);
      InPlaceKeepsIds(s.db, UpdateGuarded(s.db, d));
    }
  }

  lemma FirstCreateHolds(c: Scene, s: Sys, r: nat, e: Event, d: Row)
    requires Blank(c, s) && r < |s.reqs| && UniqueIds(Create(s.db, d).0)
    requires AllCarried(c, s) && e in c.events && Relevant(c, e) && d == DataOf(e, 0) && OneOwner(d) && ForeignKeysHold(s.db, d)
    ensures Holding(c, CreateRow(s, r, e, d), s.db.nextRow, d)
  {
    var s' := CreateRow(s, r, e, d);
    assert s'.log.landed == s.log.landed + {e};
    assert s'.db.rows[s.db.nextRow] == d;
    var c' := c.(rid := s.db.nextRow, base := d);
    assert Relevant(c', e) && e in s'.log.landed;
    assert forall x :: Relevant(c, x) <==> Relevant(c', x);
  }

  /** The first create of the subscription writes the row; other creates leave it absent. */
  lemma CreateBlank(c: Scene, s: Sys, r: nat, e: Event, d: Row) returns (v: View)
    requires AllCarried(c, s) && Distinct(c) && Blank(c, s) && r < |s.reqs| && s.reqs[r] == Creating(e, d)
    ensures match v
      case Absent => Blank(c, CreateRow(s, r, e, d))
      case Present(rid, src) => Holding(c, CreateRow(s, r, e, d), rid, src)
  {
    assert Carried(c, s.log.delivered, s.reqs[r]);
    CreateKeepsIds(s.db, d);
    if e.sub.id == c.sid {
      assert Relevant(c, e) && Regular(c.db, e);
      v := Present(s.db.nextRow, d);
      FirstCreateHolds(c, s, r, e, d);
    } else {
      v := Absent;
    }
  }

  lemma CancelBlank(c: Scene, s: Sys, s': Sys)
    requires Blank(c, s) && InPlace(s.db, s'.db)
    requires s'.log.landed == s.log.landed
    ensures Blank(c, s')
  {
    InPlaceKeepsIds(s.db, s'.db);
  }

  lemma AdvanceBlank(c: Scene, s: Sys, r: nat) returns (v: View)
    requires AllCarried(c, s) && Distinct(c) && Blank(c, s) && r < |s.reqs|
    ensures match v
      case Absent => Blank(c, Advance(s, r))
      case Present(rid, src) => Holding(c, Advance(s, r), rid, src)
  {
    v := Absent;
    match s.reqs[r]
    case Updating(e, d) => UpdateBlank(c, s, r, e, d);
    case Creating(e, d) => v := CreateBlank(c, s, r, e, d);
    case Deleting(e) => CancelBlank(c, s, CancelRows(s, r, e.sub.id));
    case CancelWriting(rid) => CancelBlank(c, s, CancelRow(s, r, rid));
    case Arrived(e) => CancelBlank(c, s, InsertLedger(s, r, e));
    case Upserting(e) => CancelBlank(c, s, LookUpPlan(s, r, e));
    case CancelReading(_, _) => CancelBlank(c, s, Advance(s, r));
    case Finished =>
  }

  lemma AdvanceWatches(c: Scene, s: Sys, r: nat, v: View) returns (v': View)
    requires Watching(c, s, v) && Distinct(c) && r < |s.reqs|
    ensures Watching(c, Advance(s, r), v')
  {
    AdvanceCarried(c, s, r);
    forall x | x in c.events && Relevant(c, x)
      ensures Accounted(Advance(s, r), x)
    {
      AdvanceAccounts(c, s, r, x);
    }
    match v
    case Absent => v' := AdvanceBlank(c, s, r);
    case Present(rid, src) =>
      var src' := AdvanceHolds(c, s, r, rid, src);
      v' := Present(rid, src');
  }

  /** A step that is no statement of a request leaves the rows and the decisions alone. */
  lemma StillWatched(c: Scene, s: Sys, s': Sys, v: View)
    requires Watching(c, s, v) && AllCarried(c, s') && AllAccounted(c, s')
    requires s'.db.rows == s.db.rows && s'.db.nextRow == s.db.nextRow
    requires s'.log.landed == s.log.landed && s'.log.canceled == s.log.canceled
    ensures Watching(c, s', v)
  {
    match v
    case Absent =>
    case Present(rid, src) => SameShows(c.(rid := rid, base := src), s, s', src);
  }

  lemma AppendWatches(c: Scene, s: Sys, s': Sys, pc: Pc, v: View)
    requires Watching(c, s, v) && s' == s.(reqs := s.reqs + [pc], log := s.log.(delivered := s'.log.delivered))
    requires if pc.Arrived? then pc.event in c.events && s'.log.delivered == s.log.delivered + {pc.event}
             else pc.CancelReading? && s'.log.delivered == s.log.delivered
    ensures Watching(c, s', v)
  {
    forall r | 0 <= r < |s'.reqs|
      ensures Carried(c, s'.log.delivered, s'.reqs[r])
    {
      assert r < |s.reqs| ==> Carried(c, s.log.delivered, s.reqs[r]);
    }
    AppendAccounts(c, s, s', pc);
    StillWatched(c, s, s', v);
  }

  lemma PruneWatches(c: Scene, s: Sys, cutoff: Millis, v: View)
    requires Watching(c, s, v)
    ensures Watching(c, PruneAt(s, cutoff), v)
  {
    var s' := PruneAt(s, cutoff);
    forall x | x in c.events && Relevant(c, x)
      ensures Accounted(s', x)
    {
      assert Accounted(s, x);
    }
    StillWatched(c, s, s', v);
  }

  lemma CrashWatches(c: Scene, s: Sys, r: nat, v: View)
    requires Watching(c, s, v) && r < |s.reqs|
    ensures Watching(c, CrashAt(s, r), v)
  {
    CrashCarried(c, s, r);
    CrashAccounts(c, s, r);
    StillWatched(c, s, CrashAt(s, r), v);
  }

  lemma StepWatches(c: Scene, s: Sys, a: Action, v: View) returns (v': View)
    requires Watching(c, s, v) && Distinct(c) && (a.Deliver? ==> a.event in c.events)
    ensures Watching(c, Step(s, a), v')
  {
    v' := v;
    var s' := Step(s, a);
    match a
    case Run(r) =>
      if r < |s.reqs| {
        v' := AdvanceWatches(c, s, r, v);
      }
    case Crash(r) =>
      if r < |s.reqs| {
        CrashWatches(c, s, r, v);
      }
    case Deliver(e) => AppendWatches(c, s, s', Arrived(e), v);
    case RequestCancel(rid, ok) => AppendWatches(c, s, s', CancelReading(rid, ok), v);
    case Prune(days) => PruneWatches(c, s, s.clock - days * DAY_MS, v);
    case Wait(_) => StillWatched(c, s, s', v);
  }

  lemma {:induction false} RunWatches(c: Scene, s: Sys, schedule: seq<Action>, v: View) returns (v': View)
    requires Watching(c, s, v) && Distinct(c) && Within(c, schedule)
    ensures Watching(c, RunAll(s, schedule), v')
    decreases |schedule|
  {
    v' := v;
    if schedule != [] {
      v' := StepWatches(c, s, schedule[0], v);
      v' := RunWatches(c, Step(s, schedule[0]), schedule[1..], v');
    }
  }

  // ---------------------------------------------------------------- whose row it is

  /** A database at rest without a row of the subscription, whose ledger has not seen the events. */
  ghost predicate Unwritten(c: Scene, s: Sys) {
    && Start(s) && c.db == s.db && !Exists(s.db, c.sid)
    && (forall e :: e in c.events && Relevant(c, e) ==> e.id !in s.db.ledger)
  }

  predicate Quiet(s: Sys) {
    forall r :: 0 <= r < |s.reqs| ==> s.reqs[r] == Finished
  }

  lemma QuietIsDecided(c: Scene, s: Sys, e: Event)
    requires AllAccounted(c, s) && Quiet(s) && e in c.events && Relevant(c, e) && e in s.log.delivered
    ensures e in s.log.landed || e in s.log.dropped
  {
    assert Accounted(s, e);
  }

  /** Two relevant events with one timestamp are one event. */
  lemma StampTells(c: Scene, e: Event, f: Event)
    requires Distinct(c) && e in c.events && f in c.events && Relevant(c, e) && Relevant(c, f)
    requires DataOf(e, 0).stamp == DataOf(f, 0).stamp
    ensures e == f
  {
    assert Regular(c.db, e) && Regular(c.db, f);
    assert e.created == f.created;
  }

  /** The subscription has a row and it is that of `e`, cancellations apart. */
  ghost predicate RowIs(c: Scene, s: Sys, e: Event)
    requires e.sub.planId.Some?
  {
    exists rid :: rid in s.db.rows && s.db.rows[rid].stripeSubscriptionId == c.sid
      && Shows(s.db.rows[rid], DataOf(e, 0), rid in s.log.canceled)
  }

  lemma LandedIsSource(c: Scene, s: Sys, rid: nat, src: Row, e: Event, f: Event)
    requires AllCarried(c, s) && Distinct(c) && Holding(c, s, rid, src)
    requires f in s.log.landed && Relevant(c, f) && src == DataOf(f, 0)
    requires e in s.log.landed && Greatest(c, Kept(s), e)
    ensures e == f && RowIs(c, s, e)
  {
    var c' := c.(rid := rid, base := src);
    assert Newest(c', s.log.landed, src);
    assert Relevant(c', e) && Relevant(c', f);
    StampTells(c, e, f);
  }

  /** The row of a finished run is that of the newest event kept, and of no other relevant event. */
  lemma QuietRow(c: Scene, s: Sys, v: View, e: Event)
    requires Watching(c, s, v) && Distinct(c) && Quiet(s) && e in s.log.delivered && Relevant(c, e)
    ensures RowIs(c, s, e) ==> e in Kept(s)
    ensures Greatest(c, Kept(s), e) ==> RowIs(c, s, e)
  {
    QuietIsDecided(c, s, e);
    match v
    case Absent =>
    case Present(rid, src) =>
      var f :| f in s.log.landed && Relevant(c, f) && src == DataOf(f, 0);
      if RowIs(c, s, e) {
        var k :| k in s.db.rows && s.db.rows[k].stripeSubscriptionId == c.sid
          && Shows(s.db.rows[k], DataOf(e, 0), k in s.log.canceled);
        assert SameSub(s.db.rows[k], s.db.rows[rid]);
        StampTells(c, e, f);
      }
      if Greatest(c, Kept(s), e) {
        LandedIsSource(c, s, rid, src, e, f);
      }
  }

  /** Interleavings that start without a row: once every request is done the row is that of the
      newest event delivered and not dropped; so the newest delivered event has it exactly when it
      was not dropped. */
  lemma FirstWritersConverge(c: Scene, s: Sys, schedule: seq<Action>, e: Event)
    requires Unwritten(c, s) && Distinct(c) && Within(c, schedule) && Quiet(RunAll(s, schedule))
    requires e in RunAll(s, schedule).log.delivered && Relevant(c, e)
    ensures var s' := RunAll(s, schedule);
      && (Greatest(c, Kept(s'), e) ==> RowIs(c, s', e))
      && (RowIs(c, s', e) ==> e in Kept(s'))
      && (Greatest(c, s'.log.delivered, e) ==> (RowIs(c, s', e) <==> e in Kept(s')))
  {
    var v := RunWatches(c, s, schedule, Absent);
    QuietRow(c, RunAll(s, schedule), v, e);
  }
}
