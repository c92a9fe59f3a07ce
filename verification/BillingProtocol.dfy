/**
 Concurrent webhook and cancellation requests, one database statement at a time: the dedupe
 ledger, the timestamp guard and the create-or-P2002 fallback.  `Sys` is a state machine whose
 runs are exactly the interleavings.
 */
module BillingProtocol {
  import opened Wrappers
  import opened Billing

  // ---------------------------------------------------------------- all interleavings

  /** Where a request stands: the next database statement it will execute. */
  datatype Pc =
    | Arrived(event: Event)
    | Upserting(event: Event)
    | Updating(event: Event, data: Row)
    | Creating(event: Event, data: Row)
    | Deleting(event: Event)
    | CancelReading(rid: nat, stripeAccepts: bool)
    | CancelWriting(rid: nat)
    | Finished

  /** History kept for stating the theorems; no step reads it but to record. An event lands when its
      timestamp is compared with the row, or its create writes the row; it is dropped when its handler
      ends without that. */
  datatype Log = Log(
    delivered: set<Event>, entered: multiset<string>, pruned: multiset<string>,
    landed: set<Event>, dropped: set<Event>, canceled: set<nat>)

  datatype Sys = Sys(db: Db, reqs: seq<Pc>, clock: Millis, log: Log)

  /** `Run(r)` executes the next statement of request r. `Crash(r)` ends its process instead.
      `RequestCancel` picks any row, so also the one the query of cancelSubscription /
      cancelOrgSubscription picks. */
  datatype Action =
    | Deliver(event: Event)
    | RequestCancel(rid: nat, stripeAccepts: bool)
    | Run(r: nat)
    | Crash(r: nat)
    | Prune(retentionDays: int)
    | Wait(ms: nat)

  function Goto(s: Sys, r: nat, pc: Pc): Sys
    requires r < |s.reqs|
  {
    s.(reqs := s.reqs[r := pc])
  }

  function AfterLedger(e: Event): Pc {
    match e.kind
    case Upserted => if Complete(e.sub) then Upserting(e) else Finished
    case Deleted => Deleting(e)
    case Other => Finished
  }

  function Land(s: Sys, e: Event): Sys {
    s.(log := s.log.(landed := s.log.landed + {e}, dropped := s.log.dropped - {e}))
  }

  function Drop(s: Sys, e: Event): Sys {
    if e in s.log.landed then s else s.(log := s.log.(dropped := s.log.dropped + {e}))
  }

  function RowsOf(db: Db, sid: string): set<nat> {
    set rid | rid in db.rows && db.rows[rid].stripeSubscriptionId == sid
  }

  /** INSERT into processed_webhook_events; a duplicate id ends the request. */
  function InsertLedger(s: Sys, r: nat, e: Event): Sys
    requires r < |s.reqs|
  {
    if e.id in s.db.ledger then Goto(s, r, Finished)
    else Goto(s, r, AfterLedger(e)).(
      db := s.db.(ledger := s.db.ledger[e.id := s.clock]),
      log := s.log.(entered := s.log.entered + multiset{e.id}))
  }

  function LookUpPlan(s: Sys, r: nat, e: Event): Sys
    requires r < |s.reqs|
  {
    if e.sub.planId.Some? && e.sub.planId.value in s.db.plans
    then Goto(s, r, Updating(e, DataOf(e, s.clock)))
    else Goto(s, r, Finished)
  }

  function GuardedUpdate(s: Sys, r: nat, e: Event, d: Row): Sys
    requires r < |s.reqs|
  {
    if GuardMatches(s.db, d) then
      if OneOwner(d) && ForeignKeysHold(s.db, d)
      then Land(Goto(s, r, Finished), e).(db := UpdateGuarded(s.db, d))
      else Goto(s, r, Finished)
    else if Exists(s.db, d.stripeSubscriptionId) then Land(Goto(s, r, Creating(e, d)), e)
    else Goto(s, r, Creating(e, d))
  }

  function CreateRow(s: Sys, r: nat, e: Event, d: Row): Sys
    requires r < |s.reqs|
  {
    var (db', o) := Create(s.db, d);
    var s' := Goto(s, r, Finished).(db := db');
    match o
    case Written => Land(s', e)
    case Skipped => Drop(s', e)
    case Threw => s'
  }

  function CancelRows(s: Sys, r: nat, sid: string): Sys
    requires r < |s.reqs|
  {
    Goto(s, r, Finished).(
      db := CancelAll(s.db, sid, s.clock),
      log := s.log.(canceled := s.log.canceled + RowsOf(s.db, sid)))
  }

  function CancelRow(s: Sys, r: nat, rid: nat): Sys
    requires r < |s.reqs|
  {
    if rid in s.db.rows
    then Goto(s, r, Finished).(
      db := s.db.(rows := s.db.rows[rid := Cancel(s.db.rows[rid], s.clock)]),
      log := s.log.(canceled := s.log.canceled + {rid}))
    else Goto(s, r, Finished)
  }

  function Advance(s: Sys, r: nat): Sys
    requires r < |s.reqs|
  {
    match s.reqs[r]
    case Arrived(e) => InsertLedger(s, r, e)
    case Upserting(e) => LookUpPlan(s, r, e)
    case Updating(e, d) => GuardedUpdate(s, r, e, d)
    case Creating(e, d) => CreateRow(s, r, e, d)
    case Deleting(e) => CancelRows(s, r, e.sub.id)
    case CancelReading(rid, ok) =>
      if rid in s.db.rows && s.db.rows[rid].status in {ACTIVE, TRIALING} && ok
      then Goto(s, r, CancelWriting(rid))
      else Goto(s, r, Finished)
    case CancelWriting(rid) => CancelRow(s, r, rid)
    case Finished => s
  }

  /** The process of a request dies between two statements. One that dies before its ledger insert
      is as if it had not been delivered. */
  function CrashAt(s: Sys, r: nat): Sys
    requires r < |s.reqs|
  {
    match s.reqs[r]
    case Arrived(_) => s
    case Upserting(e) => Drop(Goto(s, r, Finished), e)
    case Updating(e, _) => Drop(Goto(s, r, Finished), e)
    case Creating(e, _) => Drop(Goto(s, r, Finished), e)
    case _ => Goto(s, r, Finished)
  }

  /** cleanupProcessedWebhookEvents. */
  function PruneAt(s: Sys, cutoff: Millis): Sys {
    var db' := PruneLedger(s.db, cutoff);
    s.(db := db', log := s.log.(pruned := s.log.pruned + multiset(s.db.ledger.Keys - db'.ledger.Keys)))
  }

  function Step(s: Sys, a: Action): Sys {
    match a
    case Deliver(e) => s.(reqs := s.reqs + [Arrived(e)], log := s.log.(delivered := s.log.delivered + {e}))
    case RequestCancel(rid, ok) => s.(reqs := s.reqs + [CancelReading(rid, ok)])
    case Run(r) => if r < |s.reqs| then Advance(s, r) else s
    case Crash(r) => if r < |s.reqs| then CrashAt(s, r) else s
    case Prune(days) => PruneAt(s, s.clock - days * DAY_MS)
    case Wait(ms) => s.(clock := s.clock + ms)
  }

  function RunAll(s: Sys, schedule: seq<Action>): Sys
    decreases |schedule|
  {
    if schedule == [] then s else RunAll(Step(s, schedule[0]), schedule[1..])
  }

  // ---------------------------------------------------------------- safety of every interleaving

  predicate SameSub(a: Row, b: Row) {
    a.stripeSubscriptionId == b.stripeSubscriptionId
  }

  ghost predicate UniqueIds(db: Db) {
    && (forall i, j | i in db.rows && j in db.rows && SameSub(db.rows[i], db.rows[j]) :: i == j)
    && (forall i :: i in db.rows ==> i < db.nextRow)
  }

  /** Every entry into a handler is still in the ledger or was pruned from it. */
  ghost predicate EntriesAccounted(s: Sys) {
    s.log.entered == multiset(s.db.ledger.Keys) + s.log.pruned
  }

  ghost predicate Inv(s: Sys) {
    UniqueIds(s.db) && EntriesAccounted(s)
  }

  /** A database at rest: no request in flight; past entries are what the ledger remembers. */
  ghost predicate Start(s: Sys) {
    && s.reqs == [] && UniqueIds(s.db)
    && s.log == Log({}, multiset(s.db.ledger.Keys), multiset{}, {}, {}, {})
  }

  /** What one step may do to the subscriptions table. */
  ghost predicate Forward(a: Db, b: Db) {
    && a.plans == b.plans && a.users == b.users && a.orgs == b.orgs
    && (forall rid :: rid in a.rows ==>
        && rid in b.rows
        && b.rows[rid].stripeSubscriptionId == a.rows[rid].stripeSubscriptionId
        && StampAtMost(a.rows[rid].stamp, b.rows[rid].stamp))
  }

  /** Rows change in place, keeping their Stripe id and never lowering their stamp. */
  ghost predicate InPlace(a: Db, b: Db) {
    && b.rows.Keys == a.rows.Keys && b.nextRow == a.nextRow
    && (forall rid :: rid in a.rows ==>
          && b.rows[rid].stripeSubscriptionId == a.rows[rid].stripeSubscriptionId
          && StampAtMost(a.rows[rid].stamp, b.rows[rid].stamp))
  }

  lemma InPlaceKeepsIds(a: Db, b: Db)
    requires UniqueIds(a) && InPlace(a, b)
    ensures UniqueIds(b)
  {
    forall i, j | i in b.rows && j in b.rows && SameSub(b.rows[i], b.rows[j])
      ensures i == j
    {
      assert SameSub(a.rows[i], a.rows[j]);
    }
  }

  lemma CreateKeepsIds(db: Db, d: Row)
    requires UniqueIds(db)
    ensures UniqueIds(Create(db, d).0) && Forward(db, Create(db, d).0)
  {
    var db' := Create(db, d).0;
    forall i, j | i in db'.rows && j in db'.rows && SameSub(db'.rows[i], db'.rows[j])
      ensures i == j
    {
      if i in db.rows && j in db.rows {
        assert SameSub(db.rows[i], db.rows[j]);
      }
    }
  }

  lemma PruneAccounted(l: map<string, Millis>, kept: map<string, Millis>)
    requires kept.Keys <= l.Keys
    ensures multiset(l.Keys) == multiset(kept.Keys) + multiset(l.Keys - kept.Keys)
  {
  }

  lemma EntryAccounted(l: map<string, Millis>, id: string, now: Millis)
    requires id !in l
    ensures multiset(l[id := now].Keys) == multiset(l.Keys) + multiset{id}
  {
    assert l[id := now].Keys == l.Keys + {id};
  }

  /** A step that leaves ledger, entries and prunes alone and rows in place. */
  lemma InPlaceSafe(s: Sys, s': Sys)
    requires Inv(s) && InPlace(s.db, s'.db)
    requires s'.db.ledger == s.db.ledger && s'.log.entered == s.log.entered && s'.log.pruned == s.log.pruned
    requires s'.db.plans == s.db.plans && s'.db.users == s.db.users && s'.db.orgs == s.db.orgs
    ensures Inv(s') && Forward(s.db, s'.db)
  {
    InPlaceKeepsIds(s.db, s'.db);
  }

  lemma PruneSafe(s: Sys, cutoff: Millis)
    requires Inv(s)
    ensures Inv(PruneAt(s, cutoff)) && Forward(s.db, PruneAt(s, cutoff).db)
  {
    PruneAccounted(s.db.ledger, PruneLedger(s.db, cutoff).ledger);
    InPlaceKeepsIds(s.db, PruneAt(s, cutoff).db);
  }

  lemma ForwardTransitive(a: Db, b: Db, c: Db)
    requires Forward(a, b) && Forward(b, c)
    ensures Forward(a, c)
  {
  }

  lemma InsertLedgerSafe(s: Sys, r: nat, e: Event)
    requires Inv(s) && r < |s.reqs|
    ensures Inv(InsertLedger(s, r, e)) && Forward(s.db, InsertLedger(s, r, e).db)
  {
    if e.id !in s.db.ledger {
      EntryAccounted(s.db.ledger, e.id, s.clock);
    }
  }

  lemma UpdateInPlace(db: Db, d: Row)
    ensures InPlace(db, UpdateGuarded(db, d))
  {
  }

  lemma GuardedUpdateSafe(s: Sys, r: nat, e: Event, d: Row)
    requires Inv(s) && r < |s.reqs|
    ensures Inv(GuardedUpdate(s, r, e, d)) && Forward(s.db, GuardedUpdate(s, r, e, d).db)
  {
    var s' := GuardedUpdate(s, r, e, d);
    if GuardMatches(s.db, d) && OneOwner(d) && ForeignKeysHold(s.db, d) {
      UpdateInPlace(s.db, d);
      assert s'.db == UpdateGuarded(s.db, d);
    } else {
      assert s'.db == s.db;
    }
    InPlaceSafe(s, s');
  }

  lemma CreateRowSafe(s: Sys, r: nat, e: Event, d: Row)
    requires Inv(s) && r < |s.reqs|
    ensures Inv(CreateRow(s, r, e, d)) && Forward(s.db, CreateRow(s, r, e, d).db)
  {
    CreateKeepsIds(s.db, d);
  }

  lemma CancelRowsSafe(s: Sys, r: nat, sid: string)
    requires Inv(s) && r < |s.reqs|
    ensures Inv(CancelRows(s, r, sid)) && Forward(s.db, CancelRows(s, r, sid).db)
  {
    InPlaceSafe(s, CancelRows(s, r, sid));
  }

  lemma CancelRowSafe(s: Sys, r: nat, rid: nat)
    requires Inv(s) && r < |s.reqs|
    ensures Inv(CancelRow(s, r, rid)) && Forward(s.db, CancelRow(s, r, rid).db)
  {
    InPlaceSafe(s, CancelRow(s, r, rid));
  }

  lemma AdvanceSafe(s: Sys, r: nat)
    requires Inv(s) && r < |s.reqs|
    ensures Inv(Advance(s, r)) && Forward(s.db, Advance(s, r).db)
  {
    match s.reqs[r]
    case Arrived(e) => InsertLedgerSafe(s, r, e);
    case Updating(e, d) => GuardedUpdateSafe(s, r, e, d);
    case Creating(e, d) => CreateRowSafe(s, r, e, d);
    case Deleting(e) => CancelRowsSafe(s, r, e.sub.id);
    case CancelWriting(rid) => CancelRowSafe(s, r, rid);
    case _ => InPlaceSafe(s, Advance(s, r));
  }

  lemma CrashSafe(s: Sys, r: nat)
    requires Inv(s) && r < |s.reqs|
    ensures Inv(CrashAt(s, r)) && Forward(s.db, CrashAt(s, r).db)
  {
    InPlaceSafe(s, CrashAt(s, r));
  }

  lemma StepSafe(s: Sys, a: Action)
    requires Inv(s)
    ensures Inv(Step(s, a)) && Forward(s.db, Step(s, a).db)
  {
    match a
    case Deliver(_) => InPlaceSafe(s, Step(s, a));
    case RequestCancel(_, _) => InPlaceSafe(s, Step(s, a));
    case Run(r) => if r < |s.reqs| { AdvanceSafe(s, r); }
    case Crash(r) => if r < |s.reqs| { CrashSafe(s, r); }
    case Prune(days) => PruneSafe(s, s.clock - days * DAY_MS);
    case Wait(_) => InPlaceSafe(s, Step(s, a));
  }

  /** Over every interleaving of deliveries, cancellations, crashes and ledger pruning: one row per Stripe
      subscription, stamps never go back, and an event id enters its handler at most once more
      than it was pruned from the ledger. */
  lemma {:induction false} EveryInterleavingIsSafe(s: Sys, schedule: seq<Action>)
    requires Inv(s)
    ensures var s' := RunAll(s, schedule);
      && Inv(s')
      && Forward(s.db, s'.db)
    decreases |schedule|
  {
    if schedule != [] {
      StepSafe(s, schedule[0]);
      EveryInterleavingIsSafe(Step(s, schedule[0]), schedule[1..]);
      ForwardTransitive(s.db, Step(s, schedule[0]).db, RunAll(s, schedule).db);
    }
  }

  // ---------------------------------------------------------------- convergence of every interleaving

  /** The fixed facts of a convergence argument: the database at the start, the events that may be
      delivered, the subscription looked at, and its row at the start. */
  datatype Scene = Scene(db: Db, events: set<Event>, sid: string, rid: nat, base: Row)

  /** Events that change the row of the scene's subscription: the handler skips the others. */
  predicate Relevant(c: Scene, e: Event) {
    e.kind == Upserted && e.sub.id == c.sid && Complete(e.sub) && e.sub.planId.value in c.db.plans
  }

  /** The database accepts the event's write, and the event carries its own timestamp. */
  predicate Regular(db: Db, e: Event)
    requires e.sub.planId.Some?
  {
    ToDate(e.created).Some? && OneOwner(DataOf(e, 0)) && ForeignKeysHold(db, DataOf(e, 0))
  }

  /** Ids identify events, relevant events are regular, and no two of them share a creation time. */
  ghost predicate Distinct(c: Scene) {
    && (forall e, f | e in c.events && f in c.events && e.id == f.id :: e == f)
    && (forall e | e in c.events && Relevant(c, e) :: Regular(c.db, e))
    && (forall e, f | e in c.events && f in c.events && Relevant(c, e) && Relevant(c, f) && e.created == f.created :: e == f)
  }

  predicate SameReferences(a: Db, b: Db) {
    a.plans == b.plans && a.users == b.users && a.orgs == b.orgs
  }

  ghost predicate CarriedData(c: Scene, e: Event, d: Row) {
    && e.kind == Upserted && Complete(e.sub) && e.sub.planId.value in c.db.plans
    && d.stripeSubscriptionId == e.sub.id
    && (e.sub.id == c.sid ==> d == DataOf(e, 0))
  }

  /** Data carried between statements is what the event says. */
  ghost predicate Carried(c: Scene, delivered: set<Event>, pc: Pc) {
    match pc
    case Arrived(e) => e in delivered
    case Upserting(e) => e in delivered && e.kind == Upserted && Complete(e.sub)
    case Updating(e, d) => e in delivered && CarriedData(c, e, d)
    case Creating(e, d) => e in delivered && CarriedData(c, e, d)
    case _ => true
  }

  ghost predicate AllCarried(c: Scene, s: Sys) {
    && SameReferences(c.db, s.db)
    && s.log.landed <= s.log.delivered <= c.events && s.log.landed !! s.log.dropped
    && (forall r :: 0 <= r < |s.reqs| ==> Carried(c, s.log.delivered, s.reqs[r]))
  }

  /** The row equals `src`, up to a cancellation written over it. */
  predicate Shows(row: Row, src: Row, canceled: bool) {
    row == src || (canceled && row.canceledAt.Some? && row == Cancel(src, row.canceledAt.value))
  }

  /** `src` is the newest among the initial row and the landed events. */
  ghost predicate Newest(c: Scene, landed: set<Event>, src: Row) {
    || (src == c.base
        && forall e :: e in landed && Relevant(c, e) ==> !StampAtMost(c.base.stamp, DataOf(e, 0).stamp))
    || (StampAtMost(c.base.stamp, src.stamp)
        && (exists e :: e in landed && Relevant(c, e) && src == DataOf(e, 0))
        && forall e :: e in landed && Relevant(c, e) ==> StampAtMost(DataOf(e, 0).stamp, src.stamp))
  }

  ghost predicate RowShows(c: Scene, s: Sys, src: Row) {
    && UniqueIds(s.db)
    && c.rid in s.db.rows && s.db.rows[c.rid].stripeSubscriptionId == c.sid
    && Shows(s.db.rows[c.rid], src, c.rid in s.log.canceled)
    && Newest(c, s.log.landed, src)
  }

  /** The request is at a statement that will still carry `e` to the row. */
  predicate Pending(pc: Pc, e: Event) {
    (pc.Upserting? || pc.Updating?) && pc.event == e
  }

  ghost predicate InFlight(reqs: seq<Pc>, e: Event) {
    exists r :: 0 <= r < |reqs| && Pending(reqs[r], e)
  }

  ghost predicate Waiting(reqs: seq<Pc>, e: Event) {
    exists r :: 0 <= r < |reqs| && reqs[r] == Arrived(e)
  }

  ghost predicate NotLost(s: Sys, e: Event) {
    && (e in s.log.delivered ==> e in s.log.landed || e in s.log.dropped || InFlight(s.reqs, e) || Waiting(s.reqs, e))
    && (e.id in s.db.ledger ==> e in s.log.landed || e in s.log.dropped || InFlight(s.reqs, e))
  }

  ghost predicate NoneLost(c: Scene, s: Sys) {
    forall e :: e in c.events && Relevant(c, e) ==> NotLost(s, e)
  }

  // Carried data: one lemma for any request that moves, then one per statement that needs more.

  lemma MoveCarried(c: Scene, s: Sys, s': Sys, r: nat, pc: Pc)
    requires AllCarried(c, s) && r < |s.reqs| && s'.reqs == s.reqs[r := pc]
    requires SameReferences(s.db, s'.db) && s'.log.delivered == s.log.delivered
    requires s'.log.landed <= s'.log.delivered && s'.log.landed !! s'.log.dropped && Carried(c, s.log.delivered, pc)
    ensures AllCarried(c, s')
  {
  }

  lemma GuardedUpdateCarried(c: Scene, s: Sys, r: nat, e: Event, d: Row)
    requires AllCarried(c, s) && r < |s.reqs| && s.reqs[r] == Updating(e, d)
    ensures AllCarried(c, GuardedUpdate(s, r, e, d))
  {
    var s' := GuardedUpdate(s, r, e, d);
    assert Carried(c, s.log.delivered, s.reqs[r]);
    MoveCarried(c, s, s', r, s'.reqs[r]);
  }

  lemma CreateRowCarried(c: Scene, s: Sys, r: nat, e: Event, d: Row)
    requires AllCarried(c, s) && r < |s.reqs| && s.reqs[r] == Creating(e, d)
    ensures AllCarried(c, CreateRow(s, r, e, d))
  {
    assert Carried(c, s.log.delivered, s.reqs[r]);
    MoveCarried(c, s, CreateRow(s, r, e, d), r, Finished);
  }

  lemma AdvanceCarried(c: Scene, s: Sys, r: nat)
    requires AllCarried(c, s) && Distinct(c) && r < |s.reqs|
    ensures AllCarried(c, Advance(s, r))
  {
    var s' := Advance(s, r);
    assert Carried(c, s.log.delivered, s.reqs[r]);
    match s.reqs[r]
    case Finished =>
    case Arrived(e) => MoveCarried(c, s, s', r, s'.reqs[r]);
    case Upserting(e) =>
      assert Relevant(c, e) ==> Regular(c.db, e);
      MoveCarried(c, s, s', r, s'.reqs[r]);
    case Updating(e, d) => GuardedUpdateCarried(c, s, r, e, d);
    case Creating(e, d) => CreateRowCarried(c, s, r, e, d);
    case _ => MoveCarried(c, s, s', r, s'.reqs[r]);
  }

  // The row: what each statement does to it.

  /** A landing write that passed the guard becomes the newest. */
  lemma LandNewest(c: Scene, landed: set<Event>, src: Row, e: Event)
    requires Newest(c, landed, src) && Relevant(c, e)
    requires StampAtMost(src.stamp, DataOf(e, 0).stamp)
    ensures Newest(c, landed + {e}, DataOf(e, 0))
  {
    assert e in landed + {e};
  }

  lemma LandOther(c: Scene, landed: set<Event>, src: Row, e: Event)
    requires Newest(c, landed, src)
    requires Relevant(c, e) ==> !StampAtMost(src.stamp, DataOf(e, 0).stamp)
    ensures Newest(c, landed + {e}, src)
  {
  }

  lemma LandShows(c: Scene, s: Sys, r: nat, e: Event, d: Row, src: Row)
    requires AllCarried(c, s) && Distinct(c) && RowShows(c, s, src)
    requires r < |s.reqs| && s.reqs[r] == Updating(e, d)
    requires GuardMatches(s.db, d) && OneOwner(d) && ForeignKeysHold(s.db, d)
    ensures RowShows(c, GuardedUpdate(s, r, e, d), if e.sub.id == c.sid then d else src)
  {
    assert Carried(c, s.log.delivered, s.reqs[r]);
    UpdateInPlace(s.db, d);
    InPlaceKeepsIds(s.db, UpdateGuarded(s.db, d));
    if e.sub.id == c.sid {
      var m :| m in s.db.rows && Guard(s.db.rows[m], d);
      assert SameSub(s.db.rows[m], s.db.rows[c.rid]);
      LandNewest(c, s.log.landed, src, e);
    } else {
      LandOther(c, s.log.landed, src, e);
    }
  }

  lemma GuardedUpdateShows(c: Scene, s: Sys, r: nat, e: Event, d: Row, src: Row) returns (src': Row)
    requires AllCarried(c, s) && Distinct(c) && RowShows(c, s, src)
    requires r < |s.reqs| && s.reqs[r] == Updating(e, d)
    ensures RowShows(c, GuardedUpdate(s, r, e, d), src')
  {
    assert Carried(c, s.log.delivered, s.reqs[r]);
    src' := src;
    if GuardMatches(s.db, d) {
      if OneOwner(d) && ForeignKeysHold(s.db, d) {
        LandShows(c, s, r, e, d, src);
        src' := if e.sub.id == c.sid then d else src;
      }
    } else {
      if e.sub.id == c.sid {
        assert !Guard(s.db.rows[c.rid], d);
      }
      LandOther(c, s.log.landed, src, e);
    }
  }

  lemma CreateRowShows(c: Scene, s: Sys, r: nat, e: Event, d: Row, src: Row)
    requires AllCarried(c, s) && RowShows(c, s, src)
    requires r < |s.reqs| && s.reqs[r] == Creating(e, d)
    ensures RowShows(c, CreateRow(s, r, e, d), src)
  {
    assert Carried(c, s.log.delivered, s.reqs[r]);
    CreateKeepsIds(s.db, d);
  }

  lemma CancelRowsShows(c: Scene, s: Sys, r: nat, sid: string, src: Row)
    requires RowShows(c, s, src) && r < |s.reqs|
    ensures RowShows(c, CancelRows(s, r, sid), src)
  {
    InPlaceKeepsIds(s.db, CancelRows(s, r, sid).db);
  }

  lemma CancelRowShows(c: Scene, s: Sys, r: nat, rid: nat, src: Row)
    requires RowShows(c, s, src) && r < |s.reqs|
    ensures RowShows(c, CancelRow(s, r, rid), src)
  {
    InPlaceKeepsIds(s.db, CancelRow(s, r, rid).db);
  }

  lemma SameShows(c: Scene, s: Sys, s': Sys, src: Row)
    requires RowShows(c, s, src)
    requires s'.db.rows == s.db.rows && s'.db.nextRow == s.db.nextRow
    requires s'.log.landed == s.log.landed && s'.log.canceled == s.log.canceled
    ensures RowShows(c, s', src)
  {
  }

  /** Statements that write no row. */
  lemma ReadingShows(c: Scene, s: Sys, r: nat, src: Row)
    requires RowShows(c, s, src) && r < |s.reqs|
    requires s.reqs[r].Arrived? || s.reqs[r].Upserting? || s.reqs[r].CancelReading? || s.reqs[r].Finished?
    ensures RowShows(c, Advance(s, r), src)
  {
    SameShows(c, s, Advance(s, r), src);
  }

  lemma AdvanceShows(c: Scene, s: Sys, r: nat, src: Row) returns (src': Row)
    requires AllCarried(c, s) && Distinct(c) && RowShows(c, s, src) && r < |s.reqs|
    ensures RowShows(c, Advance(s, r), src')
  {
    src' := src;
    match s.reqs[r]
    case Updating(e, d) => src' := GuardedUpdateShows(c, s, r, e, d, src);
    case Creating(e, d) => CreateRowShows(c, s, r, e, d, src);
    case Deleting(e) => CancelRowsShows(c, s, r, e.sub.id, src);
    case CancelWriting(rid) => CancelRowShows(c, s, r, rid, src);
    case _ => ReadingShows(c, s, r, src);
  }

  // No relevant event vanishes on the way to the row.

  lemma MoveKeeps(reqs: seq<Pc>, r: nat, pc: Pc, x: Event)
    requires r < |reqs|
    ensures InFlight(reqs, x) && !Pending(reqs[r], x) ==> InFlight(reqs[r := pc], x)
    ensures Waiting(reqs, x) && reqs[r] != Arrived(x) ==> Waiting(reqs[r := pc], x)
    ensures Pending(pc, x) ==> InFlight(reqs[r := pc], x)
  {
    var moved := reqs[r := pc];
    if i :| 0 <= i < |reqs| && Pending(reqs[i], x) && i != r {
      assert Pending(moved[i], x);
    }
    if i :| 0 <= i < |reqs| && reqs[i] == Arrived(x) && i != r {
      assert moved[i] == Arrived(x);
    }
    assert moved[r] == pc;
  }

  lemma GuardedUpdateLosesNone(c: Scene, s: Sys, r: nat, e: Event, d: Row)
    requires AllCarried(c, s) && Distinct(c) && r < |s.reqs| && s.reqs[r] == Updating(e, d)
    requires c.rid in s.db.rows && s.db.rows[c.rid].stripeSubscriptionId == c.sid
    requires e in c.events && Relevant(c, e)
    ensures e in GuardedUpdate(s, r, e, d).log.landed
  {
    assert Carried(c, s.log.delivered, s.reqs[r]);
    assert Exists(s.db, c.sid) && Regular(c.db, e);
  }

  /** A request past the ledger that moves on. */
  lemma MoveLosesNone(s: Sys, s': Sys, r: nat, x: Event)
    requires NotLost(s, x) && r < |s.reqs| == |s'.reqs| && !s.reqs[r].Arrived?
    requires s'.reqs == s.reqs[r := s'.reqs[r]] && s'.db.ledger == s.db.ledger && s'.log.delivered == s.log.delivered
    requires x in s.log.landed || x in s.log.dropped ==> x in s'.log.landed || x in s'.log.dropped
    requires Pending(s.reqs[r], x) ==> x in s'.log.landed || Pending(s'.reqs[r], x)
    ensures NotLost(s', x)
  {
    MoveKeeps(s.reqs, r, s'.reqs[r], x);
  }

  lemma EntryLosesNone(s: Sys, r: nat, e: Event, x: Event)
    requires NotLost(s, x) && r < |s.reqs| && s.reqs[r] == Arrived(e)
    requires e.id == x.id ==> e == x && e.kind == Upserted && Complete(e.sub)
    ensures NotLost(InsertLedger(s, r, e), x)
  {
    MoveKeeps(s.reqs, r, InsertLedger(s, r, e).reqs[r], x);
  }

  lemma CancelLosesNone(s: Sys, r: nat, x: Event)
    requires NotLost(s, x) && r < |s.reqs|
    requires s.reqs[r].Deleting? || s.reqs[r].CancelReading? || s.reqs[r].CancelWriting?
    ensures NotLost(Advance(s, r), x)
  {
    MoveLosesNone(s, Advance(s, r), r, x);
  }

  lemma AdvanceLosesNoneOf(c: Scene, s: Sys, r: nat, x: Event)
    requires AllCarried(c, s) && Distinct(c) && NoneLost(c, s) && r < |s.reqs|
    requires c.rid in s.db.rows && s.db.rows[c.rid].stripeSubscriptionId == c.sid
    requires x in c.events && Relevant(c, x)
    ensures NotLost(Advance(s, r), x)
  {
    assert Carried(c, s.log.delivered, s.reqs[r]);
    assert NotLost(s, x);
    match s.reqs[r]
    case Finished =>
    case Arrived(e) => EntryLosesNone(s, r, e, x);
    case Updating(e, d) =>
      if e == x {
        GuardedUpdateLosesNone(c, s, r, x, d);
      }
      MoveLosesNone(s, GuardedUpdate(s, r, e, d), r, x);
    case Upserting(e) => MoveLosesNone(s, LookUpPlan(s, r, e), r, x);
    case Creating(e, d) => MoveLosesNone(s, CreateRow(s, r, e, d), r, x);
    case _ => CancelLosesNone(s, r, x);
  }

  lemma AdvanceLosesNone(c: Scene, s: Sys, r: nat)
    requires AllCarried(c, s) && Distinct(c) && NoneLost(c, s) && r < |s.reqs|
    requires c.rid in s.db.rows && s.db.rows[c.rid].stripeSubscriptionId == c.sid
    ensures NoneLost(c, Advance(s, r))
  {
    forall x | x in c.events && Relevant(c, x)
      ensures NotLost(Advance(s, r), x)
    {
      AdvanceLosesNoneOf(c, s, r, x);
    }
  }

  lemma CrashCarried(c: Scene, s: Sys, r: nat)
    requires AllCarried(c, s) && r < |s.reqs|
    ensures AllCarried(c, CrashAt(s, r))
  {
    if !s.reqs[r].Arrived? {
      MoveCarried(c, s, CrashAt(s, r), r, Finished);
    }
  }

  lemma CrashLosesNone(c: Scene, s: Sys, r: nat)
    requires NoneLost(c, s) && r < |s.reqs|
    ensures NoneLost(c, CrashAt(s, r))
  {
    forall x | x in c.events && Relevant(c, x)
      ensures NotLost(CrashAt(s, r), x)
    {
      assert NotLost(s, x);
      MoveKeeps(s.reqs, r, Finished, x);
    }
  }

  /** Everything kept along a run that may converge. */
  ghost predicate Converging(c: Scene, s: Sys, src: Row) {
    AllCarried(c, s) && RowShows(c, s, src) && NoneLost(c, s)
  }

  lemma AppendKeepsEvent(reqs: seq<Pc>, pc: Pc, x: Event)
    ensures InFlight(reqs, x) ==> InFlight(reqs + [pc], x)
    ensures Waiting(reqs, x) ==> Waiting(reqs + [pc], x)
  {
    var more := reqs + [pc];
    if r :| 0 <= r < |reqs| && Pending(reqs[r], x) {
      assert Pending(more[r], x);
    }
    if r :| 0 <= r < |reqs| && reqs[r] == Arrived(x) {
      assert more[r] == Arrived(x);
    }
  }

  lemma AppendKeeps(c: Scene, s: Sys, pc: Pc)
    requires AllCarried(c, s) && NoneLost(c, s) && Carried(c, s.log.delivered, pc)
    ensures var s' := s.(reqs := s.reqs + [pc]); AllCarried(c, s') && NoneLost(c, s')
  {
    forall x | x in c.events && Relevant(c, x)
      ensures NotLost(s.(reqs := s.reqs + [pc]), x)
    {
      assert NotLost(s, x);
      AppendKeepsEvent(s.reqs, pc, x);
    }
  }

  lemma DeliverConverges(c: Scene, s: Sys, e: Event, src: Row)
    requires Converging(c, s, src) && Distinct(c) && e in c.events
    ensures Converging(c, Step(s, Deliver(e)), src)
  {
    var s' := Step(s, Deliver(e));
    assert s'.reqs[|s.reqs|] == Arrived(e);
    assert Waiting(s'.reqs, e);
    forall x | x in c.events && Relevant(c, x)
      ensures NotLost(s', x)
    {
      assert NotLost(s, x);
      AppendKeepsEvent(s.reqs, Arrived(e), x);
    }
  }

  lemma StepConverges(c: Scene, s: Sys, a: Action, src: Row) returns (src': Row)
    requires Converging(c, s, src) && Distinct(c)
    requires a.Deliver? ==> a.event in c.events
    ensures Converging(c, Step(s, a), src')
  {
    src' := src;
    match a
    case Run(r) =>
      if r < |s.reqs| {
        AdvanceCarried(c, s, r);
        src' := AdvanceShows(c, s, r, src);
        AdvanceLosesNone(c, s, r);
      }
    case Crash(r) =>
      if r < |s.reqs| {
        CrashCarried(c, s, r);
        SameShows(c, s, CrashAt(s, r), src);
        CrashLosesNone(c, s, r);
      }
    case Deliver(e) => DeliverConverges(c, s, e, src);
    case RequestCancel(rid, ok) => AppendKeeps(c, s, CancelReading(rid, ok));
    case Prune(days) => SameShows(c, s, Step(s, a), src);
    case Wait(_) =>
  }

  /** The schedule delivers events of the scene only. */
  ghost predicate Within(c: Scene, schedule: seq<Action>) {
    forall i :: 0 <= i < |schedule| && schedule[i].Deliver? ==> schedule[i].event in c.events
  }

  lemma {:induction false} RunConverges(c: Scene, s: Sys, schedule: seq<Action>, src: Row) returns (src': Row)
    requires Converging(c, s, src) && Distinct(c) && Within(c, schedule)
    ensures Converging(c, RunAll(s, schedule), src')
    decreases |schedule|
  {
    src' := src;
    if schedule != [] {
      src' := StepConverges(c, s, schedule[0], src);
      src' := RunConverges(c, Step(s, schedule[0]), schedule[1..], src');
    }
  }

  predicate Harmless(c: Scene, pc: Pc) {
    match pc
    case Arrived(e) => e.kind == Deleted ==> e.sub.id != c.sid
    case Deleting(e) => e.sub.id != c.sid
    case CancelReading(rid, _) => rid != c.rid
    case CancelWriting(rid) => rid != c.rid
    case _ => true
  }

  /** No deletion event and no cancellation request touches the scene's row. */
  ghost predicate Uncanceled(c: Scene, s: Sys) {
    && c.rid !in s.log.canceled
    && (forall r :: 0 <= r < |s.reqs| ==> Harmless(c, s.reqs[r]))
  }

  predicate HarmlessAction(c: Scene, a: Action) {
    match a
    case Deliver(e) => e.kind == Deleted ==> e.sub.id != c.sid
    case RequestCancel(rid, _) => rid != c.rid
    case _ => true
  }

  lemma MoveUncanceled(c: Scene, s: Sys, s': Sys, r: nat)
    requires Uncanceled(c, s) && r < |s.reqs| == |s'.reqs| && s'.reqs == s.reqs[r := s'.reqs[r]]
    requires c.rid !in s'.log.canceled && Harmless(c, s'.reqs[r])
    ensures Uncanceled(c, s')
  {
  }

  lemma AdvanceUncanceled(c: Scene, s: Sys, r: nat, src: Row)
    requires Uncanceled(c, s) && RowShows(c, s, src) && r < |s.reqs|
    ensures Uncanceled(c, Advance(s, r))
  {
    assert Harmless(c, s.reqs[r]);
    match s.reqs[r]
    case Arrived(e) => MoveUncanceled(c, s, InsertLedger(s, r, e), r);
    case Upserting(e) => MoveUncanceled(c, s, LookUpPlan(s, r, e), r);
    case Updating(e, d) => MoveUncanceled(c, s, GuardedUpdate(s, r, e, d), r);
    case Creating(e, d) => MoveUncanceled(c, s, CreateRow(s, r, e, d), r);
    case Deleting(e) =>
      assert c.rid !in RowsOf(s.db, e.sub.id);
      MoveUncanceled(c, s, CancelRows(s, r, e.sub.id), r);
    case CancelReading(_, _) => MoveUncanceled(c, s, Advance(s, r), r);
    case CancelWriting(rid) => MoveUncanceled(c, s, CancelRow(s, r, rid), r);
    case Finished =>
  }

  lemma StepUncanceled(c: Scene, s: Sys, a: Action, src: Row)
    requires Uncanceled(c, s) && RowShows(c, s, src) && HarmlessAction(c, a)
    ensures Uncanceled(c, Step(s, a))
  {
    if a.Run? && a.r < |s.reqs| {
      AdvanceUncanceled(c, s, a.r, src);
    } else if a.Crash? && a.r < |s.reqs| && !s.reqs[a.r].Arrived? {
      MoveUncanceled(c, s, CrashAt(s, a.r), a.r);
    }
  }

  lemma {:induction false} RunUncanceled(c: Scene, s: Sys, schedule: seq<Action>, src: Row)
    requires Converging(c, s, src) && Distinct(c) && Within(c, schedule) && Uncanceled(c, s)
    requires forall i :: 0 <= i < |schedule| ==> HarmlessAction(c, schedule[i])
    ensures Uncanceled(c, RunAll(s, schedule))
    decreases |schedule|
  {
    if schedule != [] {
      StepUncanceled(c, s, schedule[0], src);
      var src' := StepConverges(c, s, schedule[0], src);
      RunUncanceled(c, Step(s, schedule[0]), schedule[1..], src');
    }
  }

  /** The scene describes a database at rest in which the row exists, and whose ledger has not
      seen the relevant events. */
  ghost predicate Opening(c: Scene, s: Sys) {
    && Start(s) && c.db == s.db
    && c.rid in s.db.rows && s.db.rows[c.rid] == c.base && c.base.stripeSubscriptionId == c.sid
    && (forall e :: e in c.events && Relevant(c, e) ==> e.id !in s.db.ledger)
  }

  ghost predicate Greatest(c: Scene, delivered: set<Event>, e: Event) {
    && e in delivered && Relevant(c, e)
    && (forall f :: f in delivered && Relevant(c, f) ==> StampAtMost(DataOf(f, 0).stamp, DataOf(e, 0).stamp))
  }

  /** The relevant events that were delivered and not dropped. */
  function Kept(s: Sys): set<Event> {
    s.log.delivered - s.log.dropped
  }

  lemma FinishedShowsNewest(c: Scene, s: Sys, src: Row)
    requires Converging(c, s, src) && Distinct(c)
    requires forall r :: 0 <= r < |s.reqs| ==> s.reqs[r] == Finished
    ensures forall e :: Greatest(c, Kept(s), e) && StampAtMost(c.base.stamp, DataOf(e, 0).stamp) ==> src == DataOf(e, 0)
    ensures (forall e :: e in Kept(s) && Relevant(c, e) ==> !StampAtMost(c.base.stamp, DataOf(e, 0).stamp)) ==> src == c.base
  {
    forall e | e in Kept(s) && Relevant(c, e)
      ensures e in s.log.landed
    {
      assert NotLost(s, e);
    }
    forall e | Greatest(c, Kept(s), e) && StampAtMost(c.base.stamp, DataOf(e, 0).stamp)
      ensures src == DataOf(e, 0)
    {
      var f :| f in s.log.landed && Relevant(c, f) && src == DataOf(f, 0);
      assert Regular(c.db, e) && Regular(c.db, f);
      assert f.created == e.created;
    }
  }

  /** No relevant event was dropped, and those at their create have landed: the row was there. */
  ghost predicate Spared(c: Scene, s: Sys) {
    && (forall e :: e in s.log.dropped ==> !Relevant(c, e))
    && (forall r :: 0 <= r < |s.reqs| && s.reqs[r].Creating? && Relevant(c, s.reqs[r].event) ==> s.reqs[r].event in s.log.landed)
  }

  lemma MoveSpares(c: Scene, s: Sys, s': Sys, r: nat)
    requires Spared(c, s) && r < |s.reqs| == |s'.reqs| && s'.reqs == s.reqs[r := s'.reqs[r]]
    requires s.log.landed <= s'.log.landed
    requires forall e :: e in s'.log.dropped && e !in s.log.dropped ==> !Relevant(c, e)
    requires s'.reqs[r].Creating? && Relevant(c, s'.reqs[r].event) ==> s'.reqs[r].event in s'.log.landed
    ensures Spared(c, s')
  {
  }

  lemma AdvanceSpares(c: Scene, s: Sys, r: nat, src: Row)
    requires AllCarried(c, s) && RowShows(c, s, src) && Spared(c, s) && r < |s.reqs|
    ensures Spared(c, Advance(s, r))
  {
    assert Carried(c, s.log.delivered, s.reqs[r]);
    assert Exists(s.db, c.sid);
    match s.reqs[r]
    case Finished =>
    case Updating(e, d) => MoveSpares(c, s, GuardedUpdate(s, r, e, d), r);
    case Creating(e, d) => MoveSpares(c, s, CreateRow(s, r, e, d), r);
    case _ => MoveSpares(c, s, Advance(s, r), r);
  }

  lemma StepSpares(c: Scene, s: Sys, a: Action, src: Row)
    requires AllCarried(c, s) && RowShows(c, s, src) && Spared(c, s) && !a.Crash?
    ensures Spared(c, Step(s, a))
  {
    if a.Run? && a.r < |s.reqs| {
      AdvanceSpares(c, s, a.r, src);
    }
  }

  lemma {:induction false} RunSpares(c: Scene, s: Sys, schedule: seq<Action>, src: Row)
    requires Converging(c, s, src) && Distinct(c) && Within(c, schedule) && Spared(c, s)
    requires forall i :: 0 <= i < |schedule| ==> !schedule[i].Crash?
    ensures Spared(c, RunAll(s, schedule))
    decreases |schedule|
  {
    if schedule != [] {
      var a := schedule[0];
      StepSpares(c, s, a, src);
      var src' := StepConverges(c, s, a, src);
      RunSpares(c, Step(s, a), schedule[1..], src');
    }
  }

  /** Whatever the interleaving, duplication, crashes and pruning, once every request is done the row
      is that of the event with the greatest creation time among those delivered and not dropped, or
      the initial row if that is newer than all; local cancellations may sit on top of it, and without
      them it is exact.  Without crashes nothing is dropped. */
  lemma EveryInterleavingConverges(c: Scene, s: Sys, schedule: seq<Action>)
    requires Opening(c, s) && Distinct(c) && Within(c, schedule)
    ensures var s' := RunAll(s, schedule);
      (forall r :: 0 <= r < |s'.reqs| ==> s'.reqs[r] == Finished) ==>
        && c.rid in s'.db.rows
        && var row, over := s'.db.rows[c.rid], c.rid in s'.log.canceled;
        && (forall e :: Greatest(c, Kept(s'), e) && StampAtMost(c.base.stamp, DataOf(e, 0).stamp) ==>
              Shows(row, DataOf(e, 0), over))
        && ((forall e :: e in Kept(s') && Relevant(c, e) ==> !StampAtMost(c.base.stamp, DataOf(e, 0).stamp)) ==>
              Shows(row, c.base, over))
        && ((forall i :: 0 <= i < |schedule| ==> HarmlessAction(c, schedule[i])) ==> !over)
        && ((forall i :: 0 <= i < |schedule| ==> !schedule[i].Crash?) ==> forall e :: e in s'.log.dropped ==> !Relevant(c, e))
  {
    var s' := RunAll(s, schedule);
    var src := RunConverges(c, s, schedule, c.base);
    if forall i :: 0 <= i < |schedule| ==> HarmlessAction(c, schedule[i]) {
      RunUncanceled(c, s, schedule, c.base);
    }
    if forall i :: 0 <= i < |schedule| ==> !schedule[i].Crash? {
      RunSpares(c, s, schedule, c.base);
    }
    if forall r :: 0 <= r < |s'.reqs| ==> s'.reqs[r] == Finished {
      FinishedShowsNewest(c, s', src);
    }
  }

  // ---------------------------------------------------------------- the ledger

  /** Along every interleaving from rest, a handler is entered for an id at most once more than the
      id was pruned; while the id is in the ledger the two counts differ by exactly one. */
  lemma EntersOncePerLedgerLife(s: Sys, schedule: seq<Action>, id: string)
    requires Start(s)
    ensures var s' := RunAll(s, schedule);
      s'.log.entered[id] == s'.log.pruned[id] + if id in s'.db.ledger then 1 else 0
  {
    EveryInterleavingIsSafe(s, schedule);
  }

  // ---------------------------------------------------------------- what the code does not guarantee

  /** Two first writers, both past a guarded update that matched nothing. */
  function RaceSchedule(older: Event, newer: Event): seq<Action> {
    [Deliver(older), Deliver(newer)] + [Run(0), Run(0), Run(0)] + [Run(1), Run(1), Run(1)] + [Run(0), Run(1)]
  }

  lemma RunAllConcat(s: Sys, xs: seq<Action>, ys: seq<Action>)
    ensures RunAll(s, xs + ys) == RunAll(RunAll(s, xs), ys)
    decreases |xs|
  {
    if xs == [] {
      assert xs + ys == ys;
    } else {
      assert (xs + ys)[1..] == xs[1..] + ys;
      RunAllConcat(Step(s, xs[0]), xs[1..], ys);
    }
  }

  lemma RunTwo(s: Sys, a: Action, b: Action)
    ensures RunAll(s, [a, b]) == Step(Step(s, a), b)
  {
    assert [a, b][1..] == [b];
    assert [b][1..] == [];
    assert RunAll(Step(s, a), [b]) == RunAll(Step(Step(s, a), b), []);
  }

  lemma RunThree(s: Sys, a: Action, b: Action, c: Action)
    ensures RunAll(s, [a, b, c]) == Step(Step(Step(s, a), b), c)
  {
    assert [a, b, c][1..] == [b, c];
    RunTwo(Step(s, a), b, c);
  }

  /** A first writer on its own: ledger, plan lookup, and a guarded update that matches nothing. */
  lemma FirstWriterReachesCreate(s: Sys, r: nat, e: Event)
    requires r < |s.reqs| && s.reqs[r] == Arrived(e) && !Exists(s.db, e.sub.id)
    requires e.kind == Upserted && Complete(e.sub) && Regular(s.db, e) && e.id !in s.db.ledger
    ensures var s' := RunAll(s, [Run(r), Run(r), Run(r)]);
      && s'.reqs == s.reqs[r := Creating(e, DataOf(e, 0))]
      && s'.db == s.db.(ledger := s.db.ledger[e.id := s.clock])
  {
    RunThree(s, Run(r), Run(r), Run(r));
    var s1 := Step(s, Run(r));
    assert s1.reqs == s.reqs[r := Upserting(e)];
    var s2 := Step(s1, Run(r));
    assert s2.reqs == s.reqs[r := Updating(e, DataOf(e, 0))];
    var d := DataOf(e, 0);
    assert !Exists(s2.db, d.stripeSubscriptionId) && !GuardMatches(s2.db, d);
  }

  lemma BothCreate(s: Sys, older: Event, newer: Event)
    requires Complete(older.sub) && Complete(newer.sub) && Regular(s.db, older) && Regular(s.db, newer)
    requires !Exists(s.db, older.sub.id) && older.sub.id == newer.sub.id
    requires s.reqs == [Creating(older, DataOf(older, 0)), Creating(newer, DataOf(newer, 0))]
    ensures var s' := Step(Step(s, Run(0)), Run(1));
      s'.reqs == [Finished, Finished] && s'.db.rows == s.db.rows[s.db.nextRow := DataOf(older, 0)]
  {
    var s1 := CreateRow(s, 0, older, DataOf(older, 0));
    assert Step(s, Run(0)) == s1;
    assert s1.db.rows[s.db.nextRow] == DataOf(older, 0);
    assert Exists(s1.db, newer.sub.id);
    assert s1.reqs == [Finished, Creating(newer, DataOf(newer, 0))];
    var s2 := CreateRow(s1, 1, newer, DataOf(newer, 0));
    assert Step(s1, Run(1)) == s2;
    assert s2.reqs == [Finished, Finished];
    assert Create(s1.db, DataOf(newer, 0)).0 == s1.db;
  }

  /** Without a row to start from convergence fails: the newer of two racing first events is
      swallowed as P2002 and the older one's data stays. */
  lemma FirstWritersMayLoseTheNewer(s: Sys, older: Event, newer: Event)
    requires Start(s) && !Exists(s.db, older.sub.id)
    requires older.kind == newer.kind == Upserted && older.sub.id == newer.sub.id
    requires Complete(older.sub) && Complete(newer.sub) && Regular(s.db, older) && Regular(s.db, newer)
    requires older.id != newer.id && older.id !in s.db.ledger && newer.id !in s.db.ledger
    requires older.created.value < newer.created.value
    ensures var s' := RunAll(s, RaceSchedule(older, newer));
      && s'.reqs == [Finished, Finished]
      && s'.db.rows == s.db.rows[s.db.nextRow := DataOf(older, 0)]
      && !StampAtMost(DataOf(newer, 0).stamp, DataOf(older, 0).stamp)
  {
    var arrive, last := [Deliver(older), Deliver(newer)], [Run(0), Run(1)];
    var run0, run1 := [Run(0), Run(0), Run(0)], [Run(1), Run(1), Run(1)];
    RunAllConcat(s, arrive + run0 + run1, last);
    RunAllConcat(s, arrive + run0, run1);
    RunAllConcat(s, arrive, run0);
    RunTwo(s, Deliver(older), Deliver(newer));
    var s2 := RunAll(s, arrive);
    assert s2.reqs == [Arrived(older), Arrived(newer)];
    FirstWriterReachesCreate(s2, 0, older);
    var s5 := RunAll(s2, run0);
    FirstWriterReachesCreate(s5, 1, newer);
    var s8 := RunAll(s5, run1);
    assert s8.reqs == [Creating(older, DataOf(older, 0)), Creating(newer, DataOf(newer, 0))];
    RunTwo(s8, Run(0), Run(1));
    BothCreate(s8, older, newer);
  }

  lemma AloneUpserts(s: Sys, r: nat, e: Event)
    requires r < |s.reqs| && s.reqs[r] == Upserting(e)
    requires Complete(e.sub) && e.sub.planId.value in s.db.plans
    ensures var s' := Step(Step(Step(s, Run(r)), Run(r)), Run(r));
      s'.reqs == s.reqs[r := Finished] && s'.db == Upsert(s.db, e, s.clock).0
  {
    var d := DataOf(e, s.clock);
    var s1 := LookUpPlan(s, r, e);
    assert s1.reqs[r] == Updating(e, d);
    var s2 := GuardedUpdate(s1, r, e, d);
    assert Step(s1, Run(r)) == s2;
  }

  /** One request scheduled alone does what `Handle` says, whatever its event. */
  lemma AloneIsHandle(s: Sys, r: nat, e: Event)
    requires r < |s.reqs| && s.reqs[r] == Arrived(e)
    ensures var s' := RunAll(s, [Run(r), Run(r), Run(r)] + [Run(r)]);
      s'.reqs == s.reqs[r := Finished] && s'.db == Handle(s.db, e, s.clock).0
  {
    RunAllConcat(s, [Run(r), Run(r), Run(r)], [Run(r)]);
    RunThree(s, Run(r), Run(r), Run(r));
    var s1 := InsertLedger(s, r, e);
    assert Step(s, Run(r)) == s1;
    var s2 := Step(s1, Run(r));
    var s3 := Step(s2, Run(r));
    assert RunAll(s3, [Run(r)]) == RunAll(Step(s3, Run(r)), []);
    if e.id !in s.db.ledger && e.kind == Upserted && Complete(e.sub) && e.sub.planId.value in s.db.plans {
      AloneUpserts(s1, r, e);
    }
  }

  /** The guard does not protect a deletion: handleSubscriptionDeleted leaves the stamp alone, so an
      update processed after it brings the row back to life exactly when its stamp is not below the
      row's, however much older than the deletion it is. */
  lemma LateUpdateAfterDeletion(db: Db, rid: nat, deletion: Event, e: Event, t1: Millis, t2: Millis)
    requires UniqueIds(db) && rid in db.rows && db.rows[rid].stripeSubscriptionId == deletion.sub.id == e.sub.id
    requires deletion.kind == Deleted && e.kind == Upserted && e.id != deletion.id
    requires deletion.id !in db.ledger && e.id !in db.ledger
    requires Complete(e.sub) && Regular(db, e) && MapStripeStatus(e.sub.status) != CANCELED
    ensures var db1 := Handle(db, deletion, t1).0;
      var db2 := Handle(db1, e, t2).0;
      && db1.rows[rid] == Cancel(db.rows[rid], t1)
      && rid in db2.rows
      && (db2.rows[rid].status != CANCELED <==> StampAtMost(db.rows[rid].stamp, DataOf(e, t2).stamp))
      && (db2.rows[rid].status != CANCELED ==> db2.rows[rid] == DataOf(e, t2))
  {
    var db1 := Handle(db, deletion, t1).0;
    assert db1.rows == CancelAll(db, e.sub.id, t1).rows;
    InPlaceKeepsIds(db, db1);
    var db1' := db1.(ledger := db1.ledger[e.id := t2]);
    var d := DataOf(e, t2);
    if Guard(db1'.rows[rid], d) {
      assert GuardMatches(db1', d);
    } else {
      assert !GuardMatches(db1', d) by {
        if m :| m in db1'.rows && Guard(db1'.rows[m], d) {
          assert SameSub(db1'.rows[m], db1'.rows[rid]);
        }
      }
      assert Exists(db1', d.stripeSubscriptionId);
    }
  }
}
