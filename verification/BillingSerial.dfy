/** Serial webhook deliveries: duplicates, any order, and ledger pruning leave the newest event's row. */
module BillingSerial {
  import opened Wrappers
  import opened Billing
  import opened BillingProtocol

  // ---------------------------------------------------------------- serial deliveries

  datatype SerialOp = Process(event: Event) | PruneNow(retentionDays: int)

  datatype Timed = Timed(at: Millis, op: SerialOp)

  function ProcessOne(db: Db, t: Timed): Db {
    match t.op
    case Process(e) => Handle(db, e, t.at).0
    case PruneNow(days) => PruneLedger(db, t.at - days * DAY_MS)
  }

  function ProcessAll(db: Db, ops: seq<Timed>): Db
    decreases |ops|
  {
    if ops == [] then db else ProcessAll(ProcessOne(db, ops[0]), ops[1..])
  }

  /** The row of a subscription, when there is one. */
  ghost function Current(db: Db, sid: string): (r: Option<Row>)
    ensures r.Some? <==> Exists(db, sid)
    ensures r.Some? ==> exists rid :: rid in db.rows && db.rows[rid].stripeSubscriptionId == sid && r.value == db.rows[rid]
  {
    if rid :| rid in db.rows && db.rows[rid].stripeSubscriptionId == sid then Some(db.rows[rid]) else None
  }

  /** Known plan, full metadata, one existing owner, own timestamp: what a delivery is assumed to be. */
  predicate Usable(db: Db, e: Event) {
    e.kind == Upserted && Complete(e.sub) && e.sub.planId.value in db.plans && Regular(db, e)
  }

  function Merge(row: Option<Row>, e: Event): Option<Row>
    requires e.sub.planId.Some?
  {
    if row.None? || StampAtMost(row.value.stamp, DataOf(e, 0).stamp) then Some(DataOf(e, 0)) else row
  }

  lemma CurrentIs(db: Db, sid: string, rid: nat)
    requires UniqueIds(db) && rid in db.rows && db.rows[rid].stripeSubscriptionId == sid
    ensures Current(db, sid) == Some(db.rows[rid])
  {
    var m :| m in db.rows && db.rows[m].stripeSubscriptionId == sid && Current(db, sid).value == db.rows[m];
    assert SameSub(db.rows[m], db.rows[rid]);
  }

  lemma OthersKept(db: Db, db': Db, sid: string)
    requires UniqueIds(db) && UniqueIds(db')
    requires forall rid | rid in db.rows && db.rows[rid].stripeSubscriptionId == sid ::
               rid in db'.rows && db'.rows[rid] == db.rows[rid]
    requires forall rid | rid in db'.rows && db'.rows[rid].stripeSubscriptionId == sid ::
               rid in db.rows && db.rows[rid].stripeSubscriptionId == sid
    ensures Current(db', sid) == Current(db, sid)
  {
    if Exists(db, sid) {
      var m :| m in db.rows && db.rows[m].stripeSubscriptionId == sid;
      CurrentIs(db, sid, m);
      CurrentIs(db', sid, m);
    }
  }

  /** One usable delivery: the subscription's row merges the event, every other row is untouched. */
  lemma UpsertMerges(db: Db, e: Event, now: Millis, sid: string)
    requires UniqueIds(db) && Usable(db, e)
    ensures var db' := Upsert(db, e, now).0;
      && UniqueIds(db') && SameReferences(db, db')
      && Current(db', sid) == if e.sub.id == sid then Merge(Current(db, sid), e) else Current(db, sid)
  {
    var d := DataOf(e, 0);
    var db' := Upsert(db, e, now).0;
    if GuardMatches(db, d) {
      UpdateInPlace(db, d);
      InPlaceKeepsIds(db, db');
      var m :| m in db.rows && Guard(db.rows[m], d);
      CurrentIs(db, e.sub.id, m);
      CurrentIs(db', e.sub.id, m);
      if e.sub.id != sid {
        OthersKept(db, db', sid);
      }
    } else {
      CreateKeepsIds(db, d);
      if !Exists(db, e.sub.id) {
        CurrentIs(db', e.sub.id, db.nextRow);
        if e.sub.id != sid {
          OthersKept(db, db', sid);
        }
      } else {
        var m :| m in db.rows && db.rows[m].stripeSubscriptionId == e.sub.id;
        assert !Guard(db.rows[m], d);
        CurrentIs(db, e.sub.id, m);
      }
    }
  }

  /** The events of a serial run, in order, duplicates included. */
  function Processed(ops: seq<Timed>): seq<Event> {
    if ops == [] then []
    else (if ops[0].op.Process? then [ops[0].op.event] else []) + Processed(ops[1..])
  }

  /** The row after merging the events of `sid`, without any ledger. */
  function MergeAll(row: Option<Row>, events: seq<Event>, sid: string): Option<Row>
    requires forall e :: e in events ==> e.sub.planId.Some?
    decreases |events|
  {
    if events == [] then row
    else MergeAll(if events[0].sub.id == sid then Merge(row, events[0]) else row, events[1..], sid)
  }

  /** An event already merged changes nothing: what makes losing a ledger entry harmless. */
  ghost predicate Absorbed(row: Option<Row>, e: Event)
    requires e.sub.planId.Some?
  {
    row.Some? && (row.value == DataOf(e, 0) || !StampAtMost(row.value.stamp, DataOf(e, 0).stamp))
  }

  /** `seen` is what has been delivered so far. */
  ghost predicate LedgerTold(db: Db, seen: set<Event>, events: set<Event>, sid: string)
    requires forall e :: e in events ==> e.sub.planId.Some?
  {
    && UniqueIds(db) && seen <= events
    && (forall e | e in events && e.id in db.ledger :: e in seen)
    && (forall e | e in seen && e.sub.id == sid :: Absorbed(Current(db, sid), e))
  }

  /** Usable events, told apart by id, and by creation time within a subscription. */
  ghost predicate AllUsable(db: Db, events: set<Event>) {
    && (forall e | e in events :: Usable(db, e))
    && (forall e, f | e in events && f in events && e.id == f.id :: e == f)
    && (forall e, f | e in events && f in events && e.sub.id == f.sub.id && e.created == f.created :: e == f)
  }

  lemma MergeAbsorbs(row: Option<Row>, e: Event, f: Event)
    requires e.sub.planId.Some? && f.sub.planId.Some?
    requires Absorbed(row, f) && (DataOf(e, 0).stamp == DataOf(f, 0).stamp ==> e == f)
    ensures Absorbed(Merge(row, e), f)
  {
  }

  lemma ProcessNew(db: Db, e: Event, now: Millis, sid: string)
    requires UniqueIds(db) && Usable(db, e) && e.id !in db.ledger
    ensures var db' := Handle(db, e, now).0;
      && UniqueIds(db') && SameReferences(db, db') && db'.ledger == db.ledger[e.id := now]
      && Current(db', sid) == if e.sub.id == sid then Merge(Current(db, sid), e) else Current(db, sid)
  {
    var db1 := db.(ledger := db.ledger[e.id := now]);
    OthersKept(db, db1, sid);
    UpsertMerges(db1, e, now, sid);
  }

  lemma ProcessTells(db: Db, e: Event, now: Millis, seen: set<Event>, events: set<Event>, sid: string)
    requires AllUsable(db, events) && LedgerTold(db, seen, events, sid) && e in events
    ensures var db' := Handle(db, e, now).0;
      && SameReferences(db, db')
      && LedgerTold(db', seen + {e}, events, sid)
      && Current(db', sid) == if e.sub.id == sid then Merge(Current(db, sid), e) else Current(db, sid)
  {
    if e.id !in db.ledger {
      ProcessNew(db, e, now, sid);
      forall f | f in seen && f.sub.id == sid && e.sub.id == sid
        ensures Absorbed(Merge(Current(db, sid), e), f)
      {
        assert Regular(db, e) && Regular(db, f);
        MergeAbsorbs(Current(db, sid), e, f);
      }
    }
  }

  /** The dedupe ledger and its pruning are invisible in the row: a serial run leaves what merging
      the delivered events in order leaves, duplicates and redelivery after a prune included. */
  lemma {:induction false} LedgerIsInvisible(db: Db, ops: seq<Timed>, seen: set<Event>, events: set<Event>, sid: string)
    requires AllUsable(db, events) && LedgerTold(db, seen, events, sid)
    requires forall e :: e in Processed(ops) ==> e in events
    ensures Current(ProcessAll(db, ops), sid) == MergeAll(Current(db, sid), Processed(ops), sid)
    decreases |ops|
  {
    if ops != [] {
      var db' := ProcessOne(db, ops[0]);
      match ops[0].op
      case Process(e) =>
        assert Processed(ops)[0] == e && Processed(ops)[1..] == Processed(ops[1..]);
        ProcessTells(db, e, ops[0].at, seen, events, sid);
        assert AllUsable(db', events);
        LedgerIsInvisible(db', ops[1..], seen + {e}, events, sid);
      case PruneNow(_) =>
        assert Processed(ops) == Processed(ops[1..]);
        OthersKept(db, db', sid);
        assert AllUsable(db', events);
        LedgerIsInvisible(db', ops[1..], seen, events, sid);
    }
  }

  /** The initial row if it is newer than every event, else the newest event. */
  ghost predicate NewestOf(row: Option<Row>, events: set<Event>, r: Option<Row>)
    requires forall e :: e in events ==> e.sub.planId.Some?
  {
    || (r == row && forall e :: e in events ==> row.Some? && !StampAtMost(row.value.stamp, DataOf(e, 0).stamp))
    || (exists e ::
          && e in events && r == Some(DataOf(e, 0))
          && (row.Some? ==> StampAtMost(row.value.stamp, DataOf(e, 0).stamp))
          && forall f :: f in events ==> StampAtMost(DataOf(f, 0).stamp, DataOf(e, 0).stamp))
  }

  lemma MergeNewest(row: Option<Row>, e: Event, tail: set<Event>, r: Option<Row>)
    requires e.sub.planId.Some? && ToDate(e.created).Some?
    requires forall f :: f in tail ==> f.sub.planId.Some? && ToDate(f.created).Some?
    requires NewestOf(Merge(row, e), tail, r)
    ensures NewestOf(row, {e} + tail, r)
  {
    var row' := Merge(row, e);
    if r == row' && forall f :: f in tail ==> row'.Some? && !StampAtMost(row'.value.stamp, DataOf(f, 0).stamp) {
      assert e in {e} + tail;
    } else {
      var g :| g in tail && r == Some(DataOf(g, 0))
        && (row'.Some? ==> StampAtMost(row'.value.stamp, DataOf(g, 0).stamp))
        && forall f :: f in tail ==> StampAtMost(DataOf(f, 0).stamp, DataOf(g, 0).stamp);
      assert g in {e} + tail;
    }
  }

  lemma {:induction false} MergeAllIsNewest(row: Option<Row>, events: seq<Event>, sid: string)
    requires forall e :: e in events ==> e.sub.planId.Some? && ToDate(e.created).Some? && e.sub.id == sid
    ensures NewestOf(row, (set e | e in events), MergeAll(row, events, sid))
    decreases |events|
  {
    if events != [] {
      var tail := events[1..];
      MergeAllIsNewest(Merge(row, events[0]), tail, sid);
      MergeNewest(row, events[0], (set e | e in tail), MergeAll(row, events, sid));
      assert events == [events[0]] + tail;
      assert (set e | e in events) == {events[0]} + (set e | e in tail);
    }
  }

  lemma NewestIsUnique(db: Db, row: Option<Row>, events: set<Event>, sid: string, r: Option<Row>, r': Option<Row>)
    requires AllUsable(db, events) && forall e :: e in events ==> e.sub.id == sid
    requires NewestOf(row, events, r) && NewestOf(row, events, r')
    ensures r == r'
  {
    forall e, f | e in events && f in events && DataOf(e, 0).stamp == DataOf(f, 0).stamp
      ensures e == f
    {
      assert Regular(db, e) && Regular(db, f);
      assert e.created == f.created;
    }
  }

  /** Any two serial runs delivering the same events, in whatever order, with whatever duplicates
      and prunes, end with the same row: that of the newest event, or the initial row if newer. */
  lemma SerialRunsAgree(db: Db, ops: seq<Timed>, ops': seq<Timed>, events: set<Event>, sid: string)
    requires AllUsable(db, events) && LedgerTold(db, {}, events, sid)
    requires forall e :: e in events ==> e.sub.id == sid
    requires (set e | e in Processed(ops)) == (set e | e in Processed(ops')) == events
    ensures Current(ProcessAll(db, ops), sid) == Current(ProcessAll(db, ops'), sid)
    ensures NewestOf(Current(db, sid), events, Current(ProcessAll(db, ops), sid))
  {
    var row := Current(db, sid);
    assert forall e :: e in Processed(ops) ==> e in (set x | x in Processed(ops));
    assert forall e :: e in Processed(ops') ==> e in (set x | x in Processed(ops'));
    assert forall e :: e in events ==> Usable(db, e);
    LedgerIsInvisible(db, ops, {}, events, sid);
    LedgerIsInvisible(db, ops', {}, events, sid);
    MergeAllIsNewest(row, Processed(ops), sid);
    MergeAllIsNewest(row, Processed(ops'), sid);
    NewestIsUnique(db, row, events, sid, MergeAll(row, Processed(ops), sid), MergeAll(row, Processed(ops'), sid));
  }
}
