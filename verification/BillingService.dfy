/** The webhook service over mutable tables, statement by statement as the source runs it. */
module BillingService {
  import opened Wrappers
  import opened Billing

  class WebhookStore {
    var ledger: map<string, Millis>
    var rows: map<nat, Row>
    var nextRow: nat
    var plans: set<string>
    var users: set<string>
    var orgs: set<string>

    constructor (db: Db)
      ensures State() == db
    {
      ledger, rows, nextRow := db.ledger, db.rows, db.nextRow;
      plans, users, orgs := db.plans, db.users, db.orgs;
    }

    function State(): Db
      reads this
    {
      Db(ledger, rows, nextRow, plans, users, orgs)
    }

    /** processedWebhookEvent.create; true reports a P2002. */
    method CreateProcessedEvent(id: string, now: Millis) returns (duplicate: bool)
      modifies `ledger
      ensures duplicate == (id in old(ledger))
      ensures ledger == if duplicate then old(ledger) else old(ledger)[id := now]
    {
      duplicate := id in ledger;
      if !duplicate {
        ledger := ledger[id := now];
      }
    }

    /** subscription.updateMany with the ordering guard: whether a row matched, and whether the
        write was refused by a constraint. */
    method UpdateManyGuarded(d: Row) returns (matched: bool, refused: bool)
      modifies `rows
      ensures matched == GuardMatches(old(State()), d)
      ensures refused == (matched && !(OneOwner(d) && ForeignKeysHold(old(State()), d)))
      ensures State() == if matched && !refused then UpdateGuarded(old(State()), d) else old(State())
    {
      matched := exists rid :: rid in rows && Guard(rows[rid], d);
      refused := matched && !(OneOwner(d) && ForeignKeysHold(State(), d));
      if matched && !refused {
        rows := map rid | rid in rows :: if Guard(rows[rid], d) then d else rows[rid];
      }
    }

    /** subscription.create. */
    method CreateSubscription(d: Row) returns (o: Outcome)
      modifies `rows, `nextRow
      ensures (State(), o) == Create(old(State()), d)
    {
      if !OneOwner(d) {
        return Threw;
      }
      if exists rid :: rid in rows && rows[rid].stripeSubscriptionId == d.stripeSubscriptionId {
        return Skipped;
      }
      if !ForeignKeysHold(State(), d) {
        return Threw;
      }
      rows, nextRow := rows[nextRow := d], nextRow + 1;
      return Written;
    }

    method UpsertSubscription(e: Event, now: Millis) returns (o: Outcome)
      requires Complete(e.sub)
      modifies `rows, `nextRow
      ensures (State(), o) == Upsert(old(State()), e, now)
    {
      if e.sub.planId.value !in plans {
        return Skipped;
      }
      var data := DataOf(e, now);
      var matched, refused := UpdateManyGuarded(data);
      if refused {
        return Threw;
      }
      if matched {
        return Written;
      }
      o := CreateSubscription(data);
    }

    method HandleSubscriptionDeleted(sid: string, now: Millis) returns (o: Outcome)
      modifies `rows
      ensures State() == CancelAll(old(State()), sid, now)
      ensures o == if Exists(old(State()), sid) then Written else Skipped
    {
      o := if exists rid :: rid in rows && rows[rid].stripeSubscriptionId == sid then Written else Skipped;
      rows := map rid | rid in rows ::
        if rows[rid].stripeSubscriptionId == sid then Cancel(rows[rid], now) else rows[rid];
    }

    method HandleWebhook(e: Event, now: Millis) returns (o: Outcome)
      modifies this
      ensures (State(), o) == Handle(old(State()), e, now)
    {
      var duplicate := CreateProcessedEvent(e.id, now);
      if duplicate {
        return Skipped;
      }
      match e.kind
      case Upserted =>
        if !Complete(e.sub) {
          return Skipped;
        }
        o := UpsertSubscription(e, now);
      case Deleted =>
        o := HandleSubscriptionDeleted(e.sub.id, now);
      case Other =>
        o := Skipped;
    }

    static lemma SubsetSize(x: set<string>, y: set<string>)
      requires x <= y
      ensures |x| <= |y|
    {
      assert y == x + (y - x);
    }

    static lemma KeysShrink(a: map<string, Millis>, b: map<string, Millis>)
      requires b.Keys <= a.Keys
      ensures |b| <= |a|
    {
      SubsetSize(b.Keys, a.Keys);
      assert |a.Keys| == |a| && |b.Keys| == |b|;
    }

    method CleanupProcessedWebhookEvents(now: Millis, retentionDays: int) returns (deleted: nat)
      modifies `ledger
      ensures State() == PruneLedger(old(State()), now - retentionDays * DAY_MS)
      ensures deleted == |old(ledger)| - |ledger|
    {
      var kept := map id | id in ledger && ledger[id] >= now - retentionDays * DAY_MS :: ledger[id];
      KeysShrink(ledger, kept);
      deleted := |ledger| - |kept|;
      ledger := kept;
    }
  }
}
