/** Stripe webhooks: rows, events, the database statements of the handlers, and one request run alone. */
module Billing {
  import opened Wrappers

  // ---------------------------------------------------------------- data

  datatype Status = ACTIVE | TRIALING | PAST_DUE | CANCELED | INCOMPLETE | INCOMPLETE_EXPIRED | UNPAID

  /** A row of the subscriptions table; `stamp` is the column stripeEventCreatedAt. */
  datatype Row = Row(
    userId: Option<string>, organizationId: Option<string>, planId: string,
    stripeSubscriptionId: string, stripeCustomerId: string, status: Status,
    trialEndsAt: Option<Millis>, currentPeriodStart: Option<Millis>, currentPeriodEnd: Option<Millis>,
    canceledAt: Option<Millis>, stamp: Option<Millis>)

  /** The subscription object inside an event; times are in seconds. */
  datatype StripeSub = StripeSub(
    id: string, customer: string, status: string,
    userId: Option<string>, organizationId: Option<string>, planId: Option<string>,
    trialEnd: Option<int>, periodStart: Option<int>, periodEnd: Option<int>,
    itemPeriodStart: Option<int>, itemPeriodEnd: Option<int>, canceledAt: Option<int>)

  /** `Upserted` stands for both customer.subscription.created and .updated, which share a case. */
  datatype Kind = Upserted | Deleted | Other

  datatype Event = Event(id: string, kind: Kind, created: Option<int>, sub: StripeSub)

  datatype Db = Db(
    ledger: map<string, Millis>, rows: map<nat, Row>, nextRow: nat,
    plans: set<string>, users: set<string>, orgs: set<string>)

  function MapStripeStatus(s: string): Status {
    match s
    case "active" => ACTIVE
    case "trialing" => TRIALING
    case "past_due" => PAST_DUE
    case "canceled" => CANCELED
    case "incomplete" => INCOMPLETE
    case "incomplete_expired" => INCOMPLETE_EXPIRED
    case "unpaid" => UNPAID
    case _ => INCOMPLETE
  }

  /** A JavaScript string is truthy when present and not empty. */
  predicate Truthy(s: Option<string>) {
    s.Some? && s.value != ""
  }

  /** `x ? new Date(x * 1000) : null`: zero counts as absent. */
  function ToDate(seconds: Option<int>): Option<Millis> {
    if seconds.Some? && seconds.value != 0 then Some(seconds.value * 1000) else None
  }

  /** Owner and plan metadata present; otherwise the handler skips the event. */
  predicate Complete(sub: StripeSub) {
    (Truthy(sub.userId) || Truthy(sub.organizationId)) && Truthy(sub.planId)
  }

  function StampOf(e: Event, now: Millis): Millis {
    ToDate(e.created).GetOr(now)
  }

  function Coalesce(a: Option<int>, b: Option<int>): Option<int> {
    if a.Some? then a else b
  }

  /** The columns upsertSubscription writes for an event. */
  function DataOf(e: Event, now: Millis): Row
    requires e.sub.planId.Some?
  {
    Row(e.sub.userId, e.sub.organizationId, e.sub.planId.value,
        e.sub.id, e.sub.customer, MapStripeStatus(e.sub.status),
        ToDate(e.sub.trialEnd),
        ToDate(Coalesce(e.sub.periodStart, e.sub.itemPeriodStart)),
        ToDate(Coalesce(e.sub.periodEnd, e.sub.itemPeriodEnd)),
        ToDate(e.sub.canceledAt),
        Some(StampOf(e, now)))
  }

  // ---------------------------------------------------------------- statements

  /** The CHECK constraint subscriptions_owner_xor_check. */
  predicate OneOwner(d: Row) {
    d.userId.Some? != d.organizationId.Some?
  }

  predicate ForeignKeysHold(db: Db, d: Row) {
    && d.planId in db.plans
    && (d.userId.Some? ==> d.userId.value in db.users)
    && (d.organizationId.Some? ==> d.organizationId.value in db.orgs)
  }

  predicate StampAtMost(a: Option<Millis>, b: Option<Millis>) {
    a.None? || (b.Some? && a.value <= b.value)
  }

  /** The `where` of the guarded updateMany. */
  predicate Guard(row: Row, d: Row) {
    row.stripeSubscriptionId == d.stripeSubscriptionId && StampAtMost(row.stamp, d.stamp)
  }

  predicate Exists(db: Db, sid: string) {
    exists rid :: rid in db.rows && db.rows[rid].stripeSubscriptionId == sid
  }

  predicate GuardMatches(db: Db, d: Row) {
    exists rid :: rid in db.rows && Guard(db.rows[rid], d)
  }

  function UpdateGuarded(db: Db, d: Row): Db {
    db.(rows := map rid | rid in db.rows :: if Guard(db.rows[rid], d) then d else db.rows[rid])
  }

  datatype Outcome = Written | Skipped | Threw

  /** INSERT: the CHECK is evaluated first, then the unique index (P2002, swallowed), then the foreign keys. */
  function Create(db: Db, d: Row): (Db, Outcome) {
    if !OneOwner(d) then (db, Threw)
    else if Exists(db, d.stripeSubscriptionId) then (db, Skipped)
    else if !ForeignKeysHold(db, d) then (db, Threw)
    else (db.(rows := db.rows[db.nextRow := d], nextRow := db.nextRow + 1), Written)
  }

  function Cancel(row: Row, now: Millis): Row {
    row.(status := CANCELED, canceledAt := Some(now))
  }

  /** The updateMany of handleSubscriptionDeleted: no guard, and the stamp stays. */
  function CancelAll(db: Db, sid: string, now: Millis): Db {
    db.(rows := map rid | rid in db.rows ::
      if db.rows[rid].stripeSubscriptionId == sid then Cancel(db.rows[rid], now) else db.rows[rid])
  }

  function PruneLedger(db: Db, cutoff: Millis): Db {
    db.(ledger := map id | id in db.ledger && db.ledger[id] >= cutoff :: db.ledger[id])
  }

  // ---------------------------------------------------------------- one request alone

  function Upsert(db: Db, e: Event, now: Millis): (Db, Outcome) {
    if !Complete(e.sub) || e.sub.planId.value !in db.plans then (db, Skipped)
    else
      var d := DataOf(e, now);
      if GuardMatches(db, d) then
        if OneOwner(d) && ForeignKeysHold(db, d) then (UpdateGuarded(db, d), Written) else (db, Threw)
      else Create(db, d)
  }

  /** handleWebhook for a verified event, with no other request running. */
  function Handle(db: Db, e: Event, now: Millis): (Db, Outcome) {
    if e.id in db.ledger then (db, Skipped)
    else
      var db1 := db.(ledger := db.ledger[e.id := now]);
      match e.kind
      case Upserted => Upsert(db1, e, now)
      case Deleted => (CancelAll(db1, e.sub.id, now), if Exists(db1, e.sub.id) then Written else Skipped)
      case Other => (db1, Skipped)
  }
}
