/** What a webhook, a cancellation and the ledger cleanup leave behind, read off the event and the old tables. */
module BillingEffects {
  import opened Wrappers
  import opened Billing
  import opened BillingProtocol

  // ---------------------------------------------------------------- what a written row says

  /** The Stripe status by name; whatever is not known counts as incomplete. */
  predicate StatusSays(stripe: string, status: Status) {
    && (status == ACTIVE <==> stripe == "active")
    && (status == TRIALING <==> stripe == "trialing")
    && (status == PAST_DUE <==> stripe == "past_due")
    && (status == CANCELED <==> stripe == "canceled")
    && (status == INCOMPLETE_EXPIRED <==> stripe == "incomplete_expired")
    && (status == UNPAID <==> stripe == "unpaid")
  }

  /** Seconds become milliseconds; nothing, and zero, become nothing. */
  predicate DateSays(seconds: Option<int>, date: Option<Millis>) {
    match date
    case None => seconds == None || seconds == Some(0)
    case Some(ms) => seconds.Some? && ms == 1000 * seconds.value && ms != 0
  }

  /** The period comes from the subscription, or from its first item when the subscription has none. */
  predicate PeriodSays(own: Option<int>, item: Option<int>, date: Option<Millis>) {
    (own.Some? ==> DateSays(own, date)) && (own.None? ==> DateSays(item, date))
  }

  predicate RowSays(e: Event, row: Row, now: Millis) {
    && row.stripeSubscriptionId == e.sub.id && row.stripeCustomerId == e.sub.customer
    && row.userId == e.sub.userId && row.organizationId == e.sub.organizationId && Some(row.planId) == e.sub.planId
    && StatusSays(e.sub.status, row.status)
    && DateSays(e.sub.trialEnd, row.trialEndsAt) && DateSays(e.sub.canceledAt, row.canceledAt)
    && PeriodSays(e.sub.periodStart, e.sub.itemPeriodStart, row.currentPeriodStart)
    && PeriodSays(e.sub.periodEnd, e.sub.itemPeriodEnd, row.currentPeriodEnd)
    && row.stamp == Some(if e.created == None || e.created == Some(0) then now else 1000 * e.created.value)
  }

  lemma DataSays(e: Event, now: Millis)
    requires e.sub.planId.Some?
    ensures RowSays(e, DataOf(e, now), now)
  {
  }

  /** Rows of other subscriptions are the same before and after. */
  ghost predicate OthersSame(a: Db, b: Db, sid: string) {
    && (forall rid :: rid in a.rows && a.rows[rid].stripeSubscriptionId != sid ==> rid in b.rows && b.rows[rid] == a.rows[rid])
    && (forall rid :: rid in b.rows && b.rows[rid].stripeSubscriptionId != sid ==> rid in a.rows)
  }

  lemma UpsertSays(db: Db, e: Event, now: Millis)
    requires UniqueIds(db) && Upsert(db, e, now).1 == Written
    ensures var db' := Upsert(db, e, now).0;
      && Exists(db', e.sub.id) && OthersSame(db, db', e.sub.id)
      && (forall rid :: rid in db'.rows && db'.rows[rid].stripeSubscriptionId == e.sub.id ==> RowSays(e, db'.rows[rid], now))
      && (forall rid :: rid in db.rows ==> rid in db'.rows && SameSub(db.rows[rid], db'.rows[rid]))
  {
    var d := DataOf(e, now);
    var db' := Upsert(db, e, now).0;
    DataSays(e, now);
    if GuardMatches(db, d) {
      var m :| m in db.rows && Guard(db.rows[m], d);
      assert db'.rows[m].stripeSubscriptionId == e.sub.id;
      forall rid | rid in db.rows && db.rows[rid].stripeSubscriptionId == e.sub.id
        ensures rid == m
      {
        assert SameSub(db.rows[rid], db.rows[m]);
      }
    } else {
      assert db'.rows[db.nextRow] == d;
    }
  }

  /** After a write the subscription has a row, the row says what the event says, and no other row moved. */
  lemma WrittenRowSays(db: Db, e: Event, now: Millis)
    requires UniqueIds(db) && e.kind == Upserted && Handle(db, e, now).1 == Written
    ensures var db' := Handle(db, e, now).0;
      && Exists(db', e.sub.id) && OthersSame(db, db', e.sub.id)
      && (forall rid :: rid in db'.rows && db'.rows[rid].stripeSubscriptionId == e.sub.id ==> RowSays(e, db'.rows[rid], now))
      && (forall rid :: rid in db.rows ==> rid in db'.rows && SameSub(db.rows[rid], db'.rows[rid]))
  {
    UpsertSays(db.(ledger := db.ledger[e.id := now]), e, now);
  }

  // ---------------------------------------------------------------- when a row is written

  /** One owner, known to the database. */
  predicate OwnerKnown(db: Db, sub: StripeSub) {
    match (sub.userId, sub.organizationId)
    case (Some(u), None) => u in db.users
    case (None, Some(o)) => o in db.orgs
    case _ => false
  }

  /** The metadata names an owner and a plan that is for sale. */
  predicate Addressed(db: Db, sub: StripeSub) {
    && ((sub.userId.Some? && sub.userId.value != "") || (sub.organizationId.Some? && sub.organizationId.value != ""))
    && sub.planId.Some? && sub.planId.value != "" && sub.planId.value in db.plans
  }

  /** Some row of the subscription is newer than the event. */
  ghost predicate Stale(db: Db, e: Event, now: Millis) {
    exists rid :: rid in db.rows && db.rows[rid].stripeSubscriptionId == e.sub.id && db.rows[rid].stamp.Some?
      && db.rows[rid].stamp.value > (if e.created == None || e.created == Some(0) then now else 1000 * e.created.value)
  }

  lemma StaleIsUnguarded(db: Db, e: Event, now: Millis)
    requires UniqueIds(db) && e.sub.planId.Some?
    ensures Stale(db, e, now) <==> Exists(db, e.sub.id) && !GuardMatches(db, DataOf(e, now))
  {
    var d := DataOf(e, now);
    DataSays(e, now);
    if Exists(db, e.sub.id) {
      var m :| m in db.rows && db.rows[m].stripeSubscriptionId == e.sub.id;
      assert Guard(db.rows[m], d) ==> GuardMatches(db, d);
      forall rid | rid in db.rows && db.rows[rid].stripeSubscriptionId == e.sub.id
        ensures rid == m
      {
        assert SameSub(db.rows[rid], db.rows[m]);
      }
    }
  }

  /** An event not seen before writes its row exactly when it is addressed to one known owner and no
      newer row stands; a stale one is skipped unless it breaks the one-owner check; otherwise the
      database refuses.  Without a write only the ledger changes. */
  lemma WrittenExactly(db: Db, e: Event, now: Millis)
    requires UniqueIds(db) && e.kind == Upserted && e.id !in db.ledger
    ensures var (db', o) := Handle(db, e, now);
      && (o == Written <==> Addressed(db, e.sub) && OwnerKnown(db, e.sub) && !Stale(db, e, now))
      && (o == Threw <==>
            (&& Addressed(db, e.sub) && !OwnerKnown(db, e.sub)
             && (Stale(db, e, now) ==> e.sub.userId.Some? == e.sub.organizationId.Some?)))
      && (o != Written ==> db' == db.(ledger := db.ledger[e.id := now]))
  {
    var db1 := db.(ledger := db.ledger[e.id := now]);
    if Complete(e.sub) {
      StaleIsUnguarded(db1, e, now);
      assert Stale(db1, e, now) <==> Stale(db, e, now);
    }
  }

  // ---------------------------------------------------------------- the other events and writers

  /** Every event not seen before is recorded with its time; a known one changes nothing at all. */
  lemma HandleRecords(db: Db, e: Event, now: Millis)
    ensures var (db', o) := Handle(db, e, now);
      && (e.id in db.ledger ==> db' == db && o == Skipped)
      && (e.id !in db.ledger ==> db'.ledger == db.ledger[e.id := now])
      && (e.kind == Other ==> db'.rows == db.rows && o == Skipped)
  {
  }

  /** A deletion event cancels the row as of now and changes no other column and no other row. */
  lemma DeletionSays(db: Db, e: Event, now: Millis)
    requires e.kind == Deleted && e.id !in db.ledger
    ensures var (db', o) := Handle(db, e, now);
      && db'.rows.Keys == db.rows.Keys && OthersSame(db, db', e.sub.id)
      && (forall rid :: rid in db.rows && db.rows[rid].stripeSubscriptionId == e.sub.id ==>
            db'.rows[rid] == db.rows[rid].(status := CANCELED, canceledAt := Some(now)))
      && (o == Written <==> Exists(db, e.sub.id)) && o != Threw
  {
  }

  /** The cleanup keeps exactly the ledger rows recorded within the retention, and every subscription. */
  lemma PruneSays(s: Sys, days: int, id: string)
    requires id in s.db.ledger
    ensures var s' := Step(s, Prune(days));
      && (id in s'.db.ledger <==> s.clock <= s.db.ledger[id] + days * 86400000)
      && (id in s'.db.ledger ==> s'.db.ledger[id] == s.db.ledger[id])
      && s'.db.rows == s.db.rows
  {
  }

  /** The two statements of a cancellation request, back to back. */
  lemma CancelTwice(s: Sys, r: nat, rid: nat, accepted: bool)
    requires r < |s.reqs| && s.reqs[r] == CancelReading(rid, accepted) && rid in s.db.rows
    ensures var row := s.db.rows[rid];
      Advance(Advance(s, r), r).db == if accepted && (row.status == ACTIVE || row.status == TRIALING)
        then s.db.(rows := s.db.rows[rid := row.(status := CANCELED, canceledAt := Some(s.clock))])
        else s.db
  {
    var s1 := Advance(s, r);
    if s1.reqs[r] == CancelWriting(rid) {
      assert Advance(s1, r) == CancelRow(s1, r, rid);
    } else {
      assert s1.reqs[r] == Finished && Advance(s1, r) == s1;
    }
  }

  /** A cancellation request run alone cancels the row it found active or trialing, once Stripe
      accepts, and otherwise changes no row. */
  lemma CancelAlone(s: Sys, rid: nat, accepted: bool)
    requires rid in s.db.rows
    ensures var s1 := Step(s, RequestCancel(rid, accepted));
      var row := s.db.rows[rid];
      Step(Step(s1, Run(|s.reqs|)), Run(|s.reqs|)).db == if accepted && (row.status == ACTIVE || row.status == TRIALING)
        then s.db.(rows := s.db.rows[rid := row.(status := CANCELED, canceledAt := Some(s.clock))])
        else s.db
  {
    var s1, r := Step(s, RequestCancel(rid, accepted)), |s.reqs|;
    assert s1.reqs[r] == CancelReading(rid, accepted);
    CancelTwice(s1, r, rid, accepted);
    assert Step(s1, Run(r)) == Advance(s1, r) && |Advance(s1, r).reqs| == |s1.reqs|;
  }

  /** The clock never goes back, and moves only by waiting. */
  lemma ClockForward(s: Sys, a: Action)
    ensures Step(s, a).clock == s.clock + if a.Wait? then a.ms else 0
  {
  }
}
