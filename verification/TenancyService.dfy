/** The organization, invitation and deletion services over mutable tables, statement by statement. */
module TenancyService {
  import opened Wrappers
  import opened Tenancy

  /** Stripe, for the one call these services make. */
  class StripeApi {
    var canceled: set<string>
    const failing: set<string>

    constructor (canceled: set<string>, failing: set<string>)
      ensures this.canceled == canceled && this.failing == failing
    {
      this.canceled, this.failing := canceled, failing;
    }

    /** subscriptions.cancel: false when Stripe rejects the call. */
    method CancelSubscription(stripeId: string) returns (ok: bool)
      modifies this
      ensures ok == (stripeId !in failing)
      ensures canceled == old(canceled) + (if ok then {stripeId} else {})
    {
      ok := stripeId !in failing;
      if ok {
        canceled := canceled + {stripeId};
      }
    }
  }

  class TenancyStore {
    var users: map<Uid, User>
    var orgs: map<Oid, Org>
    var members: map<(Oid, Uid), Role>
    var invitations: map<nat, Invitation>
    var subs: map<nat, Subscription>
    var nextUser: Uid
    var nextOrg: Oid
    var nextInvitation: nat
    var nextSub: nat
    var clock: nat
    const stripeConfigured: bool
    const stripe: StripeApi

    constructor (db: Db, stripe: StripeApi)
      requires stripe.canceled == db.canceled
      ensures Tables() == db && this.stripe == stripe
    {
      users, orgs, members := db.users, db.orgs, db.members;
      invitations, subs := db.invitations, db.subs;
      nextUser, nextOrg, nextInvitation, nextSub := db.nextUser, db.nextOrg, db.nextInvitation, db.nextSub;
      clock, stripeConfigured := db.clock, db.stripeConfigured;
      this.stripe := stripe;
    }

    function Tables(): Db
      reads this, stripe
    {
      Db(users, orgs, members, invitations, subs, nextUser, nextOrg, nextInvitation, nextSub, clock, stripeConfigured, stripe.canceled)
    }

    /** findMany of live subscriptions. */
    method FindLive(wanted: set<nat>) returns (ids: seq<nat>)
      ensures ids == LiveRows(Tables(), wanted, nextSub)
    {
      ids := [];
      ghost var db := Tables();
      for n := 0 to nextSub
        invariant ids == LiveRows(db, wanted, n)
      {
        if n in wanted && n in subs && Billing(subs[n].status) {
          ids := ids + [n];
        }
      }
    }

    /** The loop shared by deleteAccount and deleteOrganization: one Stripe call per subscription,
        giving up at the first rejection. */
    method CancelEach(ids: seq<nat>) returns (ok: bool)
      requires forall id :: id in ids ==> id in subs
      modifies stripe
      ensures (Tables(), ok) == CancelAtStripe(old(Tables()), ids, stripe.failing)
    {
      var i := 0;
      while i < |ids|
        invariant 0 <= i <= |ids|
        invariant CancelAtStripe(old(Tables()), ids, stripe.failing) == CancelAtStripe(Tables(), ids[i..], stripe.failing)
        invariant Tables() == old(Tables()).(canceled := stripe.canceled)
      {
        assert ids[i..][0] == ids[i] && ids[i..][1..] == ids[i + 1..];
        var accepted := stripe.CancelSubscription(subs[ids[i]].stripeId);
        if !accepted {
          assert stripe.canceled + {} == stripe.canceled;
          return false;
        }
        i := i + 1;
      }
      ok := true;
    }

    /** The hard delete, with the cascades the database performs. */
    method DeleteUser(u: Uid)
      modifies this
      ensures Tables() == CascadeDelete(old(Tables()), u)
    {
      var owned := set o | o in orgs && orgs[o].ownerId == u;
      var doomed := AccountSubs(Tables(), u);
      subs := map id | id in subs && id !in doomed :: subs[id];
      invitations := map i | i in invitations && invitations[i].inviterId != u && invitations[i].orgId !in owned :: invitations[i];
      members := map m | m in members && m.1 != u && m.0 !in owned :: members[m];
      orgs := orgs - owned;
      users := users - {u};
    }

    method DeleteAccountOf(u: Uid, password: string) returns (r: Reply)
      modifies this, stripe
      ensures (Tables(), r) == DeleteAccount(old(Tables()), u, password, stripe.failing)
    {
      if u !in users || users[u].deleted || users[u].password != Some(password) {
        return Refused;
      }
      if users[u].admin {
        var admins := set v | v in users && users[v].admin && !users[v].deleted;
        assert admins == Admins(Tables());
        if |admins| <= 1 {
          return Refused;
        }
      }
      var ownedOrgs := set o | o in orgs && orgs[o].ownerId == u;
      if exists o :: o in ownedOrgs && |MembersOf(Tables(), o)| > 1 {
        return Refused;
      }
      if stripeConfigured {
        var live := FindLive(AccountSubs(Tables(), u));
        var ok := CancelEach(live);
        if !ok {
          return StripeFailed;
        }
      }
      DeleteUser(u);
      r := Ok;
    }

    method DeleteOrganizationOf(caller: Uid, o: Oid) returns (r: Reply)
      modifies this, stripe
      ensures (Tables(), r) == DeleteOrganization(old(Tables()), caller, o, stripe.failing)
    {
      if !Admitted(Tables(), caller, o, {OWNER}) {
        return Refused;
      }
      if stripeConfigured {
        var live := FindLive(OrgSubs(Tables(), o));
        var ok := CancelEach(live);
        if !ok {
          return StripeFailed;
        }
        subs := map id | id in subs :: if id in live then subs[id].(status := S_CANCELED) else subs[id];
      }
      orgs := orgs[o := orgs[o].(deleted := true)];
      r := Ok;
    }

    method CreateOrganizationFor(caller: Uid, slug: string) returns (r: Reply)
      modifies this
      ensures (Tables(), r) == CreateOrganization(old(Tables()), caller, slug)
    {
      if caller !in users || exists o :: o in orgs && orgs[o].slug == slug {
        return Refused;
      }
      orgs := orgs[nextOrg := Org(caller, slug, false)];
      members := members[(nextOrg, caller) := OWNER];
      nextOrg := nextOrg + 1;
      r := Ok;
    }

    method UpdateRole(caller: Uid, o: Oid, target: Uid, role: Role) returns (r: Reply)
      modifies `members
      ensures (Tables(), r) == UpdateMemberRole(old(Tables()), caller, o, target, role)
    {
      if role == OWNER || !Admitted(Tables(), caller, o, {OWNER, ADMIN}) {
        return Refused;
      }
      if (o, target) !in members || members[(o, target)] == OWNER {
        return Refused;
      }
      members := members[(o, target) := role];
      r := Ok;
    }

    /** One transaction of three updates. */
    method Transfer(caller: Uid, o: Oid, newOwner: Uid) returns (r: Reply)
      modifies `orgs, `members
      ensures (Tables(), r) == TransferOwnership(old(Tables()), caller, o, newOwner)
    {
      if !Admitted(Tables(), caller, o, {OWNER}) || newOwner == caller || (o, newOwner) !in members {
        return Refused;
      }
      orgs := orgs[o := orgs[o].(ownerId := newOwner)];
      members := members[(o, newOwner) := OWNER];
      members := members[(o, caller) := ADMIN];
      r := Ok;
    }

    method Remove(caller: Uid, o: Oid, target: Uid) returns (r: Reply)
      modifies `members
      ensures (Tables(), r) == RemoveMember(old(Tables()), caller, o, target)
    {
      if !Admitted(Tables(), caller, o, {OWNER, ADMIN}) || (o, target) !in members || members[(o, target)] == OWNER {
        return Refused;
      }
      members := members - {(o, target)};
      r := Ok;
    }

    method Invite(caller: Uid, o: Oid, email: string, role: Role) returns (r: Reply)
      modifies `invitations, `nextInvitation
      ensures (Tables(), r) == CreateInvitation(old(Tables()), caller, o, email, role)
    {
      if !Admitted(Tables(), caller, o, {OWNER, ADMIN}) || role == OWNER {
        return Refused;
      }
      if LiveMemberWithEmail(Tables(), o, email) || HasPending(Tables(), o, email) {
        return Refused;
      }
      invitations := invitations[nextInvitation :=
        Invitation(o, caller, email, role, PENDING, clock + INVITATION_TTL_MS, clock)];
      nextInvitation := nextInvitation + 1;
      r := Ok;
    }

    method Accept(u: Uid, i: nat) returns (r: Reply)
      modifies `invitations, `members
      ensures (Tables(), r) == AcceptInvitation(old(Tables()), u, i)
    {
      if i !in invitations || invitations[i].status != PENDING {
        return Refused;
      }
      var invitation := invitations[i];
      if invitation.expiresAt < clock {
        invitations := invitations[i := invitation.(status := EXPIRED, updatedAt := clock)];
        return Refused;
      }
      if u !in users || users[u].deleted || users[u].email != invitation.email {
        return Refused;
      }
      invitations := invitations[i := invitation.(status := ACCEPTED, updatedAt := clock)];
      if (invitation.orgId, u) in members {
        return Refused;
      }
      members := members[(invitation.orgId, u) := invitation.role];
      r := Ok;
    }

    method Decline(u: Uid, i: nat) returns (r: Reply)
      modifies `invitations
      ensures (Tables(), r) == DeclineInvitation(old(Tables()), u, i)
    {
      if i !in invitations || invitations[i].status != PENDING {
        return Refused;
      }
      var invitation := invitations[i];
      if invitation.expiresAt < clock {
        invitations := invitations[i := invitation.(status := EXPIRED, updatedAt := clock)];
        return Refused;
      }
      if u !in users || users[u].deleted || users[u].email != invitation.email {
        return Refused;
      }
      invitations := invitations[i := invitation.(status := DECLINED, updatedAt := clock)];
      r := Ok;
    }

    method CancelPending(caller: Uid, o: Oid, i: nat) returns (r: Reply)
      modifies `invitations
      ensures (Tables(), r) == CancelInvitation(old(Tables()), caller, o, i)
    {
      if !Admitted(Tables(), caller, o, {OWNER, ADMIN}) {
        return Refused;
      }
      if i !in invitations || invitations[i].orgId != o || invitations[i].status != PENDING {
        return Refused;
      }
      invitations := invitations[i := invitations[i].(status := CANCELED, updatedAt := clock)];
      r := Ok;
    }

    method Restore(caller: Uid, o: Oid) returns (r: Reply)
      modifies `orgs
      ensures (Tables(), r) == RestoreOrganization(old(Tables()), caller, o)
    {
      if !AdmittedEvenDeleted(Tables(), caller, o, {OWNER}) || !orgs[o].deleted {
        return Refused;
      }
      orgs := orgs[o := orgs[o].(deleted := false)];
      r := Ok;
    }

    method CleanupTerminalInvitations(retentionDays: int)
      modifies `invitations
      ensures Tables() == CleanupInvitations(old(Tables()), retentionDays)
    {
      invitations := map i | i in invitations
          && !(invitations[i].status in {ACCEPTED, DECLINED, EXPIRED, CANCELED}
               && invitations[i].updatedAt < clock - retentionDays * DAY_MS)
        :: invitations[i];
    }
  }
}
