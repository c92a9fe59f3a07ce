/**
 Organizations, memberships, invitations, subscriptions and account deletion as one serial state
 machine over the tables, with the cascade rules of the schema and Stripe as an external party.
 */
module Tenancy {
  import opened Wrappers

  type Uid = nat
  type Oid = nat

  const INVITATION_TTL_MS: nat := 7 * DAY_MS

  // ---------------------------------------------------------------- data

  datatype Role = OWNER | ADMIN | MEMBER

  datatype InvitationStatus = PENDING | ACCEPTED | DECLINED | EXPIRED | CANCELED

  datatype SubscriptionStatus = S_ACTIVE | S_TRIALING | S_PAST_DUE | S_CANCELED | S_OTHER

  datatype User = User(email: string, deleted: bool, password: Option<string>, admin: bool)

  datatype Org = Org(ownerId: Uid, slug: string, deleted: bool)

  datatype Invitation = Invitation(
    orgId: Oid, inviterId: Uid, email: string, role: Role, status: InvitationStatus, expiresAt: nat, updatedAt: nat)

  datatype SubOwner = OfUser(u: Uid) | OfOrg(o: Oid)

  datatype Subscription = Subscription(owner: SubOwner, stripeId: string, status: SubscriptionStatus)

  /** The tables; members is keyed by its unique constraint. `canceled` is Stripe's own record of
      the subscriptions it was told to cancel. */
  datatype Db = Db(
    users: map<Uid, User>, orgs: map<Oid, Org>, members: map<(Oid, Uid), Role>,
    invitations: map<nat, Invitation>, subs: map<nat, Subscription>,
    nextUser: Uid, nextOrg: Oid, nextInvitation: nat, nextSub: nat,
    clock: nat, stripeConfigured: bool, canceled: set<string>)

  datatype Reply = Ok | Refused | StripeFailed

  /** LIVE_SUBSCRIPTION_STATUSES. */
  predicate Billing(s: SubscriptionStatus) {
    s in {S_ACTIVE, S_TRIALING, S_PAST_DUE}
  }

  // ---------------------------------------------------------------- route guards

  /** requireTenant and requireOrgRole. */
  predicate Admitted(db: Db, caller: Uid, o: Oid, roles: set<Role>) {
    (o, caller) in db.members && o in db.orgs && !db.orgs[o].deleted && db.members[(o, caller)] in roles
  }

  /** requireTenantIncludeDeleted and requireOrgRole. */
  predicate AdmittedEvenDeleted(db: Db, caller: Uid, o: Oid, roles: set<Role>) {
    (o, caller) in db.members && o in db.orgs && db.members[(o, caller)] in roles
  }

  // ---------------------------------------------------------------- org.service.js

  function CreateOrganization(db: Db, caller: Uid, slug: string): (Db, Reply) {
    if caller !in db.users || (exists o :: o in db.orgs && db.orgs[o].slug == slug) then (db, Refused)
    else (db.(orgs := db.orgs[db.nextOrg := Org(caller, slug, false)],
              members := db.members[(db.nextOrg, caller) := OWNER],
              nextOrg := db.nextOrg + 1), Ok)
  }

  /** The role comes through a schema that admits ADMIN and MEMBER only. */
  function UpdateMemberRole(db: Db, caller: Uid, o: Oid, target: Uid, role: Role): (Db, Reply) {
    if role == OWNER || !Admitted(db, caller, o, {OWNER, ADMIN}) then (db, Refused)
    else if (o, target) !in db.members || db.members[(o, target)] == OWNER then (db, Refused)
    else (db.(members := db.members[(o, target) := role]), Ok)
  }

  function TransferOwnership(db: Db, caller: Uid, o: Oid, newOwner: Uid): (Db, Reply) {
    if !Admitted(db, caller, o, {OWNER}) || newOwner == caller || (o, newOwner) !in db.members then (db, Refused)
    else (db.(orgs := db.orgs[o := db.orgs[o].(ownerId := newOwner)],
              members := db.members[(o, newOwner) := OWNER][(o, caller) := ADMIN]), Ok)
  }

  function RemoveMember(db: Db, caller: Uid, o: Oid, target: Uid): (Db, Reply) {
    if !Admitted(db, caller, o, {OWNER, ADMIN}) then (db, Refused)
    else if (o, target) !in db.members || db.members[(o, target)] == OWNER then (db, Refused)
    else (db.(members := db.members - {(o, target)}), Ok)
  }

  /** The rows of findMany, in id order: any order would do. */
  function LiveRows(db: Db, wanted: set<nat>, n: nat): (ids: seq<nat>)
    ensures forall id :: id in ids <==> id < n && id in wanted && id in db.subs && Billing(db.subs[id].status)
  {
    if n == 0 then []
    else LiveRows(db, wanted, n - 1)
         + (if n - 1 in wanted && n - 1 in db.subs && Billing(db.subs[n - 1].status) then [n - 1] else [])
  }

  /** The cancellation loop: stops at the first subscription Stripe rejects. */
  function CancelAtStripe(db: Db, ids: seq<nat>, failing: set<string>): (Db, bool)
    requires forall id :: id in ids ==> id in db.subs
    decreases |ids|
  {
    if ids == [] then (db, true)
    else if db.subs[ids[0]].stripeId in failing then (db, false)
    else CancelAtStripe(db.(canceled := db.canceled + {db.subs[ids[0]].stripeId}), ids[1..], failing)
  }

  function MarkCanceled(db: Db, ids: seq<nat>): Db {
    db.(subs := map id | id in db.subs ::
      if id in ids then db.subs[id].(status := S_CANCELED) else db.subs[id])
  }

  function OrgSubs(db: Db, o: Oid): set<nat> {
    set id | id in db.subs && db.subs[id].owner == OfOrg(o)
  }

  function SoftDelete(db: Db, o: Oid, deleted: bool): Db
    requires o in db.orgs
  {
    db.(orgs := db.orgs[o := db.orgs[o].(deleted := deleted)])
  }

  function DeleteOrganization(db: Db, caller: Uid, o: Oid, failing: set<string>): (Db, Reply) {
    if !Admitted(db, caller, o, {OWNER}) then (db, Refused)
    else if !db.stripeConfigured then (SoftDelete(db, o, true), Ok)
    else
      var ids := LiveRows(db, OrgSubs(db, o), db.nextSub);
      var (db1, ok) := CancelAtStripe(db, ids, failing);
      if !ok then (db1, StripeFailed)
      else (SoftDelete(MarkCanceled(db, ids).(canceled := db1.canceled), o, true), Ok)
  }

  function RestoreOrganization(db: Db, caller: Uid, o: Oid): (Db, Reply) {
    if !AdmittedEvenDeleted(db, caller, o, {OWNER}) || !db.orgs[o].deleted then (db, Refused)
    else (SoftDelete(db, o, false), Ok)
  }

  // ---------------------------------------------------------------- invitation.service.js

  predicate HasPending(db: Db, o: Oid, email: string) {
    exists i :: i in db.invitations && db.invitations[i].orgId == o && db.invitations[i].email == email
      && db.invitations[i].status == PENDING
  }

  predicate LiveMemberWithEmail(db: Db, o: Oid, email: string) {
    exists v :: v in db.users && !db.users[v].deleted && db.users[v].email == email && (o, v) in db.members
  }

  function CreateInvitation(db: Db, caller: Uid, o: Oid, email: string, role: Role): (Db, Reply) {
    if !Admitted(db, caller, o, {OWNER, ADMIN}) || role == OWNER then (db, Refused)
    else if LiveMemberWithEmail(db, o, email) || HasPending(db, o, email) then (db, Refused)
    else (db.(invitations := db.invitations[db.nextInvitation :=
                Invitation(o, caller, email, role, PENDING, db.clock + INVITATION_TTL_MS, db.clock)],
              nextInvitation := db.nextInvitation + 1), Ok)
  }

  function SetStatus(db: Db, i: nat, status: InvitationStatus): Db
    requires i in db.invitations
  {
    db.(invitations := db.invitations[i := db.invitations[i].(status := status, updatedAt := db.clock)])
  }

  /** The invitation is addressed to this live user. */
  predicate Addressed(db: Db, u: Uid, i: nat)
    requires i in db.invitations
  {
    u in db.users && !db.users[u].deleted && db.users[u].email == db.invitations[i].email
  }

  function AcceptInvitation(db: Db, u: Uid, i: nat): (Db, Reply) {
    if i !in db.invitations || db.invitations[i].status != PENDING then (db, Refused)
    else if db.invitations[i].expiresAt < db.clock then (SetStatus(db, i, EXPIRED), Refused)
    else if !Addressed(db, u, i) then (db, Refused)
    else if (db.invitations[i].orgId, u) in db.members then (SetStatus(db, i, ACCEPTED), Refused)
    else (SetStatus(db, i, ACCEPTED).(members := db.members[(db.invitations[i].orgId, u) := db.invitations[i].role]), Ok)
  }

  function DeclineInvitation(db: Db, u: Uid, i: nat): (Db, Reply) {
    if i !in db.invitations || db.invitations[i].status != PENDING then (db, Refused)
    else if db.invitations[i].expiresAt < db.clock then (SetStatus(db, i, EXPIRED), Refused)
    else if !Addressed(db, u, i) then (db, Refused)
    else (SetStatus(db, i, DECLINED), Ok)
  }

  function CancelInvitation(db: Db, caller: Uid, o: Oid, i: nat): (Db, Reply) {
    if !Admitted(db, caller, o, {OWNER, ADMIN}) then (db, Refused)
    else if i !in db.invitations || db.invitations[i].orgId != o || db.invitations[i].status != PENDING then (db, Refused)
    else (SetStatus(db, i, CANCELED), Ok)
  }

  /** cleanupTerminalInvitations. */
  function CleanupInvitations(db: Db, retentionDays: int): Db {
    db.(invitations := map i | i in db.invitations
          && !(db.invitations[i].status != PENDING && db.invitations[i].updatedAt < db.clock - retentionDays * DAY_MS)
        :: db.invitations[i])
  }

  // ---------------------------------------------------------------- gdpr.service.js

  function OwnedOrgs(db: Db, u: Uid): set<Oid> {
    set o | o in db.orgs && db.orgs[o].ownerId == u
  }

  function MembersOf(db: Db, o: Oid): set<Uid> {
    set m | m in db.members && m.0 == o :: m.1
  }

  function Admins(db: Db): set<Uid> {
    set v | v in db.users && db.users[v].admin && !db.users[v].deleted
  }

  /** The where clause of the cancellation query: personal rows and rows of owned organizations. */
  function AccountSubs(db: Db, u: Uid): set<nat> {
    set id | id in db.subs && (db.subs[id].owner == OfUser(u)
      || (db.subs[id].owner.OfOrg? && db.subs[id].owner.o in OwnedOrgs(db, u)))
  }

  /** DELETE of a users row with the schema's ON DELETE CASCADE rules. */
  function CascadeDelete(db: Db, u: Uid): Db {
    var owned := OwnedOrgs(db, u);
    db.(users := db.users - {u},
        orgs := db.orgs - owned,
        members := map m | m in db.members && m.1 != u && m.0 !in owned :: db.members[m],
        invitations := map i | i in db.invitations
            && db.invitations[i].inviterId != u && db.invitations[i].orgId !in owned :: db.invitations[i],
        subs := map id | id in db.subs && id !in AccountSubs(db, u) :: db.subs[id])
  }

  function DeleteAccount(db: Db, u: Uid, password: string, failing: set<string>): (Db, Reply) {
    if u !in db.users || db.users[u].deleted || db.users[u].password != Some(password) then (db, Refused)
    else if db.users[u].admin && |Admins(db)| <= 1 then (db, Refused)
    else if exists o :: o in OwnedOrgs(db, u) && |MembersOf(db, o)| > 1 then (db, Refused)
    else if !db.stripeConfigured then (CascadeDelete(db, u), Ok)
    else
      var ids := LiveRows(db, AccountSubs(db, u), db.nextSub);
      var (db1, ok) := CancelAtStripe(db, ids, failing);
      if !ok then (db1, StripeFailed) else (CascadeDelete(db1, u), Ok)
  }

  // ---------------------------------------------------------------- the rest of the world

  function RegisterUser(db: Db, email: string, password: Option<string>): Db {
    db.(users := db.users[db.nextUser := User(email, false, password, false)], nextUser := db.nextUser + 1)
  }

  /** Email change, soft delete, restore, promotion: whatever else may happen to a users row. */
  function EditUser(db: Db, u: Uid, usr: User): Db {
    if u in db.users then db.(users := db.users[u := usr]) else db
  }

  predicate OwnerExists(db: Db, owner: SubOwner) {
    match owner
    case OfUser(u) => u in db.users
    case OfOrg(o) => o in db.orgs
  }

  /** A webhook creates a row or rewrites one; foreign keys must hold. */
  function WriteSubscription(db: Db, id: Option<nat>, sub: Subscription): Db {
    if !OwnerExists(db, sub.owner) then db
    else match id
      case None => db.(subs := db.subs[db.nextSub := sub], nextSub := db.nextSub + 1)
      case Some(k) => if k in db.subs then db.(subs := db.subs[k := sub]) else db
  }

  // ---------------------------------------------------------------- runs

  datatype Op =
    | OpRegister(email: string, newPassword: Option<string>)
    | OpEditUser(u: Uid, row: User)
    | OpWriteSubscription(id: Option<nat>, sub: Subscription)
    | OpCreateOrganization(caller: Uid, slug: string)
    | OpUpdateMemberRole(caller: Uid, o: Oid, target: Uid, role: Role)
    | OpTransferOwnership(caller: Uid, o: Oid, target: Uid)
    | OpRemoveMember(caller: Uid, o: Oid, target: Uid)
    | OpDeleteOrganization(caller: Uid, o: Oid, failing: set<string>)
    | OpRestoreOrganization(caller: Uid, o: Oid)
    | OpCreateInvitation(caller: Uid, o: Oid, email: string, role: Role)
    | OpAcceptInvitation(u: Uid, i: nat)
    | OpDeclineInvitation(u: Uid, i: nat)
    | OpCancelInvitation(caller: Uid, o: Oid, i: nat)
    | OpCleanupInvitations(retentionDays: int)
    | OpDeleteAccount(u: Uid, password: string, failing: set<string>)
    | OpWait(ms: nat)

  function Step(db: Db, op: Op): (Db, Reply) {
    match op
    case OpRegister(email, p) => (RegisterUser(db, email, p), Ok)
    case OpEditUser(u, row) => (EditUser(db, u, row), Ok)
    case OpWriteSubscription(id, sub) => (WriteSubscription(db, id, sub), Ok)
    case OpCreateOrganization(c, slug) => CreateOrganization(db, c, slug)
    case OpUpdateMemberRole(c, o, t, r) => UpdateMemberRole(db, c, o, t, r)
    case OpTransferOwnership(c, o, t) => TransferOwnership(db, c, o, t)
    case OpRemoveMember(c, o, t) => RemoveMember(db, c, o, t)
    case OpDeleteOrganization(c, o, f) => DeleteOrganization(db, c, o, f)
    case OpRestoreOrganization(c, o) => RestoreOrganization(db, c, o)
    case OpCreateInvitation(c, o, e, r) => CreateInvitation(db, c, o, e, r)
    case OpAcceptInvitation(u, i) => AcceptInvitation(db, u, i)
    case OpDeclineInvitation(u, i) => DeclineInvitation(db, u, i)
    case OpCancelInvitation(c, o, i) => CancelInvitation(db, c, o, i)
    case OpCleanupInvitations(d) => (CleanupInvitations(db, d), Ok)
    case OpDeleteAccount(u, p, f) => DeleteAccount(db, u, p, f)
    case OpWait(ms) => (db.(clock := db.clock + ms), Ok)
  }

  function Run(db: Db, ops: seq<Op>): Db
    decreases |ops|
  {
    if ops == [] then db else Run(Step(db, ops[0]).0, ops[1..])
  }
}
