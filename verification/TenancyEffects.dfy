/** What each organization, invitation and deletion request does for its caller, read off the old and new tables. */
module TenancyEffects {
  import opened Wrappers
  import opened Tenancy
  import opened TenancySafety

  // ---------------------------------------------------------------- organizations

  /** The organization exists and is not soft-deleted. */
  predicate Open(db: Db, o: Oid) {
    o in db.orgs && !db.orgs[o].deleted
  }

  /** Every membership but that of `v` in `o` is as before. */
  ghost predicate OnlyMember(a: Db, b: Db, o: Oid, v: Uid) {
    && b == a.(members := b.members)
    && forall p: Oid, w: Uid :: p != o || w != v ==> RoleOf(b, p, w) == RoleOf(a, p, w)
  }

  /** The organization is new, open, owned by the user, its only member. */
  ghost predicate Founded(a: Db, b: Db, o: Oid, u: Uid, slug: string) {
    && b.orgs == a.orgs[o := Org(u, slug, false)]
    && (forall v: Uid :: RoleOf(b, o, v) == if v == u then Some(OWNER) else None)
    && (forall p: Oid, v: Uid :: p != o ==> RoleOf(b, p, v) == RoleOf(a, p, v))
  }

  /** Creating works for every user as long as no organization, deleted ones included, has the slug; the
      creator then owns a new open organization as its only member. */
  lemma CreationSays(db: Db, u: Uid, slug: string)
    requires Sound(db)
    ensures var (db', r) := Step(db, OpCreateOrganization(u, slug));
      && (r == Ok <==> u in db.users && forall o :: o in db.orgs ==> db.orgs[o].slug != slug)
      && (r != Ok ==> r == Refused && db' == db)
      && (r == Ok ==> exists o :: o !in db.orgs && Founded(db, db', o, u, slug))
  {
    var (db', r) := Step(db, OpCreateOrganization(u, slug));
    if r == Ok {
      assert db.nextOrg !in db.orgs && Founded(db, db', db.nextOrg, u, slug);
    }
  }

  /** Handing over works exactly for the owner of an open organization towards another member. The new
      owner is then its owner, the old one an ADMIN, everything else as before. */
  lemma TransferSays(db: Db, u: Uid, o: Oid, v: Uid)
    requires Sound(db)
    ensures var (db', r) := Step(db, OpTransferOwnership(u, o, v));
      && (r == Ok <==> Open(db, o) && db.orgs[o].ownerId == u && v != u && RoleOf(db, o, v) != None)
      && (r != Ok ==> r == Refused && db' == db)
      && (r == Ok ==>
            && db' == db.(orgs := db.orgs[o := db.orgs[o].(ownerId := v)], members := db'.members)
            && RoleOf(db', o, v) == Some(OWNER) && RoleOf(db', o, u) == Some(ADMIN)
            && (forall p: Oid, w: Uid :: p != o || (w != u && w != v) ==> RoleOf(db', p, w) == RoleOf(db, p, w)))
  {
  }

  /** Handed back, the organization is as before, but for the role of the one who handed it back. */
  lemma TransferBack(db: Db, u: Uid, o: Oid, v: Uid)
    requires Sound(db) && Step(db, OpTransferOwnership(u, o, v)).1 == Ok
    ensures var (db', r) := Step(Step(db, OpTransferOwnership(u, o, v)).0, OpTransferOwnership(v, o, u));
      && r == Ok && db'.orgs == db.orgs && RoleOf(db', o, u) == RoleOf(db, o, u) && RoleOf(db', o, v) == Some(ADMIN)
      && (forall p: Oid, w: Uid :: p != o || (w != u && w != v) ==> RoleOf(db', p, w) == RoleOf(db, p, w))
  {
    var db1 := Step(db, OpTransferOwnership(u, o, v)).0;
    StepSound(db, OpTransferOwnership(u, o, v));
    TransferSays(db, u, o, v);
    TransferSays(db1, v, o, u);
    assert RoleOf(db, o, u) == Some(OWNER);
    assert Step(db1, OpTransferOwnership(v, o, u)).0.orgs == db.orgs;
  }

  /** May manage the organization: an OWNER or ADMIN of an open one. */
  predicate Manages(db: Db, u: Uid, o: Oid) {
    Open(db, o) && (RoleOf(db, o, u) == Some(OWNER) || RoleOf(db, o, u) == Some(ADMIN))
  }

  /** A role change works exactly for a manager, on a member that is not the owner, to a role that is not
      OWNER; the member then has that role. */
  lemma RoleChangeSays(db: Db, u: Uid, o: Oid, v: Uid, role: Role)
    requires Sound(db)
    ensures var (db', r) := Step(db, OpUpdateMemberRole(u, o, v, role));
      && (r == Ok <==> Manages(db, u, o) && RoleOf(db, o, v) != None && db.orgs[o].ownerId != v && role != OWNER)
      && (r != Ok ==> r == Refused && db' == db)
      && (r == Ok ==> OnlyMember(db, db', o, v) && RoleOf(db', o, v) == Some(role))
  {
  }

  /** A removal works exactly for a manager, on a member that is not the owner, who is then none. */
  lemma RemovalSays(db: Db, u: Uid, o: Oid, v: Uid)
    requires Sound(db)
    ensures var (db', r) := Step(db, OpRemoveMember(u, o, v));
      && (r == Ok <==> Manages(db, u, o) && RoleOf(db, o, v) != None && db.orgs[o].ownerId != v)
      && (r != Ok ==> r == Refused && db' == db)
      && (r == Ok ==> OnlyMember(db, db', o, v) && RoleOf(db', o, v) == None)
  {
  }

  /** The subscription is still billed at Stripe. */
  predicate Billed(s: Subscription) {
    s.status == S_ACTIVE || s.status == S_TRIALING || s.status == S_PAST_DUE
  }

  /** Some billed row of these owners has an id that Stripe rejects. */
  ghost predicate SomeRejected(db: Db, owners: set<SubOwner>, failing: set<string>) {
    exists id :: id in db.subs && db.subs[id].owner in owners && Billed(db.subs[id]) && db.subs[id].stripeId in failing
  }

  function StripeIds(db: Db, ids: seq<nat>): set<string>
    requires forall id :: id in ids ==> id in db.subs
  {
    set id | id in ids :: db.subs[id].stripeId
  }

  lemma StripeIdsCons(db: Db, id: nat, rest: seq<nat>)
    requires id in db.subs && forall k :: k in rest ==> k in db.subs
    ensures StripeIds(db, [id] + rest) == {db.subs[id].stripeId} + StripeIds(db, rest)
  {
  }

  /** The loop makes its calls in order and stops at the first rejection: `made` of them succeed, and
      those are what Stripe has cancelled. */
  lemma {:induction false} CallsInOrder(db: Db, ids: seq<nat>, failing: set<string>) returns (made: nat)
    requires forall id :: id in ids ==> id in db.subs
    ensures made <= |ids|
    ensures var (db', ok) := CancelAtStripe(db, ids, failing);
      && (ok <==> made == |ids|)
      && (forall i :: 0 <= i < made ==> db.subs[ids[i]].stripeId !in failing)
      && (made < |ids| ==> db.subs[ids[made]].stripeId in failing)
      && db' == db.(canceled := db.canceled + StripeIds(db, ids[..made]))
    decreases |ids|
  {
    made := 0;
    if ids != [] && db.subs[ids[0]].stripeId !in failing {
      var db1 := db.(canceled := db.canceled + {db.subs[ids[0]].stripeId});
      var rest := CallsInOrder(db1, ids[1..], failing);
      made := 1 + rest;
      assert ids[..made] == [ids[0]] + ids[1..][..rest];
      StripeIdsCons(db, ids[0], ids[1..][..rest]);
    }
  }

  lemma RejectedOrNot(db: Db, wanted: set<nat>, owners: set<SubOwner>, failing: set<string>)
    requires Referential(db)
    requires forall id :: id in wanted <==> id in db.subs && db.subs[id].owner in owners
    ensures CancelAtStripe(db, LiveRows(db, wanted, db.nextSub), failing).1
      <==> !SomeRejected(db, owners, failing)
  {
    var ids := LiveRows(db, wanted, db.nextSub);
    StripeTouchesOnlyStripe(db, ids, failing);
    if id :| id in db.subs && db.subs[id].owner in owners && Billed(db.subs[id]) && db.subs[id].stripeId in failing {
      assert id in ids;
    }
    forall id | id in ids && !SomeRejected(db, owners, failing)
      ensures db.subs[id].stripeId !in failing
    {
      assert db.subs[id].owner in owners && Billed(db.subs[id]);
    }
  }

  /** The billed rows of the organization are cancelled, all others as before. */
  ghost predicate BilledCanceled(a: Db, b: Db, o: Oid) {
    && b.subs.Keys == a.subs.Keys
    && (forall id :: id in a.subs && a.subs[id].owner == OfOrg(o) && Billed(a.subs[id]) ==>
          b.subs[id] == a.subs[id].(status := S_CANCELED))
    && (forall id :: id in a.subs && !(a.subs[id].owner == OfOrg(o) && Billed(a.subs[id])) ==> b.subs[id] == a.subs[id])
  }

  lemma OwnerIsAdmitted(db: Db, u: Uid, o: Oid)
    requires Sound(db)
    ensures Admitted(db, u, o, {OWNER}) <==> Open(db, o) && db.orgs[o].ownerId == u
  {
  }

  /** Deleting an organization works exactly for the owner of an open one, unless Stripe, where it is
      configured, rejects a billed subscription of it. */
  lemma OrganizationDeletionVerdict(db: Db, u: Uid, o: Oid, failing: set<string>)
    requires Sound(db)
    ensures Step(db, OpDeleteOrganization(u, o, failing)).1 == Ok
      <==> Open(db, o) && db.orgs[o].ownerId == u && (db.stripeConfigured ==> !SomeRejected(db, {OfOrg(o)}, failing))
  {
    OwnerIsAdmitted(db, u, o);
    RejectedOrNot(db, OrgSubs(db, o), {OfOrg(o)}, failing);
  }

  lemma MarkingSays(db: Db, o: Oid)
    requires Referential(db)
    ensures BilledCanceled(db, MarkCanceled(db, LiveRows(db, OrgSubs(db, o), db.nextSub)), o)
  {
  }

  /** The organization then is soft-deleted, its billed rows are cancelled where Stripe is configured, and
      nothing else moved; otherwise no local row did. */
  lemma OrganizationDeletionSays(db: Db, u: Uid, o: Oid, failing: set<string>)
    requires Sound(db)
    ensures var (db', r) := Step(db, OpDeleteOrganization(u, o, failing));
      && (r != Ok ==> db' == db.(canceled := db'.canceled))
      && (r == Ok ==> o in db.orgs)
      && (r == Ok ==> db' == db.(orgs := db.orgs[o := db.orgs[o].(deleted := true)], subs := db'.subs, canceled := db'.canceled))
      && (r == Ok ==> if db.stripeConfigured then BilledCanceled(db, db', o) else db'.subs == db.subs)
  {
    var (db', r) := Step(db, OpDeleteOrganization(u, o, failing));
    StripeTouchesOnlyStripe(db, LiveRows(db, OrgSubs(db, o), db.nextSub), failing);
    if r == Ok && db.stripeConfigured {
      assert db'.subs == MarkCanceled(db, LiveRows(db, OrgSubs(db, o), db.nextSub)).subs;
      MarkingSays(db, o);
    }
  }

  /** Restoring undoes the soft delete, for its owner only; until then nobody manages it. */
  lemma RestoreSays(db: Db, u: Uid, o: Oid)
    requires Sound(db)
    ensures var (db', r) := Step(db, OpRestoreOrganization(u, o));
      && (r == Ok <==> o in db.orgs && db.orgs[o].deleted && db.orgs[o].ownerId == u)
      && (r != Ok ==> r == Refused && db' == db)
      && (r == Ok ==> db' == db.(orgs := db.orgs[o := db.orgs[o].(deleted := false)]))
  {
  }

  lemma DeleteThenRestore(db: Db, u: Uid, o: Oid, failing: set<string>)
    requires Sound(db) && Step(db, OpDeleteOrganization(u, o, failing)).1 == Ok
    ensures var db1 := Step(db, OpDeleteOrganization(u, o, failing)).0;
      var (db2, r) := Step(db1, OpRestoreOrganization(u, o));
      && (forall v :: !Manages(db1, v, o))
      && r == Ok && db2.orgs == db.orgs && db2.members == db.members && db2.invitations == db.invitations
  {
    var db1 := Step(db, OpDeleteOrganization(u, o, failing)).0;
    StepSound(db, OpDeleteOrganization(u, o, failing));
    OrganizationDeletionVerdict(db, u, o, failing);
    OrganizationDeletionSays(db, u, o, failing);
    RestoreSays(db1, u, o);
    assert Step(db1, OpRestoreOrganization(u, o)).0.orgs == db.orgs;
  }

  // ---------------------------------------------------------------- invitations

  /** Some live user with the address is a member already. */
  ghost predicate AlreadyIn(db: Db, o: Oid, email: string) {
    exists v :: v in db.users && !db.users[v].deleted && db.users[v].email == email && RoleOf(db, o, v) != None
  }

  ghost predicate AlreadyInvited(db: Db, o: Oid, email: string) {
    exists i :: i in db.invitations && db.invitations[i].orgId == o && db.invitations[i].email == email && db.invitations[i].status == PENDING
  }

  predicate Says(inv: Invitation, o: Oid, inviter: Uid, email: string, role: Role) {
    inv.orgId == o && inv.inviterId == inviter && inv.email == email && inv.role == role && inv.status == PENDING
  }

  /** The invitation is the only change. */
  predicate Invited(a: Db, b: Db, i: nat, o: Oid, inviter: Uid, email: string, role: Role) {
    && i in b.invitations && Says(b.invitations[i], o, inviter, email, role)
    && b == a.(invitations := a.invitations[i := b.invitations[i]], nextInvitation := b.nextInvitation)
  }

  lemma InvitationVerdict(db: Db, u: Uid, o: Oid, email: string, role: Role)
    ensures var (db', r) := Step(db, OpCreateInvitation(u, o, email, role));
      && (r == Ok <==> Manages(db, u, o) && role != OWNER && !AlreadyIn(db, o, email) && !AlreadyInvited(db, o, email))
      && (r != Ok ==> r == Refused && db' == db)
  {
    assert LiveMemberWithEmail(db, o, email) <==> AlreadyIn(db, o, email);
    assert HasPending(db, o, email) <==> AlreadyInvited(db, o, email);
  }

  /** Inviting works exactly for a manager, to a role that is not OWNER, of an address that is neither in
      nor invited; one new pending invitation says who, whom, where and as what. */
  lemma InvitationSays(db: Db, u: Uid, o: Oid, email: string, role: Role)
    requires Sound(db)
    ensures var (db', r) := Step(db, OpCreateInvitation(u, o, email, role));
      && (r == Ok <==> Manages(db, u, o) && role != OWNER && !AlreadyIn(db, o, email) && !AlreadyInvited(db, o, email))
      && (r != Ok ==> r == Refused && db' == db)
      && (r == Ok ==> exists i :: i !in db.invitations && Invited(db, db', i, o, u, email, role))
  {
    InvitationVerdict(db, u, o, email, role);
    var (db', r) := Step(db, OpCreateInvitation(u, o, email, role));
    if r == Ok {
      assert db.nextInvitation !in db.invitations && Invited(db, db', db.nextInvitation, o, u, email, role);
    }
  }

  /** The user may answer the invitation: it is pending, not expired, and sent to its address. */
  predicate MayAnswer(db: Db, u: Uid, i: nat) {
    && i in db.invitations && db.invitations[i].status == PENDING && db.clock <= db.invitations[i].expiresAt
    && u in db.users && !db.users[u].deleted && db.users[u].email == db.invitations[i].email
  }

  predicate Expired(db: Db, i: nat) {
    i in db.invitations && db.invitations[i].status == PENDING && db.clock > db.invitations[i].expiresAt
  }

  /** The invitation has the status as of now, and is otherwise as it was, like all other rows. */
  ghost predicate StatusSet(a: Db, b: Db, i: nat, status: InvitationStatus)
    requires i in a.invitations
  {
    b.invitations == a.invitations[i := a.invitations[i].(status := status, updatedAt := a.clock)]
  }

  /** Accepting works exactly for the addressee in time who is no member yet, who then is one with the
      invited role. A member's acceptance only settles the invitation, one too late only expires it. */
  lemma AcceptanceSays(db: Db, u: Uid, i: nat)
    ensures var (db', r) := Step(db, OpAcceptInvitation(u, i));
      && (r == Ok <==> MayAnswer(db, u, i) && RoleOf(db, db.invitations[i].orgId, u) == None)
      && (r == Ok || r == Refused)
      && db' == db.(invitations := db'.invitations, members := db'.members)
      && (r == Ok ==> OnlyMember(db.(invitations := db'.invitations), db', db.invitations[i].orgId, u))
      && (r == Ok ==> RoleOf(db', db.invitations[i].orgId, u) == Some(db.invitations[i].role))
      && (r != Ok ==> db'.members == db.members)
      && (MayAnswer(db, u, i) ==> StatusSet(db, db', i, ACCEPTED))
      && (Expired(db, i) ==> StatusSet(db, db', i, EXPIRED))
      && (!MayAnswer(db, u, i) && !Expired(db, i) ==> db' == db)
  {
  }

  /** Declining works exactly for the addressee in time. */
  lemma DeclineSays(db: Db, u: Uid, i: nat)
    ensures var (db', r) := Step(db, OpDeclineInvitation(u, i));
      && (r == Ok <==> MayAnswer(db, u, i)) && (r == Ok || r == Refused)
      && db' == db.(invitations := db'.invitations)
      && (r == Ok ==> StatusSet(db, db', i, DECLINED))
      && (Expired(db, i) ==> StatusSet(db, db', i, EXPIRED))
      && (r != Ok && !Expired(db, i) ==> db' == db)
  {
  }

  /** Cancelling works exactly for a manager of the inviting organization, while the invitation pends. */
  lemma CancellationSays(db: Db, u: Uid, o: Oid, i: nat)
    ensures var (db', r) := Step(db, OpCancelInvitation(u, o, i));
      && (r == Ok <==> Manages(db, u, o) && i in db.invitations && db.invitations[i].orgId == o && db.invitations[i].status == PENDING)
      && (r != Ok ==> r == Refused && db' == db)
      && (r == Ok ==> db' == db.(invitations := db'.invitations) && StatusSet(db, db', i, CANCELED))
  {
  }

  lemma InvitedSays(db: Db, u: Uid, o: Oid, email: string, role: Role, v: Uid)
    requires Sound(db) && Step(db, OpCreateInvitation(u, o, email, role)).1 == Ok
    requires v in db.users && !db.users[v].deleted && db.users[v].email == email
    ensures var db1, i := Step(db, OpCreateInvitation(u, o, email, role)).0, db.nextInvitation;
      && RoleOf(db1, o, v) == None && db1.users == db.users && db1.clock == db.clock && i in db1.invitations
      && Says(db1.invitations[i], o, u, email, role) && db1.invitations[i].expiresAt == db.clock + 604800000
  {
    InvitationVerdict(db, u, o, email, role);
    assert RoleOf(db, o, v) == None;
  }

  lemma AcceptInTime(db: Db, v: Uid, i: nat, ms: nat)
    requires i in db.invitations && db.invitations[i].status == PENDING && db.invitations[i].expiresAt == db.clock + 604800000
    requires v in db.users && !db.users[v].deleted && db.users[v].email == db.invitations[i].email
    requires RoleOf(db, db.invitations[i].orgId, v) == None
    ensures var (db', r) := Step(Step(db, OpWait(ms)).0, OpAcceptInvitation(v, i));
      && (r == Ok <==> ms <= 604800000)
      && RoleOf(db', db.invitations[i].orgId, v) == if ms <= 604800000 then Some(db.invitations[i].role) else None
  {
    AcceptanceSays(db.(clock := db.clock + ms), v, i);
  }

  /** From invitation to membership: the addressee who is no member gets the invited role by accepting
      within seven days, and not later. */
  lemma InviteThenAccept(db: Db, u: Uid, o: Oid, email: string, role: Role, v: Uid, ms: nat)
    requires Sound(db) && Step(db, OpCreateInvitation(u, o, email, role)).1 == Ok
    requires v in db.users && !db.users[v].deleted && db.users[v].email == email
    ensures var invited := Step(Step(db, OpCreateInvitation(u, o, email, role)).0, OpWait(ms)).0;
      var (db', r) := Step(invited, OpAcceptInvitation(v, db.nextInvitation));
      && (r == Ok <==> ms <= 604800000)
      && RoleOf(db', o, v) == if ms <= 604800000 then Some(role) else None
  {
    InvitedSays(db, u, o, email, role, v);
    AcceptInTime(Step(db, OpCreateInvitation(u, o, email, role)).0, v, db.nextInvitation, ms);
  }

  /** The cleanup keeps an answered invitation for the retention counted from its answer, and a pending
      one for good. */
  lemma CleanupSays(db: Db, days: int, i: nat)
    requires i in db.invitations
    ensures var db' := Step(db, OpCleanupInvitations(days)).0;
      && (i in db'.invitations <==> db.invitations[i].status == PENDING || db.clock <= db.invitations[i].updatedAt + days * 86400000)
      && (i in db'.invitations ==> db'.invitations[i] == db.invitations[i])
      && db' == db.(invitations := db'.invitations)
  {
  }

  // ---------------------------------------------------------------- account deletion

  /** Another administrator that is not deleted. */
  ghost predicate AnotherAdmin(db: Db, u: Uid) {
    exists v :: v in db.users && v != u && db.users[v].admin && !db.users[v].deleted
  }

  /** The user owns an organization, deleted or not, that has another member. */
  ghost predicate OwnsShared(db: Db, u: Uid) {
    exists o, v :: o in db.orgs && db.orgs[o].ownerId == u && v != u && RoleOf(db, o, v) != None
  }

  /** The user and the organizations it owns, as owners of subscriptions. */
  ghost function OwnersOf(db: Db, u: Uid): set<SubOwner> {
    {OfUser(u)} + set o | o in db.orgs && db.orgs[o].ownerId == u :: OfOrg(o)
  }

  lemma LastAdmin(db: Db, u: Uid)
    requires u in db.users && db.users[u].admin && !db.users[u].deleted
    ensures |Admins(db)| <= 1 <==> !AnotherAdmin(db, u)
  {
    var admins := Admins(db);
    assert u in admins;
    assert |admins| == 1 + |admins - {u}|;
    if v :| v in db.users && v != u && db.users[v].admin && !db.users[v].deleted {
      assert v in admins - {u};
    } else {
      assert admins - {u} == {};
    }
  }

  lemma SharedMembers(db: Db, u: Uid, o: Oid)
    requires Sound(db) && o in db.orgs && db.orgs[o].ownerId == u
    ensures |MembersOf(db, o)| > 1 <==> exists v :: v != u && RoleOf(db, o, v) != None
  {
    var members := MembersOf(db, o);
    assert (o, u) in db.members && u == (o, u).1 && u in members;
    assert |members| == 1 + |members - {u}|;
    if v :| v != u && RoleOf(db, o, v) != None {
      assert v == (o, v).1 && v in members - {u};
    } else {
      forall w | w in members
        ensures w == u
      {
        assert RoleOf(db, o, w) != None;
      }
      assert members - {u} == {};
    }
  }

  lemma SharedIsBlocking(db: Db, u: Uid)
    requires Sound(db)
    ensures (exists o :: o in OwnedOrgs(db, u) && |MembersOf(db, o)| > 1) <==> OwnsShared(db, u)
  {
    forall o | o in OwnedOrgs(db, u)
      ensures |MembersOf(db, o)| > 1 <==> exists v :: v != u && RoleOf(db, o, v) != None
    {
      SharedMembers(db, u, o);
    }
    if o, v :| o in db.orgs && db.orgs[o].ownerId == u && v != u && RoleOf(db, o, v) != None {
      assert o in OwnedOrgs(db, u);
    }
  }

  /** An account is deleted exactly with its own password, unless it is the last administrator, owns an
      organization with another member, or Stripe, where configured, rejects a billed subscription of
      the user or of an organization it owns. */
  lemma DeletionSucceedsExactly(db: Db, u: Uid, password: string, failing: set<string>)
    requires Sound(db)
    ensures var (db', r) := Step(db, OpDeleteAccount(u, password, failing));
      && (r == Ok <==>
            (&& u in db.users && !db.users[u].deleted && db.users[u].password == Some(password)
             && (db.users[u].admin ==> AnotherAdmin(db, u)) && !OwnsShared(db, u)
             && (db.stripeConfigured ==> !SomeRejected(db, OwnersOf(db, u), failing))))
      && (r == Ok <==> u in db.users && u !in db'.users)
      && (r != Ok ==> db' == db.(canceled := db'.canceled))
  {
    DeleteAccountIsCascade(db, u, password, failing);
    if u in db.users && db.users[u].admin && !db.users[u].deleted {
      LastAdmin(db, u);
    }
    SharedIsBlocking(db, u);
    RejectedOrNot(db, AccountSubs(db, u), OwnersOf(db, u), failing);
  }

  lemma OtherOpsKeepUsers(db: Db, op: Op, v: Uid)
    requires v in db.users && !op.OpDeleteAccount? && !op.OpDeleteOrganization?
    ensures v in Step(db, op).0.users
  {
  }

  /** Whatever the request, a user disappears only by deleting the own account with the own password. */
  lemma UsersLeaveByRight(db: Db, op: Op, v: Uid)
    requires Sound(db) && v in db.users && v !in Step(db, op).0.users
    ensures op.OpDeleteAccount? && op.u == v && db.users[v].password == Some(op.password)
  {
    match op
    case OpDeleteAccount(u, p, f) =>
      DeleteAccountIsCascade(db, u, p, f);
      DeletionSucceedsExactly(db, u, p, f);
    case OpDeleteOrganization(c, o, f) => DeleteOrganizationEffect(db, c, o, f);
    case _ => OtherOpsKeepUsers(db, op, v);
  }

  // ---------------------------------------------------------------- the rest of the world

  /** A registration adds one live user, who is no administrator; a webhook's write lands exactly when the
      owner of the row exists. */
  lemma WorldSays(db: Db, email: string, password: Option<string>, id: Option<nat>, sub: Subscription)
    requires Sound(db)
    ensures var db' := Step(db, OpRegister(email, password)).0;
      && db.nextUser !in db.users && db' == db.(users := db'.users, nextUser := db'.nextUser)
      && db'.users == db.users[db.nextUser := User(email, false, password, false)]
    ensures var db' := Step(db, OpWriteSubscription(id, sub)).0;
      && db' == db.(subs := db'.subs, nextSub := db'.nextSub)
      && (OwnerIn(sub.owner, db.users.Keys, db.orgs.Keys) && (id.Some? ==> id.value in db.subs) ==>
            exists k: nat :: (id.Some? ==> k == id.value) && (id.None? ==> k !in db.subs) && db'.subs == db.subs[k := sub])
      && (!OwnerIn(sub.owner, db.users.Keys, db.orgs.Keys) || (id.Some? && id.value !in db.subs) ==> db' == db)
  {
    var db' := Step(db, OpWriteSubscription(id, sub)).0;
    if OwnerIn(sub.owner, db.users.Keys, db.orgs.Keys) && (id.Some? ==> id.value in db.subs) {
      var k := if id.Some? then id.value else db.nextSub;
      assert (id.None? ==> k !in db.subs) && db'.subs == db.subs[k := sub];
    }
  }
}
