/** Ownership, invitations, safe account deletion and billing across every run of the tables. */
module TenancySafety {
  import opened Wrappers
  import opened Tenancy

  // ---------------------------------------------------------------- invariants

  ghost predicate OrgsRefer(orgs: map<Oid, Org>, users: set<Uid>, nextOrg: Oid) {
    forall o :: o in orgs ==> o < nextOrg && orgs[o].ownerId in users
  }

  ghost predicate MembersRefer(members: set<(Oid, Uid)>, orgs: set<Oid>, users: set<Uid>) {
    forall m :: m in members ==> m.0 in orgs && m.1 in users
  }

  ghost predicate InvitationsRefer(invitations: map<nat, Invitation>, orgs: set<Oid>, users: set<Uid>, nextInvitation: nat) {
    forall i :: i in invitations ==>
      i < nextInvitation && invitations[i].orgId in orgs && invitations[i].inviterId in users
  }

  predicate OwnerIn(owner: SubOwner, users: set<Uid>, orgs: set<Oid>) {
    match owner
    case OfUser(u) => u in users
    case OfOrg(o) => o in orgs
  }

  ghost predicate SubsRefer(subs: map<nat, Subscription>, users: set<Uid>, orgs: set<Oid>, nextSub: nat) {
    forall id :: id in subs ==> id < nextSub && OwnerIn(subs[id].owner, users, orgs)
  }

  /** Foreign keys and counters. */
  ghost predicate Referential(db: Db) {
    && (forall u :: u in db.users ==> u < db.nextUser)
    && OrgsRefer(db.orgs, db.users.Keys, db.nextOrg)
    && MembersRefer(db.members.Keys, db.orgs.Keys, db.users.Keys)
    && InvitationsRefer(db.invitations, db.orgs.Keys, db.users.Keys, db.nextInvitation)
    && SubsRefer(db.subs, db.users.Keys, db.orgs.Keys, db.nextSub)
  }

  /** Every organization row has exactly one OWNER membership, and it is that of ownerId. */
  ghost predicate OneOwner(orgs: map<Oid, Org>, members: map<(Oid, Uid), Role>) {
    && (forall o :: o in orgs ==> (o, orgs[o].ownerId) in members && members[(o, orgs[o].ownerId)] == OWNER)
    && (forall m :: m in members && members[m] == OWNER ==> m.0 in orgs && m.1 == orgs[m.0].ownerId)
  }

  predicate SameSlot(a: Invitation, b: Invitation) {
    a.orgId == b.orgId && a.email == b.email && a.status == PENDING && b.status == PENDING
  }

  /** No invitation carries OWNER; at most one is pending per organization and email. */
  ghost predicate InvitationsSound(invitations: map<nat, Invitation>) {
    && (forall i :: i in invitations ==> invitations[i].role != OWNER)
    && (forall i, j | i in invitations && j in invitations && SameSlot(invitations[i], invitations[j]) :: i == j)
  }

  ghost predicate Sound(db: Db) {
    Referential(db) && OneOwner(db.orgs, db.members) && InvitationsSound(db.invitations)
  }

  /** Invitations keep what they say, never come back, and never leave a terminal status. */
  ghost predicate InvitationsForward(a: Db, b: Db) {
    && a.nextInvitation <= b.nextInvitation
    && (forall i :: i in b.invitations && i < a.nextInvitation ==>
          && i in a.invitations
          && b.invitations[i].orgId == a.invitations[i].orgId && b.invitations[i].email == a.invitations[i].email
          && b.invitations[i].role == a.invitations[i].role
          && (a.invitations[i].status != PENDING ==> b.invitations[i].status == a.invitations[i].status))
  }

  // ---------------------------------------------------------------- ownership

  lemma TransferKeepsOneOwner(db: Db, caller: Uid, o: Oid, newOwner: Uid)
    requires OneOwner(db.orgs, db.members)
    ensures var db' := TransferOwnership(db, caller, o, newOwner).0; OneOwner(db'.orgs, db'.members)
  {
  }

  lemma CascadeKeepsOneOwner(db: Db, u: Uid)
    requires OneOwner(db.orgs, db.members)
    ensures OneOwner(CascadeDelete(db, u).orgs, CascadeDelete(db, u).members)
  {
  }

  lemma StripeTouchesOnlyStripe(db: Db, ids: seq<nat>, failing: set<string>)
    requires forall id :: id in ids ==> id in db.subs
    ensures var (db', ok) := CancelAtStripe(db, ids, failing);
      && db' == db.(canceled := db'.canceled) && db.canceled <= db'.canceled
      && (ok ==> forall id :: id in ids ==> db.subs[id].stripeId in db'.canceled)
      && (ok <==> forall id :: id in ids ==> db.subs[id].stripeId !in failing)
    decreases |ids|
  {
    if ids != [] && db.subs[ids[0]].stripeId !in failing {
      var db1 := db.(canceled := db.canceled + {db.subs[ids[0]].stripeId});
      StripeTouchesOnlyStripe(db1, ids[1..], failing);
      assert ids == [ids[0]] + ids[1..];
    }
  }

  lemma DeleteAccountIsCascade(db: Db, u: Uid, password: string, failing: set<string>)
    ensures var (db', r) := DeleteAccount(db, u, password, failing);
      db' == (if r == Ok then CascadeDelete(db, u) else db).(canceled := db'.canceled)
  {
    StripeTouchesOnlyStripe(db, LiveRows(db, AccountSubs(db, u), db.nextSub), failing);
  }

  lemma DeleteOrganizationEffect(db: Db, caller: Uid, o: Oid, failing: set<string>)
    ensures var (db', r) := DeleteOrganization(db, caller, o, failing);
      && db' == db.(orgs := db'.orgs, subs := db'.subs, canceled := db'.canceled)
      && db'.subs.Keys == db.subs.Keys && (forall id :: id in db.subs ==> db'.subs[id].owner == db.subs[id].owner)
      && db'.orgs == if r == Ok then db.orgs[o := db.orgs[o].(deleted := true)] else db.orgs
  {
    StripeTouchesOnlyStripe(db, LiveRows(db, OrgSubs(db, o), db.nextSub), failing);
  }

  lemma MemberOpsKeepOneOwner(db: Db, op: Op)
    requires Referential(db) && OneOwner(db.orgs, db.members)
    requires op.OpCreateOrganization? || op.OpUpdateMemberRole? || op.OpRemoveMember?
    ensures OneOwner(Step(db, op).0.orgs, Step(db, op).0.members)
  {
  }

  lemma AcceptKeepsOneOwner(db: Db, u: Uid, i: nat)
    requires Referential(db) && OneOwner(db.orgs, db.members) && InvitationsSound(db.invitations)
    ensures OneOwner(AcceptInvitation(db, u, i).0.orgs, AcceptInvitation(db, u, i).0.members)
  {
  }

  lemma FlagKeepsOneOwner(orgs: map<Oid, Org>, members: map<(Oid, Uid), Role>, o: Oid, deleted: bool)
    requires OneOwner(orgs, members) && o in orgs
    ensures OneOwner(orgs[o := orgs[o].(deleted := deleted)], members)
  {
  }

  lemma OtherOpsKeepMembers(db: Db, op: Op)
    requires op.OpRegister? || op.OpEditUser? || op.OpWriteSubscription? || op.OpCreateInvitation? || op.OpDeclineInvitation?
      || op.OpCancelInvitation? || op.OpCleanupInvitations? || op.OpWait?
    ensures Step(db, op).0.orgs == db.orgs && Step(db, op).0.members == db.members
  {
  }

  lemma StepOneOwner(db: Db, op: Op)
    requires Sound(db)
    ensures OneOwner(Step(db, op).0.orgs, Step(db, op).0.members)
  {
    match op
    case OpCreateOrganization(_, _) => MemberOpsKeepOneOwner(db, op);
    case OpUpdateMemberRole(_, _, _, _) => MemberOpsKeepOneOwner(db, op);
    case OpRemoveMember(_, _, _) => MemberOpsKeepOneOwner(db, op);
    case OpTransferOwnership(c, o, t) => TransferKeepsOneOwner(db, c, o, t);
    case OpAcceptInvitation(u, i) => AcceptKeepsOneOwner(db, u, i);
    case OpDeleteAccount(u, p, f) =>
      DeleteAccountIsCascade(db, u, p, f);
      CascadeKeepsOneOwner(db, u);
    case OpDeleteOrganization(c, o, f) =>
      DeleteOrganizationEffect(db, c, o, f);
      if o in db.orgs {
        FlagKeepsOneOwner(db.orgs, db.members, o, true);
      }
    case OpRestoreOrganization(c, o) =>
      if o in db.orgs {
        FlagKeepsOneOwner(db.orgs, db.members, o, false);
      }
    case _ => OtherOpsKeepMembers(db, op);
  }

  // ---------------------------------------------------------------- foreign keys

  lemma MemberOpsReferential(db: Db, op: Op)
    requires Referential(db)
    requires op.OpCreateOrganization? || op.OpUpdateMemberRole? || op.OpTransferOwnership? || op.OpRemoveMember?
    ensures Referential(Step(db, op).0)
  {
  }

  lemma CascadeReferential(db: Db, u: Uid)
    requires Referential(db)
    ensures Referential(CascadeDelete(db, u))
  {
  }

  lemma DeleteOrganizationReferential(db: Db, caller: Uid, o: Oid, failing: set<string>)
    requires Referential(db)
    ensures Referential(DeleteOrganization(db, caller, o, failing).0)
  {
    DeleteOrganizationEffect(db, caller, o, failing);
  }

  lemma SetStatusReferential(db: Db, i: nat, status: InvitationStatus)
    requires Referential(db) && i in db.invitations
    ensures Referential(SetStatus(db, i, status))
  {
  }

  lemma AcceptReferential(db: Db, u: Uid, i: nat)
    requires Referential(db)
    ensures Referential(AcceptInvitation(db, u, i).0)
  {
    if i in db.invitations {
      SetStatusReferential(db, i, EXPIRED);
      SetStatusReferential(db, i, ACCEPTED);
    }
  }

  lemma AnswerReferential(db: Db, op: Op)
    requires Referential(db) && (op.OpDeclineInvitation? || op.OpCancelInvitation?)
    ensures Referential(Step(db, op).0)
  {
    if op.i in db.invitations {
      SetStatusReferential(db, op.i, EXPIRED);
      SetStatusReferential(db, op.i, if op.OpCancelInvitation? then CANCELED else DECLINED);
    }
  }

  lemma RowOpsReferential(db: Db, op: Op)
    requires Referential(db)
    requires op.OpCreateInvitation? || op.OpCleanupInvitations? || op.OpRestoreOrganization? || op.OpWait?
    ensures Referential(Step(db, op).0)
  {
  }

  lemma UserWritesReferential(db: Db, op: Op)
    requires Referential(db) && (op.OpRegister? || op.OpEditUser?)
    ensures Referential(Step(db, op).0)
  {
  }

  lemma WriteSubscriptionReferential(db: Db, id: Option<nat>, sub: Subscription)
    requires Referential(db)
    ensures Referential(WriteSubscription(db, id, sub))
  {
  }

  lemma StepReferential(db: Db, op: Op)
    requires Referential(db)
    ensures Referential(Step(db, op).0)
  {
    match op
    case OpCreateOrganization(_, _) => MemberOpsReferential(db, op);
    case OpUpdateMemberRole(_, _, _, _) => MemberOpsReferential(db, op);
    case OpTransferOwnership(_, _, _) => MemberOpsReferential(db, op);
    case OpRemoveMember(_, _, _) => MemberOpsReferential(db, op);
    case OpDeleteOrganization(c, o, f) => DeleteOrganizationReferential(db, c, o, f);
    case OpDeleteAccount(u, p, f) =>
      DeleteAccountIsCascade(db, u, p, f);
      CascadeReferential(db, u);
    case OpAcceptInvitation(u, i) => AcceptReferential(db, u, i);
    case OpDeclineInvitation(_, _) => AnswerReferential(db, op);
    case OpCancelInvitation(_, _, _) => AnswerReferential(db, op);
    case OpRegister(_, _) => UserWritesReferential(db, op);
    case OpEditUser(_, _) => UserWritesReferential(db, op);
    case OpWriteSubscription(id, sub) => WriteSubscriptionReferential(db, id, sub);
    case _ => RowOpsReferential(db, op);
  }

  // ---------------------------------------------------------------- invitation rules

  lemma SetStatusKeepsInvitations(db: Db, i: nat, status: InvitationStatus)
    requires InvitationsSound(db.invitations) && i in db.invitations && db.invitations[i].status == PENDING && status != PENDING
    ensures InvitationsSound(SetStatus(db, i, status).invitations) && InvitationsForward(db, SetStatus(db, i, status))
  {
    var inv' := SetStatus(db, i, status).invitations;
    forall j, k | j in inv' && k in inv' && SameSlot(inv'[j], inv'[k])
      ensures j == k
    {
      assert SameSlot(db.invitations[j], db.invitations[k]);
    }
  }

  lemma CreateKeepsInvitations(db: Db, caller: Uid, o: Oid, email: string, role: Role)
    requires Referential(db) && InvitationsSound(db.invitations)
    ensures var db' := CreateInvitation(db, caller, o, email, role).0;
      InvitationsSound(db'.invitations) && InvitationsForward(db, db')
  {
    var inv, inv' := db.invitations, CreateInvitation(db, caller, o, email, role).0.invitations;
    forall j, k | j in inv' && k in inv' && SameSlot(inv'[j], inv'[k])
      ensures j == k
    {
      if j in inv && k in inv {
        assert SameSlot(inv[j], inv[k]);
      }
    }
  }

  lemma AcceptKeepsInvitations(db: Db, u: Uid, i: nat)
    requires InvitationsSound(db.invitations)
    ensures var db' := AcceptInvitation(db, u, i).0; InvitationsSound(db'.invitations) && InvitationsForward(db, db')
  {
    var db' := AcceptInvitation(db, u, i).0;
    if i in db.invitations && db.invitations[i].status == PENDING && db' != db {
      var status := if db.invitations[i].expiresAt < db.clock then EXPIRED else ACCEPTED;
      SetStatusKeepsInvitations(db, i, status);
      assert db'.invitations == SetStatus(db, i, status).invitations;
    }
  }

  lemma AnswerKeepsInvitations(db: Db, op: Op)
    requires InvitationsSound(db.invitations) && (op.OpDeclineInvitation? || op.OpCancelInvitation?)
    ensures var db' := Step(db, op).0; InvitationsSound(db'.invitations) && InvitationsForward(db, db')
  {
    var db' := Step(db, op).0;
    if db' != db {
      SetStatusKeepsInvitations(db, op.i, db'.invitations[op.i].status);
    }
  }

  /** Dropping rows keeps the invitation rules. */
  lemma FewerInvitations(db: Db, db': Db)
    requires InvitationsSound(db.invitations) && db'.nextInvitation == db.nextInvitation
    requires forall i :: i in db'.invitations ==> i in db.invitations && db'.invitations[i] == db.invitations[i]
    ensures InvitationsSound(db'.invitations) && InvitationsForward(db, db')
  {
  }

  lemma OtherOpsKeepInvitations(db: Db, op: Op)
    requires InvitationsSound(db.invitations)
    requires !op.OpCreateInvitation? && !op.OpAcceptInvitation? && !op.OpDeclineInvitation? && !op.OpCancelInvitation?
      && !op.OpDeleteAccount? && !op.OpDeleteOrganization?
    ensures InvitationsSound(Step(db, op).0.invitations) && InvitationsForward(db, Step(db, op).0)
  {
    FewerInvitations(db, Step(db, op).0);
  }

  lemma StepInvitations(db: Db, op: Op)
    requires Sound(db)
    ensures InvitationsSound(Step(db, op).0.invitations) && InvitationsForward(db, Step(db, op).0)
  {
    match op
    case OpCreateInvitation(c, o, e, r) => CreateKeepsInvitations(db, c, o, e, r);
    case OpAcceptInvitation(u, i) => AcceptKeepsInvitations(db, u, i);
    case OpDeclineInvitation(_, _) => AnswerKeepsInvitations(db, op);
    case OpCancelInvitation(_, _, _) => AnswerKeepsInvitations(db, op);
    case OpDeleteAccount(u, p, f) =>
      DeleteAccountIsCascade(db, u, p, f);
      FewerInvitations(db, Step(db, op).0);
    case OpDeleteOrganization(c, o, f) =>
      DeleteOrganizationEffect(db, c, o, f);
      FewerInvitations(db, Step(db, op).0);
    case _ => OtherOpsKeepInvitations(db, op);
  }

  lemma StepSound(db: Db, op: Op)
    requires Sound(db)
    ensures Sound(Step(db, op).0) && InvitationsForward(db, Step(db, op).0)
  {
    StepReferential(db, op);
    StepOneOwner(db, op);
    StepInvitations(db, op);
  }

  lemma ForwardTransitive(a: Db, b: Db, c: Db)
    requires InvitationsForward(a, b) && InvitationsForward(b, c)
    ensures InvitationsForward(a, c)
  {
  }

  /** Every serial run keeps one OWNER per organization, that of ownerId, and the invitation rules;
      and along it an invitation that left PENDING keeps its status. */
  lemma {:induction false} RunSound(db: Db, ops: seq<Op>)
    requires Sound(db)
    ensures Sound(Run(db, ops)) && InvitationsForward(db, Run(db, ops))
    decreases |ops|
  {
    if ops != [] {
      StepSound(db, ops[0]);
      RunSound(Step(db, ops[0]).0, ops[1..]);
      ForwardTransitive(db, Step(db, ops[0]).0, Run(db, ops));
    }
  }

  /** So does every run from empty tables. */
  lemma EveryRunIsSound(clock: nat, stripeConfigured: bool, canceled: set<string>, ops: seq<Op>)
    ensures Sound(Run(Db(map[], map[], map[], map[], map[], 0, 0, 0, 0, clock, stripeConfigured, canceled), ops))
  {
    RunSound(Db(map[], map[], map[], map[], map[], 0, 0, 0, 0, clock, stripeConfigured, canceled), ops);
  }

  // ---------------------------------------------------------------- invitations

  /** A successful acceptance adds exactly one membership, that of the caller in the inviting
      organization with the invited role, and is possible once. */
  lemma AcceptanceAddsOne(db: Db, u: Uid, i: nat)
    requires Sound(db) && AcceptInvitation(db, u, i).1 == Ok
    ensures var db' := AcceptInvitation(db, u, i).0;
      var inv := db.invitations[i];
      && (inv.orgId, u) !in db.members && inv.role != OWNER
      && db'.members == db.members[(inv.orgId, u) := inv.role] && |db'.members| == |db.members| + 1
      && db'.orgs == db.orgs && db'.users == db.users
  {
  }

  /** An invitation that left PENDING is never accepted again, whatever happens in between. */
  lemma AcceptedOnce(db: Db, i: nat, ops: seq<Op>, u: Uid)
    requires Sound(db) && i < db.nextInvitation && (i in db.invitations ==> db.invitations[i].status != PENDING)
    ensures AcceptInvitation(Run(db, ops), u, i).1 != Ok
  {
    RunSound(db, ops);
  }

  /** The cleanup removes exactly terminal invitations past retention. */
  lemma CleanupSparesPending(db: Db, retentionDays: int, i: nat)
    requires i in db.invitations
    ensures i !in CleanupInvitations(db, retentionDays).invitations <==>
      db.invitations[i].status != PENDING && db.invitations[i].updatedAt < db.clock - retentionDays * DAY_MS
    ensures i in CleanupInvitations(db, retentionDays).invitations ==>
      CleanupInvitations(db, retentionDays).invitations[i] == db.invitations[i]
  {
  }

  // ---------------------------------------------------------------- the cascade

  datatype Row = UserRow(u: Uid) | OrgRow(o: Oid) | MemberRow(m: (Oid, Uid)) | InvitationRow(i: nat) | SubscriptionRow(id: nat)

  predicate Present(db: Db, r: Row) {
    match r
    case UserRow(u) => u in db.users
    case OrgRow(o) => o in db.orgs
    case MemberRow(m) => m in db.members
    case InvitationRow(i) => i in db.invitations
    case SubscriptionRow(id) => id in db.subs
  }

  /** `child` holds a foreign key to `parent` declared ON DELETE CASCADE. */
  predicate CascadesFrom(db: Db, child: Row, parent: Row) {
    Present(db, child) && match child
      case UserRow(_) => false
      case OrgRow(o) => parent == UserRow(db.orgs[o].ownerId)
      case MemberRow(m) => parent == OrgRow(m.0) || parent == UserRow(m.1)
      case InvitationRow(i) => parent == OrgRow(db.invitations[i].orgId) || parent == UserRow(db.invitations[i].inviterId)
      case SubscriptionRow(id) =>
        match db.subs[id].owner
        case OfUser(u) => parent == UserRow(u)
        case OfOrg(o) => parent == OrgRow(o)
  }

  /** `r` is reached from `root` by a chain of `n` cascading references. */
  ghost predicate Reached(db: Db, r: Row, root: Row, n: nat)
    decreases n
  {
    if n == 0 then r == root && Present(db, r)
    else exists p :: CascadesFrom(db, r, p) && Reached(db, p, root, n - 1)
  }

  lemma OwnedReached(db: Db, u: Uid, o: Oid)
    requires u in db.users && o in OwnedOrgs(db, u)
    ensures Reached(db, OrgRow(o), UserRow(u), 1)
  {
    assert Reached(db, UserRow(u), UserRow(u), 0);
    assert CascadesFrom(db, OrgRow(o), UserRow(u));
  }

  lemma RemovedIsReached(db: Db, u: Uid, r: Row)
    requires Sound(db) && u in db.users && Present(db, r) && !Present(CascadeDelete(db, u), r)
    ensures exists n :: Reached(db, r, UserRow(u), n)
  {
    assert Reached(db, UserRow(u), UserRow(u), 0);
    if r == UserRow(u) {
    } else if CascadesFrom(db, r, UserRow(u)) {
      assert Reached(db, r, UserRow(u), 1);
    } else {
      var o :| o in OwnedOrgs(db, u) && CascadesFrom(db, r, OrgRow(o));
      OwnedReached(db, u, o);
      assert Reached(db, r, UserRow(u), 2);
    }
  }

  lemma {:induction false} ReachedIsRemoved(db: Db, u: Uid, r: Row, n: nat)
    requires Sound(db) && u in db.users && Reached(db, r, UserRow(u), n)
    ensures !Present(CascadeDelete(db, u), r)
    decreases n
  {
    if n > 0 {
      var p :| CascadesFrom(db, r, p) && Reached(db, p, UserRow(u), n - 1);
      ReachedIsRemoved(db, u, p, n - 1);
      assert Present(db, p);
    }
  }

  /** Deleting a user removes exactly the rows reached from it through cascading references. */
  lemma CascadeIsClosure(db: Db, u: Uid, r: Row)
    requires Sound(db) && u in db.users && Present(db, r)
    ensures !Present(CascadeDelete(db, u), r) <==> exists n :: Reached(db, r, UserRow(u), n)
  {
    if !Present(CascadeDelete(db, u), r) {
      RemovedIsReached(db, u, r);
    }
    if n :| Reached(db, r, UserRow(u), n) {
      ReachedIsRemoved(db, u, r, n);
    }
  }

  // ---------------------------------------------------------------- account deletion

  lemma TwoMembers(db: Db, o: Oid, u: Uid, v: Uid)
    requires (o, u) in db.members && (o, v) in db.members && u != v
    ensures |MembersOf(db, o)| > 1
  {
    assert u == (o, u).1 && v == (o, v).1;
    assert {u, v} <= MembersOf(db, o);
    assert |MembersOf(db, o)| == |{u, v}| + |MembersOf(db, o) - {u, v}|;
  }

  /** The user itself, or an organization the user owns. */
  predicate Owns(db: Db, u: Uid, owner: SubOwner) {
    owner == OfUser(u) || (owner.OfOrg? && owner.o in db.orgs && db.orgs[owner.o].ownerId == u)
  }

  /** A successful deletion takes nothing of anybody else: no membership of another user, no
      organization another user owns (soft-deleted ones included), no subscription of theirs. */
  lemma DeletionSparesOthers(db: Db, u: Uid, password: string, failing: set<string>)
    requires Sound(db) && DeleteAccount(db, u, password, failing).1 == Ok
    ensures var db' := DeleteAccount(db, u, password, failing).0;
      && u !in db'.users
      && (forall v :: v in db.users && v != u ==> v in db'.users && db'.users[v] == db.users[v])
      && (forall m :: m in db.members && m.1 != u ==> m in db'.members && db'.members[m] == db.members[m])
      && (forall o :: o in db.orgs && db.orgs[o].ownerId != u ==> o in db'.orgs && db'.orgs[o] == db.orgs[o])
      && (forall id | id in db.subs && !Owns(db, u, db.subs[id].owner) ::
            id in db'.subs && db'.subs[id] == db.subs[id])
  {
    DeleteAccountIsCascade(db, u, password, failing);
    forall m | m in db.members && m.1 != u
      ensures m.0 !in OwnedOrgs(db, u)
    {
      if m.0 in OwnedOrgs(db, u) {
        assert m == (m.0, m.1);
        TwoMembers(db, m.0, u, m.1);
      }
    }
  }

  // ---------------------------------------------------------------- who may change what

  function RoleOf(db: Db, o: Oid, v: Uid): Option<Role> {
    if (o, v) in db.members then Some(db.members[(o, v)]) else None
  }

  /** The request may change the membership of `v` in `o`: its own, that of somebody who is not the
      OWNER by an OWNER or ADMIN of the organization, or an ownership handed over by the owner. */
  predicate MayChange(db: Db, op: Op, o: Oid, v: Uid) {
    match op
    case OpCreateOrganization(c, _) => c == v && o == db.nextOrg
    case OpUpdateMemberRole(c, o', t, _) => o' == o && t == v && RoleOf(db, o, v) != Some(OWNER) && Admitted(db, c, o, {OWNER, ADMIN})
    case OpRemoveMember(c, o', t) => o' == o && t == v && RoleOf(db, o, v) != Some(OWNER) && Admitted(db, c, o, {OWNER, ADMIN})
    case OpTransferOwnership(c, o', t) => o' == o && v in {c, t} && o in db.orgs && db.orgs[o].ownerId == c
    case OpAcceptInvitation(u, i) => u == v && i in db.invitations && db.invitations[i].orgId == o
      && db.invitations[i].status == PENDING && Addressed(db, u, i)
    case OpDeleteAccount(u, _, _) => u == v
    case _ => false
  }

  lemma DeletionKeepsRoles(db: Db, u: Uid, password: string, failing: set<string>, o: Oid, v: Uid)
    requires Sound(db) && u != v
    ensures RoleOf(DeleteAccount(db, u, password, failing).0, o, v) == RoleOf(db, o, v)
  {
    DeleteAccountIsCascade(db, u, password, failing);
    if DeleteAccount(db, u, password, failing).1 == Ok {
      DeletionSparesOthers(db, u, password, failing);
    }
  }

  lemma MemberOpsByRight(db: Db, op: Op, o: Oid, v: Uid)
    requires Sound(db) && (op.OpCreateOrganization? || op.OpUpdateMemberRole? || op.OpRemoveMember?)
    ensures RoleOf(Step(db, op).0, o, v) != RoleOf(db, o, v) ==> MayChange(db, op, o, v)
  {
  }

  lemma TransferByRight(db: Db, c: Uid, o': Oid, t: Uid, o: Oid, v: Uid)
    requires Sound(db)
    ensures RoleOf(TransferOwnership(db, c, o', t).0, o, v) != RoleOf(db, o, v) ==> MayChange(db, OpTransferOwnership(c, o', t), o, v)
  {
  }

  lemma AcceptByRight(db: Db, u: Uid, i: nat, o: Oid, v: Uid)
    requires Sound(db)
    ensures RoleOf(AcceptInvitation(db, u, i).0, o, v) != RoleOf(db, o, v) ==> MayChange(db, OpAcceptInvitation(u, i), o, v)
  {
  }

  /** Whatever the request, a membership changes only by right. */
  lemma MembershipChangesByRight(db: Db, op: Op, o: Oid, v: Uid)
    requires Sound(db)
    ensures RoleOf(Step(db, op).0, o, v) != RoleOf(db, o, v) ==> MayChange(db, op, o, v)
  {
    match op
    case OpCreateOrganization(_, _) => MemberOpsByRight(db, op, o, v);
    case OpUpdateMemberRole(_, _, _, _) => MemberOpsByRight(db, op, o, v);
    case OpRemoveMember(_, _, _) => MemberOpsByRight(db, op, o, v);
    case OpTransferOwnership(c, o', t) => TransferByRight(db, c, o', t, o, v);
    case OpAcceptInvitation(u, i) => AcceptByRight(db, u, i, o, v);
    case OpDeleteAccount(u, p, f) =>
      if u != v {
        DeletionKeepsRoles(db, u, p, f, o, v);
      }
    case OpDeleteOrganization(c, o', f) => DeleteOrganizationEffect(db, c, o', f);
    case OpRestoreOrganization(_, _) =>
    case _ => OtherOpsKeepMembers(db, op);
  }

  /** The owner gives the organization away, or deletes the account. */
  predicate GivesUp(op: Op, o: Oid, u: Uid) {
    match op
    case OpTransferOwnership(c, o', _) => c == u && o' == o
    case OpDeleteAccount(v, _, _) => v == u
    case _ => false
  }

  lemma StepKeepsOwner(db: Db, op: Op, o: Oid)
    requires Sound(db) && Sound(Step(db, op).0) && o in db.orgs && !GivesUp(op, o, db.orgs[o].ownerId)
    ensures var db' := Step(db, op).0; o in db'.orgs && db'.orgs[o].ownerId == db.orgs[o].ownerId
  {
    var u := db.orgs[o].ownerId;
    MembershipChangesByRight(db, op, o, u);
    assert RoleOf(db, o, u) == Some(OWNER);
    assert RoleOf(Step(db, op).0, o, u) == Some(OWNER);
  }

  /** Until the owner gives it up, in whatever else happens, the organization stays and the owner
      stays its one OWNER. */
  lemma {:induction false} OwnershipIsKept(db: Db, ops: seq<Op>, o: Oid)
    requires Sound(db) && o in db.orgs
    requires forall i :: 0 <= i < |ops| ==> !GivesUp(ops[i], o, db.orgs[o].ownerId)
    ensures var db' := Run(db, ops);
      && o in db'.orgs && db'.orgs[o].ownerId == db.orgs[o].ownerId
      && forall v :: RoleOf(db', o, v) == Some(OWNER) <==> v == db.orgs[o].ownerId
    decreases |ops|
  {
    if ops != [] {
      var u := db.orgs[o].ownerId;
      StepSound(db, ops[0]);
      StepKeepsOwner(db, ops[0], o);
      OwnershipIsKept(Step(db, ops[0]).0, ops[1..], o);
    }
  }

  /** The request may end the pending invitation `i`: its invitee answers, anybody meets its expiry,
      an OWNER or ADMIN of the organization cancels, or the cascade of a deleted account takes it. */
  predicate MayEnd(db: Db, op: Op, i: nat)
    requires i in db.invitations
  {
    var inv := db.invitations[i];
    match op
    case OpAcceptInvitation(u, k) => k == i && (inv.expiresAt < db.clock || Addressed(db, u, i))
    case OpDeclineInvitation(u, k) => k == i && (inv.expiresAt < db.clock || Addressed(db, u, i))
    case OpCancelInvitation(c, o, k) => k == i && o == inv.orgId && Admitted(db, c, o, {OWNER, ADMIN})
    case OpDeleteAccount(u, _, _) => u == inv.inviterId || (inv.orgId in db.orgs && db.orgs[inv.orgId].ownerId == u)
    case _ => false
  }

  ghost predicate StillPending(db: Db, i: nat) {
    i in db.invitations && db.invitations[i].status == PENDING
  }

  lemma AnswersEndByRight(db: Db, op: Op, i: nat)
    requires StillPending(db, i) && (op.OpAcceptInvitation? || op.OpDeclineInvitation? || op.OpCancelInvitation?)
    ensures StillPending(Step(db, op).0, i) || MayEnd(db, op, i)
  {
  }

  lemma CreationEndsNone(db: Db, caller: Uid, o: Oid, email: string, role: Role, i: nat)
    requires Sound(db) && StillPending(db, i)
    ensures StillPending(CreateInvitation(db, caller, o, email, role).0, i)
  {
    assert i != db.nextInvitation;
  }

  lemma OtherOpsEndNone(db: Db, op: Op, i: nat)
    requires StillPending(db, i)
    requires !op.OpCreateInvitation? && !op.OpAcceptInvitation? && !op.OpDeclineInvitation? && !op.OpCancelInvitation?
      && !op.OpDeleteAccount? && !op.OpDeleteOrganization?
    ensures StillPending(Step(db, op).0, i)
  {
  }

  lemma DeletionEndsByRight(db: Db, u: Uid, password: string, failing: set<string>, i: nat)
    requires StillPending(db, i)
    ensures StillPending(DeleteAccount(db, u, password, failing).0, i) || MayEnd(db, OpDeleteAccount(u, password, failing), i)
  {
    DeleteAccountIsCascade(db, u, password, failing);
  }

  /** Whatever the request, a pending invitation ends only by right. */
  lemma InvitationsEndByRight(db: Db, op: Op, i: nat)
    requires Sound(db) && StillPending(db, i)
    ensures StillPending(Step(db, op).0, i) || MayEnd(db, op, i)
  {
    match op
    case OpDeleteAccount(u, p, f) => DeletionEndsByRight(db, u, p, f, i);
    case OpDeleteOrganization(c, o, f) => DeleteOrganizationEffect(db, c, o, f);
    case OpCreateInvitation(c, o, e, r) => CreationEndsNone(db, c, o, e, r, i);
    case OpAcceptInvitation(_, _) => AnswersEndByRight(db, op, i);
    case OpDeclineInvitation(_, _) => AnswersEndByRight(db, op, i);
    case OpCancelInvitation(_, _, _) => AnswersEndByRight(db, op, i);
    case _ => OtherOpsEndNone(db, op, i);
  }

  // ---------------------------------------------------------------- billing

  /** The cancellation query of deleteAccount selects exactly the live rows its cascade destroys. */
  lemma QueryMatchesCascade(db: Db, u: Uid, id: nat)
    requires Sound(db) && u in db.users
    ensures id in LiveRows(db, AccountSubs(db, u), db.nextSub) <==>
      id in db.subs && Billing(db.subs[id].status) && exists n :: Reached(db, SubscriptionRow(id), UserRow(u), n)
  {
    if id in db.subs {
      CascadeIsClosure(db, u, SubscriptionRow(id));
    }
  }

  /** With Stripe configured, a successful deletion leaves no live subscription behind uncancelled;
      one that fails at Stripe, wherever in the loop, leaves every local row as it was. */
  lemma NoOrphanedBilling(db: Db, u: Uid, password: string, failing: set<string>)
    requires Sound(db) && db.stripeConfigured
    ensures var (db', r) := DeleteAccount(db, u, password, failing);
      && (r == Ok ==> forall id :: id in db.subs && id !in db'.subs && Billing(db.subs[id].status) ==>
            db.subs[id].stripeId in db'.canceled)
      && (r != Ok ==> db' == db.(canceled := db'.canceled) && db.canceled <= db'.canceled)
  {
    StripeTouchesOnlyStripe(db, LiveRows(db, AccountSubs(db, u), db.nextSub), failing);
  }

  /** deleteOrganization ends with every live row of the organization cancelled on both sides and the
      organization soft-deleted, or with every local row as it was. */
  lemma OrganizationBillingEnds(db: Db, caller: Uid, o: Oid, failing: set<string>)
    requires Sound(db) && db.stripeConfigured
    ensures var (db', r) := DeleteOrganization(db, caller, o, failing);
      && (r == Ok ==>
            && db'.orgs[o] == db.orgs[o].(deleted := true)
            && db'.subs.Keys == db.subs.Keys
            && (forall id :: id in db.subs && db.subs[id].owner == OfOrg(o) ==> !Billing(db'.subs[id].status))
            && (forall id :: id in db.subs && db.subs[id].owner == OfOrg(o) && Billing(db.subs[id].status) ==>
                  db'.subs[id].status == S_CANCELED && db.subs[id].stripeId in db'.canceled)
            && (forall id :: id in db.subs && (db.subs[id].owner != OfOrg(o) || !Billing(db.subs[id].status)) ==>
                  db'.subs[id] == db.subs[id]))
      && (r != Ok ==> db' == db.(canceled := db'.canceled) && db.canceled <= db'.canceled)
  {
    StripeTouchesOnlyStripe(db, LiveRows(db, OrgSubs(db, o), db.nextSub), failing);
  }
}
