/**
 Inputs on which the adapters part, one for each exception to the refinements: a valid store,
 a call, and what each adapter makes of it.
 */
module Differences {
  import opened Outcomes
  import opened Timestamps
  import opened Domain
  import opened Keys
  import opened Relational
  import opened Items
  import opened Transactions
  import opened Batches
  import opened Refinement
  import opened Faults
  import opened Renames
  import opened RoleTransitions
  import opened RoleOutcomes
  import opened RoleRuns
  import Ownership
  import Reachable
  import DynamoDb

  // ----- creates -----

  /** What a single create answers when it is evaluated on these items. */
  ghost function Created(t: Tables, row: Row): Option<Verdict> {
    DynamoDb.PutsAndConflicts(t, row);
    Judge(Attempt(t, Clear), PutsFor(t, row) + ChecksFor(Parents(row)),
          ConflictsFor(row, false) + seq(|Parents(row)|, i => ReferenceConflict))
  }

  /** A put that fails before all others decides what a create answers. */
  lemma CreateBlames(t: Tables, row: Row, n: nat)
    requires n < |PutsFor(t, row)| && !Holds(t, PutsFor(t, row)[n])
    requires forall j | 0 <= j < n :: Holds(t, PutsFor(t, row)[j])
    ensures |ConflictsFor(row, false)| == |PutsFor(t, row)|
    ensures Created(t, row) == Some(ConflictVerdict(ConflictsFor(row, false)[n]))
  {
    hide SortKey, IdentityText, PutsFor, ConflictsFor, ChecksFor, DistinctTargets, Holds;
    DynamoDb.PutsAndConflicts(t, row);
    DynamoDb.SingleRowTargets(t, row);
    var ws := PutsFor(t, row) + ChecksFor(Parents(row));
    assert ws[n] == PutsFor(t, row)[n] && forall j | 0 <= j < n :: ws[j] == PutsFor(t, row)[j];
    assert FirstFailure(t, ws, Blamed(t, ws));
  }

  lemma OneInsert(r: Rows, row: Row)
    ensures InsertAll(r, [row]) == Insert(r, row)
  {
    assert [row][..0] == [];
    assert InsertAll(r, []) == Ok(r);
  }

  lemma OneUnobstructed(t: Tables, row: Row)
    ensures Unobstructed(t, [row]) <==> !Obstructed(t, row)
  {
    hide Obstructed;
    assert [row][..0] == [];
    assert PutsForAll(t, []) == [];
    assert ApplyAll(t, []) == t by { Reachable.NothingApplied(t); }
  }

  /** An organization created with a suspension time: both adapters accept it, only one keeps the time. */
  lemma SuspendedOrganization(t: Tables, o: Organization)
    requires Valid(t) && o.suspendedAt.Some? && o.id !in t.organizations && SlugKey(o.slug) !in t.constraints
    ensures var rows := [OrganizationRow(o)];
            var inserted := InsertAll(RowsOf(t), StoredAll(rows));
            && Commits(t, WritesFor(t, rows, [])) && inserted.Ok?
            && o in RowsOf(ApplyAll(t, WritesFor(t, rows, []))).organizations && o !in inserted.value.organizations
  {
    hide Valid, RowsOf, WritesFor, Commits, ApplyAll, InsertAll, PlusAll;
    var row, rows := OrganizationRow(o), [OrganizationRow(o)];
    OneInsert(RowsOf(t), row);
    OneUnobstructed(t, row);
    OrganizationIsFree(t, o);
    DynamoDb.SingleRowCovers(row);
    BatchRefines(t, rows, []);
    StoredInsertsAgree(RowsOf(t), rows);
    InsertAllAddsAll(RowsOf(t), StoredAll(rows));
    InsertedIsNew(RowsOf(t), rows, o);
    AddedOrganizations(RowsOf(t), rows, o);
    AddedOrganizations(RowsOf(t), StoredAll(rows), o);
  }

  lemma OrganizationIsFree(t: Tables, o: Organization)
    requires Valid(t) && o.id !in t.organizations && SlugKey(o.slug) !in t.constraints
    ensures Insert(RowsOf(t), OrganizationRow(o)).Ok?
  {
    hide SortKey, IdentityText, UsersOk, IdentitiesOk, MembershipsOk, ApiKeysOk, AuditsOk, SessionsOk;
    ParentsAgree(t, o.id);
    SlugsAgree(t, o.slug);
  }

  /** Two events with one id: a duplicate for the statements, a transaction rejected unread. */
  lemma RepeatedEvent(t: Tables, e: AuditEvent, e': AuditEvent)
    requires Valid(t) && e.id == e'.id && e.id !in t.audits
    requires e.organizationId in t.organizations && e'.organizationId == e.organizationId
    ensures var rows, parents := [AuditRow(e), AuditRow(e')], [OrganizationParent(e.organizationId)];
            && Covers(parents, rows)
            && OnlyFault(RowsOf(t), rows, Fault(1, PrimaryKey))
            && InsertAll(RowsOf(t), StoredAll(rows)) == Err(Duplicate(EntityId))
            && |AllConflicts(rows, parents, false)| == |WritesFor(t, rows, parents)| > 0
            && Judge(Attempt(t, Clear), WritesFor(t, rows, parents), AllConflicts(rows, parents, false)) == Some(Fail(Failed))
  {
    hide Valid, RowsOf, WritesFor, AllConflicts, InsertAll;
    var rows, parents := [AuditRow(e), AuditRow(e')], [OrganizationParent(e.organizationId)];
    EventsCovered(e, e');
    EventsFault(t, e, e');
    RepeatedTarget(t, e, e', parents);
    DescriptorsAlign(t, rows, parents, false);
    StatementsBlameAFault(RowsOf(t), rows);
    StoredInsertsAgree(RowsOf(t), rows);
  }

  lemma EventsCovered(e: AuditEvent, e': AuditEvent)
    requires e'.organizationId == e.organizationId
    ensures Covers([OrganizationParent(e.organizationId)], [AuditRow(e), AuditRow(e')])
  {
    var rows, p := [AuditRow(e), AuditRow(e')], OrganizationParent(e.organizationId);
    assert p in Parents(rows[0]) && !Creates(rows[..0], p);
    assert IsExternal(rows, p);
  }

  lemma EventsFault(t: Tables, e: AuditEvent, e': AuditEvent)
    requires Valid(t) && e.id == e'.id && e.id !in t.audits
    requires e.organizationId in t.organizations && e'.organizationId == e.organizationId
    ensures OnlyFault(RowsOf(t), [AuditRow(e), AuditRow(e')], Fault(1, PrimaryKey))
  {
    hide Keyed, ReferencesHold, RowsOf;
    var r, rows := RowsOf(t), [AuditRow(e), AuditRow(e')];
    AuditIdsAgree(t, e);
    ParentsAgree(t, e.organizationId);
    assert rows[..0] == [] && rows[..1] == [AuditRow(e)] && rows[..1][..0] == [];
    assert PlusAll(r, rows[..0]) == r;
    assert PlusAll(r, rows[..1]) == Plus(r, AuditRow(e));
    assert e in Plus(r, AuditRow(e)).audits;
  }

  lemma RepeatedTarget(t: Tables, e: AuditEvent, e': AuditEvent, parents: seq<Parent>)
    requires e.id == e'.id
    ensures !DistinctTargets(WritesFor(t, [AuditRow(e), AuditRow(e')], parents))
  {
    var rows := [AuditRow(e), AuditRow(e')];
    assert rows[..1] == [AuditRow(e)] && rows[..1][..0] == [];
    assert PutsForAll(t, []) == [];
    assert PutsForAll(t, rows[..1]) == [PutAudit(e)];
    assert PutsForAll(t, rows) == [PutAudit(e), PutAudit(e')];
    var ws := WritesFor(t, rows, parents);
    assert TargetOf(ws[0]) == TargetOf(ws[1]);
  }

  /** A membership id used again after its membership was removed: free for the INSERT, guarded for the put. */
  lemma ReusedMembershipId(t: Tables, m: Membership, m': Membership)
    requires Valid(t) && PairOf(m) in t.memberships && t.memberships[PairOf(m)].membership == m && m'.id == m.id
    requires PairOf(m') !in Ownership.Delete(t, PairOf(m)).memberships
    requires m'.organizationId in t.organizations && m'.userId in t.users
    ensures var t' := Ownership.Delete(t, PairOf(m));
            && Valid(t') && Obstructed(t', MembershipRow(m')) && Insert(RowsOf(t'), MembershipRow(m')).Ok?
            && Created(t', MembershipRow(m')) == Some(Fail(Duplicate(EntityId)))
  {
    hide Valid, RowsOf, Created, Ownership.Delete, Insert, Obstructed;
    Reachable.DeleteKeepsValid(t, PairOf(m));
    GuardOutlives(t, m, m');
    GuardedOnly(Ownership.Delete(t, PairOf(m)), m');
  }

  lemma GuardedOnly(t: Tables, m: Membership)
    requires Valid(t) && PairOf(m) !in t.memberships && MembershipIdKey(m.id) in t.constraints
    requires !IdTaken(RowsOf(t), MembershipRow(m)) && m.organizationId in t.organizations && m.userId in t.users
    ensures Obstructed(t, MembershipRow(m)) && Insert(RowsOf(t), MembershipRow(m)).Ok?
    ensures Created(t, MembershipRow(m)) == Some(Fail(Duplicate(EntityId)))
  {
    hide Keyed, ReferencesHold, RowsOf, Created, IdTaken, UniqueTaken;
    ParentsAgree(t, m.organizationId);
    ParentsAgree(t, m.userId);
    MembershipKeysAgree(t, m);
    CreateBlames(t, MembershipRow(m), 1);
  }

  lemma GuardOutlives(t: Tables, m: Membership, m': Membership)
    requires Valid(t) && PairOf(m) in t.memberships && t.memberships[PairOf(m)].membership == m && m'.id == m.id
    ensures var t' := Ownership.Delete(t, PairOf(m));
            && t'.organizations == t.organizations && t'.users == t.users
            && MembershipIdKey(m'.id) in t'.constraints && !IdTaken(RowsOf(t'), MembershipRow(m'))
  {
    hide SortKey, UsersOk, IdentitiesOk, OrganizationsOk, ApiKeysOk, AuditsOk, SessionsOk, ReferencesHold;
  }

  /** Two identities whose tuples differ and whose key texts do not, for a tenant with a '#'. */
  lemma SharedIdentityText(t: Tables, i: ExternalIdentity, i': ExternalIdentity, part: string, rest: Tenant)
    requires Valid(t) && i.id in t.identities && t.identities[i.id] == i && i'.id !in t.identities && i'.userId in t.users
    requires i.tenant == Some(part + "#" + rest) && i'.tenant == Some(rest)
    requires i'.provider == i.provider && i'.subject == i.subject + "#" + part
    requires forall x | x in t.identities :: IdentityTuple(t.identities[x]) != IdentityTuple(i')
    ensures Obstructed(t, IdentityRow(i')) && Insert(RowsOf(t), IdentityRow(i')).Ok?
    ensures Created(t, IdentityRow(i')) == Some(Fail(Duplicate(ExternalIdentityTuple)))
  {
    hide SortKey, IdentityText, UsersOk, OrganizationsOk, MembershipsOk, ApiKeysOk, AuditsOk, SessionsOk, Created;
    SameText(i, i', part, rest);
    ParentsAgree(t, i'.userId);
    IdentityKeysAgree(t, i');
    CreateBlames(t, IdentityRow(i'), 1);
  }

  lemma SameText(i: ExternalIdentity, i': ExternalIdentity, part: string, rest: Tenant)
    requires i.tenant == Some(part + "#" + rest) && i'.tenant == Some(rest)
    requires i'.provider == i.provider && i'.subject == i.subject + "#" + part
    ensures IdentityKeyOf(i) == IdentityKeyOf(i')
  {
    assert i.subject + "#" + (part + "#" + rest) == (i.subject + "#" + part) + "#" + rest;
  }

  // ----- updates -----

  /** A rename that lost to another: the organization is there, and reported missing. */
  lemma LostRename(t: Tables, o: Organization, other: Organization, oldSlug: string)
    requires Valid(t) && o.id == other.id && o.slug != other.slug
    requires PlanUpdate(t, o) == ChangeSlug(oldSlug) && PlanUpdate(t, other) == ChangeSlug(oldSlug)
    requires SlugKey(o.slug) !in t.constraints && SlugKey(other.slug) !in t.constraints
    ensures Commits(t, RenameWrites(other, oldSlug))
    ensures var t' := ApplyAll(t, RenameWrites(other, oldSlug));
            && Valid(t') && UpdateRows(RowsOf(t'), o).Ok?
            && Judge(Attempt(t', Clear), RenameWrites(o, oldSlug), RenameConflicts()) == Some(Fail(EntityNotFound))
  {
    hide Valid, RowsOf, ApplyAll, RenameWrites, Judge;
    RenameCommits(t, other, oldSlug);
    RenameEffect(t, other, oldSlug);
    RenameKeepsValid(t, other);
    var t' := RenamedTables(t, other, oldSlug);
    LostRenameReportsMissing(t', o, oldSlug);
    UpdateStillFits(t', o);
  }

  lemma UpdateStillFits(t: Tables, o: Organization)
    requires Valid(t) && o.id in t.organizations && SlugKey(o.slug) !in t.constraints
    ensures UpdateRows(RowsOf(t), o).Ok?
  {
    hide SortKey, IdentityText, UsersOk, IdentitiesOk, MembershipsOk, ApiKeysOk, AuditsOk, SessionsOk;
    ParentsAgree(t, o.id);
    SlugOwners(t, o.slug, Some(o.id));
  }

  /** An update that read its own slug, across a rename: the UPDATE would give the old slug back. */
  lemma KeptSlugAcrossRename(t: Tables, o: Organization, other: Organization)
    requires Valid(t) && o.id == other.id && PlanUpdate(t, o).KeepSlug?
    requires PlanUpdate(t, other) == ChangeSlug(o.slug) && SlugKey(other.slug) !in t.constraints
    ensures Commits(t, RenameWrites(other, o.slug))
    ensures var t' := ApplyAll(t, RenameWrites(other, o.slug));
            && o.id in t'.organizations && UpdateRows(RowsOf(t'), o).Ok?
            && UpdateRows(RowsOf(t'), o) != Ok(RowsOf(KeptSlug(t', o)))
            && KeptSlug(t', o).organizations[o.id].slug == other.slug
  {
    hide Valid, RowsOf, ApplyAll, RenameWrites, UpdateRows;
    RenameCommits(t, other, o.slug);
    RenameEffect(t, other, o.slug);
    RenameKeepsValid(t, other);
    var t' := RenamedTables(t, other, o.slug);
    KeptSlugRefines(t', o);
    UpdateStillFits(t', o);
  }

  // ----- role transitions -----

  /** A grant to a user whose item carries no role: SQLite grants, the swap never commits. */
  lemma GrantWithoutStoredRole(t: Tables, c: Call)
    requires Valid(t) && IsFormed(c) && c.role == Admin && c.userId in t.users && t.users[c.userId].role.None?
    requires c.audit.id !in t.audits && c.audit.organizationId in t.organizations
    ensures Serialized(RowsOf(t), c).0.Transitioned?
    ensures AfterRead(t, c) == Writing(None)
    ensures Judge(Attempt(t, Clear), RoleWrites(c, None), RoleConflicts(None)) == Some(RoleCasMiss)
    ensures AfterResolve(t, c) == RoleTransitions.Finished(Refused(Failed))
  {
    hide Valid, RowsOf, Serialized;
    GrantNeedsStoredRole(t, c);
    CommitConditions(t, c, None);
    FirstFailed(t, c, None);
    var ws := RoleWrites(c, None);
    assert !Holds(t, ws[0]);
    assert FirstFailure(t, ws, Blamed(t, ws));
  }

  /**
   Three active administrators: a revocation behind the oldest is refused once that one is
   revoked, though the third is left and the serialized transaction would commit.
   */
  lemma SpuriousRefusal(t: Tables, c: Call, d: Call, third: string)
    requires Valid(t) && IsFormed(c) && IsFormed(d) && c.role == PlainUser && d.role == PlainUser
    requires c.userId != d.userId && third != c.userId && third != d.userId
    requires IsActiveAdmin(t, c.userId) && IsActiveAdmin(t, d.userId) && IsActiveAdmin(t, third)
    requires t.users[d.userId].gRole == Some(Admin) && t.users[third].gRole == Some(Admin)
    requires OlderUser(t.users[d.userId], t.users[third])
    requires c.audit.id !in t.audits && c.audit.organizationId in t.organizations
    requires d.audit.id !in t.audits && d.audit.organizationId in t.organizations && c.audit.id != d.audit.id
    ensures AfterQuery(c, [t.users[third], t.users[d.userId]]) == Writing(Some(d.userId))
    ensures Commits(t, RoleWrites(d, Some(third)))
    ensures var t' := ApplyAll(t, RoleWrites(d, Some(third)));
            && IsActiveAdmin(t', third)
            && Judge(Attempt(t', Clear), RoleWrites(c, Some(d.userId)), RoleConflicts(Some(d.userId)))
               == Some(Fail(LastActiveAdministrator))
            && Serialized(RowsOf(t'), c).0.Transitioned?
  {
    hide Valid, RowsOf, Serialized, ApplyAll, AllHold, DistinctTargets, OlderUser;
    UserIds(t, third);
    UserIds(t, d.userId);
    PinsTheOlder(t, c, t.users[third], t.users[d.userId]);
    CommitConditions(t, d, Some(third));
    CommittedTransition(t, d, Some(third));
    TransitionKeepsValid(t, d);
    LosesItsWitness(Transition(t, d), c, d.userId, third);
  }

  lemma UserIds(t: Tables, id: string)
    requires Valid(t) && id in t.users
    ensures t.users[id].id == id
  {
  }

  lemma PinsTheOlder(t: Tables, c: Call, a: UserItem, b: UserItem)
    requires a.gRole == Some(Admin) && a.status == Active && a.id != c.userId
    requires b.gRole == Some(Admin) && b.status == Active && b.id != c.userId
    requires OlderUser(b, a)
    ensures AfterQuery(c, [a, b]) == Writing(Some(b.id))
  {
    hide OlderUser;
    assert [a, b][..1] == [a] && [a][..0] == [];
    assert Others([a], c.userId) == [a];
    assert Others([a, b], c.userId) == [a, b];
    assert [a, b][1..] == [b];
  }

  lemma LosesItsWitness(t: Tables, c: Call, pinned: string, third: string)
    requires Valid(t) && IsFormed(c) && c.role == PlainUser && IsActiveAdmin(t, c.userId) && pinned != c.userId
    requires !IsActiveAdmin(t, pinned) && IsActiveAdmin(t, third) && third != c.userId
    requires c.audit.id !in t.audits && c.audit.organizationId in t.organizations
    ensures Judge(Attempt(t, Clear), RoleWrites(c, Some(pinned)), RoleConflicts(Some(pinned)))
         == Some(Fail(LastActiveAdministrator))
    ensures Serialized(RowsOf(t), c).0.Transitioned?
  {
    hide Valid, RowsOf, Serialized;
    RefusalIsSpurious(t, RoleTransitions.Client(c, 0, Writing(Some(pinned))));
    CommitConditions(t, c, Some(pinned));
    var ws := RoleWrites(c, Some(pinned));
    assert !Holds(t, ws[0]);
    assert FirstFailure(t, ws, Blamed(t, ws));
  }

  /** A submission whose conditions hold is a step of the run. */
  lemma CommitNext(w: World, i: nat)
    requires i in w.clients && w.clients[i].phase.Writing?
    requires Commits(w.tables, RoleWrites(w.clients[i].call, w.clients[i].phase.pinned))
    ensures var c := w.clients[i].call;
            c.userId in w.tables.users
            && Next(w, Submit(i, Clear),
                    World(Transition(w.tables, c), w.clients[i := Client(c, w.clients[i].attempts + 1, ReadingBack)],
                          w.log + [c.audit]))
  {
    hide ApplyAll, AllHold, DistinctTargets, Transition;
    RolesAlign(w.clients[i].call, w.clients[i].phase.pinned);
    CommittedTransition(w.tables, w.clients[i].call, w.clients[i].phase.pinned);
  }

  /** A grant that can commit on these items. */
  ghost predicate Grantable(t: Tables, a: Call) {
    && Valid(t) && IsFormed(a) && a.role == Admin
    && a.userId in t.users && t.users[a.userId].role == Some(PlainUser) && t.users[a.userId].status == Active
    && a.audit.organizationId in t.organizations && a.audit.id !in t.audits
  }

  /** Client 0 grants: it begins, reads and commits. */
  function GrantRun(t: Tables, a: Call): seq<World>
    requires a.userId in t.users
  {
    var w0 := World(t, map[], []);
    var w1 := w0.(clients := map[0 := Client(a, 0, Reading)]);
    var w2 := Moved(w1, 0, Writing(None));
    [w0, w1, w2, World(Transition(t, a), map[0 := Client(a, 1, ReadingBack)], [a.audit])]
  }

  function GrantSteps(a: Call): seq<Step> {
    [Begin(0, a), Read(0), Submit(0, Clear)]
  }

  lemma GrantRuns(t: Tables, a: Call)
    requires Grantable(t, a)
    ensures IsRun(GrantRun(t, a), GrantSteps(a)) && Inv(GrantRun(t, a)[0])
    ensures CommittedAt(GrantRun(t, a), GrantSteps(a), 2, 0, a)
  {
    hide Valid, Submitted, Transition, Serialized, RowsOf;
    var run, steps := GrantRun(t, a), GrantSteps(a);
    RoleTransitions.QuietStart(t);
    CommitConditions(t, a, None);
    CommitNext(run[2], 0);
    assert Next(run[2], steps[2], run[3]) by {
      assert run[2].log + [a.audit] == run[3].log;
      assert run[2].clients[0 := Client(a, 1, ReadingBack)] == run[3].clients;
    }
    assert Next(run[0], steps[0], run[1]) by { assert run[0].clients[0 := Client(a, 0, Reading)] == run[1].clients; }
    assert Next(run[1], steps[1], run[2]);
    RunKeepsInv(run, steps, 2);
    SubmissionCommits(run[2], 0, Clear, run[3]);
  }

  /** A run goes on. */
  lemma RunsOn(run: seq<World>, steps: seq<Step>, more: seq<World>, moreSteps: seq<Step>, m: nat, i: nat, c: Call)
    requires IsRun(run, steps) && CommittedAt(run, steps, m, i, c) && |more| == |moreSteps|
    requires forall n | 0 <= n < |more| :: Next(([run[|run| - 1]] + more)[n], moreSteps[n], more[n])
    ensures IsRun(run + more, steps + moreSteps) && CommittedAt(run + more, steps + moreSteps, m, i, c)
  {
    hide Next, CommitsAsSerialized;
    var all, allSteps := run + more, steps + moreSteps;
    forall n | 0 <= n < |allSteps| ensures Next(all[n], allSteps[n], all[n + 1]) {
      if n < |steps| {
        assert all[n] == run[n] && all[n + 1] == run[n + 1] && allSteps[n] == steps[n];
      } else {
        var k := n - |steps|;
        assert all[n] == ([run[|run| - 1]] + more)[k] && all[n + 1] == more[k] && allSteps[n] == moreSteps[k];
      }
    }
  }

  /** A revocation of the new administrator, behind another one. */
  ghost predicate Revocable(t: Tables, a: Call, b: Call, other: string) {
    && IsFormed(b) && b.role == PlainUser && b.userId == a.userId
    && IsActiveAdmin(t, other) && t.users[other].gRole == Some(Admin) && other != a.userId
    && b.audit.organizationId in t.organizations && b.audit.id !in t.audits && a.audit.id != b.audit.id
  }

  /** Client 1 revokes what client 0 has just granted; then client 0 reads back. */
  function RevokeRun(w: World, a: Call, b: Call, other: string): seq<World>
    requires 0 in w.clients && b.userId in w.tables.users
  {
    var w4 := w.(clients := w.clients[1 := Client(b, 0, Reading)]);
    var w5 := Moved(w4, 1, Guarding);
    var w6 := Moved(w5, 1, Writing(Some(other)));
    var w7 := World(Transition(w6.tables, b), w6.clients[1 := Client(b, 1, ReadingBack)], w6.log + [b.audit]);
    [w4, w5, w6, w7, Moved(w7, 0, AfterReadBack(w7.tables, a))]
  }

  function RevokeSteps(b: Call, item: UserItem): seq<Step> {
    [Begin(1, b), Read(1), Query(1, [item]), Submit(1, Clear), ReadBack(0)]
  }

  lemma RevokeRuns(t: Tables, a: Call, b: Call, other: string)
    requires Grantable(t, a) && Revocable(t, a, b, other)
    ensures var w := GrantRun(t, a)[3];
            && a.userId in w.tables.users && 0 in w.clients
            && var more, steps := RevokeRun(w, a, b, other), RevokeSteps(b, t.users[other]);
               forall n | 0 <= n < 5 :: Next(([w] + more)[n], steps[n], more[n])
  {
    hide Valid, Submitted;
    var w := GrantRun(t, a)[3];
    var more := RevokeRun(w, a, b, other);
    RevocationCommits(t, a, b, other);
    UserIds(t, other);
    PinsTheOne(b, t.users[other]);
  }

  lemma RevocationCommits(t: Tables, a: Call, b: Call, other: string)
    requires Grantable(t, a) && Revocable(t, a, b, other)
    ensures var more := RevokeRun(GrantRun(t, a)[3], a, b, other);
            Next(more[2], Submit(1, Clear), more[3])
  {
    hide Valid, Submitted;
    var w6 := RevokeRun(GrantRun(t, a)[3], a, b, other)[2];
    CommitConditions(w6.tables, b, Some(other));
    CommitNext(w6, 1);
  }

  lemma PinsTheOne(c: Call, a: UserItem)
    requires a.gRole == Some(Admin) && a.status == Active && a.id != c.userId
    ensures AfterQuery(c, [a]) == Writing(Some(a.id))
  {
    assert [a][..0] == [] && Others([], c.userId) == [];
    assert Others([a], c.userId) == [a];
  }

  /** A run from these items in which client 0 commits the grant at 2 and reads back at n. */
  ghost predicate AnswersAt(run: seq<World>, steps: seq<Step>, t: Tables, a: Call, n: nat) {
    && IsRun(run, steps) && run[0] == World(t, map[], []) && CommittedAt(run, steps, 2, 0, a)
    && 2 < n < |steps| && steps[n] == ReadBack(0)
    && 0 in run[n + 1].clients && run[n + 1].clients[0].phase.Finished? && run[n + 1].clients[0].phase.outcome.Transitioned?
  }

  /** A grant answered after a later revocation: a plain user, where the serialized transaction answers an administrator. */
  lemma AnswerShowsLaterRevocation(t: Tables, a: Call, b: Call, other: string)
    requires Grantable(t, a) && Revocable(t, a, b, other)
    ensures exists run: seq<World>, steps: seq<Step> ::
              && AnswersAt(run, steps, t, a, 7)
              && run[8].clients[0].phase.outcome.user.role == PlainUser
              && Serialized(RowsOf(run[2].tables), a).0 != run[8].clients[0].phase.outcome
  {
    hide Valid, Next, Serialized, RowsOf, Inv, CommitsAsSerialized;
    var w := GrantRun(t, a)[3];
    GrantRuns(t, a);
    RevokeRuns(t, a, b, other);
    CommitLeaves(GrantRun(t, a)[2], GrantSteps(a)[2], w, 0);
    RunsOn(GrantRun(t, a), GrantSteps(a), RevokeRun(w, a, b, other), RevokeSteps(b, t.users[other]), 2, 0, a);
    var run, steps := GrantRun(t, a) + RevokeRun(w, a, b, other), GrantSteps(a) + RevokeSteps(b, t.users[other]);
    assert AnswersAt(run, steps, t, a, 7);
    assert run[8].clients[0].phase.outcome.user.role == PlainUser;
  }

  /** Two edits of the user, the second of which undoes the first; then client 0 reads back. */
  function EditRun(w: World, a: Call, name: string, at: UtcTime): seq<World>
    requires 0 in w.clients && a.userId in w.tables.users
  {
    var item := w.tables.users[a.userId];
    var w4 := w.(tables := Reachable.WithName(w.tables, a.userId, name, at));
    var w5 := w4.(tables := Reachable.WithName(w4.tables, a.userId, item.displayName, item.updatedAt));
    [w4, w5, Moved(w5, 0, AfterReadBack(w5.tables, a))]
  }

  lemma EditRuns(w: World, a: Call, name: string, at: UtcTime)
    requires Valid(w.tables) && 0 in w.clients && w.clients[0] == Client(a, 1, ReadingBack) && a.userId in w.tables.users
    ensures var more, steps := EditRun(w, a, name, at), [Elsewhere, Elsewhere, ReadBack(0)];
            && (forall n | 0 <= n < 3 :: Next(([w] + more)[n], steps[n], more[n]))
            && more[1].tables.users[a.userId] == w.tables.users[a.userId]
  {
    hide Valid, Submitted;
    var more, item := EditRun(w, a, name, at), w.tables.users[a.userId];
    Reachable.NameKeepsValid(w.tables, a.userId, name, at);
    Reachable.NameKeepsValid(more[0].tables, a.userId, item.displayName, item.updatedAt);
  }

  /** An answer may be the serialized one although a step in between touched the user, if another undid that. */
  lemma AnswerAfterUndoneEdit(t: Tables, a: Call, name: string, at: UtcTime)
    requires Grantable(t, a) && name != t.users[a.userId].displayName
    ensures exists run: seq<World>, steps: seq<Step> ::
              && AnswersAt(run, steps, t, a, 5) && Touches(run[3], run[4], a.userId)
              && Serialized(RowsOf(run[2].tables), a).0 == run[6].clients[0].phase.outcome
  {
    hide Valid, Next, Serialized, RowsOf, Inv, CommitsAsSerialized;
    var w := GrantRun(t, a)[3];
    GrantRuns(t, a);
    RunKeepsInv(GrantRun(t, a), GrantSteps(a), 3);
    InvIsValid(w);
    EditRuns(w, a, name, at);
    CommitLeaves(GrantRun(t, a)[2], GrantSteps(a)[2], w, 0);
    RunsOn(GrantRun(t, a), GrantSteps(a), EditRun(w, a, name, at), [Elsewhere, Elsewhere, ReadBack(0)], 2, 0, a);
    var run, steps := GrantRun(t, a) + EditRun(w, a, name, at), GrantSteps(a) + [Elsewhere, Elsewhere, ReadBack(0)];
    assert AnswersAt(run, steps, t, a, 5) && Touches(run[3], run[4], a.userId);
  }

  lemma InvIsValid(w: World)
    requires Inv(w)
    ensures Valid(w.tables)
  {
  }

  // ----- one store on which all of them show -----

  function Day(n: nat): UtcTime
    requires 1 <= n <= 28
  {
    CivilTime(2024, 1, n, 9, 0, 0, 0)
  }

  function AnAdmin(id: string, since: UtcTime): UserItem {
    UserItem(id, id, id, Active, Some(Admin), since, since, Some(id), Some(Admin))
  }

  /** Three administrators, a plain user, and a user older than the role attribute. */
  function StoredUsers(): map<string, UserItem> {
    map["a" := AnAdmin("a", Day(1)), "b" := AnAdmin("b", Day(2)), "c" := AnAdmin("c", Day(3)),
        "d" := UserItem("d", "d", "d", Active, Some(PlainUser), Day(4), Day(4), Some("d"), Some(PlainUser)),
        "e" := UserItem("e", "e", "e", Active, None, Day(5), Day(5), None, None)]
  }

  function StoredIdentity(): ExternalIdentity {
    ExternalIdentity("i", "d", Oidc, "s", Some("x#y"), Day(1))
  }

  function StoredOrganization(): Organization {
    Organization("o", "Acme", "acme", Customer, Active, Confirmed, None, Day(1), Day(1))
  }

  function StoredMembership(): Membership {
    Membership("m", "o", "d", Member, Active, Day(6))
  }

  function StoredConstraints(): map<ConstraintKey, ConstraintItem> {
    map[SlugKey("acme") := ConstraintItem("o", None), MembershipIdKey("m") := ConstraintItem("m", None),
        IdentityKeyOf(StoredIdentity()) := ConstraintItem("i", Some("d"))]
  }

  function Store(): Tables {
    Tables(StoredUsers(), map["i" := StoredIdentity()], map["o" := StoredOrganization()],
           map[("o", "d") := ToMembershipItem(StoredMembership(), Day(1))], map[], map[], StoredConstraints(), map[])
  }

  lemma StoredIndexOk()
    ensures IdentitiesOk(map["i" := StoredIdentity()], StoredConstraints())
    ensures OrganizationsOk(map["o" := StoredOrganization()], StoredConstraints())
    ensures MembershipsOk(map[("o", "d") := ToMembershipItem(StoredMembership(), Day(1))], StoredConstraints())
    ensures ApiKeysOk(map[], StoredConstraints())
  {
    hide SortKey, IdentityText;
  }

  lemma StoreIsValid()
    ensures Valid(Store())
  {
    hide SortKey, IdentitiesOk, OrganizationsOk, MembershipsOk, ApiKeysOk, StoredConstraints;
    StoredIndexOk();
  }

  lemma CreatesInStore()
    ensures var m := Membership("m", "o", "a", Viewer, Active, Day(7));
            var i := ExternalIdentity("j", "a", Oidc, "s#x", Some("y"), Day(7));
            && Created(Ownership.Delete(Store(), ("o", "d")), MembershipRow(m)) == Some(Fail(Duplicate(EntityId)))
            && Created(Store(), IdentityRow(i)) == Some(Fail(Duplicate(ExternalIdentityTuple)))
  {
    hide SortKey, IdentityText, Valid, Obstructed, Created;
    StoreIsValid();
    assert "x#y" == "x" + "#" + "y" && "s#x" == "s" + "#" + "x";
    ReusedMembershipId(Store(), StoredMembership(), Membership("m", "o", "a", Viewer, Active, Day(7)));
    SharedIdentityText(Store(), StoredIdentity(), ExternalIdentity("j", "a", Oidc, "s#x", Some("y"), Day(7)), "x", "y");
  }

  lemma UpdatesInStore()
    ensures var kept := StoredOrganization();
            var o, other := kept.(slug := "new"), kept.(slug := "other");
            var t' := ApplyAll(Store(), RenameWrites(other, "acme"));
            && Judge(Attempt(t', Clear), RenameWrites(o, "acme"), RenameConflicts()) == Some(Fail(EntityNotFound))
            && o.id in t'.organizations && UpdateRows(RowsOf(t'), kept) != Ok(RowsOf(KeptSlug(t', kept)))
  {
    hide SortKey, IdentityText, Valid, ApplyAll, RenameWrites, Judge, RowsOf, UpdateRows, Commits;
    StoreIsValid();
    var kept := StoredOrganization();
    var o, other := kept.(slug := "new"), kept.(slug := "other");
    LostRename(Store(), o, other, "acme");
    KeptSlugAcrossRename(Store(), kept, other);
  }

  lemma TransitionsInStore()
    ensures AfterResolve(Store(), FormCall("e", true, "o", Day(9), "v")) == RoleTransitions.Finished(Refused(Failed))
    ensures var c, d := FormCall("b", false, "o", Day(9), "w"), FormCall("a", false, "o", Day(9), "v");
            Judge(Attempt(ApplyAll(Store(), RoleWrites(d, Some("c"))), Clear), RoleWrites(c, Some("a")), RoleConflicts(Some("a")))
            == Some(Fail(LastActiveAdministrator))
  {
    hide SortKey, IdentityText, Valid, ApplyAll, RoleWrites, Judge, RowsOf, Serialized, Commits, AfterQuery, AfterResolve;
    StoreIsValid();
    GrantWithoutStoredRole(Store(), FormCall("e", true, "o", Day(9), "v"));
    SpuriousRefusal(Store(), FormCall("b", false, "o", Day(9), "w"), FormCall("a", false, "o", Day(9), "v"), "c");
  }

  lemma AnswersInStore()
    ensures exists run: seq<World>, steps: seq<Step> ::
              && AnswersAt(run, steps, Store(), FormCall("d", true, "o", Day(9), "v"), 7)
              && run[8].clients[0].phase.outcome.user.role == PlainUser
  {
    hide SortKey, IdentityText, Valid, AnswersAt, Serialized;
    StoreIsValid();
    var a, b := FormCall("d", true, "o", Day(9), "v"), FormCall("d", false, "o", Day(10), "w");
    assert Grantable(Store(), a) && Revocable(Store(), a, b, "a");
    AnswerShowsLaterRevocation(Store(), a, b, "a");
  }

  /** The user without index attributes is missing from the index and found by the scan. */
  lemma EmailInStore()
    ensures Reachable.EmailMatches(Store(), "e") == {}
    ensures exists u :: u in RowsOf(Store()).users && u.email == "e"
  {
    hide SortKey, IdentityText, StoredConstraints;
    assert FromUserItem(Store().users["e"]) in RowsOf(Store()).users;
  }
}
