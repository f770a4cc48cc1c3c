/**
 Whole calls on organizations and members. A call that succeeds has done what it was asked,
 once, and recorded it; a call that is rejected reports what was the case at that step; and
 a step in peace always brings a call forward.
 */
module MemberRuns {
  import opened Outcomes
  import opened Timestamps
  import opened Domain
  import opened Keys
  import opened Items
  import opened Transactions
  import opened Batches
  import opened Provisioning
  import opened Ownership

  // ----- the deeds -----

  predicate IsOwnStep(step: Step, i: nat) {
    step.Go? && step.client == i
  }

  /** A removal reads a membership that is no owner's. */
  ghost predicate ReadsMember(w: World, step: Step, i: nat, seen: Membership) {
    && IsOwnStep(step, i) && i in w.clients && w.clients[i].phase.Started? && w.clients[i].task.RemoveMember?
    && PairOfTask(w.clients[i].task) in w.tables.memberships
    && w.tables.memberships[PairOfTask(w.clients[i].task)].membership == seen && seen.role != Owner
  }

  /** The pair's membership goes, and nothing else does. */
  ghost predicate DeletesMember(w: World, step: Step, w': World, i: nat) {
    && IsOwnStep(step, i) && i in w.clients && w.clients[i].phase.Deleting? && w.clients[i].task.RemoveMember?
    && i in w'.clients && w'.clients[i].phase.Auditing?
    && var pair := (w.clients[i].task.organization, w.clients[i].task.user);
       pair in w.tables.memberships && w'.tables == w.tables.(memberships := w.tables.memberships - {pair})
  }

  /** A grant reads the creation time of its organization. */
  ghost predicate ReadsOrganization(w: World, step: Step, i: nat, createdAt: UtcTime) {
    && IsOwnStep(step, i) && i in w.clients && w.clients[i].phase.Started? && w.clients[i].task.AddMember?
    && w.clients[i].task.role != Owner
    && w.clients[i].task.organization in w.tables.organizations
    && w.tables.organizations[w.clients[i].task.organization].createdAt == createdAt
  }

  /** The member is stored: active, with the role asked for, and sorted by its organization's creation. */
  ghost predicate StoresMember(w: World, step: Step, w': World, i: nat, createdAt: UtcTime) {
    && IsOwnStep(step, i) && i in w.clients && w.clients[i].phase == Granting(createdAt) && w.clients[i].task.AddMember?
    && i in w'.clients && w'.clients[i].phase.Auditing?
    && var c := w.clients[i].task;
       && (c.organization, c.user) !in w.tables.memberships && (c.organization, c.user) in w'.tables.memberships
       && c.organization in w.tables.organizations && c.user in w.tables.users
       && MembershipIdKey(c.membershipId) !in w.tables.constraints
       && var item := w'.tables.memberships[(c.organization, c.user)];
          && item.membership.id == c.membershipId && PairOf(item.membership) == (c.organization, c.user)
          && item.membership.role == c.role && item.membership.status == Active && item.membership.createdAt == c.now
          && item.gOrg == c.organization && item.gUser == c.user && item.gCreated == SortKey(c.now, c.membershipId)
          && item.gOrgCreated == SortKey(createdAt, c.organization)
          && w'.tables == w.tables.(memberships := w.tables.memberships[(c.organization, c.user) := item],
                                    constraints := w.tables.constraints[MembershipIdKey(c.membershipId) :=
                                                                          ConstraintItem(c.membershipId, None)])
  }

  /** The event is new and stored, and nothing else changes. */
  ghost predicate RecordsEvent(w: World, step: Step, w': World, i: nat, e: AuditEvent) {
    && IsOwnStep(step, i) && i in w.clients && w.clients[i].phase == Auditing(e)
    && i in w'.clients && w'.clients[i].phase.Succeeded?
    && e.id !in w.tables.audits && e.organizationId in w.tables.organizations
    && w'.tables == w.tables.(audits := w.tables.audits[e.id := e])
  }

  function LabelOf(role: MembershipRole): string {
    if role == Owner then "owner" else if role == OrganizationAdmin then "admin" else if role == Member then "member" else "viewer"
  }

  /** The event of a call on a membership: who did what to which record, in which role, and when. */
  predicate Tells(e: AuditEvent, id: string, organization: string, actor: string, action: string, target: string,
                  role: MembershipRole, now: UtcTime) {
    && e.id == id && e.organizationId == organization && e.actorId == actor && e.action == action
    && e.targetId == Some(target) && e.metadata == map["role" := LabelOf(role)] && e.createdAt == now
  }

  predicate TellsRemoval(e: AuditEvent, c: Task, seen: Membership) {
    c.RemoveMember? && Tells(e, c.auditId, c.organization, c.actor, "membership.removed", seen.id, seen.role, c.now)
  }

  predicate TellsGrant(e: AuditEvent, c: Task) {
    c.AddMember? && Tells(e, c.auditId, c.organization, c.actor, "membership.created", c.membershipId, c.role, c.now)
  }

  /** An organization with its owner and both events, the creator's. */
  ghost predicate CreatesOrganization(w: World, step: Step, w': World, i: nat) {
    && IsOwnStep(step, i) && i in w.clients && w.clients[i].phase.Started? && w.clients[i].task.CreateOrganization?
    && i in w'.clients && w'.clients[i].phase.Succeeded?
    && var c := w.clients[i].task;
       && c.kind == Customer && c.creator in w.tables.users
       && c.ids.organization !in w.tables.organizations && SlugKey(c.slug) !in w.tables.constraints
       && StoresOrganization(w'.tables, c) && StoresOwner(w'.tables, c) && StoresCreationEvents(w'.tables, c)
  }

  ghost predicate StoresOrganization(t: Tables, c: Task)
    requires c.CreateOrganization?
  {
    && c.ids.organization in t.organizations
    && var o := t.organizations[c.ids.organization];
       && o.id == c.ids.organization && o.name == c.name && o.slug == c.slug && o.kind == c.kind
       && o.status == Active && o.nameStatus == Confirmed && o.suspendedAt == None
       && o.createdAt == c.now && o.updatedAt == c.now
  }

  ghost predicate StoresOwner(t: Tables, c: Task)
    requires c.CreateOrganization?
  {
    && (c.ids.organization, c.creator) in t.memberships
    && var m := t.memberships[(c.ids.organization, c.creator)].membership;
       && m.id == c.ids.membership && PairOf(m) == (c.ids.organization, c.creator)
       && m.role == Owner && m.status == Active && m.createdAt == c.now
  }

  ghost predicate StoresCreationEvents(t: Tables, c: Task)
    requires c.CreateOrganization?
  {
    && c.ids.organizationAudit in t.audits && c.ids.membershipAudit in t.audits
    && var e := t.audits[c.ids.organizationAudit];
       && e.id == c.ids.organizationAudit && e.organizationId == c.ids.organization && e.actorId == c.creator
       && e.action == "organization.created" && e.targetId == Some(c.ids.organization)
       && e.metadata == map["type" := "customer"] && e.createdAt == c.now
       && Tells(t.audits[c.ids.membershipAudit], c.ids.membershipAudit, c.ids.organization, c.creator,
                "membership.created", c.ids.membership, Owner, c.now)
  }

  // ----- one step -----

  lemma OthersLeaveTheCall(w: World, step: Step, w': World, i: nat)
    requires Next(w, step, w') && !IsOwnStep(step, i) && i in w'.clients
    ensures i in w.clients ==> w'.clients[i] == w.clients[i]
    ensures i !in w.clients ==> w'.clients[i].phase.Started?
  {
    hide NextWrites, Interact, Judge, ItemsAfter, AfterWrite, SortKey;
  }

  lemma GrantStores(w: World, step: Step, w': World, i: nat)
    requires Next(w, step, w') && IsOwnStep(step, i) && w.clients[i].phase.Granting? && w.clients[i].task.AddMember?
    requires w'.clients[i].phase.Auditing?
    ensures StoresMember(w, step, w', i, w.clients[i].phase.organizationCreatedAt)
    ensures TellsGrant(w'.clients[i].phase.event, w.clients[i].task)
  {
    hide SortKey, ApplyAll, AllHold, DistinctTargets;
    var c := w.clients[i];
    var ws := MemberWrites(NewMember(c.task), c.phase.organizationCreatedAt);
    NextWritesAlign(c);
    assert Commits(w.tables, ws);
    GrantConditions(w.tables, NewMember(c.task), c.phase.organizationCreatedAt);
    GrantWrites(w.tables, NewMember(c.task), c.phase.organizationCreatedAt);
  }

  lemma GrantConditions(t: Tables, m: Membership, createdAt: UtcTime)
    requires AllHold(t, MemberWrites(m, createdAt))
    ensures PairOf(m) !in t.memberships && MembershipIdKey(m.id) !in t.constraints
    ensures m.organizationId in t.organizations && m.userId in t.users
  {
    hide SortKey;
    var ws := MemberWrites(m, createdAt);
    assert Holds(t, ws[0]) && Holds(t, ws[1]) && Holds(t, ws[2]) && Holds(t, ws[3]);
  }

  lemma GrantWrites(t: Tables, m: Membership, createdAt: UtcTime)
    ensures ApplyAll(t, MemberWrites(m, createdAt))
         == t.(memberships := t.memberships[PairOf(m) := ToMembershipItem(m, createdAt)],
               constraints := t.constraints[MembershipIdKey(m.id) := ConstraintItem(m.id, None)])
  {
    hide SortKey, ApplyAll;
    var ws := MemberWrites(m, createdAt);
    assert ws == [ws[0], ws[1]] + [ws[2], ws[3]];
    TwoSteps(t, ws[0], ws[1]);
    ApplyAllAppends(t, [ws[0], ws[1]], [ws[2], ws[3]]);
    TwoSteps(ApplyAll(t, [ws[0], ws[1]]), ws[2], ws[3]);
  }

  lemma EventIsRecorded(w: World, step: Step, w': World, i: nat)
    requires Next(w, step, w') && IsOwnStep(step, i) && w.clients[i].phase.Auditing? && w'.clients[i].phase.Succeeded?
    ensures RecordsEvent(w, step, w', i, w.clients[i].phase.event)
  {
    hide SortKey, ApplyAll, AllHold, DistinctTargets;
    var c := w.clients[i];
    NextWritesAlign(c);
    assert Commits(w.tables, AuditWrites(c.phase.event));
    EventWrites(w.tables, c.phase.event);
  }

  lemma EventWrites(t: Tables, e: AuditEvent)
    requires AllHold(t, AuditWrites(e))
    ensures e.id !in t.audits && e.organizationId in t.organizations
    ensures ApplyAll(t, AuditWrites(e)) == t.(audits := t.audits[e.id := e])
  {
    hide ApplyAll;
    var ws := AuditWrites(e);
    assert Holds(t, ws[0]) && Holds(t, ws[1]);
    TwoSteps(t, ws[0], ws[1]);
  }

  lemma RemovalDeletes(w: World, step: Step, w': World, i: nat)
    requires Next(w, step, w') && IsOwnStep(step, i) && w.clients[i].phase.Deleting? && w'.clients[i].phase.Auditing?
    ensures DeletesMember(w, step, w', i)
    ensures TellsRemoval(w'.clients[i].phase.event, w.clients[i].task, w.clients[i].phase.seen)
  {
    hide SortKey, Judge, ItemsAfter;
  }

  lemma CreationHasTwoEvents(c: Task)
    requires c.CreateOrganization?
    ensures |OrganizationBatchOf(c).audits| == 2
  {
  }

  lemma CreationStoresOrganization(t: Tables, c: Task)
    requires c.CreateOrganization? && Commits(t, OrganizationWrites(OrganizationBatchOf(c)))
    ensures StoresOrganization(ApplyAll(t, OrganizationWrites(OrganizationBatchOf(c))), c)
  {
    hide SortKey, ApplyAll, DistinctTargets, AllHold, KindText;
    WrittenItems(t, OrganizationWrites(OrganizationBatchOf(c)), 0);
  }

  lemma CreationStoresOwner(t: Tables, c: Task)
    requires c.CreateOrganization? && Commits(t, OrganizationWrites(OrganizationBatchOf(c)))
    ensures StoresOwner(ApplyAll(t, OrganizationWrites(OrganizationBatchOf(c))), c)
  {
    hide SortKey, ApplyAll, DistinctTargets, AllHold, KindText;
    WrittenItems(t, OrganizationWrites(OrganizationBatchOf(c)), 2);
  }

  lemma CreationStoresEvents(t: Tables, c: Task)
    requires c.CreateOrganization? && c.kind == Customer && Commits(t, OrganizationWrites(OrganizationBatchOf(c)))
    ensures StoresCreationEvents(ApplyAll(t, OrganizationWrites(OrganizationBatchOf(c))), c)
  {
    hide SortKey, ApplyAll, DistinctTargets, AllHold;
    WrittenItems(t, OrganizationWrites(OrganizationBatchOf(c)), 4);
    WrittenItems(t, OrganizationWrites(OrganizationBatchOf(c)), 5);
  }

  lemma CreationConditions(t: Tables, c: Task)
    requires c.CreateOrganization? && AllHold(t, OrganizationWrites(OrganizationBatchOf(c)))
    ensures c.creator in t.users && c.ids.organization !in t.organizations && SlugKey(c.slug) !in t.constraints
  {
    hide SortKey;
    var ws := OrganizationWrites(OrganizationBatchOf(c));
    assert Holds(t, ws[0]) && Holds(t, ws[1]) && Holds(t, ws[6]);
  }

  lemma CreationCreates(w: World, step: Step, w': World, i: nat)
    requires Next(w, step, w') && IsOwnStep(step, i) && w.clients[i].phase.Started? && w'.clients[i].phase.Succeeded?
    requires w.clients[i].task.CreateOrganization?
    ensures CreatesOrganization(w, step, w', i)
  {
    hide SortKey, ApplyAll, AllHold, DistinctTargets, OrganizationWrites, OrganizationConflicts, OrganizationBatchOf,
         StoresOrganization, StoresOwner, StoresCreationEvents;
    var c := w.clients[i];
    NextWritesAlign(c);
    CreationHasTwoEvents(c.task);
    assert Commits(w.tables, OrganizationWrites(OrganizationBatchOf(c.task)));
    CreationStoresOrganization(w.tables, c.task);
    CreationStoresOwner(w.tables, c.task);
    CreationStoresEvents(w.tables, c.task);
    CreationConditions(w.tables, c.task);
  }

  lemma ReadsComeFirst(w: World, step: Step, w': World, i: nat)
    requires Next(w, step, w') && IsOwnStep(step, i) && i in w'.clients
    ensures w'.clients[i].phase.Deleting? ==>
              w.clients[i].phase == w'.clients[i].phase || ReadsMember(w, step, i, w'.clients[i].phase.seen)
    ensures w'.clients[i].phase.Granting? ==>
              w.clients[i].phase == w'.clients[i].phase
              || ReadsOrganization(w, step, i, w'.clients[i].phase.organizationCreatedAt)
    ensures w'.clients[i].phase.Auditing? ==>
              w.clients[i].phase == w'.clients[i].phase || w.clients[i].phase.Deleting?
              || (w.clients[i].phase.Granting? && w.clients[i].task.AddMember?)
    ensures w'.clients[i].phase.Succeeded? ==>
              w.clients[i].phase.Succeeded? || w.clients[i].phase.Auditing?
              || (w.clients[i].phase.Started? && (w.clients[i].task.CreateOrganization? || w.clients[i].task.FirstLogin?))
    ensures w'.clients[i].task == w.clients[i].task
  {
    hide SortKey, Judge, ItemsAfter, LoginWrites, OrganizationWrites, MemberWrites, AuditWrites, BuildBatch, OrganizationBatchOf;
  }

  // ----- the history of a call -----

  /** The call's membership was read at q and removed at m. */
  ghost predicate RemovedSince(run: seq<World>, steps: seq<Step>, q: nat, m: nat, n: nat, i: nat, c: Task, e: AuditEvent)
    requires |run| == |steps| + 1 && n < |run|
  {
    && q < m < n && DeletesMember(run[m], steps[m], run[m + 1], i) && run[m].clients[i].task == c
    && ReadsMember(run[q], steps[q], i, run[m].clients[i].phase.seen)
    && TellsRemoval(e, c, run[m].clients[i].phase.seen)
  }

  /** The organization was read at q and the member stored at m. */
  ghost predicate GrantedSince(run: seq<World>, steps: seq<Step>, q: nat, m: nat, n: nat, i: nat, c: Task, e: AuditEvent)
    requires |run| == |steps| + 1 && n < |run|
  {
    && q < m < n && i in run[m].clients && run[m].clients[i].phase.Granting? && run[m].clients[i].task == c
    && StoresMember(run[m], steps[m], run[m + 1], i, run[m].clients[i].phase.organizationCreatedAt)
    && ReadsOrganization(run[q], steps[q], i, run[m].clients[i].phase.organizationCreatedAt)
    && TellsGrant(e, c)
  }

  /** The event was recorded at p, after the deed it tells of. */
  ghost predicate RecordedAt(run: seq<World>, steps: seq<Step>, p: nat, n: nat, i: nat, c: Task, e: AuditEvent)
    requires |run| == |steps| + 1 && n < |run|
  {
    && p < n && RecordsEvent(run[p], steps[p], run[p + 1], i, e)
    && exists q: nat, m: nat :: RemovedSince(run, steps, q, m, p, i, c, e) || GrantedSince(run, steps, q, m, p, i, c, e)
  }

  /** What lies behind a call in this phase at n. */
  ghost predicate Behind(run: seq<World>, steps: seq<Step>, n: nat, i: nat)
    requires |run| == |steps| + 1 && n < |run| && i in run[n].clients
  {
    var c := run[n].clients[i].task;
    match run[n].clients[i].phase
    case Deleting(seen) => exists q: nat :: q < n && ReadsMember(run[q], steps[q], i, seen)
    case Granting(createdAt) => exists q: nat :: q < n && ReadsOrganization(run[q], steps[q], i, createdAt)
    case Auditing(e) =>
      exists q: nat, m: nat :: RemovedSince(run, steps, q, m, n, i, c, e) || GrantedSince(run, steps, q, m, n, i, c, e)
    case Succeeded =>
      || (c.CreateOrganization? && exists m: nat :: m < n && CreatesOrganization(run[m], steps[m], run[m + 1], i)
                                               && run[m].clients[i].task == c)
      || c.FirstLogin?
      || (exists p: nat, e :: RecordedAt(run, steps, p, n, i, c, e))
    case _ => true
  }

  lemma TasksStay(w: World, step: Step, w': World, i: nat)
    requires Next(w, step, w') && i in w.clients
    ensures i in w'.clients && w'.clients[i].task == w.clients[i].task
  {
    hide SortKey, NextWrites, Interact, Judge, ItemsAfter, AfterWrite;
  }

  lemma OwnStepsAreTaken(w: World, step: Step, w': World, i: nat)
    requires Next(w, step, w') && IsOwnStep(step, i)
    ensures i in w.clients && i in w'.clients
  {
    hide SortKey, NextWrites, Interact, Judge, ItemsAfter, AfterWrite;
  }

  /** What was behind a call stays behind it while it stays in its phase. */
  lemma StaysBehind(run: seq<World>, steps: seq<Step>, n: nat, i: nat)
    requires |run| == |steps| + 1 && n + 1 < |run| && i in run[n].clients && i in run[n + 1].clients && Behind(run, steps, n, i)
    requires run[n + 1].clients[i].phase == run[n].clients[i].phase && run[n + 1].clients[i].task == run[n].clients[i].task
    ensures Behind(run, steps, n + 1, i)
  {
    hide ReadsMember, ReadsOrganization, DeletesMember, StoresMember, RecordsEvent, CreatesOrganization, TellsRemoval, TellsGrant;
    match run[n].clients[i].phase {
      case Auditing(e) =>
        var c := run[n].clients[i].task;
        var q: nat, m: nat :| RemovedSince(run, steps, q, m, n, i, c, e) || GrantedSince(run, steps, q, m, n, i, c, e);
        assert RemovedSince(run, steps, q, m, n + 1, i, c, e) || GrantedSince(run, steps, q, m, n + 1, i, c, e);
      case Succeeded =>
        var c := run[n].clients[i].task;
        if p: nat, e :| RecordedAt(run, steps, p, n, i, c, e) {
          assert RecordedAt(run, steps, p, n + 1, i, c, e);
        }
      case _ =>
    }
  }

  lemma DeedsComeBehind(run: seq<World>, steps: seq<Step>, n: nat, i: nat)
    requires |run| == |steps| + 1 && n + 1 < |run| && Next(run[n], steps[n], run[n + 1]) && IsOwnStep(steps[n], i)
    requires i in run[n].clients && i in run[n + 1].clients && Behind(run, steps, n, i)
    requires run[n + 1].clients[i].phase != run[n].clients[i].phase
    ensures Behind(run, steps, n + 1, i)
  {
    hide Next, ReadsMember, ReadsOrganization, DeletesMember, StoresMember, RecordsEvent, CreatesOrganization, TellsRemoval,
         TellsGrant;
    var w, step, w' := run[n], steps[n], run[n + 1];
    var c := w.clients[i].task;
    ReadsComeFirst(w, step, w', i);
    match w'.clients[i].phase {
      case Auditing(e) =>
        if w.clients[i].phase.Deleting? {
          RemovalDeletes(w, step, w', i);
          var q: nat :| q < n && ReadsMember(run[q], steps[q], i, w.clients[i].phase.seen);
          assert RemovedSince(run, steps, q, n, n + 1, i, c, e);
        } else {
          GrantStores(w, step, w', i);
          var q: nat :| q < n && ReadsOrganization(run[q], steps[q], i, w.clients[i].phase.organizationCreatedAt);
          assert GrantedSince(run, steps, q, n, n + 1, i, c, e);
        }
      case Succeeded =>
        if w.clients[i].phase.Auditing? {
          EventIsRecorded(w, step, w', i);
          assert RecordedAt(run, steps, n, n + 1, i, c, w.clients[i].phase.event);
        } else if c.CreateOrganization? {
          CreationCreates(w, step, w', i);
        }
      case _ =>
    }
  }

  /** Every call has behind it what its phase says, over every run it began in. */
  lemma {:induction false} HistoryIsBehind(run: seq<World>, steps: seq<Step>, n: nat, i: nat)
    requires IsRun(run, steps) && i !in run[0].clients && n < |run| && i in run[n].clients
    ensures Behind(run, steps, n, i)
  {
    hide Next, Behind;
    var w, step, w' := run[n - 1], steps[n - 1], run[n];
    if i !in w.clients {
      NotOwnYet(w, step, w', i);
      OthersLeaveTheCall(w, step, w', i);
      assert Behind(run, steps, n, i) by { NothingBehind(run, steps, n, i); }
    } else {
      HistoryIsBehind(run, steps, n - 1, i);
      TasksStay(w, step, w', i);
      if IsOwnStep(step, i) && w'.clients[i].phase != w.clients[i].phase {
        DeedsComeBehind(run, steps, n - 1, i);
      } else {
        if !IsOwnStep(step, i) {
          OthersLeaveTheCall(w, step, w', i);
        }
        StaysBehind(run, steps, n - 1, i);
      }
    }
  }

  lemma NotOwnYet(w: World, step: Step, w': World, i: nat)
    requires Next(w, step, w') && i !in w.clients
    ensures !IsOwnStep(step, i)
    ensures i in w'.clients ==> w'.clients[i].phase.Started? && w'.clients[i].attempts == 0
  {
    hide SortKey, NextWrites, Interact, Judge, ItemsAfter, AfterWrite;
  }

  lemma NothingBehind(run: seq<World>, steps: seq<Step>, n: nat, i: nat)
    requires |run| == |steps| + 1 && n < |run| && i in run[n].clients && run[n].clients[i].phase.Started?
    ensures Behind(run, steps, n, i)
  {
  }

  predicate IsPastDeed(phase: Phase) {
    phase.Auditing? || phase.Succeeded? || phase.Rejected?
  }

  lemma {:induction false} StaysPastDeed(run: seq<World>, steps: seq<Step>, m: nat, n: nat, i: nat)
    requires IsRun(run, steps) && m <= n < |run| && i in run[m].clients && IsPastDeed(run[m].clients[i].phase)
    ensures i in run[n].clients && IsPastDeed(run[n].clients[i].phase)
  {
    hide Next;
    if m < n {
      StaysPastDeed(run, steps, m, n - 1, i);
      PastDeedStep(run[n - 1], steps[n - 1], run[n], i);
    }
  }

  lemma PastDeedStep(w: World, step: Step, w': World, i: nat)
    requires Next(w, step, w') && i in w.clients && IsPastDeed(w.clients[i].phase)
    ensures i in w'.clients && IsPastDeed(w'.clients[i].phase)
  {
    hide SortKey, Judge, ItemsAfter, LoginWrites, OrganizationWrites, MemberWrites, AuditWrites, BuildBatch, OrganizationBatchOf;
  }

  /** A call removes or stores its member at most once. */
  lemma DeedsAreDoneOnce(run: seq<World>, steps: seq<Step>, m: nat, n: nat, i: nat, createdAt: UtcTime, createdAt': UtcTime)
    requires IsRun(run, steps) && m < |steps| && n < |steps|
    requires (DeletesMember(run[m], steps[m], run[m + 1], i) && DeletesMember(run[n], steps[n], run[n + 1], i))
             || (StoresMember(run[m], steps[m], run[m + 1], i, createdAt)
                 && StoresMember(run[n], steps[n], run[n + 1], i, createdAt'))
    ensures m == n
  {
    hide Next, SortKey;
    if m < n {
      StaysPastDeed(run, steps, m + 1, n, i);
    } else if n < m {
      StaysPastDeed(run, steps, n + 1, m, i);
    }
  }

  /**
   A removal that succeeded read a membership that was no owner's, then removed the pair's
   membership and nothing else, and then recorded the removal of the one it had read. A
   grant that succeeded stored its member, active and in the role asked for, and recorded
   that. A creation that succeeded stored the organization, its owner and both events.
   */
  lemma SuccessIsTheDeed(run: seq<World>, steps: seq<Step>, n: nat, i: nat)
    requires IsRun(run, steps) && i !in run[0].clients && n < |run| && i in run[n].clients && run[n].clients[i].phase.Succeeded?
    ensures var c := run[n].clients[i].task;
            match c
            case RemoveMember(_, _, _, _, _) =>
              exists q: nat, m: nat, p: nat, e ::
                p < n && RemovedSince(run, steps, q, m, p, i, c, e) && RecordsEvent(run[p], steps[p], run[p + 1], i, e)
            case AddMember(_, _, _, _, _, _, _) =>
              exists q: nat, m: nat, p: nat, e ::
                p < n && GrantedSince(run, steps, q, m, p, i, c, e) && RecordsEvent(run[p], steps[p], run[p + 1], i, e)
            case CreateOrganization(_, _, _, _, _, _) =>
              exists m: nat :: m < n && CreatesOrganization(run[m], steps[m], run[m + 1], i) && run[m].clients[i].task == c
            case FirstLogin(_, _, _) => true
  {
    hide Next, ReadsMember, ReadsOrganization, DeletesMember, StoresMember, RecordsEvent, CreatesOrganization;
    HistoryIsBehind(run, steps, n, i);
    var c := run[n].clients[i].task;
    if p: nat, e :| RecordedAt(run, steps, p, n, i, c, e) {
      var q: nat, m: nat :| RemovedSince(run, steps, q, m, p, i, c, e) || GrantedSince(run, steps, q, m, p, i, c, e);
    }
  }

  // ----- what a rejection means -----

  /** A transaction of this call is turned away by contention, alone or over conditions that all hold. */
  predicate TurnedAway(t: Tables, c: Client, weather: Weather) {
    weather.Contended? || (weather.Disturbed? && NextWrites(c).Some? && AllHold(t, NextWrites(c).value.0)
                           && DistinctTargets(NextWrites(c).value.0))
  }

  /** The base error: the service did not evaluate the write, or turned it away for the fifth time. */
  predicate FailsFor(t: Tables, c: Client, weather: Weather) {
    || weather.Overloaded? || weather.Faulty?
    || (TurnedAway(t, c, weather) && c.attempts + 1 >= 5)
    || (NextWrites(c).Some? && !DistinctTargets(NextWrites(c).value.0))
    || (NextWrites(c).None? && weather.Disturbed?)
  }

  /** A record id that the call brings is taken. */
  predicate IdIsTaken(t: Tables, c: Client) {
    if c.phase.Auditing? then c.phase.event.id in t.audits
    else
      match c.task
      case CreateOrganization(_, _, _, _, _, ids) =>
        ids.organization in t.organizations || MembershipIdKey(ids.membership) in t.constraints
        || ids.organizationAudit in t.audits || ids.membershipAudit in t.audits
      case AddMember(_, _, _, _, _, id, _) => MembershipIdKey(id) in t.constraints
      case _ => false
  }

  /** A record that the call's write refers to is missing. */
  predicate ParentIsMissing(t: Tables, c: Client) {
    if c.phase.Auditing? then c.phase.event.organizationId !in t.organizations
    else c.task.CreateOrganization? && c.task.creator !in t.users
  }

  /** The state of affairs an error reports; a first login's write has its own account of this. */
  ghost predicate Justifies(t: Tables, c: Client, weather: Weather, e: MemberError) {
    match e
    case TypeNotSelectable => c.task.CreateOrganization? && c.task.kind != Customer
    case SlugConflict => c.task.CreateOrganization? && SlugKey(c.task.slug) in t.constraints
    case OwnerRoleNotAssignable => c.task.AddMember? && c.task.role == Owner
    case OwnerMembershipImmutable =>
      && c.task.RemoveMember? && (c.task.organization, c.task.user) in t.memberships
      && t.memberships[(c.task.organization, c.task.user)].membership.role == Owner
    case TargetUserNotFound =>
      c.task.AddMember? && (c.task.organization !in t.organizations || c.task.user !in t.users)
    case MembershipConflict => c.task.AddMember? && (c.task.organization, c.task.user) in t.memberships
    case MemberNotFound => c.task.RemoveMember? && (c.task.organization, c.task.user) !in t.memberships
    case Storage(Failed) => FailsFor(t, c, weather)
    case Storage(Duplicate(EntityId)) => IdIsTaken(t, c) || c.task.FirstLogin?
    case Storage(ReferenceNotFound) => ParentIsMissing(t, c)
    case Storage(Duplicate(MembershipPair)) =>
      || (c.task.CreateOrganization? && (c.task.ids.organization, c.task.creator) in t.memberships)
      || c.task.FirstLogin?
    case Storage(_) => c.task.FirstLogin? && c.phase.Started?
  }

  /** A rejected transaction: turned away, unread, or for the first condition that failed. */
  lemma RejectedWrite(t: Tables, c: Client, weather: Weather, e: MemberError)
    requires NextWrites(c).Some? && |NextWrites(c).value.0| == |NextWrites(c).value.1| > 0
    requires !NextWrites(c).value.2.Rejected? && !c.phase.Rejected?
    requires var (ws, conflicts, success) := NextWrites(c).value;
             AfterWrite(c, Judge(Attempt(t, weather), ws, conflicts), success) == Rejected(e)
    ensures var (ws, conflicts, success) := NextWrites(c).value;
            || (e == Storage(Failed) && FailsFor(t, c, weather))
            || (exists b :: 0 <= b < |ws| && !Holds(t, ws[b]) && ConflictVerdict(conflicts[b]).Fail?
                        && e == Translated(c, ConflictVerdict(conflicts[b]).error))
            || (exists b :: 0 <= b < |ws| && conflicts[b] == RoleCasConflict)
  {
    hide NextWrites, AllHold, DistinctTargets, Translated, Holds, Reasons, MixedReasons;
    var (ws, conflicts, success) := NextWrites(c).value;
    if Evaluated(weather) && DistinctTargets(ws) && !AllHold(t, ws) {
      var b := Blamed(t, ws);
      assert !Holds(t, ws[b]);
    } else {
      assert Translated(c, Failed) == Storage(Failed) by { FailureIsItself(c); }
    }
  }

  lemma FailureIsItself(c: Client)
    ensures Translated(c, Failed) == Storage(Failed)
  {
  }

  lemma GrantRejection(t: Tables, c: Client, weather: Weather, b: nat)
    requires c.task.AddMember? && c.phase.Granting?
    requires var ws := MemberWrites(NewMember(c.task), c.phase.organizationCreatedAt); b < |ws| && !Holds(t, ws[b])
    ensures MemberConflicts()[b] != RoleCasConflict
    ensures ConflictVerdict(MemberConflicts()[b]).Fail?
            && Justifies(t, c, weather, Translated(c, ConflictVerdict(MemberConflicts()[b]).error))
  {
    hide SortKey, FailsFor;
    assert b == 0 || b == 1 || b == 2 || b == 3;
  }

  lemma CreationRejection(t: Tables, c: Client, weather: Weather, b: nat)
    requires c.task.CreateOrganization? && c.phase.Started?
    requires b < |OrganizationWrites(OrganizationBatchOf(c.task))| && !Holds(t, OrganizationWrites(OrganizationBatchOf(c.task))[b])
    ensures OrganizationConflicts()[b] != RoleCasConflict
    ensures ConflictVerdict(OrganizationConflicts()[b]).Fail?
            && Justifies(t, c, weather, Translated(c, ConflictVerdict(OrganizationConflicts()[b]).error))
  {
    hide SortKey, FailsFor, KindText;
    assert b == 0 || b == 1 || b == 2 || b == 3 || b == 4 || b == 5 || b == 6;
  }

  lemma EventRejection(t: Tables, c: Client, weather: Weather, b: nat)
    requires c.phase.Auditing? && b < |AuditWrites(c.phase.event)| && !Holds(t, AuditWrites(c.phase.event)[b])
    ensures AuditConflicts()[b] != RoleCasConflict
    ensures ConflictVerdict(AuditConflicts()[b]).Fail?
            && Justifies(t, c, weather, Translated(c, ConflictVerdict(AuditConflicts()[b]).error))
  {
    hide FailsFor;
    assert b == 0 || b == 1;
  }

  /** Which transaction it is. */
  lemma WritesAre(c: Client)
    requires NextWrites(c).Some?
    ensures var (ws, conflicts, success) := NextWrites(c).value;
            && !success.Rejected?
            && (|| (c.phase.Auditing? && ws == AuditWrites(c.phase.event) && conflicts == AuditConflicts())
                || (c.phase.Granting? && c.task.AddMember? && conflicts == MemberConflicts()
                    && ws == MemberWrites(NewMember(c.task), c.phase.organizationCreatedAt)
                    && success == Auditing(GrantEvent(c.task)))
                || (c.phase.Started? && c.task.CreateOrganization? && conflicts == OrganizationConflicts()
                    && |OrganizationBatchOf(c.task).audits| == 2 && ws == OrganizationWrites(OrganizationBatchOf(c.task)))
                || (c.phase.Started? && c.task.FirstLogin?))
  {
    hide SortKey, IdentityText, OrganizationWrites, MemberWrites, AuditWrites, LoginWrites;
  }

  /** Which error a rejected transaction of a call reports. */
  lemma WriteRejection(w: World, i: nat, weather: Weather, w': World)
    requires Next(w, Go(i, weather), w') && !w.clients[i].phase.Rejected? && w'.clients[i].phase.Rejected?
    requires NextWrites(w.clients[i]).Some? && !(w.clients[i].task.FirstLogin? && w.clients[i].phase.Started?)
    ensures Justifies(w.tables, w.clients[i], weather, w'.clients[i].phase.error)
  {
    hide SortKey, NextWrites, Judge, ItemsAfter, OrganizationWrites, MemberWrites, AuditWrites, OrganizationConflicts,
         MemberConflicts, AuditConflicts, Justifies, Translated, FailsFor, OrganizationBatchOf;
    var c := w.clients[i];
    var e := w'.clients[i].phase.error;
    var (ws, conflicts, success) := NextWrites(c).value;
    NextWritesAlign(c);
    WritesAre(c);
    RejectedWrite(w.tables, c, weather, e);
    FailureIsJustified(w.tables, c, weather);
    if !(e == Storage(Failed) && FailsFor(w.tables, c, weather)) {
      NoRoleSwap(c);
      var b :| 0 <= b < |ws| && !Holds(w.tables, ws[b]) && ConflictVerdict(conflicts[b]).Fail?
               && e == Translated(c, ConflictVerdict(conflicts[b]).error);
      if c.phase.Granting? {
        GrantRejection(w.tables, c, weather, b);
      } else if c.phase.Auditing? {
        EventRejection(w.tables, c, weather, b);
      } else {
        CreationRejection(w.tables, c, weather, b);
      }
    }
  }

  lemma FailureIsJustified(t: Tables, c: Client, weather: Weather)
    ensures FailsFor(t, c, weather) ==> Justifies(t, c, weather, Storage(Failed))
  {
    hide FailsFor;
  }

  lemma NoRoleSwap(c: Client)
    requires NextWrites(c).Some?
    ensures forall b | 0 <= b < |NextWrites(c).value.1| :: NextWrites(c).value.1[b] != RoleCasConflict
  {
    hide SortKey, IdentityText, OrganizationWrites, MemberWrites, AuditWrites, LoginWrites;
  }

  /** A rejection without a write. */
  lemma ReadRejection(w: World, i: nat, weather: Weather, w': World)
    requires Next(w, Go(i, weather), w') && !w.clients[i].phase.Rejected? && w'.clients[i].phase.Rejected?
    requires NextWrites(w.clients[i]).None?
    ensures w'.tables == w.tables && Justifies(w.tables, w.clients[i], weather, w'.clients[i].phase.error)
  {
    hide SortKey, LoginWrites, OrganizationWrites, MemberWrites, AuditWrites, BuildBatch, OrganizationBatchOf;
  }

  /**
   Whenever a call is rejected, nothing was written and the error reports what is the case at
   that step, the base error included.
   */
  lemma RejectionsAreTrue(w: World, i: nat, weather: Weather, w': World)
    requires Next(w, Go(i, weather), w') && !w.clients[i].phase.Rejected? && w'.clients[i].phase.Rejected?
    ensures w'.tables == w.tables && w'.creators == w.creators
    ensures !(w.clients[i].task.FirstLogin? && w.clients[i].phase.Started?) ==>
              Justifies(w.tables, w.clients[i], weather, w'.clients[i].phase.error)
  {
    hide SortKey, NextWrites, Interact, Judge, ItemsAfter, Justifies;
    var c := w.clients[i];
    if NextWrites(c).Some? {
      var (ws, conflicts, success) := NextWrites(c).value;
      NextWritesAlign(c);
      WritesAre(c);
      CancelledWritesNothing(Attempt(w.tables, weather), ws, conflicts);
      if !(c.task.FirstLogin? && c.phase.Started?) {
        WriteRejection(w, i, weather, w');
      }
    } else {
      ReadRejection(w, i, weather, w');
    }
  }

  lemma CancelledWritesNothing(a: Attempt, ws: seq<Write>, conflicts: seq<Conflict>)
    requires |conflicts| == |ws| > 0
    ensures Judge(a, ws, conflicts).Some? ==> ItemsAfter(a, ws) == a.arrival
  {
  }

  // ----- calls come forward -----

  /** The interactions a call has left at most. */
  function InteractionsLeft(phase: Phase): nat {
    match phase
    case Started => 3
    case Granting(_) => 2
    case Deleting(_) => 2
    case Auditing(_) => 1
    case _ => 0
  }

  /** Phases belong to their tasks. */
  predicate FitsTask(c: Client) {
    && (c.phase.Granting? ==> c.task.AddMember?)
    && (c.phase.Deleting? ==> c.task.RemoveMember?)
  }

  /**
   A step in peace brings a call at least one interaction closer to its end; a step in any
   other weather does so too, or repeats itself as long as attempts are left. Each
   interaction has its own attempts.
   */
  lemma StepsComeForward(w: World, i: nat, weather: Weather, w': World)
    requires Next(w, Go(i, weather), w') && FitsTask(w.clients[i]) && InteractionsLeft(w.clients[i].phase) > 0
    ensures i in w'.clients && FitsTask(w'.clients[i])
    ensures (InteractionsLeft(w'.clients[i].phase) < InteractionsLeft(w.clients[i].phase) && w'.clients[i].attempts == 0)
            || (!weather.Clear? && w'.tables == w.tables
                && w'.clients[i] == w.clients[i].(attempts := w.clients[i].attempts + 1)
                && w.clients[i].attempts + 1 < 5)
  {
    hide SortKey, NextWrites, Interact, Judge, ItemsAfter, AfterWrite;
    if NextWrites(w.clients[i]).Some? {
      WritesComeForward(w, i, weather, w');
    } else {
      ReadsComeForward(w, i, weather, w');
    }
  }

  lemma RetriesAreNotInPeace(a: Attempt, ws: seq<Write>, conflicts: seq<Conflict>)
    requires |conflicts| == |ws| > 0 && Judge(a, ws, conflicts) == Some(Retry)
    ensures !a.weather.Clear? && ItemsAfter(a, ws) == a.arrival
  {
  }

  lemma SuccessComesForward(c: Client)
    requires NextWrites(c).Some? && FitsTask(c)
    ensures InteractionsLeft(NextWrites(c).value.2) < InteractionsLeft(c.phase) && !NextWrites(c).value.2.Granting?
    ensures !NextWrites(c).value.2.Deleting?
  {
    hide SortKey, LoginWrites, OrganizationWrites, MemberWrites, AuditWrites, BuildBatch, OrganizationBatchOf;
  }

  lemma WritesComeForward(w: World, i: nat, weather: Weather, w': World)
    requires Next(w, Go(i, weather), w') && FitsTask(w.clients[i]) && NextWrites(w.clients[i]).Some?
    ensures i in w'.clients && FitsTask(w'.clients[i])
    ensures (InteractionsLeft(w'.clients[i].phase) < InteractionsLeft(w.clients[i].phase) && w'.clients[i].attempts == 0)
            || (!weather.Clear? && w'.tables == w.tables
                && w'.clients[i] == w.clients[i].(attempts := w.clients[i].attempts + 1)
                && w.clients[i].attempts + 1 < 5)
  {
    hide SortKey, NextWrites, Judge, ItemsAfter;
    var c := w.clients[i];
    var (ws, conflicts, success) := NextWrites(c).value;
    NextWritesAlign(c);
    SuccessComesForward(c);
    if Judge(Attempt(w.tables, weather), ws, conflicts) == Some(Retry) {
      RetriesAreNotInPeace(Attempt(w.tables, weather), ws, conflicts);
    }
  }

  lemma ReadsComeForward(w: World, i: nat, weather: Weather, w': World)
    requires Next(w, Go(i, weather), w') && FitsTask(w.clients[i]) && NextWrites(w.clients[i]).None?
    requires InteractionsLeft(w.clients[i].phase) > 0
    ensures i in w'.clients && FitsTask(w'.clients[i])
    ensures (InteractionsLeft(w'.clients[i].phase) < InteractionsLeft(w.clients[i].phase) && w'.clients[i].attempts == 0)
            || (!weather.Clear? && w'.tables == w.tables
                && w'.clients[i] == w.clients[i].(attempts := w.clients[i].attempts + 1)
                && w.clients[i].attempts + 1 < 5)
  {
    hide SortKey, LoginWrites, OrganizationWrites, MemberWrites, AuditWrites, BuildBatch, OrganizationBatchOf;
  }
}
