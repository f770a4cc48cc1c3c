/**
 What each protocol assumes of everything else the system does, and that the other operations
 meet it: their steps are steps the protocol's runs allow in between.
 */
module Guarantees {
  import opened Domain
  import opened Keys
  import opened Relational
  import opened Items
  import opened Transactions
  import opened Batches
  import opened Refinement
  import opened Reachable
  import Convergence

  // ----- a committed batch leaves every item that is there -----

  ghost predicate KeepsItems(t: Tables, t': Tables) {
    forall x :: Lookup(t, x).Some? ==> Lookup(t', x) == Lookup(t, x)
  }

  predicate OnlyAdds(w: Write) {
    IsPut(w) || w.RequireUser? || w.RequireOrganization?
  }

  lemma OneAddition(t: Tables, now: Tables, w: Write, x: Target)
    requires OnlyAdds(w) && Holds(t, w) && Lookup(t, x).Some?
    ensures Lookup(Apply(now, w), x) == Lookup(now, x)
  {
    if IsPut(w) {
      PutFillsItsTarget(t, w);
      WriteChangesItsTarget(now, w, x);
    }
  }

  lemma {:induction false} AdditionsKeep(t: Tables, ws: seq<Write>, x: Target)
    requires AllHold(t, ws) && Lookup(t, x).Some? && forall i | 0 <= i < |ws| :: OnlyAdds(ws[i])
    ensures Lookup(ApplyAll(t, ws), x) == Lookup(t, x)
  {
    hide Holds, Apply, Lookup, OnlyAdds;
    if ws != [] {
      AdditionsKeep(t, ws[..|ws| - 1], x);
      OneAddition(t, ApplyAll(t, ws[..|ws| - 1]), ws[|ws| - 1], x);
    }
  }

  lemma WritesOnlyAdd(t: Tables, rows: seq<Row>, parents: seq<Parent>)
    ensures forall i | 0 <= i < |WritesFor(t, rows, parents)| :: OnlyAdds(WritesFor(t, rows, parents)[i])
  {
    hide IsPut;
    PutsForAllArePuts(t, rows);
    ChecksAreListed(parents);
  }

  lemma InsertKeepsItems(t: Tables, rows: seq<Row>, parents: seq<Parent>)
    requires Commits(t, WritesFor(t, rows, parents))
    ensures KeepsItems(t, ApplyAll(t, WritesFor(t, rows, parents)))
  {
    hide WritesFor, OnlyAdds, ApplyAll, Lookup;
    WritesOnlyAdd(t, rows, parents);
    forall x | Lookup(t, x).Some? ensures Lookup(ApplyAll(t, WritesFor(t, rows, parents)), x) == Lookup(t, x) {
      AdditionsKeep(t, WritesFor(t, rows, parents), x);
    }
  }

  /** Inserting or granting keeps every item. */
  predicate Adds(task: Task) {
    task.Insert? || task.Grant?
  }

  lemma AddingKeepsItems(t: Tables, x: Worker, weather: Weather)
    requires Valid(t) && WorkerOk(t, x) && Adds(x.task)
    ensures KeepsItems(t, Effects(t, x, weather))
  {
    hide Valid, Covers, ApplyAll, WritesFor, Lookup, Ownership.MemberWrites, AllHold, DistinctTargets;
    if x.task.Insert? {
      var ws := WritesFor(t, x.task.rows, x.task.parents);
      if Commits(t, ws) {
        InsertKeepsItems(t, x.task.rows, x.task.parents);
      }
    } else if x.stage.Granting? {
      var m := x.task.membership;
      GrantIsInsert(t, m);
      if Commits(t, Ownership.MemberWrites(m, x.stage.organizationCreatedAt)) {
        InsertKeepsItems(t, [MembershipRow(m)], [OrganizationParent(m.organizationId), UserParent(m.userId)]);
      }
    }
  }

  // ----- the tables an operation leaves alone -----

  /** Which tables the operations that add nothing leave as they are. */
  ghost predicate OtherTablesStay(t: Tables, task: Task, t': Tables) {
    && t'.identities == t.identities
    && (!task.EditUser? && !task.ChangeRole? ==> t'.users == t.users)
    && (!task.EndKey? && !task.SweepKey? ==> t'.apiKeys == t.apiKeys)
    && (!task.Remove? ==> t'.memberships == t.memberships)
    && (!task.Update? && !task.SetStatus? ==> t'.organizations == t.organizations)
    && (!task.Update? ==> t'.constraints == t.constraints)
    && forall c: ConstraintKey | !c.SlugKey? ::
         (c in t'.constraints <==> c in t.constraints) && (c in t.constraints ==> t'.constraints[c] == t.constraints[c])
  }

  lemma TablesLeftAlone(t: Tables, x: Worker, weather: Weather)
    requires Valid(t) && !Adds(x.task)
    ensures OtherTablesStay(t, x.task, Effects(t, x, weather))
  {
    hide Valid, Effects;
    if x.task.Update? {
      UpdateTouches(t, x, weather);
    } else if x.task.SetStatus? {
      StatusChangeTouches(t, x, weather);
    } else if x.task.ChangeRole? {
      RoleChangeTouches(t, x, weather);
    } else {
      OneItemTouched(t, x, weather);
    }
  }

  lemma SubmittingLeaves(t: Tables, ws: seq<Write>, weather: Weather)
    ensures Submitting(t, ws, weather) == if weather.Clear? && Commits(t, ws) then ApplyAll(t, ws) else t
  {
    hide ApplyAll, AllHold, DistinctTargets;
  }

  /** Organizations stay, and so do all other tables but for slug constraints. */
  ghost predicate TouchesOrganizations(t: Tables, t': Tables) {
    && t' == t.(organizations := t'.organizations, constraints := t'.constraints)
    && t'.organizations.Keys == t.organizations.Keys
    && (forall o | o in t.organizations :: t'.organizations[o].createdAt == t.organizations[o].createdAt)
    && forall c: ConstraintKey | !c.SlugKey? ::
         (c in t'.constraints <==> c in t.constraints) && (c in t.constraints ==> t'.constraints[c] == t.constraints[c])
  }

  lemma NothingTouched(t: Tables)
    ensures TouchesOrganizations(t, t)
  {
  }

  lemma KeptSlugTouches(t: Tables, o: Organization)
    requires o.id in t.organizations
    ensures TouchesOrganizations(t, Renames.KeptSlug(t, o))
  {
  }

  lemma RenamedTouches(t: Tables, o: Organization, oldSlug: string)
    requires o.id in t.organizations
    ensures TouchesOrganizations(t, Renames.RenamedTables(t, o, oldSlug))
  {
  }

  lemma StatusTouches(t: Tables, o: Organization)
    requires o.id in t.organizations && o.createdAt == t.organizations[o.id].createdAt
    ensures TouchesOrganizations(t, KeyLifecycle.WithOrganization(t, o.id, o))
    ensures KeyLifecycle.WithOrganization(t, o.id, o).constraints == t.constraints
  {
  }

  lemma UpdateTouches(t: Tables, x: Worker, weather: Weather)
    requires x.task.Update?
    ensures TouchesOrganizations(t, Effects(t, x, weather))
  {
    hide ApplyAll, Commits, Submitting, TouchesOrganizations, Renames.RenameWrites, Renames.KeptSlug, Renames.RenamedTables;
    var o := x.task.organization;
    NothingTouched(t);
    if x.stage.Updating? && x.stage.plan.ChangeSlug? {
      SubmittingLeaves(t, Renames.RenameWrites(o, x.stage.plan.oldSlug), weather);
      RenameTouches(t, o, x.stage.plan.oldSlug);
      if o.id in t.organizations {
        RenamedTouches(t, o, x.stage.plan.oldSlug);
      }
    } else if o.id in t.organizations {
      KeptSlugTouches(t, o);
    }
  }

  lemma StatusChangeTouches(t: Tables, x: Worker, weather: Weather)
    requires Valid(t) && x.task.SetStatus?
    ensures TouchesOrganizations(t, Effects(t, x, weather)) && Effects(t, x, weather).constraints == t.constraints
  {
    hide Valid, TouchesOrganizations, KeyLifecycle.WithOrganization;
    var id := x.task.organizationId;
    NothingTouched(t);
    if id in t.organizations {
      OrganizationIds(t, id);
      StatusTouches(t, KeyLifecycle.Enabled(t.organizations[id], x.task.at));
      StatusTouches(t, KeyLifecycle.Disabled(t.organizations[id], x.task.at));
    }
  }

  lemma TransitionTouches(t: Tables, c: RoleTransitions.Call, task: Task)
    requires c.userId in t.users && task.ChangeRole?
    ensures OtherTablesStay(t, task, RoleTransitions.Transition(t, c))
    ensures forall k | k in t.users ::
              k in RoleTransitions.Transition(t, c).users && RoleTransitions.Transition(t, c).users[k].status == t.users[k].status
  {
  }

  lemma RoleChangeTouches(t: Tables, x: Worker, weather: Weather)
    requires x.task.ChangeRole?
    ensures OtherTablesStay(t, x.task, Effects(t, x, weather))
    ensures var t' := Effects(t, x, weather);
            forall k | k in t.users :: k in t'.users && t'.users[k].status == t.users[k].status
  {
    hide ApplyAll, Commits, Submitting, WithName, WritesFor, RoleTransitions.RoleWrites, Renames.RenameWrites, Renames.KeptSlug,
         Ownership.MemberWrites, Ownership.Delete, KeyLifecycle.WithOrganization, KeyLifecycle.WithKey,
         RoleTransitions.Transition;
    SubmittingLeaves(t, RoleTransitions.RoleWrites(x.task.call, x.task.witnessId), weather);
    if Commits(t, RoleTransitions.RoleWrites(x.task.call, x.task.witnessId)) {
      RoleTransitions.CommittedTransition(t, x.task.call, x.task.witnessId);
      TransitionTouches(t, x.task.call, x.task);
    }
  }

  lemma KeyTouched(t: Tables, x: Worker, weather: Weather)
    requires x.task.EndKey? || x.task.SweepKey?
    ensures Effects(t, x, weather) == t.(apiKeys := Effects(t, x, weather).apiKeys)
  {
    hide Submitting, WritesFor, Renames.RenameWrites, RoleTransitions.RoleWrites, Ownership.MemberWrites, Renames.KeptSlug,
         KeyLifecycle.WithOrganization, WithName, Ownership.Delete;
  }

  lemma MembershipTouched(t: Tables, x: Worker, weather: Weather)
    requires x.task.Remove?
    ensures Effects(t, x, weather) == t.(memberships := Effects(t, x, weather).memberships)
  {
    hide Submitting, WritesFor, Renames.RenameWrites, RoleTransitions.RoleWrites, Ownership.MemberWrites, Renames.KeptSlug,
         KeyLifecycle.WithOrganization, WithName, KeyLifecycle.WithKey;
  }

  lemma OneItemTouched(t: Tables, x: Worker, weather: Weather)
    requires x.task.Remove? || x.task.EndKey? || x.task.SweepKey? || x.task.EditUser?
    ensures OtherTablesStay(t, x.task, Effects(t, x, weather))
  {
    hide Effects;
    if x.task.Remove? {
      MembershipTouched(t, x, weather);
    } else if x.task.EditUser? {
      EditsName(t, x, weather);
    } else {
      KeyTouched(t, x, weather);
    }
  }

  /** A rename touches its organization and slug constraints only. */
  lemma RenameTouches(t: Tables, o: Organization, oldSlug: string)
    ensures var ws := Renames.RenameWrites(o, oldSlug);
            Commits(t, ws) ==> o.id in t.organizations && ApplyAll(t, ws) == Renames.RenamedTables(t, o, oldSlug)
  {
    hide ApplyAll;
    var ws := Renames.RenameWrites(o, oldSlug);
    if Commits(t, ws) {
      assert Holds(t, ws[0]);
      Renames.RenameEffect(t, o, oldSlug);
    }
  }

  /** The rows after inserting or granting: as they were, or with the rows added. */
  ghost predicate AddsRows(t: Tables, task: Task, t': Tables) {
    || t' == t
    || (task.Insert? && RowsOf(t') == PlusAll(RowsOf(t), task.rows))
    || (task.Grant? && RowsOf(t') == PlusAll(RowsOf(t), [MembershipRow(task.membership)]))
  }

  lemma AddedRows(t: Tables, x: Worker, weather: Weather)
    requires Valid(t) && WorkerOk(t, x) && Adds(x.task)
    ensures Adds(x.task) && AddsRows(t, x.task, Effects(t, x, weather))
  {
    hide Valid, ApplyAll, WritesFor, Covers, Ownership.MemberWrites, AllHold, DistinctTargets, RowsOf, PlusAll;
    if x.task.Insert? {
      if Commits(t, WritesFor(t, x.task.rows, x.task.parents)) {
        BatchRefines(t, x.task.rows, x.task.parents);
      }
    } else if x.stage.Granting? {
      var m := x.task.membership;
      GrantIsInsert(t, m);
      if Commits(t, Ownership.MemberWrites(m, x.stage.organizationCreatedAt)) {
        BatchRefines(t, [MembershipRow(m)], [OrganizationParent(m.organizationId), UserParent(m.userId)]);
      }
    }
  }

  // ----- role transitions -----

  lemma KeptUsers(t: Tables, t': Tables)
    requires KeepsItems(t, t')
    ensures forall k | k in t.users :: k in t'.users && t'.users[k] == t.users[k]
  {
    forall k | k in t.users ensures k in t'.users && t'.users[k] == t.users[k] {
      assert Lookup(t, UserAt(k)).Some?;
    }
  }

  /** Every operation but a role change leaves roles alone, as the runs of grants and revocations assume. */
  lemma RolesAreLeftAlone(t: Tables, x: Worker, weather: Weather)
    requires Valid(t) && WorkerOk(t, x) && !x.task.ChangeRole?
    ensures RoleTransitions.LeavesRolesAlone(t, Effects(t, x, weather))
  {
    hide Valid, WorkerOk, KeepsItems;
    EffectsKeepValid(t, x, weather);
    if Adds(x.task) {
      AddingKeepsItems(t, x, weather);
      KeptUsers(t, Effects(t, x, weather));
    } else {
      OtherUsersStay(t, x, weather);
    }
  }

  lemma OtherUsersStay(t: Tables, x: Worker, weather: Weather)
    requires Valid(t) && !Adds(x.task) && !x.task.ChangeRole?
    ensures forall k | k in t.users ::
              && k in Effects(t, x, weather).users
              && Effects(t, x, weather).users[k].role == t.users[k].role
              && Effects(t, x, weather).users[k].gRole == t.users[k].gRole
              && Effects(t, x, weather).users[k].status == t.users[k].status
  {
    hide Valid, Effects;
    TablesLeftAlone(t, x, weather);
    if x.task.EditUser? {
      EditsName(t, x, weather);
    }
  }

  lemma EditsName(t: Tables, x: Worker, weather: Weather)
    requires x.task.EditUser?
    ensures var t' := Effects(t, x, weather);
            t' == t || (x.task.userId in t.users && t' == WithName(t, x.task.userId, x.task.displayName, x.task.editedAt))
  {
    hide Submitting, WithName;
  }

  // ----- API keys -----

  /** Creates or ends API keys. */
  predicate ConcernsKeys(task: Task) {
    task.EndKey? || task.SweepKey? || (task.Insert? && exists i :: 0 <= i < |task.rows| && task.rows[i].ApiKeyRow?)
  }

  lemma {:induction false} RowsWithoutKeys(r: Rows, rows: seq<Row>)
    requires forall i | 0 <= i < |rows| :: !rows[i].ApiKeyRow?
    ensures PlusAll(r, rows).apiKeys == r.apiKeys
  {
    if rows != [] {
      RowsWithoutKeys(r, rows[..|rows| - 1]);
    }
  }

  /** Key items and segment constraints are determined by the key rows. */
  lemma SameKeyRows(t: Tables, t': Tables)
    requires ApiKeysOk(t.apiKeys, t.constraints) && ApiKeysOk(t'.apiKeys, t'.constraints)
    requires ApiKeyRows(t'.apiKeys) == ApiKeyRows(t.apiKeys)
    ensures KeyLifecycle.LeavesKeysAlone(t, t')
  {
    hide SortKey;
    KeysWithin(t, t');
    KeysWithin(t', t);
    assert t'.apiKeys.Keys == t.apiKeys.Keys;
  }

  lemma KeysWithin(t: Tables, t': Tables)
    requires ApiKeysOk(t.apiKeys, t.constraints) && ApiKeysOk(t'.apiKeys, t'.constraints)
    requires ApiKeyRows(t.apiKeys) <= ApiKeyRows(t'.apiKeys)
    ensures forall k | k in t.apiKeys :: k in t'.apiKeys && t'.apiKeys[k] == t.apiKeys[k]
    ensures forall s | SegmentKey(s) in t.constraints ::
              SegmentKey(s) in t'.constraints && t'.constraints[SegmentKey(s)] == t.constraints[SegmentKey(s)]
  {
    hide SortKey;
    forall k | k in t.apiKeys ensures k in t'.apiKeys && t'.apiKeys[k] == t.apiKeys[k] {
      assert t.apiKeys[k].apiKey in ApiKeyRows(t'.apiKeys);
    }
  }

  /** Every operation that neither creates nor ends keys leaves them alone, as the runs of key calls assume. */
  lemma KeysAreLeftAlone(t: Tables, x: Worker, weather: Weather)
    requires Valid(t) && WorkerOk(t, x) && !ConcernsKeys(x.task)
    ensures KeyLifecycle.LeavesKeysAlone(t, Effects(t, x, weather))
  {
    hide SortKey, IdentityText, UsersOk, IdentitiesOk, OrganizationsOk, MembershipsOk, ApiKeysOk, AuditsOk, SessionsOk,
         ReferencesHold, Effects, KeyLifecycle.LeavesKeysAlone, ApiKeyRows, WorkerOk;
    EffectsKeepValid(t, x, weather);
    SameKeyRowsAfter(t, x, weather);
    SameKeyRows(t, Effects(t, x, weather));
  }

  lemma SameKeyRowsAfter(t: Tables, x: Worker, weather: Weather)
    requires Valid(t) && WorkerOk(t, x) && !ConcernsKeys(x.task)
    ensures ApiKeyRows(Effects(t, x, weather).apiKeys) == ApiKeyRows(t.apiKeys)
  {
    hide Valid, Effects, ApiKeyRows, WorkerOk, PlusAll;
    if Adds(x.task) {
      AddedRows(t, x, weather);
      RowsWithoutKeys(RowsOf(t), if x.task.Insert? then x.task.rows else [MembershipRow(x.task.membership)]);
    } else {
      TablesLeftAlone(t, x, weather);
    }
  }

  // ----- memberships and organizations -----

  predicate ConcernsMembers(task: Task) {
    task.Remove? || task.Grant?
    || (task.Insert? && exists i :: 0 <= i < |task.rows| && (task.rows[i].MembershipRow? || task.rows[i].OrganizationRow?))
  }

  lemma {:induction false} RowsWithoutMembers(r: Rows, rows: seq<Row>)
    requires forall i | 0 <= i < |rows| :: !rows[i].MembershipRow? && !rows[i].OrganizationRow?
    ensures PlusAll(r, rows).memberships == r.memberships && PlusAll(r, rows).organizations == r.organizations
  {
    if rows != [] {
      RowsWithoutMembers(r, rows[..|rows| - 1]);
    }
  }

  /** Organization and membership items are determined by the rows. */
  lemma SameMemberRows(t: Tables, t': Tables)
    requires Valid(t) && Valid(t')
    requires RowsOf(t').memberships == RowsOf(t).memberships && RowsOf(t').organizations == RowsOf(t).organizations
    ensures Ownership.LeavesMembershipsAlone(t, t')
  {
    hide Valid, RowsOf;
    MembersWithin(t, t');
    MembersWithin(t', t);
    assert t'.memberships.Keys == t.memberships.Keys;
  }

  lemma MembersWithin(t: Tables, t': Tables)
    requires Valid(t) && Valid(t')
    requires RowsOf(t').memberships == RowsOf(t).memberships && RowsOf(t').organizations == RowsOf(t).organizations
    ensures forall k | k in t.organizations :: k in t'.organizations && t'.organizations[k] == t.organizations[k]
    ensures forall k | k in t.memberships :: k in t'.memberships && t'.memberships[k] == t.memberships[k]
  {
    hide SortKey, IdentityText, UsersOk, IdentitiesOk, ApiKeysOk, AuditsOk, SessionsOk;
    forall k | k in t.organizations ensures k in t'.organizations && t'.organizations[k] == t.organizations[k] {
      assert t.organizations[k] in RowsOf(t').organizations;
    }
    forall k | k in t.memberships ensures k in t'.memberships && t'.memberships[k] == t.memberships[k] {
      assert t.memberships[k].membership in RowsOf(t').memberships;
      assert k.0 in t.organizations && t'.organizations[k.0] == t.organizations[k.0];
    }
  }

  /**
   Every operation that neither creates organizations nor adds or removes members leaves
   memberships alone, as the runs of member calls assume.
   */
  lemma MembersAreLeftAlone(t: Tables, x: Worker, weather: Weather)
    requires Valid(t) && WorkerOk(t, x) && !ConcernsMembers(x.task)
    ensures Ownership.LeavesMembershipsAlone(t, Effects(t, x, weather))
  {
    hide Valid, Effects, RowsOf, PlusAll, WorkerOk;
    var t' := Effects(t, x, weather);
    EffectsKeepValid(t, x, weather);
    if x.task.Insert? {
      AddedRows(t, x, weather);
      RowsWithoutMembers(RowsOf(t), x.task.rows);
      SameMemberRows(t, t');
    } else {
      TablesLeftAlone(t, x, weather);
      if x.task.Update? {
        UpdateTouches(t, x, weather);
      } else if x.task.SetStatus? {
        StatusChangeTouches(t, x, weather);
      }
    }
  }

  // ----- identities and users -----

  /** Every operation leaves identities and the status of users alone, as the runs of first logins assume. */
  lemma LoginsAreLeftAlone(t: Tables, x: Worker, weather: Weather)
    requires Valid(t) && WorkerOk(t, x)
    ensures Valid(Effects(t, x, weather)) && Convergence.Extends(t, Effects(t, x, weather))
  {
    hide Valid, Effects, WorkerOk, Lookup;
    var t' := Effects(t, x, weather);
    EffectsKeepValid(t, x, weather);
    if Adds(x.task) {
      AddingKeepsItems(t, x, weather);
      KeptUsers(t, t');
      KeptConstraints(t, t');
    } else {
      TablesLeftAlone(t, x, weather);
      if x.task.ChangeRole? {
        RoleChangeTouches(t, x, weather);
      } else {
        OtherUsersStay(t, x, weather);
      }
    }
  }

  lemma KeptConstraints(t: Tables, t': Tables)
    requires KeepsItems(t, t')
    ensures forall c | c in t.constraints :: c in t'.constraints && t'.constraints[c] == t.constraints[c]
  {
    forall c | c in t.constraints ensures c in t'.constraints && t'.constraints[c] == t.constraints[c] {
      assert Lookup(t, ConstraintAt(c)).Some?;
    }
  }

  /** Saving a session is a step all four protocols allow. */
  lemma SessionsConcernNobody(t: Tables, s: Session)
    requires Valid(t)
    ensures var t' := t.(sessions := t.sessions[s.id := s]);
            && RoleTransitions.LeavesRolesAlone(t, t') && KeyLifecycle.LeavesKeysAlone(t, t')
            && Ownership.LeavesMembershipsAlone(t, t') && Convergence.Extends(t, t')
  {
    hide Valid;
    SessionKeepsValid(t, s);
  }
}
