/**
 What the outcomes of interleaved role transitions mean: each is an outcome of the
 serialized transaction at a point inside the call, refusals are explained by a lost
 witness, and the audit log replays to the stored roles.
 */
module RoleOutcomes {
  import opened Outcomes
  import opened Domain
  import opened Keys
  import opened Relational
  import opened Items
  import opened Transactions
  import opened RoleTransitions

  // ----- outcomes of the optimistic form are outcomes of the serialized form -----

  lemma StoredUser(t: Tables, id: string)
    requires Keyed(t) && id in t.users
    ensures forall u | u in RowsOf(t).users :: u.id == id <==> u == FromUserItem(t.users[id])
    ensures FromUserItem(t.users[id]) in RowsOf(t).users
  {
  }

  lemma SerializedHere(t: Tables, c: Call)
    requires Keyed(t)
    ensures Serialized(RowsOf(t), c)
         == if c.userId in t.users then SerializedOn(RowsOf(t), FromUserItem(t.users[c.userId]), c)
            else (Refused(EntityNotFound), RowsOf(t))
  {
    hide SerializedOn;
    ParentsAgree(t, c.userId);
    if c.userId in t.users {
      StoredUser(t, c.userId);
    }
  }

  lemma TransitionRows(t: Tables, c: Call)
    requires Keyed(t) && c.userId in t.users && t.users[c.userId].role == Some(c.expected) && c.audit.id !in t.audits
    ensures RowsOf(Transition(t, c)) == Plus(UpdateRole(RowsOf(t), c), AuditRow(c.audit))
  {
    hide SortKey, IdentityText, IdentitiesOk, OrganizationsOk, MembershipsOk, ApiKeysOk;
    NewValue(t.audits, c.audit.id, c.audit);
    var after := Transition(t, c).users;
    var updated := UpdateRole(RowsOf(t), c).users;
    forall u | u in UserRows(after) ensures u in updated {
      var k :| k in after && u == FromUserItem(after[k]);
      assert FromUserItem(t.users[k]) in RowsOf(t).users;
    }
    forall u | u in updated ensures u in UserRows(after) {
      var v :| v in RowsOf(t).users
               && u == if v.id == c.userId && v.role == c.expected then v.(role := c.role, updatedAt := c.at) else v;
      assert u == FromUserItem(after[v.id]);
    }
  }

  lemma AdminsAgree(t: Tables, userId: string)
    requires Keyed(t)
    ensures OtherActiveAdmin(RowsOf(t), userId) <==>
              exists k :: k in t.users && k != userId && IsActiveAdmin(t, k)
  {
    if k :| k in t.users && k != userId && IsActiveAdmin(t, k) {
      assert FromUserItem(t.users[k]) in RowsOf(t).users;
    }
  }

  /**
   A committed transition is the step the serialized transaction takes at that point: same
   outcome, same rows.
   */
  lemma CommitIsSerializedStep(t: Tables, client: Client)
    requires Valid(t) && ClientOk(t, client) && client.phase.Writing?
    requires Commits(t, RoleWrites(client.call, client.phase.pinned))
    ensures var c := client.call;
            var t' := ApplyAll(t, RoleWrites(c, client.phase.pinned));
            && c.userId in t'.users
            && Serialized(RowsOf(t), c) == (Transitioned(FromUserItem(t'.users[c.userId])), RowsOf(t'))
  {
    hide SortKey, IdentityText, Keyed, ReferencesHold, UpdateRole, Insert;
    var c := client.call;
    CommittedTransition(t, c, client.phase.pinned);
    SerializedHere(t, c);
    TransitionRows(t, c);
    AdminsAgree(t, c.userId);
    AuditFits(t, c);
  }

  /** A fresh event of an existing organization goes in after the role update. */
  lemma AuditFits(t: Tables, c: Call)
    requires Keyed(t) && c.audit.id !in t.audits && c.audit.organizationId in t.organizations
    ensures Insert(UpdateRole(RowsOf(t), c), AuditRow(c.audit))
         == Ok(Plus(UpdateRole(RowsOf(t), c), AuditRow(c.audit)))
  {
    hide SortKey, IdentityText, UsersOk, IdentitiesOk, OrganizationsOk, MembershipsOk, ApiKeysOk;
    ParentsAgree(t, c.audit.organizationId);
    assert Parents(AuditRow(c.audit)) == [OrganizationParent(c.audit.organizationId)];
    assert UpdateRole(RowsOf(t), c).organizations == RowsOf(t).organizations;
    assert UpdateRole(RowsOf(t), c).audits == RowsOf(t).audits;
  }

  /** NO_CHANGE at the first read, or at the re-read after a lost CAS, is the serialized no-op there. */
  lemma NoChangeIsSerializedNoOp(t: Tables, c: Call, user: User)
    requires Keyed(t) && IsFormed(c)
    requires AfterRead(t, c) == Finished(NoChange(user)) || AfterResolve(t, c) == Finished(NoChange(user))
    ensures Serialized(RowsOf(t), c) == (NoChange(user), RowsOf(t))
  {
    SerializedHere(t, c);
  }

  /** The serialized transaction ends with what it read of the target. */
  predicate EndsAtRead(o: Outcome) {
    o.NoChange? || o == Refused(EntityNotFound)
  }

  /**
   The first read ends the call exactly where the serialized transaction ends at its own
   read, with the same answer; the re-read after a lost compare-and-swap likewise, and
   otherwise it is the base error.
   */
  lemma ReadIsSerializedRead(t: Tables, c: Call)
    requires Keyed(t)
    ensures var served := Serialized(RowsOf(t), c).0;
            && (AfterRead(t, c).Finished? <==> EndsAtRead(served))
            && (EndsAtRead(served) ==> AfterRead(t, c) == Finished(served))
            && AfterResolve(t, c) == Finished(if EndsAtRead(served) then served else Refused(Failed))
  {
    hide Keyed, RowsOf, UpdateRole, IdTaken, UniqueTaken, HasParent, OtherActiveAdmin;
    SerializedHere(t, c);
  }

  /** The index answer lists the current items, all of them, and each admin carries its index role. */
  ghost predicate Accurate(t: Tables, answer: seq<UserItem>) {
    && (forall u | u in answer :: u.id in t.users && t.users[u.id] == u)
    && (forall k | k in t.users :: t.users[k] in answer)
  }

  ghost predicate Backfilled(t: Tables) {
    forall k | k in t.users && t.users[k].role == Some(Admin) :: t.users[k].gRole == Some(Admin)
  }

  /**
   With an accurate answer over backfilled items, the guard refuses exactly when the
   serialized transaction refuses, and otherwise pins another active administrator.
   */
  lemma GuardIsSerializedGuard(t: Tables, c: Call, answer: seq<UserItem>)
    requires Keyed(t) && Accurate(t, answer) && Backfilled(t) && IsFormed(c) && AfterRead(t, c).Guarding?
    ensures AfterQuery(c, answer) == Finished(Refused(LastActiveAdministrator))
       <==> Serialized(RowsOf(t), c) == (Refused(LastActiveAdministrator), RowsOf(t))
    ensures AfterQuery(c, answer).Writing? ==>
              AfterQuery(c, answer).pinned.Some? && IsActiveAdmin(t, AfterQuery(c, answer).pinned.value)
  {
    hide SortKey, IdentityText, IdentitiesOk, OrganizationsOk, MembershipsOk, ApiKeysOk;
    SerializedHere(t, c);
    AdminsAgree(t, c.userId);
    OthersAreOthers(answer, c.userId);
    var others := Others(answer, c.userId);
    if k :| k in t.users && k != c.userId && IsActiveAdmin(t, k) {
      assert t.users[k] in others;
    }
    if others != [] {
      assert Earliest(others) in others;
    }
  }

  /** A user item that carries no role reads as a plain user, but its grant can never commit. */
  lemma GrantNeedsStoredRole(t: Tables, c: Call)
    requires Valid(t) && IsFormed(c) && c.role == Admin && c.userId in t.users
    requires FromUserItem(t.users[c.userId]).role == PlainUser
    requires c.audit.id !in t.audits && c.audit.organizationId in t.organizations
    ensures Serialized(RowsOf(t), c).0.Transitioned?
    ensures Commits(t, RoleWrites(c, None)) <==> t.users[c.userId].role.Some?
    ensures t.users[c.userId].role.None? ==> AfterResolve(t, c) == Finished(Refused(Failed))
  {
    hide SortKey, IdentityText, Keyed, ReferencesHold, UpdateRole, Insert;
    SerializedHere(t, c);
    AuditFits(t, c);
    CommitConditions(t, c, None);
  }

  // ----- refusals at commit -----

  lemma LastAdminIsTheWitness(t: Tables, c: Call, pinned: Option<string>)
    requires !AllHold(t, RoleWrites(c, pinned))
    ensures |RoleConflicts(pinned)| == |RoleWrites(c, pinned)|
    ensures RoleConflicts(pinned)[Blamed(t, RoleWrites(c, pinned))] == LastAdminConflict ==>
              pinned.Some? && !IsActiveAdmin(t, pinned.value)
  {
    hide AllHold;
    var ws := RoleWrites(c, pinned);
    var b := Blamed(t, ws);
    if RoleConflicts(pinned)[b] == LastAdminConflict {
      assert b == 0 && pinned.Some?;
      assert !Holds(t, ws[0]);
    }
  }

  /** A last-administrator refusal at commit means the pinned witness is one no longer. */
  lemma RefusalLostItsWitness(w: World, i: nat, weather: Weather, w': World)
    requires Next(w, Submit(i, weather), w')
    requires w'.clients[i].phase == Finished(Refused(LastActiveAdministrator))
    ensures w.clients[i].phase.pinned.Some? && !IsActiveAdmin(w.tables, w.clients[i].phase.pinned.value)
    ensures w'.tables == w.tables && w'.log == w.log
  {
    hide RoleWrites, RoleConflicts, AllHold, DistinctTargets, ApplyAll, IsActiveAdmin, Reasons, MixedReasons;
    var client := w.clients[i];
    var ws, conflicts := RoleWrites(client.call, client.phase.pinned), RoleConflicts(client.phase.pinned);
    RolesAlign(client.call, client.phase.pinned);
    assert Judge(Attempt(w.tables, weather), ws, conflicts) == Some(Fail(LastActiveAdministrator));
    LastAdminIsTheWitness(w.tables, client.call, client.phase.pinned);
  }

  /** This step is another call's committed demotion of the user. */
  ghost predicate Demotes(w: World, step: Step, w': World, id: string) {
    && step.Submit? && step.client in w.clients
    && w.clients[step.client].call.userId == id && w.clients[step.client].call.role == PlainUser
    && w'.log == w.log + [w.clients[step.client].call.audit]
  }

  lemma OnlyDemotionRemoves(w: World, step: Step, w': World, id: string)
    requires Inv(w) && Next(w, step, w') && IsActiveAdmin(w.tables, id) && !IsActiveAdmin(w'.tables, id)
    ensures Demotes(w, step, w', id)
  {
    hide Valid;
    match step {
      case Submit(i, weather) =>
        var client := w.clients[i];
        if Respond(Attempt(w.tables, weather), RoleWrites(client.call, client.phase.pinned)).Committed? {
          CommittedTransition(w.tables, client.call, client.phase.pinned);
        }
      case _ =>
    }
  }

  /**
   If the witness was an active administrator when it was pinned, a refusal blamed on it is
   preceded by a committed demotion of that witness after the guard read.
   */
  lemma {:induction false} LostWitnessWasDemoted(run: seq<World>, steps: seq<Step>, m: nat, n: nat, id: string)
    requires IsRun(run, steps) && Inv(run[0]) && m <= n < |run|
    requires IsActiveAdmin(run[m].tables, id) && !IsActiveAdmin(run[n].tables, id)
    ensures exists p :: m <= p < n && Demotes(run[p], steps[p], run[p + 1], id)
  {
    hide Next, Inv, IsActiveAdmin, Demotes;
    if IsActiveAdmin(run[n - 1].tables, id) {
      RunKeepsInv(run, steps, n - 1);
      OnlyDemotionRemoves(run[n - 1], steps[n - 1], run[n], id);
    } else {
      LostWitnessWasDemoted(run, steps, m, n - 1, id);
    }
  }

  /**
   The witness is one fixed item, so a refusal blamed on it is spurious exactly when some
   other active administrator is left; the serialized transaction would then commit.
   */
  lemma RefusalIsSpurious(t: Tables, client: Client)
    requires Valid(t) && ClientOk(t, client) && client.phase.Writing? && IsDemotion(client.call)
    requires client.phase.pinned.Some? && !IsActiveAdmin(t, client.phase.pinned.value)
    requires var c := client.call;
             IsActiveAdmin(t, c.userId) && c.audit.id !in t.audits && c.audit.organizationId in t.organizations
    ensures !Commits(t, RoleWrites(client.call, client.phase.pinned))
    ensures Serialized(RowsOf(t), client.call).0 == Refused(LastActiveAdministrator)
       <==> forall k | k in t.users && k != client.call.userId :: !IsActiveAdmin(t, k)
    ensures (exists k | k in t.users && k != client.call.userId :: IsActiveAdmin(t, k)) ==>
              Serialized(RowsOf(t), client.call).0.Transitioned?
  {
    hide SortKey, IdentityText, Keyed, ReferencesHold, UpdateRole, Insert;
    var c := client.call;
    CommitConditions(t, c, client.phase.pinned);
    SerializedHere(t, c);
    AdminsAgree(t, c.userId);
    AuditFits(t, c);
  }

  // ----- the audit log -----

  /** The role a user ends with when the log is replayed from an initial role. */
  function Replay(initial: ApplicationRole, log: seq<AuditEvent>, userId: string): ApplicationRole {
    if log == [] then initial
    else
      var last := log[|log| - 1];
      if last.targetId != Some(userId) then Replay(initial, log[..|log| - 1], userId)
      else if last.action == GRANT_ACTION then Admin
      else if last.action == REVOKE_ACTION then PlainUser
      else Replay(initial, log[..|log| - 1], userId)
  }

  /** A user's grants and revocations alternate, each changing the role. */
  predicate Alternates(initial: ApplicationRole, log: seq<AuditEvent>, userId: string) {
    log == []
    || (var front, last := log[..|log| - 1], log[|log| - 1];
        && Alternates(initial, front, userId)
        && (last.targetId == Some(userId) && last.action == GRANT_ACTION ==> Replay(initial, front, userId) == PlainUser)
        && (last.targetId == Some(userId) && last.action == REVOKE_ACTION ==> Replay(initial, front, userId) == Admin))
  }

  ghost predicate LogExplains(initial: ApplicationRole, w: World, userId: string) {
    && userId in w.tables.users
    && FromUserItem(w.tables.users[userId]).role == Replay(initial, w.log, userId)
    && Alternates(initial, w.log, userId)
  }

  /** This step commits a transition: its one event enters the log and the table, and the role changes. */
  ghost predicate Records(w: World, step: Step, w': World) {
    && step.Submit? && step.client in w.clients
    && var c := w.clients[step.client].call;
       && c.userId in w.tables.users && w.tables.users[c.userId].role == Some(c.expected)
       && c.audit.id !in w.tables.audits
       && w'.log == w.log + [c.audit] && w'.tables == Transition(w.tables, c)
  }

  /** The event of a committed change tells who was changed, by and from which role to which, where and when. */
  lemma EventTellsTheChange(w: World, step: Step, w': World)
    requires Inv(w) && Next(w, step, w') && Records(w, step, w')
    ensures var e, id := w'.log[|w.log|], w.clients[step.client].call.userId;
            && id in w'.tables.users && e.id in w'.tables.audits && w'.tables.audits[e.id] == e
            && e.targetId == Some(id) && e.actorId == id && e.createdAt == w'.tables.users[id].updatedAt
            && e.action == (if w'.tables.users[id].role == Some(Admin) then "user.application_role.granted"
                            else "user.application_role.revoked")
            && e.metadata == (if w'.tables.users[id].role == Some(Admin) then map["from_role" := "user", "to_role" := "admin"]
                              else map["from_role" := "admin", "to_role" := "user"])
            && w.tables.users[id].role != w'.tables.users[id].role
            && w'.tables.users[id].gRole == w'.tables.users[id].role
  {
    hide Valid, Submitted;
    assert ClientOk(w.tables, w.clients[step.client]);
  }

  /** Every other step of a call leaves items and log alone. */
  lemma ChangesAreRecorded(w: World, step: Step, w': World)
    requires Inv(w) && Next(w, step, w')
    ensures Records(w, step, w') || (w'.log == w.log && (step.Elsewhere? || w'.tables == w.tables))
  {
    hide Valid;
    if step.Submit? {
      var client := w.clients[step.client];
      var ws := RoleWrites(client.call, client.phase.pinned);
      if Respond(Attempt(w.tables, step.weather), ws).Committed? {
        CommittedTransition(w.tables, client.call, client.phase.pinned);
      }
    }
  }

  lemma RecordExtendsLog(w: World, w': World, c: Call, initial: ApplicationRole, userId: string)
    requires IsFormed(c) && c.userId in w.tables.users && w.tables.users[c.userId].role == Some(c.expected)
    requires w'.log == w.log + [c.audit] && w'.tables == Transition(w.tables, c) && LogExplains(initial, w, userId)
    ensures LogExplains(initial, w', userId)
  {
    assert w'.log[..|w'.log| - 1] == w.log;
  }

  lemma NextExtendsLog(w: World, step: Step, w': World, initial: ApplicationRole, userId: string)
    requires Inv(w) && Next(w, step, w') && LogExplains(initial, w, userId)
    ensures LogExplains(initial, w', userId)
  {
    hide Valid, Submitted, Replay, Alternates, Transition, IsFormed;
    ChangesAreRecorded(w, step, w');
    if Records(w, step, w') {
      var c := w.clients[step.client].call;
      assert ClientOk(w.tables, w.clients[step.client]);
      RecordExtendsLog(w, w', c, initial, userId);
    }
  }

  /**
   Audit replay over every run: for a user present at the start, the events logged since
   alternate and replay from the initial role to the stored role.
   */
  lemma {:induction false} LogReplays(run: seq<World>, steps: seq<Step>, n: nat, userId: string)
    requires IsRun(run, steps) && Inv(run[0]) && run[0].log == [] && n < |run| && userId in run[0].tables.users
    ensures LogExplains(FromUserItem(run[0].tables.users[userId]).role, run[n], userId)
  {
    hide Next, Inv;
    if n > 0 {
      LogReplays(run, steps, n - 1, userId);
      RunKeepsInv(run, steps, n - 1);
      NextExtendsLog(run[n - 1], steps[n - 1], run[n], FromUserItem(run[0].tables.users[userId]).role, userId);
    }
  }
}
