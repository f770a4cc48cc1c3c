/**
 The DynamoDB adapter. Methods assemble lists of items and aligned descriptors, submit them
 with bounded retry, and translate what comes back. Other clients write between any two
 interactions; whatever they leave, a call's effect is that of the relational transaction at
 the one submission that commits.
 */
module DynamoDb {
  import opened Outcomes
  import opened Timestamps
  import opened Domain
  import opened Keys
  import opened Relational
  import opened Items
  import opened Transactions
  import opened Batches
  import opened Refinement
  import opened Faults
  import opened BatchWrites
  import opened RoleTransitions
  import opened RoleOutcomes
  import RoleRuns
  import opened Renames
  import opened KeyLifecycle
  import opened Reachable
  import opened TenantDeletion

  /** What other clients may leave by each submission: valid items, organizations still there. */
  ghost predicate Arrivals(t: Tables, attempts: seq<Attempt>) {
    && |attempts| == MAX_TRANSACTION_ATTEMPTS
    && forall k | 0 <= k < |attempts| :: Items.Valid(attempts[k].arrival) && TimesStay(t, attempts[k].arrival)
  }

  /**
   The submission that decided, and what it decided, against the relational transaction:
   it commits exactly when that does and nothing obstructs it, with the same rows unless an
   organization of the batch is suspended, and one fault gets one kind of error unless the
   batch repeats an item.
   */
  ghost predicate Simulates(a: Attempt, rows: seq<Row>, parents: seq<Parent>, racing: bool, distinct: bool,
                            verdict: Option<Verdict>, after: Tables) {
    var ws, conflicts := WritesFor(a.arrival, rows, parents), AllConflicts(rows, parents, racing);
    var inserted := InsertAll(RowsOf(a.arrival), StoredAll(rows));
    && (verdict.None? <==> a.weather.Clear? && inserted.Ok? && Unobstructed(a.arrival, rows))
    && (verdict.None? ==> Items.Valid(after) && RowsOf(after) == PlusAll(RowsOf(a.arrival), rows))
    && (verdict.None? ==> (RowsOf(after) == inserted.value <==> NoneSuspended(rows)))
    && (verdict.Some? ==> after == a.arrival && verdict.value.Fail?)
    && (verdict.Some? ==>
          if Evaluated(a.weather) && distinct && !AllHold(a.arrival, ws)
          then Blamed(a.arrival, ws) < |conflicts| && verdict == Some(ConflictVerdict(conflicts[Blamed(a.arrival, ws)]))
          else verdict == Some(Fail(Failed)) && !(a.weather.Clear? && distinct))
    && (forall f | Evaluated(a.weather) && NothingObstructs(a.arrival, rows) && OnlyFault(RowsOf(a.arrival), rows, f) ::
          verdict.Some? && (ReportsKind(verdict.value, inserted) <==> distinct))
  }

  /** The error a verdict stands for. */
  function ErrorOf(verdict: Verdict): StorageError {
    if verdict.Fail? then verdict.error else Failed
  }

  /** No descriptor of a batch is the role's compare-and-swap. */
  lemma ConflictsFail(rows: seq<Row>, parents: seq<Parent>, racing: bool)
    ensures var conflicts := AllConflicts(rows, parents, racing);
            forall i | 0 <= i < |conflicts| :: ConflictVerdict(conflicts[i]).Fail?
  {
    RowConflictsFail(rows, racing);
  }

  lemma {:induction false} RowConflictsFail(rows: seq<Row>, racing: bool)
    ensures forall i | 0 <= i < |ConflictsForAll(rows, racing)| :: ConflictVerdict(ConflictsForAll(rows, racing)[i]).Fail?
  {
    if rows != [] {
      RowConflictsFail(rows[..|rows| - 1], racing);
    }
  }

  lemma SubmissionSimulates(a: Attempt, rows: seq<Row>, parents: seq<Parent>, racing: bool, distinct: bool,
                            ws: seq<Write>, conflicts: seq<Conflict>, verdict: Option<Verdict>, last: bool)
    requires Items.Valid(a.arrival) && Covers(parents, rows) && ws == WritesFor(a.arrival, rows, parents) && ws != []
    requires conflicts == AllConflicts(rows, parents, racing) && |conflicts| == |ws|
    requires distinct <==> DistinctTargets(ws)
    requires verdict != Some(Retry)
    requires verdict == Judge(a, ws, conflicts)
             || (last && verdict == Some(Fail(Failed)) && Judge(a, ws, conflicts) == Some(Retry))
    ensures Simulates(a, rows, parents, racing, distinct, verdict, ItemsAfter(a, ws))
  {
    hide Items.Valid, RowsOf, AllConflicts, WritesFor, Covers, ApplyAll, AllHold, DistinctTargets, InsertAll, StoredAll,
         NothingObstructs, OnlyFault, Unobstructed, PlusAll, NoneSuspended;
    BatchRefines(a.arrival, rows, parents);
    ConflictsFail(rows, parents, racing);
    forall f | Evaluated(a.weather) && NothingObstructs(a.arrival, rows) && OnlyFault(RowsOf(a.arrival), rows, f)
      ensures verdict.Some? && (ReportsKind(verdict.value, InsertAll(RowsOf(a.arrival), StoredAll(rows))) <==> distinct)
    {
      OneFaultOneError(a, rows, parents, racing, f);
    }
  }

  /** One row's parents are all from outside. */
  lemma SingleRowCovers(row: Row)
    ensures Covers(Parents(row), [row])
  {
    assert [row][..0] == [] && [row][0] == row;
    forall p ensures p in Parents(row) <==> IsExternal([row], p) {
      assert !Creates([], p);
    }
  }

  lemma SingleRowWrites(t: Tables, t': Tables, row: Row)
    requires TimesStay(t, t') && (row.MembershipRow? ==> row.membership.organizationId in t.organizations)
    ensures WritesFor(t', [row], Parents(row)) == PutsFor(t, row) + ChecksFor(Parents(row))
    ensures AllConflicts([row], Parents(row), false)
         == ConflictsFor(row, false) + seq(|Parents(row)|, i => ReferenceConflict)
  {
    hide SortKey, IdentityText;
    assert [row][..0] == [];
    NothingApplied(t');
    assert PutsForAll(t', [row]) == PutsFor(t', row);
    assert ConflictsForAll([row], false) == ConflictsFor(row, false);
  }

  /** A row's puts and the checks of its parents address different items. */
  lemma SingleRowTargets(t: Tables, row: Row)
    ensures DistinctTargets(PutsFor(t, row) + ChecksFor(Parents(row)))
  {
    hide SortKey, IdentityText;
    ChecksAreListed(Parents(row));
  }

  /** The membership points at an organization that is neither its batch's nor stored. */
  predicate LacksOrganization(t: Tables, o: Organization, m: Membership) {
    m.organizationId != o.id && m.organizationId !in t.organizations
  }

  lemma TimeStaysRight(t: Tables, t': Tables, o: Organization, m: Membership, createdAt: UtcTime)
    requires RightTime(t, o, m, createdAt) && TimesStay(t, t')
    ensures RightTime(t', o, m, createdAt)
  {
  }

  class DynamoDbStorage {
    /** The items as this client's last interaction left them. */
    var tables: Tables

    constructor (t: Tables)
      ensures tables == t
    {
      tables := t;
    }

    /** Submits one transaction with bounded retry. */
    method Transact(items: seq<Write>, descriptors: seq<Conflict>, attempts: seq<Attempt>)
        returns (verdict: Option<Verdict>, ghost k: nat)
      requires |attempts| == MAX_TRANSACTION_ATTEMPTS && |descriptors| == |items| > 0
      modifies this
      ensures RetriedUntil(attempts, items, descriptors, k) && tables == ItemsAfter(attempts[k], items)
      ensures verdict != Some(Retry)
      ensures verdict == Judge(attempts[k], items, descriptors)
              || (k == |attempts| - 1 && verdict == Some(Fail(Failed))
                  && Judge(attempts[k], items, descriptors) == Some(Retry))
    {
      var v, after := ExecuteTransaction(attempts, items, descriptors);
      verdict, tables := v, after;
      k :| RetriedUntil(attempts, items, descriptors, k)
           && tables == ItemsAfter(attempts[k], items)
           && (verdict == Judge(attempts[k], items, descriptors)
               || (k == |attempts| - 1 && verdict == Some(Fail(Failed))
                  && Judge(attempts[k], items, descriptors) == Some(Retry)));
    }

    /**
     create_user … append_audit_event: a put, its constraint, and a check per parent. A
     membership reads its organization first and fails early without one.
     */
    method Create(row: Row, attempts: seq<Attempt>) returns (error: Option<StorageError>, ghost k: nat)
      requires Items.Valid(tables) && Arrivals(tables, attempts)
      modifies this
      ensures row.MembershipRow? && row.membership.organizationId !in old(tables).organizations ==>
                error == Some(ReferenceNotFound) && tables == old(tables)
      ensures !(row.MembershipRow? && row.membership.organizationId !in old(tables).organizations) ==>
                k < |attempts|
                && exists verdict :: Simulates(attempts[k], [row], Parents(row), false, true, verdict, tables)
                                && verdict == if error.None? then None else Some(Fail(error.value))
    {
      hide Items.Valid, PutsFor, ConflictsFor, Simulates, TimesStay, Judge, ItemsAfter;
      k := 0;
      if row.MembershipRow? && row.membership.organizationId !in tables.organizations {
        return Some(ReferenceNotFound), 0;
      }
      var items, descriptors := AppendChecks(PutsFor(tables, row), ConflictsFor(row, false), Parents(row));
      ghost var before := tables;
      PutsAndConflicts(before, row);
      var verdict;
      verdict, k := Transact(items, descriptors, attempts);
      RowSubmissionSimulates(before, attempts[k], row, items, descriptors, verdict, k == |attempts| - 1);
      error := if verdict.None? then None else Some(ErrorOf(verdict.value));
    }

    /** The parents checked behind a batch's puts. */
    method AppendChecks(items: seq<Write>, descriptors: seq<Conflict>, parents: seq<Parent>)
        returns (items': seq<Write>, descriptors': seq<Conflict>)
      ensures items' == items + ChecksFor(parents)
      ensures descriptors' == descriptors + seq(|parents|, i => ReferenceConflict)
    {
      items', descriptors' := items, descriptors;
      for i := 0 to |parents|
        invariant items' == items + ChecksFor(parents[..i])
        invariant descriptors' == descriptors + seq(i, j => ReferenceConflict)
      {
        assert parents[..i + 1][..i] == parents[..i];
        items', descriptors' := items' + [CheckFor(parents[i])], descriptors' + [ReferenceConflict];
      }
      assert parents[..|parents|] == parents;
    }

    method AppendAudits(items: seq<Write>, descriptors: seq<Conflict>, audits: seq<AuditEvent>)
        returns (items': seq<Write>, descriptors': seq<Conflict>)
      ensures items' == items + AuditPutsOf(audits)
      ensures descriptors' == descriptors + AuditConflictsOf(|audits|)
    {
      items', descriptors' := items, descriptors;
      for i := 0 to |audits|
        invariant items' == items + AuditPutsOf(audits[..i])
        invariant descriptors' == descriptors + AuditConflictsOf(i)
      {
        assert AuditPutsOf(audits[..i + 1]) == AuditPutsOf(audits[..i]) + [PutAudit(audits[i])];
        items', descriptors' := items' + [PutAudit(audits[i])], descriptors' + [DuplicateConflict(EntityId)];
      }
      assert audits[..|audits|] == audits;
    }

    /** The parents a first login's batch does not create, each once. */
    method UserBatchParents(b: UserBatch) returns (parents: seq<Parent>)
      ensures Covers(parents, UserBatchRows(b))
    {
      parents := [];
      if b.identity.userId != b.user.id {
        parents := WithParent(parents, UserParent(b.identity.userId));
      }
      if b.membership.organizationId != b.organization.id {
        parents := WithParent(parents, OrganizationParent(b.membership.organizationId));
      }
      if b.membership.userId != b.user.id {
        parents := WithParent(parents, UserParent(b.membership.userId));
      }
      for i := 0 to |b.audits|
        invariant NoDuplicates(parents) && forall p :: p in parents <==> UserBatchNeeds(b, i, p)
      {
        if b.audits[i].organizationId != b.organization.id {
          WithParentAdds(parents, OrganizationParent(b.audits[i].organizationId));
          parents := WithParent(parents, OrganizationParent(b.audits[i].organizationId));
        }
      }
      UserBatchCovers(b, parents);
    }

    method OrganizationBatchParents(b: OrganizationBatch) returns (parents: seq<Parent>)
      ensures Covers(parents, OrganizationBatchRows(b))
    {
      parents := [UserParent(b.membership.userId)];
      if b.membership.organizationId != b.organization.id {
        parents := WithParent(parents, OrganizationParent(b.membership.organizationId));
      }
      for i := 0 to |b.audits|
        invariant NoDuplicates(parents) && forall p :: p in parents <==> OrganizationBatchNeeds(b, i, p)
      {
        if b.audits[i].organizationId != b.organization.id {
          WithParentAdds(parents, OrganizationParent(b.audits[i].organizationId));
          parents := WithParent(parents, OrganizationParent(b.audits[i].organizationId));
        }
      }
      OrganizationBatchCovers(b, parents);
    }

    /** The creation time of the organization a membership points at, if it can be known. */
    method ReadCreationTime(o: Organization, m: Membership) returns (createdAt: Option<UtcTime>)
      ensures createdAt.None? <==> LacksOrganization(tables, o, m)
      ensures createdAt.Some? ==> RightTime(tables, o, m, createdAt.value)
    {
      if m.organizationId == o.id {
        return Some(o.createdAt);
      }
      if m.organizationId in tables.organizations {
        return Some(tables.organizations[m.organizationId].createdAt);
      }
      return None;
    }

    /**
     The account of a first login. It commits at one submission exactly when the SQLite
     transaction would, with the same rows; a lost identity race names the owner that the
     constraint item shows afterwards.
     */
    method ProvisionUser(b: UserBatch, attempts: seq<Attempt>, later: Tables)
        returns (result: Result<UserBatch, StorageError>, ghost k: nat)
      requires Items.Valid(tables) && Arrivals(tables, attempts)
      modifies this
      ensures LacksOrganization(old(tables), b.organization, b.membership) ==>
                result == Err(ReferenceNotFound) && tables == old(tables)
      ensures !LacksOrganization(old(tables), b.organization, b.membership) ==>
                k < |attempts|
                && exists verdict, parents ::
                     && Covers(parents, UserBatchRows(b))
                     && Simulates(attempts[k], UserBatchRows(b), parents, true, DistinctEvents(b.audits), verdict, tables)
                     && (verdict.None? ==> result == Ok(b))
                     && (verdict.Some? ==> verdict.value.Fail? && result.Err?)
                     && (verdict.Some? && !verdict.value.error.IdentityRace? ==> result.error == verdict.value.error)
                     && (verdict.Some? && verdict.value.error.IdentityRace? ==> NamesOwner(later, b.identity, result.error))
    {
      hide Items.Valid, TimesStay, Judge, ItemsAfter, Simulates, NamesOwner, RightTime, WinnerIn, OwnsKey;
      k := 0;
      var createdAt := ReadCreationTime(b.organization, b.membership);
      if createdAt.None? {
        return Err(ReferenceNotFound), 0;
      }
      var items, descriptors := UserEntityWrites(b, createdAt.value), UserEntityConflicts();
      items, descriptors := AppendAudits(items, descriptors, b.audits);
      var parents := UserBatchParents(b);
      items, descriptors := AppendChecks(items, descriptors, parents);
      ghost var before := tables;
      ChecksAreListed(parents);
      var verdict;
      verdict, k := Transact(items, descriptors, attempts);
      UserSubmissionSimulates(before, attempts[k], b, createdAt.value, parents, items, descriptors, verdict,
                              k == |attempts| - 1);
      WinnerIsOwner(later, b.identity);
      if verdict.None? {
        result := Ok(b);
      } else if ErrorOf(verdict.value).IdentityRace? {
        result := Err(IdentityRace(WinnerIn(later, b.identity)));
      } else {
        result := Err(ErrorOf(verdict.value));
      }
    }

    /** An organization with its owner; a taken slug is a plain duplicate. */
    method ProvisionOrganization(b: OrganizationBatch, attempts: seq<Attempt>)
        returns (result: Result<OrganizationBatch, StorageError>, ghost k: nat)
      requires Items.Valid(tables) && Arrivals(tables, attempts)
      modifies this
      ensures LacksOrganization(old(tables), b.organization, b.membership) ==>
                result == Err(ReferenceNotFound) && tables == old(tables)
      ensures !LacksOrganization(old(tables), b.organization, b.membership) ==>
                k < |attempts|
                && exists verdict, parents ::
                     && Covers(parents, OrganizationBatchRows(b))
                     && Simulates(attempts[k], OrganizationBatchRows(b), parents, false, DistinctEvents(b.audits),
                                  verdict, tables)
                     && (result.Ok? ==> result.value == b && verdict.None?)
                     && (result.Err? ==> verdict == Some(Fail(result.error)))
    {
      hide Items.Valid, TimesStay, Judge, ItemsAfter, Simulates, NamesOwner, RightTime, WinnerIn, OwnsKey;
      k := 0;
      var createdAt := ReadCreationTime(b.organization, b.membership);
      if createdAt.None? {
        return Err(ReferenceNotFound), 0;
      }
      var items, descriptors := OrganizationEntityWrites(b, createdAt.value), OrganizationEntityConflicts();
      items, descriptors := AppendAudits(items, descriptors, b.audits);
      var parents := OrganizationBatchParents(b);
      items, descriptors := AppendChecks(items, descriptors, parents);
      ghost var before := tables;
      ChecksAreListed(parents);
      var verdict;
      verdict, k := Transact(items, descriptors, attempts);
      OrganizationSubmissionSimulates(before, attempts[k], b, createdAt.value, parents, items, descriptors, verdict,
                                      k == |attempts| - 1);
      result := if verdict.None? then Ok(b) else Err(ErrorOf(verdict.value));
    }

    /**
     Updates an organization along the branch its slug chose when it was read. The single
     update is submitted once; the swap of slug constraints is retried like any transaction.
     */
    method UpdateOrganization(o: Organization, attempts: seq<Attempt>)
        returns (result: Result<Organization, StorageError>, ghost k: nat)
      requires Items.Valid(tables) && Arrivals(tables, attempts)
      modifies this
      ensures k < |attempts| && (result.Ok? ==> result.value == o)
      ensures PlanUpdate(old(tables), o).Missing? ==> result == Err(EntityNotFound) && tables == old(tables)
      ensures PlanUpdate(old(tables), o).KeepSlug? ==>
                if attempts[k].weather.Clear?
                then result.Ok? && o.id in attempts[k].arrival.organizations && tables == KeptSlug(attempts[k].arrival, o)
                else result == Err(Failed) && tables == attempts[k].arrival
      ensures PlanUpdate(old(tables), o).ChangeSlug? ==>
                var oldSlug := old(tables).organizations[o.id].slug;
                var now, clear, evaluated := attempts[k].arrival, attempts[k].weather.Clear?, Evaluated(attempts[k].weather);
                var current, free := now.organizations[o.id].slug == oldSlug, SlugKey(o.slug) !in now.constraints;
                && (result.Ok? <==> clear && current && free)
                && tables == (if result.Ok? then RenamedTables(now, o, oldSlug) else now)
                && (evaluated && !current ==> result == Err(EntityNotFound))
                && (evaluated && current && !free ==> result == Err(Duplicate(OrganizationSlug)))
                && (result.Err? && !(evaluated && !(current && free)) ==> result == Err(Failed))
      ensures Items.Valid(tables)
    {
      hide Items.Valid, Judge, ItemsAfter, ApplyAll, RenameWrites;
      k := 0;
      match PlanUpdate(tables, o) {
        case Missing =>
          result := Err(EntityNotFound);
        case KeepSlug =>
          tables := attempts[0].arrival;
          assert o.id in tables.organizations;
          if attempts[0].weather.Clear? {
            KeptSlugKeepsValid(tables, o);
            tables := KeptSlug(tables, o);
            result := Ok(o);
          } else {
            result := Err(Failed);
          }
        case ChangeSlug(oldSlug) =>
          RenameAligns(o, oldSlug);
          var verdict;
          verdict, k := Transact(RenameWrites(o, oldSlug), RenameConflicts(), attempts);
          RenameOutcome(attempts[k], o, oldSlug);
          result := if verdict.None? then Ok(o) else Err(ErrorOf(verdict.value));
      }
    }

    /**
     The status swap, repeated while it meets contention; a miss is answered with stored
     truth. At the deciding attempt the effect is the conditional UPDATE's.
     */
    method RevokeApiKey(id: string, at: UtcTime, attempts: seq<Attempt>)
        returns (result: Result<ApiKey, StorageError>, ghost k: nat)
      requires Items.Valid(tables) && Arrivals(tables, attempts)
      modifies this
      ensures k < |attempts| && forall j | 0 <= j < k :: attempts[j].weather.Contended?
      ensures attempts[k].weather.Contended? ==> k == |attempts| - 1
      ensures attempts[k].weather.Clear? ==> RowsOf(tables) == RevokedRows(RowsOf(attempts[k].arrival), id, at)
      ensures !attempts[k].weather.Clear? ==> result == Err(Failed) && tables == attempts[k].arrival
      ensures attempts[k].weather.Clear? ==>
                if id in attempts[k].arrival.apiKeys
                then id in tables.apiKeys && result == Ok(tables.apiKeys[id].apiKey) && result.value.status == Revoked
                else result == Err(EntityNotFound) && tables == attempts[k].arrival
    {
      hide Items.Valid, RowsOf, RevokedRows, TimesStay;
      k := 0;
      for n := 0 to MAX_TRANSACTION_ATTEMPTS
        invariant forall j | 0 <= j < n :: attempts[j].weather.Contended?
        invariant n > 0 ==> k == n - 1 && tables == attempts[k].arrival && !attempts[k].weather.Clear?
      {
        tables, k := attempts[n].arrival, n;
        if attempts[n].weather.Clear? {
          RevokeIsUpdate(tables, id, at);
          if IsActiveKey(tables, id) {
            tables := Revoke(tables, id, at);
          }
          if id !in tables.apiKeys {
            return Err(EntityNotFound), k;
          }
          return Ok(tables.apiKeys[id].apiKey), k;
        }
        if !attempts[n].weather.Contended? {
          return Err(Failed), k;
        }
      }
      result := Err(Failed);
    }

    /** One cycle of read, guard and conditional write; None when it must be run again. */
    method AttemptRoleTransition(c: Call, r: Round) returns (outcome: Option<Outcome>)
      modifies this
      ensures outcome == RoundOutcome(c, r) && RoundLeaves(c, r, tables)
    {
      hide Judge, ItemsAfter, Others, Earliest, Transition, RoundLeaves, Respond, ApplyAll;
      tables := r.seen;
      if c.userId !in tables.users {
        NotWritten(c, r, tables);
        return Some(Refused(EntityNotFound));
      }
      var stored := FromUserItem(tables.users[c.userId]);
      if stored.role == c.role {
        NotWritten(c, r, tables);
        return Some(NoChange(stored));
      }
      var items: seq<Write>, descriptors: seq<Conflict> := [], [];
      ghost var pinned: Option<string> := None;
      if IsDemotion(c) && stored.status == Active {
        var others := Others(r.answer, c.userId);
        if others == [] {
          NotWritten(c, r, tables);
          return Some(Refused(LastActiveAdministrator));
        }
        pinned := Some(Earliest(others).id);
        items, descriptors := [RequireActiveAdmin(Earliest(others).id)], [LastAdminConflict];
      }
      items := items + [SetRole(c.userId, c.expected, c.role, c.at)];
      descriptors := descriptors + [RoleCasConflict];
      items := items + [PutAudit(c.audit)];
      descriptors := descriptors + [DuplicateConflict(EntityId)];
      items := items + [RequireOrganization(c.audit.organizationId)];
      descriptors := descriptors + [ReferenceConflict];
      assert items == RoleWrites(c, pinned) && descriptors == RoleConflicts(pinned);
      var verdict := SubmitOnce(r.attempt, items, descriptors);
      tables := ItemsAfter(r.attempt, items);
      Written(c, r, pinned);
      match verdict {
        case None =>
          tables := r.later(tables);
          return Some(if c.userId in tables.users then Transitioned(FromUserItem(tables.users[c.userId])) else Refused(Failed));
        case Some(Retry) =>
          return None;
        case Some(RoleCasMiss) =>
          tables := r.later(tables);
          outcome := Some(ResolveRoleCasMiss(c));
        case Some(Fail(e)) =>
          return Some(Refused(e));
      }
    }

    /** A lost compare-and-swap is answered with stored truth. */
    function ResolveRoleCasMiss(c: Call): (outcome: Outcome)
      reads this
      ensures RoleTransitions.AfterResolve(tables, c) == RoleTransitions.Finished(outcome)
    {
      if c.userId !in tables.users then Refused(EntityNotFound)
      else
        var raced := FromUserItem(tables.users[c.userId]);
        if raced.role == c.role then NoChange(raced) else Refused(Failed)
    }

    /**
     The whole cycle again after contention, at most five times. A commit is the serialized
     transaction at the submission that decided; any other ending has written nothing. What
     the serialized transaction decides at its read is answered from the cycle's read, and a
     cycle that nobody disturbs is the serialized transaction throughout.
     */
    method TransitionApplicationRole(c: Call, rounds: seq<Round>) returns (outcome: Outcome, ghost k: nat)
      requires |rounds| == MAX_TRANSACTION_ATTEMPTS
      modifies this
      ensures k < |rounds| && forall j | 0 <= j < k :: RoundOutcome(c, rounds[j]).None? && !RoundCommits(c, rounds[j])
      ensures RoundOutcome(c, rounds[k]) == Some(outcome)
              || (RoundOutcome(c, rounds[k]).None? && k == |rounds| - 1 && outcome == Refused(Failed))
      ensures RoundLeaves(c, rounds[k], tables)
      ensures outcome.Transitioned? ==> RoundCommits(c, rounds[k])
      ensures RoundCommits(c, rounds[k]) && c.userId in tables.users ==>
                outcome == Transitioned(FromUserItem(tables.users[c.userId]))
      ensures LosesSwap(c, rounds[k]) && Keyed(tables) ==>
                var served := Serialized(RowsOf(tables), c).0;
                outcome == if EndsAtRead(served) then served else Refused(Failed)
      ensures MeetsContention(c, rounds[k]) ==> k == |rounds| - 1 && outcome == Refused(Failed)
      ensures RoundCommits(c, rounds[k]) && IsFormed(c) && Undisturbed(rounds[k]) ==>
                var now := rounds[k].attempt.arrival;
                c.userId in now.users
                && Serialized(RowsOf(now), c)
                   == (Transitioned(FromUserItem(Transition(now, c).users[c.userId])), RowsOf(Transition(now, c)))
      ensures Keyed(rounds[k].seen) && EndsAtRead(Serialized(RowsOf(rounds[k].seen), c).0) ==>
                outcome == Serialized(RowsOf(rounds[k].seen), c).0
      ensures Alone(rounds[k]) && IsFormed(c) ==>
                (outcome, RowsOf(tables)) == if LacksRole(rounds[k].seen, c) then (Refused(Failed), RowsOf(rounds[k].seen))
                                             else Serialized(RowsOf(rounds[k].seen), c)
    {
      hide RoundOutcome, RoundLeaves, RoundCommits, IsFormed, Undisturbed, Transition, Alone, Keyed, EndsAtRead, LacksRole,
           Serialized, RowsOf, LosesSwap, MeetsContention;
      k := 0;
      for n := 0 to |rounds|
        invariant forall j | 0 <= j < n :: RoundOutcome(c, rounds[j]).None? && !RoundCommits(c, rounds[j])
        invariant n > 0 ==> k == n - 1 && RoundLeaves(c, rounds[k], tables)
      {
        k := n;
        var decided := AttemptRoleTransition(c, rounds[n]);
        RoundDecides(c, rounds[n]);
        RoundAnswersItsRead(c, rounds[n]);
        RoundAlone(c, rounds[n], tables);
        RoundEnds(c, rounds[n], tables);
        if decided.Some? {
          return decided.value, k;
        }
      }
      RoundAnswersItsRead(c, rounds[k]);
      RoundAlone(c, rounds[k], tables);
      RoundEnds(c, rounds[k], tables);
      outcome := Refused(Failed);
    }

    /** One conditional update per active key the scan listed. */
    method SweepKeys(org: string, at: UtcTime)
      modifies this
      ensures tables == old(tables).(apiKeys := SweptKeys(old(tables).apiKeys, org, at, old(tables).apiKeys.Keys))
    {
      hide SweptKeys, Swept;
      ghost var apiKeys, done := tables.apiKeys, {};
      var rest := tables.apiKeys.Keys;
      NothingSwept(apiKeys, org, at);
      while rest != {}
        invariant rest + done == apiKeys.Keys && rest !! done
        invariant tables == old(tables).(apiKeys := SweptKeys(apiKeys, org, at, done))
        decreases |rest|
      {
        var id :| id in rest;
        SweepOne(apiKeys, org, at, done, id);
        var k := tables.apiKeys[id].apiKey;
        if k.organizationId == org && k.status == KeyActive {
          tables := tables.(apiKeys := tables.apiKeys[id :=
            tables.apiKeys[id].(apiKey := k.(status := Revoked, revokedAt := Some(k.revokedAt.GetOr(at))))]);
        }
        rest, done := rest - {id}, done + {id};
      }
    }

    /** Disables the organization, then revokes its active keys one by one; run alone, this is the SQL transaction. */
    method AdminSuspendOrganization(org: string, at: UtcTime) returns (error: Option<StorageError>)
      requires Items.Valid(tables)
      modifies this
      ensures org !in old(tables).organizations ==> error == Some(EntityNotFound) && tables == old(tables)
      ensures org in old(tables).organizations ==>
                error == None && tables == SuspendedTables(old(tables), org, at) && Items.Valid(tables)
                && RowsOf(tables) == SuspendedRows(RowsOf(old(tables)), org, at)
                && IsSuspended(RowsOf(old(tables)).organizations, org, at, RowsOf(tables).organizations)
                && KeysAreEnded(RowsOf(old(tables)).apiKeys, org, at, RowsOf(tables).apiKeys)
    {
      hide Items.Valid, RowsOf, SuspendedRows, SweptKeys, IsSuspended, KeysAreEnded;
      if org !in tables.organizations {
        return Some(EntityNotFound);
      }
      tables := tables.(organizations := tables.organizations[org := KeyLifecycle.Disabled(tables.organizations[org], at)]);
      SweepKeys(org, at);
      SuspensionAgrees(old(tables), org, at);
      SuspensionEndsKeys(RowsOf(old(tables)), org, at);
      error := None;
    }

    /** Deletes a tenant's records, table by table. */
    method DeleteRecords(org: string)
      modifies this
      ensures tables == DeletedTables(old(tables), org)
    {
      hide DeadEntity, DeadMembership, DeadKey, DeadAudit, IsTenantUser, DeletedTables;
      var t := tables;
      var apiKeys := set k | k in t.apiKeys && DeadKey(t, org, t.apiKeys[k].apiKey);
      var audits := set k | k in t.audits && DeadAudit(t, org, t.audits[k]);
      var users := set k | k in t.users && IsTenantUser(t, org, k);
      var identities := set k | k in t.identities && IsTenantUser(t, org, t.identities[k].userId);
      var sessions := set k | k in t.sessions && IsTenantUser(t, org, t.sessions[k].userId);
      var constraints := set c | c in t.constraints && DeadEntity(t, org, t.constraints[c].entityId);
      var memberships := set k | k in t.memberships && DeadMembership(t, org, k);
      var left := DeleteEach(tables.apiKeys, apiKeys);
      tables := tables.(apiKeys := left);
      var leftAudits := DeleteEach(tables.audits, audits);
      tables := tables.(audits := leftAudits);
      var leftUsers := DeleteEach(tables.users, users);
      tables := tables.(users := leftUsers);
      var leftIdentities := DeleteEach(tables.identities, identities);
      tables := tables.(identities := leftIdentities);
      var leftSessions := DeleteEach(tables.sessions, sessions);
      tables := tables.(sessions := leftSessions);
      var leftConstraints := DeleteEach(tables.constraints, constraints);
      tables := tables.(constraints := leftConstraints);
      var leftMemberships := DeleteEach(tables.memberships, memberships);
      tables := tables.(memberships := leftMemberships);
      var leftOrganizations := DeleteEach(tables.organizations, {org});
      tables := tables.(organizations := leftOrganizations);
      TablesWithoutTenant(t, org, tables);
    }

    /** Suspends the tenant, then deletes its records table by table; run alone, this is the SQL transaction. */
    method AdminDeleteOrganization(org: string, at: UtcTime) returns (error: Option<StorageError>)
      requires Items.Valid(tables) && PrefixedIds(tables.constraints)
      modifies this
      ensures org !in old(tables).organizations ==> error == Some(EntityNotFound) && tables == old(tables)
      ensures org in old(tables).organizations ==>
                error == None && Items.Valid(tables) && RowsOf(tables) == DeletedRows(RowsOf(old(tables)), org)
    {
      hide Items.Valid, RowsOf, DeletedRows, PrefixedIds, SuspendedTables, SuspendedRows, DeletedTables;
      error := AdminSuspendOrganization(org, at);
      if error.None? {
        SuspensionKeepsConstraints(old(tables), org, at);
        DeletionAgrees(tables, org);
        SuspensionVanishes(RowsOf(old(tables)), org, at);
        DeleteRecords(org);
      }
    }
  }

  /** One unconditional delete after another. */
  method DeleteEach<K(==), V>(items: map<K, V>, keys: set<K>) returns (left: map<K, V>)
    ensures left == items - keys
  {
    left := items;
    var rest := keys;
    while rest != {}
      invariant rest <= keys && left == items - (keys - rest)
      decreases |rest|
    {
      var k :| k in rest;
      left, rest := left - {k}, rest - {k};
    }
  }

  lemma TablesWithoutTenant(t: Tables, org: string, left: Tables)
    requires left.apiKeys == t.apiKeys - set k | k in t.apiKeys && DeadKey(t, org, t.apiKeys[k].apiKey)
    requires left.audits == t.audits - set k | k in t.audits && DeadAudit(t, org, t.audits[k])
    requires left.users == t.users - set k | k in t.users && IsTenantUser(t, org, k)
    requires left.identities == t.identities - set k | k in t.identities && IsTenantUser(t, org, t.identities[k].userId)
    requires left.sessions == t.sessions - set k | k in t.sessions && IsTenantUser(t, org, t.sessions[k].userId)
    requires left.constraints == t.constraints - set c | c in t.constraints && DeadEntity(t, org, t.constraints[c].entityId)
    requires left.memberships == t.memberships - set k | k in t.memberships && DeadMembership(t, org, k)
    requires left.organizations == t.organizations - {org}
    ensures left == DeletedTables(t, org)
  {
    hide DeadEntity, DeadMembership, DeadKey, DeadAudit, IsTenantUser;
  }

  lemma SuspensionKeepsConstraints(t: Tables, org: string, at: UtcTime)
    requires org in t.organizations
    ensures SuspendedTables(t, org, at).constraints == t.constraints
    ensures org in SuspendedTables(t, org, at).organizations
  {
  }

  /** A suspended tenant is deleted with the same rest. */
  lemma SuspensionVanishes(r: Rows, org: string, at: UtcTime)
    ensures DeletedRows(SuspendedRows(r, org, at), org) == DeletedRows(r, org)
  {
    var r' := SuspendedRows(r, org, at);
    assert TenantUsers(r', org) == TenantUsers(r, org);
    assert DeletedRows(r', org).organizations == DeletedRows(r, org).organizations;
    assert DeletedRows(r', org).apiKeys == DeletedRows(r, org).apiKeys;
  }

  /**
   One cycle of a role transition: what it reads, its submission, and what others have made
   of the items it left by the time it reads again.
   */
  datatype Round = Round(seen: Tables, answer: seq<UserItem>, attempt: Attempt, later: Tables -> Tables)

  /** Where reading, and guarding if need be, leads. */
  function PhaseBeforeWrite(c: Call, r: Round): RoleTransitions.Phase {
    var phase := AfterRead(r.seen, c);
    if phase.Guarding? then AfterQuery(c, r.answer) else phase
  }

  /** How a cycle ends by the steps of the optimistic form; None when it must be run again. */
  ghost function RoundOutcome(c: Call, r: Round): Option<Outcome> {
    match PhaseBeforeWrite(c, r)
    case Finished(o) => Some(o)
    case Writing(pinned) => SubmissionOutcome(c, r, pinned)
    case _ => None
  }

  ghost function SubmissionOutcome(c: Call, r: Round, pinned: Option<string>): Option<Outcome> {
    var left := r.later(ItemsAfter(r.attempt, RoleWrites(c, pinned)));
    match Judge(r.attempt, RoleWrites(c, pinned), RoleConflicts(pinned))
    case None => Some(AfterReadBack(left, c).outcome)
    case Some(Retry) => None
    case Some(RoleCasMiss) => Some(RoleTransitions.AfterResolve(left, c).outcome)
    case Some(Fail(e)) => Some(Refused(e))
  }

  ghost predicate RoundCommits(c: Call, r: Round) {
    var phase := PhaseBeforeWrite(c, r);
    phase.Writing? && Respond(r.attempt, RoleWrites(c, phase.pinned)).Committed?
  }

  /**
   The items after a cycle: a commit changed role, index role, time and event of the items it
   met, and others went on from there; without one, only others have written.
   */
  ghost predicate RoundLeaves(c: Call, r: Round, after: Tables) {
    var now := r.attempt.arrival;
    if RoundCommits(c, r) then c.userId in now.users && after == r.later(Transition(now, c))
    else if LosesSwap(c, r) then after == r.later(now)
    else after == r.seen || after == now
  }

  /** The submission found another role than expected. */
  ghost predicate LosesSwap(c: Call, r: Round) {
    var phase := PhaseBeforeWrite(c, r);
    phase.Writing? && Judge(r.attempt, RoleWrites(c, phase.pinned), RoleConflicts(phase.pinned)) == Some(RoleCasMiss)
  }

  /** The submission met contention and nothing else to object to. */
  ghost predicate MeetsContention(c: Call, r: Round) {
    var phase := PhaseBeforeWrite(c, r);
    phase.Writing?
    && (r.attempt.weather.Contended?
        || (r.attempt.weather.Disturbed? && Commits(r.attempt.arrival, RoleWrites(c, phase.pinned))))
  }

  /** The submission met valid items, and every user it saw with the status it saw. */
  ghost predicate Undisturbed(r: Round) {
    && Items.Valid(r.attempt.arrival)
    && forall u | u in r.seen.users ::
         u in r.attempt.arrival.users && r.attempt.arrival.users[u].status == r.seen.users[u].status
  }

  lemma NotWritten(c: Call, r: Round, after: Tables)
    requires PhaseBeforeWrite(c, r).Finished? && after == r.seen
    ensures RoundLeaves(c, r, after)
  {
  }

  lemma Written(c: Call, r: Round, pinned: Option<string>)
    requires PhaseBeforeWrite(c, r) == RoleTransitions.Writing(pinned)
    ensures var left := ItemsAfter(r.attempt, RoleWrites(c, pinned));
            var verdict := Judge(r.attempt, RoleWrites(c, pinned), RoleConflicts(pinned));
            RoundLeaves(c, r, if verdict in {None, Some(RoleCasMiss)} then r.later(left) else left)
  {
    hide ApplyAll, Transition, PhaseBeforeWrite, AllHold, DistinctTargets;
    RolesAlign(c, pinned);
    if Respond(r.attempt, RoleWrites(c, pinned)).Committed? {
      CommittedTransition(r.attempt.arrival, c, pinned);
    }
  }

  /** A cycle that must be run again committed nothing; one that commits is the serialized step. */
  lemma RoundDecides(c: Call, r: Round)
    ensures RoundOutcome(c, r).None? ==> !RoundCommits(c, r)
    ensures RoundOutcome(c, r).Some? && RoundOutcome(c, r).value.Transitioned? ==> RoundCommits(c, r)
    ensures RoundCommits(c, r) && IsFormed(c) && Undisturbed(r) ==>
              var now := r.attempt.arrival;
              c.userId in now.users
              && Serialized(RowsOf(now), c)
                 == (Transitioned(FromUserItem(Transition(now, c).users[c.userId])), RowsOf(Transition(now, c)))
  {
    hide ApplyAll, Transition, AllHold, DistinctTargets, Serialized, RowsOf, Items.Valid, IsFormed;
    var phase := PhaseBeforeWrite(c, r);
    if phase.Writing? {
      RolesAlign(c, phase.pinned);
    }
    if RoundCommits(c, r) && IsFormed(c) && Undisturbed(r) {
      RoundClientOk(c, r);
      CommittedTransition(r.attempt.arrival, c, phase.pinned);
      CommitIsSerializedStep(r.attempt.arrival, RoleTransitions.Client(c, 0, phase));
    }
  }

  /** Nobody else writes while the cycle runs, and the index answers accurately over backfilled items. */
  ghost predicate Alone(r: Round) {
    && Items.Valid(r.seen) && r.attempt == Attempt(r.seen, Clear) && (forall t :: r.later(t) == t)
    && Accurate(r.seen, r.answer) && Backfilled(r.seen)
  }

  /** The one grant that the compare-and-swap refuses and the serialized transaction makes. */
  predicate LacksRole(t: Tables, c: Call) {
    c.role == Admin && c.userId in t.users && t.users[c.userId].role.None?
  }

  lemma RoundAnswersItsRead(c: Call, r: Round)
    ensures Keyed(r.seen) && EndsAtRead(Serialized(RowsOf(r.seen), c).0) ==>
              RoundOutcome(c, r) == Some(Serialized(RowsOf(r.seen), c).0)
  {
    hide Keyed, Serialized, RowsOf, AfterRead;
    if Keyed(r.seen) {
      ReadIsSerializedRead(r.seen, c);
    }
  }

  /** What a submission leads to: the user as it reads then, stored truth, or the cycle again. */
  lemma RoundEnds(c: Call, r: Round, after: Tables)
    requires RoundLeaves(c, r, after)
    ensures RoundCommits(c, r) && c.userId in after.users ==>
              RoundOutcome(c, r) == Some(Transitioned(FromUserItem(after.users[c.userId])))
    ensures LosesSwap(c, r) && Keyed(after) ==>
              var served := Serialized(RowsOf(after), c).0;
              RoundOutcome(c, r) == Some(if EndsAtRead(served) then served else Refused(Failed))
    ensures MeetsContention(c, r) ==> RoundOutcome(c, r).None?
  {
    hide ApplyAll, Transition, AllHold, DistinctTargets, Serialized, RowsOf, Keyed, AfterRead, AfterQuery, RoleWrites,
         RoleConflicts, EndsAtRead, Reasons;
    var phase := PhaseBeforeWrite(c, r);
    if phase.Writing? {
      RolesAlign(c, phase.pinned);
      if RoundCommits(c, r) {
        CommittedTransition(r.attempt.arrival, c, phase.pinned);
      }
      if LosesSwap(c, r) && Keyed(after) {
        ReadIsSerializedRead(after, c);
      }
    }
  }

  lemma ReadsChangeNothing(t: Tables, c: Call)
    requires Keyed(t)
    ensures EndsAtRead(Serialized(RowsOf(t), c).0) ==> Serialized(RowsOf(t), c).1 == RowsOf(t)
    ensures LacksRole(t, c) ==> !EndsAtRead(Serialized(RowsOf(t), c).0) && !IsDemotion(c)
    ensures AfterRead(t, c).Guarding? ==> IsDemotion(c)
    ensures AfterRead(t, c).Guarding? || (!AfterRead(t, c).Finished? ==> AfterRead(t, c) == RoleTransitions.Writing(None))
  {
    hide Keyed, RowsOf, IdTaken, UniqueTaken, HasParent, UpdateRole, OtherActiveAdmin;
    SerializedHere(t, c);
  }

  /** A role transaction submitted on the items it was planned on. */
  lemma AloneSubmission(t: Tables, c: Call, pinned: Option<string>)
    requires Items.Valid(t) && IsFormed(c)
    requires RoleTransitions.ClientOk(t, RoleTransitions.Client(c, 0, RoleTransitions.Writing(pinned)))
    requires c.userId in t.users && FromUserItem(t.users[c.userId]).role != c.role
    requires pinned.Some? ==> IsActiveAdmin(t, pinned.value)
    ensures |RoleConflicts(pinned)| == |RoleWrites(c, pinned)| > 0
    ensures var verdict := Judge(Attempt(t, Clear), RoleWrites(c, pinned), RoleConflicts(pinned));
            match verdict
            case None =>
              !LacksRole(t, c)
              && Serialized(RowsOf(t), c)
                 == (Transitioned(FromUserItem(Transition(t, c).users[c.userId])), RowsOf(Transition(t, c)))
            case Some(RoleCasMiss) => LacksRole(t, c)
            case Some(Fail(e)) => !LacksRole(t, c) && Serialized(RowsOf(t), c) == (Refused(e), RowsOf(t))
            case Some(Retry) => false
  {
    hide Items.Valid, RowsOf, Serialized, AllHold, DistinctTargets, Reasons, Transition, ApplyAll;
    RolesAlign(c, pinned);
    CommitConditions(t, c, pinned);
    if AllHold(t, RoleWrites(c, pinned)) {
      CommittedTransition(t, c, pinned);
      CommitIsSerializedStep(t, RoleTransitions.Client(c, 0, RoleTransitions.Writing(pinned)));
    } else {
      RoleRuns.FirstFailed(t, c, pinned);
      RoleRuns.CasMissed(t, c, pinned);
      var conflict := RoleConflicts(pinned)[Blamed(t, RoleWrites(c, pinned))];
      assert conflict != LastAdminConflict by { LastAdminIsTheWitness(t, c, pinned); }
      if conflict == DuplicateConflict(EntityId) {
        RoleRuns.RefusedInsert(t, c, pinned, Duplicate(EntityId));
      } else if conflict == ReferenceConflict {
        RoleRuns.RefusedInsert(t, c, pinned, ReferenceNotFound);
      }
    }
  }

  lemma AloneWrites(c: Call, r: Round)
    requires Alone(r) && IsFormed(c) && PhaseBeforeWrite(c, r).Writing?
    ensures var pinned := PhaseBeforeWrite(c, r).pinned;
            && RoleTransitions.ClientOk(r.seen, RoleTransitions.Client(c, 0, RoleTransitions.Writing(pinned)))
            && c.userId in r.seen.users && FromUserItem(r.seen.users[c.userId]).role != c.role
            && (pinned.Some? ==> IsActiveAdmin(r.seen, pinned.value))
  {
    hide Items.Valid, IsFormed, Accurate, Backfilled;
    RoundClientOk(c, r);
    if AfterRead(r.seen, c).Guarding? {
      ValidIsKeyed(r.seen);
      GuardIsSerializedGuard(r.seen, c, r.answer);
    }
  }

  lemma ValidIsKeyed(t: Tables)
    requires Items.Valid(t)
    ensures Keyed(t)
  {
  }

  /** A cycle that nobody disturbs is the serialized transaction, but for a grant on an item without a role. */
  lemma RoundAlone(c: Call, r: Round, after: Tables)
    ensures Alone(r) && IsFormed(c) && RoundLeaves(c, r, after) ==>
              RoundOutcome(c, r).Some?
              && (RoundOutcome(c, r).value, RowsOf(after)) == if LacksRole(r.seen, c) then (Refused(Failed), RowsOf(r.seen))
                                                             else Serialized(RowsOf(r.seen), c)
  {
    hide IsFormed, Serialized, RowsOf, Items.Valid, Keyed, AfterRead, Others, Earliest, Accurate, Backfilled, LacksRole,
         Transition, Judge, ItemsAfter, RoleWrites, RoleConflicts, EndsAtRead;
    if Alone(r) && IsFormed(c) && RoundLeaves(c, r, after) {
      ValidIsKeyed(r.seen);
      ReadIsSerializedRead(r.seen, c);
      ReadsChangeNothing(r.seen, c);
      if AfterRead(r.seen, c).Guarding? {
        GuardIsSerializedGuard(r.seen, c, r.answer);
      }
      if PhaseBeforeWrite(c, r).Writing? {
        AloneWriting(c, r, after);
      }
    }
  }

  lemma AloneWriting(c: Call, r: Round, after: Tables)
    requires Alone(r) && IsFormed(c) && PhaseBeforeWrite(c, r).Writing? && RoundLeaves(c, r, after)
    ensures RoundOutcome(c, r).Some?
    ensures (RoundOutcome(c, r).value, RowsOf(after)) == if LacksRole(r.seen, c) then (Refused(Failed), RowsOf(r.seen))
                                                         else Serialized(RowsOf(r.seen), c)
  {
    hide IsFormed, Serialized, RowsOf, Items.Valid, Keyed, AfterRead, AfterQuery, Accurate, Backfilled, ApplyAll, AllHold,
         RoleWrites, RoleConflicts, DistinctTargets, Reasons;
    var pinned := PhaseBeforeWrite(c, r).pinned;
    AloneWrites(c, r);
    AloneSubmission(r.seen, c, pinned);
    ValidIsKeyed(r.seen);
    ReadIsSerializedRead(r.seen, c);
    if Respond(r.attempt, RoleWrites(c, pinned)).Committed? {
      CommittedTransition(r.seen, c, pinned);
    }
  }

  lemma RoundClientOk(c: Call, r: Round)
    requires PhaseBeforeWrite(c, r).Writing? && IsFormed(c) && Undisturbed(r)
    ensures RoleTransitions.ClientOk(r.attempt.arrival, RoleTransitions.Client(c, 0, PhaseBeforeWrite(c, r)))
  {
    hide Items.Valid, IsFormed;
    OthersAreOthers(r.answer, c.userId);
  }

  lemma RenameAligns(o: Organization, oldSlug: string)
    ensures |RenameConflicts()| == |RenameWrites(o, oldSlug)| == 3
  {
  }

  /** What a rename finds at one submission. */
  lemma RenameOutcome(a: Attempt, o: Organization, oldSlug: string)
    requires Items.Valid(a.arrival) && oldSlug != o.slug && o.id in a.arrival.organizations
    ensures var ws, now := RenameWrites(o, oldSlug), a.arrival;
            var verdict := Judge(a, ws, RenameConflicts());
            var current, free := now.organizations[o.id].slug == oldSlug, SlugKey(o.slug) !in now.constraints;
            && (verdict.None? <==> a.weather.Clear? && current && free)
            && ItemsAfter(a, ws) == (if verdict.None? then RenamedTables(now, o, oldSlug) else now)
            && Items.Valid(ItemsAfter(a, ws))
            && (Evaluated(a.weather) && !current ==> verdict == Some(Fail(EntityNotFound)))
            && (Evaluated(a.weather) && current && !free ==> verdict == Some(Fail(Duplicate(OrganizationSlug))))
            && (verdict.Some? && !(Evaluated(a.weather) && !(current && free)) ==> verdict in {Some(Retry), Some(Fail(Failed))})
  {
    hide Items.Valid, RenameWrites, ApplyAll, AllHold, DistinctTargets, RenamedTables;
    RenameAligns(o, oldSlug);
    RenameCommits(a.arrival, o, oldSlug);
    RenameEffect(a.arrival, o, oldSlug);
    LostRenameReportsMissing(a.arrival, o, oldSlug);
    if a.arrival.organizations[o.id].slug == oldSlug {
      if SlugKey(o.slug) in a.arrival.constraints {
        OnlyTheSlugIsTaken(a.arrival, o, oldSlug);
      } else {
        RenameKeepsValid(a.arrival, o);
      }
    }
  }

  lemma RevokedKeyRows(t: Tables, id: string, at: UtcTime, after: map<string, ApiKeyItem>)
    requires ApiKeysOk(t.apiKeys, t.constraints)
    requires after == if IsActiveKey(t, id) then Revoke(t, id, at).apiKeys else t.apiKeys
    ensures RevokedRows(RowsOf(t), id, at).apiKeys == ApiKeyRows(after)
  {
    hide SortKey;
    var updated := RevokedRows(RowsOf(t), id, at).apiKeys;
    forall k | k in updated ensures k in ApiKeyRows(after) {
      var k' :| k' in RowsOf(t).apiKeys
                && k == if k'.id == id && k'.status == KeyActive then k'.(status := Revoked, revokedAt := Some(at)) else k';
      assert after[k'.id].apiKey == k;
    }
    forall k | k in ApiKeyRows(after) ensures k in updated {
      var i :| i in after && after[i].apiKey == k;
      assert t.apiKeys[i].apiKey in RowsOf(t).apiKeys;
    }
  }

  /** The swap on one item is the conditional UPDATE on the rows. */
  lemma RevokeIsUpdate(t: Tables, id: string, at: UtcTime)
    requires Items.Valid(t)
    ensures id in t.apiKeys ==> t.apiKeys[id].apiKey.id == id
    ensures RevokedRows(RowsOf(t), id, at)
         == RowsOf(if IsActiveKey(t, id) && t.apiKeys[id].apiKey.id == id then Revoke(t, id, at) else t)
  {
    hide UsersOk, IdentitiesOk, OrganizationsOk, MembershipsOk, ApiKeysOk, AuditsOk, SessionsOk, ReferencesHold,
         ApiKeyRows, UserRows, MembershipRows;
    assert id in t.apiKeys ==> t.apiKeys[id].apiKey.id == id by { KeyIds(t, id); }
    RevokedKeyRows(t, id, at, if IsActiveKey(t, id) then Revoke(t, id, at).apiKeys else t.apiKeys);
  }

  lemma KeyIds(t: Tables, id: string)
    requires ApiKeysOk(t.apiKeys, t.constraints)
    ensures id in t.apiKeys ==> t.apiKeys[id].apiKey.id == id
  {
    hide SortKey;
  }

  // ----- suspension -----

  function Swept(item: ApiKeyItem, org: string, at: UtcTime): ApiKeyItem {
    var k := item.apiKey;
    if k.organizationId == org && k.status == KeyActive
    then item.(apiKey := k.(status := Revoked, revokedAt := Some(k.revokedAt.GetOr(at)))) else item
  }

  function SweptKeys(apiKeys: map<string, ApiKeyItem>, org: string, at: UtcTime, done: set<string>): map<string, ApiKeyItem> {
    map k | k in apiKeys :: if k in done then Swept(apiKeys[k], org, at) else apiKeys[k]
  }

  function SuspendedTables(t: Tables, org: string, at: UtcTime): Tables
    requires org in t.organizations
  {
    t.(organizations := t.organizations[org := KeyLifecycle.Disabled(t.organizations[org], at)],
       apiKeys := SweptKeys(t.apiKeys, org, at, t.apiKeys.Keys))
  }

  lemma NothingSwept(apiKeys: map<string, ApiKeyItem>, org: string, at: UtcTime)
    ensures SweptKeys(apiKeys, org, at, {}) == apiKeys
  {
  }

  lemma SweepOne(apiKeys: map<string, ApiKeyItem>, org: string, at: UtcTime, done: set<string>, id: string)
    requires id in apiKeys && id !in done
    ensures id in SweptKeys(apiKeys, org, at, done) && SweptKeys(apiKeys, org, at, done)[id] == apiKeys[id]
    ensures var k := apiKeys[id].apiKey;
            SweptKeys(apiKeys, org, at, done + {id}) ==
              if k.organizationId == org && k.status == KeyActive
              then SweptKeys(apiKeys, org, at, done)[id :=
                     apiKeys[id].(apiKey := k.(status := Revoked, revokedAt := Some(k.revokedAt.GetOr(at))))]
              else SweptKeys(apiKeys, org, at, done)
  {
  }

  lemma SweptKeysOk(t: Tables, org: string, at: UtcTime)
    requires ApiKeysOk(t.apiKeys, t.constraints)
    ensures ApiKeysOk(SweptKeys(t.apiKeys, org, at, t.apiKeys.Keys), t.constraints)
  {
    hide SortKey;
  }

  lemma SuspensionKeepsValid(t: Tables, org: string, at: UtcTime)
    requires Items.Valid(t) && org in t.organizations
    ensures Items.Valid(SuspendedTables(t, org, at))
  {
    hide SortKey, IdentityText, UsersOk, IdentitiesOk, OrganizationsOk, MembershipsOk, ApiKeysOk, AuditsOk, SessionsOk;
    SweptKeysOk(t, org, at);
    OrganizationIds(t, org);
    StatusKeepsSlugs(t, KeyLifecycle.Disabled(t.organizations[org], at));
  }

  lemma SuspendedKeys(t: Tables, org: string, at: UtcTime)
    requires ApiKeysOk(t.apiKeys, t.constraints) && org in t.organizations
    ensures ApiKeyRows(SuspendedTables(t, org, at).apiKeys) == SuspendedRows(RowsOf(t), org, at).apiKeys
  {
    hide SortKey;
    var after, rows := SuspendedTables(t, org, at).apiKeys, SuspendedRows(RowsOf(t), org, at).apiKeys;
    forall k | k in rows ensures k in ApiKeyRows(after) {
      var k' :| k' in RowsOf(t).apiKeys
                && k == if k'.organizationId == org && k'.status == KeyActive
                        then k'.(status := Revoked, revokedAt := Some(k'.revokedAt.GetOr(at))) else k';
      assert after[k'.id].apiKey == k;
    }
    forall k | k in ApiKeyRows(after) ensures k in rows {
      var i :| i in after && after[i].apiKey == k;
      assert t.apiKeys[i].apiKey in RowsOf(t).apiKeys;
    }
  }

  lemma SuspendedOrganization(t: Tables, org: string, at: UtcTime)
    requires OrganizationsOk(t.organizations, t.constraints) && org in t.organizations
    ensures SuspendedTables(t, org, at).organizations.Values == SuspendedRows(RowsOf(t), org, at).organizations
  {
    var after, rows := SuspendedTables(t, org, at).organizations, SuspendedRows(RowsOf(t), org, at).organizations;
    forall o | o in rows ensures o in after.Values {
      var o' :| o' in RowsOf(t).organizations
                && o == if o'.id == org
                        then o'.(status := Status.Disabled, suspendedAt := Some(o'.suspendedAt.GetOr(at)), updatedAt := at)
                        else o';
      assert after[o'.id] == o;
    }
    forall o | o in after.Values ensures o in rows {
      var i :| i in after && after[i] == o;
      assert t.organizations[i] in RowsOf(t).organizations;
    }
  }

  lemma SuspensionAgrees(t: Tables, org: string, at: UtcTime)
    requires Items.Valid(t) && org in t.organizations
    ensures Items.Valid(SuspendedTables(t, org, at))
    ensures RowsOf(SuspendedTables(t, org, at)) == SuspendedRows(RowsOf(t), org, at)
  {
    hide SortKey, IdentityText, UsersOk, IdentitiesOk, OrganizationsOk, MembershipsOk, ApiKeysOk, AuditsOk, SessionsOk,
         ReferencesHold, SweptKeys;
    SuspensionKeepsValid(t, org, at);
    SuspendedKeys(t, org, at);
    SuspendedOrganization(t, org, at);
  }

  /** The owner the identity's constraint item names. */
  function WinnerIn(t: Tables, i: ExternalIdentity): Option<string> {
    if IdentityKeyOf(i) in t.constraints then t.constraints[IdentityKeyOf(i)].userId else None
  }

  /** The stored identity with this key belongs to the user. */
  ghost predicate OwnsKey(t: Tables, i: ExternalIdentity, user: string) {
    exists x :: x in RowsOf(t).identities && IdentityKeyOf(x) == IdentityKeyOf(i) && x.userId == user
  }

  /** A lost race that names the identity's owner, or nobody if there is none. */
  ghost predicate NamesOwner(t: Tables, i: ExternalIdentity, e: StorageError) {
    e.IdentityRace? && (Items.Valid(t) ==> forall user :: e.winner == Some(user) <==> OwnsKey(t, i, user))
  }

  lemma WinnerIsOwner(t: Tables, i: ExternalIdentity)
    ensures NamesOwner(t, i, IdentityRace(WinnerIn(t, i)))
  {
    hide SortKey, IdentityText, UsersOk, OrganizationsOk, MembershipsOk, ApiKeysOk, AuditsOk, SessionsOk, ReferencesHold;
    if Items.Valid(t) {
      if IdentityKeyOf(i) in t.constraints {
        assert t.identities[t.constraints[IdentityKeyOf(i)].entityId] in RowsOf(t).identities;
      }
    }
  }

  lemma PutsAndConflicts(t: Tables, row: Row)
    ensures |PutsFor(t, row)| == |ConflictsFor(row, false)| > 0
    ensures |ChecksFor(Parents(row))| == |Parents(row)|
  {
    hide SortKey, IdentityText;
    ChecksAreListed(Parents(row));
  }

  lemma SimulatedFails(a: Attempt, rows: seq<Row>, parents: seq<Parent>, racing: bool, distinct: bool,
                       verdict: Option<Verdict>, after: Tables)
    requires Simulates(a, rows, parents, racing, distinct, verdict, after)
    ensures verdict.Some? ==> verdict.value.Fail?
  {
  }

  lemma RowSubmissionSimulates(t: Tables, a: Attempt, row: Row, items: seq<Write>, descriptors: seq<Conflict>,
                               verdict: Option<Verdict>, last: bool)
    requires Items.Valid(a.arrival) && TimesStay(t, a.arrival)
    requires row.MembershipRow? ==> row.membership.organizationId in t.organizations
    requires items == PutsFor(t, row) + ChecksFor(Parents(row)) && |items| == |descriptors| > 0
    requires descriptors == ConflictsFor(row, false) + seq(|Parents(row)|, i => ReferenceConflict)
    requires verdict != Some(Retry)
    requires verdict == Judge(a, items, descriptors)
             || (last && verdict == Some(Fail(Failed)) && Judge(a, items, descriptors) == Some(Retry))
    ensures Simulates(a, [row], Parents(row), false, true, verdict, ItemsAfter(a, items))
    ensures verdict.Some? ==> verdict.value.Fail?
  {
    hide Items.Valid, Covers, WritesFor, AllConflicts, Judge, ItemsAfter, Simulates, TimesStay, PutsFor, ConflictsFor,
         DistinctTargets;
    SingleRowCovers(row);
    SingleRowWrites(t, a.arrival, row);
    SingleRowTargets(t, row);
    SubmissionSimulates(a, [row], Parents(row), false, true, items, descriptors, verdict, last);
    SimulatedFails(a, [row], Parents(row), false, true, verdict, ItemsAfter(a, items));
  }

  lemma UserSubmissionSimulates(t: Tables, a: Attempt, b: UserBatch, createdAt: UtcTime, parents: seq<Parent>,
                                items: seq<Write>, descriptors: seq<Conflict>, verdict: Option<Verdict>, last: bool)
    requires Items.Valid(a.arrival) && TimesStay(t, a.arrival) && RightTime(t, b.organization, b.membership, createdAt)
    requires Covers(parents, UserBatchRows(b))
    requires items == UserEntityWrites(b, createdAt) + AuditPutsOf(b.audits) + ChecksFor(parents)
    requires descriptors == UserEntityConflicts() + AuditConflictsOf(|b.audits|) + seq(|parents|, i => ReferenceConflict)
    requires |items| == |descriptors| && verdict != Some(Retry)
    requires verdict == Judge(a, items, descriptors)
             || (last && verdict == Some(Fail(Failed)) && Judge(a, items, descriptors) == Some(Retry))
    ensures Simulates(a, UserBatchRows(b), parents, true, DistinctEvents(b.audits), verdict, ItemsAfter(a, items))
    ensures verdict.Some? ==> verdict.value.Fail?
  {
    hide Items.Valid, Covers, WritesFor, AllConflicts, Judge, ItemsAfter, Simulates, TimesStay, RightTime, DistinctTargets,
         DistinctEvents;
    TimeStaysRight(t, a.arrival, b.organization, b.membership, createdAt);
    UserWritesAreTheBatch(a.arrival, b, createdAt, parents);
    UserConflictsAlign(b, parents);
    UserBatchTargets(b, createdAt, parents);
    SubmissionSimulates(a, UserBatchRows(b), parents, true, DistinctEvents(b.audits), items, descriptors, verdict, last);
    SimulatedFails(a, UserBatchRows(b), parents, true, DistinctEvents(b.audits), verdict, ItemsAfter(a, items));
  }

  lemma OrganizationSubmissionSimulates(t: Tables, a: Attempt, b: OrganizationBatch, createdAt: UtcTime, parents: seq<Parent>,
                                        items: seq<Write>, descriptors: seq<Conflict>, verdict: Option<Verdict>, last: bool)
    requires Items.Valid(a.arrival) && TimesStay(t, a.arrival) && RightTime(t, b.organization, b.membership, createdAt)
    requires Covers(parents, OrganizationBatchRows(b))
    requires items == OrganizationEntityWrites(b, createdAt) + AuditPutsOf(b.audits) + ChecksFor(parents)
    requires descriptors
          == OrganizationEntityConflicts() + AuditConflictsOf(|b.audits|) + seq(|parents|, i => ReferenceConflict)
    requires |items| == |descriptors| && verdict != Some(Retry)
    requires verdict == Judge(a, items, descriptors)
             || (last && verdict == Some(Fail(Failed)) && Judge(a, items, descriptors) == Some(Retry))
    ensures Simulates(a, OrganizationBatchRows(b), parents, false, DistinctEvents(b.audits), verdict, ItemsAfter(a, items))
    ensures verdict.Some? ==> verdict.value.Fail?
  {
    hide Items.Valid, Covers, WritesFor, AllConflicts, Judge, ItemsAfter, Simulates, TimesStay, RightTime, DistinctTargets,
         DistinctEvents;
    TimeStaysRight(t, a.arrival, b.organization, b.membership, createdAt);
    BatchWrites.OrganizationWritesAreTheBatch(a.arrival, b, createdAt, parents);
    OrganizationConflictsAlign(b, parents);
    OrganizationBatchTargets(b, createdAt, parents);
    SubmissionSimulates(a, OrganizationBatchRows(b), parents, false, DistinctEvents(b.audits), items, descriptors,
                        verdict, last);
    SimulatedFails(a, OrganizationBatchRows(b), parents, false, DistinctEvents(b.audits), verdict, ItemsAfter(a, items));
  }
}
