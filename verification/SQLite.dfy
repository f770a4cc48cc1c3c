/**
 The SQLite adapter: statements run against the open transaction, and a method either
 commits all of its statements or rolls every one of them back.
 */
module SQLite {
  import opened Outcomes
  import opened Timestamps
  import opened Domain
  import opened Relational
  import opened Faults
  import opened BatchWrites
  import opened RoleTransitions
  import opened KeyLifecycle
  import opened TenantDeletion

  class SQLiteStorage {
    /** What other connections see, and what the open transaction has made of it. */
    var committed: Rows
    var working: Rows

    /** Between calls no transaction is open and every constraint holds. */
    ghost predicate Valid()
      reads this
    {
      working == committed && Integrity(committed)
    }

    constructor (rows: Rows)
      requires Integrity(rows)
      ensures Valid() && committed == rows
    {
      committed, working := rows, rows;
    }

    /** One INSERT statement, of the columns it lists. */
    method Execute(row: Row) returns (error: Option<StorageError>)
      modifies `working
      ensures var inserted := Insert(old(working), Stored(row));
              if inserted.Ok? then error == None && working == inserted.value
              else error == Some(inserted.error) && working == old(working)
    {
      match Insert(working, Stored(row)) {
        case Ok(after) =>
          working := after;
          return None;
        case Err(e) => return Some(e);
      }
    }

    /** Executes rows in order up to the first failure. */
    method ExecuteAll(rows: seq<Row>) returns (error: Option<StorageError>)
      modifies `working
      ensures var inserted := InsertAll(old(working), StoredAll(rows));
              if inserted.Ok? then error == None && working == inserted.value else error == Some(inserted.error)
    {
      ghost var stored := StoredAll(rows);
      for i := 0 to |rows|
        invariant InsertAll(old(working), stored[..i]) == Ok(working)
      {
        assert stored[..i + 1][..i] == stored[..i];
        error := Execute(rows[i]);
        if error.Some? {
          InsertAllStops(old(working), stored, i + 1);
          return;
        }
      }
      assert stored[..|stored|] == stored;
      error := None;
    }

    method Commit()
      modifies `committed
      ensures committed == working
    {
      committed := working;
    }

    method Rollback()
      modifies `working
      ensures working == committed
    {
      working := committed;
    }

    /** create_user … append_audit_event: one INSERT, committed or rolled back. */
    method Create(row: Row) returns (error: Option<StorageError>)
      requires Valid()
      modifies this
      ensures Valid()
      ensures var inserted := Insert(old(committed), Stored(row));
              if inserted.Ok? then error == None && committed == inserted.value
              else error == Some(inserted.error) && committed == old(committed)
    {
      error := Execute(row);
      if error.Some? {
        Rollback();
      } else {
        InsertKeepsIntegrity(committed, Stored(row));
        Commit();
      }
    }

    /** The winner of a lost identity race, read after the rollback. */
    method ResolveWinner(identity: ExternalIdentity) returns (winner: Option<string>)
      requires Valid()
      ensures winner.Some? <==> exists i :: i in committed.identities && IdentityTuple(i) == IdentityTuple(identity)
      ensures winner.Some? ==>
                exists i :: i in committed.identities && IdentityTuple(i) == IdentityTuple(identity) && winner.value == i.userId
    {
      if i :| i in committed.identities && IdentityTuple(i) == IdentityTuple(identity) {
        return Some(i.userId);
      }
      return None;
    }

    /**
     The account of a first login: all rows or none. Only the identity tuple is a race, and
     its error names the user who owns the tuple.
     */
    method ProvisionUser(b: UserBatch) returns (result: Result<UserBatch, StorageError>)
      requires Valid()
      modifies this
      ensures Valid()
      ensures var inserted := InsertAll(old(committed), StoredAll(UserBatchRows(b)));
              if inserted.Ok? then result == Ok(b) && committed == inserted.value
              else
                && committed == old(committed) && result.Err?
                && if inserted.error == Duplicate(ExternalIdentityTuple)
                   then result.error.IdentityRace? && result.error.winner.Some?
                        && OwnsTuple(committed, b.identity, result.error.winner.value)
                   else result.error == inserted.error
    {
      var error := ExecuteAll([UserRow(b.user), IdentityRow(b.identity), OrganizationRow(b.organization),
                               MembershipRow(b.membership)]);
      if error.None? {
        error := ExecuteAll(AuditRows(b.audits));
      }
      StoredAppends(committed, UserBatchRows(b), 4);
      assert UserBatchRows(b)[..4] == [UserRow(b.user), IdentityRow(b.identity), OrganizationRow(b.organization),
                                       MembershipRow(b.membership)];
      assert UserBatchRows(b)[4..] == AuditRows(b.audits);
      if error.Some? {
        Rollback();
        if error.value == Duplicate(ExternalIdentityTuple) {
          RaceHasWinner(committed, b);
          var winner := ResolveWinner(b.identity);
          return Err(IdentityRace(winner));
        }
        return Err(error.value);
      }
      InsertAllKeepsIntegrity(committed, StoredAll(UserBatchRows(b)));
      Commit();
      result := Ok(b);
    }

    /** An organization with its owner and events; a taken slug is a plain duplicate. */
    method ProvisionOrganization(b: OrganizationBatch) returns (result: Result<OrganizationBatch, StorageError>)
      requires Valid()
      modifies this
      ensures Valid()
      ensures var inserted := InsertAll(old(committed), StoredAll(OrganizationBatchRows(b)));
              if inserted.Ok? then result == Ok(b) && committed == inserted.value
              else result == Err(inserted.error) && committed == old(committed)
    {
      var error := ExecuteAll([OrganizationRow(b.organization), MembershipRow(b.membership)]);
      if error.None? {
        error := ExecuteAll(AuditRows(b.audits));
      }
      StoredAppends(committed, OrganizationBatchRows(b), 2);
      assert OrganizationBatchRows(b)[..2] == [OrganizationRow(b.organization), MembershipRow(b.membership)];
      assert OrganizationBatchRows(b)[2..] == AuditRows(b.audits);
      if error.Some? {
        Rollback();
        return Err(error.value);
      }
      InsertAllKeepsIntegrity(committed, StoredAll(OrganizationBatchRows(b)));
      Commit();
      result := Ok(b);
    }

    /** The guard, the compare-and-swap and the event are one serialized transaction. */
    method TransitionApplicationRole(c: Call) returns (outcome: Outcome)
      requires Valid()
      modifies this
      ensures Valid()
      ensures (outcome, committed) == Serialized(old(committed), c)
    {
      hide Integrity, UpdateRole, Insert, OtherActiveAdmin;
      if u :| u in committed.users && u.id == c.userId {
        IdsAreUnique(committed, u);
        if u.role == c.role {
          return NoChange(u);
        }
        if IsDemotion(c) && u.status == Active && !OtherActiveAdmin(committed, c.userId) {
          return Refused(LastActiveAdministrator);
        }
        if u.role != c.expected {
          return Refused(Failed);
        }
        working := UpdateRole(working, c);
        var error := Execute(AuditRow(c.audit));
        if error.Some? {
          Rollback();
          return Refused(error.value);
        }
        UpdateRoleKeepsIntegrity(committed, c);
        InsertKeepsIntegrity(UpdateRole(committed, c), AuditRow(c.audit));
        Commit();
        return Transitioned(u.(role := c.role, updatedAt := c.at));
      }
      return Refused(EntityNotFound);
    }

    /** First write wins: the swap touches an active key only, and the answer is stored truth. */
    method RevokeApiKey(id: string, at: UtcTime) returns (result: Result<ApiKey, StorageError>)
      requires Valid()
      modifies this
      ensures Valid() && committed == RevokedRows(old(committed), id, at)
      ensures result.Err? <==> forall k | k in old(committed).apiKeys :: k.id != id
      ensures result.Err? ==> result.error == EntityNotFound && committed == old(committed)
      ensures result.Ok? ==> result.value in committed.apiKeys && result.value.id == id && result.value.status == Revoked
    {
      working := RevokedRows(working, id, at);
      RevokingKeepsIntegrity(committed, id, at);
      if k :| k in working.apiKeys && k.id == id {
        Commit();
        return Ok(k);
      }
      NothingToRevoke(committed, id, at);
      Rollback();
      return Err(EntityNotFound);
    }

    /** Suspends the tenant and revokes its active keys in one transaction. */
    method AdminSuspendOrganization(org: string, at: UtcTime) returns (error: Option<StorageError>)
      requires Valid()
      modifies this
      ensures Valid()
      ensures if HasOrganization(old(committed), org) then error == None && committed == SuspendedRows(old(committed), org, at)
              else error == Some(EntityNotFound) && committed == old(committed)
      ensures error.None? ==>
                IsSuspended(old(committed).organizations, org, at, committed.organizations)
                && KeysAreEnded(old(committed).apiKeys, org, at, committed.apiKeys)
    {
      if !HasOrganization(committed, org) {
        return Some(EntityNotFound);
      }
      working := SuspendedRows(working, org, at);
      SuspensionEndsKeys(committed, org, at);
      SuspendingKeepsIntegrity(committed, org, at);
      Commit();
      error := None;
    }

    /** A DELETE, checked for children it would leave behind. */
    method ExecuteDelete(d: Deletion) returns (tripped: bool)
      modifies `working
      ensures tripped <==> !ForeignKeysHold(Drop(old(working), d))
      ensures working == if tripped then old(working) else Drop(old(working), d)
    {
      tripped := !ForeignKeysHold(Drop(working, d));
      if !tripped {
        working := Drop(working, d);
      }
    }

    /** Runs deletions that never trip. */
    method ExecuteDeletes(ds: seq<Deletion>) returns (tripped: bool)
      requires NeverTrips(working, ds)
      modifies `working
      ensures !tripped && working == DropAll(old(working), ds)
    {
      tripped := false;
      for i := 0 to |ds|
        invariant !tripped && working == DropAll(old(working), ds[..i])
      {
        assert ds[..i + 1][..i] == ds[..i];
        assert ForeignKeysHold(DropAll(old(working), ds[..i + 1]));
        tripped := ExecuteDelete(ds[i]);
      }
      assert ds[..|ds|] == ds;
    }

    /** Deletes everything that belongs to these users of a tenant already disabled and gone. */
    method DeleteUsers(org: string, users: set<string>)
      requires working == Without(working, org, {}) && ForeignKeysHold(working)
      modifies `working
      ensures working == Without(old(working), org, users) && ForeignKeysHold(working)
    {
      hide ForeignKeysHold, Without, NeverTrips;
      var rest := users;
      assert users - rest == {};
      while rest != {}
        invariant rest <= users
        invariant working == Without(old(working), org, users - rest) && ForeignKeysHold(working)
        decreases |rest|
      {
        var user :| user in rest;
        UserGoes(old(working), org, users - rest, user);
        EndsUntripped(working, UserDeletions(user));
        var tripped := ExecuteDeletes(UserDeletions(user));
        assert users - (rest - {user}) == (users - rest) + {user};
        rest := rest - {user};
      }
      assert users - rest == users;
    }

    /** Deletes the tenant: no statement trips, and only the tenant's rows are gone. */
    method AdminDeleteOrganization(org: string, at: UtcTime) returns (error: Option<StorageError>)
      requires Valid()
      modifies this
      ensures Valid()
      ensures if HasOrganization(old(committed), org) then error == None && committed == DeletedRows(old(committed), org)
              else error == Some(EntityNotFound) && committed == old(committed)
    {
      hide ForeignKeysHold, Without, NeverTrips, DisabledTenant, TenantUsers, HasOrganization, UniqueKeysHold;
      if !HasOrganization(committed, org) {
        return Some(EntityNotFound);
      }
      var users := TenantUsers(working, org);
      working := DisabledTenant(working, org, at);
      DisablingKeepsForeignKeys(committed, org, at);
      DisablingVanishes(committed, org, at, users);
      OrganizationGoes(working, org);
      EndsUntripped(working, OrganizationDeletions(org));
      ghost var disabled := working;
      var tripped := ExecuteDeletes(OrganizationDeletions(org));
      WithoutTwice(disabled, org, {});
      DeleteUsers(org, users);
      WithoutTwice(disabled, org, users);
      DeletingKeepsUniqueness(committed, org, users);
      Commit();
      error := None;
    }
  }

  lemma WithoutTwice(r: Rows, org: string, users: set<string>)
    ensures Without(Without(r, org, {}), org, users) == Without(r, org, users)
  {
  }

  lemma DeletingKeepsUniqueness(r: Rows, org: string, users: set<string>)
    requires UniqueKeysHold(r)
    ensures UniqueKeysHold(Without(r, org, users))
  {
  }

  lemma IdsAreUnique(r: Rows, u: User)
    requires Integrity(r) && u in r.users
    ensures forall v | v in r.users && v.id == u.id :: v == u
  {
  }

  lemma EndsUntripped(r: Rows, ds: seq<Deletion>)
    requires NeverTrips(r, ds)
    ensures ForeignKeysHold(DropAll(r, ds))
  {
    assert ds[..|ds|] == ds;
  }

  /** A batch refused for its identity tuple lost it to a committed row. */
  lemma RaceHasWinner(r: Rows, b: UserBatch)
    requires InsertAll(r, StoredAll(UserBatchRows(b))) == Err(Duplicate(ExternalIdentityTuple))
    ensures exists i :: i in r.identities && IdentityTuple(i) == IdentityTuple(b.identity)
  {
    hide InsertAll, IdTaken;
    var rows := UserBatchRows(b);
    StoredInsertsAgree(r, rows);
    StatementsBlameAFault(r, rows);
    var f :| Broken(r, rows, f) && FaultError(rows, f) == Duplicate(ExternalIdentityTuple);
    assert rows[f.row].IdentityRow? ==> f.row == 1;
    assert rows[..1] == [UserRow(b.user)] && rows[..1][..0] == [];
    assert PlusAll(r, rows[..1]).identities == r.identities;
  }

  ghost predicate OwnsTuple(r: Rows, identity: ExternalIdentity, user: string) {
    exists i :: i in r.identities && IdentityTuple(i) == IdentityTuple(identity) && i.userId == user
  }

  lemma {:induction false} InsertAllStops(r: Rows, rows: seq<Row>, n: nat)
    requires n <= |rows| && InsertAll(r, rows[..n]).Err?
    ensures InsertAll(r, rows) == InsertAll(r, rows[..n])
    decreases |rows|
  {
    if n < |rows| {
      assert rows[..|rows| - 1][..n] == rows[..n];
      InsertAllStops(r, rows[..|rows| - 1], n);
    } else {
      assert rows[..n] == rows;
    }
  }

  lemma {:induction false} InsertAllAppends(r: Rows, before: seq<Row>, rows: seq<Row>)
    ensures InsertAll(r, before + rows) ==
              if InsertAll(r, before).Err? then InsertAll(r, before) else InsertAll(InsertAll(r, before).value, rows)
  {
    if rows == [] {
      assert before + rows == before;
    } else {
      assert (before + rows)[..|before + rows| - 1] == before + rows[..|rows| - 1];
      InsertAllAppends(r, before, rows[..|rows| - 1]);
    }
  }

  /** A batch's statements in two stretches. */
  lemma StoredAppends(r: Rows, rows: seq<Row>, n: nat)
    requires n <= |rows|
    ensures var front := InsertAll(r, StoredAll(rows[..n]));
            InsertAll(r, StoredAll(rows)) == if front.Err? then front else InsertAll(front.value, StoredAll(rows[n..]))
  {
    InsertAllAppends(r, StoredAll(rows[..n]), StoredAll(rows[n..]));
    assert StoredAll(rows) == StoredAll(rows[..n]) + StoredAll(rows[n..]);
  }

  lemma {:induction false} InsertAllKeepsIntegrity(r: Rows, rows: seq<Row>)
    requires Integrity(r) && InsertAll(r, rows).Ok?
    ensures Integrity(InsertAll(r, rows).value)
  {
    if rows != [] {
      InsertAllKeepsIntegrity(r, rows[..|rows| - 1]);
      InsertKeepsIntegrity(InsertAll(r, rows[..|rows| - 1]).value, rows[|rows| - 1]);
    }
  }

  // ----- the UPDATE statements keep every constraint -----

  lemma UpdateRoleKeepsIntegrity(r: Rows, c: Call)
    requires Integrity(r)
    ensures Integrity(UpdateRole(r, c))
  {
    var r' := UpdateRole(r, c);
    forall id | HasUser(r, id) ensures HasUser(r', id) {
      var u :| u in r.users && u.id == id;
      var u' := if u.id == c.userId && u.role == c.expected then u.(role := c.role, updatedAt := c.at) else u;
      assert u' in r'.users && u'.id == id;
    }
  }

  lemma RevokingKeepsIntegrity(r: Rows, id: string, at: UtcTime)
    requires Integrity(r)
    ensures Integrity(RevokedRows(r, id, at))
  {
  }

  lemma NothingToRevoke(r: Rows, id: string, at: UtcTime)
    requires forall k | k in RevokedRows(r, id, at).apiKeys :: k.id != id
    ensures RevokedRows(r, id, at) == r && forall k | k in r.apiKeys :: k.id != id
  {
    forall k | k in r.apiKeys ensures k.id != id && k in RevokedRows(r, id, at).apiKeys {
      var k' := if k.id == id && k.status == KeyActive then k.(status := Revoked, revokedAt := Some(at)) else k;
      assert k' in RevokedRows(r, id, at).apiKeys;
    }
  }

  lemma SuspendingKeepsIntegrity(r: Rows, org: string, at: UtcTime)
    requires Integrity(r)
    ensures Integrity(SuspendedRows(r, org, at))
  {
    var r' := SuspendedRows(r, org, at);
    forall id | HasOrganization(r, id) ensures HasOrganization(r', id) {
      var o :| o in r.organizations && o.id == id;
      var o' := if o.id == org
                then o.(status := Status.Disabled, suspendedAt := Some(o.suspendedAt.GetOr(at)), updatedAt := at) else o;
      assert o' in r'.organizations && o'.id == id;
    }
  }
}
