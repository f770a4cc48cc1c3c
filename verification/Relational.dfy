/**
 The relational form of the store: tables as sets of rows, and INSERT statements that
 enforce the declared PRIMARY KEY, UNIQUE and FOREIGN KEY constraints one statement at a
 time.
 */
module Relational {
  import opened Outcomes
  import opened Domain

  datatype Rows = Rows(users: set<User>, identities: set<ExternalIdentity>, organizations: set<Organization>,
                       memberships: set<Membership>, apiKeys: set<ApiKey>, audits: set<AuditEvent>,
                       sessions: set<Session>)

  /** One row to insert; every create and provision operation is a sequence of these. */
  datatype Row =
    | UserRow(user: User)
    | IdentityRow(identity: ExternalIdentity)
    | OrganizationRow(organization: Organization)
    | MembershipRow(membership: Membership)
    | ApiKeyRow(apiKey: ApiKey)
    | AuditRow(audit: AuditEvent)

  /** A parent row that a child refers to. */
  datatype Parent = UserParent(id: string) | OrganizationParent(id: string)

  predicate HasUser(r: Rows, id: string) {
    exists u :: u in r.users && u.id == id
  }

  predicate HasOrganization(r: Rows, id: string) {
    exists o :: o in r.organizations && o.id == id
  }

  predicate HasParent(r: Rows, p: Parent) {
    match p
    case UserParent(id) => HasUser(r, id)
    case OrganizationParent(id) => HasOrganization(r, id)
  }

  /** The foreign keys of a row, in column order. */
  function Parents(row: Row): seq<Parent> {
    match row
    case UserRow(_) => []
    case IdentityRow(i) => [UserParent(i.userId)]
    case OrganizationRow(_) => []
    case MembershipRow(m) => [OrganizationParent(m.organizationId), UserParent(m.userId)]
    case ApiKeyRow(k) => [OrganizationParent(k.organizationId), UserParent(k.createdBy)]
    case AuditRow(e) => [OrganizationParent(e.organizationId)]
  }

  /** The PRIMARY KEY of the row's table is taken. */
  predicate IdTaken(r: Rows, row: Row) {
    match row
    case UserRow(u) => HasUser(r, u.id)
    case IdentityRow(i) => exists x :: x in r.identities && x.id == i.id
    case OrganizationRow(o) => HasOrganization(r, o.id)
    case MembershipRow(m) => exists x :: x in r.memberships && x.id == m.id
    case ApiKeyRow(k) => exists x :: x in r.apiKeys && x.id == k.id
    case AuditRow(e) => exists x :: x in r.audits && x.id == e.id
  }

  /** The UNIQUE index of the row's table is taken; users and audits have none. */
  predicate UniqueTaken(r: Rows, row: Row) {
    match row
    case UserRow(_) => false
    case IdentityRow(i) => exists x :: x in r.identities && IdentityTuple(x) == IdentityTuple(i)
    case OrganizationRow(o) => exists x :: x in r.organizations && x.slug == o.slug
    case MembershipRow(m) => exists x :: x in r.memberships && SamePair(x, m)
    case ApiKeyRow(k) => exists x :: x in r.apiKeys && x.keyId == k.keyId
    case AuditRow(_) => false
  }

  function UniqueKind(row: Row): DuplicateKind {
    match row
    case UserRow(_) => EntityId
    case IdentityRow(_) => ExternalIdentityTuple
    case OrganizationRow(_) => OrganizationSlug
    case MembershipRow(_) => MembershipPair
    case ApiKeyRow(_) => ApiKeySegment
    case AuditRow(_) => EntityId
  }

  function Plus(r: Rows, row: Row): Rows {
    match row
    case UserRow(u) => r.(users := r.users + {u})
    case IdentityRow(i) => r.(identities := r.identities + {i})
    case OrganizationRow(o) => r.(organizations := r.organizations + {o})
    case MembershipRow(m) => r.(memberships := r.memberships + {m})
    case ApiKeyRow(k) => r.(apiKeys := r.apiKeys + {k})
    case AuditRow(e) => r.(audits := r.audits + {e})
  }

  function PlusAll(r: Rows, rows: seq<Row>): Rows {
    if rows == [] then r else Plus(PlusAll(r, rows[..|rows| - 1]), rows[|rows| - 1])
  }

  /** One INSERT: uniqueness while the row goes in, foreign keys at the end of the statement. */
  function Insert(r: Rows, row: Row): Result<Rows, StorageError> {
    if IdTaken(r, row) then Err(Duplicate(EntityId))
    else if UniqueTaken(r, row) then Err(Duplicate(UniqueKind(row)))
    else if exists p :: p in Parents(row) && !HasParent(r, p) then Err(ReferenceNotFound)
    else Ok(Plus(r, row))
  }

  /** A column that REFERENCES a user or an organization names none. */
  predicate LacksParent(r: Rows, row: Row) {
    match row
    case UserRow(_) => false
    case IdentityRow(i) => !HasUser(r, i.userId)
    case OrganizationRow(_) => false
    case MembershipRow(m) => !HasOrganization(r, m.organizationId) || !HasUser(r, m.userId)
    case ApiKeyRow(k) => !HasOrganization(r, k.organizationId) || !HasUser(r, k.createdBy)
    case AuditRow(e) => !HasOrganization(r, e.organizationId)
  }

  lemma UniqueIsDeclared(r: Rows, row: Row)
    ensures row.UserRow? || row.AuditRow? ==> !UniqueTaken(r, row)
    ensures row.IdentityRow? ==>
              (UniqueTaken(r, row) <==> exists x :: x in r.identities && IdentityTuple(x) == IdentityTuple(row.identity))
    ensures row.OrganizationRow? ==>
              (UniqueTaken(r, row) <==> exists x :: x in r.organizations && x.slug == row.organization.slug)
    ensures row.MembershipRow? ==> (UniqueTaken(r, row) <==> exists x :: x in r.memberships && SamePair(x, row.membership))
    ensures row.ApiKeyRow? ==> (UniqueTaken(r, row) <==> exists x :: x in r.apiKeys && x.keyId == row.apiKey.keyId)
  {
  }

  lemma ParentsAreReferences(r: Rows, row: Row)
    ensures (exists p :: p in Parents(row) && !HasParent(r, p)) <==> LacksParent(r, row)
  {
    hide HasUser, HasOrganization;
    if row.IdentityRow? {
      assert UserParent(row.identity.userId) in Parents(row);
    } else if row.MembershipRow? {
      assert OrganizationParent(row.membership.organizationId) in Parents(row);
      assert UserParent(row.membership.userId) in Parents(row);
    } else if row.ApiKeyRow? {
      assert OrganizationParent(row.apiKey.organizationId) in Parents(row);
      assert UserParent(row.apiKey.createdBy) in Parents(row);
    } else if row.AuditRow? {
      assert OrganizationParent(row.audit.organizationId) in Parents(row);
    }
  }

  /** Each error of an INSERT means what it names, and nothing but these rules can refuse a row. */
  lemma InsertErrorsMeanWhatTheyName(r: Rows, row: Row)
    ensures var inserted := Insert(r, row);
            && (inserted == Err(Duplicate(EntityId)) <==> IdTaken(r, row))
            && (inserted == Err(Duplicate(ExternalIdentityTuple)) <==>
                  row.IdentityRow? && !IdTaken(r, row)
                  && exists x :: x in r.identities && IdentityTuple(x) == IdentityTuple(row.identity))
            && (inserted == Err(Duplicate(OrganizationSlug)) <==>
                  row.OrganizationRow? && !IdTaken(r, row) && exists x :: x in r.organizations && x.slug == row.organization.slug)
            && (inserted == Err(Duplicate(MembershipPair)) <==>
                  row.MembershipRow? && !IdTaken(r, row) && exists x :: x in r.memberships && SamePair(x, row.membership))
            && (inserted == Err(Duplicate(ApiKeySegment)) <==>
                  row.ApiKeyRow? && !IdTaken(r, row) && exists x :: x in r.apiKeys && x.keyId == row.apiKey.keyId)
            && (inserted == Err(ReferenceNotFound) <==> !IdTaken(r, row) && !UniqueTaken(r, row) && LacksParent(r, row))
            && (inserted.Ok? <==> !IdTaken(r, row) && !UniqueTaken(r, row) && !LacksParent(r, row))
  {
    hide IdTaken, UniqueTaken, HasUser, HasOrganization;
    ParentsAreReferences(r, row);
    UniqueIsDeclared(r, row);
  }

  /** The statements of one transaction; the first failing statement decides the error. */
  function InsertAll(r: Rows, rows: seq<Row>): Result<Rows, StorageError> {
    if rows == [] then Ok(r)
    else
      var before :- InsertAll(r, rows[..|rows| - 1]);
      Insert(before, rows[|rows| - 1])
  }

  /** What an INSERT leaves of a row: an organization's suspension time is not among its columns. */
  function Stored(row: Row): Row {
    if row.OrganizationRow? then OrganizationRow(row.organization.(suspendedAt := None)) else row
  }

  function StoredAll(rows: seq<Row>): seq<Row> {
    seq(|rows|, i requires 0 <= i < |rows| => Stored(rows[i]))
  }

  predicate NoneSuspended(rows: seq<Row>) {
    forall i | 0 <= i < |rows| && rows[i].OrganizationRow? :: rows[i].organization.suspendedAt.None?
  }

  /** Every declared constraint holds. */
  ghost predicate Integrity(r: Rows) {
    UniqueKeysHold(r) && ForeignKeysHold(r)
  }

  ghost predicate UniqueKeysHold(r: Rows) {
    && (forall x, y | x in r.users && y in r.users && x.id == y.id :: x == y)
    && UniqueIdentities(r.identities)
    && UniqueOrganizations(r.organizations)
    && UniqueMemberships(r.memberships)
    && UniqueApiKeys(r.apiKeys)
    && (forall x, y | x in r.audits && y in r.audits && x.id == y.id :: x == y)
  }

  ghost predicate UniqueIdentities(rows: set<ExternalIdentity>) {
    forall x, y | x in rows && y in rows && (x.id == y.id || IdentityTuple(x) == IdentityTuple(y)) :: x == y
  }

  ghost predicate UniqueOrganizations(rows: set<Organization>) {
    forall x, y | x in rows && y in rows && (x.id == y.id || x.slug == y.slug) :: x == y
  }

  ghost predicate UniqueMemberships(rows: set<Membership>) {
    forall x, y | x in rows && y in rows && (x.id == y.id || SamePair(x, y)) :: x == y
  }

  ghost predicate UniqueApiKeys(rows: set<ApiKey>) {
    forall x, y | x in rows && y in rows && (x.id == y.id || x.keyId == y.keyId) :: x == y
  }

  predicate SamePair(x: Membership, y: Membership) {
    x.organizationId == y.organizationId && x.userId == y.userId
  }

  predicate ForeignKeysHold(r: Rows) {
    && (forall x :: x in r.identities ==> HasUser(r, x.userId))
    && (forall x :: x in r.memberships ==> HasOrganization(r, x.organizationId) && HasUser(r, x.userId))
    && (forall x :: x in r.apiKeys ==> HasOrganization(r, x.organizationId) && HasUser(r, x.createdBy))
    && (forall x :: x in r.audits ==> HasOrganization(r, x.organizationId))
  }

  lemma {:induction false} InsertAllAddsAll(r: Rows, rows: seq<Row>)
    ensures InsertAll(r, rows).Ok? ==> InsertAll(r, rows).value == PlusAll(r, rows)
  {
    if rows != [] {
      InsertAllAddsAll(r, rows[..|rows| - 1]);
    }
  }

  // ----- suspension times decide nothing -----

  function Unsuspended(r: Rows): Rows {
    r.(organizations := set o | o in r.organizations :: o.(suspendedAt := None))
  }

  lemma SuspensionTakesNoKey(r: Rows, row: Row)
    ensures IdTaken(Unsuspended(r), row) <==> IdTaken(r, row)
    ensures UniqueTaken(Unsuspended(r), row) <==> UniqueTaken(r, row)
    ensures forall p :: HasParent(Unsuspended(r), p) <==> HasParent(r, p)
  {
    forall o | o in r.organizations ensures o.(suspendedAt := None) in Unsuspended(r).organizations {
    }
  }

  lemma StoredInsertAgrees(r: Rows, r': Rows, row: Row)
    requires Unsuspended(r) == Unsuspended(r')
    ensures Insert(r', Stored(row)).Ok? <==> Insert(r, row).Ok?
    ensures Insert(r, row).Err? ==> Insert(r', Stored(row)) == Insert(r, row)
    ensures Unsuspended(Plus(r', Stored(row))) == Unsuspended(Plus(r, row))
  {
    hide Unsuspended;
    SuspensionTakesNoKey(r, row);
    SuspensionTakesNoKey(r', row);
    StoredKeys(r', row);
    StoredPlus(r, r', row);
  }

  lemma StoredKeys(r: Rows, row: Row)
    ensures IdTaken(r, Stored(row)) <==> IdTaken(r, row)
    ensures UniqueTaken(r, Stored(row)) <==> UniqueTaken(r, row)
    ensures Parents(Stored(row)) == Parents(row) && UniqueKind(Stored(row)) == UniqueKind(row)
  {
  }

  lemma StoredPlus(r: Rows, r': Rows, row: Row)
    requires Unsuspended(r) == Unsuspended(r')
    ensures Unsuspended(Plus(r', Stored(row))) == Unsuspended(Plus(r, row))
  {
    if row.OrganizationRow? {
      var o := row.organization.(suspendedAt := None);
      assert Unsuspended(Plus(r, row)).organizations == Unsuspended(r).organizations + {o};
      assert Unsuspended(Plus(r', Stored(row))).organizations == Unsuspended(r').organizations + {o};
    }
  }

  /** The statements succeed or fail alike, whatever suspension times their organizations carry. */
  lemma {:induction false} StoredInsertsAgree(r: Rows, rows: seq<Row>)
    ensures InsertAll(r, StoredAll(rows)).Ok? <==> InsertAll(r, rows).Ok?
    ensures InsertAll(r, rows).Err? ==> InsertAll(r, StoredAll(rows)) == InsertAll(r, rows)
    ensures InsertAll(r, rows).Ok? ==>
              Unsuspended(InsertAll(r, StoredAll(rows)).value) == Unsuspended(InsertAll(r, rows).value)
  {
    hide Unsuspended, Stored, Insert, Plus;
    if rows != [] {
      var front, row := rows[..|rows| - 1], rows[|rows| - 1];
      StoredInsertsAgree(r, front);
      assert StoredAll(rows)[..|rows| - 1] == StoredAll(front);
      if InsertAll(r, front).Ok? {
        StoredInsertAgrees(InsertAll(r, front).value, InsertAll(r, StoredAll(front)).value, row);
        InsertAdds(InsertAll(r, front).value, row);
        InsertAdds(InsertAll(r, StoredAll(front)).value, Stored(row));
      }
    }
  }

  lemma InsertAdds(r: Rows, row: Row)
    ensures Insert(r, row).Ok? ==> Insert(r, row).value == Plus(r, row)
  {
  }

  lemma {:induction false} AddedOrganizations(r: Rows, rows: seq<Row>, o: Organization)
    ensures o in PlusAll(r, rows).organizations <==> o in r.organizations || OrganizationRow(o) in rows
  {
    if rows != [] {
      AddedOrganizations(r, rows[..|rows| - 1], o);
      assert rows == rows[..|rows| - 1] + [rows[|rows| - 1]];
    }
  }

  /** An organization that goes in was not there. */
  lemma {:induction false} InsertedIsNew(r: Rows, rows: seq<Row>, o: Organization)
    requires InsertAll(r, rows).Ok? && OrganizationRow(o) in rows
    ensures o !in r.organizations
  {
    var front, row := rows[..|rows| - 1], rows[|rows| - 1];
    InsertAllAddsAll(r, front);
    if row == OrganizationRow(o) {
      AddedOrganizations(r, front, o);
    } else {
      assert rows == front + [row];
      InsertedIsNew(r, front, o);
    }
  }

  /** What the INSERTs leave is what they were given exactly when no organization is suspended. */
  lemma StoredRowsAreTheGiven(r: Rows, rows: seq<Row>)
    requires InsertAll(r, rows).Ok?
    ensures InsertAll(r, StoredAll(rows)).Ok?
    ensures InsertAll(r, StoredAll(rows)).value == PlusAll(r, rows) <==> NoneSuspended(rows)
  {
    hide InsertAll, PlusAll;
    StoredInsertsAgree(r, rows);
    InsertAllAddsAll(r, StoredAll(rows));
    InsertAllAddsAll(r, rows);
    if NoneSuspended(rows) {
      assert StoredAll(rows) == rows;
    } else {
      var i :| 0 <= i < |rows| && rows[i].OrganizationRow? && rows[i].organization.suspendedAt.Some?;
      var o := rows[i].organization;
      assert OrganizationRow(o) in rows;
      InsertedIsNew(r, rows, o);
      AddedOrganizations(r, rows, o);
      AddedOrganizations(r, StoredAll(rows), o);
      assert OrganizationRow(o) !in StoredAll(rows);
    }
  }

  /** An accepted statement keeps every declared constraint. */
  lemma InsertKeepsIntegrity(r: Rows, row: Row)
    requires Integrity(r) && Insert(r, row).Ok?
    ensures Integrity(Insert(r, row).value)
  {
    InsertKeepsForeignKeys(r, row);
    InsertKeepsUniqueKeys(r, row);
  }

  lemma InsertKeepsUniqueKeys(r: Rows, row: Row)
    requires UniqueKeysHold(r) && !IdTaken(r, row) && !UniqueTaken(r, row)
    ensures UniqueKeysHold(Plus(r, row))
  {
  }

  lemma InsertKeepsForeignKeys(r: Rows, row: Row)
    requires ForeignKeysHold(r) && forall p :: p in Parents(row) ==> HasParent(r, p)
    ensures ForeignKeysHold(Plus(r, row))
  {
    assert forall i :: 0 <= i < |Parents(row)| ==> Parents(row)[i] in Parents(row);
    ParentsStay(r, row);
    match row {
      case UserRow(_) =>
      case IdentityRow(i) => assert HasParent(r, Parents(row)[0]);
      case OrganizationRow(_) =>
      case MembershipRow(m) => assert HasParent(r, Parents(row)[0]) && HasParent(r, Parents(row)[1]);
      case ApiKeyRow(k) => assert HasParent(r, Parents(row)[0]) && HasParent(r, Parents(row)[1]);
      case AuditRow(e) => assert HasParent(r, Parents(row)[0]);
    }
  }

  lemma ParentsStay(r: Rows, row: Row)
    ensures forall id :: HasUser(r, id) ==> HasUser(Plus(r, row), id)
    ensures forall id :: HasOrganization(r, id) ==> HasOrganization(Plus(r, row), id)
  {
    forall id | HasUser(r, id)
      ensures HasUser(Plus(r, row), id)
    {
      var u :| u in r.users && u.id == id;
      assert u in Plus(r, row).users;
    }
    forall id | HasOrganization(r, id)
      ensures HasOrganization(Plus(r, row), id)
    {
      var o :| o in r.organizations && o.id == id;
      assert o in Plus(r, row).organizations;
    }
  }
}
