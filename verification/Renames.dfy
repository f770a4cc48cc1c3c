/**
 Updating an organization. One SQL UPDATE against two key-value branches, chosen by a
 slug read beforehand: a single-item update while the slug stays, a transaction that swaps
 slug constraints when it changes.
 */
module Renames {
  import opened Outcomes
  import opened Domain
  import opened Keys
  import opened Relational
  import opened Items
  import opened Transactions
  import opened Batches

  // ----- the relational form -----

  function UpdatedRow(stored: Organization, o: Organization): Organization {
    stored.(name := o.name, slug := o.slug, nameStatus := o.nameStatus, updatedAt := o.updatedAt)
  }

  /** UPDATE organizations SET name, slug, name_status, updated_at WHERE id. */
  function UpdateRows(r: Rows, o: Organization): Result<Rows, StorageError> {
    if !HasOrganization(r, o.id) then Err(EntityNotFound)
    else if exists x :: x in r.organizations && x.id != o.id && x.slug == o.slug then Err(Duplicate(OrganizationSlug))
    else Ok(r.(organizations := set x | x in r.organizations :: if x.id == o.id then UpdatedRow(x, o) else x))
  }

  /**
   A successful update gives its organization the new name, slug, name status and time, and
   leaves its other columns and all other rows; it fails exactly on a missing organization or
   on a slug that another has.
   */
  lemma UpdateSetsFourColumns(r: Rows, o: Organization)
    ensures UpdateRows(r, o) == Err(EntityNotFound) <==> forall x | x in r.organizations :: x.id != o.id
    ensures UpdateRows(r, o) == Err(Duplicate(OrganizationSlug)) <==>
              (exists x :: x in r.organizations && x.id == o.id)
              && exists x :: x in r.organizations && x.id != o.id && x.slug == o.slug
    ensures match UpdateRows(r, o)
            case Err(e) => e == EntityNotFound || e == Duplicate(OrganizationSlug)
            case Ok(after) =>
              after == r.(organizations := set x | x in r.organizations ::
                            if x.id != o.id then x
                            else Organization(x.id, o.name, o.slug, x.kind, x.status, o.nameStatus, x.suspendedAt,
                                              x.createdAt, o.updatedAt))
  {
  }

  /** SELECT 1 FROM organizations WHERE slug AND id != excluded. */
  predicate SlugFree(r: Rows, slug: string, excluded: Option<string>) {
    !exists x :: x in r.organizations && x.slug == slug && Some(x.id) != excluded
  }

  // ----- the key-value form -----

  /** The branch chosen by the slug that was read, or the miss. */
  datatype Plan = Missing | KeepSlug | ChangeSlug(oldSlug: string)

  function PlanUpdate(t: Tables, o: Organization): Plan {
    if o.id !in t.organizations then Missing
    else if t.organizations[o.id].slug == o.slug then KeepSlug
    else ChangeSlug(t.organizations[o.id].slug)
  }

  /** The single-item update: it does not write the slug. */
  function KeptSlug(t: Tables, o: Organization): Tables
    requires o.id in t.organizations
  {
    t.(organizations := t.organizations[o.id :=
         t.organizations[o.id].(name := o.name, nameStatus := o.nameStatus, updatedAt := o.updatedAt)])
  }

  function RenameWrites(o: Organization, oldSlug: string): seq<Write> {
    [Rename(o, oldSlug), DropConstraint(SlugKey(oldSlug), o.id), PutConstraint(SlugKey(o.slug), ConstraintItem(o.id, None))]
  }

  function RenameConflicts(): seq<Conflict> {
    [NotFoundConflict, NotFoundConflict, DuplicateConflict(OrganizationSlug)]
  }

  predicate SlugAvailable(t: Tables, slug: string, excluded: Option<string>) {
    SlugKey(slug) !in t.constraints || excluded == Some(t.constraints[SlugKey(slug)].entityId)
  }

  /** What a committed rename leaves. */
  function RenamedTables(t: Tables, o: Organization, oldSlug: string): Tables
    requires o.id in t.organizations
  {
    t.(organizations := t.organizations[o.id := Renamed(t.organizations[o.id], o)],
       constraints := (t.constraints - {SlugKey(oldSlug)})[SlugKey(o.slug) := ConstraintItem(o.id, None)])
  }

  // ----- the item state stays valid -----

  lemma KeptSlugKeepsValid(t: Tables, o: Organization)
    requires Valid(t) && o.id in t.organizations
    ensures Valid(KeptSlug(t, o))
  {
    hide SortKey, IdentityText, UsersOk, IdentitiesOk, MembershipsOk, ApiKeysOk, AuditsOk, SessionsOk;
  }

  lemma RenameCommits(t: Tables, o: Organization, oldSlug: string)
    requires Valid(t) && oldSlug != o.slug
    ensures Commits(t, RenameWrites(o, oldSlug))
       <==> o.id in t.organizations && t.organizations[o.id].slug == oldSlug && SlugKey(o.slug) !in t.constraints
  {
    hide SortKey, IdentityText, UsersOk, IdentitiesOk, MembershipsOk, ApiKeysOk, AuditsOk, SessionsOk;
    var ws := RenameWrites(o, oldSlug);
    assert AllHold(t, ws) <==> Holds(t, ws[0]) && Holds(t, ws[1]) && Holds(t, ws[2]);
  }

  lemma RenameEffect(t: Tables, o: Organization, oldSlug: string)
    requires o.id in t.organizations
    ensures ApplyAll(t, RenameWrites(o, oldSlug)) == RenamedTables(t, o, oldSlug)
  {
    hide ApplyAll;
    var ws := RenameWrites(o, oldSlug);
    assert ws == ws[..2] + [ws[2]] && ws[..2] == [ws[0], ws[1]];
    TwoSteps(t, ws[0], ws[1]);
    ApplyAllAppends(t, ws[..2], [ws[2]]);
    OneStep(ApplyAll(t, ws[..2]), ws[2]);
  }

  lemma IndexesIgnoreSlugs(t: Tables, slug: string, key: ConstraintKey, item: ConstraintItem)
    requires Keyed(t) && key.SlugKey?
    ensures var index := (t.constraints - {SlugKey(slug)})[key := item];
            IdentitiesOk(t.identities, index) && MembershipsOk(t.memberships, index) && ApiKeysOk(t.apiKeys, index)
  {
    hide SortKey, IdentityText, OrganizationsOk, UsersOk;
  }

  lemma RenamedSlugsOk(t: Tables, o: Organization)
    requires OrganizationsOk(t.organizations, t.constraints)
    requires o.id in t.organizations && SlugKey(o.slug) !in t.constraints
    ensures var t' := RenamedTables(t, o, t.organizations[o.id].slug); OrganizationsOk(t'.organizations, t'.constraints)
  {
  }

  lemma RenameKeepsValid(t: Tables, o: Organization)
    requires Valid(t) && o.id in t.organizations && SlugKey(o.slug) !in t.constraints
    ensures Valid(RenamedTables(t, o, t.organizations[o.id].slug))
  {
    hide SortKey, IdentityText, UsersOk, OrganizationsOk, IdentitiesOk, MembershipsOk, ApiKeysOk, AuditsOk, SessionsOk;
    RenamedSlugsOk(t, o);
    IndexesIgnoreSlugs(t, t.organizations[o.id].slug, SlugKey(o.slug), ConstraintItem(o.id, None));
  }

  // ----- against the relational form -----

  lemma SlugOwners(t: Tables, slug: string, excluded: Option<string>)
    requires Keyed(t)
    ensures SlugAvailable(t, slug, excluded) <==> SlugFree(RowsOf(t), slug, excluded)
  {
    hide SortKey, IdentityText, UsersOk, IdentitiesOk, MembershipsOk, ApiKeysOk, AuditsOk, SessionsOk;
    if SlugKey(slug) in t.constraints {
      var owner := t.constraints[SlugKey(slug)].entityId;
      assert t.organizations[owner] in RowsOf(t).organizations;
    }
  }

  lemma OrganizationRows(t: Tables, o: Organization, after: Organization)
    requires Keyed(t) && o.id in t.organizations
    requires after == UpdatedRow(t.organizations[o.id], o)
    ensures t.organizations[o.id := after].Values
         == set x | x in t.organizations.Values :: if x.id == o.id then UpdatedRow(x, o) else x
  {
    hide SortKey, IdentityText, UsersOk, IdentitiesOk, MembershipsOk, ApiKeysOk, AuditsOk, SessionsOk;
    var organizations := t.organizations[o.id := after];
    var updated := set x | x in t.organizations.Values :: if x.id == o.id then UpdatedRow(x, o) else x;
    forall x | x in organizations.Values ensures x in updated {
      var k :| k in organizations && organizations[k] == x;
      assert t.organizations[k] in t.organizations.Values;
    }
    forall x | x in updated ensures x in organizations.Values {
      var y :| y in t.organizations.Values && x == if y.id == o.id then UpdatedRow(y, o) else y;
      assert organizations[y.id] == x;
    }
  }

  /**
   A rename whose slug read is still current commits exactly when the UPDATE succeeds, with
   the same rows, and else reports the same error.
   */
  lemma RenameRefines(t: Tables, o: Organization, oldSlug: string)
    requires Valid(t) && PlanUpdate(t, o) == ChangeSlug(oldSlug)
    ensures Commits(t, RenameWrites(o, oldSlug)) <==> UpdateRows(RowsOf(t), o).Ok?
    ensures Commits(t, RenameWrites(o, oldSlug)) ==>
              UpdateRows(RowsOf(t), o) == Ok(RowsOf(ApplyAll(t, RenameWrites(o, oldSlug))))
    ensures !Commits(t, RenameWrites(o, oldSlug)) ==>
              UpdateRows(RowsOf(t), o) == Err(Duplicate(OrganizationSlug))
              && Judge(Attempt(t, Clear), RenameWrites(o, oldSlug), RenameConflicts())
                 == Some(Fail(Duplicate(OrganizationSlug)))
  {
    hide SortKey, IdentityText, UsersOk, OrganizationsOk, IdentitiesOk, MembershipsOk, ApiKeysOk, AuditsOk, SessionsOk,
         ReferencesHold, ApplyAll;
    RenameCommits(t, o, oldSlug);
    RenameEffect(t, o, oldSlug);
    SlugOwners(t, o.slug, Some(o.id));
    SlugIsNotOwn(t, o);
    ParentsAgree(t, o.id);
    OrganizationRows(t, o, Renamed(t.organizations[o.id], o));
    if !Commits(t, RenameWrites(o, oldSlug)) {
      OnlyTheSlugIsTaken(t, o, oldSlug);
    }
  }

  /** A slug constraint naming the organization is the one of its current slug. */
  lemma SlugIsNotOwn(t: Tables, o: Organization)
    requires Keyed(t) && o.id in t.organizations && t.organizations[o.id].slug != o.slug
    ensures SlugAvailable(t, o.slug, Some(o.id)) <==> SlugKey(o.slug) !in t.constraints
  {
    hide SortKey, IdentityText, UsersOk, IdentitiesOk, MembershipsOk, ApiKeysOk, AuditsOk, SessionsOk;
  }

  lemma OnlyTheSlugIsTaken(t: Tables, o: Organization, oldSlug: string)
    requires Valid(t) && PlanUpdate(t, o) == ChangeSlug(oldSlug) && SlugKey(o.slug) in t.constraints
    ensures Judge(Attempt(t, Clear), RenameWrites(o, oldSlug), RenameConflicts()) == Some(Fail(Duplicate(OrganizationSlug)))
  {
    hide SortKey, IdentityText, UsersOk, IdentitiesOk, MembershipsOk, ApiKeysOk, AuditsOk, SessionsOk, ReferencesHold,
         Reasons;
    var ws := RenameWrites(o, oldSlug);
    assert DistinctTargets(ws);
    assert Holds(t, ws[0]) && Holds(t, ws[1]) && !Holds(t, ws[2]);
    assert FirstFailure(t, ws, Blamed(t, ws));
  }

  /**
   A rename that lost a race reports the organization as missing although it is there; it
   does so exactly when the slug changed, or the organization went, since the read.
   */
  lemma LostRenameReportsMissing(t: Tables, o: Organization, oldSlug: string)
    requires Valid(t) && oldSlug != o.slug
    ensures Judge(Attempt(t, Clear), RenameWrites(o, oldSlug), RenameConflicts()) == Some(Fail(EntityNotFound))
       <==> o.id !in t.organizations || t.organizations[o.id].slug != oldSlug
    ensures UpdateRows(RowsOf(t), o) == Err(EntityNotFound) <==> o.id !in t.organizations
  {
    hide SortKey, IdentityText, UsersOk, IdentitiesOk, MembershipsOk, ApiKeysOk, AuditsOk, SessionsOk;
    var ws := RenameWrites(o, oldSlug);
    assert DistinctTargets(ws);
    ParentsAgree(t, o.id);
    if o.id !in t.organizations || t.organizations[o.id].slug != oldSlug {
      assert !Holds(t, ws[0]);
      assert FirstFailure(t, ws, Blamed(t, ws));
    } else {
      assert Holds(t, ws[0]) && Holds(t, ws[1]);
      assert AllHold(t, ws) <==> Holds(t, ws[2]);
    }
  }

  lemma KeptSlugLosesRename(t: Tables, o: Organization)
    requires OrganizationsOk(t.organizations, t.constraints)
    requires o.id in t.organizations && t.organizations[o.id].slug != o.slug
    ensures UpdateRows(RowsOf(t), o) != Ok(RowsOf(KeptSlug(t, o)))
  {
    var stored, after := t.organizations[o.id], KeptSlug(t, o).organizations;
    assert stored in RowsOf(t).organizations;
    assert forall k | k in after :: after[k] != UpdatedRow(stored, o);
    assert UpdateRows(RowsOf(t), o).Ok? ==> UpdatedRow(stored, o) in UpdateRows(RowsOf(t), o).value.organizations;
  }

  lemma KeptSlugUpdates(t: Tables, o: Organization)
    requires Keyed(t) && o.id in t.organizations && t.organizations[o.id].slug == o.slug
    ensures UpdateRows(RowsOf(t), o) == Ok(RowsOf(KeptSlug(t, o)))
  {
    hide SortKey, IdentityText, UsersOk, IdentitiesOk, MembershipsOk, ApiKeysOk, AuditsOk, SessionsOk;
    var stored := t.organizations[o.id];
    ParentsAgree(t, o.id);
    SlugOwners(t, o.slug, Some(o.id));
    OrganizationRows(t, o, stored.(name := o.name, nameStatus := o.nameStatus, updatedAt := o.updatedAt));
  }

  /**
   An update planned to keep the slug does not write it, so it leaves what the UPDATE
   leaves exactly when no rename came between.
   */
  lemma KeptSlugRefines(t: Tables, o: Organization)
    requires Valid(t) && o.id in t.organizations
    ensures UpdateRows(RowsOf(t), o) == Ok(RowsOf(KeptSlug(t, o))) <==> t.organizations[o.id].slug == o.slug
  {
    hide SortKey, IdentityText, UsersOk, IdentitiesOk, MembershipsOk, ApiKeysOk, AuditsOk, SessionsOk, UpdateRows,
         KeptSlug, RowsOf;
    if t.organizations[o.id].slug == o.slug {
      KeptSlugUpdates(t, o);
    } else {
      KeptSlugLosesRename(t, o);
    }
  }
}
