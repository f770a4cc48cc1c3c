/**
 The schema of a SQLite file and how it is brought forward. A fresh file is built statement
 by statement; an older one is migrated along a chain in one write-locked transaction.
 */
module Migrations {
  import opened Outcomes

  // ----- a database file -----

  datatype TableName =
    | Users | ExternalIdentities | Organizations | Memberships | ApiKeys | AuditEvents | OauthLoginStates | AppSessions

  datatype ColumnName =
    | Id | DisplayName | Email | StatusText | CreatedAt | UpdatedAt | ApplicationRole
    | UserId | Provider | ProviderSubject | ProviderTenant
    | Name | Slug | TypeText | NameStatus | SuspendedAt
    | OrganizationId | RoleText
    | ServiceId | CreatedByUserId | KeyId | KeyPrefix | SecretHash | Environment | Scopes | LastUsedAt | ExpiresAt | RevokedAt
    | ActorType | ActorId | ActionText | TargetType | TargetId | Metadata
    | StateId | CodeVerifier | ReturnUrl | SessionId

  datatype IndexName =
    | UsersEmailUnique | UsersEmailLookup | UsersRoleLookup | IdentitiesTupleUnique | OrganizationsSlugUnique
    | MembershipsPairUnique | ApiKeysKeyIdUnique

  datatype Value = Null | Text(text: string)

  datatype Declaration =
    | TextPrimaryKey
    | TextNotNull
    | TextNullable
    | TextDefault(default: string)
    | TextReferences(parent: TableName)

  type Columns = map<ColumnName, Declaration>
  type Row = map<ColumnName, Value>

  datatype Table = Table(columns: Columns, rows: map<string, Row>)

  datatype Database = Database(stamp: nat, tables: map<TableName, Table>, indexes: set<IndexName>)

  const SCHEMA_VERSION: nat := 5

  function TableOf(index: IndexName): TableName {
    match index
    case UsersEmailUnique => Users
    case UsersEmailLookup => Users
    case UsersRoleLookup => Users
    case IdentitiesTupleUnique => ExternalIdentities
    case OrganizationsSlugUnique => Organizations
    case MembershipsPairUnique => Memberships
    case ApiKeysKeyIdUnique => ApiKeys
  }

  // ----- the schema of each version -----

  /** The columns every version has. */
  function BaseColumns(table: TableName): Columns {
    match table
    case Users =>
      map[Id := TextPrimaryKey, DisplayName := TextNotNull, Email := TextNotNull, StatusText := TextNotNull,
          CreatedAt := TextNotNull, UpdatedAt := TextNotNull]
    case ExternalIdentities =>
      map[Id := TextPrimaryKey, UserId := TextReferences(Users), Provider := TextNotNull, ProviderSubject := TextNotNull,
          ProviderTenant := TextNotNull, CreatedAt := TextNotNull]
    case Organizations =>
      map[Id := TextPrimaryKey, Name := TextNotNull, Slug := TextNotNull, TypeText := TextNotNull, StatusText := TextNotNull,
          CreatedAt := TextNotNull, UpdatedAt := TextNotNull]
    case Memberships =>
      map[Id := TextPrimaryKey, OrganizationId := TextReferences(Organizations), UserId := TextReferences(Users),
          RoleText := TextNotNull, StatusText := TextNotNull, CreatedAt := TextNotNull]
    case ApiKeys =>
      map[Id := TextPrimaryKey, OrganizationId := TextReferences(Organizations), CreatedByUserId := TextReferences(Users),
          Name := TextNotNull, KeyId := TextNotNull, KeyPrefix := TextNotNull, SecretHash := TextNotNull,
          Environment := TextNotNull, Scopes := TextNotNull, StatusText := TextNotNull, CreatedAt := TextNotNull,
          LastUsedAt := TextNullable, ExpiresAt := TextNullable, RevokedAt := TextNullable]
    case AuditEvents =>
      map[Id := TextPrimaryKey, OrganizationId := TextReferences(Organizations), ActorType := TextNotNull,
          ActorId := TextNotNull, ActionText := TextNotNull, TargetType := TextNullable, TargetId := TextNullable,
          Metadata := TextNotNull, CreatedAt := TextNotNull]
    case OauthLoginStates =>
      map[StateId := TextPrimaryKey, CodeVerifier := TextNotNull, ReturnUrl := TextNotNull, ExpiresAt := TextNotNull]
    case AppSessions =>
      map[SessionId := TextPrimaryKey, UserId := TextNotNull, ExpiresAt := TextNotNull]
  }

  /** The columns of a table at a version. */
  function ColumnsAt(table: TableName, version: nat): Columns {
    var base := BaseColumns(table);
    match table
    case Users => if version >= 2 then base[ApplicationRole := TextDefault("user")] else base
    case Organizations =>
      var named := if version >= 4 then base[NameStatus := TextDefault("confirmed")] else base;
      if version >= 5 then named[SuspendedAt := TextNullable] else named
    case ApiKeys => if version >= 4 then base[ServiceId := TextDefault("vispector")] else base
    case _ => base
  }

  predicate IsSessionTable(table: TableName) {
    table.OauthLoginStates? || table.AppSessions?
  }

  function IndexesAt(version: nat): set<IndexName> {
    {IdentitiesTupleUnique, OrganizationsSlugUnique, MembershipsPairUnique, ApiKeysKeyIdUnique}
    + (if version >= 2 then {UsersEmailLookup} else {UsersEmailUnique})
    + (if version >= 3 then {UsersRoleLookup} else {})
  }

  /** The table has the version's columns, and its rows a value in each. */
  ghost predicate TableOk(name: TableName, table: Table, version: nat) {
    && table.columns == ColumnsAt(name, version)
    && forall k | k in table.rows :: table.rows[k].Keys == ColumnsAt(name, version).Keys
  }

  /** A file whose tables and indexes are those of its stamp; session tables may be missing. */
  ghost predicate HasShape(db: Database, version: nat) {
    && db.stamp == version
    && (forall t | !IsSessionTable(t) :: t in db.tables)
    && (forall t | t in db.tables :: TableOk(t, db.tables[t], version))
    && db.indexes == IndexesAt(version)
  }

  // ----- statements -----

  datatype Statement =
    | CreateTable(table: TableName, ifNotExists: bool)
    | CreateIndex(index: IndexName, ifNotExists: bool)
    | DropIndex(index: IndexName)
    | AddColumn(table: TableName, column: ColumnName, declaration: Declaration)
    | BackfillNameStatus
    | SetStamp(version: nat)

  /** What rows read in a column they were written without. */
  function DefaultOf(d: Declaration): Value {
    if d.TextDefault? then Text(d.default) else Null
  }

  function WithColumn(t: Table, column: ColumnName, d: Declaration): Table {
    Table(t.columns[column := d], map k | k in t.rows :: t.rows[k][column := DefaultOf(d)])
  }

  /** CASE WHEN type = 'personal' THEN 'placeholder' ELSE 'confirmed' END */
  function NameStatusFor(row: Row): Value {
    if TypeText in row && row[TypeText] == Text("personal") then Text("placeholder") else Text("confirmed")
  }

  function Backfilled(t: Table): Table {
    t.(rows := map k | k in t.rows :: t.rows[k][NameStatus := NameStatusFor(t.rows[k])])
  }

  /** One statement; None stands for a driver error. */
  function Execute(db: Database, s: Statement): Option<Database> {
    match s
    case CreateTable(t, ifNotExists) =>
      if t !in db.tables then Some(db.(tables := db.tables[t := Table(ColumnsAt(t, SCHEMA_VERSION), map[])]))
      else if ifNotExists then Some(db) else None
    case CreateIndex(i, ifNotExists) =>
      if i in db.indexes then (if ifNotExists then Some(db) else None)
      else if TableOf(i) !in db.tables then None
      else Some(db.(indexes := db.indexes + {i}))
    case DropIndex(i) => if i in db.indexes then Some(db.(indexes := db.indexes - {i})) else None
    case AddColumn(t, c, d) =>
      if t !in db.tables || c in db.tables[t].columns || d.TextNotNull? || d.TextPrimaryKey? then None
      else Some(db.(tables := db.tables[t := WithColumn(db.tables[t], c, d)]))
    case BackfillNameStatus =>
      if Organizations !in db.tables || NameStatus !in db.tables[Organizations].columns then None
      else Some(db.(tables := db.tables[Organizations := Backfilled(db.tables[Organizations])]))
    case SetStamp(v) => Some(db.(stamp := v))
  }

  function ExecuteAll(db: Database, ss: seq<Statement>): Option<Database> {
    if ss == [] then Some(db)
    else
      var before :- ExecuteAll(db, ss[..|ss| - 1]);
      Execute(before, ss[|ss| - 1])
  }

  function SchemaStatements(): seq<Statement> {
    [CreateTable(Users, true), CreateIndex(UsersEmailLookup, true), CreateIndex(UsersRoleLookup, true),
     CreateTable(ExternalIdentities, true), CreateIndex(IdentitiesTupleUnique, true),
     CreateTable(Organizations, true), CreateIndex(OrganizationsSlugUnique, true),
     CreateTable(Memberships, true), CreateIndex(MembershipsPairUnique, true),
     CreateTable(ApiKeys, true), CreateIndex(ApiKeysKeyIdUnique, true),
     CreateTable(AuditEvents, true), SetStamp(SCHEMA_VERSION)]
  }

  function SessionStatements(): seq<Statement> {
    [CreateTable(OauthLoginStates, true), CreateTable(AppSessions, true)]
  }

  predicate IsMigratable(version: nat) {
    1 <= version < SCHEMA_VERSION
  }

  function MigrationFrom(version: nat): seq<Statement>
    requires IsMigratable(version)
  {
    if version == 1 then
      [AddColumn(Users, ApplicationRole, TextDefault("user")), DropIndex(UsersEmailUnique),
       CreateIndex(UsersEmailLookup, false), SetStamp(2)]
    else if version == 2 then [CreateIndex(UsersRoleLookup, false), SetStamp(3)]
    else if version == 3 then
      [AddColumn(Organizations, NameStatus, TextDefault("confirmed")),
       AddColumn(ApiKeys, ServiceId, TextDefault("vispector")), BackfillNameStatus, SetStamp(4)]
    else [AddColumn(Organizations, SuspendedAt, TextNullable), SetStamp(5)]
  }

  // ----- the migration transaction -----

  /** The chain from a stamp to the current version, one migration per version. */
  function Chain(db: Database, version: nat): Option<Database>
    requires version <= SCHEMA_VERSION
    decreases SCHEMA_VERSION - version
  {
    if !IsMigratable(version) then Some(db)
    else
      var after :- ExecuteAll(db, MigrationFrom(version));
      Chain(after, version + 1)
  }

  /** Each migration's last statement stamps the next version. */
  lemma MigrationStampsNext(db: Database, version: nat)
    requires IsMigratable(version) && ExecuteAll(db, MigrationFrom(version)).Some?
    ensures ExecuteAll(db, MigrationFrom(version)).value.stamp == version + 1
  {
    var ss := MigrationFrom(version);
    assert ss[|ss| - 1] == SetStamp(version + 1);
  }

  class DatabaseFile {
    var committed: Database

    constructor (db: Database)
      ensures committed == db
    {
      committed := db;
    }

    /**
     Runs the chain on the version read before the write lock was taken. Either the whole
     chain is committed, or the file is as it was: when another opener migrated first, when
     a statement fails (faults tells at which statement the driver gives up), or when the
     statement itself is in error.
     */
    method ApplyMigration(version: nat, faults: nat -> bool) returns (ok: bool)
      requires IsMigratable(version)
      modifies this
      ensures old(committed).stamp != version ==> ok && committed == old(committed)
      ensures !ok ==> committed == old(committed)
      ensures ok && old(committed).stamp == version ==> Chain(old(committed), version) == Some(committed)
      ensures (forall n :: !faults(n)) && Chain(old(committed), version).Some? ==> ok
    {
      var working := committed;
      if working.stamp != version {
        return true;
      }
      var current, executed := version, 0;
      while current != SCHEMA_VERSION
        invariant version <= current <= SCHEMA_VERSION && working.stamp == current
        invariant committed == old(committed)
        invariant Chain(committed, version) == Chain(working, current)
        decreases SCHEMA_VERSION - current
      {
        var statements, before := MigrationFrom(current), working;
        for i := 0 to |statements|
          invariant ExecuteAll(before, statements[..i]) == Some(working)
        {
          assert statements[..i + 1][..i] == statements[..i];
          var result := Execute(working, statements[i]);
          if faults(executed) || result.None? {
            ExecuteAllFails(before, statements, i + 1);
            return false;
          }
          working, executed := result.value, executed + 1;
        }
        assert statements[..|statements|] == statements;
        MigrationStampsNext(before, current);
        var stamped := working.stamp;
        if stamped == current || (stamped != SCHEMA_VERSION && !IsMigratable(stamped)) {
          return false;
        }
        current := stamped;
      }
      committed := working;
      ok := true;
    }
  }

  lemma {:induction false} ExecuteAllFails(db: Database, ss: seq<Statement>, n: nat)
    requires n <= |ss|
    ensures ExecuteAll(db, ss[..n]).None? ==> ExecuteAll(db, ss).None?
    decreases |ss| - n
  {
    if n < |ss| {
      assert ss[..n + 1][..n] == ss[..n];
      ExecuteAllFails(db, ss, n + 1);
    } else {
      assert ss[..n] == ss;
    }
  }

  // ----- what the chain does to shape and rows -----

  /** An organization's name is a placeholder where the organization was made at a first login. */
  function StatedStatus(row: Row): Value {
    if TypeText !in row || row[TypeText] != Text("personal") then Text("confirmed") else Text("placeholder")
  }

  /** The values a row gets in the columns added on the way from one version to another. */
  function AddedValues(t: TableName, row: Row, from: nat, to: nat): Row {
    match t
    case Users => if from < 2 <= to then map[ApplicationRole := Text("user")] else map[]
    case Organizations =>
      (if from < 4 <= to then map[NameStatus := StatedStatus(row)] else map[])
      + (if from < 5 <= to then map[SuspendedAt := Null] else map[])
    case ApiKeys => if from < 4 <= to then map[ServiceId := Text("vispector")] else map[]
    case _ => map[]
  }

  /**
   A row written later without the added columns reads as a migrated one does, save the
   name of an organization made at a first login; nothing but these columns was added.
   */
  lemma DefaultsAgreeWithBackfill(t: TableName, row: Row)
    requires !(TypeText in row && row[TypeText] == Text("personal"))
    ensures var added := AddedValues(t, row, 1, 5);
            && ColumnsAt(t, 5).Keys == ColumnsAt(t, 1).Keys + added.Keys && ColumnsAt(t, 1).Keys !! added.Keys
            && forall c | c in added :: DefaultOf(ColumnsAt(t, 5)[c]) == added[c]
  {
    assert t.Users? || t.Organizations? || t.ApiKeys? || AddedValues(t, row, 1, 5) == map[];
  }

  lemma BaseReferences(t: TableName, c: ColumnName, parent: TableName)
    ensures c in BaseColumns(t) && BaseColumns(t)[c] == TextReferences(parent) <==>
              (t, c, parent) in {(ExternalIdentities, UserId, Users), (Memberships, OrganizationId, Organizations),
                                 (Memberships, UserId, Users), (ApiKeys, OrganizationId, Organizations),
                                 (ApiKeys, CreatedByUserId, Users), (AuditEvents, OrganizationId, Organizations)}
  {
  }

  /** The foreign keys of every version; session tables have none. */
  lemma DeclaredReferences(t: TableName, c: ColumnName, parent: TableName, version: nat)
    ensures c in ColumnsAt(t, version) && ColumnsAt(t, version)[c] == TextReferences(parent) <==>
              (t, c, parent) in {(ExternalIdentities, UserId, Users), (Memberships, OrganizationId, Organizations),
                                 (Memberships, UserId, Users), (ApiKeys, OrganizationId, Organizations),
                                 (ApiKeys, CreatedByUserId, Users), (AuditEvents, OrganizationId, Organizations)}
  {
    hide BaseColumns;
    BaseReferences(t, c, parent);
  }

  ghost predicate RowsExtended(name: TableName, table: Table, after: Table, from: nat, to: nat) {
    && after.rows.Keys == table.rows.Keys
    && forall k | k in table.rows :: after.rows[k] == table.rows[k] + AddedValues(name, table.rows[k], from, to)
  }

  /** Every row is kept, with its values, and extended by the stated ones. */
  ghost predicate RowsKept(db: Database, after: Database, from: nat, to: nat) {
    && after.tables.Keys == db.tables.Keys
    && forall t | t in db.tables :: RowsExtended(t, db.tables[t], after.tables[t], from, to)
  }

  lemma RunOne(db: Database, s: Statement)
    ensures ExecuteAll(db, [s]) == Execute(db, s)
  {
    assert [s][..0] == [];
  }

  lemma RunThen(db: Database, ss: seq<Statement>, s: Statement)
    ensures ExecuteAll(db, ss + [s]) == (if ExecuteAll(db, ss).None? then None else Execute(ExecuteAll(db, ss).value, s))
  {
    assert (ss + [s])[..|ss + [s]| - 1] == ss;
  }

  /** The tables a migration touches. */
  predicate Touches(version: nat, name: TableName) {
    match name
    case Users => version == 1
    case Organizations => version == 3 || version == 4
    case ApiKeys => version == 3
    case _ => false
  }

  lemma UntouchedTable(name: TableName, table: Table, version: nat)
    requires IsMigratable(version) && TableOk(name, table, version) && !Touches(version, name)
    ensures TableOk(name, table, version + 1) && RowsExtended(name, table, table, version, version + 1)
  {
    hide StatedStatus, BaseColumns;
    assert ColumnsAt(name, version) == ColumnsAt(name, version + 1);
    forall k | k in table.rows ensures AddedValues(name, table.rows[k], version, version + 1) == map[] {
    }
  }

  lemma UsersGainRole(table: Table)
    requires TableOk(Users, table, 1)
    ensures var after := WithColumn(table, ApplicationRole, TextDefault("user"));
            TableOk(Users, after, 2) && RowsExtended(Users, table, after, 1, 2)
  {
    hide BaseColumns, StatedStatus;
    assert ColumnsAt(Users, 2) == ColumnsAt(Users, 1)[ApplicationRole := TextDefault("user")];
  }

  lemma OrganizationsGainNameStatus(table: Table)
    requires TableOk(Organizations, table, 3)
    ensures var after := Backfilled(WithColumn(table, NameStatus, TextDefault("confirmed")));
            TableOk(Organizations, after, 4) && RowsExtended(Organizations, table, after, 3, 4)
  {
    hide BaseColumns, NameStatusFor, StatedStatus;
    TypeIsKept(table);
    assert ColumnsAt(Organizations, 4) == ColumnsAt(Organizations, 3)[NameStatus := TextDefault("confirmed")];
  }

  /** Adding the column does not change the type the backfill looks at. */
  lemma TypeIsKept(table: Table)
    ensures var added := WithColumn(table, NameStatus, TextDefault("confirmed"));
            forall k | k in table.rows :: NameStatusFor(added.rows[k]) == StatedStatus(table.rows[k])
  {
  }

  lemma KeysGainService(table: Table)
    requires TableOk(ApiKeys, table, 3)
    ensures var after := WithColumn(table, ServiceId, TextDefault("vispector"));
            TableOk(ApiKeys, after, 4) && RowsExtended(ApiKeys, table, after, 3, 4)
  {
    hide BaseColumns, StatedStatus;
    assert ColumnsAt(ApiKeys, 4) == ColumnsAt(ApiKeys, 3)[ServiceId := TextDefault("vispector")];
  }

  lemma OrganizationsGainSuspension(table: Table)
    requires TableOk(Organizations, table, 4)
    ensures var after := WithColumn(table, SuspendedAt, TextNullable);
            TableOk(Organizations, after, 5) && RowsExtended(Organizations, table, after, 4, 5)
  {
    hide BaseColumns, StatedStatus;
    assert ColumnsAt(Organizations, 5) == ColumnsAt(Organizations, 4)[SuspendedAt := TextNullable];
  }

  /** The columns a migration adds are not there yet. */
  lemma AddedColumnsAreNew()
    ensures ApplicationRole !in ColumnsAt(Users, 1)
    ensures NameStatus !in ColumnsAt(Organizations, 3) && ServiceId !in ColumnsAt(ApiKeys, 3)
    ensures SuspendedAt !in ColumnsAt(Organizations, 4)
  {
  }

  /** What the migration from a version does to a file of that version. */
  function Forward(db: Database, version: nat): Database
    requires IsMigratable(version) && Users in db.tables && Organizations in db.tables && ApiKeys in db.tables
  {
    if version == 1 then
      Database(2, db.tables[Users := WithColumn(db.tables[Users], ApplicationRole, TextDefault("user"))],
               db.indexes - {UsersEmailUnique} + {UsersEmailLookup})
    else if version == 2 then db.(stamp := 3, indexes := db.indexes + {UsersRoleLookup})
    else if version == 3 then
      Database(4, db.tables[Organizations := Backfilled(WithColumn(db.tables[Organizations], NameStatus, TextDefault("confirmed")))]
                           [ApiKeys := WithColumn(db.tables[ApiKeys], ServiceId, TextDefault("vispector"))],
               db.indexes)
    else
      Database(5, db.tables[Organizations := WithColumn(db.tables[Organizations], SuspendedAt, TextNullable)], db.indexes)
  }

  lemma MigrationRuns(db: Database, version: nat)
    requires IsMigratable(version) && HasShape(db, version)
    ensures ExecuteAll(db, MigrationFrom(version)) == Some(Forward(db, version))
  {
    hide ExecuteAll, NameStatusFor, ColumnsAt, WithColumn, Backfilled;
    AddedColumnsAreNew();
    assert TableOk(Users, db.tables[Users], version) && TableOk(Organizations, db.tables[Organizations], version);
    assert TableOk(ApiKeys, db.tables[ApiKeys], version);
    var ss := MigrationFrom(version);
    RunOne(db, ss[0]);
    RunThen(db, [ss[0]], ss[1]);
    if version == 2 || version == 4 {
      assert ss == [ss[0]] + [ss[1]];
    } else {
      assert ss == (([ss[0]] + [ss[1]]) + [ss[2]]) + [ss[3]];
      RunThen(db, [ss[0]] + [ss[1]], ss[2]);
      RunThen(db, ([ss[0]] + [ss[1]]) + [ss[2]], ss[3]);
      if version == 3 {
        NameStatusIsThere(db.tables[Organizations]);
        var orgs := WithColumn(db.tables[Organizations], NameStatus, TextDefault("confirmed"));
        assert db.tables[Organizations := orgs][ApiKeys := WithColumn(db.tables[ApiKeys], ServiceId, TextDefault("vispector"))]
               [Organizations := Backfilled(orgs)]
            == Forward(db, 3).tables;
      }
    }
  }

  lemma NameStatusIsThere(table: Table)
    ensures NameStatus in WithColumn(table, NameStatus, TextDefault("confirmed")).columns
  {
  }

  lemma ForwardKeeps(db: Database, version: nat)
    requires IsMigratable(version) && HasShape(db, version)
    ensures HasShape(Forward(db, version), version + 1) && RowsKept(db, Forward(db, version), version, version + 1)
  {
    hide NameStatusFor, ColumnsAt, WithColumn, Backfilled, TableOk, RowsExtended;
    var after := Forward(db, version);
    forall t | t in db.tables
      ensures TableOk(t, after.tables[t], version + 1) && RowsExtended(t, db.tables[t], after.tables[t], version, version + 1)
    {
      if !Touches(version, t) {
        UntouchedTable(t, db.tables[t], version);
      } else if version == 1 {
        UsersGainRole(db.tables[t]);
      } else if version == 4 {
        OrganizationsGainSuspension(db.tables[t]);
      } else if t == Organizations {
        OrganizationsGainNameStatus(db.tables[t]);
      } else {
        KeysGainService(db.tables[t]);
      }
    }
  }

  lemma ValuesAddUp(name: TableName, row: Row, from: nat, mid: nat)
    requires from <= mid
    ensures AddedValues(name, row, from, mid + 1)
         == AddedValues(name, row, from, mid) + AddedValues(name, row, mid, mid + 1)
    ensures TypeText in row ==> StatedStatus(row + AddedValues(name, row, from, mid)) == StatedStatus(row)
  {
  }

  lemma SameTypeSameValues(name: TableName, row: Row, row': Row, from: nat, to: nat)
    requires name == Organizations ==> StatedStatus(row) == StatedStatus(row')
    ensures AddedValues(name, row, from, to) == AddedValues(name, row', from, to)
  {
    hide StatedStatus;
  }

  lemma KeptTwice(name: TableName, a: Table, b: Table, c: Table, from: nat, mid: nat)
    requires from <= mid && (name == Organizations ==> forall k | k in a.rows :: TypeText in a.rows[k])
    requires RowsExtended(name, a, b, from, mid) && RowsExtended(name, b, c, mid, mid + 1)
    ensures RowsExtended(name, a, c, from, mid + 1)
  {
    hide StatedStatus, AddedValues;
    forall k | k in a.rows ensures c.rows[k] == a.rows[k] + AddedValues(name, a.rows[k], from, mid + 1) {
      ValuesAddUp(name, a.rows[k], from, mid);
      SameTypeSameValues(name, a.rows[k], b.rows[k], mid, mid + 1);
    }
  }

  lemma OrganizationsHaveTypes(table: Table, version: nat)
    requires TableOk(Organizations, table, version)
    ensures forall k | k in table.rows :: TypeText in table.rows[k]
  {
    forall k | k in table.rows ensures TypeText in table.rows[k] {
      assert TypeText in BaseColumns(Organizations).Keys;
      assert TypeText in ColumnsAt(Organizations, version).Keys;
    }
  }

  lemma RowsKeptTwice(db: Database, mid: Database, after: Database, from: nat, version: nat)
    requires from <= version && HasShape(db, from)
    requires RowsKept(db, mid, from, version) && RowsKept(mid, after, version, version + 1)
    ensures RowsKept(db, after, from, version + 1)
  {
    hide TableOk, RowsExtended;
    OrganizationsHaveTypes(db.tables[Organizations], from);
    forall t | t in db.tables ensures RowsExtended(t, db.tables[t], after.tables[t], from, version + 1) {
      KeptTwice(t, db.tables[t], mid.tables[t], after.tables[t], from, version);
    }
  }

  lemma NothingAdded(db: Database, version: nat)
    ensures RowsKept(db, db, version, version)
  {
    hide StatedStatus;
  }

  lemma {:induction false} ChainKeeps(db: Database, mid: Database, from: nat, version: nat)
    requires 1 <= from <= version <= SCHEMA_VERSION && HasShape(db, from) && HasShape(mid, version)
    requires RowsKept(db, mid, from, version)
    ensures Chain(mid, version).Some?
    ensures HasShape(Chain(mid, version).value, SCHEMA_VERSION) && RowsKept(db, Chain(mid, version).value, from, SCHEMA_VERSION)
    decreases SCHEMA_VERSION - version
  {
    hide HasShape, RowsKept, Forward;
    if version < SCHEMA_VERSION {
      assert Users in mid.tables && Organizations in mid.tables && ApiKeys in mid.tables by { MainTables(mid, version); }
      MigrationRuns(mid, version);
      ForwardKeeps(mid, version);
      RowsKeptTwice(db, mid, Forward(mid, version), from, version);
      ChainKeeps(db, Forward(mid, version), from, version + 1);
    }
  }

  lemma MainTables(db: Database, version: nat)
    requires HasShape(db, version)
    ensures Users in db.tables && Organizations in db.tables && ApiKeys in db.tables
  {
  }

  /**
   From every stamp the chain ends at the current shape, keeps every row, and fills the added
   columns as stated: plain users, placeholder names for personal organizations, one
   service, no suspension.
   */
  lemma ChainConverges(db: Database, version: nat)
    requires 1 <= version <= SCHEMA_VERSION && HasShape(db, version)
    ensures Chain(db, version).Some?
    ensures HasShape(Chain(db, version).value, SCHEMA_VERSION)
    ensures RowsKept(db, Chain(db, version).value, version, SCHEMA_VERSION)
  {
    hide HasShape, RowsKept;
    NothingAdded(db, version);
    ChainKeeps(db, db, version, version);
  }
}
