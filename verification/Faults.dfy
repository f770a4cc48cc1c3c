/**
 Which constraint a rejected batch is blamed on. Both adapters report the error of a rule
 that the batch really breaks, so they agree whenever it breaks exactly one.
 */
module Faults {
  import opened Outcomes
  import opened Domain
  import opened Keys
  import opened Relational
  import opened Items
  import opened Transactions
  import opened Batches
  import opened Refinement

  datatype Rule = PrimaryKey | UniqueIndex | ForeignKey(parent: Parent)

  /** A declared constraint that one row of a batch breaks, given the rows before it. */
  datatype Fault = Fault(row: nat, rule: Rule)

  ghost predicate Broken(r: Rows, rows: seq<Row>, f: Fault) {
    f.row < |rows| &&
    var before, row := PlusAll(r, rows[..f.row]), rows[f.row];
    match f.rule
    case PrimaryKey => IdTaken(before, row)
    case UniqueIndex => UniqueTaken(before, row)
    case ForeignKey(p) => p in Parents(row) && !HasParent(before, p)
  }

  function FaultError(rows: seq<Row>, f: Fault): StorageError
    requires f.row < |rows|
  {
    match f.rule
    case PrimaryKey => Duplicate(EntityId)
    case UniqueIndex => Duplicate(UniqueKind(rows[f.row]))
    case ForeignKey(_) => ReferenceNotFound
  }

  /** The identity race is a duplicate of the external-identity tuple. */
  function Kind(e: StorageError): StorageError {
    if e.IdentityRace? then Duplicate(ExternalIdentityTuple) else e
  }

  /** The conflicts aligned with a row's puts; provisioning a user races on the identity tuple. */
  function ConflictsFor(row: Row, racing: bool): seq<Conflict> {
    match row
    case UserRow(_) => [DuplicateConflict(EntityId)]
    case IdentityRow(_) =>
      [DuplicateConflict(EntityId), if racing then IdentityRaceConflict else DuplicateConflict(ExternalIdentityTuple)]
    case OrganizationRow(_) => [DuplicateConflict(EntityId), DuplicateConflict(OrganizationSlug)]
    case MembershipRow(_) => [DuplicateConflict(MembershipPair), DuplicateConflict(EntityId)]
    case ApiKeyRow(_) => [DuplicateConflict(EntityId), DuplicateConflict(ApiKeySegment)]
    case AuditRow(_) => [DuplicateConflict(EntityId)]
  }

  function ConflictsForAll(rows: seq<Row>, racing: bool): seq<Conflict> {
    if rows == [] then [] else ConflictsForAll(rows[..|rows| - 1], racing) + ConflictsFor(rows[|rows| - 1], racing)
  }

  function AllConflicts(rows: seq<Row>, parents: seq<Parent>, racing: bool): seq<Conflict> {
    ConflictsForAll(rows, racing) + seq(|parents|, i => ReferenceConflict)
  }

  // ----- SQLite blames a broken rule -----

  /** A transaction is accepted exactly when it breaks nothing, and else blames a rule it breaks. */
  lemma {:induction false} StatementsBlameAFault(r: Rows, rows: seq<Row>)
    ensures InsertAll(r, rows).Ok? <==> forall f :: !Broken(r, rows, f)
    ensures InsertAll(r, rows).Err? ==>
              exists f :: Broken(r, rows, f) && InsertAll(r, rows).error == FaultError(rows, f)
  {
    if rows != [] {
      var front, n := rows[..|rows| - 1], |rows| - 1;
      StatementsBlameAFault(r, front);
      InsertAllAddsAll(r, front);
      FaultsOfFront(r, rows);
      if InsertAll(r, front).Err? {
        var f :| Broken(r, front, f) && InsertAll(r, front).error == FaultError(front, f);
        assert Broken(r, rows, f);
      } else if IdTaken(PlusAll(r, front), rows[n]) {
        assert Broken(r, rows, Fault(n, PrimaryKey));
      } else if UniqueTaken(PlusAll(r, front), rows[n]) {
        assert Broken(r, rows, Fault(n, UniqueIndex));
      } else if p :| p in Parents(rows[n]) && !HasParent(PlusAll(r, front), p) {
        assert Broken(r, rows, Fault(n, ForeignKey(p)));
      }
    }
  }

  lemma FaultsOfFront(r: Rows, rows: seq<Row>)
    requires rows != []
    ensures forall f: Fault | f.row < |rows| - 1 :: Broken(r, rows[..|rows| - 1], f) <==> Broken(r, rows, f)
  {
    forall f: Fault | f.row < |rows| - 1
      ensures Broken(r, rows[..|rows| - 1], f) <==> Broken(r, rows, f)
    {
      assert rows[..|rows| - 1][..f.row] == rows[..f.row];
    }
  }

  // ----- the transaction blames a broken rule -----

  lemma {:induction false} AddingRowsFreesNothing(r: Rows, rows: seq<Row>, row: Row)
    ensures IdTaken(r, row) ==> IdTaken(PlusAll(r, rows), row)
    ensures UniqueTaken(r, row) ==> UniqueTaken(PlusAll(r, rows), row)
  {
    if rows != [] {
      AddingRowsFreesNothing(r, rows[..|rows| - 1], row);
      AddingOneFreesNothing(PlusAll(r, rows[..|rows| - 1]), rows[|rows| - 1], row);
    }
  }

  lemma AddingOneFreesNothing(r: Rows, added: Row, row: Row)
    ensures IdTaken(r, row) ==> IdTaken(Plus(r, added), row)
    ensures UniqueTaken(r, row) ==> UniqueTaken(Plus(r, added), row)
  {
    var r' := Plus(r, added);
    assert r.users <= r'.users && r.identities <= r'.identities && r.organizations <= r'.organizations;
    assert r.memberships <= r'.memberships && r.apiKeys <= r'.apiKeys && r.audits <= r'.audits;
  }

  /** A put that fails names the key that is taken. */
  lemma FailedPut(t: Tables, t': Tables, row: Row, racing: bool, i: nat)
    requires Keyed(t) && !Obstructed(t, row)
    requires i < |PutsFor(t', row)| && !Holds(t, PutsFor(t', row)[i])
    ensures |ConflictsFor(row, racing)| == |PutsFor(t', row)|
    ensures var verdict := ConflictVerdict(ConflictsFor(row, racing)[i]);
            && verdict.Fail?
            && ((IdTaken(RowsOf(t), row) && Kind(verdict.error) == Duplicate(EntityId))
                || (UniqueTaken(RowsOf(t), row) && Kind(verdict.error) == Duplicate(UniqueKind(row))))
  {
    hide SortKey, IdentityText, UsersOk, IdentitiesOk, OrganizationsOk, MembershipsOk, ApiKeysOk, AuditsOk, SessionsOk;
    match row {
      case UserRow(u) => ParentsAgree(t, u.id);
      case IdentityRow(x) => IdentityKeysAgree(t, x);
      case OrganizationRow(o) => ParentsAgree(t, o.id); SlugsAgree(t, o.slug);
      case MembershipRow(m) => MembershipKeysAgree(t, m);
      case ApiKeyRow(k) => ApiKeysAgree(t, k);
      case AuditRow(e) => AuditIdsAgree(t, e);
    }
  }

  lemma AuditIdsAgree(t: Tables, e: AuditEvent)
    requires Keyed(t)
    ensures e.id in t.audits <==> IdTaken(RowsOf(t), AuditRow(e))
  {
    if e.id in t.audits {
      assert t.audits[e.id] in RowsOf(t).audits;
    }
  }

  lemma {:induction false} ConflictsAlign(t: Tables, rows: seq<Row>, racing: bool)
    ensures |ConflictsForAll(rows, racing)| == |PutsForAll(t, rows)|
  {
    if rows != [] {
      var front, row := rows[..|rows| - 1], rows[|rows| - 1];
      ConflictsAlign(t, front, racing);
      assert |ConflictsFor(row, racing)| == |PutsFor(ApplyAll(t, PutsForAll(t, front)), row)|;
    }
  }

  ghost predicate Blames(r: Rows, rows: seq<Row>, c: Conflict) {
    exists f :: Broken(r, rows, f) && ConflictVerdict(c).Fail? && Kind(ConflictVerdict(c).error) == FaultError(rows, f)
  }

  lemma {:induction false} FailedPutsBlameFaults(t: Tables, rows: seq<Row>, racing: bool, i: nat)
    requires Keyed(t) && forall k | 0 <= k < |rows| :: !Obstructed(t, rows[k])
    requires i < |PutsForAll(t, rows)| && !Holds(t, PutsForAll(t, rows)[i])
    ensures i < |ConflictsForAll(rows, racing)|
    ensures Blames(RowsOf(t), rows, ConflictsForAll(rows, racing)[i])
  {
    hide Keyed, RowsOf, Obstructed, PutsFor, ConflictsFor, IdTaken, UniqueTaken;
    var r, n := RowsOf(t), |rows| - 1;
    var front, row := rows[..n], rows[n];
    ConflictsAlign(t, rows, racing);
    ConflictsAlign(t, front, racing);
    if i < |PutsForAll(t, front)| {
      FailedPutsBlameFaults(t, front, racing, i);
      FaultsOfFront(r, rows);
      var c := ConflictsForAll(front, racing)[i];
      var f :| Broken(r, front, f) && ConflictVerdict(c).Fail? && Kind(ConflictVerdict(c).error) == FaultError(front, f);
      assert Broken(r, rows, f);
    } else {
      FailedPut(t, ApplyAll(t, PutsForAll(t, front)), row, racing, i - |PutsForAll(t, front)|);
      AddingRowsFreesNothing(r, front, row);
      assert IdTaken(r, row) ==> Broken(r, rows, Fault(n, PrimaryKey));
      assert UniqueTaken(r, row) ==> Broken(r, rows, Fault(n, UniqueIndex));
    }
  }

  lemma FailedCheckBlamesFault(t: Tables, rows: seq<Row>, p: Parent)
    requires Keyed(t) && IsExternal(rows, p) && !InTables(t, p)
    ensures Blames(RowsOf(t), rows, ReferenceConflict)
  {
    hide Keyed, RowsOf;
    var i :| 0 <= i < |rows| && p in Parents(rows[i]) && !Creates(rows[..i], p);
    CreatedParents(RowsOf(t), rows[..i], p);
    ParentAgrees(t, p);
    assert Broken(RowsOf(t), rows, Fault(i, ForeignKey(p)));
  }

  /** Whatever condition fails first, its descriptor reports a rule the batch breaks. */
  lemma TransactionBlamesAFault(t: Tables, rows: seq<Row>, parents: seq<Parent>, racing: bool, i: nat)
    requires Valid(t) && Covers(parents, rows) && NothingObstructs(t, rows)
    requires FirstFailure(t, WritesFor(t, rows, parents), i)
    ensures i < |AllConflicts(rows, parents, racing)|
    ensures Blames(RowsOf(t), rows, AllConflicts(rows, parents, racing)[i])
  {
    hide Keyed, ReferencesHold, RowsOf, Obstructed, Blames, IsExternal, PutsForAll, ConflictsForAll, InTables, DistinctTargets;
    ConflictsAlign(t, rows, racing);
    ChecksAreListed(parents);
    var n := |PutsForAll(t, rows)|;
    if i < n {
      FailedPutsBlameFaults(t, rows, racing, i);
    } else {
      assert parents[i - n] in parents;
      CheckReadsParent(t, parents[i - n]);
      FailedCheckBlamesFault(t, rows, parents[i - n]);
    }
  }

  // ----- one fault, one error -----

  /** The batch breaks this rule and no other. */
  ghost predicate OnlyFault(r: Rows, rows: seq<Row>, f: Fault) {
    Broken(r, rows, f) && forall g | Broken(r, rows, g) :: g == f
  }

  predicate NothingObstructs(t: Tables, rows: seq<Row>) {
    forall k | 0 <= k < |rows| :: !Obstructed(t, rows[k])
  }

  /** The verdict reports the kind of error that the statements end with. */
  predicate ReportsKind(verdict: Verdict, inserted: Result<Rows, StorageError>) {
    verdict.Fail? && inserted == Err(Kind(verdict.error))
  }

  lemma DescriptorsAlign(t: Tables, rows: seq<Row>, parents: seq<Parent>, racing: bool)
    requires rows != []
    ensures |AllConflicts(rows, parents, racing)| == |WritesFor(t, rows, parents)| > 0
  {
    ConflictsAlign(t, rows, racing);
    ChecksAreListed(parents);
    assert |ConflictsFor(rows[|rows| - 1], racing)| > 0;
  }

  /** With distinct targets, the first failed condition names the kind of the one broken rule. */
  lemma BlamesTheOneFault(t: Tables, rows: seq<Row>, parents: seq<Parent>, racing: bool, f: Fault)
    requires Valid(t) && Covers(parents, rows) && NothingObstructs(t, rows) && OnlyFault(RowsOf(t), rows, f)
    requires DistinctTargets(WritesFor(t, rows, parents))
    ensures var ws := WritesFor(t, rows, parents);
            && !AllHold(t, ws)
            && Blamed(t, ws) < |AllConflicts(rows, parents, racing)|
            && ReportsKind(ConflictVerdict(AllConflicts(rows, parents, racing)[Blamed(t, ws)]), InsertAll(RowsOf(t), rows))
  {
    hide Valid, Broken, Covers, RowsOf;
    StatementsBlameAFault(RowsOf(t), rows);
    BatchAddsItsRows(t, rows, parents);
    TransactionBlamesAFault(t, rows, parents, racing, Blamed(t, WritesFor(t, rows, parents)));
  }

  /**
   A batch with exactly one fault, evaluated, gets the same kind of error from both adapters
   exactly when its transaction addresses no item twice; otherwise it is rejected unread,
   with the base error.
   */
  lemma OneFaultOneError(a: Attempt, rows: seq<Row>, parents: seq<Parent>, racing: bool, f: Fault)
    requires Evaluated(a.weather) && Valid(a.arrival) && Covers(parents, rows)
    requires NothingObstructs(a.arrival, rows) && OnlyFault(RowsOf(a.arrival), rows, f)
    ensures var t := a.arrival;
            var ws, conflicts := WritesFor(t, rows, parents), AllConflicts(rows, parents, racing);
            && |conflicts| == |ws| > 0
            && var verdict := Judge(a, ws, conflicts);
               && verdict.Some?
               && (ReportsKind(verdict.value, InsertAll(RowsOf(t), StoredAll(rows))) <==> DistinctTargets(ws))
               && (!DistinctTargets(ws) ==> verdict.value == Fail(Failed))
  {
    hide Valid, Covers, RowsOf, WritesFor, AllConflicts, NothingObstructs, AllHold, DistinctTargets, InsertAll, StoredAll;
    var t := a.arrival;
    DescriptorsAlign(t, rows, parents, racing);
    StatementsBlameAFault(RowsOf(t), rows);
    StoredInsertsAgree(RowsOf(t), rows);
    if DistinctTargets(WritesFor(t, rows, parents)) {
      BlamesTheOneFault(t, rows, parents, racing, f);
    }
  }
}
