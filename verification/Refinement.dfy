/**
 The key-value adapter's create and provision operations refine the relational ones: one
 conditional transaction commits exactly when the statements of the SQLite transaction all
 succeed, and leaves the same rows.
 */
module Refinement {
  import opened Outcomes
  import opened Keys
  import opened Relational
  import opened Items
  import opened Transactions
  import opened Batches

  lemma EveryRowRefines(t: Tables, row: Row)
    requires Keyed(t)
    ensures RowRefines(t, row)
  {
    match row {
      case UserRow(u) => UserRowRefines(t, u);
      case IdentityRow(i) => IdentityRowRefines(t, i);
      case OrganizationRow(o) => OrganizationRowRefines(t, o);
      case MembershipRow(m) => MembershipRowRefines(t, m);
      case ApiKeyRow(k) => ApiKeyRowRefines(t, k);
      case AuditRow(e) => AuditRowRefines(t, e);
    }
  }

  predicate InTables(t: Tables, p: Parent) {
    match p
    case UserParent(id) => id in t.users
    case OrganizationParent(id) => id in t.organizations
  }

  lemma ParentAgrees(t: Tables, p: Parent)
    requires Keyed(t)
    ensures HasParent(RowsOf(t), p) <==> InTables(t, p)
  {
    ParentsAgree(t, p.id);
  }

  predicate IsPut(w: Write) {
    w.PutUser? || w.PutIdentity? || w.PutOrganization? || w.PutMembership? || w.PutApiKey? || w.PutAudit? || w.PutConstraint?
  }

  /** The parents of the item a put writes are there. */
  predicate ParentsThere(t: Tables, w: Write) {
    match w
    case PutIdentity(i) => i.userId in t.users
    case PutMembership(m) =>
      && m.membership.organizationId in t.organizations && m.membership.userId in t.users
      && m.gOrgCreated == SortKey(t.organizations[m.membership.organizationId].createdAt, m.membership.organizationId)
    case PutApiKey(k) => k.apiKey.organizationId in t.organizations && k.apiKey.createdBy in t.users
    case PutAudit(e) => e.organizationId in t.organizations
    case _ => true
  }

  lemma PutKeepsReferences(t: Tables, w: Write)
    requires ReferencesHold(t) && IsPut(w) && Holds(t, w) && ParentsThere(t, w)
    ensures ReferencesHold(Apply(t, w))
  {
    hide SortKey;
  }

  /** A row whose parents are there keeps every reference, its own included. */
  lemma PutsKeepReferences(t: Tables, row: Row)
    requires ReferencesHold(t) && Stepwise(t, PutsFor(t, row)).Some?
    requires forall i | 0 <= i < |Parents(row)| :: InTables(t, Parents(row)[i])
    ensures ReferencesHold(Stepwise(t, PutsFor(t, row)).value)
  {
    hide SortKey, IdentityText, ReferencesHold;
    var puts := PutsFor(t, row);
    assert |Parents(row)| > 0 ==> InTables(t, Parents(row)[0]);
    assert |Parents(row)| > 1 ==> InTables(t, Parents(row)[1]);
    assert ParentsThere(t, puts[0]);
    if |puts| == 1 {
      OneStep(t, puts[0]);
      PutKeepsReferences(t, puts[0]);
    } else {
      TwoSteps(t, puts[0], puts[1]);
      PutKeepsReferences(t, puts[0]);
      PutKeepsReferences(Apply(t, puts[0]), puts[1]);
    }
  }

  /** Statements that succeed have puts that succeed, step for step. */
  lemma {:induction false} InsertsHavePuts(t: Tables, rows: seq<Row>)
    requires Valid(t) && InsertAll(RowsOf(t), rows).Ok? && Unobstructed(t, rows)
    ensures var after := Stepwise(t, PutsForAll(t, rows));
            && after == Some(ApplyAll(t, PutsForAll(t, rows)))
            && Valid(after.value) && RowsOf(after.value) == InsertAll(RowsOf(t), rows).value
  {
    if rows != [] {
      var front, row := rows[..|rows| - 1], rows[|rows| - 1];
      InsertsHavePuts(t, front);
      var before := PutsForAll(t, front);
      var t' := ApplyAll(t, before);
      EveryRowRefines(t', row);
      forall i | 0 <= i < |Parents(row)| ensures InTables(t', Parents(row)[i]) {
        assert Parents(row)[i] in Parents(row);
        ParentAgrees(t', Parents(row)[i]);
      }
      PutsKeepReferences(t', row);
      StepwiseAppends(t, before, PutsFor(t', row));
      ApplyAllAppends(t, before, PutsFor(t', row));
    }
  }

  /** The parents of the last row are there once the rows before it are in. */
  lemma LastRowsParents(t: Tables, rows: seq<Row>, r: Rows)
    requires Keyed(t) && rows != [] && (forall p | IsExternal(rows, p) :: InTables(t, p))
    requires r == PlusAll(RowsOf(t), rows[..|rows| - 1])
    ensures forall p | p in Parents(rows[|rows| - 1]) :: HasParent(r, p)
  {
    hide Keyed, RowsOf, PlusAll, Creates, HasParent, InTables;
    var front, row := rows[..|rows| - 1], rows[|rows| - 1];
    forall p | p in Parents(row) ensures HasParent(r, p) {
      CreatedParents(RowsOf(t), front, p);
      ParentAgrees(t, p);
      if !Creates(front, p) {
        assert IsExternal(rows, p);
      }
    }
  }

  /** Puts that succeed, with every external parent there, have statements that succeed. */
  lemma {:induction false} PutsHaveInserts(t: Tables, rows: seq<Row>)
    requires Valid(t) && Stepwise(t, PutsForAll(t, rows)).Some?
    requires forall p | IsExternal(rows, p) :: InTables(t, p)
    ensures InsertAll(RowsOf(t), rows).Ok? && Unobstructed(t, rows)
  {
    hide Keyed, ReferencesHold, RowsOf, PutsFor, Obstructed, PlusAll, IdTaken, UniqueTaken, InTables, IsExternal, HasParent;
    if rows != [] {
      var front, row := rows[..|rows| - 1], rows[|rows| - 1];
      var before := PutsForAll(t, front);
      var t' := ApplyAll(t, before);
      StepwiseAppends(t, before, PutsFor(t', row));
      forall p | IsExternal(front, p) ensures InTables(t, p) {
        ExternalOfFront(rows, p);
      }
      PutsHaveInserts(t, front);
      InsertsHavePuts(t, front);
      EveryRowRefines(t', row);
      InsertAllAddsAll(RowsOf(t), front);
      LastRowsParents(t, rows, RowsOf(t'));
    }
  }

  lemma ExternalOfFront(rows: seq<Row>, p: Parent)
    requires rows != [] && IsExternal(rows[..|rows| - 1], p)
    ensures IsExternal(rows, p)
  {
    var front := rows[..|rows| - 1];
    var i :| 0 <= i < |front| && p in Parents(front[i]) && !Creates(front[..i], p);
    assert front[..i] == rows[..i] && front[i] == rows[i];
  }

  /** After a batch, a parent is there if it was there or the batch creates it. */
  lemma {:induction false} CreatedParents(r: Rows, rows: seq<Row>, p: Parent)
    ensures HasParent(PlusAll(r, rows), p) <==> HasParent(r, p) || Creates(rows, p)
  {
    if rows != [] {
      var front, row := rows[..|rows| - 1], rows[|rows| - 1];
      CreatedParents(r, front, p);
      CreatedByLast(rows, p);
      HasParentAfter(PlusAll(r, front), row, p);
    }
  }

  lemma CreatedByLast(rows: seq<Row>, p: Parent)
    requires rows != []
    ensures Creates(rows, p) <==> Creates(rows[..|rows| - 1], p) || Creates([rows[|rows| - 1]], p)
  {
    var front, last := rows[..|rows| - 1], [rows[|rows| - 1]];
    assert last[0] == rows[|rows| - 1];
    assert forall i | 0 <= i < |front| :: front[i] == rows[i];
  }

  lemma HasParentAfter(r: Rows, row: Row, p: Parent)
    ensures HasParent(Plus(r, row), p) <==> HasParent(r, p) || Creates([row], p)
  {
    ParentsStay(r, row);
    assert [row][0] == row;
    match row {
      case UserRow(u) => assert u in Plus(r, row).users;
      case OrganizationRow(o) => assert o in Plus(r, row).organizations;
      case _ =>
    }
  }

  // ----- the whole transaction -----

  lemma PutsForArePuts(t: Tables, row: Row)
    ensures forall i | 0 <= i < |PutsFor(t, row)| :: IsPut(PutsFor(t, row)[i])
  {
    hide SortKey, IdentityText;
  }

  lemma {:induction false} PutsForAllArePuts(t: Tables, rows: seq<Row>)
    ensures forall i | 0 <= i < |PutsForAll(t, rows)| :: IsPut(PutsForAll(t, rows)[i])
  {
    hide PutsFor, IsPut;
    if rows != [] {
      var before := PutsForAll(t, rows[..|rows| - 1]);
      PutsForAllArePuts(t, rows[..|rows| - 1]);
      PutsForArePuts(ApplyAll(t, before), rows[|rows| - 1]);
    }
  }

  /** Puts that succeed one after another never address one item twice. */
  lemma {:induction false} SuccessfulPutsAreDistinct(t: Tables, ws: seq<Write>)
    requires (forall i | 0 <= i < |ws| :: IsPut(ws[i])) && Stepwise(t, ws).Some?
    ensures DistinctTargets(ws)
    ensures forall i | 0 <= i < |ws| :: Lookup(Stepwise(t, ws).value, TargetOf(ws[i])).Some?
  {
    if ws != [] {
      var front, w := ws[..|ws| - 1], ws[|ws| - 1];
      SuccessfulPutsAreDistinct(t, front);
      var before := Stepwise(t, front).value;
      PutFillsItsTarget(before, w);
      forall i | 0 <= i < |front|
        ensures TargetOf(ws[i]) != TargetOf(w) && Lookup(Apply(before, w), TargetOf(ws[i])).Some?
      {
        assert front[i] == ws[i];
        WriteChangesItsTarget(before, w, TargetOf(ws[i]));
      }
    }
  }

  lemma PutFillsItsTarget(t: Tables, w: Write)
    requires IsPut(w)
    ensures Holds(t, w) <==> Lookup(t, TargetOf(w)).None?
    ensures Lookup(Apply(t, w), TargetOf(w)).Some?
  {
  }

  lemma {:induction false} ChecksAreListed(parents: seq<Parent>)
    ensures |ChecksFor(parents)| == |parents|
    ensures forall i | 0 <= i < |parents| :: ChecksFor(parents)[i] == CheckFor(parents[i])
  {
    if parents != [] {
      ChecksAreListed(parents[..|parents| - 1]);
    }
  }

  lemma CheckReadsParent(t: Tables, p: Parent)
    ensures Holds(t, CheckFor(p)) == InTables(t, p) && Apply(t, CheckFor(p)) == t
  {
  }

  lemma {:induction false} ChecksChangeNothing(t: Tables, parents: seq<Parent>)
    ensures ApplyAll(t, ChecksFor(parents)) == t
    ensures Stepwise(t, ChecksFor(parents)) == if forall p | p in parents :: InTables(t, p) then Some(t) else None
  {
    hide InTables, CheckFor;
    if parents != [] {
      var front, last := parents[..|parents| - 1], parents[|parents| - 1];
      ChecksChangeNothing(t, front);
      CheckReadsParent(t, last);
      assert parents == front + [last];
      assert ChecksFor(parents)[..|ChecksFor(parents)| - 1] == ChecksFor(front);
    }
  }

  /** No check addresses an item the batch puts, once the statements all succeed. */
  lemma ChecksAvoidPuts(t: Tables, rows: seq<Row>, p: Parent)
    requires Valid(t) && InsertAll(RowsOf(t), rows).Ok? && IsExternal(rows, p)
    ensures InTables(t, p)
    ensures !Creates(rows, p)
  {
    hide Keyed, ReferencesHold, RowsOf, InTables, InsertAll, Creates, PlusAll, HasParent;
    var i :| 0 <= i < |rows| && p in Parents(rows[i]) && !Creates(rows[..i], p);
    InsertedParents(RowsOf(t), rows, i, p);
    CreatedParents(RowsOf(t), rows[..i], p);
    ParentAgrees(t, p);
    if Creates(rows, p) {
      CreatedIdsAreFree(RowsOf(t), rows, p);
    }
  }

  /** A statement that succeeds finds the parents of its row. */
  lemma InsertedParents(r: Rows, rows: seq<Row>, i: nat, p: Parent)
    requires InsertAll(r, rows).Ok? && i < |rows| && p in Parents(rows[i])
    ensures HasParent(PlusAll(r, rows[..i]), p)
  {
    hide PlusAll, HasParent, Parents, IdTaken, UniqueTaken;
    assert rows[..i + 1][..i] == rows[..i];
    InsertAllPrefix(r, rows, i + 1);
    InsertAllAddsAll(r, rows[..i]);
  }

  lemma {:induction false} InsertAllPrefix(r: Rows, rows: seq<Row>, n: nat)
    requires n <= |rows| && InsertAll(r, rows).Ok?
    ensures InsertAll(r, rows[..n]).Ok?
  {
    if n < |rows| {
      assert rows[..|rows| - 1][..n] == rows[..n];
      InsertAllPrefix(r, rows[..|rows| - 1], n);
    } else {
      assert rows[..n] == rows;
    }
  }

  lemma CreatedIdsAreFree(r: Rows, rows: seq<Row>, p: Parent)
    requires InsertAll(r, rows).Ok? && Creates(rows, p)
    ensures !HasParent(r, p)
  {
    var i :| 0 <= i < |rows| && (if p.UserParent? then rows[i].UserRow? && rows[i].user.id == p.id
                                 else rows[i].OrganizationRow? && rows[i].organization.id == p.id);
    assert rows[..i + 1][..i] == rows[..i];
    InsertAllPrefix(r, rows, i + 1);
    InsertAllAddsAll(r, rows[..i]);
    CreatedParents(r, rows[..i], p);
  }

  lemma RowTargets(t: Tables, row: Row, p: Parent)
    requires !Creates([row], p)
    ensures forall i | 0 <= i < |PutsFor(t, row)| :: TargetOf(PutsFor(t, row)[i]) != TargetOf(CheckFor(p))
  {
    hide SortKey, IdentityText;
    assert [row][0] == row;
  }

  lemma {:induction false} PutTargets(t: Tables, rows: seq<Row>, p: Parent)
    requires !Creates(rows, p)
    ensures forall i | 0 <= i < |PutsForAll(t, rows)| :: TargetOf(PutsForAll(t, rows)[i]) != TargetOf(CheckFor(p))
  {
    hide PutsFor, TargetOf, CheckFor, Creates;
    if rows != [] {
      var before := PutsForAll(t, rows[..|rows| - 1]);
      CreatedByLast(rows, p);
      PutTargets(t, rows[..|rows| - 1], p);
      RowTargets(ApplyAll(t, before), rows[|rows| - 1], p);
    }
  }

  lemma ChecksDiffer(p: Parent, q: Parent)
    requires p != q
    ensures TargetOf(CheckFor(p)) != TargetOf(CheckFor(q))
  {
  }

  lemma DistinctAppend(puts: seq<Write>, parents: seq<Parent>)
    requires DistinctTargets(puts)
    requires forall i, j | 0 <= i < j < |parents| :: parents[i] != parents[j]
    requires forall i, j | 0 <= i < |puts| && 0 <= j < |parents| :: TargetOf(puts[i]) != TargetOf(CheckFor(parents[j]))
    ensures DistinctTargets(puts + ChecksFor(parents))
  {
    hide TargetOf, CheckFor, ChecksFor;
    ChecksAreListed(parents);
    var ws := puts + ChecksFor(parents);
    forall i, j | 0 <= i < j < |ws|
      ensures TargetOf(ws[i]) != TargetOf(ws[j])
    {
      if i >= |puts| {
        ChecksDiffer(parents[i - |puts|], parents[j - |puts|]);
      }
    }
  }

  lemma WritesAreDistinct(t: Tables, rows: seq<Row>, parents: seq<Parent>)
    requires Valid(t) && InsertAll(RowsOf(t), rows).Ok? && Unobstructed(t, rows) && Covers(parents, rows)
    ensures DistinctTargets(WritesFor(t, rows, parents))
  {
    hide Valid, InsertAll, Unobstructed, RowsOf, PutsForAll, TargetOf, CheckFor, IsPut, IsExternal, DistinctTargets;
    var puts := PutsForAll(t, rows);
    InsertsHavePuts(t, rows);
    PutsForAllArePuts(t, rows);
    SuccessfulPutsAreDistinct(t, puts);
    forall i, j | 0 <= i < |puts| && 0 <= j < |parents|
      ensures TargetOf(puts[i]) != TargetOf(CheckFor(parents[j]))
    {
      assert parents[j] in parents;
      ChecksAvoidPuts(t, rows, parents[j]);
      PutTargets(t, rows, parents[j]);
    }
    DistinctAppend(puts, parents);
  }

  /**
   On a valid state the transaction commits exactly when every row finds its keys free and
   its parents there and nothing obstructs it; then it adds those rows and the item state
   stays valid.
   */
  lemma BatchAddsItsRows(t: Tables, rows: seq<Row>, parents: seq<Parent>)
    requires Valid(t) && Covers(parents, rows)
    ensures var ws := WritesFor(t, rows, parents);
            && (Commits(t, ws) <==> InsertAll(RowsOf(t), rows).Ok? && Unobstructed(t, rows))
            && (Commits(t, ws) ==> Valid(ApplyAll(t, ws)) && RowsOf(ApplyAll(t, ws)) == InsertAll(RowsOf(t), rows).value)
  {
    var puts, checks := PutsForAll(t, rows), ChecksFor(parents);
    var ws := WritesFor(t, rows, parents);
    StepwiseAppends(t, puts, checks);
    ApplyAllAppends(t, puts, checks);
    ChecksChangeNothing(ApplyAll(t, puts), parents);
    if Commits(t, ws) {
      CommitIsStepwise(t, ws);
      CheckedParentsExist(t, puts, parents);
      PutsHaveInserts(t, rows);
    }
    if InsertAll(RowsOf(t), rows).Ok? && Unobstructed(t, rows) {
      WritesAreDistinct(t, rows, parents);
      InsertsHavePuts(t, rows);
      forall p | p in parents ensures InTables(ApplyAll(t, puts), p) {
        ChecksAvoidPuts(t, rows, p);
        ParentAgrees(t, p);
        InsertAllAddsAll(RowsOf(t), rows);
        CreatedParents(RowsOf(t), rows, p);
        ParentAgrees(ApplyAll(t, puts), p);
      }
      CommitIsStepwise(t, ws);
    }
  }

  /**
   The refinement: the transaction commits exactly when the SQLite transaction does and
   nothing obstructs it. Then the item state stays valid, and both leave the same rows
   exactly when no organization of the batch is suspended.
   */
  lemma BatchRefines(t: Tables, rows: seq<Row>, parents: seq<Parent>)
    requires Valid(t) && Covers(parents, rows)
    ensures var ws, inserted := WritesFor(t, rows, parents), InsertAll(RowsOf(t), StoredAll(rows));
            && (Commits(t, ws) <==> inserted.Ok? && Unobstructed(t, rows))
            && (Commits(t, ws) ==> Valid(ApplyAll(t, ws)) && RowsOf(ApplyAll(t, ws)) == PlusAll(RowsOf(t), rows))
            && (Commits(t, ws) ==> (RowsOf(ApplyAll(t, ws)) == inserted.value <==> NoneSuspended(rows)))
  {
    hide Valid, Covers, RowsOf, WritesFor, Commits, Unobstructed, StoredAll, NoneSuspended;
    BatchAddsItsRows(t, rows, parents);
    StoredInsertsAgree(RowsOf(t), rows);
    InsertAllAddsAll(RowsOf(t), rows);
    if InsertAll(RowsOf(t), rows).Ok? {
      StoredRowsAreTheGiven(RowsOf(t), rows);
    }
  }

  lemma CheckedParentsExist(t: Tables, puts: seq<Write>, parents: seq<Parent>)
    requires AllHold(t, puts + ChecksFor(parents))
    ensures forall p | p in parents :: InTables(t, p)
  {
    ChecksAreListed(parents);
    forall p | p in parents ensures InTables(t, p) {
      var i :| 0 <= i < |parents| && parents[i] == p;
      assert Holds(t, (puts + ChecksFor(parents))[|puts| + i]);
    }
  }
}
