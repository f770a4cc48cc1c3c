/**
 Whole calls of interleaved role transitions. Whatever a call answers goes back to steps it
 took itself in the run: the commit that is its serialized transaction, the guard query that
 chose the witness it lost, the read that found nothing to do.
 */
module RoleRuns {
  import opened Outcomes
  import opened Domain
  import opened Keys
  import opened Relational
  import opened Items
  import opened Transactions
  import opened RoleTransitions
  import opened RoleOutcomes

  // ----- a transition that is answered was committed -----

  /** This step of the client commits, and is the step the serialized transaction takes there. */
  ghost predicate CommitsAsSerialized(w: World, step: Step, w': World, i: nat) {
    && step.Submit? && step.client == i && Records(w, step, w')
    && var c := w.clients[i].call;
       c.userId in w'.tables.users
       && Serialized(RowsOf(w.tables), c) == (Transitioned(FromUserItem(w'.tables.users[c.userId])), RowsOf(w'.tables))
  }

  /** The step at m is the client's commit. */
  ghost predicate CommittedAt(run: seq<World>, steps: seq<Step>, m: nat, i: nat, c: Call)
    requires |run| == |steps| + 1
  {
    m < |steps| && CommitsAsSerialized(run[m], steps[m], run[m + 1], i) && run[m].clients[i].call == c
  }

  predicate HasCommitted(phase: Phase) {
    phase.ReadingBack? || (phase.Finished? && phase.outcome.Transitioned?)
  }

  lemma SubmissionCommits(w: World, i: nat, weather: Weather, w': World)
    requires Inv(w) && Next(w, Submit(i, weather), w') && HasCommitted(w'.clients[i].phase)
    ensures CommitsAsSerialized(w, Submit(i, weather), w', i)
  {
    hide Valid, Judge, Serialized, RowsOf, Transition, ApplyAll, AllHold, DistinctTargets;
    var client := w.clients[i];
    var a, ws := Attempt(w.tables, weather), RoleWrites(client.call, client.phase.pinned);
    RolesAlign(client.call, client.phase.pinned);
    assert Judge(a, ws, RoleConflicts(client.phase.pinned)).None?;
    CommittedWhenUnjudged(a, ws, RoleConflicts(client.phase.pinned));
    CommittedTransition(w.tables, client.call, client.phase.pinned);
    CommitIsSerializedStep(w.tables, client);
  }

  lemma CommittedWhenUnjudged(a: Attempt, ws: seq<Write>, conflicts: seq<Conflict>)
    requires |conflicts| == |ws| > 0 && Judge(a, ws, conflicts).None?
    ensures Commits(a.arrival, ws) && a.weather.Clear? && ItemsAfter(a, ws) == ApplyAll(a.arrival, ws)
  {
  }

  /** A call gets to its read-back by committing, and in no other way. */
  lemma GetsToCommit(w: World, step: Step, w': World, i: nat)
    requires Inv(w) && Next(w, step, w') && i in w'.clients && HasCommitted(w'.clients[i].phase)
    ensures i in w.clients && w.clients[i].call == w'.clients[i].call
    ensures HasCommitted(w.clients[i].phase) || CommitsAsSerialized(w, step, w', i)
  {
    hide Valid, CommitsAsSerialized, Judge, ItemsAfter, AfterVerdict;
    if step.Submit? && step.client == i {
      SubmissionCommits(w, i, step.weather, w');
      CallStays(w, step, w', i);
    } else if step.Submit? {
      CallStays(w, step, w', i);
    }
  }

  lemma CallStays(w: World, step: Step, w': World, i: nat)
    requires Next(w, step, w') && i in w.clients
    ensures i in w'.clients && w'.clients[i].call == w.clients[i].call
    ensures (step.Begin? || step.Elsewhere? || step.client != i) ==> w'.clients[i] == w.clients[i]
  {
    hide Judge, ItemsAfter, AfterVerdict;
  }

  /**
   A call that answers with a transition, or is about to, has a commit of its own behind it,
   which is the serialized transaction at that point of the run: same outcome, same rows.
   */
  lemma {:induction false} TransitionedWasSerialized(run: seq<World>, steps: seq<Step>, n: nat, i: nat)
    requires IsRun(run, steps) && Inv(run[0]) && i !in run[0].clients
    requires n < |run| && i in run[n].clients && HasCommitted(run[n].clients[i].phase)
    ensures exists m: nat :: m < n && CommittedAt(run, steps, m, i, run[n].clients[i].call)
  {
    hide Next, Inv, CommitsAsSerialized, HasCommitted;
    RunKeepsInv(run, steps, n - 1);
    GetsToCommit(run[n - 1], steps[n - 1], run[n], i);
    if HasCommitted(run[n - 1].clients[i].phase) {
      TransitionedWasSerialized(run, steps, n - 1, i);
    } else {
      assert CommittedAt(run, steps, n - 1, i, run[n].clients[i].call);
    }
  }

  predicate IsPastCommit(phase: Phase) {
    phase.ReadingBack? || phase.Finished?
  }

  lemma {:induction false} StaysPastCommit(run: seq<World>, steps: seq<Step>, m: nat, n: nat, i: nat)
    requires IsRun(run, steps) && m <= n < |run| && i in run[m].clients && IsPastCommit(run[m].clients[i].phase)
    ensures i in run[n].clients && IsPastCommit(run[n].clients[i].phase) && run[n].clients[i].call == run[m].clients[i].call
  {
    if m < n {
      StaysPastCommit(run, steps, m, n - 1, i);
      CallStays(run[n - 1], steps[n - 1], run[n], i);
    }
  }

  /** A call commits at most once. */
  lemma CommitsOnce(run: seq<World>, steps: seq<Step>, m: nat, n: nat, i: nat, c: Call)
    requires IsRun(run, steps) && CommittedAt(run, steps, m, i, c) && CommittedAt(run, steps, n, i, c)
    ensures m == n
  {
    hide Next, CommitsAsSerialized;
    if m > n {
      CommitsOnce(run, steps, n, m, i, c);
    } else if m < n {
      CommitIsPast(run[n], steps[n], run[n + 1], i);
      CommitIsPast(run[m], steps[m], run[m + 1], i);
      StaysPastCommit(run, steps, m + 1, n, i);
    }
  }

  lemma CommitIsPast(w: World, step: Step, w': World, i: nat)
    requires Next(w, step, w') && CommitsAsSerialized(w, step, w', i)
    ensures i in w.clients && w.clients[i].phase.Writing?
    ensures i in w'.clients && w'.clients[i].phase.ReadingBack? && w'.clients[i].call == w.clients[i].call
  {
    hide Serialized, RowsOf, Transition, Judge, ItemsAfter;
    assert |w'.log| == |w.log| + 1;
  }

  // ----- what the read-back answers -----

  lemma NextKeepsUsers(w: World, step: Step, w': World, k: string)
    requires Inv(w) && Next(w, step, w') && k in w.tables.users
    ensures k in w'.tables.users && w'.tables.users[k].status == w.tables.users[k].status
    ensures w'.tables.users[k].role == w.tables.users[k].role || (Records(w, step, w') && w.clients[step.client].call.userId == k)
  {
    hide Valid, Submitted;
    ChangesAreRecorded(w, step, w');
  }

  /** Another call's committed transition of this user. */
  ghost predicate TransitionsElse(w: World, step: Step, w': World, i: nat, k: string) {
    Records(w, step, w') && step.client != i && w.clients[step.client].call.userId == k
  }

  /** The user reads differently after the step. */
  ghost predicate Touches(w: World, w': World, k: string) {
    && k in w.tables.users && k in w'.tables.users
    && FromUserItem(w.tables.users[k]) != FromUserItem(w'.tables.users[k])
  }

  /** From the commit on, the user stays, and reads as committed unless a step in between says otherwise. */
  lemma {:induction false} SinceTheCommit(run: seq<World>, steps: seq<Step>, m: nat, n: nat, i: nat, k: string)
    requires IsRun(run, steps) && Inv(run[0]) && m <= n < |run| && k in run[m].tables.users
    requires i in run[m].clients && IsPastCommit(run[m].clients[i].phase)
    ensures k in run[n].tables.users && run[n].tables.users[k].status == run[m].tables.users[k].status
    ensures FromUserItem(run[n].tables.users[k]) == FromUserItem(run[m].tables.users[k])
            || exists p :: m <= p < n && Touches(run[p], run[p + 1], k)
    ensures run[n].tables.users[k].role == run[m].tables.users[k].role
            || exists p :: m <= p < n && TransitionsElse(run[p], steps[p], run[p + 1], i, k)
  {
    hide Next, Inv, Records, FromUserItem;
    if m < n {
      SinceTheCommit(run, steps, m, n - 1, i, k);
      RunKeepsInv(run, steps, n - 1);
      NextKeepsUsers(run[n - 1], steps[n - 1], run[n], k);
      StaysPastCommit(run, steps, m, n - 1, i);
      if Records(run[n - 1], steps[n - 1], run[n]) {
        OthersRecord(run[n - 1], steps[n - 1], run[n], i);
      }
      assert Touches(run[n - 1], run[n], k)
          || FromUserItem(run[n].tables.users[k]) == FromUserItem(run[n - 1].tables.users[k]);
    }
  }

  lemma OthersRecord(w: World, step: Step, w': World, i: nat)
    requires Next(w, step, w') && Records(w, step, w') && i in w.clients && IsPastCommit(w.clients[i].phase)
    ensures step.client != i
  {
    hide Transition, Submitted;
  }

  /** What relates an answer read at n to the call's commit at m. */
  ghost predicate AnswersFor(run: seq<World>, steps: seq<Step>, m: nat, n: nat, i: nat, c: Call, answer: User)
    requires |run| == |steps| + 1 && n < |run|
  {
    && m < n && CommittedAt(run, steps, m, i, c) && c.userId in run[m + 1].tables.users
    && var committed := run[m + 1].tables.users[c.userId];
       && answer.id == c.userId && answer.status == committed.status
       && (answer.role == c.role || exists p :: m < p < n && TransitionsElse(run[p], steps[p], run[p + 1], i, c.userId))
       && (Serialized(RowsOf(run[m].tables), c).0 == Transitioned(answer) <==> answer == FromUserItem(committed))
       && (answer == FromUserItem(committed) || exists p :: m < p < n && Touches(run[p], run[p + 1], c.userId))
  }

  /**
   The read-back never fails. It answers how the user reads at that moment: still there, with
   the status it had at the commit, and with the role asked for unless another committed
   transition of that user came between. That is the serialized answer exactly when the user
   still reads as the commit left it, as it does when no step in between has touched it.
   */
  lemma ReadBackAnswers(run: seq<World>, steps: seq<Step>, n: nat, i: nat)
    requires IsRun(run, steps) && Inv(run[0]) && i !in run[0].clients && n < |steps| && steps[n] == ReadBack(i)
    ensures i in run[n].clients && i in run[n + 1].clients && run[n].clients[i].call.userId in run[n].tables.users
    ensures run[n + 1].clients[i].phase
         == Finished(Transitioned(FromUserItem(run[n].tables.users[run[n].clients[i].call.userId])))
    ensures exists m: nat :: AnswersFor(run, steps, m, n, i, run[n].clients[i].call,
                                        FromUserItem(run[n].tables.users[run[n].clients[i].call.userId]))
  {
    hide Inv, CommitsAsSerialized, TransitionsElse, Touches, Serialized, RowsOf, FromUserItem, Submitted, IsFormed;
    assert Next(run[n], steps[n], run[n + 1]);
    TransitionedWasSerialized(run, steps, n, i);
    var c := run[n].clients[i].call;
    var m: nat :| m < n && CommittedAt(run, steps, m, i, c);
    RunKeepsInv(run, steps, n);
    CommitLeaves(run[m], steps[m], run[m + 1], i);
    CommitIsPast(run[m], steps[m], run[m + 1], i);
    SinceTheCommit(run, steps, m + 1, n, i, c.userId);
    ReadsItsId(run[n], c.userId);
    ReadsItsRole(run[n], c.userId);
    assert AnswersFor(run, steps, m, n, i, c, FromUserItem(run[n].tables.users[c.userId]));
  }

  lemma CommitLeaves(w: World, step: Step, w': World, i: nat)
    requires CommitsAsSerialized(w, step, w', i)
    ensures i in w.clients
    ensures var c := w.clients[i].call;
            && c.userId in w'.tables.users && w'.tables.users[c.userId].role == Some(c.role)
            && Serialized(RowsOf(w.tables), c).0 == Transitioned(FromUserItem(w'.tables.users[c.userId]))
  {
    hide Serialized, RowsOf;
  }

  lemma ReadsItsId(w: World, k: string)
    requires Inv(w) && k in w.tables.users
    ensures FromUserItem(w.tables.users[k]).id == k
  {
  }

  lemma ReadsItsRole(w: World, k: string)
    requires k in w.tables.users
    ensures FromUserItem(w.tables.users[k]).status == w.tables.users[k].status
    ensures w.tables.users[k].role.Some? ==> FromUserItem(w.tables.users[k]).role == w.tables.users[k].role.value
  {
  }

  // ----- refusals at commit -----

  /** The client waits to write behind this witness. */
  predicate Pins(w: World, i: nat, id: string) {
    i in w.clients && w.clients[i].phase == Writing(Some(id))
  }

  /** The client's own query at m chose the witness, and the client has waited behind it until n. */
  ghost predicate ChosenAt(run: seq<World>, steps: seq<Step>, m: nat, n: nat, i: nat, id: string)
    requires |run| == |steps| + 1 && n < |run|
  {
    && m < n && steps[m].Query? && steps[m].client == i && i in run[m].clients
    && AfterQuery(run[m].clients[i].call, steps[m].answer) == Writing(Some(id))
    && forall k | m < k <= n :: Pins(run[k], i, id)
  }

  lemma OnlyQueriesPin(w: World, step: Step, w': World, i: nat, id: string)
    requires Next(w, step, w') && Pins(w', i, id)
    ensures Pins(w, i, id)
            || (step.Query? && step.client == i && i in w.clients
                && AfterQuery(w.clients[i].call, step.answer) == Writing(Some(id)))
  {
    hide Judge, ItemsAfter, AfterQuery;
  }

  lemma {:induction false} PinnedByOwnQuery(run: seq<World>, steps: seq<Step>, n: nat, i: nat, id: string)
    requires IsRun(run, steps) && i !in run[0].clients && n < |run| && Pins(run[n], i, id)
    ensures exists m: nat :: ChosenAt(run, steps, m, n, i, id)
  {
    hide Next, AfterQuery;
    OnlyQueriesPin(run[n - 1], steps[n - 1], run[n], i, id);
    if Pins(run[n - 1], i, id) {
      PinnedByOwnQuery(run, steps, n - 1, i, id);
      var m: nat :| ChosenAt(run, steps, m, n - 1, i, id);
      assert ChosenAt(run, steps, m, n, i, id);
    } else {
      assert ChosenAt(run, steps, n - 1, n, i, id);
    }
  }

  /** Why a submission at n was refused: the witness chosen at m is one no longer, by another call's demotion. */
  ghost predicate LostWitness(run: seq<World>, steps: seq<Step>, m: nat, n: nat, i: nat, id: string)
    requires |run| == |steps| + 1 && n < |run|
  {
    && ChosenAt(run, steps, m, n, i, id) && !IsActiveAdmin(run[n].tables, id)
    && (IsActiveAdmin(run[m].tables, id) ==>
          exists p :: m < p < n && Demotes(run[p], steps[p], run[p + 1], id) && steps[p].client != i)
  }

  lemma NotItsOwnStep(w: World, step: Step, w': World, i: nat, id: string)
    requires Next(w, step, w') && Pins(w, i, id) && Pins(w', i, id) && step.Submit?
    ensures step.client != i
  {
    hide Judge, ItemsAfter;
  }

  /**
   A call refused at commit as the last active administrator had chosen its witness by its own
   query, has waited behind it since, and finds it an active administrator no longer; if the
   index was right about it then, another call's committed demotion of it came in between.
   */
  lemma RefusalIsExplained(run: seq<World>, steps: seq<Step>, n: nat, i: nat)
    requires IsRun(run, steps) && Inv(run[0]) && i !in run[0].clients && n < |steps|
    requires steps[n].Submit? && steps[n].client == i && i in run[n + 1].clients
    requires run[n + 1].clients[i].phase == Finished(Refused(LastActiveAdministrator))
    ensures exists id, m: nat :: LostWitness(run, steps, m, n, i, id)
    ensures run[n + 1].tables == run[n].tables && run[n + 1].log == run[n].log
  {
    hide Inv, Submitted, IsActiveAdmin, Demotes, AfterQuery, ChosenAt;
    assert Next(run[n], steps[n], run[n + 1]);
    RefusalLostItsWitness(run[n], i, steps[n].weather, run[n + 1]);
    var id := run[n].clients[i].phase.pinned.value;
    PinnedByOwnQuery(run, steps, n, i, id);
    var m: nat :| ChosenAt(run, steps, m, n, i, id);
    ChosenBefore(run, steps, m, n, i, id);
    if IsActiveAdmin(run[m].tables, id) {
      WitnessDemotedByOthers(run, steps, m, n, i, id);
    }
    assert LostWitness(run, steps, m, n, i, id);
  }

  lemma ChosenBefore(run: seq<World>, steps: seq<Step>, m: nat, n: nat, i: nat, id: string)
    requires |run| == |steps| + 1 && n < |run| && ChosenAt(run, steps, m, n, i, id)
    ensures m < n
  {
    hide AfterQuery;
  }

  lemma WitnessDemotedByOthers(run: seq<World>, steps: seq<Step>, m: nat, n: nat, i: nat, id: string)
    requires IsRun(run, steps) && Inv(run[0]) && n < |steps| && ChosenAt(run, steps, m, n, i, id)
    requires IsActiveAdmin(run[m].tables, id) && !IsActiveAdmin(run[n].tables, id)
    ensures exists p :: m < p < n && Demotes(run[p], steps[p], run[p + 1], id) && steps[p].client != i
  {
    hide Inv, Next, IsActiveAdmin, Demotes, AfterQuery;
    LostWitnessWasDemoted(run, steps, m, n, id);
    var p: int :| m <= p < n && Demotes(run[p], steps[p], run[p + 1], id);
    DemotionsSubmit(run[p], steps[p], run[p + 1], id);
    NotItsOwnStep(run[p], steps[p], run[p + 1], i, id);
  }

  lemma DemotionsSubmit(w: World, step: Step, w': World, id: string)
    requires Demotes(w, step, w', id)
    ensures step.Submit?
  {
  }

  // ----- every other answer -----

  /** The client's own step ends its call with this outcome. */
  predicate Ends(w: World, step: Step, w': World, i: nat, o: Outcome) {
    && !step.Elsewhere? && step.client == i && i in w.clients && !w.clients[i].phase.Finished?
    && i in w'.clients && w'.clients[i].call == w.clients[i].call && w'.clients[i].phase == Finished(o)
  }

  /** The step at m ends the call. */
  predicate EndedAt(run: seq<World>, steps: seq<Step>, m: nat, i: nat, c: Call, o: Outcome)
    requires |run| == |steps| + 1
  {
    m < |steps| && Ends(run[m], steps[m], run[m + 1], i, o) && run[m].clients[i].call == c
  }

  lemma {:induction false} EndedByOwnStep(run: seq<World>, steps: seq<Step>, n: nat, i: nat)
    requires IsRun(run, steps) && i !in run[0].clients && n < |run|
    requires i in run[n].clients && run[n].clients[i].phase.Finished?
    ensures exists m: nat :: m < n && EndedAt(run, steps, m, i, run[n].clients[i].call, run[n].clients[i].phase.outcome)
  {
    hide Next;
    var w, step, w' := run[n - 1], steps[n - 1], run[n];
    assert Next(w, step, w');
    LastStep(w, step, w', i);
    if i in w.clients && w.clients[i].phase.Finished? {
      EndedByOwnStep(run, steps, n - 1, i);
    } else {
      assert EndedAt(run, steps, n - 1, i, w'.clients[i].call, w'.clients[i].phase.outcome);
    }
  }

  lemma LastStep(w: World, step: Step, w': World, i: nat)
    requires Next(w, step, w') && i in w'.clients && w'.clients[i].phase.Finished?
    ensures i in w.clients && w.clients[i].call == w'.clients[i].call
    ensures w.clients[i] == w'.clients[i] || Ends(w, step, w', i, w'.clients[i].phase.outcome)
  {
    hide Judge, ItemsAfter, AfterVerdict;
  }

  /** Outcomes that tell of the store as it was: all but a transition, a lost witness and the base error. */
  predicate TellsOfTheStore(o: Outcome) {
    o.NoChange? || (o.Refused? && o.error != LastActiveAdministrator && o.error != Failed)
  }

  lemma RefusedSubmission(w: World, i: nat, weather: Weather, w': World, e: StorageError)
    requires Inv(w) && Next(w, Submit(i, weather), w') && Ends(w, Submit(i, weather), w', i, Refused(e))
    requires e != LastActiveAdministrator && e != Failed
    ensures Serialized(RowsOf(w.tables), w.clients[i].call) == (Refused(e), RowsOf(w.tables)) && w'.tables == w.tables
  {
    hide SortKey, IdentityText, UpdateRole, Insert, Serialized, RowsOf, Valid;
    var client := w.clients[i];
    var c, pinned := client.call, client.phase.pinned;
    var ws, conflicts := RoleWrites(c, pinned), RoleConflicts(pinned);
    assert Judge(Attempt(w.tables, weather), ws, conflicts) == Some(Fail(e));
    FirstFailed(w.tables, c, pinned);
    RefusedInsert(w.tables, c, pinned, e);
  }

  /** Which condition is blamed, and what holds ahead of it. */
  lemma FirstFailed(t: Tables, c: Call, pinned: Option<string>)
    requires !AllHold(t, RoleWrites(c, pinned))
    ensures |RoleConflicts(pinned)| == |RoleWrites(c, pinned)|
    ensures var conflict := RoleConflicts(pinned)[Blamed(t, RoleWrites(c, pinned))];
            && (conflict != LastAdminConflict && pinned.Some? ==> IsActiveAdmin(t, pinned.value))
            && (conflict == DuplicateConflict(EntityId) || conflict == ReferenceConflict ==>
                  c.userId in t.users && t.users[c.userId].role == Some(c.expected))
            && (conflict == DuplicateConflict(EntityId) ==> c.audit.id in t.audits)
            && (conflict == ReferenceConflict ==> c.audit.id !in t.audits && c.audit.organizationId !in t.organizations)
            && (conflict == DuplicateConflict(EntityId) || conflict == ReferenceConflict || conflict == RoleCasConflict
                || conflict == LastAdminConflict)
  {
    hide AllHold;
    var ws := RoleWrites(c, pinned);
    var n := |ws| - 3;
    assert ws[n] == SetRole(c.userId, c.expected, c.role, c.at) && ws[n + 1] == PutAudit(c.audit);
    assert ws[n + 2] == RequireOrganization(c.audit.organizationId);
    assert pinned.Some? ==> n == 1 && ws[0] == RequireActiveAdmin(pinned.value);
    assert FirstFailure(t, ws, Blamed(t, ws));
  }

  /** The serialized transaction gets as far as the event, and is refused there for the same reason. */
  lemma RefusedInsert(t: Tables, c: Call, pinned: Option<string>, e: StorageError)
    requires Valid(t) && IsFormed(c) && c.userId in t.users && t.users[c.userId].role == Some(c.expected)
    requires match pinned
             case Some(id) => id != c.userId && IsActiveAdmin(t, id)
             case None => IsDemotion(c) ==> t.users[c.userId].status == Disabled
    requires (e == Duplicate(EntityId) && c.audit.id in t.audits)
             || (e == ReferenceNotFound && c.audit.id !in t.audits && c.audit.organizationId !in t.organizations)
    ensures Serialized(RowsOf(t), c) == (Refused(e), RowsOf(t))
  {
    hide SortKey, IdentityText, Keyed, ReferencesHold, UpdateRole, Insert;
    SerializedHere(t, c);
    AdminsAgree(t, c.userId);
    EventRefused(t, c, e);
  }

  lemma EventRefused(t: Tables, c: Call, e: StorageError)
    requires Keyed(t)
    requires (e == Duplicate(EntityId) && c.audit.id in t.audits)
             || (e == ReferenceNotFound && c.audit.id !in t.audits && c.audit.organizationId !in t.organizations)
    ensures Insert(UpdateRole(RowsOf(t), c), AuditRow(c.audit)) == Err(e)
  {
    hide SortKey, IdentityText, UsersOk, IdentitiesOk, OrganizationsOk, MembershipsOk, ApiKeysOk;
    ParentsAgree(t, c.audit.organizationId);
    assert Parents(AuditRow(c.audit)) == [OrganizationParent(c.audit.organizationId)];
    assert UpdateRole(RowsOf(t), c).organizations == RowsOf(t).organizations;
    assert UpdateRole(RowsOf(t), c).audits == RowsOf(t).audits;
    if c.audit.id in t.audits {
      assert t.audits[c.audit.id] in RowsOf(t).audits;
    }
    assert OrganizationParent(c.audit.organizationId) in Parents(AuditRow(c.audit));
  }

  /** An answer that tells of the store is the serialized transaction's at the step that gives it. */
  lemma AnswerIsSerialized(w: World, step: Step, w': World, i: nat, o: Outcome)
    requires Inv(w) && Next(w, step, w') && Ends(w, step, w', i, o) && TellsOfTheStore(o)
    ensures Serialized(RowsOf(w.tables), w.clients[i].call) == (o, RowsOf(w.tables)) && w'.tables == w.tables
  {
    hide Valid, Serialized, RowsOf, Submitted;
    var c := w.clients[i].call;
    match step {
      case Submit(_, weather) =>
        SubmissionEnds(w, i, weather, w', o);
        RefusedSubmission(w, i, weather, w', o.error);
      case Query(_, _) => assert false;
      case _ => ReadAnswers(w, c, o);
    }
  }

  lemma SubmissionEnds(w: World, i: nat, weather: Weather, w': World, o: Outcome)
    requires Next(w, Submit(i, weather), w') && Ends(w, Submit(i, weather), w', i, o)
    ensures o.Refused?
  {
    hide Judge, ItemsAfter;
  }

  lemma ReadAnswers(w: World, c: Call, o: Outcome)
    requires Inv(w) && IsFormed(c) && TellsOfTheStore(o)
    requires AfterRead(w.tables, c) == Finished(o) || AfterResolve(w.tables, c) == Finished(o)
             || AfterReadBack(w.tables, c) == Finished(o)
    ensures Serialized(RowsOf(w.tables), c) == (o, RowsOf(w.tables))
  {
    hide Keyed, ReferencesHold, RowsOf, SerializedOn;
    if o.NoChange? {
      NoChangeIsSerializedNoOp(w.tables, c, o.user);
    } else {
      SerializedHere(w.tables, c);
    }
  }

  /**
   Every finished call that reports no change, a missing user, a missing organization or a
   taken event id answers what the serialized transaction answers at a point of the run
   inside the call, where both leave the rows alone.
   */
  lemma AnswersAreSerialized(run: seq<World>, steps: seq<Step>, n: nat, i: nat)
    requires IsRun(run, steps) && Inv(run[0]) && i !in run[0].clients && n < |run|
    requires i in run[n].clients && run[n].clients[i].phase.Finished? && TellsOfTheStore(run[n].clients[i].phase.outcome)
    ensures exists m: nat ::
              && m < n && EndedAt(run, steps, m, i, run[n].clients[i].call, run[n].clients[i].phase.outcome)
              && run[m + 1].tables == run[m].tables
              && Serialized(RowsOf(run[m].tables), run[n].clients[i].call)
                 == (run[n].clients[i].phase.outcome, RowsOf(run[m].tables))
  {
    hide Inv, Next, Serialized, RowsOf, Ends, TellsOfTheStore;
    var c, o := run[n].clients[i].call, run[n].clients[i].phase.outcome;
    EndedByOwnStep(run, steps, n, i);
    var m: nat :| m < n && EndedAt(run, steps, m, i, c, o);
    RunKeepsInv(run, steps, m);
    AnswerIsSerialized(run[m], steps[m], run[m + 1], i, o);
  }

  // ----- refusals at the guard -----

  /**
   A call refused by its query alone is a demotion of an active user, and the answer listed
   no other active administrator.
   */
  lemma GuardRefusals(w: World, step: Step, w': World, i: nat)
    requires Inv(w) && Next(w, step, w') && step.Query? && Ends(w, step, w', i, Refused(LastActiveAdministrator))
    ensures IsDemotion(w.clients[i].call) && IsActiveUser(w.tables, w.clients[i].call.userId)
    ensures forall u | u in step.answer :: u.id == w.clients[i].call.userId || u.gRole != Some(Admin) || u.status != Active
  {
    hide Valid;
    assert ClientOk(w.tables, w.clients[i]);
    OthersAreOthers(step.answer, w.clients[i].call.userId);
  }

  // ----- the base error -----

  /** Contention, alone or over conditions that all hold, turns a submission away. */
  predicate TurnedAway(t: Tables, client: Client, weather: Weather)
    requires client.phase.Writing?
  {
    weather.Contended? || (weather.Disturbed? && AllHold(t, RoleWrites(client.call, client.phase.pinned)))
  }

  /**
   The causes of the base error: a service that does not evaluate the submission, the fifth
   one turned away, or a compare-and-swap lost to something that left another role than asked.
   */
  predicate FailsFor(w: World, step: Step, i: nat)
    requires i in w.clients
  {
    var client := w.clients[i];
    match step
    case Submit(j, weather) =>
      && j == i && client.phase.Writing?
      && (weather.Overloaded? || weather.Faulty?
          || (client.attempts + 1 == 5 && TurnedAway(w.tables, client, weather)))
    case Resolve(j) =>
      && j == i && client.phase.Resolving? && client.call.userId in w.tables.users
      && FromUserItem(w.tables.users[client.call.userId]).role != client.call.role
    case _ => false
  }

  /** What a submission is told when it does not commit. */
  lemma SubmissionVerdicts(w: World, i: nat, weather: Weather)
    requires Inv(w) && i in w.clients && w.clients[i].phase.Writing?
    ensures var client := w.clients[i];
            var ws, conflicts := RoleWrites(client.call, client.phase.pinned), RoleConflicts(client.phase.pinned);
            && |conflicts| == |ws| > 0
            && var verdict := Judge(Attempt(w.tables, weather), ws, conflicts);
               && (verdict == Some(Fail(Failed)) <==> weather.Overloaded? || weather.Faulty?)
               && (verdict == Some(Retry) <==> TurnedAway(w.tables, client, weather))
               && (verdict == Some(RoleCasMiss) ==>
                     Evaluated(weather)
                     && !(client.call.userId in w.tables.users
                          && w.tables.users[client.call.userId].role == Some(client.call.expected)))
  {
    hide Valid, AllHold, DistinctTargets, Reasons, MixedReasons;
    var client := w.clients[i];
    var ws := RoleWrites(client.call, client.phase.pinned);
    assert ClientOk(w.tables, client);
    RolesAlign(client.call, client.phase.pinned);
    CommitConditions(w.tables, client.call, client.phase.pinned);
    if !AllHold(w.tables, ws) {
      FirstFailed(w.tables, client.call, client.phase.pinned);
      CasMissed(w.tables, client.call, client.phase.pinned);
    }
  }

  lemma CasMissed(t: Tables, c: Call, pinned: Option<string>)
    requires !AllHold(t, RoleWrites(c, pinned))
    ensures |RoleConflicts(pinned)| == |RoleWrites(c, pinned)|
    ensures RoleConflicts(pinned)[Blamed(t, RoleWrites(c, pinned))] == RoleCasConflict ==>
              !(c.userId in t.users && t.users[c.userId].role == Some(c.expected))
  {
    hide AllHold;
    var ws := RoleWrites(c, pinned);
    var b := Blamed(t, ws);
    if RoleConflicts(pinned)[b] == RoleCasConflict {
      assert ws[b] == SetRole(c.userId, c.expected, c.role, c.at);
      assert !Holds(t, ws[b]);
    }
  }

  /** A step ends a call in the base error exactly for one of these causes. */
  lemma BaseErrorHasItsCause(w: World, step: Step, w': World, i: nat)
    requires Inv(w) && Next(w, step, w') && i in w.clients && !w.clients[i].phase.Finished?
    ensures Ends(w, step, w', i, Refused(Failed)) <==> FailsFor(w, step, i)
  {
    hide Valid, Judge, ItemsAfter, RoleWrites, RoleConflicts, AllHold;
    assert ClientOk(w.tables, w.clients[i]);
    CallStays(w, step, w', i);
    match step {
      case Submit(j, weather) =>
        if j == i {
          SubmissionVerdicts(w, i, weather);
        }
      case _ =>
    }
  }

  // ----- how often a call submits -----

  predicate IsSubmission(step: Step, i: nat) {
    step.Submit? && step.client == i
  }

  /** The submissions of one client among the first n steps. */
  function Submissions(steps: seq<Step>, n: nat, i: nat): nat
    requires n <= |steps|
  {
    if n == 0 then 0 else Submissions(steps, n - 1, i) + if IsSubmission(steps[n - 1], i) then 1 else 0
  }

  predicate MayStillWrite(phase: Phase) {
    phase.Reading? || phase.Guarding? || phase.Writing?
  }

  /** Every submission of the client so far was turned away. */
  ghost predicate AllTurnedAway(run: seq<World>, steps: seq<Step>, n: nat, i: nat)
    requires |run| == |steps| + 1 && n <= |steps|
  {
    forall m | 0 <= m < n && IsSubmission(steps[m], i) ::
      i in run[m].clients && run[m].clients[i].phase.Writing? && TurnedAway(run[m].tables, run[m].clients[i], steps[m].weather)
  }

  /** The client's submission found another role than it expected, or no user. */
  ghost predicate LosesSwap(w: World, step: Step, i: nat) {
    && IsSubmission(step, i) && Evaluated(step.weather) && i in w.clients
    && var c := w.clients[i].call;
       !(c.userId in w.tables.users && w.tables.users[c.userId].role == Some(c.expected))
  }

  lemma StepCounts(w: World, step: Step, w': World, i: nat)
    requires Inv(w) && Next(w, step, w') && i in w'.clients
    ensures i !in w.clients ==> !IsSubmission(step, i) && w'.clients[i].attempts == 0
    ensures i in w.clients ==>
              w'.clients[i].attempts == w.clients[i].attempts + (if IsSubmission(step, i) then 1 else 0)
    ensures MayStillWrite(w'.clients[i].phase) && i in w.clients ==>
              MayStillWrite(w.clients[i].phase)
              && (IsSubmission(step, i) ==>
                    w.clients[i].phase.Writing? && TurnedAway(w.tables, w.clients[i], step.weather))
    ensures w'.clients[i].phase.Resolving? ==>
              i in w.clients && (LosesSwap(w, step, i) || w.clients[i] == w'.clients[i])
  {
    hide Valid, Judge, ItemsAfter, RoleWrites, RoleConflicts, AllHold;
    if IsSubmission(step, i) {
      SubmissionVerdicts(w, i, step.weather);
    }
  }

  lemma NotThereYet(w: World, step: Step, w': World, i: nat)
    requires Next(w, step, w') && i !in w'.clients
    ensures i !in w.clients && !IsSubmission(step, i)
  {
    hide Judge, ItemsAfter;
  }

  /** A client counts its submissions, and goes on to write only after contention. */
  lemma {:induction false} AttemptsAreSubmissions(run: seq<World>, steps: seq<Step>, n: nat, i: nat)
    requires IsRun(run, steps) && Inv(run[0]) && i !in run[0].clients && n < |run|
    ensures i !in run[n].clients ==> Submissions(steps, n, i) == 0
    ensures i in run[n].clients ==> run[n].clients[i].attempts == Submissions(steps, n, i)
    ensures i !in run[n].clients || MayStillWrite(run[n].clients[i].phase) ==> AllTurnedAway(run, steps, n, i)
    ensures i in run[n].clients && run[n].clients[i].phase.Resolving? ==>
              exists m :: 0 <= m < n && LosesSwap(run[m], steps[m], i)
  {
    hide Next, Inv, TurnedAway, LosesSwap;
    if n > 0 {
      AttemptsAreSubmissions(run, steps, n - 1, i);
      RunKeepsInv(run, steps, n - 1);
      if i in run[n].clients {
        StepCounts(run[n - 1], steps[n - 1], run[n], i);
      } else {
        NotThereYet(run[n - 1], steps[n - 1], run[n], i);
      }
    }
  }

  /** Why the call that ends at m ends in the base error. */
  ghost predicate BaseErrorExplained(run: seq<World>, steps: seq<Step>, m: nat, i: nat, c: Call)
    requires |run| == |steps| + 1
  {
    && EndedAt(run, steps, m, i, c, Refused(Failed)) && FailsFor(run[m], steps[m], i)
    && (steps[m].Submit? ==>
          AllTurnedAway(run, steps, m, i) && run[m].clients[i].attempts == Submissions(steps, m, i))
    && (steps[m].Resolve? ==> exists k :: 0 <= k < m && LosesSwap(run[k], steps[k], i))
  }

  /**
   A call ends in the base error for no other cause: its submission was not evaluated, or was
   the fifth and like the four before it turned away by contention, or it lost its
   compare-and-swap and the user does not read with the role asked for afterwards.
   */
  lemma BaseErrorIsExplained(run: seq<World>, steps: seq<Step>, n: nat, i: nat)
    requires IsRun(run, steps) && Inv(run[0]) && i !in run[0].clients && n < |run|
    requires i in run[n].clients && run[n].clients[i].phase == Finished(Refused(Failed))
    ensures exists m: nat :: m < n && BaseErrorExplained(run, steps, m, i, run[n].clients[i].call)
  {
    hide Inv, Next, LosesSwap, TurnedAway;
    var c := run[n].clients[i].call;
    EndedByOwnStep(run, steps, n, i);
    var m: nat :| m < n && EndedAt(run, steps, m, i, c, Refused(Failed));
    RunKeepsInv(run, steps, m);
    AttemptsAreSubmissions(run, steps, m, i);
    BaseErrorHasItsCause(run[m], steps[m], run[m + 1], i);
    assert BaseErrorExplained(run, steps, m, i, c);
  }
}
