/**
 Whole first logins. A call on a subject that has an account answers with that account after
 as many reads as it has left, and never submits; a call that submits creates a plain user
 from the profile, or ends in the base error for a stated cause.
 */
module LoginRuns {
  import opened Outcomes
  import opened Domain
  import opened Keys
  import opened Items
  import opened Transactions
  import opened Provisioning
  import opened Convergence

  // ----- calls on a subject that has an account -----

  /** The call is on its way to this user, by reads alone. */
  predicate Approaches(phase: Phase, user: string) {
    match phase
    case LookingUp => true
    case Fetching(owner) => owner == user
    case ResolvingWinner => true
    case Rechecking(winner) => winner == Some(user)
    case RecheckFetching(winner, owner) => winner == Some(user) && owner == user
    case _ => false
  }

  /** The reads left. */
  function ReadsLeft(phase: Phase): nat {
    match phase
    case LookingUp => 2
    case Fetching(_) => 1
    case ResolvingWinner => 3
    case Rechecking(_) => 2
    case RecheckFetching(_, _) => 1
    case _ => 0
  }

  /** The user as stored, or the refusal of a disabled one. */
  predicate AnswersWith(t: Tables, phase: Phase, user: string) {
    && user in t.users
    && phase == if t.users[user].status == Active then Returned(FromUserItem(t.users[user])) else Raised(DisabledUser)
  }

  predicate IsOwnStep(step: Step, i: nat) {
    !step.Elsewhere? && step.login == i
  }

  lemma OwnerIsStored(t: Tables, subject: string, user: string)
    requires Valid(t) && Owns(t, subject, user)
    ensures user in t.users && FromUserItem(t.users[user]).id == user
  {
    hide IdentityText, OrganizationsOk, MembershipsOk, ApiKeysOk;
    var key := SubjectKey(subject);
    assert t.constraints[key].entityId in t.identities;
  }

  /** A call's own step on such a subject is one read closer to the answer, and writes nothing. */
  lemma OwnStepApproaches(w: World, step: Step, w': World, i: nat, user: string)
    requires Inv(w) && Next(w, step, w') && IsOwnStep(step, i) && i in w.logins
    requires Owns(w.tables, w.logins[i].profile.subject, user) && Approaches(w.logins[i].phase, user)
    ensures i in w'.logins && w'.logins[i].profile == w.logins[i].profile && w'.logins[i].attempts == w.logins[i].attempts
    ensures ReadsLeft(w'.logins[i].phase) == ReadsLeft(w.logins[i].phase) - 1
    ensures Approaches(w'.logins[i].phase, user) || AnswersWith(w.tables, w'.logins[i].phase, user)
    ensures !step.Submit? && w'.tables == w.tables && w'.created == w.created
  {
    hide IdentityText, Valid, LoginsOk, IdsApart, AccountsOk, OnePerSubject, Submitted, BuildBatch, Fresh;
    OwnerIsStored(w.tables, w.logins[i].profile.subject, user);
  }

  lemma OthersLeaveTheCall(w: World, step: Step, w': World, i: nat)
    requires Next(w, step, w') && !IsOwnStep(step, i) && i in w.logins
    ensures i in w'.logins && w'.logins[i] == w.logins[i]
  {
    hide IdentityText, BuildBatch, Judge, ItemsAfter, LoginWrites;
  }

  /** The call's own steps from m on. */
  function OwnSteps(steps: seq<Step>, m: nat, n: nat, i: nat): nat
    requires m <= n <= |steps|
  {
    if m == n then 0 else OwnSteps(steps, m, n - 1, i) + if IsOwnStep(steps[n - 1], i) then 1 else 0
  }

  /** How far a call has come that was on its way to the user at m. */
  ghost predicate ComesTo(run: seq<World>, steps: seq<Step>, m: nat, n: nat, i: nat, user: string)
    requires |run| == |steps| + 1 && m <= n < |run| && i in run[m].logins
  {
    && i in run[n].logins
    && (ReadsLeft(run[m].logins[i].phase) > OwnSteps(steps, m, n, i) ==>
          Approaches(run[n].logins[i].phase, user)
          && ReadsLeft(run[n].logins[i].phase) == ReadsLeft(run[m].logins[i].phase) - OwnSteps(steps, m, n, i))
    && (ReadsLeft(run[m].logins[i].phase) <= OwnSteps(steps, m, n, i) ==>
          exists p :: m <= p < n && AnswersWith(run[p].tables, run[n].logins[i].phase, user))
    && forall p | m <= p < n && IsOwnStep(steps[p], i) :: !steps[p].Submit?
  }

  lemma DoneStaysDone(w: World, step: Step, w': World, i: nat)
    requires Next(w, step, w') && i in w.logins && Done(w.logins[i])
    ensures !IsOwnStep(step, i) && i in w'.logins && w'.logins[i] == w.logins[i]
  {
    hide IdentityText, BuildBatch, Judge, ItemsAfter, LoginWrites;
  }

  /**
   Convergence: a call on a subject that has an account, whether it has just begun or has
   lost the race, answers with that account's user as soon as it has taken the reads it has
   left, two or three of them; it never fails, and never submits.
   */
  lemma {:induction false} OwnedCallsAnswer(run: seq<World>, steps: seq<Step>, m: nat, n: nat, i: nat, user: string)
    requires IsRun(run, steps) && Inv(run[0]) && m <= n < |run| && i in run[m].logins
    requires Owns(run[m].tables, run[m].logins[i].profile.subject, user) && Approaches(run[m].logins[i].phase, user)
    ensures ComesTo(run, steps, m, n, i, user)
    ensures i in run[n].logins && run[n].logins[i].profile == run[m].logins[i].profile
    ensures Owns(run[n].tables, run[m].logins[i].profile.subject, user)
  {
    hide Next, Inv, Owns, AnswersWith, Extends;
    if m < n {
      var w, step, w' := run[n - 1], steps[n - 1], run[n];
      OwnedCallsAnswer(run, steps, m, n - 1, i, user);
      RunKeepsInv(run, steps, n - 1);
      NextExtends(w, step, w');
      OwnerStays(w.tables, w'.tables, run[m].logins[i].profile.subject, user);
      if !IsOwnStep(step, i) {
        OthersLeaveTheCall(w, step, w', i);
      } else if ReadsLeft(run[m].logins[i].phase) > OwnSteps(steps, m, n - 1, i) {
        OwnStepApproaches(w, step, w', i, user);
        NoReadsLeft(w.tables, w'.logins[i].phase, user);
      } else {
        var p :| m <= p < n - 1 && AnswersWith(run[p].tables, w.logins[i].phase, user);
        AnswersAreDone(run[p].tables, w.logins[i], user);
        DoneStaysDone(w, step, w', i);
      }
    }
  }

  lemma NoReadsLeft(t: Tables, phase: Phase, user: string)
    ensures AnswersWith(t, phase, user) ==> ReadsLeft(phase) == 0
    ensures Approaches(phase, user) ==> ReadsLeft(phase) > 0
  {
  }

  lemma AnswersAreDone(t: Tables, l: Login, user: string)
    requires AnswersWith(t, l.phase, user)
    ensures Done(l)
  {
  }

  // ----- calls that submit -----

  predicate IsFree(t: Tables, l: Login) {
    SubjectKey(l.profile.subject) !in t.constraints
  }

  /** Contention, alone or over conditions that all hold, turns a submission away. */
  predicate TurnedAway(t: Tables, l: Login, weather: Weather) {
    weather.Contended? || (weather.Disturbed? && IsFree(t, l))
  }

  /** A subject has an account exactly while its key is taken. */
  lemma FreeOrOwned(t: Tables, l: Login)
    requires Valid(t)
    ensures IsFree(t, l) <==> forall user :: !Owns(t, l.profile.subject, user)
  {
    hide IdentityText, OrganizationsOk, MembershipsOk, ApiKeysOk, UsersOk, ReferencesHold;
    var key := SubjectKey(l.profile.subject);
    if key in t.constraints {
      assert t.constraints[key].entityId in t.identities;
      assert Owns(t, l.profile.subject, t.constraints[key].userId.value);
    }
  }

  /** A lookup that finds no account goes on to provision one. */
  lemma FreeLookupProvisions(w: World, step: Step, w': World, i: nat)
    requires Inv(w) && Next(w, step, w') && IsOwnStep(step, i) && i in w.logins
    requires w.logins[i].phase.LookingUp? && IsFree(w.tables, w.logins[i])
    ensures i in w'.logins && w'.logins[i] == w.logins[i].(phase := Provisioning) && w'.tables == w.tables
  {
    hide IdentityText, Valid, BuildBatch;
  }

  /**
   Items that no run leaves behind: an account whose user is gone counts as none at the first
   lookup and as a conflict behind a lost race, and an entry that names nobody is the base error.
   */
  lemma StrayAccounts(w: World, step: Step, w': World, i: nat)
    requires Next(w, step, w') && IsOwnStep(step, i) && i in w.logins
    ensures step.Fetch? && w.logins[i].phase.owner !in w.tables.users ==>
              w'.logins[i].phase == if w.logins[i].phase.Fetching? then Provisioning else Raised(ProvisioningConflict)
    ensures step.Find? && !IsFree(w.tables, w.logins[i])
            && w.tables.constraints[SubjectKey(w.logins[i].profile.subject)].userId.None? ==>
              w'.logins[i].phase == Raised(Storage(Failed))
    ensures step.Find? && w.logins[i].phase.Rechecking? && IsFree(w.tables, w.logins[i]) ==>
              w'.logins[i].phase == Raised(ProvisioningConflict)
  {
    hide IdentityText, BuildBatch;
  }

  /** What a submission comes to, in any weather. */
  lemma SubmissionComesTo(w: World, i: nat, weather: Weather, w': World)
    requires Inv(w) && Next(w, Submit(i, weather), w')
    ensures i in w.logins && w.logins[i].phase.Provisioning? && i in w'.logins
    ensures w'.logins[i] == w.logins[i].(attempts := w.logins[i].attempts + 1, phase := w'.logins[i].phase)
    ensures var l := w.logins[i];
            match w'.logins[i].phase
            case Returned(_) => weather.Clear? && IsFree(w.tables, l) && |w'.created| == |w.created| + 1
            case ResolvingWinner => Evaluated(weather) && !IsFree(w.tables, l) && w'.tables == w.tables
            case Provisioning =>
              TurnedAway(w.tables, l, weather) && l.attempts + 1 < 5 && w'.tables == w.tables
            case Raised(e) =>
              && e == Storage(Failed) && w'.tables == w.tables
              && (weather.Overloaded? || weather.Faulty?
                  || (TurnedAway(w.tables, l, weather) && l.attempts + 1 == 5))
            case _ => false
  {
    hide LoginWrites, IdentityText, ApplyAll, AllHold, Fresh, OwnTargets, Valid, DistinctTargets, Reasons, MixedReasons,
         BuildBatch;
    var l := w.logins[i];
    NewAccounts(l);
    assert LoginOk(w.tables, l);
    OnlyTheRaceFails(w.tables, l);
    LoginHasTenPuts(l.Batch());
  }

  lemma NewAccounts(l: Login)
    ensures |l.Batch().audits| == 3 && l.Batch().user.status == Active
  {
  }

  /** The causes of the base error: a submission that is not evaluated, or the fifth one turned away. */
  predicate FailsFor(w: World, step: Step, i: nat)
    requires i in w.logins
  {
    && step.Submit? && step.login == i
    && (step.weather.Overloaded? || step.weather.Faulty?
        || (w.logins[i].attempts + 1 == 5 && TurnedAway(w.tables, w.logins[i], step.weather)))
  }

  /** A step ends a call in the base error exactly for one of these causes. */
  lemma BaseErrorHasItsCause(w: World, step: Step, w': World, i: nat)
    requires Inv(w) && Next(w, step, w') && i in w.logins && !Done(w.logins[i])
    ensures i in w'.logins
    ensures w'.logins[i].phase == Raised(Storage(Failed)) <==> FailsFor(w, step, i)
  {
    hide IdentityText, Valid, IdsApart, AccountsOk, OnePerSubject, Submitted, BuildBatch, Fresh;
    if !IsOwnStep(step, i) {
      OthersLeaveTheCall(w, step, w', i);
    } else if step.Submit? {
      SubmissionComesTo(w, i, step.weather, w');
    } else {
      ReadsDoNotFail(w, step, w', i);
    }
  }

  lemma ReadsDoNotFail(w: World, step: Step, w': World, i: nat)
    requires Inv(w) && Next(w, step, w') && i in w.logins && !Done(w.logins[i]) && IsOwnStep(step, i) && !step.Submit?
    ensures i in w'.logins && w'.logins[i].phase != Raised(Storage(Failed))
  {
    hide IdentityText, Valid, IdsApart, AccountsOk, OnePerSubject, Submitted, BuildBatch, Fresh;
    assert LoginOk(w.tables, w.logins[i]);
    FreeOrOwned(w.tables, w.logins[i]);
    if user :| Owns(w.tables, w.logins[i].profile.subject, user) {
      WhomItApproaches(w.tables, w.logins[i], user);
      if Approaches(w.logins[i].phase, user) {
        OwnStepApproaches(w, step, w', i, user);
      }
    }
  }

  lemma WhomItApproaches(t: Tables, l: Login, user: string)
    requires LoginOk(t, l) && Owns(t, l.profile.subject, user) && !Done(l)
    ensures Approaches(l.phase, user) || l.phase.Provisioning?
  {
    hide IdentityText, Fresh;
  }

  // ----- how often a call submits -----

  predicate IsSubmission(step: Step, i: nat) {
    step.Submit? && step.login == i
  }

  function Submissions(steps: seq<Step>, n: nat, i: nat): nat
    requires n <= |steps|
  {
    if n == 0 then 0 else Submissions(steps, n - 1, i) + if IsSubmission(steps[n - 1], i) then 1 else 0
  }

  predicate MayStillSubmit(phase: Phase) {
    phase.LookingUp? || phase.Fetching? || phase.Provisioning?
  }

  ghost predicate AllTurnedAway(run: seq<World>, steps: seq<Step>, n: nat, i: nat)
    requires |run| == |steps| + 1 && n <= |steps|
  {
    forall m | 0 <= m < n && IsSubmission(steps[m], i) ::
      i in run[m].logins && TurnedAway(run[m].tables, run[m].logins[i], steps[m].weather)
  }

  lemma StepCounts(w: World, step: Step, w': World, i: nat)
    requires Inv(w) && Next(w, step, w')
    ensures i !in w'.logins ==> i !in w.logins && !IsSubmission(step, i)
    ensures i in w'.logins && i !in w.logins ==> !IsSubmission(step, i) && w'.logins[i].attempts == 0
    ensures i in w.logins ==>
              i in w'.logins && w'.logins[i].attempts == w.logins[i].attempts + (if IsSubmission(step, i) then 1 else 0)
    ensures i in w.logins && MayStillSubmit(w'.logins[i].phase) ==>
              MayStillSubmit(w.logins[i].phase)
              && (IsSubmission(step, i) ==> TurnedAway(w.tables, w.logins[i], step.weather))
  {
    hide IdentityText, Valid, LoginsOk, IdsApart, AccountsOk, OnePerSubject, BuildBatch, Fresh, LoginWrites, ItemsAfter, Judge;
    if IsSubmission(step, i) {
      SubmissionComesTo(w, i, step.weather, w');
    }
  }

  /** A call counts its submissions, and submits again only after contention. */
  lemma {:induction false} AttemptsAreSubmissions(run: seq<World>, steps: seq<Step>, n: nat, i: nat)
    requires IsRun(run, steps) && Inv(run[0]) && i !in run[0].logins && n < |run|
    ensures i !in run[n].logins ==> Submissions(steps, n, i) == 0
    ensures i in run[n].logins ==> run[n].logins[i].attempts == Submissions(steps, n, i)
    ensures i !in run[n].logins || MayStillSubmit(run[n].logins[i].phase) ==> AllTurnedAway(run, steps, n, i)
  {
    hide Next, Inv, TurnedAway;
    if n > 0 {
      AttemptsAreSubmissions(run, steps, n - 1, i);
      RunKeepsInv(run, steps, n - 1);
      StepCounts(run[n - 1], steps[n - 1], run[n], i);
    }
  }

  /**
   A call ends in the base error for no other cause: its submission was not evaluated, or was
   the fifth and like the four before it turned away by contention.
   */
  lemma {:induction false} BaseErrorIsExplained(run: seq<World>, steps: seq<Step>, n: nat, i: nat)
    requires IsRun(run, steps) && Inv(run[0]) && i !in run[0].logins && n < |run|
    requires i in run[n].logins && run[n].logins[i].phase == Raised(Storage(Failed))
    ensures exists m: nat ::
              && m < n && i in run[m].logins && FailsFor(run[m], steps[m], i)
              && AllTurnedAway(run, steps, m, i) && run[m].logins[i].attempts == Submissions(steps, m, i)
  {
    hide Next, Inv, TurnedAway;
    var m := n - 1;
    RunKeepsInv(run, steps, m);
    if i in run[m].logins && Done(run[m].logins[i]) {
      DoneStaysDone(run[m], steps[m], run[n], i);
      BaseErrorIsExplained(run, steps, m, i);
    } else {
      CallsBeginOpen(run[m], steps[m], run[n], i);
      BaseErrorHasItsCause(run[m], steps[m], run[n], i);
      AttemptsAreSubmissions(run, steps, m, i);
      OnlyProvisioningSubmits(run[m], steps[m], run[n], i);
    }
  }

  lemma CallsBeginOpen(w: World, step: Step, w': World, i: nat)
    requires Next(w, step, w') && i in w'.logins && Done(w'.logins[i])
    ensures i in w.logins
  {
    hide IdentityText, BuildBatch, Judge, ItemsAfter, LoginWrites;
  }

  lemma OnlyProvisioningSubmits(w: World, step: Step, w': World, i: nat)
    requires Next(w, step, w') && IsSubmission(step, i)
    ensures i in w.logins && MayStillSubmit(w.logins[i].phase)
  {
    hide IdentityText, BuildBatch, Judge, ItemsAfter, LoginWrites;
  }

  // ----- what a first login creates -----

  /** The new user: a plain active user with the profile's name and address. */
  predicate IsThePerson(u: User, l: Login) {
    && u.id == l.ids.user && u.displayName == l.profile.displayName && u.email == l.profile.email
    && u.status == Active && u.role == PlainUser && u.createdAt == l.now && u.updatedAt == l.now
  }

  /** The new user's identity is the subject's at the identity provider. */
  predicate IsTheIdentity(x: ExternalIdentity, l: Login) {
    && x.id == l.ids.identity && x.userId == l.ids.user
    && x.provider == Cognito && x.subject == l.profile.subject && x.tenant == None && x.createdAt == l.now
  }

  /** The workspace is personal, carries a placeholder name, and a slug made from the user's id. */
  predicate IsTheWorkspace(o: Organization, l: Login) {
    && o.id == l.ids.organization && o.kind == Personal && o.status == Active && o.nameStatus == Placeholder
    && o.name == l.profile.displayName + "'s Workspace" && o.slug == "personal-" + l.ids.user
    && o.suspendedAt == None && o.createdAt == l.now && o.updatedAt == l.now
  }

  predicate IsTheOwnership(m: Membership, l: Login) {
    && m.id == l.ids.membership && m.organizationId == l.ids.organization && m.userId == l.ids.user
    && m.role == Owner && m.status == Active && m.createdAt == l.now
  }

  /** An event of the new user about itself, in its workspace. */
  predicate IsTheEvent(e: AuditEvent, l: Login, id: string, action: string, target: string, key: string, value: string) {
    && e.id == id && e.organizationId == l.ids.organization && e.actorId == l.ids.user && e.action == action
    && e.targetId == Some(target) && e.metadata == map[key := value] && e.createdAt == l.now
  }

  ghost predicate StoresThePerson(t: Tables, l: Login) {
    && l.ids.user in t.users && IsThePerson(FromUserItem(t.users[l.ids.user]), l)
    && t.users[l.ids.user].gEmail == Some(l.profile.email) && t.users[l.ids.user].gRole == Some(PlainUser)
    && l.ids.identity in t.identities && IsTheIdentity(t.identities[l.ids.identity], l)
  }

  ghost predicate StoresTheWorkspace(t: Tables, l: Login) {
    && l.ids.organization in t.organizations && IsTheWorkspace(t.organizations[l.ids.organization], l)
    && (l.ids.organization, l.ids.user) in t.memberships
    && IsTheOwnership(t.memberships[(l.ids.organization, l.ids.user)].membership, l)
  }

  ghost predicate StoresTheEvents(t: Tables, l: Login) {
    var ids := l.ids;
    && ids.userAudit in t.audits
    && IsTheEvent(t.audits[ids.userAudit], l, ids.userAudit, "user.created", ids.user, "provider", "cognito")
    && ids.organizationAudit in t.audits
    && IsTheEvent(t.audits[ids.organizationAudit], l, ids.organizationAudit, "organization.created", ids.organization,
                  "type", "personal")
    && ids.membershipAudit in t.audits
    && IsTheEvent(t.audits[ids.membershipAudit], l, ids.membershipAudit, "membership.created", ids.membership,
                  "role", "owner")
  }

  /** The account as stored. */
  ghost predicate StoresTheAccount(t: Tables, l: Login) {
    StoresThePerson(t, l) && StoresTheWorkspace(t, l) && StoresTheEvents(t, l)
  }

  lemma CommitStoresPerson(t: Tables, l: Login)
    requires DistinctIds(l.ids)
    ensures StoresThePerson(ApplyAll(t, LoginWrites(l.Batch())), l)
  {
    hide SortKey, IdentityText, ApplyAll, DistinctTargets;
    LoginTargetsDiffer(l.Batch());
    WrittenItems(t, LoginWrites(l.Batch()), 0);
    WrittenItems(t, LoginWrites(l.Batch()), 1);
  }

  lemma CommitStoresWorkspace(t: Tables, l: Login)
    requires DistinctIds(l.ids)
    ensures StoresTheWorkspace(ApplyAll(t, LoginWrites(l.Batch())), l)
  {
    hide SortKey, IdentityText, ApplyAll, DistinctTargets;
    LoginTargetsDiffer(l.Batch());
    WrittenItems(t, LoginWrites(l.Batch()), 3);
    WrittenItems(t, LoginWrites(l.Batch()), 5);
  }

  lemma CommitStoresEvents(t: Tables, l: Login)
    requires DistinctIds(l.ids)
    ensures StoresTheEvents(ApplyAll(t, LoginWrites(l.Batch())), l)
  {
    hide SortKey, IdentityText, ApplyAll, DistinctTargets;
    LoginTargetsDiffer(l.Batch());
    WrittenItems(t, LoginWrites(l.Batch()), 7);
    WrittenItems(t, LoginWrites(l.Batch()), 8);
    WrittenItems(t, LoginWrites(l.Batch()), 9);
  }

  /** Other users stay as they are. */
  lemma CommitAddsOneUser(t: Tables, l: Login)
    requires Fresh(t, l.Batch())
    ensures var t' := ApplyAll(t, LoginWrites(l.Batch()));
            && l.ids.user !in t.users
            && forall k | k != l.ids.user ::
                 (k in t'.users <==> k in t.users) && (k in t.users ==> t'.users[k] == t.users[k])
  {
    hide SortKey, IdentityText, ApplyAll, LoginWrites;
    FreshUser(t, l);
    var t' := ApplyAll(t, LoginWrites(l.Batch()));
    forall k | k != l.ids.user
      ensures (k in t'.users <==> k in t.users) && (k in t.users ==> t'.users[k] == t.users[k])
    {
      LoginCommitElsewhere(t, l.Batch(), UserAt(k));
      assert Lookup(t', UserAt(k)) == Lookup(t, UserAt(k));
    }
  }

  /**
   A first login that commits stores the person, the identity, the workspace, its ownership
   and the three events; no step of a first login makes anyone an administrator or changes
   a stored user.
   */
  lemma FirstLoginsMakePlainUsers(w: World, step: Step, w': World)
    requires Inv(w) && Next(w, step, w') && !step.Elsewhere?
    ensures w'.created != w.created ==>
              step.Submit? && step.login in w.logins && StoresTheAccount(w'.tables, w.logins[step.login])
              && w'.logins[step.login].phase == Returned(FromUserItem(w'.tables.users[w.logins[step.login].ids.user]))
    ensures w'.created == w.created ==> w'.tables == w.tables
    ensures forall k | k in w.tables.users :: k in w'.tables.users && w'.tables.users[k] == w.tables.users[k]
    ensures forall k | k in w'.tables.users && w'.tables.users[k].role == Some(Admin) :: k in w.tables.users
  {
    hide LoginWrites, IdentityText, ApplyAll, Fresh, OwnTargets, Valid, IdsApart, AccountsOk, OnePerSubject, Submitted,
         BuildBatch, StoresThePerson, StoresTheWorkspace, StoresTheEvents;
    if step.Submit? {
      var l := w.logins[step.login];
      assert LoginOk(w.tables, l);
      SubmitOutcome(w, step.login, step.weather, w');
      if step.weather.Clear? && SubjectKey(l.profile.subject) !in w.tables.constraints {
        LoginIsFresh(w.tables, l);
        CommitStoresPerson(w.tables, l);
        CommitStoresWorkspace(w.tables, l);
        CommitStoresEvents(w.tables, l);
        CommitAddsOneUser(w.tables, l);
        StoredPerson(w'.tables, l);
      }
    }
  }

  lemma StoredPerson(t: Tables, l: Login)
    requires StoresTheAccount(t, l)
    ensures l.ids.user in t.users && t.users[l.ids.user].role != Some(Admin)
    ensures FromUserItem(t.users[l.ids.user]) == l.Batch().user
  {
  }
}
