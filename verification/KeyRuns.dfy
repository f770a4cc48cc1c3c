/**
 Whole calls on API keys and on a tenant's suspension. A call that succeeds has done what it
 was asked, a call that is rejected reports what was the case at that step, and a step in
 peace always brings a call forward.
 */
module KeyRuns {
  import opened Outcomes
  import opened Timestamps
  import opened Domain
  import opened Keys
  import opened Items
  import opened Transactions
  import opened KeyLifecycle

  predicate IsOwnStep(step: Step, i: nat) {
    step.Go? && step.client == i
  }

  // ----- what one interaction does -----

  /** A new key: its item and its segment, and nothing else. */
  ghost predicate StoresKey(t: Tables, t': Tables, k: ApiKey) {
    && k.id !in t.apiKeys && SegmentKey(k.keyId) !in t.constraints
    && k.organizationId in t.organizations && k.createdBy in t.users
    && t' == t.(apiKeys := t.apiKeys[k.id := ApiKeyItem(k, k.organizationId, SortKey(k.createdAt, k.id))],
                constraints := t.constraints[SegmentKey(k.keyId) := ConstraintItem(k.id, None)])
  }

  /** The key's status and revocation time, and nothing else. */
  predicate EndsKey(t: Tables, t': Tables, id: string, at: UtcTime) {
    && id in t.apiKeys && t.apiKeys[id].apiKey.status == KeyActive && id in t'.apiKeys
    && t'.apiKeys[id].apiKey == t.apiKeys[id].apiKey.(status := Revoked, revokedAt := Some(at))
    && t' == t.(apiKeys := t.apiKeys[id := t.apiKeys[id].(apiKey := t'.apiKeys[id].apiKey)])
  }

  /** The organization is disabled, and keeps the time of an earlier suspension. */
  predicate DisablesTenant(t: Tables, t': Tables, org: string, at: UtcTime) {
    && org in t.organizations && org in t'.organizations
    && var o, o' := t.organizations[org], t'.organizations[org];
       && o'.status == Status.Disabled && o'.updatedAt == at
       && o'.suspendedAt == (if o.suspendedAt.Some? then o.suspendedAt else Some(at))
       && o' == o.(status := o'.status, suspendedAt := o'.suspendedAt, updatedAt := o'.updatedAt)
       && t' == t.(organizations := t.organizations[org := o'])
  }

  /** The organization is active again, and no longer suspended; its keys stay as they are. */
  predicate EnablesTenant(t: Tables, t': Tables, org: string, at: UtcTime) {
    && org in t.organizations && org in t'.organizations
    && var o, o' := t.organizations[org], t'.organizations[org];
       && o'.status == Active && o'.suspendedAt == None && o'.updatedAt == at
       && o' == o.(status := o'.status, suspendedAt := o'.suspendedAt, updatedAt := o'.updatedAt)
       && t' == t.(organizations := t.organizations[org := o'])
  }

  lemma KeyWritesStore(t: Tables, k: ApiKey)
    requires AllHold(t, KeyWrites(k))
    ensures StoresKey(t, ApplyAll(t, KeyWrites(k)), k)
  {
    hide SortKey, ApplyAll;
    var ws := KeyWrites(k);
    KeyEffect(t, k);
    assert Holds(t, ws[0]) && Holds(t, ws[1]) && Holds(t, ws[2]) && Holds(t, ws[3]);
  }

  lemma CreationSucceeds(t: Tables, c: Client, weather: Weather)
    requires c.task.CreateKey? && Create(t, c, weather).phase.Succeeded?
    ensures Create(t, c, weather).phase == Succeeded(Some(c.task.key))
    ensures StoresKey(t, Create(t, c, weather).tables, c.task.key)
  {
    hide SortKey, ApplyAll, KeyWrites, AllHold, DistinctTargets, StoresKey;
    KeyWritesAlign(c.task.key);
    SomethingWritten(c.task.key);
    assert Commits(t, KeyWrites(c.task.key));
    KeyWritesStore(t, c.task.key);
  }

  lemma SomethingWritten(k: ApiKey)
    ensures |KeyWrites(k)| == 4
  {
  }

  /** What a call's interaction leaves, phase by phase. */
  lemma InteractionDoes(w: World, step: Step, w': World, i: nat)
    requires Inv(w) && Next(w, step, w') && IsOwnStep(step, i)
    ensures i in w.clients && i in w'.clients && w'.clients[i].task == w.clients[i].task
    ensures var task, phase, phase' := w.clients[i].task, w.clients[i].phase, w'.clients[i].phase;
            match task
            case CreateKey(k) =>
              if phase.Started? && phase'.Succeeded?
              then phase' == Succeeded(Some(k)) && StoresKey(w.tables, w'.tables, k) else w'.tables == w.tables
            case RevokeKey(org, id, at) =>
              if phase.Swapping? && phase' == ReadingBack(true)
              then EndsKey(w.tables, w'.tables, id, at)
              else w'.tables == w.tables
                   && (phase.ReadingBack? && phase'.Succeeded? ==>
                         id in w.tables.apiKeys && phase' == Succeeded(Some(w.tables.apiKeys[id].apiKey)))
            case Suspend(org, at) =>
              if phase.Disabling? && phase'.Scanning? then DisablesTenant(w.tables, w'.tables, org, at)
              else if phase.Sweeping? && phase.ids != [] && phase' == Sweeping(phase.ids[1..]) && IsActiveKey(w.tables, phase.ids[0])
              then EndsKey(w.tables, w'.tables, phase.ids[0], at)
              else w'.tables == w.tables
            case Reactivate(org, at) =>
              if phase.Started? && phase'.Succeeded? then EnablesTenant(w.tables, w'.tables, org, at)
              else w'.tables == w.tables
  {
    hide SortKey, ApiKeysOk, KeysOk, OnePerKey, ApplyAll, StoresKey, KeyWrites, AllHold, DistinctTargets;
    var c := w.clients[i];
    match c.task {
      case RevokeKey(org, id, at) =>
        if IsActiveKey(w.tables, id) {
          ActiveKeysHaveNoTime(w, id);
        }
      case CreateKey(k) =>
        KeyWritesAlign(k);
        if c.phase.Started? && w'.clients[i].phase.Succeeded? {
          CreationSucceeds(w.tables, c, step.weather);
        }
      case Suspend(org, at) =>
        if c.phase.Sweeping? && c.phase.ids != [] && IsActiveKey(w.tables, c.phase.ids[0]) {
          ActiveKeysHaveNoTime(w, c.phase.ids[0]);
        }
      case _ =>
    }
  }

  lemma ActiveKeysHaveNoTime(w: World, id: string)
    requires Inv(w) && IsActiveKey(w.tables, id)
    ensures w.tables.apiKeys[id].apiKey.revokedAt == None && w.tables.apiKeys[id].apiKey.id == id
  {
    hide SortKey;
  }

  // ----- answers about one key stay true -----

  /** A created key is stored as it was given, but for a later revocation; a revoked key is the one answered. */
  ghost predicate AnswerHolds(t: Tables, c: Client) {
    match c.task
    case CreateKey(k) =>
      c.phase.Succeeded? ==> c.phase.key == Some(k) && k.id in t.apiKeys && SameBut(k, t.apiKeys[k.id].apiKey)
    case RevokeKey(org, id, at) =>
      c.phase.Succeeded? ==>
        && IsKeyOf(t, id, org) && t.apiKeys[id].apiKey.status == Revoked && c.phase.key == Some(t.apiKeys[id].apiKey)
    case _ => true
  }

  ghost predicate AnswersHold(w: World) {
    forall i | i in w.clients :: AnswerHolds(w.tables, w.clients[i])
  }

  /** A revoked key never changes again. */
  lemma RevokedKeysStay(w: World, step: Step, w': World, id: string)
    requires Inv(w) && Next(w, step, w') && id in w.tables.apiKeys && w.tables.apiKeys[id].apiKey.status == Revoked
    ensures id in w'.tables.apiKeys && w'.tables.apiKeys[id].apiKey == w.tables.apiKeys[id].apiKey
  {
    hide SortKey, ApiKeysOk, KeysOk, OnePerKey, Interact;
    match step {
      case Go(i, weather, found) =>
        assert ClientOk(w.tables, w.clients[i]);
        var change := InteractionChanges(w.tables, w.clients[i], weather, found, w.log);
      case _ =>
    }
  }

  lemma AnswerStaysTrue(w: World, step: Step, w': World, c: Client)
    requires Inv(w) && Next(w, step, w') && AnswerHolds(w.tables, c)
    ensures AnswerHolds(w'.tables, c)
  {
    hide SortKey, Inv, Next;
    NextAges(w, step, w');
    if c.task.RevokeKey? && c.phase.Succeeded? {
      RevokedKeysStay(w, step, w', c.task.keyId);
    }
  }

  lemma OthersLeaveTheCall(w: World, step: Step, w': World, i: nat)
    requires Inv(w) && Next(w, step, w') && !IsOwnStep(step, i) && i in w'.clients
    ensures i in w.clients ==> w'.clients[i] == w.clients[i]
    ensures i !in w.clients ==> w'.clients[i].phase.Started?
  {
    hide Interact, ApiKeysOk, KeysOk, OnePerKey;
  }

  lemma OwnAnswerHolds(w: World, step: Step, w': World, i: nat)
    requires Inv(w) && Next(w, step, w') && IsOwnStep(step, i) && AnswerHolds(w.tables, w.clients[i])
    ensures AnswerHolds(w'.tables, w'.clients[i])
  {
    hide SortKey, ApiKeysOk, KeysOk, OnePerKey, StoresKey, AnswerHolds;
    InteractionDoes(w, step, w', i);
    AnswerStaysTrue(w, step, w', w.clients[i]);
    assert ClientOk(w.tables, w.clients[i]);
    NewAnswerHolds(w, step, w', i);
  }

  lemma NewAnswerHolds(w: World, step: Step, w': World, i: nat)
    requires Inv(w) && Next(w, step, w') && IsOwnStep(step, i) && AnswerHolds(w'.tables, w.clients[i])
    ensures AnswerHolds(w'.tables, w'.clients[i])
  {
    hide SortKey, ApiKeysOk, KeysOk, OnePerKey, Next;
    InteractionDoes(w, step, w', i);
    if w'.clients[i].phase.Succeeded? {
      SuccessComesFrom(w, step, w', i);
      assert ClientOk(w.tables, w.clients[i]);
    }
  }

  lemma SuccessComesFrom(w: World, step: Step, w': World, i: nat)
    requires Inv(w) && Next(w, step, w') && IsOwnStep(step, i) && w'.clients[i].phase.Succeeded?
    ensures w.clients[i].phase == w'.clients[i].phase
            || (w.clients[i].task.CreateKey? && w.clients[i].phase.Started?)
            || (w.clients[i].task.RevokeKey? && w.clients[i].phase.ReadingBack?)
            || (w.clients[i].task.Suspend? && w.clients[i].phase == Sweeping([]))
            || (w.clients[i].task.Reactivate? && w.clients[i].phase.Started?)
  {
    hide SortKey, ApiKeysOk, KeysOk, OnePerKey, KeyWrites, Judge, ItemsAfter;
  }

  lemma {:induction false} AnswersStayTrue(run: seq<World>, steps: seq<Step>, n: nat)
    requires IsRun(run, steps) && Inv(run[0]) && AnswersHold(run[0]) && n < |run|
    ensures AnswersHold(run[n])
  {
    hide Next, Inv, ApiKeysOk, AnswerHolds;
    if n > 0 {
      AnswersStayTrue(run, steps, n - 1);
      RunKeepsInv(run, steps, n - 1);
      var w, step, w' := run[n - 1], steps[n - 1], run[n];
      forall i | i in w'.clients ensures AnswerHolds(w'.tables, w'.clients[i]) {
        if IsOwnStep(step, i) {
          OwnStepsAreTaken(w, step, w', i);
          OwnAnswerHolds(w, step, w', i);
        } else {
          OthersLeaveTheCall(w, step, w', i);
          if i in w.clients {
            AnswerStaysTrue(w, step, w', w.clients[i]);
          } else {
            NothingAnsweredYet(w'.tables, w'.clients[i]);
          }
        }
      }
    }
  }

  lemma OwnStepsAreTaken(w: World, step: Step, w': World, i: nat)
    requires Inv(w) && Next(w, step, w') && IsOwnStep(step, i)
    ensures i in w.clients && i in w'.clients && w'.clients[i].task == w.clients[i].task
  {
    hide Interact, ApiKeysOk, KeysOk, OnePerKey;
  }

  lemma NothingAnsweredYet(t: Tables, c: Client)
    requires c.phase.Started?
    ensures AnswerHolds(t, c)
  {
  }

  // ----- a suspension reaches every key its scan listed -----

  /** The client's own step at d disables its tenant. */
  ghost predicate DisabledAt(run: seq<World>, steps: seq<Step>, d: nat, i: nat, c: Task)
    requires |run| == |steps| + 1
  {
    && d < |steps| && IsOwnStep(steps[d], i) && c.Suspend?
    && i in run[d].clients && run[d].clients[i].task == c
    && DisablesTenant(run[d].tables, run[d + 1].tables, c.organizationId, c.at)
  }

  /** The client's own step at s scans, and every active key of the tenant it listed is still ahead or revoked at n. */
  ghost predicate SweptSince(run: seq<World>, steps: seq<Step>, d: nat, s: nat, n: nat, i: nat, c: Task, ahead: seq<string>)
    requires |run| == |steps| + 1 && n < |run|
  {
    && d < s < n && DisabledAt(run, steps, d, i, c) && IsOwnStep(steps[s], i)
    && forall f | f in steps[s].found && f.organizationId == c.organizationId && f.status == KeyActive ::
         f.id in ahead || IsRevoked(run[n].tables, f.id)
  }

  predicate IsRevoked(t: Tables, id: string) {
    id in t.apiKeys && t.apiKeys[id].apiKey.status == Revoked
  }

  /** What lies behind a suspension in this phase at n. */
  ghost predicate Behind(run: seq<World>, steps: seq<Step>, n: nat, i: nat)
    requires |run| == |steps| + 1 && n < |run| && i in run[n].clients
  {
    var c := run[n].clients[i].task;
    c.Suspend? ==>
      match run[n].clients[i].phase
      case Scanning => exists d: nat :: d < n && DisabledAt(run, steps, d, i, c)
      case Sweeping(ids) => exists d: nat, s: nat :: SweptSince(run, steps, d, s, n, i, c, ids)
      case Succeeded(_) => exists d: nat, s: nat :: SweptSince(run, steps, d, s, n, i, c, [])
      case _ => true
  }

  lemma {:induction false} ListedKeysAreSwept(found: seq<ApiKey>, org: string)
    ensures forall f | f in found && f.organizationId == org && f.status == KeyActive :: f.id in ActiveKeysOf(found, org)
  {
    if found != [] {
      ListedKeysAreSwept(found[..|found| - 1], org);
      assert found == found[..|found| - 1] + [found[|found| - 1]];
    }
  }

  /** How a suspension moves on. */
  lemma SuspensionMoves(w: World, step: Step, w': World, i: nat)
    requires Inv(w) && Next(w, step, w') && IsOwnStep(step, i) && w.clients[i].task.Suspend?
    ensures var phase, phase' := w.clients[i].phase, w'.clients[i].phase;
            && (phase'.Scanning? ==>
                  phase.Scanning?
                  || (phase.Disabling? && DisablesTenant(w.tables, w'.tables, w.clients[i].task.organizationId, w.clients[i].task.at)))
            && (phase'.Sweeping? ==>
                  (phase.Scanning? && phase'.ids == ActiveKeysOf(step.found, w.clients[i].task.organizationId))
                  || (phase.Sweeping? && phase.ids != [] && phase'.ids == phase.ids[1..]
                      && IsRevoked(w'.tables, phase.ids[0])))
            && (phase'.Succeeded? ==> phase == phase' || phase == Sweeping([]))
            && !(phase.Scanning? && phase'.Scanning?)
  {
    hide SortKey, ApiKeysOk, KeysOk, OnePerKey, ActiveKeysOf, StoresKey;
    InteractionDoes(w, step, w', i);
    var c := w.clients[i];
    assert ClientOk(w.tables, c);
    if c.phase.Sweeping? && c.phase.ids != [] {
      assert c.phase.ids[0] in c.phase.ids;
    }
  }

  lemma RevokedStay(w: World, step: Step, w': World)
    requires Inv(w) && Next(w, step, w')
    ensures forall id | IsRevoked(w.tables, id) :: IsRevoked(w'.tables, id)
  {
    hide Inv, Next;
    forall id | IsRevoked(w.tables, id) ensures IsRevoked(w'.tables, id) {
      RevokedKeysStay(w, step, w', id);
    }
  }

  lemma SuspensionComesOn(run: seq<World>, steps: seq<Step>, n: nat, i: nat)
    requires |run| == |steps| + 1 && n + 1 < |run| && Inv(run[n]) && Next(run[n], steps[n], run[n + 1]) && IsOwnStep(steps[n], i)
    requires i in run[n].clients && i in run[n + 1].clients && run[n].clients[i].task.Suspend? && Behind(run, steps, n, i)
    requires run[n + 1].clients[i].task == run[n].clients[i].task
    ensures Behind(run, steps, n + 1, i)
  {
    hide Inv, Next, DisablesTenant, IsRevoked;
    var w, step, w', c := run[n], steps[n], run[n + 1], run[n].clients[i].task;
    SuspensionMoves(w, step, w', i);
    RevokedStay(w, step, w');
    match w'.clients[i].phase {
      case Scanning =>
        assert DisabledAt(run, steps, n, i, c);
      case Sweeping(ids) =>
        if w.clients[i].phase.Scanning? {
          var d: nat :| d < n && DisabledAt(run, steps, d, i, c);
          ListedKeysAreSwept(step.found, c.organizationId);
          assert SweptSince(run, steps, d, n, n + 1, i, c, ids);
        } else {
          var d: nat, s: nat :| SweptSince(run, steps, d, s, n, i, c, w.clients[i].phase.ids);
          assert w.clients[i].phase.ids == [w.clients[i].phase.ids[0]] + ids;
          assert SweptSince(run, steps, d, s, n + 1, i, c, ids);
        }
      case Succeeded(_) =>
        var d: nat, s: nat :| SweptSince(run, steps, d, s, n, i, c, []);
        assert SweptSince(run, steps, d, s, n + 1, i, c, []);
      case _ =>
    }
  }

  lemma SuspensionStays(run: seq<World>, steps: seq<Step>, n: nat, i: nat)
    requires |run| == |steps| + 1 && n + 1 < |run| && Inv(run[n]) && Next(run[n], steps[n], run[n + 1])
    requires i in run[n].clients && i in run[n + 1].clients && run[n + 1].clients[i] == run[n].clients[i]
    requires Behind(run, steps, n, i)
    ensures Behind(run, steps, n + 1, i)
  {
    hide Inv, Next, DisablesTenant, IsRevoked;
    RevokedStay(run[n], steps[n], run[n + 1]);
    var c := run[n].clients[i].task;
    if c.Suspend? {
      match run[n].clients[i].phase {
        case Sweeping(ids) =>
          var d: nat, s: nat :| SweptSince(run, steps, d, s, n, i, c, ids);
          assert SweptSince(run, steps, d, s, n + 1, i, c, ids);
        case Succeeded(_) =>
          var d: nat, s: nat :| SweptSince(run, steps, d, s, n, i, c, []);
          assert SweptSince(run, steps, d, s, n + 1, i, c, []);
        case _ =>
      }
    }
  }

  lemma {:induction false} HistoryIsBehind(run: seq<World>, steps: seq<Step>, n: nat, i: nat)
    requires IsRun(run, steps) && Inv(run[0]) && i !in run[0].clients && n < |run| && i in run[n].clients
    ensures Behind(run, steps, n, i)
  {
    hide Next, Inv, Behind, ApiKeysOk;
    var w, step, w' := run[n - 1], steps[n - 1], run[n];
    RunKeepsInv(run, steps, n - 1);
    if i !in w.clients {
      NotOwnYet(w, step, w', i);
      OthersLeaveTheCall(w, step, w', i);
      assert Behind(run, steps, n, i) by { NothingBehind(run, steps, n, i); }
    } else {
      HistoryIsBehind(run, steps, n - 1, i);
      if !IsOwnStep(step, i) {
        OthersLeaveTheCall(w, step, w', i);
        SuspensionStays(run, steps, n - 1, i);
      } else {
        OwnStepsAreTaken(w, step, w', i);
        if w.clients[i].task.Suspend? {
          SuspensionComesOn(run, steps, n - 1, i);
        } else {
          assert Behind(run, steps, n, i) by { NoSuspension(run, steps, n, i); }
        }
      }
    }
  }

  lemma NotOwnYet(w: World, step: Step, w': World, i: nat)
    requires Inv(w) && Next(w, step, w') && i !in w.clients
    ensures !IsOwnStep(step, i)
    ensures i in w'.clients ==> w'.clients[i].phase.Started? && w'.clients[i].attempts == 0
  {
    hide Interact, ApiKeysOk, KeysOk, OnePerKey;
  }

  lemma NothingBehind(run: seq<World>, steps: seq<Step>, n: nat, i: nat)
    requires |run| == |steps| + 1 && n < |run| && i in run[n].clients && run[n].clients[i].phase.Started?
    ensures Behind(run, steps, n, i)
  {
  }

  lemma NoSuspension(run: seq<World>, steps: seq<Step>, n: nat, i: nat)
    requires |run| == |steps| + 1 && n < |run| && i in run[n].clients && !run[n].clients[i].task.Suspend?
    ensures Behind(run, steps, n, i)
  {
  }

  /**
   A suspension that succeeded disabled its tenant, scanned afterwards, and whatever others did
   meanwhile, every active key of the tenant that its scan listed is revoked.
   */
  lemma SuspensionEndsTheKeys(run: seq<World>, steps: seq<Step>, n: nat, i: nat)
    requires IsRun(run, steps) && Inv(run[0]) && i !in run[0].clients && n < |run| && i in run[n].clients
    requires run[n].clients[i].task.Suspend? && run[n].clients[i].phase.Succeeded?
    ensures exists d: nat, s: nat :: SweptSince(run, steps, d, s, n, i, run[n].clients[i].task, [])
  {
    hide Next, Inv, DisablesTenant, IsRevoked;
    HistoryIsBehind(run, steps, n, i);
  }

  // ----- what a rejection means -----

  /** A creation is turned away by contention, alone or over conditions that all hold. */
  predicate TurnedAway(t: Tables, c: Client, weather: Weather) {
    weather.Contended? || (weather.Disturbed? && c.task.CreateKey? && AllHold(t, KeyWrites(c.task.key)))
  }

  /** The base error: the write was not evaluated, or turned away for the last time it may be. */
  predicate FailsFor(t: Tables, c: Client, weather: Weather) {
    match c.task
    case CreateKey(_) =>
      weather.Overloaded? || weather.Faulty?
      || (TurnedAway(t, c, weather) && c.attempts + 1 >= 5)
    case RevokeKey(_, _, _) =>
      c.phase.Swapping? && (weather.Overloaded? || weather.Faulty? || weather.Disturbed?
                            || (weather.Contended? && c.attempts + 1 >= 5))
    case _ => !weather.Clear?
  }

  /** The state of affairs an error reports. */
  predicate Justifies(t: Tables, c: Client, weather: Weather, e: StorageError) {
    match e
    case EntityNotFound =>
      (match c.task
       case CreateKey(_) => false
       case RevokeKey(org, id, _) => !IsKeyOf(t, id, org)
       case Suspend(org, _) => org !in t.organizations
       case Reactivate(org, _) => org !in t.organizations)
    case Duplicate(EntityId) => c.task.CreateKey? && c.task.key.id in t.apiKeys
    case Duplicate(ApiKeySegment) => c.task.CreateKey? && SegmentKey(c.task.key.keyId) in t.constraints
    case ReferenceNotFound =>
      c.task.CreateKey? && (c.task.key.organizationId !in t.organizations || c.task.key.createdBy !in t.users)
    case Failed => FailsFor(t, c, weather)
    case _ => false
  }

  lemma KeyTargetsDiffer(k: ApiKey)
    ensures DistinctTargets(KeyWrites(k))
  {
    hide SortKey;
  }

  lemma CreationVerdicts(t: Tables, c: Client, weather: Weather)
    requires c.task.CreateKey?
    ensures |KeyWrites(c.task.key)| == |KeyConflicts()| > 0
    ensures var verdict := Judge(Attempt(t, weather), KeyWrites(c.task.key), KeyConflicts());
            && (verdict == Some(Retry) <==> TurnedAway(t, c, weather))
            && (verdict.Some? && verdict != Some(Retry) ==>
                  verdict.value.Fail?
                  && (verdict.value.error == Failed ==> weather.Overloaded? || weather.Faulty?)
                  && (verdict.value.error != Failed ==> Justifies(t, c, weather, verdict.value.error)))
  {
    hide SortKey, Reasons, MixedReasons, DistinctTargets;
    var ws := KeyWrites(c.task.key);
    KeyTargetsDiffer(c.task.key);
    if Evaluated(weather) && !AllHold(t, ws) {
      var b := Blamed(t, ws);
      assert !Holds(t, ws[b]);
      assert b == 0 || b == 1 || b == 2 || b == 3;
    }
  }

  /** Whenever a call is rejected the error reports what is the case, and nothing was written. */
  lemma RejectionsAreTrue(w: World, step: Step, w': World, i: nat)
    requires Inv(w) && Next(w, step, w') && IsOwnStep(step, i)
    requires !w.clients[i].phase.Rejected? && w'.clients[i].phase.Rejected?
    ensures w'.tables == w.tables && w'.log == w.log
    ensures Justifies(w.tables, w.clients[i], step.weather, w'.clients[i].phase.error)
  {
    hide SortKey, ApiKeysOk, KeysOk, OnePerKey, KeyWrites, KeyConflicts, AllHold, Judge, ItemsAfter;
    var c := w.clients[i];
    assert ClientOk(w.tables, c);
    assert w.log + [] == w.log;
    if c.task.CreateKey? {
      CreationVerdicts(w.tables, c, step.weather);
    }
  }

  // ----- calls come forward -----

  /** The stages a call has left at most. */
  function StagesLeft(phase: Phase): nat {
    match phase
    case Started => 4
    case Swapping => 3
    case Disabling => 3
    case ReadingBack(_) => 2
    case Scanning => 2
    case Sweeping(_) => 1
    case _ => 0
  }

  /** Phases belong to their tasks. */
  predicate FitsTask(c: Client) {
    && (c.phase.Swapping? || c.phase.ReadingBack? ==> c.task.RevokeKey?)
    && (c.phase.Disabling? || c.phase.Scanning? || c.phase.Sweeping? ==> c.task.Suspend?)
  }

  /** A stage behind, or one key fewer to sweep. */
  predicate Forward(phase: Phase, phase': Phase) {
    || StagesLeft(phase') < StagesLeft(phase)
    || (phase.Sweeping? && phase'.Sweeping? && |phase'.ids| < |phase.ids|)
  }

  /**
   A step in peace brings a call forward; a step in any other weather does so too, or
   repeats itself as long as attempts are left. Each interaction has its own attempts.
   */
  lemma StepsComeForward(w: World, step: Step, w': World, i: nat)
    requires Inv(w) && Next(w, step, w') && IsOwnStep(step, i)
    requires FitsTask(w.clients[i]) && StagesLeft(w.clients[i].phase) > 0
    ensures i in w'.clients && FitsTask(w'.clients[i])
    ensures (Forward(w.clients[i].phase, w'.clients[i].phase) && w'.clients[i].attempts == 0)
            || (!step.weather.Clear? && w'.tables == w.tables
                && w'.clients[i] == w.clients[i].(attempts := w.clients[i].attempts + 1)
                && w.clients[i].attempts + 1 < 5)
  {
    hide SortKey, ApiKeysOk, KeysOk, OnePerKey, KeyWrites, KeyConflicts, AllHold, Judge, ItemsAfter, ActiveKeysOf, Glimpsed;
    if w.clients[i].task.CreateKey? {
      CreationVerdicts(w.tables, w.clients[i], step.weather);
    }
  }
}
