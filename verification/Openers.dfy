/**
 Several processes opening one SQLite file at once. Each reads the stamp without a lock,
 then builds a fresh schema statement by statement, or migrates in one transaction, and may
 crash anywhere. The file is never left between two shapes, and is migrated at most once.
 */
module Openers {
  import opened Outcomes
  import opened Migrations

  datatype Phase =
    | Opening
    | Building(next: nat)
    | Migrating(version: nat)
    | AddingSessions(next: nat)
    | Ready
    | Refused

  /** migrated counts the committed migration transactions. */
  datatype World = World(file: Database, openers: map<nat, Phase>, migrated: nat)

  datatype Step =
    | Open(opener: nat)
    | ReadStamp(opener: nat)
    | Run(opener: nat)
    | Migrate(opener: nat, fails: bool)
    | Crash(opener: nat)
    | Use

  /** Stamp dispatch of _ensure_schema. */
  function Dispatch(stamp: nat): Phase {
    if stamp == 0 then Building(0)
    else if stamp == SCHEMA_VERSION then AddingSessions(0)
    else if IsMigratable(stamp) then Migrating(stamp)
    else Refused
  }

  function MovedTo(w: World, i: nat, phase: Phase): World {
    w.(openers := w.openers[i := phase])
  }

  /** One idempotent statement, committed on its own. */
  ghost predicate Runs(w: World, i: nat, w': World)
    requires i in w.openers
  {
    match w.openers[i]
    case Building(n) =>
      n < |SchemaStatements()|
      && var after := Execute(w.file, SchemaStatements()[n]);
         w' == if after.None? then MovedTo(w, i, Refused)
               else
                 var next := if n + 1 == |SchemaStatements()| then AddingSessions(0) else Building(n + 1);
                 MovedTo(w, i, next).(file := after.value)
    case AddingSessions(n) =>
      n < |SessionStatements()|
      && var after := Execute(w.file, SessionStatements()[n]);
         w' == if after.None? then MovedTo(w, i, Refused)
               else
                 var next := if n + 1 == |SessionStatements()| then Ready else AddingSessions(n + 1);
                 MovedTo(w, i, next).(file := after.value)
    case _ => false
  }

  /** The locked transaction: skipped on a newer stamp, rolled back on a failure, else the chain. */
  ghost predicate Migrates(w: World, i: nat, version: nat, fails: bool, w': World) {
    if w.file.stamp != version then w' == MovedTo(w, i, AddingSessions(0))
    else
      var after := if IsMigratable(version) then Chain(w.file, version) else None;
      if fails || after.None? then w' == MovedTo(w, i, Refused)
      else w' == MovedTo(w, i, AddingSessions(0)).(file := after.value, migrated := w.migrated + 1)
  }

  ghost predicate Next(w: World, step: Step, w': World) {
    match step
    case Open(i) => i !in w.openers && w' == MovedTo(w, i, Opening)
    case ReadStamp(i) => i in w.openers && w.openers[i].Opening? && w' == MovedTo(w, i, Dispatch(w.file.stamp))
    case Run(i) => i in w.openers && Runs(w, i, w')
    case Migrate(i, fails) =>
      i in w.openers && w.openers[i].Migrating? && Migrates(w, i, w.openers[i].version, fails, w')
    case Crash(i) => i in w.openers && w' == w.(openers := w.openers - {i})
    case Use =>
      && (exists i :: i in w.openers && w.openers[i].Ready?)
      && HasShape(w'.file, SCHEMA_VERSION) && w'.file.tables.Keys == w.file.tables.Keys
      && w' == w.(file := w'.file)
  }

  // ----- invariant -----

  /** What a fresh build may have left so far: tables and indexes of the current shape. */
  ghost predicate Partial(db: Database) {
    && db.stamp == 0
    && (forall t | t in db.tables :: TableOk(t, db.tables[t], SCHEMA_VERSION))
    && db.indexes <= IndexesAt(SCHEMA_VERSION)
  }

  ghost predicate FileOk(db: Database) {
    Partial(db) || (1 <= db.stamp <= SCHEMA_VERSION && HasShape(db, db.stamp))
  }

  predicate Present(db: Database, s: Statement) {
    match s
    case CreateTable(t, _) => t in db.tables
    case CreateIndex(i, _) => i in db.indexes
    case _ => true
  }

  ghost predicate PhaseOk(db: Database, phase: Phase) {
    match phase
    case Building(n) =>
      && n < |SchemaStatements()| && (db.stamp == 0 || db.stamp == SCHEMA_VERSION)
      && forall m | 0 <= m < n :: Present(db, SchemaStatements()[m])
    case Migrating(v) => IsMigratable(v) && (db.stamp == v || db.stamp == SCHEMA_VERSION)
    case AddingSessions(n) =>
      && n < |SessionStatements()| && db.stamp == SCHEMA_VERSION
      && forall m | 0 <= m < n :: Present(db, SessionStatements()[m])
    case Ready => db.stamp == SCHEMA_VERSION && OauthLoginStates in db.tables && AppSessions in db.tables
    case _ => true
  }

  ghost predicate Inv(w: World) {
    && FileOk(w.file)
    && (forall i | i in w.openers :: PhaseOk(w.file, w.openers[i]))
    && (w.migrated <= 1 && (w.migrated == 1 ==> w.file.stamp == SCHEMA_VERSION))
  }

  /** The file only moves forward, and loses no table or index that a phase relies on. */
  ghost predicate Advances(db: Database, db': Database) {
    && (db'.stamp == db.stamp || db'.stamp == SCHEMA_VERSION)
    && db.tables.Keys <= db'.tables.Keys
    && (db.stamp == 0 || db.stamp == SCHEMA_VERSION ==> db.indexes <= db'.indexes)
  }

  lemma PhaseStays(db: Database, db': Database, phase: Phase)
    requires PhaseOk(db, phase) && Advances(db, db')
    ensures PhaseOk(db', phase)
  {
    hide SchemaStatements, SessionStatements;
  }

  /** Every statement of the fresh schema finds its table, and keeps the file in shape. */
  lemma BuildStep(db: Database, n: nat)
    requires FileOk(db) && (db.stamp == 0 || db.stamp == SCHEMA_VERSION) && n < |SchemaStatements()|
    requires forall m | 0 <= m < n :: Present(db, SchemaStatements()[m])
    ensures var after := Execute(db, SchemaStatements()[n]);
            && after.Some? && FileOk(after.value) && Advances(db, after.value)
            && (forall m | 0 <= m <= n :: Present(after.value, SchemaStatements()[m]))
            && (n + 1 == |SchemaStatements()| ==> after.value.stamp == SCHEMA_VERSION)
  {
    hide ColumnsAt;
    var ss := SchemaStatements();
    if n == 12 {
      AllPresent(db);
    } else {
      TableComesFirst(db, n);
      CreatesCurrentShape(db, ss[n]);
    }
  }

  lemma TableComesFirst(db: Database, n: nat)
    requires n < 12 && forall m | 0 <= m < n :: Present(db, SchemaStatements()[m])
    ensures var s := SchemaStatements()[n];
            (s.CreateTable? && s.ifNotExists && !IsSessionTable(s.table))
            || (s.CreateIndex? && s.ifNotExists && TableOf(s.index) in db.tables && s.index in IndexesAt(SCHEMA_VERSION))
  {
    var ss := SchemaStatements();
    assert n > 0 ==> Present(db, ss[n - 1]);
    assert n > 1 ==> Present(db, ss[n - 2]);
  }

  lemma CreatesCurrentShape(db: Database, s: Statement)
    requires FileOk(db) && (db.stamp == 0 || db.stamp == SCHEMA_VERSION)
    requires (s.CreateTable? && s.ifNotExists)
             || (s.CreateIndex? && s.ifNotExists && TableOf(s.index) in db.tables && s.index in IndexesAt(SCHEMA_VERSION))
    ensures var after := Execute(db, s);
            && after.Some? && FileOk(after.value) && Advances(db, after.value) && Present(after.value, s)
            && after.value.stamp == db.stamp
  {
    hide ColumnsAt, IndexesAt;
  }

  /** When all statements but the stamp are done, the shape is complete. */
  lemma AllPresent(db: Database)
    requires FileOk(db) && (db.stamp == 0 || db.stamp == SCHEMA_VERSION)
    requires forall m | 0 <= m < 12 :: Present(db, SchemaStatements()[m])
    ensures HasShape(db.(stamp := SCHEMA_VERSION), SCHEMA_VERSION)
  {
    hide ColumnsAt;
    var ss := SchemaStatements();
    assert Present(db, ss[0]) && Present(db, ss[1]) && Present(db, ss[2]) && Present(db, ss[3]);
    assert Present(db, ss[4]) && Present(db, ss[5]) && Present(db, ss[6]) && Present(db, ss[7]);
    assert Present(db, ss[8]) && Present(db, ss[9]) && Present(db, ss[10]) && Present(db, ss[11]);
  }

  lemma RunKeepsInv(w: World, i: nat, w': World)
    requires Inv(w) && i in w.openers && Runs(w, i, w')
    ensures Inv(w')
  {
    hide FileOk, Advances, Execute, SchemaStatements;
    var s := if w.openers[i].Building? then SchemaStatements()[w.openers[i].next] else SessionStatements()[w.openers[i].next];
    if w.openers[i].Building? {
      BuildStep(w.file, w.openers[i].next);
    } else {
      CreatesCurrentShape(w.file, s);
    }
    assert FileOk(w'.file) && Advances(w.file, w'.file);
    assert w'.file.stamp == w.file.stamp || w'.file.stamp == SCHEMA_VERSION by { StampAdvances(w.file, w'.file); }
    forall j | j in w.openers ensures PhaseOk(w'.file, w.openers[j]) {
      PhaseStays(w.file, w'.file, w.openers[j]);
    }
    NextPhaseOk(w'.file, w.openers[i], w'.openers[i]);
  }

  lemma NextPhaseOk(db': Database, phase: Phase, next: Phase)
    requires PhaseOk(db', phase) && (phase.Building? || phase.AddingSessions?)
    requires phase.Building? ==>
               && (forall m | 0 <= m <= phase.next :: Present(db', SchemaStatements()[m]))
               && (phase.next + 1 == |SchemaStatements()| ==> db'.stamp == SCHEMA_VERSION)
               && next == if phase.next + 1 == |SchemaStatements()| then AddingSessions(0) else Building(phase.next + 1)
    requires phase.AddingSessions? ==>
               && Present(db', SessionStatements()[phase.next])
               && next == if phase.next + 1 == |SessionStatements()| then Ready else AddingSessions(phase.next + 1)
    ensures PhaseOk(db', next)
  {
    hide SchemaStatements;
    if next.Ready? {
      assert Present(db', SessionStatements()[0]) && Present(db', SessionStatements()[1]);
    }
  }

  lemma StampAdvances(db: Database, db': Database)
    requires Advances(db, db')
    ensures db'.stamp == db.stamp || db'.stamp == SCHEMA_VERSION
  {
  }

  lemma MigrateKeepsInv(w: World, i: nat, fails: bool, w': World)
    requires Inv(w) && i in w.openers && w.openers[i].Migrating? && Migrates(w, i, w.openers[i].version, fails, w')
    ensures Inv(w')
  {
    hide HasShape, Chain, SchemaStatements, RowsKept;
    var v := w.openers[i].version;
    if w.file.stamp == v {
      assert HasShape(w.file, v);
      ChainConverges(w.file, v);
      assert Chain(w.file, v).value.stamp == SCHEMA_VERSION && w.file.tables.Keys <= Chain(w.file, v).value.tables.Keys by {
        ChainStamps(w.file, v);
      }
      if w'.file != w.file {
        forall j | j in w.openers ensures PhaseOk(w'.file, w.openers[j]) {
          PhaseStays(w.file, w'.file, w.openers[j]);
        }
      }
    }
  }

  lemma ChainStamps(db: Database, version: nat)
    requires IsMigratable(version) && Chain(db, version).Some?
    requires HasShape(Chain(db, version).value, SCHEMA_VERSION)
    requires RowsKept(db, Chain(db, version).value, version, SCHEMA_VERSION)
    ensures Chain(db, version).value.stamp == SCHEMA_VERSION
    ensures db.tables.Keys <= Chain(db, version).value.tables.Keys
  {
    hide Chain;
  }

  lemma NextKeepsInv(w: World, step: Step, w': World)
    requires Inv(w) && Next(w, step, w')
    ensures Inv(w')
  {
    hide SchemaStatements, Runs, Migrates;
    match step {
      case Run(i) => RunKeepsInv(w, i, w');
      case Migrate(i, fails) => MigrateKeepsInv(w, i, fails, w');
      case Use =>
        forall j | j in w.openers ensures PhaseOk(w'.file, w.openers[j]) {
          UseAdvances(w, w');
          PhaseStays(w.file, w'.file, w.openers[j]);
        }
      case ReadStamp(i) => ThirteenStatements();
      case _ =>
    }
  }

  lemma ThirteenStatements()
    ensures |SchemaStatements()| == 13 && |SessionStatements()| == 2
  {
  }

  lemma UseAdvances(w: World, w': World)
    requires Inv(w) && Next(w, Use, w')
    ensures Advances(w.file, w'.file)
  {
    hide SchemaStatements, SessionStatements;
  }

  /** A run may start on an empty file, or on one of any version. */
  lemma QuietStart(db: Database)
    requires db == Database(0, map[], {}) || (1 <= db.stamp <= SCHEMA_VERSION && HasShape(db, db.stamp))
    ensures Inv(World(db, map[], 0))
  {
    hide IndexesAt, ColumnsAt;
  }

  // ----- runs -----

  ghost predicate IsRun(run: seq<World>, steps: seq<Step>) {
    && |run| == |steps| + 1
    && forall n | 0 <= n < |steps| :: Next(run[n], steps[n], run[n + 1])
  }

  /**
   However many openers race and wherever they crash, the file always has the shape of its
   stamp or is a fresh file still being built, at most one migration is ever committed, and
   whoever is ready sees the complete current shape.
   */
  lemma {:induction false} OpenersConverge(run: seq<World>, steps: seq<Step>, n: nat)
    requires IsRun(run, steps) && Inv(run[0]) && n < |run|
    ensures Inv(run[n]) && run[n].migrated <= 1
    ensures forall i | i in run[n].openers && run[n].openers[i].Ready? ::
              HasShape(run[n].file, SCHEMA_VERSION) && forall t: TableName :: t in run[n].file.tables
  {
    hide Next, HasShape, SchemaStatements;
    if n > 0 {
      OpenersConverge(run, steps, n - 1);
      NextKeepsInv(run[n - 1], steps[n - 1], run[n]);
    }
    forall i | i in run[n].openers && run[n].openers[i].Ready?
      ensures HasShape(run[n].file, SCHEMA_VERSION) && forall t: TableName :: t in run[n].file.tables
    {
      assert PhaseOk(run[n].file, run[n].openers[i]);
      ReadyIsComplete(run[n].file);
    }
  }

  // ----- what becomes of one opener, and of the rows -----

  /** A file with a stamp this version does not know is refused, and left as it is. */
  lemma UnknownStampIsRefused(w: World, i: nat, w': World)
    requires Next(w, ReadStamp(i), w') && w.file.stamp > 5
    ensures w'.openers[i].Refused? && w'.file == w.file
  {
  }

  /** On a file of a known version only a failed migration of one's own refuses the file. */
  lemma RefusalHasItsCause(w: World, step: Step, w': World, i: nat)
    requires Inv(w) && Next(w, step, w') && i in w.openers && !w.openers[i].Refused? && i in w'.openers
    ensures w'.openers[i].Refused? <==>
              step == Migrate(i, true) && w.openers[i] == Migrating(w.file.stamp)
  {
    hide SchemaStatements, SessionStatements, HasShape, Execute, Chain, RowsKept;
    match step {
      case Run(j) => if j == i { RunSucceeds(w, i, w'); }
      case Migrate(j, fails) =>
        if j == i && w.file.stamp == w.openers[i].version {
          assert HasShape(w.file, w.file.stamp);
          ChainConverges(w.file, w.file.stamp);
        }
      case _ =>
    }
  }

  lemma RunSucceeds(w: World, i: nat, w': World)
    requires Inv(w) && i in w.openers && Runs(w, i, w')
    ensures !w'.openers[i].Refused?
  {
    hide FileOk, Advances, Execute, SchemaStatements;
    if w.openers[i].Building? {
      BuildStep(w.file, w.openers[i].next);
    } else {
      CreatesCurrentShape(w.file, SessionStatements()[w.openers[i].next]);
    }
  }

  /** How many steps an opener has ahead at most. */
  function StepsLeft(phase: Phase): int {
    match phase
    case Opening => 16
    case Building(n) => 15 - n
    case Migrating(_) => 3
    case AddingSessions(n) => 2 - n
    case Ready => 0
    case Refused => 0
  }

  /** Every step of one's own comes closer to the end, and nobody else's step sets one back. */
  lemma StepsComeForward(w: World, step: Step, w': World, i: nat)
    requires Inv(w) && Next(w, step, w') && i in w.openers && i in w'.openers
    ensures StepsLeft(w.openers[i]) >= 0
    ensures if step == ReadStamp(i) || step == Run(i) || (step.Migrate? && step.opener == i)
            then StepsLeft(w'.openers[i]) < StepsLeft(w.openers[i]) else w'.openers[i] == w.openers[i]
  {
    hide SchemaStatements, HasShape, Execute, Chain, FileOk;
    ThirteenStatements();
  }

  /** The step an opener takes next. */
  function NextStep(i: nat, phase: Phase): Step {
    match phase
    case Opening => ReadStamp(i)
    case Migrating(_) => Migrate(i, false)
    case _ => Run(i)
  }

  /** An opener under way can always go on, and does not end refused unless a migration fails. */
  lemma OpenersCanGoOn(w: World, i: nat)
    requires Inv(w) && i in w.openers && !w.openers[i].Ready? && !w.openers[i].Refused?
    ensures exists w' :: Next(w, NextStep(i, w.openers[i]), w') && i in w'.openers && !w'.openers[i].Refused?
  {
    hide SchemaStatements, SessionStatements, HasShape, Execute, Chain, FileOk;
    ThirteenStatements();
    var w' := Continued(w, i);
    RefusalHasItsCause(w, NextStep(i, w.openers[i]), w', i);
  }

  ghost function Continued(w: World, i: nat): (w': World)
    requires Inv(w) && i in w.openers && !w.openers[i].Ready? && !w.openers[i].Refused?
    ensures Next(w, NextStep(i, w.openers[i]), w') && i in w'.openers
  {
    ThirteenStatements();
    match w.openers[i]
    case Opening => MovedTo(w, i, Dispatch(w.file.stamp))
    case Building(n) =>
      var after := Execute(w.file, SchemaStatements()[n]);
      if after.None? then MovedTo(w, i, Refused)
      else MovedTo(w, i, if n + 1 == |SchemaStatements()| then AddingSessions(0) else Building(n + 1)).(file := after.value)
    case AddingSessions(n) =>
      var after := Execute(w.file, SessionStatements()[n]);
      if after.None? then MovedTo(w, i, Refused)
      else MovedTo(w, i, if n + 1 == |SessionStatements()| then Ready else AddingSessions(n + 1)).(file := after.value)
    case Migrating(v) =>
      if w.file.stamp != v then MovedTo(w, i, AddingSessions(0))
      else
        var after := if IsMigratable(v) then Chain(w.file, v) else None;
        if after.None? then MovedTo(w, i, Refused)
        else MovedTo(w, i, AddingSessions(0)).(file := after.value, migrated := w.migrated + 1)
  }

  /** Tables stay with their rows. */
  ghost predicate SameRows(db: Database, db': Database) {
    forall t | t in db.tables :: t in db'.tables && db'.tables[t].rows == db.tables[t].rows
  }

  lemma CreatingKeepsRows(db: Database, s: Statement)
    requires Execute(db, s).Some? && (s.CreateTable? || s.CreateIndex? || s.SetStamp?)
    ensures SameRows(db, Execute(db, s).value)
  {
    hide ColumnsAt;
  }

  lemma StatementKinds(n: nat)
    ensures n < |SchemaStatements()| ==>
              var s := SchemaStatements()[n]; s.CreateTable? || s.CreateIndex? || s.SetStamp?
    ensures n < |SessionStatements()| ==> SessionStatements()[n].CreateTable?
  {
  }

  /** Opening loses no row: a migration extends each as stated, and any other step leaves them. */
  lemma NoRowIsLost(w: World, step: Step, w': World)
    requires Inv(w) && Next(w, step, w') && !step.Use?
    ensures if step.Migrate? && w'.migrated > w.migrated
            then w.file.stamp > 0 && w'.file.stamp == 5 && RowsKept(w.file, w'.file, w.file.stamp, 5)
            else SameRows(w.file, w'.file)
  {
    hide SchemaStatements, SessionStatements, HasShape, Execute, Chain, RowsKept, SameRows;
    assert SameRows(w.file, w.file) by { NothingLost(w.file); }
    match step {
      case Run(i) =>
        if w.openers[i].Building? {
          StatementKinds(w.openers[i].next);
          if Execute(w.file, SchemaStatements()[w.openers[i].next]).Some? {
            CreatingKeepsRows(w.file, SchemaStatements()[w.openers[i].next]);
          }
        } else {
          StatementKinds(w.openers[i].next);
          if Execute(w.file, SessionStatements()[w.openers[i].next]).Some? {
            CreatingKeepsRows(w.file, SessionStatements()[w.openers[i].next]);
          }
        }
      case Migrate(i, fails) =>
        if w.file.stamp == w.openers[i].version {
          assert HasShape(w.file, w.file.stamp);
          ChainConverges(w.file, w.file.stamp);
          assert Chain(w.file, w.file.stamp).value.stamp == SCHEMA_VERSION by { ChainStamps(w.file, w.file.stamp); }
        }
      case _ =>
    }
  }

  lemma NothingLost(db: Database)
    ensures SameRows(db, db)
  {
  }

  lemma ReadyIsComplete(db: Database)
    requires FileOk(db) && PhaseOk(db, Ready)
    ensures HasShape(db, SCHEMA_VERSION) && forall t: TableName :: t in db.tables
  {
  }
}
