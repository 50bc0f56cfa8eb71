/** The moves of one migrator, run without interruption from any reachable state, are the migrate
    operation: wherever the migrator stands, it comes to an end, and its plan is carried out up to the
    first entry that does not run. */
module MigrationAlone {
  import opened Records
  import opened MemoryStore
  import opened MemoryDriver
  import opened Migration
  import opened MigrationRunner
  import Text
  import Statements

  /** The moves for one entry; moves that do not apply change nothing. */
  function EntryAlone(s: State, m: nat, c: nat, k: Context): State {
    var started := Apply(s, Start(m, c, k.beforeEntry || k.atBegin));
    Apply(Apply(Apply(started, Execute(m, k.atExecute)), Publish(m, k.atCommit)), Register(m))
  }

  function EntriesAlone(s: State, m: nat, c: nat, contexts: seq<Context>, n: nat): State
    requires n <= |contexts|
    decreases |contexts| - n
  {
    if n == |contexts| then s else EntriesAlone(EntryAlone(s, m, c, contexts[n]), m, c, contexts, n + 1)
  }

  function MigrateAlone(s: State, m: nat, c: nat, contexts: seq<Context>): State {
    var read := Apply(Apply(s, Lock(m)), Read(m));
    var n := if |s.registry| <= |contexts| then |s.registry| else |contexts|;
    Apply(EntriesAlone(read, m, c, contexts, n), Unlock(m))
  }

  /** A connection that is there and has no open transaction. */
  predicate FreeConnection(s: State, c: nat) {
    c < |s.store.current| && s.store.current[c].None?
  }

  predicate Stands(s: State, m: nat) {
    m < |s.migrators| && s.lock == Some(m)
  }

  // ---------- The moves ----------

  /** Only migrator m changed, and no record. */
  ghost predicate OnlyMigrator(s: State, s': State, m: nat)
    requires m < |s.migrators|
  {
    && |s'.migrators| == |s.migrators| && s'.migrators == s.migrators[m := s'.migrators[m]]
    && s'.migrators[m].plan == s.migrators[m].plan
    && s'.store.records == s.store.records
  }

  /** The migrator ended with a failure and let go of the lock. */
  ghost predicate GaveUp(s: State, s': State, m: nat)
    requires m < |s.migrators|
  {
    && OnlyMigrator(s, s', m) && s'.migrators[m].phase == Finished(false) && s'.lock == None
    && s'.registry == s.registry
  }

  ghost predicate Went(s: State, s': State, m: nat, phase: Phase)
    requires m < |s.migrators|
  {
    && OnlyMigrator(s, s', m) && s'.migrators[m].phase == phase && s'.lock == s.lock
  }

  lemma LockOutcome(s: State, m: nat)
    requires m < |s.migrators|
    ensures
      var s' := Apply(s, Lock(m));
      if s.migrators[m].phase.Waiting? && s.lock.None? then
        && OnlyMigrator(s, s', m) && s'.migrators[m].phase == Locked && s'.lock == Some(m)
        && s'.registry == s.registry && s'.store == s.store
      else s' == s
  {
  }

  /** Reading takes up exactly the entries after the registered ones, if the registry begins the plan. */
  lemma ReadOutcome(s: State, m: nat)
    requires m < |s.migrators|
    ensures
      var s', plan := Apply(s, Read(m)), s.migrators[m].plan;
      if !s.migrators[m].phase.Locked? then s' == s
      else
        && s'.store == s.store
        && if s.registry <= Lines(plan)
           then Went(s, s', m, Pending(plan[|s.registry|..])) && s'.registry == s.registry
           else GaveUp(s, s', m)
  {
    ReconcilesIffPrefix(s.migrators[m].plan, s.registry);
  }

  lemma StartOutcome(s: State, m: nat, c: nat, cancelled: bool)
    requires Invariant(s) && m < |s.migrators| && FreeConnection(s, c)
    ensures
      var s', x := Apply(s, Start(m, c, cancelled)), s.migrators[m];
      if !(x.phase.Pending? && x.phase.todo != []) then s' == s
      else if cancelled then GaveUp(s, s', m) && s'.store == s.store
      else
        && Went(s, s', m, Started(x.phase.todo, |s.store.transactions|)) && s'.registry == s.registry
        && s'.store.transactions == s.store.transactions + [Transaction(c, EMPTY_OVERLAY, false)]
        && s'.store.current == s.store.current[c := Some(|s.store.transactions|)]
  {
    OpeningEffect(s.store, Begin(c));
    hide Step, Invariant;
  }

  /** The rollback of an open transaction frees its connection and changes no record. */
  lemma RollbackEffect(s: Store, t: nat)
    requires Lifecycle(s) && Begun(s, t) && Active(s, t)
    ensures
      var s' := Step(s, Rollback(t)).store;
      s'.records == s.records && s'.current == s.current[s.transactions[t].connection := None]
  {
    EndEffect(s, Rollback(t));
  }

  /** Executing touches the overlay of its own transaction at most. */
  lemma ExecutedFrame(s: Store, t: nat, sql: string)
    requires Lifecycle(s) && Begun(s, t) && Active(s, t)
    ensures
      var s' := Executed(s, t, sql).0;
      && s'.records == s.records && s'.current == s.current && |s'.transactions| == |s.transactions|
      && forall u :: 0 <= u < |s.transactions| ==> s'.transactions[u].connection == s.transactions[u].connection
  {
    hide Text.Fields, Statements.ExecuteIn;
    Statements.OnlyCreateTableMigrates(ViewOf(s, s.transactions[t].connection), sql);
  }

  lemma ExecuteOutcome(s: State, m: nat, cancelled: bool)
    requires Invariant(s) && m < |s.migrators| && s.migrators[m].phase.Started?
    ensures
      var s', todo, t := Apply(s, Execute(m, cancelled)), s.migrators[m].phase.todo, s.migrators[m].phase.t;
      && todo != [] && Begun(s.store, t)
      && var c := s.store.transactions[t].connection;
         if !cancelled && Text.Fields(todo[0].sql) == Text.Fields(Statements.CREATE_ORDERS_TABLE_SQL) then
           && Went(s, s', m, Ran(todo, t)) && s'.registry == s.registry && s'.store.current == s.store.current
           && t < |s'.store.transactions| && s'.store.transactions[t].connection == c
         else GaveUp(s, s', m) && s'.store.current == s.store.current[c := None]
  {
    hide Invariant, Sound, Active, Executed, Step, ToDo, Text.Fields, Lifecycle, Private;
    var Started(todo, t) := s.migrators[m].phase;
    HolderIsSound(s, m);
    StartedIsActive(s, s.migrators[m]);
    StartedHasWork(s, s.migrators[m]);
    ExecutedEffect(s.store, t, todo[0].sql);
    ExecutedFrame(s.store, t, todo[0].sql);
    RollbackEffect(s.store, t);
    RollbackEffect(Executed(s.store, t, todo[0].sql).0, t);
  }

  lemma StartedHasWork(s: State, x: Migrator)
    requires Sound(s, x) && (x.phase.Started? || x.phase.Ran? || x.phase.Published?)
    ensures x.phase.todo != [] && ToDo(x.plan, x.phase.todo, s.registry)
  {
  }

  lemma PublishOutcome(s: State, m: nat, cancelled: bool)
    requires Invariant(s) && m < |s.migrators| && s.migrators[m].phase.Ran?
    ensures
      var s', todo, t := Apply(s, Publish(m, cancelled)), s.migrators[m].phase.todo, s.migrators[m].phase.t;
      && todo != [] && Begun(s.store, t)
      && s'.store.current == s.store.current[s.store.transactions[t].connection := None]
      && if cancelled then GaveUp(s, s', m)
         else Went(s, s', m, Published(todo)) && s'.registry == s.registry && s'.store.schema
  {
    hide Invariant, Sound, Active, Step, ToDo, Lifecycle, Private;
    var Ran(todo, t) := s.migrators[m].phase;
    HolderIsSound(s, m);
    RanIsActive(s, s.migrators[m]);
    StartedHasWork(s, s.migrators[m]);
    RollbackEffect(s.store, t);
    PublishEffect(s.store, t);
    CommitFrame(s.store, t);
  }

  lemma CommitFrame(s: Store, t: nat)
    requires Lifecycle(s) && Begun(s, t) && Active(s, t) && s.transactions[t].overlay == Overlay(map[], true)
    ensures
      var s' := Step(s, Commit(t)).store;
      s'.records == s.records && s'.current == s.current[s.transactions[t].connection := None]
  {
    EndEffect(s, Commit(t));
    assert s.records + map[] == s.records;
  }

  lemma RegisterOutcome(s: State, m: nat)
    requires m < |s.migrators|
    ensures
      var s', x := Apply(s, Register(m)), s.migrators[m];
      && s'.store == s.store
      && if x.phase.Published? && x.phase.todo != []
         then Went(s, s', m, Pending(x.phase.todo[1..])) && s'.registry == s.registry + [Line(x.phase.todo[0])]
         else s' == s
  {
  }

  lemma UnlockOutcome(s: State, m: nat)
    requires m < |s.migrators|
    ensures
      var s' := Apply(s, Unlock(m));
      && s'.store == s.store && s'.registry == s.registry && OnlyMigrator(s, s', m)
      && if s.migrators[m].phase == Pending([]) then s'.migrators[m].phase == Finished(true) && s'.lock == None
         else s' == s
  {
  }

  /** Moves that do not apply change nothing. */
  lemma NothingToDo(s: State, m: nat, c: nat, k: Context)
    requires m < |s.migrators|
    ensures
      var phase := s.migrators[m].phase;
      && (!(phase.Pending? && phase.todo != []) ==> Apply(s, Start(m, c, k.beforeEntry || k.atBegin)) == s)
      && (!phase.Started? ==> Apply(s, Execute(m, k.atExecute)) == s)
      && (!phase.Ran? ==> Apply(s, Publish(m, k.atCommit)) == s)
      && (!phase.Published? ==> Apply(s, Register(m)) == s)
  {
    hide Step, Executed, Private;
  }

  // ---------- One entry ----------

  /** The entry under way will be registered: what is left of it runs. */
  predicate Goes(phase: Phase, e: Entry, k: Context) {
    match phase
    case Started(_, _) =>
      !k.atExecute && !k.atCommit && Text.Fields(e.sql) == Text.Fields(Statements.CREATE_ORDERS_TABLE_SQL)
    case Ran(_, _) => !k.atCommit
    case Published(_) => true
    case _ => Runs(e, k)
  }

  predicate AtWork(phase: Phase) {
    (phase.Pending? || phase.Started? || phase.Ran? || phase.Published?) && phase.todo != []
  }

  ghost predicate EntryDone(s: State, s': State, m: nat, c: nat, goes: bool)
    requires m < |s.migrators| && AtWork(s.migrators[m].phase)
  {
    && FreeConnection(s', c)
    && if goes then
         && Went(s, s', m, Pending(s.migrators[m].phase.todo[1..]))
         && s'.registry == s.registry + [Line(s.migrators[m].phase.todo[0])]
       else GaveUp(s, s', m)
  }

  lemma PublishedDone(s: State, m: nat, c: nat)
    requires m < |s.migrators| && s.migrators[m].phase.Published? && AtWork(s.migrators[m].phase)
    requires Stands(s, m) && FreeConnection(s, c)
    ensures EntryDone(s, Apply(s, Register(m)), m, c, true)
  {
    hide Apply;
    RegisterOutcome(s, m);
  }

  /** The connection of the transaction is c, or c is free. */
  predicate FreeOrOwn(s: State, m: nat, c: nat)
    requires m < |s.migrators| && (s.migrators[m].phase.Started? || s.migrators[m].phase.Ran?)
  {
    var t := s.migrators[m].phase.t;
    && c < |s.store.current|
    && (s.store.current[c].None? || (Begun(s.store, t) && s.store.transactions[t].connection == c))
  }

  lemma RanDone(s: State, m: nat, c: nat, k: Context)
    requires Invariant(s) && m < |s.migrators| && s.migrators[m].phase.Ran? && Stands(s, m) && FreeOrOwn(s, m, c)
    ensures
      var s' := Apply(Apply(s, Publish(m, k.atCommit)), Register(m));
      AtWork(s.migrators[m].phase) && EntryDone(s, s', m, c, !k.atCommit)
  {
    PublishOutcome(s, m, k.atCommit);
    hide Apply, Invariant;
    var published := Apply(s, Publish(m, k.atCommit));
    if k.atCommit {
      NothingToDo(published, m, c, k);
    } else {
      PublishedDone(published, m, c);
    }
  }

  lemma StartedDone(s: State, m: nat, c: nat, k: Context)
    requires Invariant(s) && m < |s.migrators| && s.migrators[m].phase.Started? && Stands(s, m) && FreeOrOwn(s, m, c)
    ensures
      var s' := Apply(Apply(Apply(s, Execute(m, k.atExecute)), Publish(m, k.atCommit)), Register(m));
      && AtWork(s.migrators[m].phase)
      && EntryDone(s, s', m, c, Goes(s.migrators[m].phase, s.migrators[m].phase.todo[0], k))
  {
    ExecuteOutcome(s, m, k.atExecute);
    ApplyKeeps(s, Execute(m, k.atExecute));
    hide Apply, Invariant, Text.Fields;
    var ran := Apply(s, Execute(m, k.atExecute));
    if ran.migrators[m].phase.Ran? {
      HolderIsSound(ran, m);
      RanIsActive(ran, ran.migrators[m]);
      RanDone(ran, m, c, k);
    } else {
      NothingToDo(ran, m, c, k);
    }
  }

  lemma EntryOutcome(s: State, m: nat, c: nat, k: Context)
    requires Invariant(s) && Stands(s, m) && FreeConnection(s, c) && AtWork(s.migrators[m].phase)
    ensures EntryDone(s, EntryAlone(s, m, c, k), m, c, Goes(s.migrators[m].phase, s.migrators[m].phase.todo[0], k))
  {
    hide Apply, Invariant, Text.Fields;
    NothingToDo(s, m, c, k);
    match s.migrators[m].phase
    case Pending(todo) =>
      StartOutcome(s, m, c, k.beforeEntry || k.atBegin);
      ApplyKeeps(s, Start(m, c, k.beforeEntry || k.atBegin));
      var started := Apply(s, Start(m, c, k.beforeEntry || k.atBegin));
      if k.beforeEntry || k.atBegin {
        NothingToDo(started, m, c, k);
      } else {
        HolderIsSound(started, m);
        StartedIsActive(started, started.migrators[m]);
        StartedDone(started, m, c, k);
      }
    case Started(todo, t) => StartedDone(s, m, c, k);
    case Ran(todo, t) => RanDone(s, m, c, k);
    case Published(todo) => PublishedDone(s, m, c);
  }

  lemma EntryKeeps(s: State, m: nat, c: nat, k: Context)
    requires Invariant(s)
    ensures Invariant(EntryAlone(s, m, c, k))
  {
    hide Apply, Invariant;
    var started := Apply(s, Start(m, c, k.beforeEntry || k.atBegin));
    var ran := Apply(started, Execute(m, k.atExecute));
    ApplyKeeps(s, Start(m, c, k.beforeEntry || k.atBegin));
    ApplyKeeps(started, Execute(m, k.atExecute));
    ApplyKeeps(ran, Publish(m, k.atCommit));
    ApplyKeeps(Apply(ran, Publish(m, k.atCommit)), Register(m));
  }

  // ---------- All entries ----------

  lemma {:induction false} NothingLeft(s: State, m: nat, c: nat, contexts: seq<Context>, n: nat)
    requires m < |s.migrators| && n <= |contexts|
    requires s.migrators[m].phase.Finished? || s.migrators[m].phase == Pending([])
    ensures EntriesAlone(s, m, c, contexts, n) == s
    decreases |contexts| - n
  {
    if n < |contexts| {
      hide Apply;
      NothingToDo(s, m, c, contexts[n]);
      NothingLeft(s, m, c, contexts, n + 1);
    }
  }

  /** How far the plan comes, from the entry under way on. */
  function Reaches(x: Migrator, contexts: seq<Context>, n: nat): nat
    requires n <= |x.plan| == |contexts|
  {
    if n == |x.plan| || !Goes(x.phase, x.plan[n], contexts[n]) then n else Progress(x.plan, contexts, n + 1)
  }

  ghost predicate EntriesDone(s: State, s': State, m: nat, k: nat)
    requires m < |s.migrators| && k <= |s.migrators[m].plan|
  {
    var plan := s.migrators[m].plan;
    && OnlyMigrator(s, s', m) && s'.registry == Lines(plan[..k])
    && if k == |plan| then s'.migrators[m].phase == Pending([]) && s'.lock == s.lock
       else s'.migrators[m].phase == Finished(false) && s'.lock == None
  }

  ghost predicate Ready(s: State, m: nat, c: nat) {
    && Stands(s, m) && FreeConnection(s, c)
    && (AtWork(s.migrators[m].phase) || s.migrators[m].phase == Pending([]))
    && ToDo(s.migrators[m].plan, s.migrators[m].phase.todo, s.registry)
  }

  lemma RegistryIs(plan: seq<Entry>, registry: seq<Applied>)
    requires Reconciles(plan, registry)
    ensures registry == Lines(plan[..|registry|])
  {
  }

  lemma {:induction false} EntriesOutcome(s: State, m: nat, c: nat, contexts: seq<Context>)
    requires Invariant(s) && Ready(s, m, c) && |contexts| == |s.migrators[m].plan|
    ensures EntriesDone(s, EntriesAlone(s, m, c, contexts, |s.registry|), m,
                        Reaches(s.migrators[m], contexts, |s.registry|))
    decreases |contexts| - |s.registry|
  {
    hide Apply, Invariant, EntryAlone, Runs;
    var x, n := s.migrators[m], |s.registry|;
    RegistryIs(x.plan, s.registry);
    if n == |x.plan| {
      assert x.plan[..n] == x.plan;
    } else {
      assert x.phase.todo != [] && x.phase.todo[0] == x.plan[n];
      EntryOutcome(s, m, c, contexts[n]);
      EntryKeeps(s, m, c, contexts[n]);
      var s' := EntryAlone(s, m, c, contexts[n]);
      if Goes(x.phase, x.plan[n], contexts[n]) {
        RegisterFirst(x.plan, x.phase.todo, s.registry);
        EntriesOutcome(s', m, c, contexts);
        ProgressIsReach(s'.migrators[m], contexts, n + 1);
      } else {
        NothingLeft(s', m, c, contexts, n + 1);
      }
    }
  }

  lemma ProgressIsReach(x: Migrator, contexts: seq<Context>, n: nat)
    requires n <= |x.plan| == |contexts| && (x.phase.Pending? || x.phase.Locked? || x.phase.Waiting?)
    ensures Reaches(x, contexts, n) == Progress(x.plan, contexts, n)
  {
    hide Runs;
  }

  // ---------- The whole migration ----------

  /** The migrator has ended, successfully exactly when its whole plan is registered, and let go of the
      lock; only it changed. */
  ghost predicate Migrated(s: State, s': State, m: nat, k: nat)
    requires m < |s.migrators| && k <= |s.migrators[m].plan|
  {
    var plan := s.migrators[m].plan;
    && OnlyMigrator(s, s', m) && s'.registry == Lines(plan[..k]) && s'.lock == None
    && s'.migrators[m].phase == Finished(k == |plan|)
  }

  lemma MigratesFrom(s: State, m: nat, c: nat, contexts: seq<Context>)
    requires Invariant(s) && Ready(s, m, c) && |contexts| == |s.migrators[m].plan|
    ensures Migrated(s, Apply(EntriesAlone(s, m, c, contexts, |s.registry|), Unlock(m)), m,
                     Reaches(s.migrators[m], contexts, |s.registry|))
  {
    hide Apply, Invariant, EntriesAlone, Reaches, Lines;
    EntriesOutcome(s, m, c, contexts);
    UnlockOutcome(EntriesAlone(s, m, c, contexts, |s.registry|), m);
  }

  /** From every reachable state: a migrator that waits while the lock is free, or that holds the lock at
      whatever point, is brought to its end by its own moves. If the registry begins its plan, the plan
      is carried out up to the first entry that does not run, as the migrate operation does; otherwise
      it is refused and nothing changes but its phase. */
  lemma MigratesAlone(schema: bool, moves: seq<Move>, m: nat, c: nat, contexts: seq<Context>)
    requires m < |After(schema, moves).migrators| && |contexts| == |After(schema, moves).migrators[m].plan|
    requires FreeConnection(After(schema, moves), c)
    requires
      var s := After(schema, moves);
      s.lock == Some(m) || (s.lock.None? && s.migrators[m].phase.Waiting?)
    ensures
      var s := After(schema, moves);
      var s', x := MigrateAlone(s, m, c, contexts), s.migrators[m];
      if s.registry <= Lines(x.plan) then Migrated(s, s', m, Reaches(x, contexts, |s.registry|))
      else GaveUp(s, s', m) && s'.store == s.store && (x.phase.Waiting? || x.phase.Locked?)
  {
    AfterKeeps(schema, moves);
    hide After;
    InvariantMigratesAlone(After(schema, moves), m, c, contexts);
  }

  lemma AtWorkReconciles(s: State, m: nat)
    requires Invariant(s) && m < |s.migrators| && InSection(s.migrators[m]) && !s.migrators[m].phase.Locked?
    ensures ToDo(s.migrators[m].plan, s.migrators[m].phase.todo, s.registry)
    ensures AtWork(s.migrators[m].phase) || s.migrators[m].phase == Pending([])
  {
    assert Sound(s, s.migrators[m]);
  }

  lemma HolderInSection(s: State, m: nat)
    requires Invariant(s) && m < |s.migrators|
    ensures s.lock == Some(m) <==> InSection(s.migrators[m])
  {
  }

  lemma InvariantMigratesAlone(s: State, m: nat, c: nat, contexts: seq<Context>)
    requires Invariant(s) && m < |s.migrators| && |contexts| == |s.migrators[m].plan| && FreeConnection(s, c)
    requires s.lock == Some(m) || (s.lock.None? && s.migrators[m].phase.Waiting?)
    ensures
      var s', x := MigrateAlone(s, m, c, contexts), s.migrators[m];
      if s.registry <= Lines(x.plan) then Migrated(s, s', m, Reaches(x, contexts, |s.registry|))
      else GaveUp(s, s', m) && s'.store == s.store && (x.phase.Waiting? || x.phase.Locked?)
  {
    hide Apply, Invariant, EntriesAlone, Runs, Lines;
    var x, locked := s.migrators[m], Apply(s, Lock(m));
    var read := Apply(locked, Read(m));
    LockOutcome(s, m);
    ApplyKeeps(s, Lock(m));
    ReadOutcome(locked, m);
    ApplyKeeps(locked, Read(m));
    ReconcilesIffPrefix(x.plan, s.registry);
    HolderInSection(s, m);
    if x.phase.Waiting? || x.phase.Locked? {
      if s.registry <= Lines(x.plan) {
        MigratesFrom(read, m, c, contexts);
        ProgressIsReach(x, contexts, |s.registry|);
        ProgressIsReach(read.migrators[m], contexts, |s.registry|);
      } else {
        NothingLeft(read, m, c, contexts, if |s.registry| <= |contexts| then |s.registry| else |contexts|);
        UnlockOutcome(read, m);
      }
    } else {
      AtWorkReconciles(s, m);
      MigratesFrom(s, m, c, contexts);
    }
  }

  // ---------- Clients ----------

  /** The action does not reach into the open transaction of a migrator. */
  predicate Elsewhere(s: State, a: Action) {
    forall m :: 0 <= m < |s.migrators| && (s.migrators[m].phase.Started? || s.migrators[m].phase.Ran?) ==>
      var t := s.migrators[m].phase.t;
      && a != Commit(t) && a != Rollback(t)
      && (a.Connect? || a.Commit? || a.Rollback?
          || (t < |s.store.transactions| ==> a.c != s.store.transactions[t].connection))
  }

  /** What clients do elsewhere is carried out as it is, whatever the migrators are at. */
  lemma ClientsAct(s: State, a: Action)
    requires Elsewhere(s, a)
    ensures Apply(s, Client(a)) == s.(store := Step(s.store, a).store)
  {
    hide Step;
  }

  /** At first nothing is registered, nobody migrates, and the schema is there or not, as told. */
  lemma StartsUnmigrated(schema: bool)
    ensures
      var s := After(schema, []);
      && s.store.schema == schema && s.store.records == map[] && s.store.current == [] && s.store.transactions == []
      && s.registry == [] && s.lock == None && s.migrators == []
  {
  }

  /** A migrator with an ordered plan arrives, and waits. */
  lemma MigratorsArrive(s: State, plan: seq<Entry>)
    requires forall i, j :: 0 <= i < j < |plan| ==> plan[i].version < plan[j].version
    ensures Apply(s, Arrive(plan)) == s.(migrators := s.migrators + [Migrator(plan, Waiting)])
  {
  }
}
