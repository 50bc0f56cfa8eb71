/** The migration registry under any number of interleaved migrators.

    A migrator takes the migration lock, reads the registry and reconciles it with its plan: the
    registry has to be an exact prefix of the plan, otherwise the migrator fails. For each entry of
    the rest of the plan it begins a transaction, executes the entry's statement, commits, and only
    then appends the entry to the registry; the first failure ends it. Between any two of its steps,
    other clients may use the store through connections of their own, and other migrators wait for
    the lock.
  */
module Migration {
  import opened Records
  import opened MemoryStore
  import Text
  import Statements
  import opened MemoryDriver

  /** One entry of a migration plan. */
  datatype Entry = Entry(version: nat, moduleID: string, name: string, checksum: string, sql: string)

  function Line(e: Entry): Applied {
    Applied(e.version, e.moduleID, e.name, e.checksum)
  }

  /** A registered line says the version, module, name and checksum of its entry, so lines are equal
      exactly when all four are. */
  lemma LineIff(e: Entry, f: Entry)
    ensures Line(e) == Line(f)
       <==> e.version == f.version && e.moduleID == f.moduleID && e.name == f.name && e.checksum == f.checksum
    ensures
      var line := Line(e);
      line.version == e.version && line.moduleID == e.moduleID && line.name == e.name && line.checksum == e.checksum
  {
  }

  function Lines(entries: seq<Entry>): (lines: seq<Applied>)
    ensures |lines| == |entries|
    ensures forall i :: 0 <= i < |entries| ==> lines[i] == Line(entries[i])
  {
    seq(|entries|, i requires 0 <= i < |entries| => Line(entries[i]))
  }

  /** Plans are ordered by version, and no two entries share one. */
  predicate Ordered(plan: seq<Entry>) {
    forall i, j :: 0 <= i < j < |plan| ==> plan[i].version < plan[j].version
  }

  /** Every registered line agrees with the plan entry at its position, in version, module, name and
      checksum. */
  predicate Reconciles(plan: seq<Entry>, registry: seq<Applied>) {
    |registry| <= |plan| && forall i :: 0 <= i < |registry| ==> registry[i] == Line(plan[i])
  }

  /** The registry reconciles with exactly those plans whose lines it begins. */
  lemma ReconcilesIffPrefix(plan: seq<Entry>, registry: seq<Applied>)
    ensures Reconciles(plan, registry) <==> registry <= Lines(plan)
  {
    if Reconciles(plan, registry) {
      assert registry == Lines(plan)[..|registry|];
    }
  }

  /** Versions are registered in ascending order, so none twice. */
  predicate Ascending(registry: seq<Applied>) {
    forall i, j :: 0 <= i < j < |registry| ==> registry[i].version < registry[j].version
  }

  datatype Phase =
    | Waiting
    | Locked
    | Pending(todo: seq<Entry>)
    | Started(todo: seq<Entry>, t: nat)
    | Ran(todo: seq<Entry>, t: nat)
    | Published(todo: seq<Entry>)
    | Finished(ok: bool)

  datatype Migrator = Migrator(plan: seq<Entry>, phase: Phase)

  datatype State = State(store: Store, registry: seq<Applied>, lock: Option<nat>, migrators: seq<Migrator>)

  datatype Move =
    | Arrive(plan: seq<Entry>)
    | Lock(m: nat)
    | Read(m: nat)
    | Start(m: nat, c: nat, cancelled: bool)
    | Execute(m: nat, cancelled: bool)
    | Publish(m: nat, cancelled: bool)
    | Register(m: nat)
    | Unlock(m: nat)
    | Client(action: Action)

  function Initial(schema: bool): State {
    State(NEW_DATABASE.(schema := schema), [], None, [])
  }

  function To(s: State, m: nat, phase: Phase): State
    requires m < |s.migrators|
  {
    s.(migrators := s.migrators[m := s.migrators[m].(phase := phase)])
  }

  /** A failure ends the migrator, which releases the lock. */
  function Fail(s: State, m: nat): State
    requires m < |s.migrators|
  {
    To(s, m, Finished(false)).(lock := None)
  }

  function RolledBack(s: State, t: nat): State {
    s.(store := Step(s.store, Rollback(t)).store)
  }

  /** Whether the statement was accepted, and the store it leaves. */
  function Executed(s: Store, t: nat, sql: string): (Store, bool)
    requires Begun(s, t)
  {
    var c := s.transactions[t].connection;
    var (view, result) := Statements.ExecuteIn(ViewOf(s, c), sql, []);
    (WithView(s, c, view), result.Ok?)
  }

  /** A client does not reach into the transaction of a migrator. */
  predicate Private(s: State, a: Action) {
    exists m ::
      && 0 <= m < |s.migrators| && (s.migrators[m].phase.Started? || s.migrators[m].phase.Ran?)
      && var t := s.migrators[m].phase.t;
         match a
         case Connect => false
         case Commit(u) => u == t
         case Rollback(u) => u == t
         case _ => t < |s.store.transactions| && a.c == s.store.transactions[t].connection
  }

  function Apply(s: State, move: Move): State {
    match move
    case Arrive(plan) =>
      if Ordered(plan) then s.(migrators := s.migrators + [Migrator(plan, Waiting)]) else s
    case Lock(m) =>
      if m < |s.migrators| && s.migrators[m].phase.Waiting? && s.lock.None?
      then To(s, m, Locked).(lock := Some(m)) else s
    case Read(m) =>
      if !(m < |s.migrators| && s.migrators[m].phase.Locked?) then s
      else if !Reconciles(s.migrators[m].plan, s.registry) then Fail(s, m)
      else To(s, m, Pending(s.migrators[m].plan[|s.registry|..]))
    case Start(m, c, cancelled) =>
      if !(m < |s.migrators| && s.migrators[m].phase.Pending? && s.migrators[m].phase.todo != []) then s
      else if cancelled then Fail(s, m)
      else if !(Connected(s.store, c) && s.store.current[c].None?) then s
      else
        To(s.(store := Step(s.store, Begin(c)).store), m, Started(s.migrators[m].phase.todo, |s.store.transactions|))
    case Execute(m, cancelled) =>
      if !(m < |s.migrators| && s.migrators[m].phase.Started? && s.migrators[m].phase.todo != []) then s
      else
        var Started(todo, t) := s.migrators[m].phase;
        if cancelled || !Begun(s.store, t) then Fail(RolledBack(s, t), m)
        else
          var (store, ok) := Executed(s.store, t, todo[0].sql);
          if ok then To(s.(store := store), m, Ran(todo, t)) else Fail(RolledBack(s.(store := store), t), m)
    case Publish(m, cancelled) =>
      if !(m < |s.migrators| && s.migrators[m].phase.Ran?) then s
      else
        var Ran(todo, t) := s.migrators[m].phase;
        if cancelled then Fail(RolledBack(s, t), m)
        else
          var o := Step(s.store, Commit(t));
          var s' := s.(store := o.store);
          if o.reply == Done then To(s', m, Published(todo)) else Fail(s', m)
    case Register(m) =>
      if !(m < |s.migrators| && s.migrators[m].phase.Published? && s.migrators[m].phase.todo != []) then s
      else
        var todo := s.migrators[m].phase.todo;
        To(s.(registry := s.registry + [Line(todo[0])]), m, Pending(todo[1..]))
    case Unlock(m) =>
      if m < |s.migrators| && s.migrators[m].phase == Pending([]) then To(s, m, Finished(true)).(lock := None) else s
    case Client(a) =>
      if Private(s, a) then s else s.(store := Step(s.store, a).store)
  }

  function After(schema: bool, moves: seq<Move>): State {
    if moves == [] then Initial(schema) else Apply(After(schema, moves[..|moves| - 1]), moves[|moves| - 1])
  }

  // ---------- The invariant ----------

  predicate InSection(x: Migrator) {
    !x.phase.Waiting? && !x.phase.Finished?
  }

  /** The registry holds exactly the entries of the plan that come before what is still to be done. */
  ghost predicate ToDo(plan: seq<Entry>, todo: seq<Entry>, registry: seq<Applied>) {
    Reconciles(plan, registry) && todo == plan[|registry|..]
  }

  /** The registry was made from the plan of some migrator. */
  ghost predicate Planned(migrators: seq<Migrator>, registry: seq<Applied>) {
    exists m :: 0 <= m < |migrators| && Reconciles(migrators[m].plan, registry)
  }

  ghost predicate Sound(s: State, x: Migrator) {
    && Ordered(x.plan)
    && match x.phase
       case Waiting => true
       case Locked => true
       case Pending(todo) => ToDo(x.plan, todo, s.registry)
       case Started(todo, t) =>
         && todo != [] && ToDo(x.plan, todo, s.registry)
         && Begun(s.store, t) && Active(s.store, t) && s.store.transactions[t].overlay == EMPTY_OVERLAY
       case Ran(todo, t) =>
         && todo != [] && ToDo(x.plan, todo, s.registry)
         && Begun(s.store, t) && Active(s.store, t) && s.store.transactions[t].overlay == Overlay(map[], true)
       case Published(todo) => todo != [] && ToDo(x.plan, todo, s.registry) && s.store.schema
       case Finished(ok) => ok ==> Lines(x.plan) <= s.registry
  }

  ghost predicate Invariant(s: State) {
    && Lifecycle(s.store)
    && (s.registry != [] ==> s.store.schema && Planned(s.migrators, s.registry))
    && (forall m :: 0 <= m < |s.migrators| ==> Sound(s, s.migrators[m]))
    && (forall m :: 0 <= m < |s.migrators| ==> (InSection(s.migrators[m]) <==> s.lock == Some(m)))
    && (s.lock.Some? ==> s.lock.value < |s.migrators|)
  }

  /** Registering the first entry leaves the others to do. */
  lemma RegisterFirst(plan: seq<Entry>, todo: seq<Entry>, registry: seq<Applied>)
    requires ToDo(plan, todo, registry) && todo != []
    ensures ToDo(plan, todo[1..], registry + [Line(todo[0])])
  {
    assert todo[0] == plan[|registry|];
  }

  /** Nothing is left to do exactly when the registry is the whole plan. */
  lemma NothingToDo(plan: seq<Entry>, todo: seq<Entry>, registry: seq<Applied>)
    requires ToDo(plan, todo, registry)
    ensures todo == [] <==> registry == Lines(plan)
  {
  }

  lemma PlannedStays(migrators: seq<Migrator>, later: seq<Migrator>, registry: seq<Applied>)
    requires Planned(migrators, registry) && |migrators| <= |later|
    requires forall m :: 0 <= m < |migrators| ==> later[m].plan == migrators[m].plan
    ensures Planned(later, registry)
  {
    var m :| 0 <= m < |migrators| && Reconciles(migrators[m].plan, registry);
    assert Reconciles(later[m].plan, registry);
  }

  /** A migrator outside the critical section is not disturbed by what happens inside it. */
  lemma OutsideStaysSound(s: State, s': State, x: Migrator)
    requires Sound(s, x) && !InSection(x) && s.registry <= s'.registry
    ensures Sound(s', x)
  {
  }

  /** A move of the lock holder: only it changes, so only it has to be looked at. */
  lemma HolderKeeps(s: State, s': State, m: nat)
    requires Invariant(s) && m < |s.migrators| && s.lock == Some(m)
    requires |s'.migrators| == |s.migrators| && s'.migrators == s.migrators[m := s'.migrators[m]]
    requires Lifecycle(s'.store) && (s'.registry != [] ==> s'.store.schema)
    requires s'.migrators[m].plan == s.migrators[m].plan
    requires s.registry <= s'.registry && (s'.registry == s.registry || Reconciles(s.migrators[m].plan, s'.registry))
    requires Sound(s', s'.migrators[m])
    requires if InSection(s'.migrators[m]) then s'.lock == Some(m) else s'.lock == None
    ensures Invariant(s')
  {
    if s'.registry == s.registry != [] {
      PlannedStays(s.migrators, s'.migrators, s.registry);
    } else if s'.registry != [] {
      assert Reconciles(s'.migrators[m].plan, s'.registry);
    }
    forall n | 0 <= n < |s'.migrators|
      ensures Sound(s', s'.migrators[n])
      ensures InSection(s'.migrators[n]) <==> s'.lock == Some(n)
    {
      if n != m {
        assert Sound(s, s.migrators[n]) && !InSection(s.migrators[n]);
        OutsideStaysSound(s, s', s.migrators[n]);
      }
    }
  }

  // ---------- The moves ----------

  lemma ArriveKeeps(s: State, plan: seq<Entry>)
    requires Invariant(s) && Ordered(plan)
    ensures Invariant(Apply(s, Arrive(plan)))
  {
    var s' := Apply(s, Arrive(plan));
    if s.registry != [] {
      PlannedStays(s.migrators, s'.migrators, s.registry);
    }
    forall m | 0 <= m < |s'.migrators| ensures Sound(s', s'.migrators[m]) {
      if m < |s.migrators| {
        assert Sound(s, s.migrators[m]);
      }
    }
  }

  lemma LockKeeps(s: State, m: nat)
    requires Invariant(s) && m < |s.migrators| && s.migrators[m].phase.Waiting? && s.lock.None?
    ensures Invariant(Apply(s, Lock(m)))
  {
    var s' := Apply(s, Lock(m));
    if s.registry != [] {
      PlannedStays(s.migrators, s'.migrators, s.registry);
    }
    forall n | 0 <= n < |s'.migrators| ensures Sound(s', s'.migrators[n]) {
      assert Sound(s, s.migrators[n]);
    }
  }

  lemma ReadKeeps(s: State, m: nat)
    requires Invariant(s) && m < |s.migrators| && s.migrators[m].phase.Locked?
    ensures Invariant(Apply(s, Read(m)))
  {
    assert Sound(s, s.migrators[m]);
    HolderKeeps(s, Apply(s, Read(m)), m);
  }

  /** The beginning of a transaction on a free connection. */
  lemma BeginEffect(s: Store, c: nat)
    requires Lifecycle(s) && Connected(s, c) && s.current[c].None?
    ensures
      var s', t := Step(s, Begin(c)).store, |s.transactions|;
      && Lifecycle(s') && Begun(s', t) && Active(s', t) && s'.transactions[t].overlay == EMPTY_OVERLAY
      && s'.schema == s.schema
  {
  }

  lemma StartKeeps(s: State, m: nat, c: nat)
    requires Invariant(s) && m < |s.migrators| && s.migrators[m].phase.Pending? && s.migrators[m].phase.todo != []
    requires Connected(s.store, c) && s.store.current[c].None?
    ensures Invariant(Apply(s, Start(m, c, false)))
  {
    assert Sound(s, s.migrators[m]);
    BeginEffect(s.store, c);
    hide Step;
    HolderKeeps(s, Apply(s, Start(m, c, false)), m);
  }

  lemma FailKeeps(s: State, store: Store, m: nat)
    requires Invariant(s) && m < |s.migrators| && InSection(s.migrators[m])
    requires Lifecycle(store) && (s.store.schema ==> store.schema)
    ensures Invariant(Fail(s.(store := store), m))
  {
    assert Sound(s, s.migrators[m]);
    HolderKeeps(s, Fail(s.(store := store), m), m);
  }

  /** Executing a statement without arguments in a fresh transaction marks it to create the schema,
      if it is the create-table statement, and does nothing otherwise. */
  lemma ExecutedEffect(s: Store, t: nat, sql: string)
    requires Lifecycle(s) && Begun(s, t) && Active(s, t) && s.transactions[t].overlay == EMPTY_OVERLAY
    ensures
      var (s', ok) := Executed(s, t, sql);
      && (ok <==> Text.Fields(sql) == Text.Fields(Statements.CREATE_ORDERS_TABLE_SQL))
      && Lifecycle(s') && s'.schema == s.schema
      && Begun(s', t) && Active(s', t)
      && s'.transactions[t].overlay == (if ok then Overlay(map[], true) else EMPTY_OVERLAY)
  {
    hide Statements.ExecuteIn, Text.Fields;
    var c := s.transactions[t].connection;
    Statements.OnlyCreateTableMigrates(ViewOf(s, c), sql);
    WithViewKeepsLifecycle(s, c, Statements.ExecuteIn(ViewOf(s, c), sql, []).0);
  }

  /** An accepted statement takes the migrator one phase further. */
  lemma RanKeeps(s: State, m: nat, store: Store)
    requires Invariant(s) && m < |s.migrators| && s.migrators[m].phase.Started? && s.migrators[m].phase.todo != []
    requires Lifecycle(store) && store.schema == s.store.schema
    requires
      var t := s.migrators[m].phase.t;
      Begun(store, t) && Active(store, t) && store.transactions[t].overlay == Overlay(map[], true)
    ensures Invariant(To(s.(store := store), m, Ran(s.migrators[m].phase.todo, s.migrators[m].phase.t)))
  {
    assert Sound(s, s.migrators[m]);
    hide Lifecycle, ToDo;
    HolderKeeps(s, To(s.(store := store), m, Ran(s.migrators[m].phase.todo, s.migrators[m].phase.t)), m);
  }

  lemma HolderIsSound(s: State, m: nat)
    requires Invariant(s) && m < |s.migrators|
    ensures Lifecycle(s.store) && Sound(s, s.migrators[m])
  {
  }

  lemma ExecuteRollsBack(s: State, m: nat, store: Store, t: nat)
    requires Invariant(s) && m < |s.migrators| && InSection(s.migrators[m])
    requires Lifecycle(store) && store.schema == s.store.schema
    ensures Invariant(Fail(RolledBack(s.(store := store), t), m))
  {
    RollbackKeeps(store, t);
    FailKeeps(s, Step(store, Rollback(t)).store, m);
    hide Invariant, Step, Lifecycle, Fail;
  }

  lemma StartedIsActive(s: State, x: Migrator)
    requires Sound(s, x) && x.phase.Started?
    ensures Begun(s.store, x.phase.t) && Active(s.store, x.phase.t)
    ensures s.store.transactions[x.phase.t].overlay == EMPTY_OVERLAY
  {
  }

  lemma RanIsActive(s: State, x: Migrator)
    requires Sound(s, x) && x.phase.Ran?
    ensures Begun(s.store, x.phase.t) && Active(s.store, x.phase.t)
    ensures s.store.transactions[x.phase.t].overlay == Overlay(map[], true)
  {
  }

  lemma ExecuteKeeps(s: State, m: nat, cancelled: bool)
    requires Invariant(s) && m < |s.migrators| && s.migrators[m].phase.Started? && s.migrators[m].phase.todo != []
    ensures Invariant(Apply(s, Execute(m, cancelled)))
  {
    hide Invariant, Sound, Active, Executed, Step, ToDo, Text.Fields, Lifecycle, To, Fail, RolledBack, Private;
    var Started(todo, t) := s.migrators[m].phase;
    HolderIsSound(s, m);
    StartedIsActive(s, s.migrators[m]);
    var (store, ok) := Executed(s.store, t, todo[0].sql);
    ExecutedEffect(s.store, t, todo[0].sql);
    if cancelled {
      ExecuteRollsBack(s, m, s.store, t);
    } else if ok {
      RanKeeps(s, m, store);
    } else {
      ExecuteRollsBack(s, m, store, t);
    }
  }

  lemma RollbackKeeps(s: Store, t: nat)
    requires Lifecycle(s)
    ensures Lifecycle(Step(s, Rollback(t)).store) && Step(s, Rollback(t)).store.schema == s.schema
  {
    StepKeepsLifecycle(s, Rollback(t));
  }

  /** The commit of a migration has nothing staged, so it succeeds, and the schema is there. */
  lemma PublishEffect(s: Store, t: nat)
    requires Lifecycle(s) && Begun(s, t) && Active(s, t) && s.transactions[t].overlay == Overlay(map[], true)
    ensures
      var o := Step(s, Commit(t));
      o.reply == Done && o.store.schema && Lifecycle(o.store)
  {
    StepKeepsLifecycle(s, Commit(t));
    EndEffect(s, Commit(t));
  }

  lemma PublishedKeeps(s: State, m: nat, store: Store)
    requires Invariant(s) && m < |s.migrators| && s.migrators[m].phase.Ran?
    requires Lifecycle(store) && store.schema
    ensures Invariant(To(s.(store := store), m, Published(s.migrators[m].phase.todo)))
  {
    assert Sound(s, s.migrators[m]);
    hide Lifecycle, ToDo;
    HolderKeeps(s, To(s.(store := store), m, Published(s.migrators[m].phase.todo)), m);
  }

  lemma PublishKeeps(s: State, m: nat, cancelled: bool)
    requires Invariant(s) && m < |s.migrators| && s.migrators[m].phase.Ran?
    ensures Invariant(Apply(s, Publish(m, cancelled)))
  {
    hide Invariant, Sound, Active, Step, ToDo, Lifecycle, To, Fail, Private;
    var Ran(todo, t) := s.migrators[m].phase;
    HolderIsSound(s, m);
    RanIsActive(s, s.migrators[m]);
    PublishEffect(s.store, t);
    RollbackKeeps(s.store, t);
    if cancelled {
      FailKeeps(s, Step(s.store, Rollback(t)).store, m);
    } else {
      PublishedKeeps(s, m, Step(s.store, Commit(t)).store);
    }
  }

  lemma RegisterKeeps(s: State, m: nat)
    requires Invariant(s) && m < |s.migrators| && s.migrators[m].phase.Published? && s.migrators[m].phase.todo != []
    ensures Invariant(Apply(s, Register(m)))
  {
    var todo := s.migrators[m].phase.todo;
    assert Sound(s, s.migrators[m]);
    RegisterFirst(s.migrators[m].plan, todo, s.registry);
    HolderKeeps(s, Apply(s, Register(m)), m);
  }

  lemma UnlockKeeps(s: State, m: nat)
    requires Invariant(s) && m < |s.migrators| && s.migrators[m].phase == Pending([])
    ensures Invariant(Apply(s, Unlock(m)))
  {
    assert Sound(s, s.migrators[m]);
    NothingToDo(s.migrators[m].plan, [], s.registry);
    HolderKeeps(s, Apply(s, Unlock(m)), m);
  }

  /** What clients do elsewhere leaves an open transaction as it is. */
  lemma ElsewhereLeaves(s: Store, a: Action, t: nat)
    requires Lifecycle(s) && Begun(s, t) && Active(s, t)
    requires a != Commit(t) && a != Rollback(t)
    requires a.Connect? || a.Commit? || a.Rollback? || a.c != s.transactions[t].connection
    ensures
      var s' := Step(s, a).store;
      Begun(s', t) && Active(s', t) && s'.transactions[t] == s.transactions[t]
  {
    hide WithView, InsertIn, CommitIn;
    if Known(s, a) {
      if a.Commit? || a.Rollback? {
        EndEffect(s, a);
      } else if a.Insert? || a.Find? || a.CreateSchema? {
        if s.current[a.c].Some? { InnerEffect(s, a); } else { OuterEffect(s, a); }
      }
    }
  }

  lemma ClientLeaves(s: State, a: Action, m: nat)
    requires Invariant(s) && !Private(s, a) && m < |s.migrators|
    ensures Sound(s.(store := Step(s.store, a).store), s.migrators[m])
  {
    var x := s.migrators[m];
    assert Sound(s, x);
    StepExtends(s.store, a);
    hide Step;
    if x.phase.Started? || x.phase.Ran? {
      assert x.phase.t < |s.store.transactions|;
      ElsewhereLeaves(s.store, a, x.phase.t);
    }
  }

  lemma ClientKeeps(s: State, a: Action)
    requires Invariant(s) && !Private(s, a)
    ensures Invariant(Apply(s, Client(a)))
  {
    var s' := Apply(s, Client(a));
    StepKeepsLifecycle(s.store, a);
    StepExtends(s.store, a);
    hide Step, Sound, Private;
    forall m | 0 <= m < |s'.migrators| ensures Sound(s', s'.migrators[m]) {
      ClientLeaves(s, a, m);
    }
  }

  lemma ApplyKeeps(s: State, move: Move)
    requires Invariant(s)
    ensures Invariant(Apply(s, move))
  {
    var s' := Apply(s, move);
    if s' != s {
      match move
      case Arrive(plan) => ArriveKeeps(s, plan);
      case Lock(m) => LockKeeps(s, m);
      case Read(m) => ReadKeeps(s, m);
      case Start(m, c, cancelled) =>
        if cancelled { FailKeeps(s, s.store, m); } else { StartKeeps(s, m, c); }
      case Execute(m, cancelled) => ExecuteKeeps(s, m, cancelled);
      case Publish(m, cancelled) => PublishKeeps(s, m, cancelled);
      case Register(m) => RegisterKeeps(s, m);
      case Unlock(m) => UnlockKeeps(s, m);
      case Client(a) => ClientKeeps(s, a);
    }
  }

  lemma {:induction false} AfterKeeps(schema: bool, moves: seq<Move>)
    ensures Invariant(After(schema, moves))
  {
    if moves != [] {
      AfterKeeps(schema, moves[..|moves| - 1]);
      hide Apply, Invariant;
      ApplyKeeps(After(schema, moves[..|moves| - 1]), moves[|moves| - 1]);
    }
  }

  // ---------- What every run guarantees ----------

  /** Whether or not the schema was there at first: the registered versions ascend, so none is
      registered twice; the registry is an exact prefix of some migrator's plan; a registered
      migration implies the schema; one migrator at a time is at work; and the whole plan of every
      migrator that finished successfully begins the registry. */
  ghost predicate Safe(s: State) {
    && Ascending(s.registry)
    && (s.registry != [] ==> s.store.schema && Planned(s.migrators, s.registry))
    && (forall m, n :: 0 <= m < n < |s.migrators| ==> !(InSection(s.migrators[m]) && InSection(s.migrators[n])))
    && forall m :: 0 <= m < |s.migrators| && s.migrators[m].phase == Finished(true) ==>
         Lines(s.migrators[m].plan) <= s.registry
  }

  lemma MigrationSafe(schema: bool, moves: seq<Move>)
    ensures Safe(After(schema, moves))
  {
    AfterKeeps(schema, moves);
    hide After;
    var s := After(schema, moves);
    if s.registry != [] {
      var m :| 0 <= m < |s.migrators| && Reconciles(s.migrators[m].plan, s.registry);
      assert Sound(s, s.migrators[m]);
    }
    forall m | 0 <= m < |s.migrators| && s.migrators[m].phase == Finished(true)
      ensures Lines(s.migrators[m].plan) <= s.registry
    {
      assert Sound(s, s.migrators[m]);
    }
  }

  lemma PrefixesCompare<T>(a: seq<T>, b: seq<T>, whole: seq<T>)
    requires a <= whole && b <= whole
    ensures if |a| <= |b| then a <= b else b <= a
  {
    assert a == whole[..|a|] && b == whole[..|b|];
  }

  /** Of two migrators that succeed in one run, the plan of one begins the plan of the other: the
      program's migrations cannot fork. */
  lemma SuccessfulPlansAgree(schema: bool, moves: seq<Move>, m: nat, n: nat)
    requires
      var s := After(schema, moves);
      && m < |s.migrators| && n < |s.migrators|
      && s.migrators[m].phase == Finished(true) && s.migrators[n].phase == Finished(true)
    ensures
      var s := After(schema, moves);
      || Lines(s.migrators[m].plan) <= Lines(s.migrators[n].plan)
      || Lines(s.migrators[n].plan) <= Lines(s.migrators[m].plan)
  {
    MigrationSafe(schema, moves);
    hide After;
    var s := After(schema, moves);
    PrefixesCompare(Lines(s.migrators[m].plan), Lines(s.migrators[n].plan), s.registry);
  }

  /** Migrator m holds the lock and has nothing left to do. */
  predicate Succeeds(s: State, m: nat) {
    m < |s.migrators| && s.migrators[m].phase == Pending([])
  }

  /** At the moment a migrator succeeds, the registry is exactly its plan. A migrator whose plan the
      registry does not begin is refused when it reads, and changes nothing. */
  lemma RegistryIsThePlan(schema: bool, moves: seq<Move>, m: nat)
    ensures
      var s := After(schema, moves);
      && (Succeeds(s, m) ==> s.registry == Lines(s.migrators[m].plan))
      && (m < |s.migrators| && s.migrators[m].phase.Locked? && !(s.registry <= Lines(s.migrators[m].plan)) ==>
            && Apply(s, Read(m)).migrators[m].phase == Finished(false)
            && Apply(s, Read(m)).registry == s.registry && Apply(s, Read(m)).store == s.store)
  {
    AfterKeeps(schema, moves);
    hide After;
    var s := After(schema, moves);
    if m < |s.migrators| {
      assert Sound(s, s.migrators[m]);
      ReconcilesIffPrefix(s.migrators[m].plan, s.registry);
    }
    if Succeeds(s, m) {
      NothingToDo(s.migrators[m].plan, [], s.registry);
    }
  }

  /** The schema never reverts. */
  lemma SchemaStays(s: State, move: Move)
    requires Invariant(s)
    ensures s.store.schema ==> Apply(s, move).store.schema
  {
    match move
    case Start(m, c, cancelled) => StepExtends(s.store, Begin(c));
    case Client(a) => StepExtends(s.store, a);
    case Publish(m, cancelled) =>
      if m < |s.migrators| && s.migrators[m].phase.Ran? {
        StepExtends(s.store, Commit(s.migrators[m].phase.t));
        StepExtends(s.store, Rollback(s.migrators[m].phase.t));
      }
      hide Step;
    case Execute(m, cancelled) =>
      if m < |s.migrators| && s.migrators[m].phase.Started? && s.migrators[m].phase.todo != [] {
        var Started(todo, t) := s.migrators[m].phase;
        assert Sound(s, s.migrators[m]);
        hide Executed, Step;
        ExecutedEffect(s.store, t, todo[0].sql);
        RollbackKeeps(s.store, t);
        RollbackKeeps(Executed(s.store, t, todo[0].sql).0, t);
      }
    case _ =>
  }

  /** A move registers an entry. */
  predicate Registers(s: State, move: Move) {
    move.Register? && move.m < |s.migrators| && s.migrators[move.m].phase.Published?
    && s.migrators[move.m].phase.todo != []
  }

  lemma RegistryStep(s: State, move: Move)
    requires Invariant(s)
    ensures Registers(s, move) ==>
              var e := s.migrators[move.m].phase.todo[0];
              && s.store.schema && Apply(s, move).registry == s.registry + [Line(e)]
              && forall i :: 0 <= i < |s.registry| ==> s.registry[i].version < e.version
    ensures !Registers(s, move) ==> Apply(s, move).registry == s.registry
  {
    hide Step, Executed, Private;
    if Registers(s, move) {
      assert Sound(s, s.migrators[move.m]);
    }
  }

  /** A move ends migrator m with a failure. */
  predicate Fails(s: State, move: Move, m: nat) {
    && m < |s.migrators| <= |Apply(s, move).migrators|
    && s.migrators[m].phase != Finished(false) && Apply(s, move).migrators[m].phase == Finished(false)
  }

  /** In every run the registry changes in one way only: an entry of a version above all registered
      ones, which was published by a successful commit, is appended. A move in which a migrator fails leaves the
      registry as it was, and the schema never reverts. */
  lemma RegistryOnlyGrows(schema: bool, moves: seq<Move>, move: Move)
    ensures
      var s, s' := After(schema, moves), Apply(After(schema, moves), move);
      && (s.store.schema ==> s'.store.schema)
      && (s'.registry == s.registry
          || (Registers(s, move)
              && var e := s.migrators[move.m].phase.todo[0];
                 && s.store.schema && s'.registry == s.registry + [Line(e)]
                 && forall i :: 0 <= i < |s.registry| ==> s.registry[i].version < e.version))
      && forall m :: Fails(s, move, m) ==> s'.registry == s.registry
  {
    AfterKeeps(schema, moves);
    hide After, Invariant, Step, Executed, Private;
    SchemaStays(After(schema, moves), move);
    RegistryStep(After(schema, moves), move);
  }

  /** Any number of migrators with the same single entry: it is registered at most once, and exactly
      once as soon as one of them finished successfully. */
  lemma OneEntryRegisteredOnce(schema: bool, moves: seq<Move>, e: Entry)
    requires forall m :: 0 <= m < |After(schema, moves).migrators| ==> After(schema, moves).migrators[m].plan == [e]
    ensures
      var s := After(schema, moves);
      && (s.registry == [] || s.registry == [Line(e)])
      && forall m :: 0 <= m < |s.migrators| && s.migrators[m].phase == Finished(true) ==> s.registry == [Line(e)]
  {
    AfterKeeps(schema, moves);
    hide After;
    OnlyLine(After(schema, moves), e);
  }

  lemma OnlyLine(s: State, e: Entry)
    requires Invariant(s) && forall m :: 0 <= m < |s.migrators| ==> s.migrators[m].plan == [e]
    ensures s.registry == [] || s.registry == [Line(e)]
    ensures forall m :: 0 <= m < |s.migrators| && s.migrators[m].phase == Finished(true) ==> s.registry == [Line(e)]
  {
    if s.registry != [] {
      assert Reconciles([e], s.registry);
      assert s.registry == [Line(e)];
    }
    forall m | 0 <= m < |s.migrators| && s.migrators[m].phase == Finished(true) ensures s.registry == [Line(e)] {
      assert Sound(s, s.migrators[m]);
      assert s.registry != [];
    }
  }
}
