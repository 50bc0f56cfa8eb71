/** The migrate operation of the database object, run by one caller. The runner reconciles the
    registry with the plan and applies the rest of the plan in order, inside the migration lock,
    and stops at the first failure. */
module MigrationRunner {
  import opened Records
  import opened MemoryStore
  import opened MemoryDriver
  import opened Migration
  import Text
  import Statements

  /** Whether the context is cancelled before an entry, and when its transaction begins, executes
      and commits. */
  datatype Context = Context(beforeEntry: bool, atBegin: bool, atExecute: bool, atCommit: bool)

  predicate Applicable(e: Entry, context: Context) {
    && !context.atBegin && !context.atExecute && !context.atCommit
    && Text.Fields(e.sql) == Text.Fields(Statements.CREATE_ORDERS_TABLE_SQL)
  }

  predicate Runs(e: Entry, context: Context) {
    !context.beforeEntry && Applicable(e, context)
  }

  /** How far the plan is carried out from entry n on: to the first entry that does not run. */
  function Progress(plan: seq<Entry>, contexts: seq<Context>, n: nat): (k: nat)
    requires n <= |plan| == |contexts|
    ensures n <= k <= |plan|
    ensures forall i :: n <= i < k ==> Runs(plan[i], contexts[i])
    ensures k < |plan| ==> !Runs(plan[k], contexts[k])
    decreases |plan| - n
  {
    if n == |plan| || !Runs(plan[n], contexts[n]) then n else Progress(plan, contexts, n + 1)
  }

  /** Compares line by line and stops at the first difference. */
  method Reconcile(plan: seq<Entry>, registry: seq<Applied>) returns (ok: bool)
    ensures ok <==> Reconciles(plan, registry)
    ensures ok <==> registry <= Lines(plan)
  {
    ReconcilesIffPrefix(plan, registry);
    if |registry| > |plan| {
      return false;
    }
    for i := 0 to |registry|
      invariant forall j :: 0 <= j < i ==> registry[j] == Line(plan[j])
    {
      if registry[i].version != plan[i].version {
        return false;
      }
      if registry[i].moduleID != plan[i].moduleID || registry[i].name != plan[i].name {
        return false;
      }
      if registry[i].checksum != plan[i].checksum {
        return false;
      }
    }
    return true;
  }

  class Database {
    const memory: MemoryDatabase
    const connection: MemoryConnection   // the one connection of the pool

    constructor ()
      ensures fresh(memory) && fresh(connection) && Idle()
      ensures memory.records == map[] && memory.applied == [] && memory.schema
    {
      var database := new MemoryDatabase();
      memory := database;
      connection := new MemoryConnection(database);
    }

    ghost predicate Idle()
      reads connection
    {
      connection.database == memory && connection.tx == null
    }

    /** Applies one entry: it is registered, with the schema present, or nothing has changed. */
    method Apply(e: Entry, context: Context) returns (result: Result<()>)
      requires Idle()
      modifies memory, connection
      ensures Idle() && memory.records == old(memory.records)
      ensures result.Ok? <==>
                && !context.atBegin && !context.atExecute && !context.atCommit
                && Text.Fields(e.sql) == Text.Fields(Statements.CREATE_ORDERS_TABLE_SQL)
      ensures if result.Ok? then memory.schema && memory.applied == old(memory.applied) + [Line(e)]
              else memory.schema == old(memory.schema) && memory.applied == old(memory.applied)
    {
      ghost var before := connection.View();
      var begun := connection.BeginTx(context.atBegin);
      if begun.Err? {
        return Err(begun.error);
      }
      var tx := begun.value;
      Statements.OnlyCreateTableMigrates(connection.View(), e.sql);
      hide Statements.ExecuteIn, Text.Fields;
      var executed := connection.ExecContext(context.atExecute, e.sql, []);
      if executed.Err? {
        var _ := tx.Rollback();
        return Err(executed.error);
      }
      if context.atCommit {
        var _ := tx.Rollback();
        return Err(Cancelled);
      }
      assert connection.View() == before.(overlay := Some(Overlay(map[], true)));
      assert !Conflicts(connection.View());
      assert before.records + map[] == before.records;
      var committed := tx.Commit();
      if committed.Err? {
        return committed;
      }
      memory.applied := memory.applied + [Line(e)];
      return Ok(());
    }

    /** Succeeds exactly when the registry begins the plan and every further entry runs, and then the
        registry is the plan. A registry that does not begin the plan is refused as it is; otherwise
        the registry is the plan up to the first entry that does not run. */
    method Migrate(plan: seq<Entry>, contexts: seq<Context>) returns (result: Result<()>)
      requires Idle() && |contexts| == |plan|
      modifies memory, connection
      ensures Idle() && memory.records == old(memory.records)
      ensures memory.schema <==> old(memory.schema) || memory.applied != old(memory.applied)
      ensures
        var registry := old(memory.applied);
        if !Reconciles(plan, registry) then result.Err? && memory.applied == registry
        else
          var k := Progress(plan, contexts, |registry|);
          memory.applied == Lines(plan[..k]) && (result.Ok? <==> k == |plan|)
    {
      hide Applicable, Text.Fields;
      var reconciled := Reconcile(plan, memory.applied);
      if !reconciled {
        return Err(StorageFailed);
      }
      RegistryBegins(plan, memory.applied);
      result := ApplyRest(plan, contexts);
    }

    /** The loop over the entries that are not registered yet. */
    method ApplyRest(plan: seq<Entry>, contexts: seq<Context>) returns (result: Result<()>)
      requires Idle() && |contexts| == |plan| && |memory.applied| <= |plan|
      requires memory.applied == Lines(plan[..|memory.applied|])
      modifies memory, connection
      ensures Idle() && memory.records == old(memory.records)
      ensures memory.schema <==> old(memory.schema) || memory.applied != old(memory.applied)
      ensures
        var k := Progress(plan, contexts, old(|memory.applied|));
        memory.applied == Lines(plan[..k]) && (result.Ok? <==> k == |plan|)
    {
      hide Runs, Applicable, Lines, Text.Fields;
      var n := |memory.applied|;
      for i := n to |plan|
        invariant Idle() && memory.records == old(memory.records)
        invariant memory.applied == Lines(plan[..i])
        invariant memory.schema <==> old(memory.schema) || i > n
        invariant Progress(plan, contexts, n) == Progress(plan, contexts, i)
      {
        RunsIff(plan[i], contexts[i]);
        if contexts[i].beforeEntry {
          return Err(Cancelled);
        }
        result := Apply(plan[i], contexts[i]);
        if result.Err? {
          return;
        }
        LinesGrow(plan, i);
      }
      return Ok(());
    }
  }

  lemma RunsIff(e: Entry, context: Context)
    ensures Runs(e, context) <==>
      && !context.beforeEntry && !context.atBegin && !context.atExecute && !context.atCommit
      && Text.Fields(e.sql) == Text.Fields(Statements.CREATE_ORDERS_TABLE_SQL)
  {
  }

  lemma LinesGrow(plan: seq<Entry>, i: nat)
    requires i < |plan|
    ensures Lines(plan[..i + 1]) == Lines(plan[..i]) + [Line(plan[i])]
  {
  }

  lemma RegistryBegins(plan: seq<Entry>, registry: seq<Applied>)
    requires Reconciles(plan, registry)
    ensures registry == Lines(plan[..|registry|])
  {
  }

  /** Whatever a migration comes to, the next one with the same plan is not refused: it resumes where
      the first one stopped, and completes the plan if and only if the rest runs. */
  lemma MigrateAgain(plan: seq<Entry>, registry: seq<Applied>, first: seq<Context>, again: seq<Context>)
    requires Reconciles(plan, registry) && |first| == |again| == |plan|
    ensures
      var k := Progress(plan, first, |registry|);
      && Reconciles(plan, Lines(plan[..k])) && |Lines(plan[..k])| == k
      && (Progress(plan, again, k) == |plan| <==> forall i :: k <= i < |plan| ==> Runs(plan[i], again[i]))
  {
  }
}
