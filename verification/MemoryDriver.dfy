/** The driver objects. Every method is one critical section of the driver, proved against the
    functions on views of module MemoryStore. `cancelled` is the answer of the context check that
    an operation makes first. */
module MemoryDriver {
  import opened Records
  import opened MemoryStore
  import opened Statements

  /** A line of the migration registry. */
  datatype Applied = Applied(version: nat, moduleID: string, name: string, checksum: string)

  class MemoryDatabase {
    var records: map<string, Record>
    var applied: seq<Applied>
    var schema: bool

    constructor ()
      ensures records == map[] && applied == [] && schema
    {
      records, applied, schema := map[], [], true;
    }
  }

  class MemoryTransaction {
    const connection: MemoryConnection
    var records: map<string, Record>
    var createSchema: bool
    var done: bool

    constructor (connection: MemoryConnection)
      ensures this.connection == connection && records == map[] && !createSchema && !done
    {
      this.connection := connection;
      records, createSchema, done := map[], false, false;
    }

    ghost predicate IsActive()
      reads this, connection
    {
      !done && connection.tx == this
    }

    /** Refused without effect unless this is the open transaction of its connection; otherwise the
        transaction ends, and commits or drops its overlay as a whole, whatever the order in which
        the staged keys are visited. */
    method Commit() returns (result: Result<()>)
      requires connection.Valid()
      modifies this, connection, connection.database
      ensures connection.Valid()
      ensures !old(IsActive()) ==>
                result == Err(TransactionComplete) && unchanged(this, connection, connection.database)
      ensures old(IsActive()) ==>
                && done && connection.tx == null && records == old(records)
                && (connection.View(), result) == CommitIn(old(connection.View()))
      ensures connection.database.applied == old(connection.database.applied)
    {
      if done || connection.tx != this {
        return Err(TransactionComplete);
      }
      var database := connection.database;
      ghost var view := connection.View();
      var remaining := records.Keys;
      while remaining != {}
        invariant remaining <= records.Keys
        invariant forall id :: id in records && id !in remaining ==> id !in database.records
        invariant unchanged(this, connection, database)
      {
        var id :| id in remaining;
        if id in database.records {
          assert Conflicts(view);
          done := true;
          connection.tx := null;
          return Err(DuplicateKey);
        }
        remaining := remaining - {id};
      }
      if createSchema {
        database.schema := true;
      }
      CopyInto(database);
      done := true;
      connection.tx := null;
      return Ok(());
    }

    /** Copies the staged records over the shared ones, key by key in any order. */
    method CopyInto(database: MemoryDatabase)
      modifies database`records
      ensures database.records == old(database.records) + records
    {
      var remaining := records.Keys;
      while remaining != {}
        invariant remaining <= records.Keys
        invariant database.records
               == old(database.records) + (map id | id in records && id !in remaining :: records[id])
      {
        var id :| id in remaining;
        database.records := database.records[id := records[id]];
        remaining := remaining - {id};
      }
      assert (map id | id in records && id !in remaining :: records[id]) == records;
    }

    /** Ends the transaction and drops its overlay; refused without effect when it is not open. */
    method Rollback() returns (result: Result<()>)
      requires connection.Valid()
      modifies this, connection
      ensures connection.Valid()
      ensures if old(IsActive())
              then result == Ok(()) && done && connection.tx == null && records == old(records)
                   && connection.View() == old(connection.View()).(overlay := None)
              else result == Err(TransactionDone) && unchanged(this, connection)
    {
      if done || connection.tx != this {
        return Err(TransactionDone);
      }
      done := true;
      connection.tx := null;
      return Ok(());
    }
  }

  class MemoryConnection {
    const database: MemoryDatabase
    var tx: MemoryTransaction?

    constructor (database: MemoryDatabase)
      ensures this.database == database && tx == null && Valid()
    {
      this.database := database;
      tx := null;
    }

    ghost predicate Valid()
      reads this, tx
    {
      tx != null ==> tx.connection == this && !tx.done
    }

    ghost function View(): View
      reads this, tx, database
    {
      MemoryStore.View(database.records, database.schema,
                       if tx == null then None else Some(Overlay(tx.records, tx.createSchema)))
    }

    method BeginTx(cancelled: bool) returns (result: Result<MemoryTransaction>)
      requires Valid()
      modifies this
      ensures Valid()
      ensures result.Err? ==> unchanged(this) && (cancelled || tx != null)
      ensures result == Err(Cancelled) <==> cancelled
      ensures !cancelled && old(tx) != null ==> result == Err(TransactionActive)
      ensures result.Ok? ==>
                && fresh(result.value) && tx == result.value && result.value.IsActive()
                && View() == old(View()).(overlay := Some(EMPTY_OVERLAY))
    {
      if cancelled {
        return Err(Cancelled);
      }
      if tx != null {
        return Err(TransactionActive);
      }
      tx := new MemoryTransaction(this);
      return Ok(tx);
    }

    method CreateSchema() returns (result: Result<nat>)
      requires Valid()
      modifies database, tx
      ensures Valid() && (tx != null ==> tx.records == old(tx.records))
      ensures View() == CreateSchemaIn(old(View())) && result == Ok(0)
      ensures database.applied == old(database.applied)
    {
      if tx != null {
        tx.createSchema := true;
        return Ok(0);
      }
      database.schema := true;
      return Ok(0);
    }

    method Insert(record: Record) returns (result: Result<nat>)
      requires Valid()
      modifies database, tx
      ensures Valid()
      ensures (View(), result) == InsertIn(old(View()), record)
      ensures database.applied == old(database.applied)
    {
      if tx != null {
        if record.id in tx.records || record.id in database.records {
          return Err(DuplicateKey);
        }
        tx.records := tx.records[record.id := record];
        return Ok(1);
      }
      if !database.schema {
        return Err(SchemaMissing);
      }
      if record.id in database.records {
        return Err(DuplicateKey);
      }
      database.records := database.records[record.id := record];
      return Ok(1);
    }

    method Find(id: string) returns (result: Result<Option<Record>>)
      requires Valid()
      ensures result == FindIn(View(), id)
    {
      if tx != null && id in tx.records {
        return Ok(Some(tx.records[id]));
      }
      if !database.schema {
        return Err(SchemaMissing);
      }
      return Ok(if id in database.records then Some(database.records[id]) else None);
    }

    method ExecContext(cancelled: bool, statement: string, arguments: seq<Value>) returns (result: Result<nat>)
      requires Valid()
      modifies database, tx
      ensures Valid()
      ensures if cancelled then View() == old(View()) && result == Err(Cancelled)
              else (View(), result) == ExecuteIn(old(View()), statement, arguments)
      ensures database.applied == old(database.applied)
    {
      if cancelled {
        return Err(Cancelled);
      }
      var normalized := Text.NormalizeSQL(statement);
      if normalized == Text.NormalizeSQL(CREATE_ORDERS_TABLE_SQL) {
        result := CreateSchema();
      } else if normalized == Text.NormalizeSQL(INSERT_ORDER_SQL) {
        var record := RecordArguments(arguments);
        if record.None? {
          return Err(InvalidArguments);
        }
        result := Insert(record.value);
      } else {
        return Err(UnknownStatement);
      }
    }

    method QueryContext(cancelled: bool, statement: string, arguments: seq<Value>) returns (result: Result<MemoryRows>)
      requires Valid()
      ensures cancelled ==> result == Err(Cancelled)
      ensures !cancelled ==>
                var rows := QueryIn(View(), statement, arguments);
                if rows.Err? then result == Err(rows.error)
                else result.Ok? && fresh(result.value) && result.value.Remaining() == rows.value
    {
      if cancelled {
        return Err(Cancelled);
      }
      if Text.NormalizeSQL(statement) != Text.NormalizeSQL(FIND_ORDER_SQL) || |arguments| != 1 {
        return Err(UnknownStatement);
      }
      if !arguments[0].Text? {
        return Err(InvalidArguments);
      }
      var found := Find(arguments[0].text);
      if found.Err? {
        return Err(found.error);
      }
      var rows := new MemoryRows(if found.value.None? then [] else [Encoded(found.value.value)]);
      return Ok(rows);
    }
  }

  /** The cursor over the rows of a query. */
  class MemoryRows {
    const values: seq<seq<Value>>
    var index: nat

    constructor (values: seq<seq<Value>>)
      ensures index == 0 && Remaining() == values
    {
      this.values := values;
      index := 0;
    }

    function Remaining(): seq<seq<Value>>
      reads this
    {
      if index < |values| then values[index..] else []
    }

    /** Moves the next row into the destination, as much of it as fits; false at the end. */
    method Next(destination: array<Value>) returns (more: bool)
      modifies this, destination
      ensures more <==> old(Remaining()) != []
      ensures !more ==> destination[..] == old(destination[..]) && Remaining() == old(Remaining())
      ensures more ==>
                var row := old(Remaining())[0];
                && Remaining() == old(Remaining())[1..]
                && (forall i :: 0 <= i < destination.Length ==>
                      destination[i] == if i < |row| then row[i] else old(destination[i]))
    {
      if index >= |values| {
        return false;
      }
      var row := values[index];
      var n := if |row| < destination.Length then |row| else destination.Length;
      for i := 0 to n
        invariant unchanged(this)
        invariant forall j :: 0 <= j < destination.Length ==>
                    destination[j] == if j < i then row[j] else old(destination[j])
      {
        destination[i] := row[i];
      }
      assert values[index..][1..] == values[index + 1..];
      index := index + 1;
      return true;
    }
  }
}
