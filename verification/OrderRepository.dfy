/** Saving and finding one order through the driver. */
module OrderRepository {
  import opened Records
  import opened Text
  import opened MemoryStore
  import opened Statements
  import opened MemoryDriver

  /** Whether the caller's context is cancelled at each of the three moments Save looks at it. */
  datatype Cancellation = Cancellation(before: bool, inDriver: bool, afterFailure: bool)

  predicate ValidRecord(r: Record) {
    && TrimSpace(r.id) != "" && TrimSpace(r.sku) != "" && TrimSpace(r.authorizationID) != ""
    && r.quantity > 0 && r.totalCents > 0
  }

  /** What an executor gives access to: nothing if it is nil, nothing any more if its transaction has
      ended, and otherwise a connection, as an object or as its view. */
  datatype Access<+C> = NilExecutor | DoneExecutor | Reaching(on: C)

  /** The outcome of saving over a connection, and the view it leaves. */
  function SaveIn(v: View, cancellation: Cancellation, r: Record): (View, Result<()>) {
    if cancellation.before then (v, Err(Cancelled))
    else if !ValidRecord(r) then (v, Err(InvalidRecord))
    else
      var (v', executed) :=
        if cancellation.inDriver then (v, Err(Cancelled)) else ExecuteIn(v, INSERT_ORDER_SQL, Encoded(r));
      if executed.Err? then
        (v', Err(if cancellation.afterFailure then Cancelled
                 else if executed.error == DuplicateKey then DuplicateKey
                 else StorageFailed))
      else if executed.value != 1 then (v', Err(StorageFailed))
      else (v', Ok(()))
  }

  /** Saving through any executor: only one that reaches a connection gets to the driver. */
  function SaveVia(access: Access<View>, cancellation: Cancellation, r: Record): (Access<View>, Result<()>) {
    if access.Reaching? then
      var (view, result) := SaveIn(access.on, cancellation, r);
      (Reaching(view), result)
    else
      (access, Err(if cancellation.before then Cancelled
                   else if !ValidRecord(r) then InvalidRecord
                   else if access.DoneExecutor? && cancellation.afterFailure then Cancelled
                   else StorageFailed))
  }

  function Decoded(row: seq<Value>): Result<Record> {
    if |row| == 5 && row[0].Text? && row[1].Text? && row[2].Integer? && row[3].Integer? && row[4].Text?
    then Ok(Record(row[0].text, row[1].text, row[2].number, row[3].number, row[4].text))
    else Err(StorageFailed)
  }

  /** The first row is decoded; a second one is refused. */
  function FindOrderIn(v: View, cancelled: bool, id: string): Result<Option<Record>> {
    var key := TrimSpace(id);
    if key == "" then Err(InvalidRecord)
    else if cancelled then Err(Cancelled)
    else
      var rows := QueryIn(v, FIND_ORDER_SQL, [Text(key)]);
      if rows.Err? then Err(rows.error)
      else if rows.value == [] then Ok(None)
      else
        var record := Decoded(rows.value[0]);
        if record.Err? then Err(record.error)
        else if |rows.value| > 1 then Err(MultipleRows)
        else Ok(Some(record.value))
  }

  ghost predicate Usable(executor: Access<MemoryConnection>)
    reads if executor.Reaching? then {executor.on, executor.on.tx} else {}
  {
    executor.Reaching? ==> executor.on.Valid()
  }

  ghost function Seen(executor: Access<MemoryConnection>): Access<View>
    reads if executor.Reaching? then {executor.on, executor.on.tx, executor.on.database} else {}
  {
    match executor
    case NilExecutor => NilExecutor
    case DoneExecutor => DoneExecutor
    case Reaching(connection) => Reaching(connection.View())
  }

  /** Saves through an executor. A nil one is refused after validation, one of an ended transaction
      when it is used. */
  method Save(executor: Access<MemoryConnection>, cancellation: Cancellation, record: Record)
    returns (result: Result<()>)
    requires Usable(executor)
    modifies if executor.Reaching? then {executor.on.database, executor.on.tx} else {}
    ensures Usable(executor)
    ensures (Seen(executor), result) == SaveVia(old(Seen(executor)), cancellation, record)
    ensures executor.Reaching? ==> executor.on.database.applied == old(executor.on.database.applied)
  {
    if cancellation.before {
      return Err(Cancelled);
    }
    if !ValidRecord(record) {
      return Err(InvalidRecord);
    }
    if executor.NilExecutor? {
      return Err(StorageFailed);
    }
    var executed: Result<nat>;
    if executor.DoneExecutor? {
      executed := Err(TransactionDone);
    } else {
      executed := executor.on.ExecContext(cancellation.inDriver, INSERT_ORDER_SQL, Encoded(record));
    }
    if executed.Err? {
      if cancellation.afterFailure {
        return Err(Cancelled);
      }
      return Err(if executed.error == DuplicateKey then DuplicateKey else StorageFailed);
    }
    if executed.value != 1 {
      return Err(StorageFailed);
    }
    return Ok(());
  }

  /** Finds through an executor: the first row is moved out of the cursor and decoded, and then the
      cursor has to be at its end. An executor without connection is refused after the ID is checked. */
  method FindOrder(executor: Access<MemoryConnection>, cancelled: bool, id: string)
    returns (result: Result<Option<Record>>)
    requires Usable(executor)
    ensures executor.Reaching? ==> result == FindOrderIn(executor.on.View(), cancelled, id)
    ensures !executor.Reaching? ==>
              result == Err(if TrimSpace(id) == "" then InvalidRecord
                            else if executor.NilExecutor? then StorageFailed
                            else if cancelled then Cancelled else TransactionDone)
  {
    var key := TrimSpace(id);
    if key == "" {
      return Err(InvalidRecord);
    }
    if executor.NilExecutor? {
      return Err(StorageFailed);
    }
    if executor.DoneExecutor? {
      return Err(if cancelled then Cancelled else TransactionDone);
    }
    var rows := executor.on.QueryContext(cancelled, FIND_ORDER_SQL, [Text(key)]);
    if rows.Err? {
      return Err(rows.error);
    }
    var destination := new Value[5](_ => Other);
    ghost var all := rows.value.Remaining();
    var more := rows.value.Next(destination);
    if !more {
      return Ok(None);
    }
    assert |all[0]| == 5;
    assert destination[..] == all[0];
    var record := Decoded(destination[..]);
    if record.Err? {
      return Err(record.error);
    }
    more := rows.value.Next(destination);
    if more {
      return Err(MultipleRows);
    }
    return Ok(Some(record.value));
  }

  // ---------- What saving and finding mean ----------

  /** When a save succeeds: the context holds, the record is valid and the driver accepts it. */
  predicate Accepts(v: View, cancellation: Cancellation, r: Record) {
    !cancellation.before && !cancellation.inDriver && ValidRecord(r) && InsertIn(v, r).1.Ok?
  }

  /** Saving inserts exactly the record when it is accepted, and fails without any change otherwise. */
  lemma SaveIsInsert(v: View, cancellation: Cancellation, r: Record)
    requires Int64Record(r)
    ensures
      var (v', result) := SaveIn(v, cancellation, r);
      && (result.Ok? <==> Accepts(v, cancellation, r))
      && v' == (if result.Ok? then InsertIn(v, r).0 else v)
      && (result == Err(DuplicateKey) ==> InsertIn(v, r).1 == Err(DuplicateKey))
  {
    StatementsMean(v, r, "");
  }

  /** Which answer a save gets, in the order in which the reasons are looked at. A duplicate is
      reported as such exactly when the driver is asked, the connection sees the ID, and the context
      holds afterwards. */
  lemma SaveOutcome(v: View, k: Cancellation, r: Record)
    requires Int64Record(r)
    ensures
      var result := SaveIn(v, k, r).1;
      var valid := !Spaces(r.id) && !Spaces(r.sku) && !Spaces(r.authorizationID) && r.quantity > 0 && r.totalCents > 0;
      var ready := v.overlay.Some? || v.schema;
      && (result == Err(InvalidRecord) <==> !k.before && !valid)
      && (result == Err(DuplicateKey) <==>
            !k.before && !k.inDriver && !k.afterFailure && valid && ready && r.id in Visible(v))
      && (result == Ok(()) <==> !k.before && !k.inDriver && valid && ready && r.id !in Visible(v))
      && (result == Err(Cancelled) <==>
            k.before || (valid && k.afterFailure && (k.inDriver || !ready || r.id in Visible(v))))
      && (result == Err(StorageFailed) <==>
            !k.before && valid && !k.afterFailure && (k.inDriver || !ready))
  {
    StatementsMean(v, r, "");
    InsertOutcome(v, r);
    BlankIff(r.id);
    BlankIff(r.sku);
    BlankIff(r.authorizationID);
    hide ExecuteIn, InsertIn, Visible, Spaces, TrimSpace;
  }

  /** Without a connection nothing is saved, and the refusals are looked at in the same order. */
  lemma SaveWithoutConnection(access: Access<View>, k: Cancellation, r: Record)
    requires !access.Reaching?
    ensures
      var (access', result) := SaveVia(access, k, r);
      var valid := !Spaces(r.id) && !Spaces(r.sku) && !Spaces(r.authorizationID) && r.quantity > 0 && r.totalCents > 0;
      && access' == access
      && (result == Err(InvalidRecord) <==> !k.before && !valid)
      && (result == Err(Cancelled) <==> k.before || (valid && access.DoneExecutor? && k.afterFailure))
      && (result == Err(StorageFailed) <==> !k.before && valid && !(access.DoneExecutor? && k.afterFailure))
  {
    BlankIff(r.id);
    BlankIff(r.sku);
    BlankIff(r.authorizationID);
    hide Spaces, TrimSpace;
  }

  /** A lookup of an ID without surrounding whitespace returns the visible record, field by field;
      without the schema it can only return a staged one. */
  lemma FindReturnsVisible(v: View, id: string)
    requires id != "" && Trimmed(id)
    ensures v.schema ==> FindOrderIn(v, false, id) == Ok(if id in Visible(v) then Some(Visible(v)[id]) else None)
    ensures !v.schema ==>
              FindOrderIn(v, false, id) == if v.overlay.Some? && id in v.overlay.value.records
                                           then Ok(Some(Visible(v)[id])) else Err(SchemaMissing)
  {
    hide TrimSpace, FindIn, QueryIn, Visible, ExecuteIn, InsertIn, Encoded, Decoded;
    TrimSpaceNormalizes(id);
    FindReadsThrough(v, id);
    QueryOutcome(v, FIND_ORDER_SQL, [Text(id)]);
    if FindIn(v, id).Ok? && FindIn(v, id).value.Some? {
      RowIsRecord(FindIn(v, id).value.value);
    }
  }

  lemma RowIsRecord(r: Record)
    ensures Decoded(Encoded(r)) == Ok(r)
  {
  }

  /** Whitespace around an ID makes no difference to a lookup. */
  lemma FindIgnoresWhitespace(v: View, a: string, id: string, b: string)
    requires Spaces(a) && Spaces(b) && id != "" && Trimmed(id) && v.schema
    ensures FindOrderIn(v, false, a + id + b) == Ok(if id in Visible(v) then Some(Visible(v)[id]) else None)
  {
    hide TrimSpace, Trimmed, Spaces, FindOrderIn, Visible;
    TrimSpaceOf(a, id, b);
    FindTrims(v, a + id + b);
    FindReturnsVisible(v, id);
  }

  /** A blank ID and a cancelled context are errors, never a missing order. */
  lemma FindRefuses(v: View, cancelled: bool, id: string)
    ensures FindOrderIn(v, cancelled, id) == Err(InvalidRecord) <==> Spaces(id)
    ensures FindOrderIn(v, cancelled, id) == Err(Cancelled) <==> cancelled && !Spaces(id)
    ensures FindOrderIn(v, cancelled, id) == Err(SchemaMissing) ==> !v.schema
    ensures FindOrderIn(v, cancelled, id).Ok? <== !cancelled && !Spaces(id) && v.schema
  {
    BlankIff(id);
    if !cancelled && !Spaces(id) {
      FindTrims(v, id);
      TrimSpaceNormalizes(id);
      FindReturnsVisible(v, TrimSpace(id));
    }
    hide TrimSpace, Trimmed, Spaces, QueryIn, Decoded, Visible;
  }

  /** A lookup of any other ID is a lookup of the trimmed one. */
  lemma FindTrims(v: View, id: string)
    requires TrimSpace(id) != ""
    ensures FindOrderIn(v, false, id) == FindOrderIn(v, false, TrimSpace(id))
  {
    hide TrimSpace, Trimmed, QueryIn, Decoded;
    TrimSpaceNormalizes(id);
    TrimSpaceNormalizes(TrimSpace(id));
  }

  lemma InsertStep(s: Store, c: nat, r: Record)
    requires Connected(s, c) && InsertIn(ViewOf(s, c), r).1.Ok?
    ensures Step(s, Insert(c, r)) == Outcome(WithView(s, c, InsertIn(ViewOf(s, c), r).0), Done)
  {
    hide ViewOf, InsertIn, WithView;
  }

  /** A successful save on a connection is the insert step of that connection. */
  lemma SaveIsStep(s: Store, c: nat, cancellation: Cancellation, r: Record)
    requires Connected(s, c) && Int64Record(r)
    requires SaveIn(ViewOf(s, c), cancellation, r).1.Ok?
    ensures r.id != ""
    ensures Step(s, Insert(c, r)) == Outcome(WithView(s, c, SaveIn(ViewOf(s, c), cancellation, r).0), Done)
  {
    SaveIsInsert(ViewOf(s, c), cancellation, r);
    TrimSpaceNormalizes(r.id);
    InsertStep(s, c, r);
    hide *;
  }
}
