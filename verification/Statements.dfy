/** The three statements the memory driver knows, and the values that cross its boundary. */
module Statements {
  import opened Records
  import opened Text
  import opened MemoryStore

  const CREATE_ORDERS_TABLE_SQL := "CREATE" + " " +
    "TABLE IF NOT EXISTS commerce_orders (\n\tid text PRIMARY KEY,\n\tsku text NOT NULL,\n" +
    "\tquantity bigint NOT NULL CHECK (quantity > 0),\n" +
    "\ttotal_cents bigint NOT NULL CHECK (total_cents > 0),\n\tauthorization_id text NOT NULL\n);"

  const INSERT_ORDER_SQL := "INSERT" + " " +
    "INTO commerce_orders (\n\tid,\n\tsku,\n\tquantity,\n\ttotal_cents,\n\tauthorization_id\n)" +
    " VALUES ($1, $2, $3, $4, $5)"

  const FIND_ORDER_SQL := "SELECT" + " " +
    "\n\tid,\n\tsku,\n\tquantity,\n\ttotal_cents,\n\tauthorization_id\nFROM commerce_orders\nWHERE id = $1"

  /** A driver value: text, a 64-bit integer, or any other type. */
  datatype Value = Text(text: string) | Integer(number: int) | Other

  function IntegerArgument(value: Value): Option<int> {
    if value.Integer? && Wrap64(value.number) == value.number then Some(Wrap64(value.number)) else None
  }

  function RecordArguments(arguments: seq<Value>): Option<Record> {
    if |arguments| != 5 then None
    else
      var quantity, total := IntegerArgument(arguments[2]), IntegerArgument(arguments[3]);
      if arguments[0].Text? && arguments[1].Text? && quantity.Some? && total.Some? && arguments[4].Text? then
        Some(Record(arguments[0].text, arguments[1].text, quantity.value, total.value, arguments[4].text))
      else None
  }

  /** A record as the five values of an insert, and as the row of a query. */
  function Encoded(r: Record): seq<Value> {
    [Text(r.id), Text(r.sku), Integer(r.quantity), Integer(r.totalCents), Text(r.authorizationID)]
  }

  function ExecuteIn(v: View, statement: string, arguments: seq<Value>): (View, Result<nat>) {
    var normalized := NormalizeSQL(statement);
    if normalized == NormalizeSQL(CREATE_ORDERS_TABLE_SQL) then (CreateSchemaIn(v), Ok(0))
    else if normalized == NormalizeSQL(INSERT_ORDER_SQL) then
      var record := RecordArguments(arguments);
      if record.None? then (v, Err(InvalidArguments)) else InsertIn(v, record.value)
    else (v, Err(UnknownStatement))
  }

  function QueryIn(v: View, statement: string, arguments: seq<Value>): Result<seq<seq<Value>>> {
    if NormalizeSQL(statement) != NormalizeSQL(FIND_ORDER_SQL) || |arguments| != 1 then Err(UnknownStatement)
    else if !arguments[0].Text? then Err(InvalidArguments)
    else
      var found := FindIn(v, arguments[0].text);
      if found.Err? then Err(found.error)
      else if found.value.None? then Ok([])
      else Ok([Encoded(found.value.value)])
  }

  predicate Int64Record(r: Record) {
    IsInt64(r.quantity) && IsInt64(r.totalCents)
  }

  /** The arguments that are read as a record are exactly its encoding; five values of other types,
      or any other number of them, are refused. */
  lemma ArgumentsIff(arguments: seq<Value>, r: Record)
    ensures RecordArguments(arguments) == Some(r) <==> arguments == Encoded(r) && Int64Record(r)
  {
    WrapExact(r.quantity);
    WrapExact(r.totalCents);
    if RecordArguments(arguments) == Some(r) {
      assert arguments == [arguments[0], arguments[1], arguments[2], arguments[3], arguments[4]];
    }
  }

  /** Encoding a record into arguments and reading it back is the identity exactly when both
      numbers are 64-bit integers, which the program's own integers always are. */
  lemma ArgumentsRoundTrip(r: Record)
    ensures RecordArguments(Encoded(r)) == Some(r) <==> Int64Record(r)
  {
    WrapExact(r.quantity);
    WrapExact(r.totalCents);
  }

  /** The three statements keep distinct normal forms, so dispatch never confuses them. */
  lemma StatementsDistinct()
    ensures NormalizeSQL(CREATE_ORDERS_TABLE_SQL) != NormalizeSQL(INSERT_ORDER_SQL)
    ensures NormalizeSQL(CREATE_ORDERS_TABLE_SQL) != NormalizeSQL(FIND_ORDER_SQL)
    ensures NormalizeSQL(INSERT_ORDER_SQL) != NormalizeSQL(FIND_ORDER_SQL)
  {
    hide NormalizeSQL, IsSpace;
    var create, insert, find := CREATE_ORDERS_TABLE_SQL[7..], INSERT_ORDER_SQL[7..], FIND_ORDER_SQL[7..];
    KeywordsAreWords();
    assert CREATE_ORDERS_TABLE_SQL == "CREATE" + " " + create;
    assert INSERT_ORDER_SQL == "INSERT" + " " + insert;
    assert FIND_ORDER_SQL == "SELECT" + " " + find;
    FirstWordDecides("CREATE", create, "INSERT", insert);
    FirstWordDecides("CREATE", create, "SELECT", find);
    FirstWordDecides("INSERT", insert, "SELECT", find);
  }

  lemma KeywordsAreWords()
    ensures Word("CREATE") && Word("INSERT") && Word("SELECT")
    ensures "CREATE" != "INSERT" && "CREATE" != "SELECT" && "INSERT" != "SELECT"
  {
    assert "CREATE"[0] == 'C' && "INSERT"[0] == 'I' && "SELECT"[0] == 'S';
  }

  lemma FirstWordDecides(a: string, restA: string, b: string, restB: string)
    requires Word(a) && Word(b) && a != b
    ensures NormalizeSQL(a + " " + restA) != NormalizeSQL(b + " " + restB)
  {
    FirstField(a, restA);
    FirstField(b, restB);
    assert Fields(a + " " + restA)[0] != Fields(b + " " + restB)[0];
    NormalizeEqualIffSameFields(a + " " + restA, b + " " + restB);
  }

  /** Dispatch depends on the fields of a statement only: any other layout of the insert statement
      inserts, with the same answer and the same new view. */
  lemma DispatchIgnoresLayout(v: View, statement: string, known: string, arguments: seq<Value>)
    requires Fields(statement) == Fields(known)
    ensures ExecuteIn(v, statement, arguments) == ExecuteIn(v, known, arguments)
    ensures QueryIn(v, statement, arguments) == QueryIn(v, known, arguments)
  {
    NormalizeEqualIffSameFields(statement, known);
  }

  /** The insert statement inserts the encoded record; the find statement looks the ID up. */
  lemma StatementsMean(v: View, r: Record, id: string)
    requires Int64Record(r)
    ensures ExecuteIn(v, INSERT_ORDER_SQL, Encoded(r)) == InsertIn(v, r)
    ensures ExecuteIn(v, CREATE_ORDERS_TABLE_SQL, []) == (CreateSchemaIn(v), Ok(0))
    ensures ExecuteIn(v, FIND_ORDER_SQL, [Text(id)]) == (v, Err(UnknownStatement))
    ensures QueryIn(v, FIND_ORDER_SQL, [Text(id)]).Ok? <==> FindIn(v, id).Ok?
    ensures FindIn(v, id).Ok? ==>
              QueryIn(v, FIND_ORDER_SQL, [Text(id)]).value
              == if FindIn(v, id).value.None? then [] else [Encoded(FindIn(v, id).value.value)]
  {
    StatementsDistinct();
    ArgumentsRoundTrip(r);
  }

  /** What each statement does, in any layout, and that every other one is refused without effect. */
  lemma ExecuteOutcome(v: View, statement: string, arguments: seq<Value>)
    ensures
      var outcome := ExecuteIn(v, statement, arguments);
      if Fields(statement) == Fields(CREATE_ORDERS_TABLE_SQL) then outcome == (CreateSchemaIn(v), Ok(0))
      else if Fields(statement) == Fields(INSERT_ORDER_SQL) then
        && (forall r :: arguments == Encoded(r) && Int64Record(r) ==> outcome == InsertIn(v, r))
        && ((forall r :: Int64Record(r) ==> arguments != Encoded(r)) ==> outcome == (v, Err(InvalidArguments)))
      else outcome == (v, Err(UnknownStatement))
  {
    StatementsDistinct();
    NormalizeEqualIffSameFields(statement, CREATE_ORDERS_TABLE_SQL);
    NormalizeEqualIffSameFields(statement, INSERT_ORDER_SQL);
    hide NormalizeSQL, Fields, RecordArguments, InsertIn, CreateSchemaIn, Encoded, Int64Record;
    forall r | arguments == Encoded(r) && Int64Record(r) ensures RecordArguments(arguments) == Some(r) {
      ArgumentsIff(arguments, r);
    }
    if RecordArguments(arguments).Some? {
      ArgumentsIff(arguments, RecordArguments(arguments).value);
    }
  }

  /** A lookup takes the find statement, in any layout, and one text. */
  lemma QueryOutcome(v: View, statement: string, arguments: seq<Value>)
    ensures
      var outcome := QueryIn(v, statement, arguments);
      if Fields(statement) != Fields(FIND_ORDER_SQL) || |arguments| != 1 then outcome == Err(UnknownStatement)
      else if !arguments[0].Text? then outcome == Err(InvalidArguments)
      else
        var found := FindIn(v, arguments[0].text);
        && outcome.Ok? == found.Ok?
        && (found.Err? ==> outcome.error == found.error)
        && (found.Ok? ==> |outcome.value| == (if found.value.Some? then 1 else 0))
        && (found.Ok? && found.value.Some? ==> outcome.value[0] == Encoded(found.value.value))
  {
    NormalizeEqualIffSameFields(statement, FIND_ORDER_SQL);
    hide NormalizeSQL, Fields, FindIn;
  }

  /** A statement without arguments succeeds exactly when it is the create-table statement in some
      layout: nothing else can succeed as a migration. */
  lemma OnlyCreateTableMigrates(v: View, statement: string)
    ensures ExecuteIn(v, statement, []).1.Ok? <==> Fields(statement) == Fields(CREATE_ORDERS_TABLE_SQL)
    ensures ExecuteIn(v, statement, []).0 == if ExecuteIn(v, statement, []).1.Ok? then CreateSchemaIn(v) else v
  {
    StatementsDistinct();
    NormalizeEqualIffSameFields(statement, CREATE_ORDERS_TABLE_SQL);
  }
}
