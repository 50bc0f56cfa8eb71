/** The in-memory order store as a state machine on values.

    A `View` is what one connection can see: the shared records, the shared schema flag and the
    overlay of its own open transaction. Every driver operation is a function on views; the
    classes of module MemoryDriver are proved against these functions, and `Step` lifts them to
    any number of connections and transactions, whose steps may interleave in any order.
  */
module MemoryStore {
  import opened Records

  // ---------- One connection ----------

  datatype Overlay = Overlay(records: map<string, Record>, createSchema: bool)

  datatype View = View(records: map<string, Record>, schema: bool, overlay: Option<Overlay>)

  const EMPTY_OVERLAY := Overlay(map[], false)

  /** The records a lookup on this connection can return. */
  function Visible(v: View): map<string, Record> {
    if v.overlay.Some? then v.records + v.overlay.value.records else v.records
  }

  function InsertIn(v: View, r: Record): (View, Result<nat>) {
    if v.overlay.Some? then
      var staged := v.overlay.value;
      if r.id in staged.records || r.id in v.records then (v, Err(DuplicateKey))
      else (v.(overlay := Some(staged.(records := staged.records[r.id := r]))), Ok(1))
    else if !v.schema then (v, Err(SchemaMissing))
    else if r.id in v.records then (v, Err(DuplicateKey))
    else (v.(records := v.records[r.id := r]), Ok(1))
  }

  function FindIn(v: View, id: string): Result<Option<Record>> {
    if v.overlay.Some? && id in v.overlay.value.records then Ok(Some(v.overlay.value.records[id]))
    else if !v.schema then Err(SchemaMissing)
    else if id in v.records then Ok(Some(v.records[id]))
    else Ok(None)
  }

  function CreateSchemaIn(v: View): View {
    if v.overlay.Some? then v.(overlay := Some(v.overlay.value.(createSchema := true)))
    else v.(schema := true)
  }

  predicate Conflicts(v: View)
    requires v.overlay.Some?
  {
    exists id :: id in v.overlay.value.records && id in v.records
  }

  /** First committer wins: a staged key that was committed meanwhile drops the whole overlay. */
  function CommitIn(v: View): (View, Result<()>)
    requires v.overlay.Some?
  {
    var staged := v.overlay.value;
    if Conflicts(v) then (v.(overlay := None), Err(DuplicateKey))
    else (View(v.records + staged.records, v.schema || staged.createSchema, None), Ok(()))
  }

  // ---------- Any number of connections ----------

  /** `done` transactions keep the overlay they ended with, as the driver object does. */
  datatype Transaction = Transaction(connection: nat, overlay: Overlay, done: bool)

  /** `current[c]` is the open transaction of connection c. Connections and transactions are
      named by the order in which they were created. */
  datatype Store = Store(
    records: map<string, Record>,
    schema: bool,
    current: seq<Option<nat>>,
    transactions: seq<Transaction>
  )

  datatype Action =
    | Connect
    | Begin(c: nat)
    | CreateSchema(c: nat)
    | Insert(c: nat, record: Record)
    | Find(c: nat, id: string)
    | Commit(t: nat)
    | Rollback(t: nat)

  datatype Reply = Handle(n: nat) | Done | Row(found: Option<Record>) | Refused(error: Failure)

  datatype Outcome = Outcome(store: Store, reply: Reply)

  /** A fresh memory database: no records, and the schema already present. */
  const NEW_DATABASE := Store(map[], true, [], [])

  predicate Connected(s: Store, c: nat) {
    c < |s.current| && (s.current[c].Some? ==> s.current[c].value < |s.transactions|)
  }

  predicate Begun(s: Store, t: nat) {
    t < |s.transactions| && Connected(s, s.transactions[t].connection)
  }

  predicate Active(s: Store, t: nat)
    requires Begun(s, t)
  {
    !s.transactions[t].done && s.current[s.transactions[t].connection] == Some(t)
  }

  function ViewOf(s: Store, c: nat): View
    requires Connected(s, c)
  {
    View(s.records, s.schema,
         if s.current[c].Some? then Some(s.transactions[s.current[c].value].overlay) else None)
  }

  function Ended(s: Store, c: nat): Store
    requires Connected(s, c) && s.current[c].Some?
  {
    var t := s.current[c].value;
    s.(current := s.current[c := None],
       transactions := s.transactions[t := s.transactions[t].(done := true)])
  }

  /** Writes the view of connection c back; a view without overlay ends its open transaction. */
  function WithView(s: Store, c: nat, v: View): Store
    requires Connected(s, c)
  {
    var shared := s.(records := v.records, schema := v.schema);
    if s.current[c].None? then shared
    else if v.overlay.None? then Ended(shared, c)
    else
      var t := s.current[c].value;
      shared.(transactions := s.transactions[t := s.transactions[t].(overlay := v.overlay.value)])
  }

  /** A handle that was never handed out has no counterpart in the program: its use is refused. */
  predicate Known(s: Store, a: Action) {
    match a
    case Connect => true
    case Commit(t) => Begun(s, t)
    case Rollback(t) => Begun(s, t)
    case _ => Connected(s, a.c)
  }

  function Answer<T>(r: Result<T>): Reply {
    if r.Ok? then Done else Refused(r.error)
  }

  function Step(s: Store, a: Action): Outcome {
    if !Known(s, a) then Outcome(s, Refused(NoSuchHandle))
    else
      match a
      case Connect =>
        Outcome(s.(current := s.current + [None]), Handle(|s.current|))
      case Begin(c) =>
        if s.current[c].Some? then Outcome(s, Refused(TransactionActive))
        else
          var t := |s.transactions|;
          Outcome(s.(current := s.current[c := Some(t)],
                     transactions := s.transactions + [Transaction(c, EMPTY_OVERLAY, false)]),
                  Handle(t))
      case CreateSchema(c) =>
        Outcome(WithView(s, c, CreateSchemaIn(ViewOf(s, c))), Done)
      case Insert(c, r) =>
        var (v, result) := InsertIn(ViewOf(s, c), r);
        Outcome(WithView(s, c, v), Answer(result))
      case Find(c, id) =>
        var result := FindIn(ViewOf(s, c), id);
        Outcome(s, if result.Ok? then Row(result.value) else Refused(result.error))
      case Commit(t) =>
        if !Active(s, t) then Outcome(s, Refused(TransactionComplete))
        else
          var c := s.transactions[t].connection;
          var (v, result) := CommitIn(ViewOf(s, c));
          Outcome(WithView(s, c, v), Answer(result))
      case Rollback(t) =>
        if !Active(s, t) then Outcome(s, Refused(TransactionDone))
        else Outcome(Ended(s, s.transactions[t].connection), Done)
  }

  function Run(s: Store, actions: seq<Action>): Store {
    if actions == [] then s
    else Step(Run(s, actions[..|actions| - 1]), actions[|actions| - 1]).store
  }

  /** What the actions of a run are answered, one by one. */
  function Replies(s: Store, actions: seq<Action>): seq<Reply> {
    if actions == [] then []
    else
      var front := actions[..|actions| - 1];
      Replies(s, front) + [Step(Run(s, front), actions[|actions| - 1]).reply]
  }

  // ---------- Transaction lifecycle ----------

  /** A transaction is open exactly when it is the current one of its connection. */
  ghost predicate Lifecycle(s: Store) {
    && (forall c :: 0 <= c < |s.current| && s.current[c].Some? ==>
          var t := s.current[c].value;
          t < |s.transactions| && s.transactions[t].connection == c && !s.transactions[t].done)
    && (forall t :: 0 <= t < |s.transactions| ==>
          var x := s.transactions[t];
          x.connection < |s.current| && (!x.done ==> s.current[x.connection] == Some(t)))
  }

  lemma WithViewKeepsLifecycle(s: Store, c: nat, v: View)
    requires Lifecycle(s) && Connected(s, c)
    ensures Lifecycle(WithView(s, c, v))
  {
    if s.current[c].Some? && v.overlay.None? {
      EndedKeepsLifecycle(s.(records := v.records, schema := v.schema), c);
    }
    hide Ended;
  }

  lemma EndedKeepsLifecycle(s: Store, c: nat)
    requires Lifecycle(s) && Connected(s, c) && s.current[c].Some?
    ensures Lifecycle(Ended(s, c))
  {
  }

  lemma StepKeepsLifecycle(s: Store, a: Action)
    requires Lifecycle(s)
    ensures Lifecycle(Step(s, a).store)
  {
    hide WithView, InsertIn, CommitIn;
    if Known(s, a) {
      match a
      case Connect =>
      case Begin(c) =>
      case Find(c, id) =>
      case CreateSchema(c) =>
        WithViewKeepsLifecycle(s, c, CreateSchemaIn(ViewOf(s, c)));
      case Insert(c, r) =>
        WithViewKeepsLifecycle(s, c, InsertIn(ViewOf(s, c), r).0);
      case Commit(t) =>
        if Active(s, t) {
          var c := s.transactions[t].connection;
          WithViewKeepsLifecycle(s, c, CommitIn(ViewOf(s, c)).0);
        }
      case Rollback(t) =>
        if Active(s, t) {
          var c := s.transactions[t].connection;
          WithViewKeepsLifecycle(s, c, ViewOf(s, c).(overlay := None));
        }
    }
  }

  lemma {:induction false} RunKeepsLifecycle(s: Store, actions: seq<Action>)
    requires Lifecycle(s)
    ensures Lifecycle(Run(s, actions))
  {
    if actions != [] {
      RunKeepsLifecycle(s, actions[..|actions| - 1]);
      StepKeepsLifecycle(Run(s, actions[..|actions| - 1]), actions[|actions| - 1]);
    }
  }

  lemma {:induction false} RunAppend(s: Store, before: seq<Action>, after: seq<Action>)
    ensures Run(s, before + after) == Run(Run(s, before), after)
  {
    if after == [] {
      assert before + after == before;
    } else {
      var n := |after| - 1;
      assert (before + after)[..|before + after| - 1] == before + after[..n];
      RunAppend(s, before, after[..n]);
    }
  }

  /** What every step leaves in place: committed records keep their value, handles keep their
      meaning, an ended transaction stays ended with the overlay it had. */
  ghost predicate Extends(s: Store, s': Store) {
    && (forall id :: id in s.records ==> id in s'.records && s'.records[id] == s.records[id])
    && (s.schema ==> s'.schema)
    && |s.current| <= |s'.current|
    && |s.transactions| <= |s'.transactions|
    && (forall t :: 0 <= t < |s.transactions| ==>
          && s'.transactions[t].connection == s.transactions[t].connection
          && (s.transactions[t].done ==> s'.transactions[t] == s.transactions[t]))
  }

  lemma WithViewExtends(s: Store, c: nat, v: View)
    requires Lifecycle(s) && Connected(s, c) && (s.schema ==> v.schema)
    requires forall id :: id in s.records ==> id in v.records && v.records[id] == s.records[id]
    ensures Extends(s, WithView(s, c, v))
  {
  }

  lemma StepExtends(s: Store, a: Action)
    requires Lifecycle(s)
    ensures Extends(s, Step(s, a).store)
  {
    hide WithView, Lifecycle;
    if Known(s, a) {
      match a
      case CreateSchema(c) => WithViewExtends(s, c, CreateSchemaIn(ViewOf(s, c)));
      case Insert(c, r) => WithViewExtends(s, c, InsertIn(ViewOf(s, c), r).0);
      case Commit(t) =>
        if Active(s, t) {
          WithViewExtends(s, s.transactions[t].connection, CommitIn(ViewOf(s, s.transactions[t].connection)).0);
        }
      case _ =>
    }
  }

  /** Committed records are never changed or removed and the schema never reverts, in any run. */
  lemma {:induction false} RunExtends(s: Store, actions: seq<Action>)
    requires Lifecycle(s)
    ensures Extends(s, Run(s, actions))
  {
    if actions != [] {
      var front := actions[..|actions| - 1];
      RunExtends(s, front);
      RunKeepsLifecycle(s, front);
      StepExtends(Run(s, front), actions[|actions| - 1]);
    }
  }

  /** Once a transaction has ended, whatever happens next, ending it again is refused and
      changes nothing. */
  lemma EndedOnlyOnce(s: Store, t: nat, first: Action, later: seq<Action>)
    requires Lifecycle(s) && Begun(s, t) && Active(s, t)
    requires first == Commit(t) || first == Rollback(t)
    ensures
      var s' := Run(Step(s, first).store, later);
      && Step(s', Commit(t)) == Outcome(s', Refused(TransactionComplete))
      && Step(s', Rollback(t)) == Outcome(s', Refused(TransactionDone))
  {
    var ended := Step(s, first).store;
    assert ended.transactions[t].done;
    StepKeepsLifecycle(s, first);
    RunKeepsLifecycle(ended, later);
    RunExtends(ended, later);
  }

  // ---------- Isolation ----------

  /** A lookup answers from the committed records overlaid with the connection's own staged ones;
      without the schema it can only answer with a staged one. */
  lemma FindReadsThrough(v: View, id: string)
    ensures v.schema ==> FindIn(v, id) == Ok(if id in Visible(v) then Some(Visible(v)[id]) else None)
    ensures !v.schema ==>
              FindIn(v, id) == if v.overlay.Some? && id in v.overlay.value.records
                               then Ok(Some(Visible(v)[id])) else Err(SchemaMissing)
  {
  }

  /** An insert is accepted exactly for an ID that the connection does not see, within a transaction
      or with the schema; it then shows exactly the new record, and changes no shared state within a
      transaction. */
  lemma InsertOutcome(v: View, r: Record)
    ensures
      var (v', result) := InsertIn(v, r);
      && result == (if v.overlay.None? && !v.schema then Err(SchemaMissing)
                    else if r.id in Visible(v) then Err(DuplicateKey) else Ok(1))
      && v'.schema == v.schema && v'.overlay.Some? == v.overlay.Some?
      && (v.overlay.Some? ==>
            v'.records == v.records && v'.overlay.value.createSchema == v.overlay.value.createSchema)
      && (result.Ok? ==> Visible(v') == Visible(v)[r.id := r])
      && (result.Err? ==> v' == v)
  {
  }

  /** Creating the schema touches no record; it takes effect at once, or with the commit of the open
      transaction. */
  lemma CreateSchemaOutcome(v: View)
    ensures
      var v' := CreateSchemaIn(v);
      && v'.records == v.records && Visible(v') == Visible(v) && v'.overlay.Some? == v.overlay.Some?
      && (v.overlay.None? ==> v'.schema)
      && (v.overlay.Some? ==> v'.schema == v.schema && (!Conflicts(v) ==> CommitIn(v').0.schema))
  {
  }

  /** A connection can always be opened, and a transaction on every connection without one; nothing
      else changes. */
  lemma OpeningEffect(s: Store, a: Action)
    requires a.Connect? || a.Begin?
    ensures
      var o := Step(s, a);
      && o.store.records == s.records && o.store.schema == s.schema
      && if a.Connect? then
           && o.reply == Handle(|s.current|) && o.store.current == s.current + [None]
           && o.store.transactions == s.transactions
         else if a.c < |s.current| && s.current[a.c].None? then
           && o.reply == Handle(|s.transactions|)
           && o.store.current == s.current[a.c := Some(|s.transactions|)]
           && o.store.transactions == s.transactions + [Transaction(a.c, EMPTY_OVERLAY, false)]
         else o.store == s && o.reply.Refused? && (Connected(s, a.c) ==> o.reply == Refused(TransactionActive))
  {
  }

  /** Work on a connection does to its view, and answers, what the operation on the view does. */
  lemma WorkEffect(s: Store, a: Action)
    requires Lifecycle(s) && (a.Insert? || a.Find? || a.CreateSchema?) && a.c < |s.current|
    ensures
      var o, v := Step(s, a), ViewOf(s, a.c);
      match a
      case Insert(c, r) =>
        ViewOf(o.store, c) == InsertIn(v, r).0
        && (if InsertIn(v, r).1.Ok? then o.reply == Done else o.reply == Refused(InsertIn(v, r).1.error))
      case Find(c, id) =>
        o.store == s
        && (if FindIn(v, id).Ok? then o.reply == Row(FindIn(v, id).value) else o.reply == Refused(FindIn(v, id).error))
      case CreateSchema(c) => ViewOf(o.store, c) == CreateSchemaIn(v) && o.reply == Done
      case _ => true
  {
  }

  /** What a connection does inside its open transaction changes neither the shared state nor the
      view of any other connection, until the transaction commits. */
  lemma StagedWorkIsInvisible(s: Store, a: Action, c: nat, other: nat)
    requires Lifecycle(s) && c < |s.current| && other < |s.current| && c != other
    requires s.current[c].Some?
    requires
      || ((a.Insert? || a.CreateSchema? || a.Find? || a.Begin?) && a.c == c)
      || a == Rollback(s.current[c].value)
    ensures
      var s' := Step(s, a).store;
      s'.records == s.records && s'.schema == s.schema && ViewOf(s', other) == ViewOf(s, other)
  {
  }

  /** The only steps that change the committed records: a successful commit adds exactly the
      staged records, all of them new, and an accepted insert without transaction adds its own. */
  lemma OnlyCommitsChangeRecords(s: Store, a: Action)
    requires Lifecycle(s)
    ensures
      var o := Step(s, a);
      if a.Commit? && o.reply == Done then
        && Begun(s, a.t)
        && s.records.Keys !! s.transactions[a.t].overlay.records.Keys
        && o.store.records == s.records + s.transactions[a.t].overlay.records
      else if a.Insert? && o.reply == Done && s.current[a.c].None? then
        a.record.id !in s.records && o.store.records == s.records[a.record.id := a.record]
      else o.store.records == s.records
  {
  }

  /** Ending a transaction closes it and frees its connection; a commit succeeds exactly when no
      staged key is committed yet. */
  lemma EndEffect(s: Store, a: Action)
    requires Lifecycle(s) && Known(s, a) && (a.Commit? || a.Rollback?)
    ensures
      var o := Step(s, a);
      if !Active(s, a.t) then o.store == s && o.reply.Refused?
      else
        var x := s.transactions[a.t];
        && o.store.transactions == s.transactions[a.t := x.(done := true)]
        && o.store.current == s.current[x.connection := None]
        && o.store.schema == (s.schema || (o.reply == Done && a.Commit? && x.overlay.createSchema))
        && if a.Rollback? || !(s.records.Keys !! x.overlay.records.Keys) then
             o.store.records == s.records && o.reply == (if a.Rollback? then Done else Refused(DuplicateKey))
           else o.store.records == s.records + x.overlay.records && o.reply == Done
  {
    if Active(s, a.t) && a.Commit? {
      var v := ViewOf(s, s.transactions[a.t].connection);
      assert Conflicts(v) <==> !(s.records.Keys !! v.overlay.value.records.Keys);
    }
  }

  /** Work inside an open transaction changes its overlay only. */
  lemma InnerEffect(s: Store, a: Action)
    requires Lifecycle(s) && Known(s, a) && (a.Insert? || a.Find? || a.CreateSchema?)
    requires s.current[a.c].Some?
    ensures
      var t, s' := s.current[a.c].value, Step(s, a).store;
      s' == s.(transactions := s.transactions[t := s.transactions[t].(overlay := s'.transactions[t].overlay)])
  {
    var t := s.current[a.c].value;
    assert s.transactions[t := s.transactions[t].(overlay := s.transactions[t].overlay)] == s.transactions;
  }

  /** Work outside transactions changes the records and the schema only. */
  lemma OuterEffect(s: Store, a: Action)
    requires Lifecycle(s) && Known(s, a) && (a.Insert? || a.Find? || a.CreateSchema?)
    requires s.current[a.c].None?
    ensures
      var o := Step(s, a);
      && o.store == s.(records := o.store.records, schema := o.store.schema) && (s.schema ==> o.store.schema)
      && o.store.records ==
         (if a.Insert? && o.reply == Done then s.records[a.record.id := a.record] else s.records)
      && (a.Insert? && s.schema ==> o.reply == if a.record.id in s.records then Refused(DuplicateKey) else Done)
      && (a.Find? && s.schema ==> o.reply == Row(if a.id in s.records then Some(s.records[a.id]) else None))
      && (a.CreateSchema? ==> o.reply == Done && o.store.schema)
      && (!a.CreateSchema? ==> o.store.schema == s.schema)
  {
  }

  // ---------- Autocommit ----------

  /** Begin, insert, then commit an accepted insert or roll a refused one back. */
  function Wrapped(s: Store, c: nat, r: Record): (o: Outcome) {
    var t := |s.transactions|;
    var inserted := Step(Step(s, Begin(c)).store, Insert(c, r));
    Outcome(Step(inserted.store, if inserted.reply == Done then Commit(t) else Rollback(t)).store,
            inserted.reply)
  }

  /** An insert outside a transaction is an uninterrupted begin, insert and commit or rollback,
      exactly when the schema is present: a transaction never checks for it. */
  lemma AutocommitEquivalence(s: Store, c: nat, r: Record)
    requires Lifecycle(s) && c < |s.current| && s.current[c].None?
    ensures
      var direct, wrapped := Step(s, Insert(c, r)), Wrapped(s, c, r);
      s.schema <==>
        && direct.reply == wrapped.reply
        && direct.store.records == wrapped.store.records
        && direct.store.schema == wrapped.store.schema
        && direct.store.current == wrapped.store.current
  {
    var t := |s.transactions|;
    var begun := Step(s, Begin(c)).store;
    var inserted := Step(begun, Insert(c, r));
    assert Active(inserted.store, t);
    assert inserted.store.current[c := None] == s.current;
    if inserted.reply == Done {
      assert inserted.store.transactions[t].overlay.records == map[r.id := r];
      assert s.records + map[r.id := r] == s.records[r.id := r];
    }
  }

  /** The premise of the equivalence holds in every run over a new database. */
  lemma SchemaAlwaysReady(actions: seq<Action>)
    ensures Run(NEW_DATABASE, actions).schema && Lifecycle(Run(NEW_DATABASE, actions))
  {
    RunExtends(NEW_DATABASE, actions);
    RunKeepsLifecycle(NEW_DATABASE, actions);
  }
}
