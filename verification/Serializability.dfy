/** Which serial executions explain the interleaved runs of the store.

    A history records, beside the store, what every transaction saw: which inserts were accepted
    and what its lookups returned. `committed` lists the successfully committed transactions in
    commit order; an operation outside a transaction is a committed transaction of its own.
  */
module Serializability {
  import opened Records
  import opened MemoryStore

  type Database = map<string, Record>

  datatype Event = Insertion(record: Record, accepted: bool) | Lookup(id: string, found: Option<Record>)

  datatype History = History(store: Store, logs: seq<seq<Event>>, committed: seq<seq<Event>>)

  const START := History(NEW_DATABASE, [], [])

  function Seen(a: Action, reply: Reply): seq<Event> {
    match a
    case Insert(_, r) =>
      if reply == Done then [Insertion(r, true)]
      else if reply == Refused(DuplicateKey) then [Insertion(r, false)]
      else []
    case Find(_, id) => if reply.Row? then [Lookup(id, reply.found)] else []
    case _ => []
  }

  predicate Aligned(h: History) {
    |h.logs| == |h.store.transactions|
  }

  function Observe(h: History, a: Action): (h': History)
    requires Aligned(h)
    ensures Aligned(h') && h'.store == Step(h.store, a).store
  {
    var o := Step(h.store, a);
    var seen := Seen(a, o.reply);
    if a.Begin? && o.reply.Handle? then History(o.store, h.logs + [[]], h.committed)
    else if a.Commit? && o.reply == Done then History(o.store, h.logs, h.committed + [h.logs[a.t]])
    else if seen == [] then h.(store := o.store)
    else if h.store.current[a.c].None? then h.(store := o.store, committed := h.committed + [seen])
    else
      var t := h.store.current[a.c].value;
      h.(store := o.store, logs := h.logs[t := h.logs[t] + seen])
  }

  /** Every answer is recorded as it was given: within its transaction's log, or as a committed
      transaction of its own; and a commit lists the log of its transaction. */
  lemma AnswersAreRecorded(h: History, a: Action)
    requires Aligned(h) && Lifecycle(h.store) && Known(h.store, a)
    ensures
      var h', reply := Observe(h, a), Step(h.store, a).reply;
      var answered := (a.Insert? && (reply == Done || reply == Refused(DuplicateKey))) || (a.Find? && reply.Row?);
      && (a.Commit? ==>
            h'.logs == h.logs && h'.committed == (if reply == Done then h.committed + [h.logs[a.t]] else h.committed))
      && (answered ==>
            var event := if a.Insert? then Insertion(a.record, reply == Done) else Lookup(a.id, reply.found);
            if h.store.current[a.c].None? then h'.logs == h.logs && h'.committed == h.committed + [[event]]
            else
              var t := h.store.current[a.c].value;
              h'.committed == h.committed && h'.logs == h.logs[t := h.logs[t] + [event]])
      && (!answered && !a.Commit? ==> h'.committed == h.committed && h.logs <= h'.logs)
  {
    hide WithView, InsertIn, FindIn, CommitIn;
  }

  function ObserveAll(actions: seq<Action>): (h: History)
    ensures Aligned(h) && h.store == Run(NEW_DATABASE, actions)
  {
    if actions == [] then START
    else Observe(ObserveAll(actions[..|actions| - 1]), actions[|actions| - 1])
  }

  // ---------- Serial execution ----------

  /** Executes one recorded operation alone on a plain database, whatever was recorded of it. */
  function Redo(d: Database, e: Event): Database {
    if e.Insertion? && e.record.id !in d then d[e.record.id := e.record] else d
  }

  function RedoAll(d: Database, log: seq<Event>): Database {
    if log == [] then d else Redo(RedoAll(d, log[..|log| - 1]), log[|log| - 1])
  }

  /** The serial execution on d shows what was recorded; unless strict, a lookup that missed may
      find a record. */
  predicate Agrees(d: Database, e: Event, strict: bool) {
    match e
    case Insertion(r, accepted) => accepted == (r.id !in d)
    case Lookup(id, found) =>
      if found.Some? then id in d && d[id] == found.value else strict ==> id !in d
  }

  predicate AgreesAll(d: Database, log: seq<Event>, strict: bool) {
    log == [] ||
    (AgreesAll(d, log[..|log| - 1], strict) && Agrees(RedoAll(d, log[..|log| - 1]), log[|log| - 1], strict))
  }

  function Serial(order: seq<seq<Event>>): Database {
    if order == [] then map[] else RedoAll(Serial(order[..|order| - 1]), order[|order| - 1])
  }

  predicate SerialAgrees(order: seq<seq<Event>>, strict: bool) {
    order == [] ||
    (SerialAgrees(order[..|order| - 1], strict)
     && AgreesAll(Serial(order[..|order| - 1]), order[|order| - 1], strict))
  }

  // ---------- Why the commit order works ----------

  ghost predicate Above(low: Database, high: Database) {
    forall id :: id in low ==> id in high && high[id] == low[id]
  }

  ghost predicate Explains(d: Database, staged: Database, log: seq<Event>, strict: bool) {
    AgreesAll(d, log, strict) && RedoAll(d, log) == d + staged
  }

  /** The log makes sense on every later database that has none of the staged keys. */
  ghost predicate ExplainedLater(db: Database, staged: Database, log: seq<Event>) {
    forall d :: Above(db, d) && d.Keys !! staged.Keys ==> Explains(d, staged, log, false)
  }

  /** The log makes full sense on the present database, which has none of the staged keys. */
  ghost predicate ExplainedNow(db: Database, staged: Database, log: seq<Event>) {
    db.Keys !! staged.Keys && Explains(db, staged, log, true)
  }

  lemma ExtendLog(d: Database, log: seq<Event>, e: Event, strict: bool)
    ensures RedoAll(d, log + [e]) == Redo(RedoAll(d, log), e)
    ensures AgreesAll(d, log + [e], strict) <==> AgreesAll(d, log, strict) && Agrees(RedoAll(d, log), e, strict)
  {
    assert (log + [e])[..|log + [e]| - 1] == log;
  }

  lemma ExtendOrder(order: seq<seq<Event>>, log: seq<Event>, strict: bool)
    ensures Serial(order + [log]) == RedoAll(Serial(order), log)
    ensures SerialAgrees(order + [log], strict) <==>
            SerialAgrees(order, strict) && AgreesAll(Serial(order), log, strict)
  {
    assert (order + [log])[..|order + [log]| - 1] == order;
  }

  /** An accepted insert stages its record; every other answer leaves the overlay alone. */
  ghost predicate Stages(v: View, a: Action, staged: Database, seen: seq<Event>)
    requires v.overlay.Some? && v.schema
  {
    match a
    case Insert(_, r) =>
      var (v', result) := InsertIn(v, r);
      v'.overlay.Some? && staged == v'.overlay.value.records && seen == Seen(a, Answer(result))
    case Find(_, id) =>
      staged == v.overlay.value.records && FindIn(v, id).Ok? && seen == Seen(a, Row(FindIn(v, id).value))
    case _ => staged == v.overlay.value.records && seen == []
  }

  lemma OneMoreOn(d: Database, v: View, a: Action, log: seq<Event>, staged: Database, seen: seq<Event>, strict: bool)
    requires v.overlay.Some? && v.schema && Stages(v, a, staged, seen)
    requires Above(v.records, d) && d.Keys !! staged.Keys && (strict ==> d == v.records)
    requires Explains(d, v.overlay.value.records, log, strict)
    ensures Explains(d, staged, log + seen, strict)
  {
    if seen == [] {
      assert log + seen == log;
    } else {
      assert log + seen == log + [seen[0]];
      ExtendLog(d, log, seen[0], strict);
      hide RedoAll, AgreesAll;
      EventAgrees(d, v, a, staged, seen, strict);
    }
  }

  /** The one event agrees with the database overlaid so far, and leads to the new overlay. */
  lemma EventAgrees(d: Database, v: View, a: Action, staged: Database, seen: seq<Event>, strict: bool)
    requires v.overlay.Some? && v.schema && Stages(v, a, staged, seen) && seen != []
    requires Above(v.records, d) && d.Keys !! staged.Keys && (strict ==> d == v.records)
    ensures Agrees(d + v.overlay.value.records, seen[0], strict)
    ensures Redo(d + v.overlay.value.records, seen[0]) == d + staged
  {
    var before := v.overlay.value.records;
    match a
    case Insert(_, r) =>
      if r.id !in before && r.id !in v.records {
        assert r.id in staged;
        assert d + before[r.id := r] == (d + before)[r.id := r];
      }
    case Find(_, id) =>
  }

  lemma OneMoreLater(v: View, a: Action, log: seq<Event>, staged: Database, seen: seq<Event>)
    requires v.overlay.Some? && v.schema && Stages(v, a, staged, seen)
    requires ExplainedLater(v.records, v.overlay.value.records, log)
    ensures ExplainedLater(v.records, staged, log + seen)
  {
    forall d | Above(v.records, d) && d.Keys !! staged.Keys
      ensures Explains(d, staged, log + seen, false)
    {
      assert v.overlay.value.records.Keys <= staged.Keys;
      assert Explains(d, v.overlay.value.records, log, false);
      OneMoreOn(d, v, a, log, staged, seen, false);
    }
  }

  lemma OneMoreNow(v: View, a: Action, log: seq<Event>, staged: Database, seen: seq<Event>)
    requires v.overlay.Some? && v.schema && Stages(v, a, staged, seen)
    requires ExplainedNow(v.records, v.overlay.value.records, log)
    ensures ExplainedNow(v.records, staged, log + seen)
  {
    hide Explains;
    OneMoreOn(v.records, v, a, log, staged, seen, true);
  }

  ghost predicate Consistent(h: History, strict: bool) {
    && Aligned(h) && Lifecycle(h.store) && h.store.schema
    && Serial(h.committed) == h.store.records
    && SerialAgrees(h.committed, strict)
    && forall t :: 0 <= t < |h.logs| && !h.store.transactions[t].done ==>
         Explained(h.store.records, h.store.transactions[t].overlay.records, h.logs[t], strict)
  }

  ghost predicate Explained(db: Database, staged: Database, log: seq<Event>, strict: bool) {
    if strict then ExplainedNow(db, staged, log) else ExplainedLater(db, staged, log)
  }

  lemma OneMore(v: View, a: Action, log: seq<Event>, staged: Database, seen: seq<Event>, strict: bool)
    requires v.overlay.Some? && v.schema && Stages(v, a, staged, seen)
    requires Explained(v.records, v.overlay.value.records, log, strict)
    ensures Explained(v.records, staged, log + seen, strict)
  {
    if strict { OneMoreNow(v, a, log, staged, seen); } else { OneMoreLater(v, a, log, staged, seen); }
  }

  // ---------- Every step keeps the history explained ----------

  /** The other open transactions stay explained when the committed records grow. Strictly that
      needs that there are none: with one connection only one transaction is open at a time. */
  lemma OthersStayExplained(h: History, s': Store, strict: bool, t: nat)
    requires Consistent(h, strict) && t < |h.logs| && Extends(h.store, s')
    requires !h.store.transactions[t].done
    requires s'.records != h.store.records ==> !strict
    ensures Explained(s'.records, h.store.transactions[t].overlay.records, h.logs[t], strict)
  {
    if s'.records != h.store.records {
      assert ExplainedLater(h.store.records, h.store.transactions[t].overlay.records, h.logs[t]);
    }
  }

  lemma InTransaction(h: History, a: Action, strict: bool)
    requires Consistent(h, strict) && Known(h.store, a) && (a.Insert? || a.Find? || a.CreateSchema?)
    requires h.store.current[a.c].Some?
    ensures Consistent(Observe(h, a), strict)
  {
    var s, t := h.store, h.store.current[a.c].value;
    var v, o := ViewOf(s, a.c), Step(s, a);
    var staged, seen := o.store.transactions[t].overlay.records, Seen(a, o.reply);
    InnerStages(h, a);
    OneMore(v, a, h.logs[t], staged, seen, strict);
    hide Step, Explained, Serial, SerialAgrees;
    InnerEffect(s, a);
    StepKeepsLifecycle(s, a);
    var h' := Observe(h, a);
    assert h.logs[t] + [] == h.logs[t];
    assert h'.logs[t] == h.logs[t] + seen;
  }

  lemma InnerStages(h: History, a: Action)
    requires Lifecycle(h.store) && h.store.schema && Known(h.store, a) && (a.Insert? || a.Find? || a.CreateSchema?)
    requires h.store.current[a.c].Some?
    ensures
      var t, o := h.store.current[a.c].value, Step(h.store, a);
      Stages(ViewOf(h.store, a.c), a, o.store.transactions[t].overlay.records, Seen(a, o.reply))
  {
  }

  lemma SingleEventCommitted(h: History, a: Action, o: Outcome, strict: bool)
    requires Consistent(h, strict) && (a.Insert? || a.Find?) && Seen(a, o.reply) != []
    requires if a.Insert? then o.reply == (if a.record.id in h.store.records then Refused(DuplicateKey) else Done)
             else o.reply == Row(if a.id in h.store.records then Some(h.store.records[a.id]) else None)
    requires o.store.records ==
             (if a.Insert? && o.reply == Done then h.store.records[a.record.id := a.record] else h.store.records)
    ensures
      var committed := h.committed + [Seen(a, o.reply)];
      Serial(committed) == o.store.records && SerialAgrees(committed, strict)
  {
    var seen := Seen(a, o.reply);
    ExtendOrder(h.committed, seen, strict);
    ExtendLog(h.store.records, [], seen[0], strict);
    assert [] + [seen[0]] == seen;
  }

  lemma OutsideTransaction(h: History, a: Action, strict: bool)
    requires Consistent(h, strict) && Known(h.store, a) && (a.Insert? || a.Find? || a.CreateSchema?)
    requires h.store.current[a.c].None?
    requires strict ==> |h.store.current| <= 1
    ensures Consistent(Observe(h, a), strict)
  {
    hide Step, Explained, Serial, SerialAgrees;
    StepKeepsLifecycle(h.store, a);
    StepExtends(h.store, a);
    OuterEffect(h.store, a);
    var h', o := Observe(h, a), Step(h.store, a);
    if Seen(a, o.reply) != [] {
      SingleEventCommitted(h, a, o, strict);
    }
    forall u | 0 <= u < |h'.logs| && !h'.store.transactions[u].done
      ensures Explained(h'.store.records, h'.store.transactions[u].overlay.records, h'.logs[u], strict)
    {
      OthersStayExplained(h, o.store, strict, u);
    }
  }

  lemma EndOfTransaction(h: History, a: Action, strict: bool)
    requires Consistent(h, strict) && Known(h.store, a) && (a.Commit? || a.Rollback?)
    requires strict ==> |h.store.current| <= 1
    ensures Consistent(Observe(h, a), strict)
  {
    hide Step, Explained, Serial, SerialAgrees;
    StepKeepsLifecycle(h.store, a);
    StepExtends(h.store, a);
    EndEffect(h.store, a);
    var h', o := Observe(h, a), Step(h.store, a);
    if a.Commit? && o.reply == Done {
      CommittedIsExplained(h, a.t, strict);
      ExtendOrder(h.committed, h.logs[a.t], strict);
    }
    forall u | 0 <= u < |h'.logs| && !h'.store.transactions[u].done
      ensures Explained(h'.store.records, h'.store.transactions[u].overlay.records, h'.logs[u], strict)
    {
      OthersStayExplained(h, o.store, strict, u);
    }
  }

  lemma CommittedIsExplained(h: History, t: nat, strict: bool)
    requires Consistent(h, strict) && t < |h.logs| && !h.store.transactions[t].done
    requires h.store.records.Keys !! h.store.transactions[t].overlay.records.Keys
    ensures Explains(h.store.records, h.store.transactions[t].overlay.records, h.logs[t], strict)
  {
    assert Explained(h.store.records, h.store.transactions[t].overlay.records, h.logs[t], strict);
    assert Above(h.store.records, h.store.records);
  }

  lemma Opening(h: History, a: Action, strict: bool)
    requires Consistent(h, strict) && Known(h.store, a) && (a.Connect? || a.Begin?)
    ensures Consistent(Observe(h, a), strict)
  {
    StepKeepsLifecycle(h.store, a);
  }

  lemma ObserveKeepsConsistent(h: History, a: Action, strict: bool)
    requires Consistent(h, strict)
    requires strict ==> |h.store.current| <= 1
    ensures Consistent(Observe(h, a), strict)
  {
    if Known(h.store, a) {
      if a.Commit? || a.Rollback? {
        EndOfTransaction(h, a, strict);
      } else if a.Connect? || a.Begin? {
        Opening(h, a, strict);
      } else if h.store.current[a.c].Some? {
        InTransaction(h, a, strict);
      } else {
        OutsideTransaction(h, a, strict);
      }
    }
  }

  lemma {:induction false} HistoriesConsistent(actions: seq<Action>, strict: bool)
    requires strict ==> |Run(NEW_DATABASE, actions).current| <= 1
    ensures Consistent(ObserveAll(actions), strict)
  {
    if actions != [] {
      var front, last := actions[..|actions| - 1], actions[|actions| - 1];
      RunKeepsLifecycle(NEW_DATABASE, front);
      StepExtends(Run(NEW_DATABASE, front), last);
      HistoriesConsistent(front, strict);
      ObserveKeepsConsistent(ObserveAll(front), last, strict);
    }
  }

  /** On any number of connections, the committed records are those of the serial execution of the
      committed transactions in commit order, which also gives every recorded answer of an insert
      and every record found. Only a lookup that missed may find a record there. */
  lemma CommitOrderSerializable(actions: seq<Action>)
    ensures
      var h := ObserveAll(actions);
      Serial(h.committed) == h.store.records && SerialAgrees(h.committed, false)
  {
    HistoriesConsistent(actions, false);
  }

  // ---------- Full serializability needs the pool of one ----------

  ghost predicate SerializableIn(h: History, order: seq<seq<Event>>) {
    && multiset(order) == multiset(h.committed)
    && SerialAgrees(order, true)
    && Serial(order) == h.store.records
  }

  /** Some serial order of the committed transactions shows everything they saw. */
  ghost predicate Serializable(h: History) {
    exists order :: SerializableIn(h, order)
  }

  ghost predicate AlwaysSerializable(connections: nat) {
    forall actions :: |Run(NEW_DATABASE, actions).current| <= connections ==> Serializable(ObserveAll(actions))
  }

  /** Two transactions that each miss the record the other one then inserts. */
  function WriteSkew(first: Record, second: Record): seq<Action> {
    [Connect, Connect, Begin(0), Begin(1), Find(0, first.id), Find(1, second.id),
     Insert(0, second), Insert(1, first), Commit(0), Commit(1)]
  }

  function Crossed(missed: Record, inserted: Record): seq<Event> {
    [Lookup(missed.id, None), Insertion(inserted, true)]
  }

  function Open(staged0: Database, staged1: Database, log0: seq<Event>, log1: seq<Event>): History {
    History(Store(map[], true, [Some(0), Some(1)],
                  [Transaction(0, Overlay(staged0, false), false), Transaction(1, Overlay(staged1, false), false)]),
            [log0, log1], [])
  }

  lemma OpenLookup(h: History, c: nat, id: string)
    requires h == Open(map[], map[], [], []) || exists other :: h == Open(map[], map[], [Lookup(other, None)], [])
    requires c < 2 && h.logs[c] == []
    ensures Observe(h, Find(c, id)) == h.(logs := h.logs[c := [Lookup(id, None)]])
  {
    assert Step(h.store, Find(c, id)) == Outcome(h.store, Row(None));
    assert [] + [Lookup(id, None)] == [Lookup(id, None)];
  }

  lemma OpenInsert(staged0: Database, log0: seq<Event>, log1: seq<Event>, c: nat, r: Record)
    requires c < 2 && (c == 0 ==> staged0 == map[])
    ensures Observe(Open(staged0, map[], log0, log1), Insert(c, r))
         == if c == 0 then Open(map[r.id := r], map[], log0 + [Insertion(r, true)], log1)
            else Open(staged0, map[r.id := r], log0, log1 + [Insertion(r, true)])
  {
    var h := Open(staged0, map[], log0, log1);
    var v := ViewOf(h.store, c);
    assert InsertIn(v, r) == (v.(overlay := Some(Overlay(map[r.id := r], false))), Ok(1));
    var o := Step(h.store, Insert(c, r));
    assert o.reply == Done;
    var staged := Overlay(map[r.id := r], false);
    assert o.store == h.store.(transactions := h.store.transactions[c := Transaction(c, staged, false)]);
  }

  lemma CommitUnopposed(h: History, t: nat)
    requires Aligned(h) && Begun(h.store, t) && Active(h.store, t)
    requires h.store.records.Keys !! h.store.transactions[t].overlay.records.Keys
    ensures
      var h' := Observe(h, Commit(t));
      && h'.committed == h.committed + [h.logs[t]] && h'.logs == h.logs
      && h'.store.records == h.store.records + h.store.transactions[t].overlay.records
      && h'.store.current == h.store.current[h.store.transactions[t].connection := None]
      && h'.store.transactions == h.store.transactions[t := h.store.transactions[t].(done := true)]
  {
    assert !Conflicts(ViewOf(h.store, h.store.transactions[t].connection));
  }

  /** One more action of a run whose history so far is known. */
  lemma Next(w: seq<Action>, n: nat, h: History, h': History)
    requires n < |w| && Aligned(h) && ObserveAll(w[..n]) == h && Observe(h, w[n]) == h'
    ensures ObserveAll(w[..n + 1]) == h'
  {
    assert w[..n + 1][..n] == w[..n];
  }

  lemma WriteSkewConnects(w: seq<Action>)
    requires |w| == 10 && w[0] == Connect && w[1] == Connect
    ensures ObserveAll(w[..2]) == START.(store := NEW_DATABASE.(current := [None, None]))
  {
    var one := START.(store := NEW_DATABASE.(current := [None]));
    Next(w, 0, START, one);
    Next(w, 1, one, START.(store := NEW_DATABASE.(current := [None, None])));
  }

  lemma WriteSkewOpens(w: seq<Action>)
    requires |w| == 10 && w[..4] == [Connect, Connect, Begin(0), Begin(1)]
    ensures ObserveAll(w[..4]) == Open(map[], map[], [], [])
  {
    assert w[0] == w[..4][0] && w[1] == w[..4][1] && w[2] == w[..4][2] && w[3] == w[..4][3];
    WriteSkewConnects(w);
    var two := START.(store := NEW_DATABASE.(current := [None, None]));
    var one := History(Store(map[], true, [Some(0), None], [Transaction(0, EMPTY_OVERLAY, false)]), [[]], []);
    Next(w, 2, two, one);
    Next(w, 3, one, Open(map[], map[], [], []));
  }

  lemma WriteSkewMisses(w: seq<Action>, first: string, second: string)
    requires |w| == 10 && w[4] == Find(0, first) && w[5] == Find(1, second)
    requires ObserveAll(w[..4]) == Open(map[], map[], [], [])
    ensures ObserveAll(w[..6]) == Open(map[], map[], [Lookup(first, None)], [Lookup(second, None)])
  {
    var opening := Open(map[], map[], [], []);
    var one := Open(map[], map[], [Lookup(first, None)], []);
    OpenLookup(opening, 0, first);
    Next(w, 4, opening, one);
    OpenLookup(one, 1, second);
    Next(w, 5, one, Open(map[], map[], [Lookup(first, None)], [Lookup(second, None)]));
  }

  lemma WriteSkewInserts(w: seq<Action>, first: Record, second: Record)
    requires |w| == 10 && w[6] == Insert(0, second) && w[7] == Insert(1, first)
    requires ObserveAll(w[..6]) == Open(map[], map[], [Lookup(first.id, None)], [Lookup(second.id, None)])
    ensures ObserveAll(w[..8]) == Open(map[second.id := second], map[first.id := first],
                                       Crossed(first, second), Crossed(second, first))
  {
    var log0, log1 := [Lookup(first.id, None)], [Lookup(second.id, None)];
    assert log0 + [Insertion(second, true)] == Crossed(first, second);
    assert log1 + [Insertion(first, true)] == Crossed(second, first);
    OpenInsert(map[], log0, log1, 0, second);
    OpenInsert(map[second.id := second], Crossed(first, second), log1, 1, first);
    var one := Open(map[second.id := second], map[], Crossed(first, second), log1);
    Next(w, 6, Open(map[], map[], log0, log1), one);
    Next(w, 7, one,
         Open(map[second.id := second], map[first.id := first], Crossed(first, second), Crossed(second, first)));
  }

  lemma WriteSkewEnds(w: seq<Action>, first: Record, second: Record)
    requires first.id != second.id
    requires |w| == 10 && w[8] == Commit(0) && w[9] == Commit(1)
    requires ObserveAll(w[..8]) == Open(map[second.id := second], map[first.id := first],
                                        Crossed(first, second), Crossed(second, first))
    ensures
      var h := ObserveAll(w);
      h.committed == [Crossed(first, second), Crossed(second, first)] && |h.store.current| == 2
  {
    hide Observe, ObserveAll;
    var h8 := ObserveAll(w[..8]);
    CommitUnopposed(h8, 0);
    var h9 := Observe(h8, Commit(0));
    Next(w, 8, h8, h9);
    assert Begun(h9.store, 1) && Active(h9.store, 1);
    CommitUnopposed(h9, 1);
    Next(w, 9, h9, Observe(h9, Commit(1)));
    assert w[..10] == w;
  }

  lemma WriteSkewCommits(first: Record, second: Record)
    requires first.id != second.id
    ensures
      var h := ObserveAll(WriteSkew(first, second));
      h.committed == [Crossed(first, second), Crossed(second, first)] && |h.store.current| == 2
  {
    hide Observe, ObserveAll, Open;
    var w := WriteSkew(first, second);
    WriteSkewOpens(w);
    WriteSkewMisses(w, first.id, second.id);
    WriteSkewInserts(w, first, second);
    WriteSkewEnds(w, first, second);
  }

  /** Whichever of the two runs first inserts what the other one missed. */
  lemma NeitherOrderExplains(missed: Record, inserted: Record)
    ensures !SerialAgrees([Crossed(missed, inserted), Crossed(inserted, missed)], true)
  {
    var one, two := Crossed(missed, inserted), Crossed(inserted, missed);
    ExtendOrder([one], two, true);
    ExtendOrder([], one, true);
    assert [] + [one] == [one] && [one] + [two] == [one, two];
    var d := Serial([one]);
    ExtendLog(map[], [one[0]], one[1], true);
    assert one == [one[0]] + [one[1]] && two == [two[0]] + [two[1]];
    assert inserted.id in d;
    ExtendLog(d, [], two[0], true);
    assert [] + [two[0]] == [two[0]];
    ExtendLog(d, [two[0]], two[1], true);
  }

  lemma WriteSkewNotSerializable(first: Record, second: Record)
    requires first.id != second.id
    ensures !Serializable(ObserveAll(WriteSkew(first, second)))
  {
    WriteSkewCommits(first, second);
    var h := ObserveAll(WriteSkew(first, second));
    var one, two := Crossed(first, second), Crossed(second, first);
    forall order ensures !SerializableIn(h, order) {
      if SerializableIn(h, order) {
        assert |multiset(order)| == |multiset([one, two])| == 2;
        assert order == [order[0], order[1]];
        assert multiset{order[0], order[1]} == multiset{one, two};
        assert order[0] in multiset{one, two} && order[1] in multiset{one, two};
        NeitherOrderExplains(first, second);
        NeitherOrderExplains(second, first);
      }
    }
  }

  /** The store is serializable, as the transactional route asks for, exactly when the pool hands
      out at most one connection. */
  lemma SerializableIffOneConnection(connections: nat)
    ensures AlwaysSerializable(connections) <==> connections <= 1
  {
    if connections <= 1 {
      forall actions | |Run(NEW_DATABASE, actions).current| <= connections
        ensures Serializable(ObserveAll(actions))
      {
        HistoriesConsistent(actions, true);
        assert SerializableIn(ObserveAll(actions), ObserveAll(actions).committed);
      }
    } else {
      var first, second := Record("1", "", 0, 0, ""), Record("2", "", 0, 0, "");
      WriteSkewCommits(first, second);
      WriteSkewNotSerializable(first, second);
    }
  }
}
