/** Deadlock freedom: every operation takes its locks in one fixed order.

    A thread is the sequence of lock operations it still has to perform. The pool's only connection
    is a lock as well: it is held from the start of a transaction, or of a single statement, to its
    end. Reader locks are taken to be exclusive, which only makes waiting more frequent.
  */
module LockOrder {
  import opened Records

  datatype Lock = MigrationMu | PoolSlot | ConnectionMu | DatabaseMu | OrdersMu | InventoryMu | PaymentsMu

  function Rank(l: Lock): nat {
    match l
    case MigrationMu => 0
    case PoolSlot => 1
    case ConnectionMu => 2
    case DatabaseMu => 3
    case _ => 4
  }

  /** `Use` stands for work on the data that a lock guards, or over the pool's connection. */
  datatype Instruction = Acquire(lock: Lock) | Use(lock: Lock) | Release(lock: Lock)

  type Trace = seq<Instruction>

  datatype Thread = Thread(held: set<Lock>, rest: Trace)

  /** A lock may be taken when every lock already held comes before it in the order. */
  predicate Follows(held: set<Lock>, l: Lock) {
    forall h :: h in held ==> Rank(h) < Rank(l)
  }

  /** The locks held after a trace, if it keeps the order, and uses and releases only what it
      holds. */
  function Effect(held: set<Lock>, trace: Trace): Option<set<Lock>>
    decreases |trace|
  {
    if trace == [] then Some(held)
    else
      match trace[0]
      case Acquire(l) => if Follows(held, l) then Effect(held + {l}, trace[1..]) else None
      case Use(l) => if l in held then Effect(held, trace[1..]) else None
      case Release(l) => if l in held then Effect(held - {l}, trace[1..]) else None
  }

  // ---------- The operations ----------

  /** A trace around which one lock is held, for work on what it guards. */
  function Holding(l: Lock, inner: Trace): Trace {
    [Acquire(l)] + ([Use(l)] + inner + [Release(l)])
  }

  /** Insert, find, create schema or commit on a connection: each branch either answers from the
      connection alone or also takes the database's lock. */
  function Statement(touchesDatabase: bool): Trace {
    Holding(ConnectionMu, if touchesDatabase then Holding(DatabaseMu, []) else [])
  }

  /** How far an operation gets that needs a connection: it may be cancelled before it has the pool
      slot, or refused before it takes a lock. */
  datatype Reach = Nowhere | SlotOnly | Locking(touchesDatabase: bool)

  /** The locks of a statement on a connection that is already held. */
  function OnConnection(reach: Reach): Trace {
    if reach.Locking? then Statement(reach.touchesDatabase) else []
  }

  /** The locks of a statement through the pool. */
  function Pooled(reach: Reach): Trace {
    if reach.Nowhere? then [] else Holding(PoolSlot, OnConnection(reach))
  }

  /** Which branches a placement takes: whether it is admitted; whether reservation and
      authorization get as far as their lock, and succeed; and whether the save succeeds. */
  datatype Branches = Branches(
    admitted: bool,
    reserveLocks: bool, reserved: bool,
    authorizeLocks: bool, authorized: bool,
    saved: bool
  )

  function If(condition: bool, trace: Trace): Trace {
    if condition then trace else []
  }

  /** The placement saves with the given trace, through the executor it was given. */
  function Placing(b: Branches, save: Trace): Trace {
    if !b.admitted then []
    else
      Holding(OrdersMu, []) + If(b.reserveLocks, Holding(InventoryMu, [])) +
      if !b.reserved then []
      else
        If(b.authorizeLocks, Holding(PaymentsMu, [])) +
        if !b.authorized then Holding(InventoryMu, [])
        else save + If(!b.saved, Holding(InventoryMu, []))
  }

  /** A transaction of one client: what runs between its begin and its end holds the pool slot. */
  function Transaction(work: Trace, touchesDatabase: bool): Trace {
    Holding(PoolSlot, Statement(false) + work + Statement(touchesDatabase))
  }

  /** What becomes of one migration entry: its transaction is not begun, its statement is refused and
      rolled back, the commit of an accepted statement is refused, which for a cancelled context
      happens without the database's lock, or it is committed and registered. */
  datatype Attempt = Unbegun(slot: bool) | Rejected | Uncommitted(touchesDatabase: bool) | Registered

  function Attempting(attempt: Attempt): Trace {
    match attempt
    case Unbegun(slot) => If(slot, Holding(PoolSlot, []))
    case Rejected => Transaction([], false)
    case Uncommitted(touches) => Transaction(Statement(false), touches)
    case Registered => Transaction(Statement(false), true) + Holding(DatabaseMu, [])
  }

  /** Each entry in turn; the first one that is not registered ends the migration. */
  function Applying(attempts: seq<Attempt>): Trace {
    if attempts == [] then []
    else Attempting(attempts[0]) + if attempts[0].Registered? then Applying(attempts[1..]) else []
  }

  datatype Call =
    | Query(reach: Reach)                                   // one statement through the pool
    | Place(branches: Branches, save: Reach)                // placement through the pool
    | Route(branches: Branches, save: Reach, end: bool)     // placement within a transaction
    | Unbegin(slot: bool)                                   // the route's transaction is not begun
    | Migrate(attempts: seq<Attempt>)
    | Audit                                                 // audit, verification, availability
    | Approvals
    | CountMigrations

  function Locks(call: Call): Trace {
    match call
    case Query(reach) => Pooled(reach)
    case Place(b, save) => Placing(b, Pooled(save))
    case Route(b, save, end) => Transaction(Placing(b, OnConnection(save)), end)
    case Unbegin(slot) => If(slot, Holding(PoolSlot, []))
    case Migrate(attempts) => Holding(MigrationMu, Holding(DatabaseMu, []) + Applying(attempts))
    case Audit => Holding(InventoryMu, [])
    case Approvals => Holding(PaymentsMu, [])
    case CountMigrations => Holding(DatabaseMu, [])
  }

  function Program(calls: seq<Call>): Trace {
    if calls == [] then [] else Locks(calls[0]) + Program(calls[1..])
  }

  // ---------- Every operation keeps the order ----------

  lemma {:induction false} EffectConcat(held: set<Lock>, a: Trace, b: Trace)
    ensures Effect(held, a + b)
         == if Effect(held, a).None? then None else Effect(Effect(held, a).value, b)
    decreases |a|
  {
    if a == [] {
      assert a + b == b;
    } else {
      assert (a + b)[1..] == a[1..] + b;
      match a[0]
      case Acquire(l) => EffectConcat(held + {l}, a[1..], b);
      case Use(l) => EffectConcat(held, a[1..], b);
      case Release(l) => EffectConcat(held - {l}, a[1..], b);
    }
  }

  /** The trace may run while these locks are held, and gives back exactly what it takes. */
  predicate Neutral(held: set<Lock>, trace: Trace) {
    Effect(held, trace) == Some(held)
  }

  lemma NeutralConcat(held: set<Lock>, a: Trace, b: Trace)
    requires Neutral(held, a) && Neutral(held, b)
    ensures Neutral(held, a + b)
  {
    EffectConcat(held, a, b);
  }

  lemma NeutralHolding(held: set<Lock>, l: Lock, inner: Trace)
    requires Follows(held, l) && Neutral(held + {l}, inner)
    ensures Neutral(held, Holding(l, inner))
  {
    EffectConcat(held + {l}, inner, [Release(l)]);
    assert Holding(l, inner)[1..] == [Use(l)] + inner + [Release(l)];
    assert Holding(l, inner)[1..][1..] == inner + [Release(l)];
    assert [Release(l)][1..] == [];
    assert held + {l} - {l} == held;
  }

  /** A single lock, taken and released at once. */
  lemma NeutralLeaf(held: set<Lock>, l: Lock)
    requires Follows(held, l)
    ensures Neutral(held, Holding(l, []))
  {
    NeutralHolding(held, l, []);
  }

  lemma NeutralStatement(held: set<Lock>, touches: bool)
    requires held <= {MigrationMu, PoolSlot}
    ensures Neutral(held, Statement(touches))
  {
    hide Effect;
    EffectNothing(held + {ConnectionMu});
    if touches {
      NeutralLeaf(held + {ConnectionMu}, DatabaseMu);
    }
    NeutralHolding(held, ConnectionMu, if touches then Holding(DatabaseMu, []) else []);
  }

  lemma EffectNothing(held: set<Lock>)
    ensures Neutral(held, [])
  {
  }

  lemma NeutralIf(held: set<Lock>, condition: bool, trace: Trace)
    requires Neutral(held, trace)
    ensures Neutral(held, If(condition, trace))
  {
  }

  /** A placement runs with nothing but the pool slot held, and so must its save. */
  lemma NeutralPlacing(held: set<Lock>, b: Branches, save: Trace)
    requires held <= {PoolSlot} && Neutral(held, save)
    ensures Neutral(held, Placing(b, save))
  {
    hide Neutral;
    EffectNothing(held);
    NeutralLeaf(held, OrdersMu);
    NeutralLeaf(held, InventoryMu);
    NeutralLeaf(held, PaymentsMu);
    var inventory := Holding(InventoryMu, []);
    NeutralIf(held, !b.saved, inventory);
    NeutralIf(held, b.reserveLocks, inventory);
    NeutralIf(held, b.authorizeLocks, Holding(PaymentsMu, []));
    NeutralConcat(held, save, If(!b.saved, inventory));
    var paid := if !b.authorized then inventory else save + If(!b.saved, inventory);
    NeutralConcat(held, If(b.authorizeLocks, Holding(PaymentsMu, [])), paid);
    var reserved := if !b.reserved then [] else If(b.authorizeLocks, Holding(PaymentsMu, [])) + paid;
    NeutralConcat(held, Holding(OrdersMu, []), If(b.reserveLocks, inventory));
    NeutralConcat(held, Holding(OrdersMu, []) + If(b.reserveLocks, inventory), reserved);
  }

  lemma NeutralTransaction(held: set<Lock>, work: Trace, touches: bool)
    requires held <= {MigrationMu} && Neutral(held + {PoolSlot}, work)
    ensures Neutral(held, Transaction(work, touches))
  {
    hide Neutral;
    var inside := held + {PoolSlot};
    NeutralStatement(inside, false);
    NeutralStatement(inside, touches);
    NeutralConcat(inside, Statement(false), work);
    NeutralConcat(inside, Statement(false) + work, Statement(touches));
    NeutralHolding(held, PoolSlot, Statement(false) + work + Statement(touches));
  }

  lemma NeutralOnConnection(held: set<Lock>, reach: Reach)
    requires held <= {MigrationMu, PoolSlot}
    ensures Neutral(held, OnConnection(reach))
  {
    hide Neutral, Statement;
    EffectNothing(held);
    if reach.Locking? {
      NeutralStatement(held, reach.touchesDatabase);
    }
  }

  lemma NeutralPooled(reach: Reach)
    ensures Neutral({}, Pooled(reach))
  {
    hide Neutral, OnConnection;
    EffectNothing({});
    assert {} + {PoolSlot} == {PoolSlot};
    NeutralOnConnection({PoolSlot}, reach);
    NeutralHolding({}, PoolSlot, OnConnection(reach));
  }

  lemma NeutralAttempting(attempt: Attempt)
    ensures Neutral({MigrationMu}, Attempting(attempt))
  {
    hide Neutral, Statement, Transaction;
    var held := {MigrationMu};
    EffectNothing(held);
    EffectNothing(held + {PoolSlot});
    NeutralLeaf(held, PoolSlot);
    NeutralLeaf(held, DatabaseMu);
    NeutralStatement(held + {PoolSlot}, false);
    match attempt
    case Unbegun(slot) => NeutralIf(held, slot, Holding(PoolSlot, []));
    case Rejected => NeutralTransaction(held, [], false);
    case Uncommitted(touches) => NeutralTransaction(held, Statement(false), touches);
    case Registered =>
      NeutralTransaction(held, Statement(false), true);
      NeutralConcat(held, Transaction(Statement(false), true), Holding(DatabaseMu, []));
  }

  lemma {:induction false} NeutralApplying(attempts: seq<Attempt>)
    ensures Neutral({MigrationMu}, Applying(attempts))
  {
    var held := {MigrationMu};
    hide Neutral, Attempting;
    EffectNothing(held);
    if attempts != [] {
      NeutralApplying(attempts[1..]);
      NeutralAttempting(attempts[0]);
      NeutralConcat(held, Attempting(attempts[0]), if attempts[0].Registered? then Applying(attempts[1..]) else []);
    }
  }

  lemma NeutralCall(call: Call)
    ensures Neutral({}, Locks(call))
  {
    hide Neutral;
    var none: set<Lock> := {};
    match call
    case Query(reach) => NeutralPooled(reach);
    case Place(b, save) =>
      NeutralPooled(save);
      NeutralPlacing(none, b, Pooled(save));
    case Route(b, save, end) =>
      NeutralOnConnection(none + {PoolSlot}, save);
      NeutralPlacing(none + {PoolSlot}, b, OnConnection(save));
      NeutralTransaction(none, Placing(b, OnConnection(save)), end);
    case Unbegin(slot) =>
      NeutralLeaf(none, PoolSlot);
      NeutralIf(none, slot, Holding(PoolSlot, []));
    case Migrate(attempts) =>
      assert none + {MigrationMu} == {MigrationMu};
      NeutralApplying(attempts);
      NeutralLeaf({MigrationMu}, DatabaseMu);
      NeutralConcat({MigrationMu}, Holding(DatabaseMu, []), Applying(attempts));
      NeutralHolding(none, MigrationMu, Holding(DatabaseMu, []) + Applying(attempts));
    case Audit => NeutralLeaf(none, InventoryMu);
    case Approvals => NeutralLeaf(none, PaymentsMu);
    case CountMigrations => NeutralLeaf(none, DatabaseMu);
  }

  lemma {:induction false} NeutralProgram(calls: seq<Call>)
    ensures Neutral({}, Program(calls))
  {
    if calls == [] {
      EffectNothing({});
    } else {
      NeutralCall(calls[0]);
      NeutralProgram(calls[1..]);
      hide Neutral;
      NeutralConcat({}, Locks(calls[0]), Program(calls[1..]));
    }
  }

  // ---------- Threads ----------

  predicate Free(threads: seq<Thread>, l: Lock) {
    forall i :: 0 <= i < |threads| ==> l !in threads[i].held
  }

  predicate CanStep(threads: seq<Thread>, i: nat) {
    && i < |threads| && threads[i].rest != []
    && (threads[i].rest[0].Acquire? ==> Free(threads, threads[i].rest[0].lock))
  }

  /** The locks held after one instruction. */
  function Then(held: set<Lock>, instruction: Instruction): set<Lock> {
    match instruction
    case Acquire(l) => held + {l}
    case Use(l) => held
    case Release(l) => held - {l}
  }

  function StepOf(threads: seq<Thread>, i: nat): seq<Thread>
    requires CanStep(threads, i)
  {
    var Thread(held, rest) := threads[i];
    threads[i := Thread(Then(held, rest[0]), rest[1..])]
  }

  predicate Done(threads: seq<Thread>) {
    forall i :: 0 <= i < |threads| ==> threads[i].rest == []
  }

  /** Each thread keeps the order to its end, and no lock is held twice. */
  ghost predicate Disciplined(threads: seq<Thread>) {
    && (forall i :: 0 <= i < |threads| ==> Effect(threads[i].held, threads[i].rest) == Some({}))
    && (forall i, j :: 0 <= i < j < |threads| ==> threads[i].held !! threads[j].held)
  }

  function Launch(programs: seq<seq<Call>>): seq<Thread> {
    seq(|programs|, i requires 0 <= i < |programs| => Thread({}, Program(programs[i])))
  }

  function Remaining(threads: seq<Thread>): nat {
    if threads == [] then 0 else |threads[0].rest| + Remaining(threads[1..])
  }

  lemma StepKeepsDiscipline(threads: seq<Thread>, i: nat)
    requires Disciplined(threads) && CanStep(threads, i)
    ensures Disciplined(StepOf(threads, i))
  {
    var after := StepOf(threads, i);
    assert Effect(threads[i].held, threads[i].rest) == Some({});
    forall j, k | 0 <= j < k < |after| ensures after[j].held !! after[k].held {
      assert threads[j].held !! threads[k].held;
    }
  }

  lemma {:induction false} StepShrinks(threads: seq<Thread>, i: nat, t: Thread)
    requires i < |threads| && |t.rest| < |threads[i].rest|
    ensures Remaining(threads[i := t]) < Remaining(threads)
    decreases |threads|
  {
    if i == 0 {
      assert threads[0 := t][1..] == threads[1..];
    } else {
      StepShrinks(threads[1..], i - 1, t);
      assert threads[i := t][1..] == threads[1..][i - 1 := t];
    }
  }

  /** Following the holder of the lock a thread waits for leads to higher and higher locks, so it
      ends at a thread that can step. */
  lemma {:induction false} SomeoneCanStep(threads: seq<Thread>, i: nat) returns (k: nat)
    requires Disciplined(threads) && i < |threads| && threads[i].rest != []
    ensures CanStep(threads, k)
    decreases if threads[i].rest[0].Acquire? then 5 - Rank(threads[i].rest[0].lock) else 0
  {
    if CanStep(threads, i) {
      k := i;
    } else {
      var l := threads[i].rest[0].lock;
      var j :| 0 <= j < |threads| && l in threads[j].held;
      assert Effect(threads[i].held, threads[i].rest) == Some({});
      assert Effect(threads[j].held, threads[j].rest) == Some({});
      assert threads[j].rest != [];
      k := SomeoneCanStep(threads, j);
    }
  }

  /** The threads after a schedule; a choice of a thread that cannot step is skipped. */
  function Scheduled(threads: seq<Thread>, schedule: seq<nat>): seq<Thread> {
    if schedule == [] then threads
    else
      var before := Scheduled(threads, schedule[..|schedule| - 1]);
      var i := schedule[|schedule| - 1];
      if CanStep(before, i) then StepOf(before, i) else before
  }

  lemma LaunchDisciplined(programs: seq<seq<Call>>)
    ensures Disciplined(Launch(programs))
  {
    forall i | 0 <= i < |programs| ensures Effect({}, Program(programs[i])) == Some({}) {
      NeutralProgram(programs[i]);
    }
  }

  lemma {:induction false} ScheduleKeepsDiscipline(threads: seq<Thread>, schedule: seq<nat>)
    requires Disciplined(threads)
    ensures Disciplined(Scheduled(threads, schedule))
  {
    if schedule != [] {
      ScheduleKeepsDiscipline(threads, schedule[..|schedule| - 1]);
      var before := Scheduled(threads, schedule[..|schedule| - 1]);
      var i := schedule[|schedule| - 1];
      if CanStep(before, i) {
        StepKeepsDiscipline(before, i);
      }
    }
  }

  /** Any number of threads with any programs, under any schedule: while one is unfinished, some
      thread can take a step, and every step that is taken brings the end nearer. */
  lemma DeadlockFree(programs: seq<seq<Call>>, schedule: seq<nat>)
    ensures
      var threads := Scheduled(Launch(programs), schedule);
      && (Done(threads) || exists k: nat :: CanStep(threads, k))
      && forall k: nat :: CanStep(threads, k) ==> Remaining(StepOf(threads, k)) < Remaining(threads)
  {
    LaunchDisciplined(programs);
    ScheduleKeepsDiscipline(Launch(programs), schedule);
    var threads := Scheduled(Launch(programs), schedule);
    hide Scheduled, Launch;
    if i :| 0 <= i < |threads| && threads[i].rest != [] {
      var k := SomeoneCanStep(threads, i);
    }
    forall k: nat | CanStep(threads, k) ensures Remaining(StepOf(threads, k)) < Remaining(threads) {
      StepShrinks(threads, k, StepOf(threads, k)[k]);
    }
  }

  /** Every thread starts with nothing held and all of its calls before it, one after the other. */
  lemma LaunchStarts(programs: seq<seq<Call>>, i: nat)
    requires i < |programs|
    ensures |Launch(programs)| == |programs| && Launch(programs)[i] == Thread({}, Program(programs[i]))
  {
  }

  lemma {:induction false} ProgramAppends(calls: seq<Call>, last: Call)
    ensures Program(calls + [last]) == Program(calls) + Locks(last)
  {
    if calls == [] {
      assert [] + [last] == [last] && [last][1..] == [];
      assert Locks(last) + [] == Locks(last) && [] + Locks(last) == Locks(last);
    } else {
      assert (calls + [last])[1..] == calls[1..] + [last];
      ProgramAppends(calls[1..], last);
      hide Locks;
      assert Locks(calls[0]) + (Program(calls[1..]) + Locks(last))
          == Locks(calls[0]) + Program(calls[1..]) + Locks(last);
    }
  }

  // ---------- What the locks are for ----------

  /** No two threads are ever about to work on the same data. */
  lemma RaceFree(programs: seq<seq<Call>>, schedule: seq<nat>, i: nat, j: nat)
    ensures
      var threads := Scheduled(Launch(programs), schedule);
      i < j < |threads| && threads[i].rest != [] && threads[j].rest != []
      && threads[i].rest[0].Use? && threads[j].rest[0].Use? ==>
        threads[i].rest[0].lock != threads[j].rest[0].lock
  {
    LaunchDisciplined(programs);
    ScheduleKeepsDiscipline(Launch(programs), schedule);
    var threads := Scheduled(Launch(programs), schedule);
    hide Scheduled, Launch;
    if i < j < |threads| {
      assert Effect(threads[i].held, threads[i].rest).Some? && Effect(threads[j].held, threads[j].rest).Some?;
      assert threads[i].held !! threads[j].held;
    }
  }

  lemma HoldingUses(l: Lock, inner: Trace, x: Lock)
    ensures Use(x) in Holding(l, inner) <==> x == l || Use(x) in inner
  {
    var trace := Holding(l, inner);
    assert Use(l) in trace by { assert trace[1] == Use(l); }
    assert Use(x) in inner ==> Use(x) in [Use(l)] + inner + [Release(l)];
  }

  lemma StatementUses(touches: bool, x: Lock)
    ensures Use(x) in Statement(touches) <==> x == ConnectionMu || (touches && x == DatabaseMu)
  {
    HoldingUses(DatabaseMu, [], x);
    HoldingUses(ConnectionMu, if touches then Holding(DatabaseMu, []) else [], x);
  }

  /** What a statement works on once it has its connection. */
  predicate Works(reach: Reach, x: Lock) {
    reach.Locking? && (x == ConnectionMu || (reach.touchesDatabase && x == DatabaseMu))
  }

  lemma ReachUses(reach: Reach, x: Lock)
    ensures Use(x) in OnConnection(reach) <==> Works(reach, x)
    ensures Use(x) in Pooled(reach) <==> Works(reach, x) || (!reach.Nowhere? && x == PoolSlot)
  {
    if reach.Locking? {
      StatementUses(reach.touchesDatabase, x);
    }
    HoldingUses(PoolSlot, OnConnection(reach), x);
    hide Holding, Statement;
  }

  lemma PlacingUses(b: Branches, save: Trace, x: Lock)
    ensures Use(x) in Placing(b, save) <==>
      && b.admitted
      && match x
         case OrdersMu => true
         case InventoryMu =>
           || b.reserveLocks || (b.reserved && (!b.authorized || !b.saved))
           || (b.reserved && b.authorized && Use(x) in save)
         case PaymentsMu => b.reserved && (b.authorizeLocks || (b.authorized && Use(x) in save))
         case _ => b.reserved && b.authorized && Use(x) in save
  {
    HoldingUses(OrdersMu, [], x);
    HoldingUses(InventoryMu, [], x);
    HoldingUses(PaymentsMu, [], x);
    hide Holding;
  }

  lemma TransactionUses(work: Trace, touches: bool, x: Lock)
    ensures Use(x) in Transaction(work, touches)
       <==> x == PoolSlot || x == ConnectionMu || (touches && x == DatabaseMu) || Use(x) in work
  {
    StatementUses(false, x);
    StatementUses(touches, x);
    HoldingUses(PoolSlot, Statement(false) + work + Statement(touches), x);
    hide Holding, Statement;
  }

  lemma AttemptUses(attempt: Attempt, x: Lock)
    ensures Use(x) in Attempting(attempt) <==>
      match attempt
      case Unbegun(slot) => slot && x == PoolSlot
      case Rejected => x == PoolSlot || x == ConnectionMu
      case Uncommitted(touches) => x == PoolSlot || x == ConnectionMu || (touches && x == DatabaseMu)
      case Registered => x == PoolSlot || x == ConnectionMu || x == DatabaseMu
  {
    HoldingUses(PoolSlot, [], x);
    HoldingUses(DatabaseMu, [], x);
    StatementUses(false, x);
    hide Holding, Statement, Transaction;
    match attempt
    case Unbegun(slot) =>
    case Rejected => TransactionUses([], false, x);
    case Uncommitted(touches) => TransactionUses(Statement(false), touches, x);
    case Registered => TransactionUses(Statement(false), true, x);
  }

  /** The entries that are attempted: up to the first that is not registered. */
  predicate Attempted(attempts: seq<Attempt>, i: nat) {
    i < |attempts| && forall j :: 0 <= j < i ==> attempts[j].Registered?
  }

  lemma {:induction false} ApplyingUses(attempts: seq<Attempt>, x: Lock)
    ensures Use(x) in Applying(attempts)
       <==> exists i: nat :: Attempted(attempts, i) && Use(x) in Attempting(attempts[i])
  {
    hide Attempting;
    if attempts != [] {
      var rest := attempts[1..];
      ApplyingUses(rest, x);
      if i: nat :| Attempted(rest, i) && Use(x) in Attempting(rest[i]) && attempts[0].Registered? {
        assert Attempted(attempts, i + 1) && attempts[i + 1] == rest[i];
      }
      if i: nat :| Attempted(attempts, i) && Use(x) in Attempting(attempts[i]) {
        if i > 0 {
          assert Attempted(rest, i - 1) && rest[i - 1] == attempts[i];
        }
      }
      if Use(x) in Attempting(attempts[0]) {
        assert Attempted(attempts, 0);
      }
    }
  }

  /** Exactly what each call works on, and so which locks it takes: the counter of the orders, the
      stock, the ledger, the pool's connection, the connection's transaction, the database. */
  lemma CallUses(call: Call, x: Lock)
    ensures Use(x) in Locks(call) <==>
      match call
      case Query(reach) => Works(reach, x) || (!reach.Nowhere? && x == PoolSlot)
      case Place(b, save) =>
        b.admitted
        && (x == OrdersMu
            || (x == InventoryMu && (b.reserveLocks || (b.reserved && (!b.authorized || !b.saved))))
            || (x == PaymentsMu && b.reserved && b.authorizeLocks)
            || (b.reserved && b.authorized && (Works(save, x) || (!save.Nowhere? && x == PoolSlot))))
      case Route(b, save, end) =>
        x == PoolSlot || x == ConnectionMu || (end && x == DatabaseMu)
        || (b.admitted
            && (x == OrdersMu
                || (x == InventoryMu && (b.reserveLocks || (b.reserved && (!b.authorized || !b.saved))))
                || (x == PaymentsMu && b.reserved && b.authorizeLocks)
                || (b.reserved && b.authorized && Works(save, x))))
      case Unbegin(slot) => slot && x == PoolSlot
      case Migrate(attempts) =>
        x == MigrationMu || x == DatabaseMu
        || exists i: nat :: Attempted(attempts, i) && Use(x) in Attempting(attempts[i])
      case Audit => x == InventoryMu
      case Approvals => x == PaymentsMu
      case CountMigrations => x == DatabaseMu
  {
    match call
    case Query(reach) => ReachUses(reach, x); hide Pooled;
    case Place(b, save) =>
      ReachUses(save, x);
      PlacingUses(b, Pooled(save), x);
      hide Pooled, Placing;
    case Route(b, save, end) =>
      ReachUses(save, x);
      PlacingUses(b, OnConnection(save), x);
      TransactionUses(Placing(b, OnConnection(save)), end, x);
      hide OnConnection, Placing, Transaction;
    case Unbegin(slot) => HoldingUses(PoolSlot, [], x);
    case Migrate(attempts) =>
      ApplyingUses(attempts, x);
      HoldingUses(DatabaseMu, [], x);
      HoldingUses(MigrationMu, Holding(DatabaseMu, []) + Applying(attempts), x);
      hide Holding, Applying;
    case Audit => HoldingUses(InventoryMu, [], x);
    case Approvals => HoldingUses(PaymentsMu, [], x);
    case CountMigrations => HoldingUses(DatabaseMu, [], x);
  }

  // ---------- Why a placement uses the executor it was given ----------

  /** Taking a lock again breaks the order. */
  lemma AgainBreaks(held: set<Lock>, l: Lock, inner: Trace, rest: Trace)
    requires l in held
    ensures Effect(held, Holding(l, inner) + rest).None?
  {
    assert (Holding(l, inner) + rest)[0] == Acquire(l);
  }

  /** Everything before the save of a placement that gets that far. */
  function BeforeSave(b: Branches): Trace {
    Holding(OrdersMu, []) + If(b.reserveLocks, Holding(InventoryMu, []))
    + If(b.authorizeLocks, Holding(PaymentsMu, []))
  }

  lemma NeutralBeforeSave(held: set<Lock>, b: Branches)
    requires held <= {PoolSlot}
    ensures Neutral(held, BeforeSave(b))
  {
    hide Neutral, Holding;
    NeutralLeaf(held, OrdersMu);
    NeutralLeaf(held, InventoryMu);
    NeutralLeaf(held, PaymentsMu);
    EffectNothing(held);
    var inventory := If(b.reserveLocks, Holding(InventoryMu, []));
    NeutralConcat(held, Holding(OrdersMu, []), inventory);
    NeutralConcat(held, Holding(OrdersMu, []) + inventory, If(b.authorizeLocks, Holding(PaymentsMu, [])));
  }

  lemma PlacingSplits(b: Branches, save: Trace)
    requires b.admitted && b.reserved && b.authorized
    ensures Placing(b, save) == BeforeSave(b) + (save + If(!b.saved, Holding(InventoryMu, [])))
  {
    hide Holding, If;
  }

  /** Within a transaction, a placement that saved through the pool instead would break the order
      exactly when it gets as far as saving. */
  lemma PoolSaveBreaksTheOrder(b: Branches, reach: Reach)
    ensures Neutral({PoolSlot}, Placing(b, Pooled(reach)))
       <==> !(b.admitted && b.reserved && b.authorized && !reach.Nowhere?)
  {
    hide Effect, Holding;
    var held := {PoolSlot};
    var save := Pooled(reach);
    if b.admitted && b.reserved && b.authorized && !reach.Nowhere? {
      var release := If(!b.saved, Holding(InventoryMu, []));
      NeutralBeforeSave(held, b);
      AgainBreaks(held, PoolSlot, OnConnection(reach), release);
      EffectConcat(held, BeforeSave(b), save + release);
      PlacingSplits(b, save);
    } else {
      EffectNothing(held);
      NeutralPlacing(held, b, []);
      assert Placing(b, save) == Placing(b, []);
    }
  }

  /** A thread that waits for itself: no schedule ever moves it again. */
  lemma {:induction false} SelfWaitIsForever(threads: seq<Thread>, i: nat, schedule: seq<nat>)
    requires i < |threads| && threads[i].rest != []
    requires threads[i].rest[0].Acquire? && threads[i].rest[0].lock in threads[i].held
    ensures |Scheduled(threads, schedule)| == |threads|
    ensures Scheduled(threads, schedule)[i] == threads[i]
  {
    if schedule != [] {
      SelfWaitIsForever(threads, i, schedule[..|schedule| - 1]);
    }
  }

  /** While it keeps the order, a thread on its own runs through. */
  lemma {:induction false} RunsThrough(held: set<Lock>, done: Trace, rest: Trace) returns (schedule: seq<nat>)
    requires Effect(held, done).Some?
    ensures Scheduled([Thread(held, done + rest)], schedule) == [Thread(Effect(held, done).value, rest)]
    decreases |done|
  {
    if done == [] {
      assert [] + rest == rest;
      schedule := [];
    } else {
      var start := [Thread(held, done + rest)];
      var after := Then(held, done[0]);
      assert (done + rest)[1..] == done[1..] + rest;
      assert StepOf(start, 0) == [Thread(after, done[1..] + rest)];
      var later := RunsThrough(after, done[1..], rest);
      schedule := [0] + later;
      ScheduledFirst(start, 0, later);
    }
  }

  lemma {:induction false} ScheduledFirst(threads: seq<Thread>, i: nat, later: seq<nat>)
    requires CanStep(threads, i)
    ensures Scheduled(threads, [i] + later) == Scheduled(StepOf(threads, i), later)
  {
    if later == [] {
      assert [i] + later == [i] && [i][..0] == [];
    } else {
      var front := later[..|later| - 1];
      assert ([i] + later)[..|[i] + later| - 1] == [i] + front;
      ScheduledFirst(threads, i, front);
    }
  }

  /** The route, if its placement saved through the pool. */
  function NestedRoute(b: Branches, reach: Reach, end: bool): Trace {
    Transaction(Placing(b, Pooled(reach)), end)
  }

  /** Some schedule brings the client to a point from which nothing can ever move. */
  ghost predicate GetsStuck(program: Trace) {
    exists schedule :: Stuck(Scheduled([Thread({}, program)], schedule))
  }

  ghost predicate Stuck(threads: seq<Thread>) {
    !Done(threads) && forall later, k: nat :: !CanStep(Scheduled(threads, later), k)
  }

  lemma Regroup(a: Trace, begin: Trace, work: Trace, acquire: Trace, saving: Trace, release: Trace, end: Trace,
                z: Trace)
    ensures a + (begin + (work + ((acquire + saving) + release)) + end) + z
         == (a + begin + work) + (acquire + (saving + release + end + z))
  {
  }

  /** What a nested route has done and what it still has to do when it comes to its save. */
  lemma NestedRouteSplits(b: Branches, reach: Reach, end: bool) returns (before: Trace, rest: Trace)
    requires b.admitted && b.reserved && b.authorized && !reach.Nowhere?
    ensures NestedRoute(b, reach, end) == before + ([Acquire(PoolSlot)] + rest)
    ensures Effect({}, before) == Some({PoolSlot})
  {
    hide Effect, OnConnection, Statement, If, Placing, BeforeSave;
    var opening := [Acquire(PoolSlot), Use(PoolSlot)] + Statement(false);
    var saving := [Use(PoolSlot)] + OnConnection(reach) + [Release(PoolSlot)];
    var release := If(!b.saved, Holding(InventoryMu, []));
    before := opening + BeforeSave(b);
    rest := saving + release + Statement(end) + [Release(PoolSlot)];
    OpeningEffect();
    BeforeSaveEffect(b);
    EffectConcat({}, opening, BeforeSave(b));
    PlacingSplits(b, Pooled(reach));
    assert Pooled(reach) == [Acquire(PoolSlot)] + saving;
    assert Transaction(Placing(b, Pooled(reach)), end)
        == [Acquire(PoolSlot), Use(PoolSlot)] + (Statement(false) + Placing(b, Pooled(reach)) + Statement(end))
           + [Release(PoolSlot)];
    Regroup([Acquire(PoolSlot), Use(PoolSlot)], Statement(false), BeforeSave(b), [Acquire(PoolSlot)], saving, release,
            Statement(end), [Release(PoolSlot)]);
  }

  lemma BeforeSaveEffect(b: Branches)
    ensures Effect({PoolSlot}, BeforeSave(b)) == Some({PoolSlot})
  {
    NeutralBeforeSave({PoolSlot}, b);
  }

  lemma OpeningEffect()
    ensures Effect({}, [Acquire(PoolSlot), Use(PoolSlot)] + Statement(false)) == Some({PoolSlot})
  {
    NeutralStatement({PoolSlot}, false);
    var opening := [Acquire(PoolSlot), Use(PoolSlot)] + Statement(false);
    assert opening[1..][1..] == Statement(false);
    assert {} + {PoolSlot} == {PoolSlot};
  }

  lemma SelfWaitIsStuck(threads: seq<Thread>)
    requires |threads| == 1 && threads[0].rest != []
    requires threads[0].rest[0].Acquire? && threads[0].rest[0].lock in threads[0].held
    ensures Stuck(threads)
  {
    forall later, k: nat ensures !CanStep(Scheduled(threads, later), k) {
      SelfWaitIsForever(threads, 0, later);
    }
  }

  /** A route whose placement saved through the pool instead of its transaction would bring its
      client to a standstill exactly when it gets as far as saving. */
  lemma NestedRouteGetsStuckIff(b: Branches, reach: Reach, end: bool)
    ensures GetsStuck(NestedRoute(b, reach, end))
       <==> b.admitted && b.reserved && b.authorized && !reach.Nowhere?
  {
    hide Effect, Neutral, NestedRoute, Placing, Pooled, CanStep, Stuck;
    var program := NestedRoute(b, reach, end);
    if b.admitted && b.reserved && b.authorized && !reach.Nowhere? {
      var before, rest := NestedRouteSplits(b, reach, end);
      var schedule := RunsThrough({}, before, [Acquire(PoolSlot)] + rest);
      SelfWaitIsStuck([Thread({PoolSlot}, [Acquire(PoolSlot)] + rest)]);
      assert Stuck(Scheduled([Thread({}, program)], schedule));
    } else {
      NestedRouteRuns(b, reach, end);
      forall schedule ensures !Stuck(Scheduled([Thread({}, program)], schedule)) {
        OrderedNeverStuck(program, schedule);
      }
    }
  }

  lemma NestedRouteRuns(b: Branches, reach: Reach, end: bool)
    requires !(b.admitted && b.reserved && b.authorized && !reach.Nowhere?)
    ensures Neutral({}, NestedRoute(b, reach, end))
  {
    PoolSaveBreaksTheOrder(b, reach);
    assert {} + {PoolSlot} == {PoolSlot};
    hide Neutral, Placing, Pooled;
    NeutralTransaction({}, Placing(b, Pooled(reach)), end);
  }

  /** A program that keeps the order never gets stuck. */
  lemma OrderedNeverStuck(program: Trace, schedule: seq<nat>)
    requires Neutral({}, program)
    ensures !Stuck(Scheduled([Thread({}, program)], schedule))
  {
    var start := [Thread({}, program)];
    assert Disciplined(start);
    ScheduleKeepsDiscipline(start, schedule);
    var threads := Scheduled(start, schedule);
    if !Done(threads) {
      var i :| 0 <= i < |threads| && threads[i].rest != [];
      var k := SomeoneCanStep(threads, i);
      assert Scheduled(threads, []) == threads;
    }
  }
}
