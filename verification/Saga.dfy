/** Any number of order placements interleaved with each other and with any use of transactions.

    A placement is a sequence of steps, each of which is one critical section of one service; it
    saves through the pool or within a transaction its caller owns. Between two steps of one
    placement anything else may happen: steps of other placements, and connections being opened and
    transactions being begun, committed or rolled back by their owners at any time. Cancellation is
    a free choice at every step that looks at the context.
  */
module Saga {
  import opened Records
  import opened MemoryStore
  import opened OrderRepository
  import opened Orders
  import opened Sums
  import Text
  import Inventory
  import Payments

  datatype Executor = Pool | Within(t: nat)

  datatype Stage =
    | Requested   // not looked at yet
    | Rejected    // refused before it got a number
    | Numbered    // has an order ID
    | Reserved    // holds stock
    | Unpaid      // authorization refused, stock still to be given back
    | Authorized  // holds stock and an approval
    | Unsaved     // save refused, stock still to be given back
    | Failed      // refused, holds no stock
    | Placed      // returned to the caller as a completed order
    | Stranded    // the stock could not be given back

  /** `number` is zero until an ID is allocated; `approval` is the position in the ledger. */
  datatype Placement = Placement(
    quantity: int,
    executor: Executor,
    stage: Stage,
    number: nat,
    approval: Option<nat>
  )

  /** `committed` names the transactions whose commit succeeded. */
  datatype State = State(
    stock: Inventory.Stock,
    approved: seq<Payments.Authorization>,
    nextID: nat,
    store: Store,
    placements: seq<Placement>,
    committed: set<nat>
  )

  datatype Move =
    | Request(quantity: int, executor: Executor)
    | Admit(p: nat, cancelled: bool)
    | Reserve(p: nat, cancelled: bool)
    | Authorize(p: nat, cancelled: bool)
    | Save(p: nat, c: nat, cancellation: Cancellation)
    | Release(p: nat)
    | Storage(action: Action)

  function Key(g: Config): string {
    Text.TrimSpace(g.inventorySKU)
  }

  function Initial(g: Config): State {
    State(map[Key(g) := g.initialStock], [], 0, NEW_DATABASE, [], {})
  }

  function RecordOf(g: Config, x: Placement): Record {
    Record(Text.OrderID(x.number), g.sku, x.quantity, Total(g, x.quantity),
           if x.approval.Some? then Text.PaymentID(x.approval.value + 1) else "")
  }

  predicate At(s: State, p: nat, stage: Stage) {
    p < |s.placements| && s.placements[p].stage == stage
  }

  function With(s: State, p: nat, x: Placement): State
    requires p < |s.placements|
  {
    s.(placements := s.placements[p := x])
  }

  /** A pooled save runs on a connection without open transaction, and waits while c is not one. */
  predicate Waits(s: State, p: nat, c: nat)
    requires p < |s.placements|
  {
    s.placements[p].executor.Pool? && !(Connected(s.store, c) && s.store.current[c].None?)
  }

  /** The connection a save runs on; an executor whose transaction has ended has none. */
  function SaveConnection(s: State, p: nat, c: nat): Option<nat>
    requires p < |s.placements|
  {
    match s.placements[p].executor
    case Pool => Some(c)
    case Within(t) =>
      if Begun(s.store, t) && Active(s.store, t) then Some(s.store.transactions[t].connection) else None
  }

  /** What a save does to the store, and whether it succeeds. */
  function SaveThrough(s: Store, c: nat, cancellation: Cancellation, r: Record): (Store, bool)
    requires Connected(s, c)
  {
    var view := ViewOf(s, c);
    if Accepts(view, cancellation, r) then (WithView(s, c, InsertIn(view, r).0), true) else (s, false)
  }

  function Apply(g: Config, s: State, m: Move): State {
    match m
    case Request(quantity, executor) =>
      s.(placements := s.placements + [Placement(quantity, executor, Requested, 0, None)])
    case Admit(p, cancelled) =>
      if !At(s, p, Requested) then s
      else if s.placements[p].quantity <= 0 || cancelled then With(s, p, s.placements[p].(stage := Rejected))
      else With(s.(nextID := s.nextID + 1), p, s.placements[p].(stage := Numbered, number := s.nextID + 1))
    case Reserve(p, cancelled) =>
      if !At(s, p, Numbered) then s
      else
        var (stock, result) := Inventory.ReserveIn(s.stock, cancelled, g.sku, s.placements[p].quantity);
        With(s.(stock := stock), p, s.placements[p].(stage := if result.Ok? then Reserved else Failed))
    case Authorize(p, cancelled) =>
      if !At(s, p, Reserved) then s
      else
        var x := s.placements[p];
        var (approved, result) :=
          Payments.AuthorizeIn(s.approved, g.maximumCents, cancelled, Text.OrderID(x.number), Total(g, x.quantity));
        With(s.(approved := approved), p,
             if result.Ok? then x.(stage := Authorized, approval := Some(|s.approved|)) else x.(stage := Unpaid))
    case Save(p, c, cancellation) =>
      if !At(s, p, Authorized) || Waits(s, p, c) then s
      else
        var connection := SaveConnection(s, p, c);
        if connection.None? then With(s, p, s.placements[p].(stage := Unsaved))
        else
          var (store, saved) := SaveThrough(s.store, connection.value, cancellation, RecordOf(g, s.placements[p]));
          With(s.(store := store), p, s.placements[p].(stage := if saved then Placed else Unsaved))
    case Release(p) =>
      if !At(s, p, Unpaid) && !At(s, p, Unsaved) then s
      else
        var (stock, result) := Inventory.ReleaseIn(s.stock, g.sku, s.placements[p].quantity);
        With(s.(stock := stock), p, s.placements[p].(stage := if result.Ok? then Failed else Stranded))
    case Storage(a) =>
      if a.Insert? then s   // only saves insert
      else
        var o := Step(s.store, a);
        s.(store := o.store, committed := if a.Commit? && o.reply == Done then s.committed + {a.t} else s.committed)
  }

  function After(g: Config, moves: seq<Move>): State {
    if moves == [] then Initial(g) else Apply(g, After(g, moves[..|moves| - 1]), moves[|moves| - 1])
  }

  // ---------- The invariant ----------

  predicate HoldsStock(x: Placement) {
    x.stage in {Reserved, Unpaid, Authorized, Unsaved, Placed}
  }

  predicate HasID(x: Placement) {
    x.stage != Requested && x.stage != Rejected
  }

  function Held(x: Placement): int {
    if HoldsStock(x) then x.quantity else 0
  }

  function Paid(g: Config): Placement -> int {
    (x: Placement) => if x.approval.Some? then Total(g, x.quantity) else 0
  }

  function Amount(a: Payments.Authorization): int {
    a.amount
  }

  /** The placements whose record is committed, and those whose record transaction t staged. */
  function InDatabase(committed: set<nat>): Placement -> bool {
    (x: Placement) => x.stage == Placed && (x.executor.Pool? || x.executor.t in committed)
  }

  function StagedIn(t: nat): Placement -> bool {
    (x: Placement) => x.stage == Placed && x.executor == Within(t)
  }

  ghost predicate StockMatches(g: Config, s: State) {
    && s.stock.Keys == {Key(g)}
    && s.stock[Key(g)] >= 0
    && s.stock[Key(g)] + Sum(s.placements, Held) == g.initialStock
  }

  /** What is known of one placement at its stage. */
  ghost predicate Sound(g: Config, s: State, x: Placement) {
    && (if HasID(x) then x.quantity > 0 && 1 <= x.number <= s.nextID else x.number == 0)
    && (HoldsStock(x) || x.approval.Some? ==> g.sku == Key(g))
    && x.stage != Stranded
    && (x.stage in {Authorized, Unsaved, Placed} ==> x.approval.Some?)
    && (x.stage in {Requested, Rejected, Numbered, Reserved, Unpaid} ==> x.approval.None?)
    && (x.approval.Some? ==>
          var k := x.approval.value;
          && k < |s.approved|
          && s.approved[k]
             == Payments.Authorization(Text.PaymentID(k + 1), Text.OrderID(x.number), Total(g, x.quantity))
          && 0 < Total(g, x.quantity) <= g.maximumCents && x.quantity <= g.initialStock)
  }

  ghost predicate PlacementsSound(g: Config, s: State) {
    && (forall i :: 0 <= i < |s.placements| ==> Sound(g, s, s.placements[i]))
    && (forall i, j :: 0 <= i < j < |s.placements| && HasID(s.placements[i]) && HasID(s.placements[j]) ==>
          s.placements[i].number != s.placements[j].number)
  }

  /** Position k of the ledger was approved for one of the placements. */
  ghost predicate Approves(placements: seq<Placement>, k: nat) {
    exists i :: 0 <= i < |placements| && placements[i].approval == Some(k)
  }

  ghost predicate LedgerMatches(g: Config, s: State) {
    && (forall k :: 0 <= k < |s.approved| ==>
          Approves(s.placements, k))
    && Sum(s.approved, Amount) == Sum(s.placements, Paid(g))
  }

  /** Some chosen placement has this ID and this record. */
  ghost predicate Backed(g: Config, placements: seq<Placement>, id: string, r: Record, chosen: Placement -> bool) {
    exists i ::
      && 0 <= i < |placements| && chosen(placements[i])
      && Text.OrderID(placements[i].number) == id && RecordOf(g, placements[i]) == r
  }

  /** The records of m are exactly those of the chosen placements, each under its ID. */
  ghost predicate Mirrors(g: Config, placements: seq<Placement>, m: map<string, Record>, chosen: Placement -> bool) {
    && (forall id :: id in m ==> Backed(g, placements, id, m[id], chosen))
    && (forall i :: 0 <= i < |placements| && chosen(placements[i]) ==>
          && Text.OrderID(placements[i].number) in m
          && m[Text.OrderID(placements[i].number)] == RecordOf(g, placements[i]))
  }

  ghost predicate RecordsMatch(g: Config, s: State) {
    && Lifecycle(s.store) && s.store.schema
    && Mirrors(g, s.placements, s.store.records, InDatabase(s.committed))
    && (forall t :: 0 <= t < |s.store.transactions| ==>
          Mirrors(g, s.placements, s.store.transactions[t].overlay.records, StagedIn(t)))
    && (forall i :: 0 <= i < |s.placements| && s.placements[i].stage == Placed && s.placements[i].executor.Within? ==>
          s.placements[i].executor.t < |s.store.transactions|)
    && (forall t :: t in s.committed ==> t < |s.store.transactions| && s.store.transactions[t].done)
  }

  ghost predicate Invariant(g: Config, s: State) {
    && StockMatches(g, s)
    && PlacementsSound(g, s)
    && LedgerMatches(g, s)
    && RecordsMatch(g, s)
  }

  // ---------- Mirrors under updates ----------

  lemma MirrorsUnchosen(g: Config, placements: seq<Placement>, m: map<string, Record>, chosen: Placement -> bool,
                        p: nat, x: Placement)
    requires Mirrors(g, placements, m, chosen)
    requires p < |placements| && !chosen(placements[p]) && !chosen(x)
    ensures Mirrors(g, placements[p := x], m, chosen)
  {
    var after := placements[p := x];
    forall id | id in m
      ensures Backed(g, after, id, m[id], chosen)
    {
      var i :| 0 <= i < |placements| && chosen(placements[i])
               && Text.OrderID(placements[i].number) == id && RecordOf(g, placements[i]) == m[id];
      assert after[i] == placements[i];
    }
  }

  lemma MirrorsAppend(g: Config, placements: seq<Placement>, m: map<string, Record>, chosen: Placement -> bool,
                      x: Placement)
    requires Mirrors(g, placements, m, chosen) && !chosen(x)
    ensures Mirrors(g, placements + [x], m, chosen)
  {
    var after := placements + [x];
    forall id | id in m
      ensures Backed(g, after, id, m[id], chosen)
    {
      var i :| 0 <= i < |placements| && chosen(placements[i])
               && Text.OrderID(placements[i].number) == id && RecordOf(g, placements[i]) == m[id];
      assert after[i] == placements[i];
    }
  }

  lemma MirrorsChosen(g: Config, placements: seq<Placement>, m: map<string, Record>, chosen: Placement -> bool,
                      p: nat, x: Placement)
    requires Mirrors(g, placements, m, chosen)
    requires p < |placements| && !chosen(placements[p]) && chosen(x)
    requires RecordOf(g, x).id !in m
    ensures Mirrors(g, placements[p := x], m[RecordOf(g, x).id := RecordOf(g, x)], chosen)
  {
    var after, m' := placements[p := x], m[RecordOf(g, x).id := RecordOf(g, x)];
    forall id | id in m'
      ensures Backed(g, after, id, m'[id], chosen)
    {
      if id == RecordOf(g, x).id {
        assert after[p] == x;
      } else {
        var i :| 0 <= i < |placements| && chosen(placements[i])
                 && Text.OrderID(placements[i].number) == id && RecordOf(g, placements[i]) == m[id];
        assert after[i] == placements[i];
      }
    }
  }

  lemma MirrorsUnion(g: Config, placements: seq<Placement>, records: map<string, Record>, staged: map<string, Record>,
                     committed: set<nat>, t: nat)
    requires Mirrors(g, placements, records, InDatabase(committed))
    requires Mirrors(g, placements, staged, StagedIn(t))
    requires records.Keys !! staged.Keys
    ensures Mirrors(g, placements, records + staged, InDatabase(committed + {t}))
  {
    var both, chosen := records + staged, InDatabase(committed + {t});
    forall id | id in both
      ensures Backed(g, placements, id, both[id], chosen)
    {
      if id in staged {
        var i :| 0 <= i < |placements| && StagedIn(t)(placements[i])
                 && Text.OrderID(placements[i].number) == id && RecordOf(g, placements[i]) == staged[id];
        assert chosen(placements[i]);
      } else {
        var i :| 0 <= i < |placements| && InDatabase(committed)(placements[i])
                 && Text.OrderID(placements[i].number) == id && RecordOf(g, placements[i]) == records[id];
        assert chosen(placements[i]);
      }
    }
  }

  lemma SameIDSamePlacement(g: Config, s: State, i: nat, j: nat)
    requires PlacementsSound(g, s) && i < |s.placements| && j < |s.placements|
    requires HasID(s.placements[i]) && HasID(s.placements[j])
    requires Text.OrderID(s.placements[i].number) == Text.OrderID(s.placements[j].number)
    ensures i == j
  {
    Text.OrderIDsInjective(s.placements[i].number, s.placements[j].number);
  }

  /** An ID allocated to an unfinished placement is nowhere among the records. */
  lemma UnsavedIDIsNew(g: Config, s: State, p: nat, m: map<string, Record>, chosen: Placement -> bool)
    requires PlacementsSound(g, s) && Mirrors(g, s.placements, m, chosen)
    requires p < |s.placements| && HasID(s.placements[p]) && s.placements[p].stage != Placed
    requires forall x :: chosen(x) ==> x.stage == Placed
    ensures Text.OrderID(s.placements[p].number) !in m
  {
    var id := Text.OrderID(s.placements[p].number);
    if id in m {
      assert Backed(g, s.placements, id, m[id], chosen);
      var i :| 0 <= i < |s.placements| && chosen(s.placements[i]) && Text.OrderID(s.placements[i].number) == id;
      SameIDSamePlacement(g, s, i, p);
    }
  }
}
