/** What every run of the saga guarantees, whatever is interleaved. */
module SagaTheorems {
  import opened Records
  import opened MemoryStore
  import opened OrderRepository
  import opened Orders
  import opened Sums
  import opened Saga
  import opened SagaInvariant
  import Text
  import Inventory
  import Payments

  // ---------- Compensation and stock bounds ----------

  /** The placement is not stranded with stock it cannot give back, because giving back what it
      holds succeeds, exactly. */
  ghost predicate Restorable(g: Config, stock: Inventory.Stock, x: Placement) {
    && x.stage != Stranded
    && (HoldsStock(x) ==>
          && Key(g) in stock
          && Inventory.ReleaseIn(stock, g.sku, x.quantity) == (stock[Key(g) := stock[Key(g)] + x.quantity], Ok(())))
  }

  /** The stock lies between zero and the initial stock and passes the audit, and every placement
      can give its stock back. */
  ghost predicate Compensable(g: Config, s: State) {
    && s.stock.Keys == {Key(g)} && 0 <= s.stock[Key(g)] <= g.initialStock
    && Inventory.Sound(s.stock)
    && forall p :: 0 <= p < |s.placements| ==> Restorable(g, s.stock, s.placements[p])
  }

  lemma CompensationNeverFails(g: Config, moves: seq<Move>)
    requires ValidConfig(g)
    ensures Compensable(g, After(g, moves))
  {
    RunKeeps(g, moves);
    hide After;
    InvariantCompensable(g, After(g, moves));
  }

  lemma InvariantCompensable(g: Config, s: State)
    requires ValidConfig(g) && Invariant(g, s)
    ensures Compensable(g, s)
  {
    StockBounds(g, s);
    hide Invariant, Inventory.Sound, Restorable, Key;
    forall p | 0 <= p < |s.placements| ensures Restorable(g, s.stock, s.placements[p]) {
      NotStranded(g, s, p);
    }
  }

  lemma NotStranded(g: Config, s: State, p: nat)
    requires ValidConfig(g) && Invariant(g, s) && p < |s.placements|
    ensures Restorable(g, s.stock, s.placements[p])
  {
    assert Sound(g, s, s.placements[p]);
    if HoldsStock(s.placements[p]) {
      ReleaseIsExact(g, s, p);
    }
  }

  lemma StockBounds(g: Config, s: State)
    requires ValidConfig(g) && Invariant(g, s)
    ensures s.stock.Keys == {Key(g)} && 0 <= s.stock[Key(g)] <= g.initialStock
    ensures Inventory.Sound(s.stock)
  {
    forall x | x in s.placements ensures Held(x) >= 0 {
      assert Sound(g, s, x);
    }
    SumBounds(s.placements, Held);
    hide Text.TrimSpace;
    Text.TrimSpaceNormalizes(g.inventorySKU);
    Text.TrimSpaceNormalizes(Key(g));
  }

  // ---------- Identifiers ----------

  /** No two placements share an order ID; every saved order has an ID that was allocated; no
      commit meets a duplicate. */
  ghost predicate UniqueIDs(s: State) {
    && (forall i, j :: 0 <= i < j < |s.placements| && HasID(s.placements[i]) && HasID(s.placements[j]) ==>
          Text.OrderID(s.placements[i].number) != Text.OrderID(s.placements[j].number))
    && (forall id :: id in s.store.records ==> s.store.records[id].id == id && Allocated(s, id))
    && (forall t :: Step(s.store, Commit(t)).reply != Refused(DuplicateKey))
  }

  ghost predicate Allocated(s: State, id: string) {
    exists n :: 1 <= n <= s.nextID && id == Text.OrderID(n)
  }

  lemma IdentifiersUnique(g: Config, moves: seq<Move>)
    requires ValidConfig(g)
    ensures UniqueIDs(After(g, moves))
  {
    RunKeeps(g, moves);
    hide After;
    InvariantUniqueIDs(g, After(g, moves));
  }

  lemma InvariantUniqueIDs(g: Config, s: State)
    requires Invariant(g, s)
    ensures UniqueIDs(s)
  {
    hide Text.OrderID, Step, Mirrors;
    forall i, j | 0 <= i < j < |s.placements| && HasID(s.placements[i]) && HasID(s.placements[j])
      ensures Text.OrderID(s.placements[i].number) != Text.OrderID(s.placements[j].number)
    {
      Text.OrderIDsInjective(s.placements[i].number, s.placements[j].number);
    }
    forall id | id in s.store.records ensures s.store.records[id].id == id && Allocated(s, id) {
      var i := PlacementOf(g, s, id);
    }
    forall t ensures Step(s.store, Commit(t)).reply != Refused(DuplicateKey) {
      CommitMeetsNoDuplicate(g, s, t);
    }
  }

  lemma CommitMeetsNoDuplicate(g: Config, s: State, t: nat)
    requires Invariant(g, s)
    ensures Step(s.store, Commit(t)).reply != Refused(DuplicateKey)
  {
    hide Mirrors;
    if Known(s.store, Commit(t)) && Active(s.store, t) {
      StagedKeysAreNew(g, s, t);
      EndEffect(s.store, Commit(t));
    }
  }

  /** The placement a committed record comes from. */
  lemma PlacementOf(g: Config, s: State, id: string) returns (i: nat)
    requires Invariant(g, s) && id in s.store.records
    ensures i < |s.placements| && InDatabase(s.committed)(s.placements[i]) && Sound(g, s, s.placements[i])
    ensures s.placements[i].stage == Placed
    ensures s.store.records[id] == RecordOf(g, s.placements[i]) && id == Text.OrderID(s.placements[i].number)
  {
    assert Backed(g, s.placements, id, s.store.records[id], InDatabase(s.committed));
    i :| 0 <= i < |s.placements| && InDatabase(s.committed)(s.placements[i])
         && Text.OrderID(s.placements[i].number) == id && RecordOf(g, s.placements[i]) == s.store.records[id];
    assert Sound(g, s, s.placements[i]);
  }

  /** The repository's save refuses a placement of the saga only for its context or for an ended
      transaction, never as a duplicate, as invalid or for want of the schema. */
  lemma SaveNeverDuplicates(g: Config, moves: seq<Move>, p: nat, c: nat, cancellation: Cancellation)
    requires ValidConfig(g)
    requires
      var s := After(g, moves);
      At(s, p, Authorized) && !Waits(s, p, c) && SaveConnection(s, p, c).Some?
    ensures
      var s := After(g, moves);
      var connection := SaveConnection(s, p, c).value;
      && Connected(s.store, connection)
      && var result := SaveIn(ViewOf(s.store, connection), cancellation, RecordOf(g, s.placements[p])).1;
         && (result.Ok? <==> !cancellation.before && !cancellation.inDriver)
         && result != Err(DuplicateKey)
  {
    var s := After(g, moves);
    RunKeeps(g, moves);
    hide After, SaveIn, ValidRecord, RecordOf;
    SaveAccepted(g, s, p, c);
    SaveIsInsert(ViewOf(s.store, SaveConnection(s, p, c).value), cancellation, RecordOf(g, s.placements[p]));
  }

  /** Every committed order is found by its ID on every connection, as it was saved, also while the
      connection has a transaction open. */
  lemma CommittedOrdersFound(g: Config, moves: seq<Move>, id: string, c: nat)
    requires ValidConfig(g) && id in After(g, moves).store.records && Connected(After(g, moves).store, c)
    ensures
      var s := After(g, moves);
      FindOrderIn(ViewOf(s.store, c), false, id) == Ok(Some(s.store.records[id]))
  {
    RunKeeps(g, moves);
    hide After;
    CommittedOrderFound(g, After(g, moves), id, c);
  }

  lemma CommittedOrderFound(g: Config, s: State, id: string, c: nat)
    requires Invariant(g, s) && id in s.store.records && Connected(s.store, c)
    ensures FindOrderIn(ViewOf(s.store, c), false, id) == Ok(Some(s.store.records[id]))
  {
    hide Mirrors, FindOrderIn, Text.OrderID, Text.Trimmed, Text.TrimSpace, StockMatches, LedgerMatches;
    var i := PlacementOf(g, s, id);
    Text.IdentifiersTrimmed(s.placements[i].number);
    if s.store.current[c].Some? {
      StagedKeysAreNew(g, s, s.store.current[c].value);
    }
    FindReturnsVisible(ViewOf(s.store, c), id);
  }

  // ---------- Conservation of stock ----------

  function Quantity(r: Record): int { r.quantity }

  function TotalCents(r: Record): int { r.totalCents }

  function InFlight(x: Placement): int {
    if x.stage in {Reserved, Unpaid, Authorized, Unsaved} then x.quantity else 0
  }

  function SavedQuantity(committed: set<nat>): Placement -> int {
    (x: Placement) => if InDatabase(committed)(x) then x.quantity else 0
  }

  function CompletedQuantity(x: Placement): int {
    if x.stage == Placed then x.quantity else 0
  }

  /** Completed placements whose record is not committed: it is still staged, or was dropped. */
  function UncommittedQuantity(committed: set<nat>): Placement -> int {
    (x: Placement) => if x.stage == Placed && !InDatabase(committed)(x) then x.quantity else 0
  }

  /** The quantities staged by the counted ones among the first n transactions. */
  ghost function OverlayQuantity(s: State, counted: nat -> bool, n: nat): int
    requires n <= |s.store.transactions|
  {
    if n == 0 then 0
    else
      OverlayQuantity(s, counted, n - 1)
      + if counted(n - 1) then MapSum(s.store.transactions[n - 1].overlay.records, Quantity) else 0
  }

  function CountedQuantity(counted: nat -> bool, n: nat): Placement -> int {
    (x: Placement) =>
      if x.stage == Placed && x.executor.Within? && x.executor.t < n && counted(x.executor.t) then x.quantity else 0
  }

  function WithinQuantity(t: nat): Placement -> int {
    (x: Placement) => if StagedIn(t)(x) then x.quantity else 0
  }

  function IDOf(x: Placement): string {
    Text.OrderID(x.number)
  }

  function RecordFor(g: Config): Placement -> Record {
    (x: Placement) => RecordOf(g, x)
  }

  /** A mirrored map has the total of its placements. */
  lemma MirroredTotal(g: Config, s: State, m: map<string, Record>, chosen: Placement -> bool,
                      f: Record -> int, weight: Placement -> int)
    requires PlacementsSound(g, s) && Mirrors(g, s.placements, m, chosen)
    requires forall x :: chosen(x) ==> x.stage == Placed
    requires forall x :: x in s.placements ==> weight(x) == if chosen(x) then f(RecordOf(g, x)) else 0
    ensures MapSum(m, f) == Sum(s.placements, weight)
  {
    forall k | k in m
      ensures exists i :: 0 <= i < |s.placements| && chosen(s.placements[i]) && IDOf(s.placements[i]) == k
    {
      assert Backed(g, s.placements, k, m[k], chosen);
      var i :| 0 <= i < |s.placements| && chosen(s.placements[i]) && Text.OrderID(s.placements[i].number) == k;
      assert IDOf(s.placements[i]) == k;
    }
    forall i, j | 0 <= i < j < |s.placements| && chosen(s.placements[i]) && chosen(s.placements[j])
      ensures IDOf(s.placements[i]) != IDOf(s.placements[j])
    {
      if IDOf(s.placements[i]) == IDOf(s.placements[j]) {
        SameIDSamePlacement(g, s, i, j);
      }
    }
    MapSumIsSum(s.placements, m, chosen, IDOf, RecordFor(g), f, weight);
  }

  lemma CountNone(placements: seq<Placement>, counted: nat -> bool)
    ensures Sum(placements, CountedQuantity(counted, 0)) == 0
  {
    forall x | x in placements ensures CountedQuantity(counted, 0)(x) == 0 {
      assert x.executor.Within? ==> x.executor.t >= 0;
    }
    SumZero(placements, CountedQuantity(counted, 0));
  }

  lemma {:induction false} OverlaysAreStaged(g: Config, s: State, counted: nat -> bool, n: nat)
    requires PlacementsSound(g, s) && RecordsMatch(g, s) && n <= |s.store.transactions|
    ensures OverlayQuantity(s, counted, n) == Sum(s.placements, CountedQuantity(counted, n))
  {
    hide CountedQuantity, PlacementsSound, RecordsMatch, MapSum, Sum;
    if n == 0 {
      CountNone(s.placements, counted);
    } else {
      OverlaysAreStaged(g, s, counted, n - 1);
      OneMoreOverlay(g, s, counted, n - 1);
    }
  }

  lemma CountOneMore(counted: nat -> bool, t: nat, x: Placement)
    ensures CountedQuantity(counted, t + 1)(x)
         == CountedQuantity(counted, t)(x) + if counted(t) then WithinQuantity(t)(x) else 0
  {
    assert StagedIn(t)(x) <==> x.stage == Placed && x.executor.Within? && x.executor.t == t;
  }

  lemma OverlayTotal(g: Config, s: State, t: nat)
    requires PlacementsSound(g, s) && RecordsMatch(g, s) && t < |s.store.transactions|
    ensures MapSum(s.store.transactions[t].overlay.records, Quantity) == Sum(s.placements, WithinQuantity(t))
  {
    hide Mirrors, PlacementsSound, Lifecycle;
    MirroredTotal(g, s, s.store.transactions[t].overlay.records, StagedIn(t), Quantity, WithinQuantity(t));
  }

  lemma OneMoreOverlay(g: Config, s: State, counted: nat -> bool, t: nat)
    requires PlacementsSound(g, s) && RecordsMatch(g, s) && t < |s.store.transactions|
    ensures Sum(s.placements, CountedQuantity(counted, t + 1))
         == Sum(s.placements, CountedQuantity(counted, t))
            + if counted(t) then MapSum(s.store.transactions[t].overlay.records, Quantity) else 0
  {
    hide PlacementsSound, RecordsMatch, CountedQuantity, WithinQuantity, Sum, MapSum;
    var more, before := CountedQuantity(counted, t + 1), CountedQuantity(counted, t);
    forall x | x in s.placements
      ensures more(x) == before(x) + if counted(t) then WithinQuantity(t)(x) else 0
    {
      CountOneMore(counted, t, x);
    }
    if counted(t) {
      OverlayTotal(g, s, t);
      SumSplit(s.placements, more, before, WithinQuantity(t));
    } else {
      SumScaled(s.placements, more, before, 1);
    }
  }

  /** Open transactions, and transactions that ended without having committed. */
  function OpenIn(s: State): nat -> bool {
    (t: nat) => t < |s.store.transactions| && !s.store.transactions[t].done
  }

  function DroppedIn(s: State): nat -> bool {
    (t: nat) => t < |s.store.transactions| && s.store.transactions[t].done && t !in s.committed
  }

  lemma HeldIsSplit(g: Config, s: State)
    requires Invariant(g, s)
    ensures Sum(s.placements, Held)
         == Sum(s.placements, InFlight) + MapSum(s.store.records, Quantity)
            + Sum(s.placements, UncommittedQuantity(s.committed))
  {
    SumSplit(s.placements, Held, InFlight, CompletedQuantity);
    SumSplit(s.placements, CompletedQuantity, SavedQuantity(s.committed), UncommittedQuantity(s.committed));
    MirroredTotal(g, s, s.store.records, InDatabase(s.committed), Quantity, SavedQuantity(s.committed));
  }

  /** A completed placement that is not committed is in a transaction that is open or was dropped. */
  lemma OpenOrDropped(g: Config, s: State, x: Placement)
    requires RecordsMatch(g, s) && x in s.placements
    ensures
      var n := |s.store.transactions|;
      UncommittedQuantity(s.committed)(x) == CountedQuantity(OpenIn(s), n)(x) + CountedQuantity(DroppedIn(s), n)(x)
  {
    hide Mirrors, Lifecycle;
  }

  lemma UncommittedIsSplit(g: Config, s: State)
    requires Invariant(g, s)
    ensures Sum(s.placements, UncommittedQuantity(s.committed))
         == OverlayQuantity(s, OpenIn(s), |s.store.transactions|)
            + OverlayQuantity(s, DroppedIn(s), |s.store.transactions|)
  {
    var n := |s.store.transactions|;
    var all := UncommittedQuantity(s.committed);
    var open, dropped := CountedQuantity(OpenIn(s), n), CountedQuantity(DroppedIn(s), n);
    OverlaysAreStaged(g, s, OpenIn(s), n);
    OverlaysAreStaged(g, s, DroppedIn(s), n);
    hide RecordsMatch, StockMatches, PlacementsSound, LedgerMatches;
    hide UncommittedQuantity, CountedQuantity, OverlayQuantity;
    forall x | x in s.placements ensures all(x) == open(x) + dropped(x) {
      OpenOrDropped(g, s, x);
    }
    SumSplit(s.placements, all, open, dropped);
  }

  /** Stock, reservations in flight, committed orders, orders staged in open transactions and
      orders whose transaction ended without commit always add up to the initial stock. */
  lemma StockConserved(g: Config, moves: seq<Move>)
    requires ValidConfig(g)
    ensures
      var s := After(g, moves);
      && Key(g) in s.stock
      && s.stock[Key(g)] + Sum(s.placements, InFlight) + MapSum(s.store.records, Quantity)
         + OverlayQuantity(s, OpenIn(s), |s.store.transactions|)
         + OverlayQuantity(s, DroppedIn(s), |s.store.transactions|)
         == g.initialStock
  {
    RunKeeps(g, moves);
    hide After;
    HeldIsSplit(g, After(g, moves));
    UncommittedIsSplit(g, After(g, moves));
  }

  ghost predicate ExactlyStocked(g: Config, s: State) {
    && Key(g) in s.stock
    && s.stock[Key(g)] + Sum(s.placements, InFlight) + MapSum(s.store.records, Quantity) == g.initialStock
  }

  predicate AllCommitted(s: State) {
    forall i :: 0 <= i < |s.placements| && s.placements[i].stage == Placed ==> InDatabase(s.committed)(s.placements[i])
  }

  /** Without the orders of unfinished and dropped transactions the sum is exact if and only if
      every order that was returned to a caller is committed. */
  lemma StockExactIffAllCommitted(g: Config, moves: seq<Move>)
    requires ValidConfig(g)
    ensures ExactlyStocked(g, After(g, moves)) <==> AllCommitted(After(g, moves))
  {
    RunKeeps(g, moves);
    hide After;
    var s := After(g, moves);
    HeldIsSplit(g, s);
    NothingUncommitted(g, s);
    assert StockMatches(g, s);
    hide Invariant;
  }

  lemma NothingUncommitted(g: Config, s: State)
    requires PlacementsSound(g, s)
    ensures Sum(s.placements, UncommittedQuantity(s.committed)) == 0 <==> AllCommitted(s)
  {
    var lost := UncommittedQuantity(s.committed);
    forall x | x in s.placements ensures lost(x) >= 0 {
      assert Sound(g, s, x);
    }
    SumBounds(s.placements, lost);
    if i :| 0 <= i < |s.placements| && s.placements[i].stage == Placed && !InDatabase(s.committed)(s.placements[i]) {
      assert Sound(g, s, s.placements[i]);
      assert s.placements[i] in s.placements && lost(s.placements[i]) > 0;
    } else {
      SumZero(s.placements, lost);
    }
  }

  /** Placements that save through the pool, without a transaction of their own, keep it exact. */
  lemma PooledStockExact(g: Config, moves: seq<Move>)
    requires ValidConfig(g)
    requires forall i :: 0 <= i < |After(g, moves).placements| ==> After(g, moves).placements[i].executor.Pool?
    ensures ExactlyStocked(g, After(g, moves))
  {
    StockExactIffAllCommitted(g, moves);
    hide After, ExactlyStocked;
  }

  // ---------- The payment ledger ----------

  /** Position k of the ledger is the approval of this order, and no other position mentions it. */
  ghost predicate OnlyApproval(approved: seq<Payments.Authorization>, k: nat, r: Record) {
    && k < |approved|
    && approved[k] == Payments.Authorization(r.authorizationID, r.id, r.totalCents)
    && forall j ::
         0 <= j < |approved| && (approved[j].reference == r.id || approved[j].id == r.authorizationID) ==> j == k
  }

  lemma ApprovalsDiffer(g: Config, s: State, j: nat, k: nat)
    requires PlacementsSound(g, s) && LedgerMatches(g, s) && j < |s.approved| && k < |s.approved|
    requires s.approved[j].reference == s.approved[k].reference || s.approved[j].id == s.approved[k].id
    ensures j == k
  {
    hide Text.OrderID, Text.PaymentID, PlacementsSound;
    assert Approves(s.placements, j) && Approves(s.placements, k);
    var a :| 0 <= a < |s.placements| && s.placements[a].approval == Some(j);
    var b :| 0 <= b < |s.placements| && s.placements[b].approval == Some(k);
    hide LedgerMatches;
    ApprovalsOfDiffer(g, s, a, b, j, k);
  }

  lemma ApprovalsOfDiffer(g: Config, s: State, a: nat, b: nat, j: nat, k: nat)
    requires PlacementsSound(g, s) && a < |s.placements| && b < |s.placements|
    requires s.placements[a].approval == Some(j) && s.placements[b].approval == Some(k)
    requires j < |s.approved| && k < |s.approved|
    requires s.approved[j].reference == s.approved[k].reference || s.approved[j].id == s.approved[k].id
    ensures j == k
  {
    hide *;
    ApprovalMatches(g, s, a, j);
    ApprovalMatches(g, s, b, k);
    if s.approved[j].reference == s.approved[k].reference {
      SameIDSamePlacement(g, s, a, b);
    } else {
      Text.PaymentIDsInjective(j + 1, k + 1);
    }
  }

  lemma ApprovalMatches(g: Config, s: State, i: nat, k: nat)
    requires PlacementsSound(g, s) && i < |s.placements| && s.placements[i].approval == Some(k)
    ensures k < |s.approved| && HasID(s.placements[i])
    ensures s.approved[k].reference == Text.OrderID(s.placements[i].number) && s.approved[k].id == Text.PaymentID(k + 1)
  {
    hide Text.OrderID, Text.PaymentID;
    assert Sound(g, s, s.placements[i]);
  }

  /** Every completed placement has exactly one approval, for its ID and its total, whether its record
      is committed, staged or was dropped; and so every committed order has. Different placements have
      different approvals. */
  ghost predicate ApprovedOnce(g: Config, s: State) {
    && (forall i :: 0 <= i < |s.placements| && s.placements[i].stage == Placed ==>
          exists k :: OnlyApproval(s.approved, k, RecordOf(g, s.placements[i])))
    && (forall i, j ::
          0 <= i < j < |s.placements| && s.placements[i].stage == Placed && s.placements[j].stage == Placed ==>
            RecordOf(g, s.placements[i]).authorizationID != RecordOf(g, s.placements[j]).authorizationID)
    && (forall id :: id in s.store.records ==> exists k :: OnlyApproval(s.approved, k, s.store.records[id]))
    && (forall id, id' :: id in s.store.records && id' in s.store.records && id != id' ==>
          s.store.records[id].authorizationID != s.store.records[id'].authorizationID)
  }

  lemma EveryOrderApprovedOnce(g: Config, moves: seq<Move>)
    requires ValidConfig(g)
    ensures ApprovedOnce(g, After(g, moves))
  {
    RunKeeps(g, moves);
    hide After;
    InvariantApprovedOnce(g, After(g, moves));
  }

  lemma InvariantApprovedOnce(g: Config, s: State)
    requires Invariant(g, s)
    ensures ApprovedOnce(g, s)
  {
    hide Invariant, OnlyApproval, RecordOf;
    forall i | 0 <= i < |s.placements| && s.placements[i].stage == Placed
      ensures exists k :: OnlyApproval(s.approved, k, RecordOf(g, s.placements[i]))
    {
      var k := ApprovalOfPlaced(g, s, i);
    }
    forall i, j | 0 <= i < j < |s.placements| && s.placements[i].stage == Placed && s.placements[j].stage == Placed
      ensures RecordOf(g, s.placements[i]).authorizationID != RecordOf(g, s.placements[j]).authorizationID
    {
      PlacedDiffer(g, s, i, j);
    }
    forall id | id in s.store.records ensures exists k :: OnlyApproval(s.approved, k, s.store.records[id]) {
      var k := ApprovalOf(g, s, id);
    }
    forall id, id' | id in s.store.records && id' in s.store.records && id != id'
      ensures s.store.records[id].authorizationID != s.store.records[id'].authorizationID
    {
      CommittedDiffer(g, s, id, id');
    }
  }

  lemma ApprovalOfPlaced(g: Config, s: State, i: nat) returns (k: nat)
    requires Invariant(g, s) && i < |s.placements| && s.placements[i].stage == Placed
    ensures OnlyApproval(s.approved, k, RecordOf(g, s.placements[i]))
    ensures s.approved[k].reference == Text.OrderID(s.placements[i].number) && HasID(s.placements[i])
  {
    hide Text.OrderID, Text.PaymentID, RecordsMatch;
    assert Sound(g, s, s.placements[i]);
    k := s.placements[i].approval.value;
    var r := RecordOf(g, s.placements[i]);
    forall j | 0 <= j < |s.approved| && (s.approved[j].reference == r.id || s.approved[j].id == r.authorizationID)
      ensures j == k
    {
      ApprovalsDiffer(g, s, j, k);
    }
  }

  lemma PlacedDiffer(g: Config, s: State, i: nat, j: nat)
    requires Invariant(g, s) && i < j < |s.placements|
    requires s.placements[i].stage == Placed && s.placements[j].stage == Placed
    ensures RecordOf(g, s.placements[i]).authorizationID != RecordOf(g, s.placements[j]).authorizationID
  {
    hide Invariant, Text.OrderID, RecordOf;
    var k := ApprovalOfPlaced(g, s, i);
    var l := ApprovalOfPlaced(g, s, j);
    assert PlacementsSound(g, s) by { InvariantSound(g, s); }
    if RecordOf(g, s.placements[i]).authorizationID == RecordOf(g, s.placements[j]).authorizationID {
      assert k == l;
      SameIDSamePlacement(g, s, i, j);
    }
  }

  lemma InvariantSound(g: Config, s: State)
    requires Invariant(g, s)
    ensures PlacementsSound(g, s)
  {
  }

  lemma CommittedDiffer(g: Config, s: State, id: string, id': string)
    requires Invariant(g, s) && id in s.store.records && id' in s.store.records && id != id'
    ensures s.store.records[id].authorizationID != s.store.records[id'].authorizationID
  {
    hide Invariant;
    var k := ApprovalOf(g, s, id);
    var l := ApprovalOf(g, s, id');
  }

  lemma ApprovalOf(g: Config, s: State, id: string) returns (k: nat)
    requires Invariant(g, s) && id in s.store.records
    ensures OnlyApproval(s.approved, k, s.store.records[id]) && s.approved[k].reference == id
  {
    hide Invariant, Text.OrderID;
    var i := PlacementOf(g, s, id);
    k := ApprovalOfPlaced(g, s, i);
  }

  function SavedTotal(g: Config, committed: set<nat>): Placement -> int {
    (x: Placement) => if InDatabase(committed)(x) then Total(g, x.quantity) else 0
  }

  /** What was approved for placements that are not committed: not yet saved, refused, staged or
      dropped. */
  function UnsavedTotal(g: Config, committed: set<nat>): Placement -> int {
    (x: Placement) => if x.approval.Some? && !InDatabase(committed)(x) then Total(g, x.quantity) else 0
  }

  /** The approved amounts are the totals of the committed orders and of the approvals without one. */
  lemma LedgerBalances(g: Config, moves: seq<Move>)
    requires ValidConfig(g)
    ensures
      var s := After(g, moves);
      Sum(s.approved, Amount)
      == MapSum(s.store.records, TotalCents) + Sum(s.placements, UnsavedTotal(g, s.committed))
  {
    var s := After(g, moves);
    RunKeeps(g, moves);
    hide After;
    forall x | x in s.placements ensures InDatabase(s.committed)(x) ==> x.approval.Some? {
      assert Sound(g, s, x);
    }
    SumSplit(s.placements, Paid(g), SavedTotal(g, s.committed), UnsavedTotal(g, s.committed));
    MirroredTotal(g, s, s.store.records, InDatabase(s.committed), TotalCents, SavedTotal(g, s.committed));
  }

  /** The ledger is the totals of the committed orders, and nothing else. */
  ghost predicate ExactlyApproved(s: State) {
    Sum(s.approved, Amount) == MapSum(s.store.records, TotalCents)
  }

  predicate AllApprovalsUsed(s: State) {
    forall i :: 0 <= i < |s.placements| && s.placements[i].approval.Some? ==> InDatabase(s.committed)(s.placements[i])
  }

  lemma NoUnsavedTotal(g: Config, s: State)
    requires PlacementsSound(g, s)
    ensures Sum(s.placements, UnsavedTotal(g, s.committed)) >= 0
    ensures Sum(s.placements, UnsavedTotal(g, s.committed)) == 0 <==> AllApprovalsUsed(s)
  {
    hide Total, Text.OrderID, Text.PaymentID;
    var unsaved := UnsavedTotal(g, s.committed);
    forall x | x in s.placements ensures unsaved(x) >= 0 {
      assert Sound(g, s, x);
    }
    SumBounds(s.placements, unsaved);
    if i :| 0 <= i < |s.placements| && s.placements[i].approval.Some? && !InDatabase(s.committed)(s.placements[i]) {
      assert Sound(g, s, s.placements[i]);
      assert s.placements[i] in s.placements && unsaved(s.placements[i]) > 0;
    } else {
      SumZero(s.placements, unsaved);
    }
  }

  /** In each run the ledger is exact if and only if every approval belongs to a committed order; it
      never falls short of the committed totals. */
  lemma LedgerExactIffAllUsed(g: Config, moves: seq<Move>)
    requires ValidConfig(g)
    ensures ExactlyApproved(After(g, moves)) <==> AllApprovalsUsed(After(g, moves))
    ensures Sum(After(g, moves).approved, Amount) >= MapSum(After(g, moves).store.records, TotalCents)
  {
    LedgerBalances(g, moves);
    RunKeeps(g, moves);
    hide After;
    NoUnsavedTotal(g, After(g, moves));
  }

  // ---------- Totals ----------

  /** The charge of q units is right: the product did not wrap. */
  predicate ChargedExactly(g: Config, r: Record) {
    r.totalCents == r.quantity * g.unitPriceCents
  }

  /** The shop can sell q units: they can be in stock and their charge is within the policy. */
  predicate Sells(g: Config, q: int) {
    g.sku == Key(g) && 1 <= q <= g.initialStock && 0 < Total(g, q) <= g.maximumCents
  }

  /** Each committed order is for a quantity the shop can sell, and its total is the 64-bit product. */
  lemma CommittedTotals(g: Config, s: State, id: string)
    requires ValidConfig(g) && Invariant(g, s) && id in s.store.records
    ensures
      var r := s.store.records[id];
      && r.sku == g.sku && r.totalCents == Total(g, r.quantity) && Sells(g, r.quantity)
  {
    var i := PlacementOf(g, s, id);
    HeldWithinInitial(g, s, i);
  }

  /** The total is exact for every placement that computes one, whatever became of it. */
  predicate NeverWraps(g: Config, s: State) {
    forall i :: 0 <= i < |s.placements| && (HoldsStock(s.placements[i]) || s.placements[i].approval.Some?) ==>
      Total(g, s.placements[i].quantity) == s.placements[i].quantity * g.unitPriceCents
  }

  lemma InvariantNeverWraps(g: Config, s: State)
    requires ValidConfig(g) && Invariant(g, s) && g.initialStock * g.unitPriceCents <= MAX_INT64
    ensures NeverWraps(g, s)
  {
    forall i | 0 <= i < |s.placements| && (HoldsStock(s.placements[i]) || s.placements[i].approval.Some?)
      ensures Total(g, s.placements[i].quantity) == s.placements[i].quantity * g.unitPriceCents
    {
      assert Sound(g, s, s.placements[i]);
      HeldWithinInitial(g, s, i);
      ProductFits(s.placements[i].quantity, g.initialStock, g.unitPriceCents);
    }
  }

  /** When the initial stock at the unit price fits 64 bits, no total ever wraps: every committed
      order costs its quantity times the price, and all of them together at most the whole stock. */
  lemma TotalsExact(g: Config, moves: seq<Move>)
    requires ValidConfig(g) && g.initialStock * g.unitPriceCents <= MAX_INT64
    ensures
      var s := After(g, moves);
      && NeverWraps(g, s)
      && (forall id :: id in s.store.records ==>
            ChargedExactly(g, s.store.records[id]) && 0 < s.store.records[id].totalCents <= g.maximumCents)
      && MapSum(s.store.records, TotalCents) <= g.initialStock * g.unitPriceCents
  {
    var s := After(g, moves);
    RunKeeps(g, moves);
    hide After;
    forall id | id in s.store.records
      ensures ChargedExactly(g, s.store.records[id]) && 0 < s.store.records[id].totalCents <= g.maximumCents
    {
      CommittedTotals(g, s, id);
      ProductFits(s.store.records[id].quantity, g.initialStock, g.unitPriceCents);
    }
    SavedTotalsScale(g, s);
    InvariantNeverWraps(g, s);
    hide NeverWraps;
  }

  lemma ProductFits(q: int, stock: int, price: int)
    requires 0 <= q <= stock && price > 0 && stock * price <= MAX_INT64
    ensures 0 <= q * price <= stock * price && Wrap64(q * price) == q * price
  {
    assert q * price <= stock * price;
    WrapExact(q * price);
  }

  lemma SavedTotalScales(g: Config, s: State, i: nat)
    requires ValidConfig(g) && Invariant(g, s) && g.initialStock * g.unitPriceCents <= MAX_INT64
    requires i < |s.placements|
    ensures
      var x, saved := s.placements[i], SavedQuantity(s.committed);
      SavedTotal(g, s.committed)(x) == g.unitPriceCents * saved(x) && saved(x) <= Held(x)
  {
    hide Invariant, ValidConfig, InDatabase, Held, Wrap64;
    var x := s.placements[i];
    SavedIsHeld(g, s, i);
    if InDatabase(s.committed)(x) {
      ProductFits(x.quantity, g.initialStock, g.unitPriceCents);
    }
  }

  lemma SavedIsHeld(g: Config, s: State, i: nat)
    requires ValidConfig(g) && Invariant(g, s) && i < |s.placements|
    ensures
      var x := s.placements[i];
      && g.unitPriceCents > 0 && Held(x) >= 0
      && (InDatabase(s.committed)(x) ==> 0 < x.quantity == Held(x) <= g.initialStock)
  {
    hide RecordsMatch, LedgerMatches, Total, Text.TrimSpace, Text.OrderID, Text.PaymentID;
    assert Sound(g, s, s.placements[i]);
    HeldWithinInitial(g, s, i);
  }

  lemma SavedTotalsScale(g: Config, s: State)
    requires ValidConfig(g) && Invariant(g, s) && g.initialStock * g.unitPriceCents <= MAX_INT64
    ensures MapSum(s.store.records, TotalCents) <= g.initialStock * g.unitPriceCents
  {
    var saved, total := SavedQuantity(s.committed), SavedTotal(g, s.committed);
    MirroredTotal(g, s, s.store.records, InDatabase(s.committed), TotalCents, total);
    StockBounds(g, s);
    var within := g.initialStock - s.stock[Key(g)];
    assert Sum(s.placements, Held) == within;
    hide *;
    forall x | x in s.placements ensures total(x) == g.unitPriceCents * saved(x) && saved(x) <= Held(x) {
      var i :| 0 <= i < |s.placements| && s.placements[i] == x;
      SavedTotalScales(g, s, i);
    }
    SumScaled(s.placements, total, saved, g.unitPriceCents);
    SumMonotone(s.placements, saved, Held);
    PriceMonotone(g, Sum(s.placements, saved), g.initialStock);
  }

  lemma PriceMonotone(g: Config, less: int, more: int)
    requires ValidConfig(g) && less <= more
    ensures g.unitPriceCents * less <= more * g.unitPriceCents
  {
  }
}
