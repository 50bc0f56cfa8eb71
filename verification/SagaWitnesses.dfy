/** Two guarantees that the saga does not give for every configuration, with the exact condition
    under which a run breaks them: totals can wrap around, and an order whose transaction is dropped
    after its placement returned keeps its stock and its approval. */
module SagaWitnesses {
  import opened Records
  import opened MemoryStore
  import opened OrderRepository
  import opened Orders
  import opened Saga
  import opened SagaInvariant
  import opened SagaTheorems
  import Text
  import Payments

  const UNCANCELLED := Cancellation(false, false, false)

  /** One order for q units is placed within a transaction, which then ends as told. */
  function OneOrder(q: int, end: Action): seq<Move> {
    [Storage(Connect), Storage(Begin(0)), Request(q, Within(0)), Admit(0, false), Reserve(0, false),
     Authorize(0, false), Save(0, 0, UNCANCELLED), Storage(end)]
  }

  lemma NextMove(g: Config, moves: seq<Move>, n: nat, s: State)
    requires n < |moves| && After(g, moves[..n]) == s
    ensures After(g, moves[..n + 1]) == Apply(g, s, moves[n])
  {
    hide Apply;
    assert moves[..n + 1][..n] == moves[..n];
  }

  // The states that the run goes through.

  function Opened(g: Config): State {
    Initial(g).(store := Store(map[], true, [Some(0)], [Transaction(0, EMPTY_OVERLAY, false)]))
  }

  function Asked(g: Config, q: int): State {
    Opened(g).(placements := [Placement(q, Within(0), Requested, 0, None)])
  }

  function Numbering(g: Config, q: int): State {
    Opened(g).(nextID := 1, placements := [Placement(q, Within(0), Numbered, 1, None)])
  }

  function Holding(g: Config, q: int): State {
    Opened(g).(nextID := 1, stock := map[Key(g) := g.initialStock - q],
               placements := [Placement(q, Within(0), Reserved, 1, None)])
  }

  function Charging(g: Config, q: int): State {
    Holding(g, q).(approved := [Payments.Authorization(Text.PaymentID(1), Text.OrderID(1), Total(g, q))],
                   placements := [Placement(q, Within(0), Authorized, 1, Some(0))])
  }

  function Ordered(g: Config, q: int): State {
    Apply(g, Charging(g, q), Save(0, 0, UNCANCELLED))
  }

  lemma Opens(g: Config)
    ensures Apply(g, Apply(g, Initial(g), Storage(Connect)), Storage(Begin(0))) == Opened(g)
  {
    var connected := Initial(g).(store := NEW_DATABASE.(current := [None]));
    assert Apply(g, Initial(g), Storage(Connect)) == connected;
  }

  lemma Reserves(g: Config, q: int)
    requires ValidConfig(g) && Sells(g, q)
    ensures Apply(g, Opened(g), Request(q, Within(0))) == Asked(g, q)
    ensures Apply(g, Asked(g, q), Admit(0, false)) == Numbering(g, q)
    ensures Apply(g, Numbering(g, q), Reserve(0, false)) == Holding(g, q)
  {
    Text.NonBlankIsNonEmpty(g.sku);
    hide Text.TrimSpace;
    assert map[Key(g) := g.initialStock][g.sku := g.initialStock - q] == map[Key(g) := g.initialStock - q];
  }

  lemma FirstApproval(maximumCents: int, reference: string, amount: int)
    requires reference == Text.OrderID(1) && 0 < amount <= maximumCents
    ensures
      var approval := Payments.Authorization(Text.PaymentID(1), reference, amount);
      Payments.AuthorizeIn([], maximumCents, false, reference, amount) == ([approval], Ok(approval))
  {
    Text.IdentifiersTrimmed(1);
    hide Text.OrderID, Text.PaymentID, Text.TrimSpace;
    var approval := Payments.Authorization(Text.PaymentID(1), reference, amount);
    assert [] + [approval] == [approval];
  }

  lemma Charges(g: Config, q: int)
    requires Sells(g, q)
    ensures Apply(g, Holding(g, q), Authorize(0, false)) == Charging(g, q)
  {
    FirstApproval(g.maximumCents, Text.OrderID(1), Total(g, q));
    hide Payments.AuthorizeIn, Text.OrderID, Text.PaymentID, Text.TrimSpace, Total;
  }

  lemma SixMoves(g: Config, q: int, moves: seq<Move>)
    requires ValidConfig(g) && Sells(g, q)
    requires |moves| >= 6 && moves[0] == Storage(Connect) && moves[1] == Storage(Begin(0))
    requires moves[2] == Request(q, Within(0)) && moves[3] == Admit(0, false)
    requires moves[4] == Reserve(0, false) && moves[5] == Authorize(0, false)
    ensures After(g, moves[..6]) == Charging(g, q)
  {
    assert After(g, moves[..0]) == Initial(g);
    hide *;
    Opens(g);
    Reserves(g, q);
    Charges(g, q);
    NextMove(g, moves, 0, Initial(g));
    NextMove(g, moves, 1, Apply(g, Initial(g), Storage(Connect)));
    NextMove(g, moves, 2, Opened(g));
    NextMove(g, moves, 3, Asked(g, q));
    NextMove(g, moves, 4, Numbering(g, q));
    NextMove(g, moves, 5, Holding(g, q));
  }

  /** The save is accepted and the order stays staged in the open transaction. */
  lemma OrderedShape(g: Config, q: int)
    requires ValidConfig(g) && Invariant(g, Charging(g, q))
    ensures
      var s := Ordered(g, q);
      && s.committed == {} && s.placements == [Placement(q, Within(0), Placed, 1, Some(0))]
      && |s.store.transactions| == 1 && Begun(s.store, 0) && Active(s.store, 0)
  {
    hide RecordOf, ValidRecord, Invariant, Text.OrderID, Text.PaymentID;
    SaveAccepted(g, Charging(g, q), 0, 0);
  }

  lemma OneOrderReaches(g: Config, q: int, end: Action)
    requires ValidConfig(g) && Sells(g, q)
    ensures After(g, OneOrder(q, end)) == Apply(g, Ordered(g, q), Storage(end))
    ensures Invariant(g, Charging(g, q)) && Invariant(g, Ordered(g, q))
  {
    var moves := OneOrder(q, end);
    hide After, Apply, Charging, Sells, ValidConfig, Invariant;
    SixMoves(g, q, moves);
    RunKeeps(g, moves[..6]);
    NextMove(g, moves, 6, Charging(g, q));
    RunKeeps(g, moves[..7]);
    NextMove(g, moves, 7, Ordered(g, q));
    assert moves[..8] == moves;
  }

  // ---------- Totals that wrap ----------

  /** Some run commits an order whose total is not its quantity times the price. */
  ghost predicate Mischarges(g: Config) {
    exists moves, id :: MischargedIn(g, moves, id)
  }

  ghost predicate MischargedIn(g: Config, moves: seq<Move>, id: string) {
    Mischarged(g, After(g, moves), id)
  }

  predicate Mischarged(g: Config, s: State, id: string) {
    id in s.store.records && !ChargedExactly(g, s.store.records[id])
  }

  lemma CommittedOrderExists(g: Config, q: int)
    requires ValidConfig(g) && Sells(g, q)
    ensures
      var s := After(g, OneOrder(q, Commit(0)));
      FirstRecordIs(s, RecordOf(g, Placement(q, Within(0), Placed, 1, Some(0))))
  {
    OneOrderReaches(g, q, Commit(0));
    hide *;
    CommittedOrder(g, q);
  }

  predicate FirstRecordIs(s: State, r: Record) {
    Text.OrderID(1) in s.store.records && s.store.records[Text.OrderID(1)] == r
  }

  lemma CommittedOrder(g: Config, q: int)
    requires ValidConfig(g) && Invariant(g, Charging(g, q)) && Invariant(g, Ordered(g, q))
    ensures FirstRecordIs(Apply(g, Ordered(g, q), Storage(Commit(0))),
                          RecordOf(g, Placement(q, Within(0), Placed, 1, Some(0))))
  {
    hide Ordered, Charging, RecordOf, Invariant;
    OrderedShape(g, q);
    CommitPublishes(g, Ordered(g, q));
  }

  lemma CommitPublishes(g: Config, s: State)
    requires ValidConfig(g) && Invariant(g, s) && Begun(s.store, 0) && Active(s.store, 0)
    requires |s.placements| == 1 && s.placements[0].stage == Placed && s.placements[0].executor == Within(0)
    requires s.placements[0].number == 1
    ensures FirstRecordIs(Apply(g, s, Storage(Commit(0))), RecordOf(g, s.placements[0]))
  {
    hide Step, RecordOf, Text.OrderID, Mirrors, StockMatches, PlacementsSound, LedgerMatches, ValidConfig;
    CommitMeetsNoDuplicate(g, s, 0);
    CommitSucceeds(s.store, 0);
    ApplyKeeps(g, s, Storage(Commit(0)));
    FirstIsCommitted(g, Apply(g, s, Storage(Commit(0))), s.placements[0]);
  }

  lemma FirstIsCommitted(g: Config, s: State, x: Placement)
    requires Invariant(g, s) && |s.placements| > 0 && s.placements[0] == x && InDatabase(s.committed)(x)
    ensures Text.OrderID(x.number) in s.store.records && s.store.records[Text.OrderID(x.number)] == RecordOf(g, x)
  {
  }

  lemma CommitSucceeds(s: Store, t: nat)
    requires Lifecycle(s) && Begun(s, t) && Active(s, t) && Step(s, Commit(t)).reply != Refused(DuplicateKey)
    ensures Step(s, Commit(t)).reply == Done
  {
    EndEffect(s, Commit(t));
  }

  /** A total can be wrong in some run if and only if the shop can sell a quantity whose product with
      the price exceeds 64 bits but wraps around to an acceptable amount. */
  lemma MischargesIff(g: Config)
    requires ValidConfig(g)
    ensures Mischarges(g) <==> exists q :: Sells(g, q) && q * g.unitPriceCents > MAX_INT64
  {
    if moves, id :| MischargedIn(g, moves, id) {
      MischargeNeedsWrap(g, moves, id);
    }
    if q :| Sells(g, q) && q * g.unitPriceCents > MAX_INT64 {
      WrapMischarges(g, q);
    }
  }

  lemma MischargeNeedsWrap(g: Config, moves: seq<Move>, id: string)
    requires ValidConfig(g) && MischargedIn(g, moves, id)
    ensures exists q :: Sells(g, q) && q * g.unitPriceCents > MAX_INT64
  {
    RunKeeps(g, moves);
    hide After;
    WrongTotalWrapped(g, After(g, moves), id);
  }

  lemma PositiveProduct(a: int, b: int)
    requires a > 0 && b > 0
    ensures a * b > 0
  {
  }

  lemma WrongTotalWrapped(g: Config, s: State, id: string)
    requires ValidConfig(g) && Invariant(g, s) && Mischarged(g, s, id)
    ensures exists q :: Sells(g, q) && q * g.unitPriceCents > MAX_INT64
  {
    hide Invariant, Wrap64, TotalCents;
    CommittedTotals(g, s, id);
    var q := s.store.records[id].quantity;
    WrapExact(q * g.unitPriceCents);
    PositiveProduct(q, g.unitPriceCents);
    assert Sells(g, q) && q * g.unitPriceCents > MAX_INT64;
  }

  lemma WrapMischarges(g: Config, q: int)
    requires ValidConfig(g) && Sells(g, q) && q * g.unitPriceCents > MAX_INT64
    ensures Mischarges(g)
  {
    CommittedOrderExists(g, q);
    hide After, OneOrder, Text.OrderID;
    WrapExact(q * g.unitPriceCents);
    assert Mischarged(g, After(g, OneOrder(q, Commit(0))), Text.OrderID(1));
    assert MischargedIn(g, OneOrder(q, Commit(0)), Text.OrderID(1));
  }

  /** An order of 2^62 + 1 units at four cents is committed for four cents. */
  lemma WrappedTotal()
    ensures
      var g := Config("SKU-RED", 4, 1000000, "SKU-RED", 0x4000_0000_0000_0001);
      ValidConfig(g) && Mischarges(g)
  {
    var g := Config("SKU-RED", 4, 1000000, "SKU-RED", 0x4000_0000_0000_0001);
    Text.TrimSpaceNormalizes("SKU-RED");
    assert Total(g, 0x4000_0000_0000_0001) == 4;
    assert Sells(g, 0x4000_0000_0000_0001);
    MischargesIff(g);
  }

  // ---------- Orders that are dropped ----------

  /** Some run ends every transaction and finishes every placement, and stock is missing. */
  ghost predicate LosesStock(g: Config) {
    exists moves :: StockLostIn(g, moves)
  }

  ghost predicate StockLostIn(g: Config, moves: seq<Move>) {
    Settled(After(g, moves)) && !ExactlyStocked(g, After(g, moves))
  }

  predicate Settled(s: State) {
    && (forall t :: 0 <= t < |s.store.transactions| ==> s.store.transactions[t].done)
    && (forall i :: 0 <= i < |s.placements| ==> s.placements[i].stage in {Rejected, Failed, Placed})
  }

  lemma DroppedOrder(g: Config, q: int)
    requires ValidConfig(g) && Sells(g, q)
    ensures StockLostIn(g, OneOrder(q, Rollback(0)))
  {
    OneOrderReaches(g, q, Rollback(0));
    StockExactIffAllCommitted(g, OneOrder(q, Rollback(0)));
    hide After, OneOrder, ExactlyStocked, Sells, Settled, AllCommitted;
    hide Apply, Ordered, Invariant, Charging, ValidConfig;
    DroppedShape(g, q);
  }

  lemma DroppedShape(g: Config, q: int)
    requires ValidConfig(g) && Invariant(g, Charging(g, q))
    ensures
      var s := Apply(g, Ordered(g, q), Storage(Rollback(0)));
      Settled(s) && !AllCommitted(s)
  {
    hide Ordered, Charging, Invariant, ValidConfig;
    OrderedShape(g, q);
    RollbackDrops(Ordered(g, q), Apply(g, Ordered(g, q), Storage(Rollback(0))));
  }

  lemma RollbackDrops(s: State, s': State)
    requires |s.store.transactions| == 1 && Begun(s.store, 0) && Active(s.store, 0)
    requires |s.placements| == 1 && s.placements[0].stage == Placed && s.placements[0].executor == Within(0)
    requires s.committed == {} && s' == s.(store := Step(s.store, Rollback(0)).store)
    ensures Settled(s') && !AllCommitted(s')
  {
    assert !InDatabase(s'.committed)(s'.placements[0]);
  }

  /** Nothing undoes a completed placement whose transaction is rolled back, or whose commit fails,
      afterwards: stock is lost in some run if and only if the shop can sell anything at all. */
  lemma LosesStockIff(g: Config)
    requires ValidConfig(g)
    ensures LosesStock(g) <==> exists q :: Sells(g, q)
  {
    if moves :| StockLostIn(g, moves) {
      StockExactIffAllCommitted(g, moves);
      RunKeeps(g, moves);
      hide After, ExactlyStocked;
      var s := After(g, moves);
      var i :| 0 <= i < |s.placements| && s.placements[i].stage == Placed && !InDatabase(s.committed)(s.placements[i]);
      assert Sound(g, s, s.placements[i]);
      HeldWithinInitial(g, s, i);
      StockBounds(g, s);
      assert Sells(g, s.placements[i].quantity);
    }
    if q :| Sells(g, q) {
      DroppedOrder(g, q);
    }
  }
}
