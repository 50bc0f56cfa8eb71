/** Nothing undoes what a dropped order or a refused save leaves behind: stock and approvals that are
    lost in one state of a run are lost in every later one. */
module SagaPermanence {
  import opened Records
  import opened MemoryStore
  import opened OrderRepository
  import opened Orders
  import opened Saga
  import opened SagaInvariant
  import opened SagaTheorems
  import opened SagaWitnesses
  import Sums
  import Text
  import Inventory

  /** A completed placement whose transaction ended without having committed. */
  predicate Dropped(s: State, p: nat) {
    && At(s, p, Placed) && s.placements[p].executor.Within?
    && var t := s.placements[p].executor.t;
       t < |s.store.transactions| && s.store.transactions[t].done && t !in s.committed
  }

  /** An approved placement that will never be a committed order. */
  predicate Abandoned(s: State, p: nat) {
    Dropped(s, p) || (At(s, p, Failed) && s.placements[p].approval.Some?)
  }

  /** The placement is as it was, and its transaction stays ended and uncommitted. */
  ghost predicate Stays(s: State, s': State, p: nat)
    requires p < |s.placements|
  {
    && p < |s'.placements| && s'.placements[p] == s.placements[p]
    && (Dropped(s, p) ==> Dropped(s', p))
  }

  lemma SaveKeepsDone(s: Store, c: nat, cancellation: Cancellation, r: Record, t: nat)
    requires Connected(s, c) && t < |s.transactions| && s.transactions[t].done
    ensures
      var s' := SaveThrough(s, c, cancellation, r).0;
      t < |s'.transactions| && s'.transactions[t].done
  {
    hide ValidRecord;
  }

  lemma SaveKeepsAbandoned(g: Config, s: State, p: nat, c: nat, cancellation: Cancellation, q: nat)
    requires Lifecycle(s.store) && Abandoned(s, q)
    ensures Stays(s, Apply(g, s, Save(p, c, cancellation)), q)
  {
    hide SaveThrough, RecordOf;
    if At(s, p, Authorized) && !Waits(s, p, c) && SaveConnection(s, p, c).Some? && Dropped(s, q) {
      SaveKeepsDone(s.store, SaveConnection(s, p, c).value, cancellation, RecordOf(g, s.placements[p]),
                    s.placements[q].executor.t);
    }
  }

  lemma StorageKeepsAbandoned(g: Config, s: State, a: Action, q: nat)
    requires Lifecycle(s.store) && Abandoned(s, q)
    ensures Stays(s, Apply(g, s, Storage(a)), q)
  {
    StepExtends(s.store, a);
    if a.Commit? && Known(s.store, a) {
      EndEffect(s.store, a);
    }
    assert Dropped(s, q) && a == Commit(s.placements[q].executor.t) ==> Step(s.store, a).reply != Done;
    hide Step;
  }

  lemma MoveKeepsAbandoned(g: Config, s: State, m: Move, p: nat)
    requires Lifecycle(s.store) && Abandoned(s, p)
    ensures Stays(s, Apply(g, s, m), p)
  {
    hide Step, SaveThrough, Inventory.ReserveIn, Inventory.ReleaseIn, Text.OrderID, Total, Lifecycle;
    match m
    case Save(q, c, cancellation) => SaveKeepsAbandoned(g, s, q, c, cancellation, p);
    case Storage(a) => StorageKeepsAbandoned(g, s, a, p);
    case _ =>
  }

  lemma StaysItself(s: State, p: nat)
    requires Abandoned(s, p)
    ensures p < |s.placements| && Stays(s, s, p)
  {
  }

  lemma StaysAbandoned(s: State, s': State, p: nat)
    requires Abandoned(s, p) && Stays(s, s', p)
    ensures Abandoned(s', p)
  {
  }

  lemma RunLifecycle(g: Config, moves: seq<Move>)
    requires ValidConfig(g)
    ensures Lifecycle(After(g, moves).store)
  {
    RunKeeps(g, moves);
    hide After, Lifecycle;
  }

  lemma {:induction false} AbandonedForEver(g: Config, moves: seq<Move>, later: seq<Move>, p: nat)
    requires ValidConfig(g) && Abandoned(After(g, moves), p)
    ensures p < |After(g, moves).placements|
    ensures Stays(After(g, moves), After(g, moves + later), p) && Abandoned(After(g, moves + later), p)
  {
    hide Apply, Lifecycle, Abandoned, Dropped;
    StaysItself(After(g, moves), p);
    if later == [] {
      assert moves + later == moves;
    } else {
      var front, last := later[..|later| - 1], later[|later| - 1];
      AbandonedForEver(g, moves, front, p);
      RunLifecycle(g, moves + front);
      assert (moves + later)[..|moves + later| - 1] == moves + front;
      MoveKeepsAbandoned(g, After(g, moves + front), last, p);
      StaysAbandoned(After(g, moves + front), After(g, moves + later), p);
    }
  }

  /** Once a completed order has been dropped, stock and ledger are never exact again, whatever is
      done. Once an approved placement has failed, the ledger never is. */
  lemma NeverExactAgain(g: Config, moves: seq<Move>, later: seq<Move>, p: nat)
    requires ValidConfig(g) && Abandoned(After(g, moves), p)
    ensures !ExactlyApproved(After(g, moves + later))
    ensures Dropped(After(g, moves), p) ==> !ExactlyStocked(g, After(g, moves + later))
  {
    AbandonedForEver(g, moves, later, p);
    LedgerExactIffAllUsed(g, moves + later);
    StockExactIffAllCommitted(g, moves + later);
    RunKeeps(g, moves + later);
    hide After, ExactlyApproved, ExactlyStocked;
    AbandonedIsUnused(g, After(g, moves + later), p);
  }

  lemma AbandonedIsUnused(g: Config, s: State, p: nat)
    requires PlacementsSound(g, s) && Abandoned(s, p)
    ensures !AllApprovalsUsed(s) && (Dropped(s, p) ==> !AllCommitted(s))
  {
    hide Total, Text.OrderID, Text.PaymentID;
    assert Sound(g, s, s.placements[p]);
    assert !InDatabase(s.committed)(s.placements[p]);
  }

  // ---------- Settled states ----------

  lemma UncommittedIsDropped(g: Config, s: State)
    requires Invariant(g, s) && Settled(s) && !AllCommitted(s)
    ensures exists p :: Dropped(s, p)
  {
    hide Mirrors, Lifecycle, LedgerMatches, StockMatches, Total, Text.OrderID, Text.PaymentID, Text.TrimSpace;
    var p :| 0 <= p < |s.placements| && s.placements[p].stage == Placed && !InDatabase(s.committed)(s.placements[p]);
    assert Dropped(s, p);
  }

  lemma UnusedIsAbandoned(g: Config, s: State)
    requires Invariant(g, s) && Settled(s) && !AllApprovalsUsed(s)
    ensures exists p :: Abandoned(s, p)
  {
    hide Mirrors, Lifecycle, LedgerMatches, StockMatches, Total, Text.OrderID, Text.PaymentID, Text.TrimSpace;
    var p :| 0 <= p < |s.placements| && s.placements[p].approval.Some? && !InDatabase(s.committed)(s.placements[p]);
    assert Sound(g, s, s.placements[p]);
    assert Abandoned(s, p);
  }

  /** When every transaction has ended and every placement is finished, missing stock is missing for
      ever, and so is the difference between the ledger and the committed orders. */
  lemma LossesAreFinal(g: Config, moves: seq<Move>)
    requires ValidConfig(g) && Settled(After(g, moves))
    ensures ExactlyStocked(g, After(g, moves)) || forall later :: !ExactlyStocked(g, After(g, moves + later))
    ensures ExactlyApproved(After(g, moves)) || forall later :: !ExactlyApproved(After(g, moves + later))
  {
    RunKeeps(g, moves);
    StockExactIffAllCommitted(g, moves);
    LedgerExactIffAllUsed(g, moves);
    hide After, ExactlyStocked, ExactlyApproved, Invariant, Dropped, Abandoned, Settled;
    if !ExactlyStocked(g, After(g, moves)) {
      UncommittedIsDropped(g, After(g, moves));
      var p :| Dropped(After(g, moves), p);
      DroppedIsAbandoned(After(g, moves), p);
      forall later ensures !ExactlyStocked(g, After(g, moves + later)) {
        NeverExactAgain(g, moves, later, p);
      }
    }
    if !ExactlyApproved(After(g, moves)) {
      UnusedIsAbandoned(g, After(g, moves));
      var p :| Abandoned(After(g, moves), p);
      forall later ensures !ExactlyApproved(After(g, moves + later)) {
        NeverExactAgain(g, moves, later, p);
      }
    }
  }

  lemma DroppedIsAbandoned(s: State, p: nat)
    requires Dropped(s, p)
    ensures Abandoned(s, p)
  {
  }

  /** Some run settles with stock that is missing in every extension of the run. */
  ghost predicate LosesStockForEver(g: Config) {
    exists moves :: Settled(After(g, moves)) && forall later :: !ExactlyStocked(g, After(g, moves + later))
  }

  lemma LosesStockForEverIff(g: Config)
    requires ValidConfig(g)
    ensures LosesStockForEver(g) <==> exists q :: Sells(g, q)
  {
    LosesStockIff(g);
    hide After, Settled, ExactlyStocked, Sells;
    if LosesStock(g) {
      var moves :| StockLostIn(g, moves);
      LossesAreFinal(g, moves);
    }
    if moves :| Settled(After(g, moves)) && forall later :: !ExactlyStocked(g, After(g, moves + later)) {
      assert moves + [] == moves;
      assert StockLostIn(g, moves);
    }
  }

  // ---------- Approvals without an order ----------

  /** One order for q units is approved within a transaction, its save is refused for a cancelled
      context, the stock is given back, and the transaction is rolled back. */
  function RefusedSave(q: int): seq<Move> {
    [Storage(Connect), Storage(Begin(0)), Request(q, Within(0)), Admit(0, false), Reserve(0, false),
     Authorize(0, false), Save(0, 0, Cancellation(true, false, false)), Release(0), Storage(Rollback(0))]
  }

  function Refused(g: Config, q: int): State {
    Charging(g, q).(placements := [Placement(q, Within(0), Unsaved, 1, Some(0))])
  }

  function Compensating(g: Config, q: int): State {
    Apply(g, Refused(g, q), Release(0))
  }

  lemma RefusedStep(g: Config, q: int)
    ensures Apply(g, Charging(g, q), Save(0, 0, Cancellation(true, false, false))) == Refused(g, q)
  {
    hide RecordOf, ValidRecord, InsertIn, Text.OrderID, Text.PaymentID, Text.TrimSpace, Total;
  }

  lemma RefusedSaveReaches(g: Config, q: int)
    requires ValidConfig(g) && Sells(g, q)
    ensures After(g, RefusedSave(q)) == Apply(g, Compensating(g, q), Storage(Rollback(0)))
    ensures Invariant(g, Refused(g, q))
  {
    var moves := RefusedSave(q);
    hide After, Apply, Charging, Sells, ValidConfig, Invariant, Refused;
    SixMoves(g, q, moves);
    RefusedStep(g, q);
    NextMove(g, moves, 6, Charging(g, q));
    RunKeeps(g, moves[..7]);
    NextMove(g, moves, 7, Refused(g, q));
    NextMove(g, moves, 8, Compensating(g, q));
    assert moves[..9] == moves;
  }

  lemma CompensatingShape(g: Config, q: int)
    requires ValidConfig(g) && Invariant(g, Refused(g, q))
    ensures
      var s := Compensating(g, q);
      && s.store == Opened(g).store && s.committed == {}
      && s.placements == [Placement(q, Within(0), Failed, 1, Some(0))]
  {
    ReleaseIsExact(g, Refused(g, q), 0);
    hide Invariant, ValidConfig, Inventory.ReleaseIn, Text.OrderID, Text.PaymentID, Text.TrimSpace, Total, Key;
  }

  lemma CompensatedShape(g: Config, q: int)
    requires ValidConfig(g) && Invariant(g, Refused(g, q))
    ensures
      var s := Apply(g, Compensating(g, q), Storage(Rollback(0)));
      Settled(s) && AllCommitted(s) && !AllApprovalsUsed(s)
  {
    hide Invariant, Refused, Compensating, Total, RecordOf, Key;
    CompensatingShape(g, q);
    var s := Apply(g, Compensating(g, q), Storage(Rollback(0)));
    assert s.placements[0].approval.Some? && !InDatabase(s.committed)(s.placements[0]);
  }

  /** The run of a refused save settles with exact stock and an approval that no order uses. */
  lemma RefusedSaveLeavesApproval(g: Config, q: int)
    requires ValidConfig(g) && Sells(g, q)
    ensures
      var s := After(g, RefusedSave(q));
      Settled(s) && ExactlyStocked(g, s) && !ExactlyApproved(s)
  {
    RefusedSaveReaches(g, q);
    StockExactIffAllCommitted(g, RefusedSave(q));
    LedgerExactIffAllUsed(g, RefusedSave(q));
    hide After, RefusedSave, ExactlyStocked, ExactlyApproved, Sells, Settled, AllCommitted, AllApprovalsUsed;
    hide Apply, Compensating, Refused, Invariant, ValidConfig;
    CompensatedShape(g, q);
  }

  /** The run that loses stock leaves its approval behind as well: the ledger then exceeds the totals
      of the committed orders. */
  lemma DroppedOrderLeavesApproval(g: Config, q: int)
    requires ValidConfig(g) && Sells(g, q)
    ensures
      var s := After(g, OneOrder(q, Rollback(0)));
      Settled(s) && Sums.Sum(s.approved, Amount) > Sums.MapSum(s.store.records, TotalCents)
  {
    var moves := OneOrder(q, Rollback(0));
    DroppedOrder(g, q);
    RunKeeps(g, moves);
    StockExactIffAllCommitted(g, moves);
    LedgerExactIffAllUsed(g, moves);
    hide After, OneOrder, ExactlyStocked, Invariant;
    UncommittedIsDropped(g, After(g, moves));
    var p :| Dropped(After(g, moves), p);
    assert PlacementsSound(g, After(g, moves)) by { InvariantSound(g, After(g, moves)); }
    AbandonedIsUnused(g, After(g, moves), p);
  }

  /** Some run settles with a ledger that differs from the committed orders in every extension. */
  ghost predicate UnbalancesLedger(g: Config) {
    exists moves :: Settled(After(g, moves)) && forall later :: !ExactlyApproved(After(g, moves + later))
  }

  /** The ledger can be left with approvals that no order uses if and only if the shop can sell
      anything. */
  lemma UnbalancesLedgerIff(g: Config)
    requires ValidConfig(g)
    ensures UnbalancesLedger(g) <==> exists q :: Sells(g, q)
  {
    if moves :| Settled(After(g, moves)) && forall later :: !ExactlyApproved(After(g, moves + later)) {
      assert moves + [] == moves;
      LedgerExactIffAllUsed(g, moves);
      RunKeeps(g, moves);
      hide After, ExactlyApproved;
      ApprovalIsSale(g, After(g, moves));
    }
    if q :| Sells(g, q) {
      RefusedSaveLeavesApproval(g, q);
      LossesAreFinal(g, RefusedSave(q));
    }
  }

  lemma ApprovalIsSale(g: Config, s: State)
    requires Invariant(g, s) && !AllApprovalsUsed(s)
    ensures exists q :: Sells(g, q)
  {
    hide RecordsMatch, LedgerMatches, StockMatches, Total, Text.OrderID, Text.PaymentID, Text.TrimSpace;
    var p :| 0 <= p < |s.placements| && s.placements[p].approval.Some? && !InDatabase(s.committed)(s.placements[p]);
    assert Sound(g, s, s.placements[p]);
    assert Sells(g, s.placements[p].quantity);
  }
}
