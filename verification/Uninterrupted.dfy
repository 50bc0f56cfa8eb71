/** The steps of one placement, run without interruption, are the service's place operation; when
    it completes depends on the context, the stock and the payment policy only. */
module Uninterrupted {
  import opened Records
  import opened MemoryStore
  import opened OrderRepository
  import opened Orders
  import opened Saga
  import opened SagaInvariant
  import opened SagaTheorems
  import Text
  import Inventory
  import Payments

  /** The connection, if there is one, exists. */
  predicate Linked(s: State, connection: Option<nat>) {
    connection.Some? ==> Connected(s.store, connection.value)
  }

  /** What a placement has access to that saves through this connection, or through the executor of
      a transaction that has ended. */
  function AccessOf(s: State, connection: Option<nat>): Access<View>
    requires Linked(s, connection)
  {
    if connection.Some? then Reaching(ViewOf(s.store, connection.value)) else DoneExecutor
  }

  function WorldOf(s: State, connection: Option<nat>): World
    requires Linked(s, connection)
  {
    World(s.stock, s.approved, s.nextID, AccessOf(s, connection))
  }

  /** From the approval on: save, and release if that was refused. */
  function Finish(g: Config, s: State, p: nat, c: nat, checks: Checks): State {
    Apply(g, Apply(g, s, Save(p, c, checks.atSave)), Release(p))
  }

  /** From the reservation on: authorize, then finish. Moves that do not apply change nothing. */
  function Continue(g: Config, s: State, p: nat, c: nat, checks: Checks): State {
    Finish(g, Apply(g, s, Authorize(p, checks.atAuthorize)), p, c, checks)
  }

  function PlaceAlone(g: Config, s: State, p: nat, c: nat, checks: Checks): State {
    Continue(g, Apply(g, Apply(g, s, Admit(p, checks.atStart)), Reserve(p, checks.atReserve)), p, c, checks)
  }

  /** The placement ended as the operation says, and left the world as it says. */
  ghost predicate Agrees(g: Config, s: State, p: nat, connection: Option<nat>, w: World, result: Result<Record>) {
    && p < |s.placements| && Linked(s, connection) && WorldOf(s, connection) == w
    && s.placements[p].stage in {Rejected, Failed, Placed}
    && (s.placements[p].stage == Placed <==> result.Ok?)
    && (result.Ok? ==> result.value == RecordOf(g, s.placements[p]))
  }

  lemma ReleaseMove(g: Config, s: State, p: nat, restored: Inventory.Stock)
    requires At(s, p, Unpaid) || At(s, p, Unsaved)
    requires Inventory.ReleaseIn(s.stock, g.sku, s.placements[p].quantity) == (restored, Ok(()))
    ensures Apply(g, s, Release(p)) == With(s.(stock := restored), p, s.placements[p].(stage := Failed))
  {
    hide Inventory.ReleaseIn;
  }

  lemma ReleaseCompensates(g: Config, s: State, p: nat, connection: Option<nat>, error: Failure)
    requires ValidConfig(g) && Invariant(g, s) && Linked(s, connection)
    requires At(s, p, Unpaid) || At(s, p, Unsaved)
    ensures
      var (w, result) := Compensated(g, WorldOf(s, connection), s.placements[p].quantity, error);
      Agrees(g, Apply(g, s, Release(p)), p, connection, w, result)
  {
    ReleaseIsExact(g, s, p);
    hide Inventory.ReleaseIn, Invariant, ValidConfig, ViewOf, RecordOf, Key, Apply;
    ReleaseMove(g, s, p, s.stock[Key(g) := s.stock[Key(g)] + s.placements[p].quantity]);
  }

  /** A save on a connection leaves every connection in place, and this one with the saved view. */
  lemma SaveKeepsConnection(s: Store, c: nat, cancellation: Cancellation, r: Record)
    requires Lifecycle(s) && Connected(s, c)
    ensures
      var s' := SaveThrough(s, c, cancellation, r).0;
      && Connected(s', c)
      && ViewOf(s', c) == (if Accepts(ViewOf(s, c), cancellation, r) then InsertIn(ViewOf(s, c), r).0 else ViewOf(s, c))
  {
    hide ValidRecord;
  }

  /** A save through the executor of an ended transaction changes nothing but the stage. */
  lemma SaveDoneStep(g: Config, s: State, p: nat, c: nat, cancellation: Cancellation)
    requires At(s, p, Authorized) && !Waits(s, p, c) && SaveConnection(s, p, c) == None
    ensures Apply(g, s, Save(p, c, cancellation)) == With(s, p, s.placements[p].(stage := Unsaved))
    ensures SaveVia(DoneExecutor, cancellation, RecordOf(g, s.placements[p])).1.Err?
  {
    hide RecordOf, ValidRecord;
  }

  lemma SaveOpenStep(g: Config, s: State, p: nat, c: nat, checks: Checks, connection: nat)
    requires ValidConfig(g) && Invariant(g, s) && At(s, p, Authorized) && !Waits(s, p, c)
    requires SaveConnection(s, p, c) == Some(connection)
    ensures
      var r, s' := RecordOf(g, s.placements[p]), Apply(g, s, Save(p, c, checks.atSave));
      && Connected(s.store, connection) && Connected(s'.store, connection)
      && var (view, result) := SaveIn(ViewOf(s.store, connection), checks.atSave, r);
      && ViewOf(s'.store, connection) == view
      && s' == s.(store := s'.store, placements := s'.placements)
      && s'.placements == s.placements[p := s.placements[p].(stage := if result.Ok? then Placed else Unsaved)]
  {
    hide RecordOf, ValidRecord, SaveIn, Accepts, Invariant;
    SaveAccepted(g, s, p, c);
    var r := RecordOf(g, s.placements[p]);
    SaveIsInsert(ViewOf(s.store, connection), checks.atSave, r);
    assert Lifecycle(s.store) by { InvariantLifecycle(g, s); }
    SaveKeepsConnection(s.store, connection, checks.atSave, r);
  }

  lemma SaveStep(g: Config, s: State, p: nat, c: nat, checks: Checks, connection: Option<nat>)
    requires ValidConfig(g) && Invariant(g, s) && At(s, p, Authorized) && !Waits(s, p, c)
    requires SaveConnection(s, p, c) == connection
    ensures
      var r, s' := RecordOf(g, s.placements[p]), Apply(g, s, Save(p, c, checks.atSave));
      && Linked(s, connection) && Linked(s', connection)
      && var (access, result) := SaveVia(AccessOf(s, connection), checks.atSave, r);
      && AccessOf(s', connection) == access
      && s' == s.(store := s'.store, placements := s'.placements)
      && s'.placements == s.placements[p := s.placements[p].(stage := if result.Ok? then Placed else Unsaved)]
  {
    hide RecordOf, ValidRecord, SaveIn, Invariant, Apply, ViewOf, ValidConfig;
    if connection.Some? {
      SaveOpenStep(g, s, p, c, checks, connection.value);
    } else {
      SaveDoneStep(g, s, p, c, checks.atSave);
    }
  }

  lemma InvariantLifecycle(g: Config, s: State)
    requires Invariant(g, s)
    ensures Lifecycle(s.store)
  {
  }

  lemma FinishRefused(g: Config, s: State, p: nat, c: nat, checks: Checks, connection: Option<nat>)
    requires ValidConfig(g) && Invariant(g, s) && At(s, p, Authorized) && !Waits(s, p, c)
    requires SaveConnection(s, p, c) == connection && Linked(s, connection)
    requires SaveVia(AccessOf(s, connection), checks.atSave, RecordOf(g, s.placements[p])).1.Err?
    ensures
      var (w, result) := RecordIn(g, WorldOf(s, connection), checks, RecordOf(g, s.placements[p]));
      Agrees(g, Finish(g, s, p, c, checks), p, connection, w, result)
  {
    hide Invariant, SaveVia, Compensated, Apply, Agrees, ValidConfig, RecordOf;
    var r, saved := RecordOf(g, s.placements[p]), Apply(g, s, Save(p, c, checks.atSave));
    var (access, refusal) := SaveVia(AccessOf(s, connection), checks.atSave, r);
    SaveStep(g, s, p, c, checks, connection);
    SaveKeeps(g, s, p, c, checks.atSave);
    ReleaseCompensates(g, saved, p, connection, refusal.error);
    assert WorldOf(saved, connection) == WorldOf(s, connection).(access := access);
    RecordQuantity(g, s.placements[p]);
  }

  lemma RecordQuantity(g: Config, x: Placement)
    ensures RecordOf(g, x).quantity == x.quantity
  {
  }

  lemma FinishSaved(g: Config, s: State, p: nat, c: nat, checks: Checks, connection: Option<nat>)
    requires ValidConfig(g) && Invariant(g, s) && At(s, p, Authorized) && !Waits(s, p, c)
    requires SaveConnection(s, p, c) == connection && Linked(s, connection)
    requires SaveVia(AccessOf(s, connection), checks.atSave, RecordOf(g, s.placements[p])).1.Ok?
    ensures
      var (w, result) := RecordIn(g, WorldOf(s, connection), checks, RecordOf(g, s.placements[p]));
      Agrees(g, Finish(g, s, p, c, checks), p, connection, w, result)
  {
    hide Invariant, SaveVia, Compensated, SaveThrough, ValidConfig, RecordOf;
    var saved := Apply(g, s, Save(p, c, checks.atSave));
    SaveStep(g, s, p, c, checks, connection);
    RecordIgnoresStage(g, s.placements[p], saved.placements[p]);
    NothingToRelease(g, saved, p);
    hide Apply;
  }

  lemma NothingToRelease(g: Config, s: State, p: nat)
    requires !At(s, p, Unpaid) && !At(s, p, Unsaved)
    ensures Apply(g, s, Release(p)) == s
  {
  }

  lemma FinishIsRecordIn(g: Config, s: State, p: nat, c: nat, checks: Checks, connection: Option<nat>)
    requires ValidConfig(g) && Invariant(g, s) && At(s, p, Authorized) && !Waits(s, p, c)
    requires SaveConnection(s, p, c) == connection
    ensures Linked(s, connection)
    ensures
      var (w, result) := RecordIn(g, WorldOf(s, connection), checks, RecordOf(g, s.placements[p]));
      Agrees(g, Finish(g, s, p, c, checks), p, connection, w, result)
  {
    InvariantLifecycle(g, s);
    hide Invariant, ValidConfig, RecordIn, Finish, SaveVia, Agrees, WorldOf, RecordOf;
    if SaveVia(AccessOf(s, connection), checks.atSave, RecordOf(g, s.placements[p])).1.Ok? {
      FinishSaved(g, s, p, c, checks, connection);
    } else {
      FinishRefused(g, s, p, c, checks, connection);
    }
  }

  lemma NothingToSave(g: Config, s: State, p: nat, c: nat, checks: Checks)
    requires !At(s, p, Authorized)
    ensures Finish(g, s, p, c, checks) == Apply(g, s, Release(p))
  {
  }

  /** The ledger, the counter and the placement right after an authorization. */
  lemma AuthorizeStep(g: Config, s: State, p: nat, cancelled: bool, connection: Option<nat>)
    requires At(s, p, Reserved) && Linked(s, connection)
    ensures
      var x, s' := s.placements[p], Apply(g, s, Authorize(p, cancelled));
      var (approved, payment) :=
        Payments.AuthorizeIn(s.approved, g.maximumCents, cancelled, Text.OrderID(x.number), Total(g, x.quantity));
      && Linked(s', connection)
      && WorldOf(s', connection) == WorldOf(s, connection).(approved := approved)
      && (if payment.Err? then At(s', p, Unpaid) && approved == s.approved
          else At(s', p, Authorized) && payment.value.id == Text.PaymentID(|s.approved| + 1)
               && s'.placements[p].approval == Some(|s.approved|))
      && s'.store == s.store
      && s'.placements[p] == x.(stage := s'.placements[p].stage, approval := s'.placements[p].approval)
  {
    hide Text.OrderID, Text.PaymentID, Text.TrimSpace, Total;
  }

  lemma ContinueIsChargeIn(g: Config, s: State, p: nat, c: nat, checks: Checks, connection: Option<nat>)
    requires ValidConfig(g) && Invariant(g, s) && At(s, p, Reserved) && !Waits(s, p, c)
    requires SaveConnection(s, p, c) == connection && s.placements[p].number == s.nextID
    ensures Linked(s, connection)
    ensures
      var (w, result) := ChargeIn(g, WorldOf(s, connection), checks, s.placements[p].quantity);
      Agrees(g, Continue(g, s, p, c, checks), p, connection, w, result)
  {
    hide Invariant, ValidConfig, Compensated, RecordIn, Finish, Agrees, Total, Apply, Payments.AuthorizeIn;
    hide Text.OrderID, Text.PaymentID, Lifecycle, ViewOf;
    InvariantLifecycle(g, s);
    SaveConnectionExists(s, p, c);
    AuthorizeKeeps(g, s, p, checks.atAuthorize);
    AuthorizeStep(g, s, p, checks.atAuthorize, connection);
    var s' := Apply(g, s, Authorize(p, checks.atAuthorize));
    var (approved, payment) :=
      Payments.AuthorizeIn(s.approved, g.maximumCents, checks.atAuthorize,
                           Text.OrderID(s.nextID), Total(g, s.placements[p].quantity));
    if payment.Err? {
      ReleaseCompensates(g, s', p, connection, payment.error);
      NothingToSave(g, s', p, c, checks);
    } else {
      FinishIsRecordIn(g, s', p, c, checks, connection);
    }
  }

  lemma SaveConnectionExists(s: State, p: nat, c: nat)
    requires Lifecycle(s.store) && p < |s.placements| && !Waits(s, p, c)
    ensures Linked(s, SaveConnection(s, p, c))
  {
  }

  /** From any reachable state, the steps of one placement in a row end as the place operation does,
      with the same stock, ledger, counter and view, and with the same order if it succeeds. */
  lemma PlaceAloneIsPlaceIn(g: Config, moves: seq<Move>, p: nat, c: nat, checks: Checks, connection: Option<nat>)
    requires ValidConfig(g) && At(After(g, moves), p, Requested) && !Waits(After(g, moves), p, c)
    requires SaveConnection(After(g, moves), p, c) == connection
    ensures Linked(After(g, moves), connection)
    ensures
      var s := After(g, moves);
      var (w, result) := PlaceIn(g, WorldOf(s, connection), checks, s.placements[p].quantity);
      Agrees(g, PlaceAlone(g, s, p, c, checks), p, connection, w, result)
  {
    RunKeeps(g, moves);
    hide After;
    PlacesAlone(g, After(g, moves), p, c, checks, connection);
  }

  /** Moves that do not apply to a finished placement. */
  lemma NothingToContinue(g: Config, s: State, p: nat, c: nat, checks: Checks)
    requires At(s, p, Rejected) || At(s, p, Failed)
    ensures Continue(g, s, p, c, checks) == s
    ensures Apply(g, s, Reserve(p, checks.atReserve)) == s
  {
  }

  /** Counter, stock and placement after admission and reservation. */
  lemma ReserveStep(g: Config, s: State, p: nat, checks: Checks)
    requires At(s, p, Requested) && s.placements[p].quantity > 0 && !checks.atStart
    ensures
      var x := s.placements[p];
      var s' := Apply(g, Apply(g, s, Admit(p, checks.atStart)), Reserve(p, checks.atReserve));
      var (stock, reservation) := Inventory.ReserveIn(s.stock, checks.atReserve, g.sku, x.quantity);
      && At(Apply(g, s, Admit(p, checks.atStart)), p, Numbered)
      && s' == s.(nextID := s.nextID + 1, stock := stock,
                  placements := s.placements[p := x.(number := s.nextID + 1,
                                                     stage := if reservation.Ok? then Reserved else Failed)])
  {
  }

  lemma RefusedAlone(g: Config, s: State, p: nat, c: nat, checks: Checks, connection: Option<nat>)
    requires At(s, p, Requested) && Linked(s, connection)
    requires s.placements[p].quantity <= 0 || checks.atStart
    ensures
      var (w, result) := PlaceIn(g, WorldOf(s, connection), checks, s.placements[p].quantity);
      Agrees(g, PlaceAlone(g, s, p, c, checks), p, connection, w, result)
  {
    hide Continue, ChargeIn, RecordOf;
    NothingToContinue(g, Apply(g, s, Admit(p, checks.atStart)), p, c, checks);
  }

  lemma ProceedsAlone(g: Config, s: State, p: nat, c: nat, checks: Checks, connection: Option<nat>)
    requires ValidConfig(g) && Invariant(g, s) && At(s, p, Requested) && !Waits(s, p, c)
    requires SaveConnection(s, p, c) == connection && Linked(s, connection)
    requires s.placements[p].quantity > 0 && !checks.atStart
    ensures
      var (w, result) := PlaceIn(g, WorldOf(s, connection), checks, s.placements[p].quantity);
      Agrees(g, PlaceAlone(g, s, p, c, checks), p, connection, w, result)
  {
    hide Invariant, ValidConfig, ChargeIn, Continue, Apply, Inventory.ReserveIn, RecordOf;
    var admitted := Apply(g, s, Admit(p, checks.atStart));
    var reserved := Apply(g, admitted, Reserve(p, checks.atReserve));
    ReserveStep(g, s, p, checks);
    if At(reserved, p, Reserved) {
      AdmitKeeps(g, s, p, checks.atStart);
      ReserveKeeps(g, admitted, p, checks.atReserve);
      ContinueIsChargeIn(g, reserved, p, c, checks, connection);
    } else {
      NothingToContinue(g, reserved, p, c, checks);
      assert Inventory.ReserveIn(s.stock, checks.atReserve, g.sku, s.placements[p].quantity).1.Err?;
    }
  }

  lemma PlacesAlone(g: Config, s: State, p: nat, c: nat, checks: Checks, connection: Option<nat>)
    requires ValidConfig(g) && Invariant(g, s) && At(s, p, Requested) && !Waits(s, p, c)
    requires SaveConnection(s, p, c) == connection
    ensures Linked(s, connection)
    ensures
      var (w, result) := PlaceIn(g, WorldOf(s, connection), checks, s.placements[p].quantity);
      Agrees(g, PlaceAlone(g, s, p, c, checks), p, connection, w, result)
  {
    InvariantLifecycle(g, s);
    hide Invariant, ValidConfig, PlaceIn, PlaceAlone, Agrees, WorldOf;
    if s.placements[p].quantity <= 0 || checks.atStart {
      RefusedAlone(g, s, p, c, checks, connection);
    } else {
      ProceedsAlone(g, s, p, c, checks, connection);
    }
  }

  // ---------- When a placement completes ----------

  /** The number that comes next is not among the records yet. */
  lemma NextIDIsNew(g: Config, s: State, m: map<string, Record>, chosen: Placement -> bool)
    requires PlacementsSound(g, s) && Mirrors(g, s.placements, m, chosen)
    requires forall x :: chosen(x) ==> x.stage == Placed
    ensures Text.OrderID(s.nextID + 1) !in m
  {
    var id := Text.OrderID(s.nextID + 1);
    if id in m {
      assert Backed(g, s.placements, id, m[id], chosen);
      var i :| 0 <= i < |s.placements| && chosen(s.placements[i]) && Text.OrderID(s.placements[i].number) == id;
      assert Sound(g, s, s.placements[i]);
      Text.OrderIDsInjective(s.placements[i].number, s.nextID + 1);
    }
  }

  lemma NextIDIsFree(g: Config, s: State, connection: Option<nat>)
    requires Invariant(g, s) && Linked(s, connection)
    ensures Free(AccessOf(s, connection), Text.OrderID(s.nextID + 1)) <==> connection.Some?
  {
    hide Mirrors, Text.OrderID;
    NextIDIsNew(g, s, s.store.records, InDatabase(s.committed));
    if connection.Some? && s.store.current[connection.value].Some? {
      var t := s.store.current[connection.value].value;
      NextIDIsNew(g, s, s.store.transactions[t].overlay.records, StagedIn(t));
    }
  }

  /** Nothing but the context, the stock and the payment policy decides. */
  predicate Unopposed(g: Config, s: State, checks: Checks, quantity: int) {
    && !checks.atStart && !checks.atReserve && !checks.atAuthorize
    && !checks.atSave.before && !checks.atSave.inDriver
    && g.sku in s.stock && 0 < quantity <= s.stock[g.sku]
    && 0 < Total(g, quantity) <= g.maximumCents
  }

  lemma SucceedsIsUnopposed(g: Config, s: State, w: World, checks: Checks, quantity: int)
    requires Text.TrimSpace(g.sku) != "" && w.stock == s.stock
    ensures Succeeds(g, w, checks, quantity)
       <==> Free(w.access, Text.OrderID(w.nextID + 1)) && Unopposed(g, s, checks, quantity)
  {
    hide Text.TrimSpace, Free, Text.OrderID, Total;
  }

  lemma UnopposedSucceeds(g: Config, s: State, checks: Checks, connection: Option<nat>, quantity: int)
    requires ValidConfig(g) && Invariant(g, s) && Linked(s, connection)
    ensures PlaceIn(g, WorldOf(s, connection), checks, quantity).1.Ok?
       <==> connection.Some? && Unopposed(g, s, checks, quantity)
  {
    hide Invariant, ValidConfig, PlaceIn, Succeeds, Unopposed;
    hide Linked, Free, AccessOf, Text.TrimSpace, Text.OrderID, IsInt64;
    NextIDIsFree(g, s, connection);
    StockIsInt64(g, s);
    ProductIsNamed(g);
    PlaceSucceedsIff(g, WorldOf(s, connection), checks, quantity);
    SucceedsIsUnopposed(g, s, WorldOf(s, connection), checks, quantity);
  }

  lemma ProductIsNamed(g: Config)
    requires ValidConfig(g)
    ensures Text.TrimSpace(g.sku) != ""
  {
  }

  lemma StockIsInt64(g: Config, s: State)
    requires ValidConfig(g) && Invariant(g, s)
    ensures forall sku :: sku in s.stock ==> IsInt64(s.stock[sku])
  {
    StockBounds(g, s);
  }

  /** From any reachable state, an uninterrupted placement that gets its connection, or needs none,
      completes if and only if its transaction, if it is given one, is open, nothing is cancelled, the
      stock suffices and the total is within the policy. */
  lemma PlacedAloneIff(g: Config, moves: seq<Move>, p: nat, c: nat, checks: Checks)
    requires ValidConfig(g) && At(After(g, moves), p, Requested) && !Waits(After(g, moves), p, c)
    ensures
      var s := After(g, moves);
      At(PlaceAlone(g, s, p, c, checks), p, Placed)
      <==> SaveConnection(s, p, c).Some? && Unopposed(g, s, checks, s.placements[p].quantity)
  {
    var connection := SaveConnection(After(g, moves), p, c);
    PlaceAloneIsPlaceIn(g, moves, p, c, checks, connection);
    RunKeeps(g, moves);
    hide After, PlaceAlone, PlaceIn, Unopposed, Invariant, ValidConfig;
    UnopposedSucceeds(g, After(g, moves), checks, connection, After(g, moves).placements[p].quantity);
  }
}
