/** Placing one order: reserve stock, authorize the payment, save the order, and give the stock back
    when the payment or the save is refused. */
module Orders {
  import opened Records
  import opened Text
  import opened MemoryStore
  import opened OrderRepository
  import opened Statements
  import opened MemoryDriver
  import Inventory
  import Payments

  /** The configuration of the three modules. The product of the orders module and the product of
      the inventory module are configured separately. */
  datatype Config = Config(
    sku: string,
    unitPriceCents: int,
    maximumCents: int,
    inventorySKU: string,
    initialStock: int
  )

  /** What the constructors of the three services accept. */
  predicate ValidConfig(g: Config) {
    && TrimSpace(g.sku) != "" && 0 < g.unitPriceCents <= MAX_INT64
    && 0 < g.maximumCents <= MAX_INT64
    && Inventory.ValidSettings(g.inventorySKU, g.initialStock) && g.initialStock <= MAX_INT64
  }

  /** Whether the caller's context is cancelled at each of the moments it is looked at. */
  datatype Checks = Checks(atStart: bool, atReserve: bool, atAuthorize: bool, atSave: Cancellation)

  /** What one uninterrupted placement can see and change. */
  datatype World = World(
    stock: Inventory.Stock,
    approved: seq<Payments.Authorization>,
    nextID: nat,
    access: Access<View>
  )

  function Total(g: Config, quantity: int): int {
    Wrap64(quantity * g.unitPriceCents)
  }

  /** Gives the stock back after a failure; a second failure replaces the first. */
  function Compensated(g: Config, w: World, quantity: int, error: Failure): (World, Result<Record>) {
    var (stock, released) := Inventory.ReleaseIn(w.stock, g.sku, quantity);
    (w.(stock := stock), Err(if released.Ok? then error else StockNotRestored))
  }

  /** Saves a paid order. */
  function RecordIn(g: Config, w: World, checks: Checks, order: Record): (World, Result<Record>) {
    var (access, saved) := SaveVia(w.access, checks.atSave, order);
    if saved.Err? then Compensated(g, w.(access := access), order.quantity, saved.error)
    else (w.(access := access), Ok(order))
  }

  /** Charges and saves a placement that holds its number and its reservation. */
  function ChargeIn(g: Config, w: World, checks: Checks, quantity: int): (World, Result<Record>) {
    var id, total := OrderID(w.nextID), Total(g, quantity);
    var (approved, payment) := Payments.AuthorizeIn(w.approved, g.maximumCents, checks.atAuthorize, id, total);
    if payment.Err? then Compensated(g, w, quantity, payment.error)
    else RecordIn(g, w.(approved := approved), checks, Record(id, g.sku, quantity, total, payment.value.id))
  }

  function PlaceIn(g: Config, w: World, checks: Checks, quantity: int): (World, Result<Record>) {
    if quantity <= 0 then (w, Err(InvalidOrder))
    else if checks.atStart then (w, Err(Cancelled))
    else
      var (stock, reservation) := Inventory.ReserveIn(w.stock, checks.atReserve, g.sku, quantity);
      var numbered := w.(nextID := w.nextID + 1, stock := stock);
      if reservation.Err? then (numbered, Err(reservation.error))
      else ChargeIn(g, numbered, checks, quantity)
  }

  class Service {
    const settings: Config
    const inventory: Inventory.Service
    const payments: Payments.Service
    var nextID: nat

    constructor (settings: Config, inventory: Inventory.Service, payments: Payments.Service)
      ensures this.settings == settings && this.inventory == inventory && this.payments == payments
      ensures nextID == 0
    {
      this.settings, this.inventory, this.payments := settings, inventory, payments;
      nextID := 0;
    }

    ghost function State(executor: Access<MemoryConnection>): World
      reads this, inventory, payments
      reads if executor.Reaching? then {executor.on, executor.on.tx, executor.on.database} else {}
    {
      World(inventory.stock, payments.approved, nextID, Seen(executor))
    }

    method AllocateID() returns (id: string)
      modifies this
      ensures nextID == old(nextID) + 1 && id == OrderID(nextID)
    {
      nextID := nextID + 1;
      return OrderID(nextID);
    }

    method Compensate(executor: Access<MemoryConnection>, quantity: int, error: Failure)
      returns (result: Result<Record>)
      modifies inventory
      ensures (State(executor), result) == Compensated(settings, old(State(executor)), quantity, error)
    {
      var released := inventory.Release(settings.sku, quantity);
      return Err(if released.Ok? then error else StockNotRestored);
    }

    method RecordOrder(executor: Access<MemoryConnection>, checks: Checks, order: Record)
      returns (result: Result<Record>)
      requires Usable(executor) && order.sku == settings.sku
      modifies inventory
      modifies if executor.Reaching? then {executor.on.database, executor.on.tx} else {}
      ensures Usable(executor)
      ensures (State(executor), result) == RecordIn(settings, old(State(executor)), checks, order)
    {
      hide SaveVia;
      var saved := Save(executor, checks.atSave, order);
      if saved.Err? {
        result := Compensate(executor, order.quantity, saved.error);
        return;
      }
      return Ok(order);
    }

    method Charge(executor: Access<MemoryConnection>, checks: Checks, orderID: string, quantity: int)
      returns (result: Result<Record>)
      requires Usable(executor) && payments.maximumCents == settings.maximumCents && orderID == OrderID(nextID)
      modifies inventory, payments
      modifies if executor.Reaching? then {executor.on.database, executor.on.tx} else {}
      ensures Usable(executor)
      ensures (State(executor), result) == ChargeIn(settings, old(State(executor)), checks, quantity)
    {
      var total := Wrap64(quantity * settings.unitPriceCents);
      var payment := payments.Authorize(checks.atAuthorize, orderID, total);
      if payment.Err? {
        result := Compensate(executor, quantity, payment.error);
        return;
      }
      var order := Record(orderID, settings.sku, quantity, total, payment.value.id);
      result := RecordOrder(executor, checks, order);
    }

    /** Returns what PlaceIn says, in one uninterrupted run through the executor, which may also be nil
        or of an ended transaction. */
    method Place(executor: Access<MemoryConnection>, checks: Checks, quantity: int)
      returns (result: Result<Record>)
      requires Usable(executor) && payments.maximumCents == settings.maximumCents
      modifies this, inventory, payments
      modifies if executor.Reaching? then {executor.on.database, executor.on.tx} else {}
      ensures Usable(executor)
      ensures (State(executor), result) == PlaceIn(settings, old(State(executor)), checks, quantity)
    {
      if quantity <= 0 {
        return Err(InvalidOrder);
      }
      if checks.atStart {
        return Err(Cancelled);
      }
      var orderID := AllocateID();
      var reservation := inventory.Reserve(checks.atReserve, settings.sku, quantity);
      if reservation.Err? {
        return Err(reservation.error);
      }
      result := Charge(executor, checks, orderID, quantity);
    }
  }

  /** Exactly a named product with a positive price is accepted, with all dependencies present. The
      model keeps no state of the repository, the pool's executor and the view publisher; for these
      it is only told whether they are there. */
  method NewService(g: Config, inventory: Inventory.Service?, payments: Payments.Service?,
                    repository: bool, executor: bool, views: bool)
    returns (result: Result<Service>)
    ensures result.Ok? <==>
              && TrimSpace(g.sku) != "" && g.unitPriceCents > 0
              && inventory != null && payments != null && repository && executor && views
    ensures result.Err? ==> result.error == InvalidOrder
    ensures result.Ok? ==>
              && fresh(result.value) && result.value.settings == g && result.value.nextID == 0
              && result.value.inventory == inventory && result.value.payments == payments
  {
    if TrimSpace(g.sku) == "" || g.unitPriceCents <= 0 {
      return Err(InvalidOrder);
    }
    if inventory == null || payments == null || !repository || !executor {
      return Err(InvalidOrder);
    }
    if !views {
      return Err(InvalidOrder);
    }
    var service := new Service(g, inventory, payments);
    return Ok(service);
  }

  /** Builds the three services: exactly the valid configurations are accepted, and placement then
      starts with the whole stock, an empty ledger and no number given out. */
  method NewServices(g: Config) returns (result: Result<Service>)
    requires IsInt64(g.unitPriceCents) && IsInt64(g.maximumCents) && IsInt64(g.initialStock)
    ensures result.Ok? <==> ValidConfig(g)
    ensures result.Ok? ==>
              && fresh(result.value) && fresh(result.value.inventory) && fresh(result.value.payments)
              && result.value.settings == g && result.value.payments.maximumCents == g.maximumCents
              && result.value.inventory.stock == map[TrimSpace(g.inventorySKU) := g.initialStock]
              && result.value.payments.approved == [] && result.value.nextID == 0
  {
    var inventory := Inventory.NewService(g.inventorySKU, g.initialStock);
    if inventory.Err? {
      return Err(inventory.error);
    }
    var payments := Payments.NewService(g.maximumCents);
    if payments.Err? {
      return Err(payments.error);
    }
    result := NewService(g, inventory.value, payments.value, true, true, true);
  }

  lemma InsertShowsRecord(v: View, r: Record)
    requires InsertIn(v, r).1.Ok?
    ensures r.id !in Visible(v) && Visible(InsertIn(v, r).0) == Visible(v)[r.id := r]
  {
  }

  /** The records that an executor can see. */
  function Shown(access: Access<View>): map<string, Record> {
    if access.Reaching? then Visible(access.on) else map[]
  }

  const SAVE_ERRORS := {Cancelled, InvalidRecord, DuplicateKey, StorageFailed}

  lemma RecordEffect(g: Config, w: World, checks: Checks, order: Record, restored: Inventory.Stock)
    requires Int64Record(order)
    requires Inventory.ReleaseIn(w.stock, g.sku, order.quantity) == (restored, Ok(()))
    ensures
      var (w', result) := RecordIn(g, w, checks, order);
      if result.Ok? then
        && result.value == order && w' == w.(access := w'.access)
        && order.id !in Shown(w.access) && Shown(w'.access) == Shown(w.access)[order.id := order]
      else result.error in SAVE_ERRORS && w' == w.(stock := restored)
  {
    if w.access.Reaching? {
      SaveIsInsert(w.access.on, checks.atSave, order);
      if InsertIn(w.access.on, order).1.Ok? {
        InsertShowsRecord(w.access.on, order);
      }
    }
  }

  function Approval(g: Config, approved: seq<Payments.Authorization>, number: nat, quantity: int)
    : Payments.Authorization
  {
    Payments.Authorization(PaymentID(|approved| + 1), OrderID(number), Total(g, quantity))
  }

  function Order(g: Config, approval: Payments.Authorization, quantity: int): Record {
    Record(approval.reference, g.sku, quantity, approval.amount, approval.id)
  }

  /** What a placement that got its reservation comes to: the completed order, or the stock from
      before the reservation, possibly with an approval left behind. */
  ghost predicate Charged(g: Config, w: World, quantity: int, restored: Inventory.Stock,
                          w': World, result: Result<Record>)
  {
    var approval := Approval(g, w.approved, w.nextID, quantity);
    var order := Order(g, approval, quantity);
    if result.Ok? then
      && result.value == order && 0 < order.totalCents <= g.maximumCents
      && w' == w.(access := w'.access, approved := w.approved + [approval])
      && order.id !in Shown(w.access) && Shown(w'.access) == Shown(w.access)[order.id := order]
    else
      || (result.error in {Cancelled, InvalidPayment, Declined} && w' == w.(stock := restored))
      || (result.error in SAVE_ERRORS && w' == w.(stock := restored, approved := w.approved + [approval]))
  }

  lemma ChargeEffect(g: Config, w: World, checks: Checks, quantity: int, restored: Inventory.Stock)
    requires IsInt64(quantity)
    requires Inventory.ReleaseIn(w.stock, g.sku, quantity) == (restored, Ok(()))
    ensures Charged(g, w, quantity, restored, ChargeIn(g, w, checks, quantity).0, ChargeIn(g, w, checks, quantity).1)
  {
    var approval := Approval(g, w.approved, w.nextID, quantity);
    WrapExact(quantity * g.unitPriceCents);
    RecordEffect(g, w.(approved := w.approved + [approval]), checks, Order(g, approval, quantity), restored);
  }

  /** A placement succeeds with exactly one reservation, one approval for its total and one new
      record, or it fails with stock and records as they were; an approval then stays behind only
      when the save was what failed. The double failure never happens. */
  ghost predicate AllOrNothing(g: Config, w: World, checks: Checks, quantity: int, w': World, result: Result<Record>) {
    var approval := Approval(g, w.approved, w.nextID + 1, quantity);
    var order := Order(g, approval, quantity);
    && w'.nextID == (if quantity <= 0 || checks.atStart then w.nextID else w.nextID + 1)
    && result != Err(StockNotRestored)
    && if result.Ok? then
         && result.value == order && 0 < order.totalCents <= g.maximumCents
         && g.sku in w.stock && 0 < quantity <= w.stock[g.sku]
         && w'.stock == w.stock[g.sku := w.stock[g.sku] - quantity]
         && w'.approved == w.approved + [approval]
         && order.id !in Shown(w.access) && Shown(w'.access) == Shown(w.access)[order.id := order]
       else
         && w'.stock == w.stock && w'.access == w.access
         && (w'.approved == w.approved
             || (w'.approved == w.approved + [approval] && result.error in SAVE_ERRORS))
  }

  lemma ChargedIsAllOrNothing(g: Config, w: World, checks: Checks, quantity: int, w': World, result: Result<Record>)
    requires quantity > 0 && !checks.atStart
    requires Inventory.ReserveIn(w.stock, checks.atReserve, g.sku, quantity).1.Ok?
    requires
      var stock := Inventory.ReserveIn(w.stock, checks.atReserve, g.sku, quantity).0;
      Charged(g, w.(nextID := w.nextID + 1, stock := stock), quantity, w.stock, w', result)
    ensures AllOrNothing(g, w, checks, quantity, w', result)
  {
  }

  lemma PlaceAllOrNothing(g: Config, w: World, checks: Checks, quantity: int)
    requires forall sku :: sku in w.stock ==> IsInt64(w.stock[sku])
    ensures AllOrNothing(g, w, checks, quantity, PlaceIn(g, w, checks, quantity).0, PlaceIn(g, w, checks, quantity).1)
  {
    if quantity > 0 && !checks.atStart {
      var (stock, reservation) := Inventory.ReserveIn(w.stock, checks.atReserve, g.sku, quantity);
      if reservation.Ok? {
        Inventory.ReleaseUndoesReserve(w.stock, g.sku, quantity);
        var numbered := w.(nextID := w.nextID + 1, stock := stock);
        ChargeEffect(g, numbered, checks, quantity, w.stock);
        var (w', result) := ChargeIn(g, numbered, checks, quantity);
        ChargedIsAllOrNothing(g, w, checks, quantity, w', result);
      }
    }
  }

  /** The executor reaches a connection where a record with this ID can be inserted. */
  predicate Free(access: Access<View>, id: string) {
    access.Reaching? && id !in Visible(access.on) && (access.on.overlay.Some? || access.on.schema)
  }

  /** When a placement goes through: nothing is cancelled, the stock suffices, the wrapped total is
      within the policy, and the executor reaches a connection where the next order ID is free. */
  predicate Succeeds(g: Config, w: World, checks: Checks, quantity: int) {
    && !checks.atStart && !checks.atReserve && !checks.atAuthorize
    && !checks.atSave.before && !checks.atSave.inDriver
    && TrimSpace(g.sku) != "" && g.sku in w.stock && 0 < quantity <= w.stock[g.sku]
    && 0 < Total(g, quantity) <= g.maximumCents
    && Free(w.access, OrderID(w.nextID + 1))
  }

  lemma InsertAcceptedIff(v: View, r: Record)
    ensures InsertIn(v, r).1.Ok? <==> r.id !in Visible(v) && (v.overlay.Some? || v.schema)
  {
  }

  lemma RecordSucceedsIff(g: Config, w: World, checks: Checks, approval: Payments.Authorization, quantity: int)
    requires IsInt64(quantity) && quantity > 0 && IsInt64(approval.amount) && approval.amount > 0
    requires TrimSpace(approval.id) != "" && TrimSpace(approval.reference) != ""
    ensures RecordIn(g, w, checks, Order(g, approval, quantity)).1.Ok?
       <==> !checks.atSave.before && !checks.atSave.inDriver && TrimSpace(g.sku) != ""
            && Free(w.access, approval.reference)
  {
    if w.access.Reaching? {
      SaveIsInsert(w.access.on, checks.atSave, Order(g, approval, quantity));
      InsertAcceptedIff(w.access.on, Order(g, approval, quantity));
    }
    hide SaveIn, InsertIn, TrimSpace, Visible;
  }

  lemma ChargeSucceedsIff(g: Config, w: World, checks: Checks, quantity: int)
    requires IsInt64(quantity) && quantity > 0
    ensures ChargeIn(g, w, checks, quantity).1.Ok?
       <==> !checks.atAuthorize && 0 < Total(g, quantity) <= g.maximumCents
            && !checks.atSave.before && !checks.atSave.inDriver && TrimSpace(g.sku) != ""
            && Free(w.access, OrderID(w.nextID))
  {
    var approval := Approval(g, w.approved, w.nextID, quantity);
    WrapExact(quantity * g.unitPriceCents);
    IdentifiersTrimmed(w.nextID);
    IdentifiersTrimmed(|w.approved| + 1);
    hide RecordIn, TrimSpace, Free, OrderID, PaymentID, Wrap64;
    if 0 < Total(g, quantity) {
      RecordSucceedsIff(g, w.(approved := w.approved + [approval]), checks, approval, quantity);
    }
  }

  /** A placement completes its order if and only if nothing stands in its way. */
  lemma PlaceSucceedsIff(g: Config, w: World, checks: Checks, quantity: int)
    requires forall sku :: sku in w.stock ==> IsInt64(w.stock[sku])
    ensures PlaceIn(g, w, checks, quantity).1.Ok? <==> Succeeds(g, w, checks, quantity)
  {
    hide ChargeIn, TrimSpace, Free, OrderID, Total;
    var (stock, reservation) := Inventory.ReserveIn(w.stock, checks.atReserve, g.sku, quantity);
    if quantity > 0 && reservation.Ok? {
      ChargeSucceedsIff(g, w.(nextID := w.nextID + 1, stock := stock), checks, quantity);
    }
    assert TrimSpace(g.sku) != "" ==> g.sku != "" by {
      if TrimSpace(g.sku) != "" { NonBlankIsNonEmpty(g.sku); }
    }
  }

  /** A nil executor and that of an ended transaction have the same effect: the order is charged for,
      refused at the save, and compensated. Only the error may differ. */
  lemma NilLikeDone(g: Config, w: World, checks: Checks, quantity: int)
    requires w.access.NilExecutor?
    ensures
      var (nil, refusal) := PlaceIn(g, w, checks, quantity);
      var (done, refusal') := PlaceIn(g, w.(access := DoneExecutor), checks, quantity);
      && nil == done.(access := NilExecutor)
      && refusal.Err? && refusal'.Err?
      && (refusal != refusal' ==> refusal == Err(StorageFailed) && refusal' == Err(Cancelled))
  {
    hide ValidRecord, TrimSpace, OrderID, PaymentID, Total;
  }

  // ---------- Which refusal a placement gets ----------

  /** Up to the payment: the reasons are looked at in this order, and each is reported exactly when it
      is the first one that holds. */
  lemma PlaceRefusals(g: Config, w: World, checks: Checks, quantity: int)
    requires g.sku != "" && forall sku :: sku in w.stock ==> IsInt64(w.stock[sku])
    ensures
      var error := PlaceIn(g, w, checks, quantity).1;
      var started := quantity > 0 && !checks.atStart;
      var stocked := started && !checks.atReserve && g.sku in w.stock && quantity <= w.stock[g.sku];
      var paid := stocked && !checks.atAuthorize && 0 < Total(g, quantity) <= g.maximumCents;
      && (error == Err(InvalidOrder) <==> quantity <= 0)
      && (error == Err(InsufficientStock) <==> started && !checks.atReserve && !stocked)
      && (error == Err(InvalidPayment) <==> stocked && !checks.atAuthorize && Total(g, quantity) <= 0)
      && (error == Err(Declined) <==>
            stocked && !checks.atAuthorize && 0 < Total(g, quantity) && g.maximumCents < Total(g, quantity))
      && (error == Err(Cancelled) ==> paid || checks.atStart || checks.atReserve || checks.atAuthorize)
      && (started && checks.atReserve ==> error == Err(Cancelled))
      && (stocked && checks.atAuthorize ==> error == Err(Cancelled))
      && (quantity > 0 && checks.atStart ==> error == Err(Cancelled))
      && (paid && error.Err? ==>
            error.error in SAVE_ERRORS
            && var order := Order(g, Approval(g, w.approved, w.nextID + 1, quantity), quantity);
               SaveVia(w.access, checks.atSave, order).1 == Err(error.error))
  {
    var (stock, reservation) := Inventory.ReserveIn(w.stock, checks.atReserve, g.sku, quantity);
    Inventory.ReserveOutcome(w.stock, checks.atReserve, g.sku, quantity);
    hide ChargeIn, Total, Inventory.ReserveIn, SaveVia, OrderID, PaymentID;
    if quantity > 0 && !checks.atStart && reservation.Ok? {
      assert w.stock[g.sku := w.stock[g.sku]] == w.stock;
      ChargeRefusals(g, w.(nextID := w.nextID + 1, stock := stock), checks, quantity);
    }
  }

  /** The refusal of the save is handed on. */
  lemma RefusedAsSaved(g: Config, w: World, checks: Checks, order: Record, restored: Inventory.Stock)
    requires Inventory.ReleaseIn(w.stock, g.sku, order.quantity) == (restored, Ok(()))
    ensures
      var result, saved := RecordIn(g, w, checks, order).1, SaveVia(w.access, checks.atSave, order).1;
      result.Err? ==> saved == Err(result.error)
  {
    hide SaveVia;
  }

  lemma ChargeRefusals(g: Config, w: World, checks: Checks, quantity: int)
    requires IsInt64(quantity) && quantity > 0 && g.sku != "" && g.sku in w.stock
    ensures
      var error := ChargeIn(g, w, checks, quantity).1;
      && (checks.atAuthorize ==> error == Err(Cancelled))
      && (!checks.atAuthorize && Total(g, quantity) <= 0 ==> error == Err(InvalidPayment))
      && (!checks.atAuthorize && 0 < Total(g, quantity) && g.maximumCents < Total(g, quantity) ==>
            error == Err(Declined))
      && (!checks.atAuthorize && 0 < Total(g, quantity) <= g.maximumCents && error.Err? ==>
            error.error in SAVE_ERRORS
            && var order := Order(g, Approval(g, w.approved, w.nextID, quantity), quantity);
               SaveVia(w.access, checks.atSave, order).1 == Err(error.error))
  {
    var approval := Approval(g, w.approved, w.nextID, quantity);
    WrapExact(quantity * g.unitPriceCents);
    IdentifiersTrimmed(w.nextID);
    Inventory.ReleaseOutcome(w.stock, g.sku, quantity);
    var restored := Inventory.ReleaseIn(w.stock, g.sku, quantity).0;
    RecordEffect(g, w.(approved := w.approved + [approval]), checks, Order(g, approval, quantity), restored);
    RefusedAsSaved(g, w.(approved := w.approved + [approval]), checks, Order(g, approval, quantity), restored);
    hide RecordIn, SaveVia, TrimSpace, OrderID, PaymentID, Wrap64, Inventory.ReleaseIn;
  }
}
