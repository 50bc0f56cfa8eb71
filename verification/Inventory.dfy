/** Stock of the configured products. */
module Inventory {
  import opened Records
  import opened Text

  type Stock = map<string, int>

  /** Missing products count as zero. */
  function Available(stock: Stock, sku: string): int {
    if sku in stock then stock[sku] else 0
  }

  function ReserveIn(stock: Stock, cancelled: bool, sku: string, quantity: int): (Stock, Result<()>) {
    if cancelled then (stock, Err(Cancelled))
    else if sku == "" || quantity <= 0 then (stock, Err(InvalidReservation))
    else if Available(stock, sku) < quantity then (stock, Err(InsufficientStock))
    else (stock[sku := Available(stock, sku) - quantity], Ok(()))
  }

  function ReleaseIn(stock: Stock, sku: string, quantity: int): (Stock, Result<()>) {
    if sku == "" || quantity <= 0 then (stock, Err(InvalidReservation))
    else if sku !in stock then (stock, Err(InvalidReservation))
    else (stock[sku := Wrap64(stock[sku] + quantity)], Ok(()))
  }

  predicate Sound(stock: Stock) {
    forall sku :: sku in stock ==> TrimSpace(sku) != "" && stock[sku] >= 0
  }

  class Service {
    var stock: Stock

    constructor (sku: string, initialStock: int)
      ensures stock == map[TrimSpace(sku) := initialStock]
    {
      stock := map[TrimSpace(sku) := initialStock];
    }

    method Reserve(cancelled: bool, sku: string, quantity: int) returns (result: Result<()>)
      modifies this
      ensures (stock, result) == ReserveIn(old(stock), cancelled, sku, quantity)
    {
      if cancelled {
        return Err(Cancelled);
      }
      if sku == "" || quantity <= 0 {
        return Err(InvalidReservation);
      }
      var available := if sku in stock then stock[sku] else 0;
      if available < quantity {
        return Err(InsufficientStock);
      }
      stock := stock[sku := available - quantity];
      return Ok(());
    }

    method Release(sku: string, quantity: int) returns (result: Result<()>)
      modifies this
      ensures (stock, result) == ReleaseIn(old(stock), sku, quantity)
    {
      if sku == "" || quantity <= 0 {
        return Err(InvalidReservation);
      }
      if sku !in stock {
        return Err(InvalidReservation);
      }
      stock := stock[sku := Wrap64(stock[sku] + quantity)];
      return Ok(());
    }

    /** Visits the products in any order; succeeds exactly on sound stock. */
    method Audit(cancelled: bool) returns (result: Result<()>)
      ensures result.Ok? <==> !cancelled && Sound(stock)
      ensures cancelled ==> result == Err(Cancelled)
      ensures !cancelled ==>
                result == if forall sku :: sku in stock ==> TrimSpace(sku) != "" && stock[sku] >= 0
                          then Ok(()) else Err(InvalidReservation)
    {
      if cancelled {
        return Err(Cancelled);
      }
      var remaining := stock.Keys;
      while remaining != {}
        invariant remaining <= stock.Keys
        invariant forall sku :: sku in stock && sku !in remaining ==> TrimSpace(sku) != "" && stock[sku] >= 0
      {
        var sku :| sku in remaining;
        if TrimSpace(sku) == "" || stock[sku] < 0 {
          return Err(InvalidReservation);
        }
        remaining := remaining - {sku};
      }
      return Ok(());
    }

    method VerifySKU(cancelled: bool, sku: string) returns (result: Result<()>)
      ensures result.Ok? <==> !cancelled && sku in stock && stock[sku] >= 0
      ensures result.Err? ==> result.error == if cancelled then Cancelled else InvalidReservation
    {
      if cancelled {
        return Err(Cancelled);
      }
      if sku !in stock || stock[sku] < 0 {
        return Err(InvalidReservation);
      }
      return Ok(());
    }
  }

  /** The configuration a service is built from; anything else is refused. */
  predicate ValidSettings(sku: string, initialStock: int) {
    TrimSpace(sku) != "" && initialStock >= 0
  }

  method NewService(sku: string, initialStock: int) returns (result: Result<Service>)
    ensures result.Ok? <==> TrimSpace(sku) != "" && initialStock >= 0
    ensures result.Ok? <==> ValidSettings(sku, initialStock)
    ensures result.Err? ==> result.error == InvalidReservation
    ensures result.Ok? ==>
              && fresh(result.value) && Sound(result.value.stock)
              && result.value.stock == map[TrimSpace(sku) := initialStock]
  {
    if TrimSpace(sku) == "" || initialStock < 0 {
      return Err(InvalidReservation);
    }
    var service := new Service(sku, initialStock);
    TrimSpaceNormalizes(sku);
    TrimSpaceNormalizes(TrimSpace(sku));
    return Ok(service);
  }

  /** Which answer a reservation gets, and what it takes: exactly the quantity of the one product. */
  lemma ReserveOutcome(stock: Stock, cancelled: bool, sku: string, quantity: int)
    ensures
      var (stock', result) := ReserveIn(stock, cancelled, sku, quantity);
      var available := if sku in stock then stock[sku] else 0;
      && (result == Err(Cancelled) <==> cancelled)
      && (result == Err(InvalidReservation) <==> !cancelled && (sku == "" || quantity <= 0))
      && (result == Err(InsufficientStock) <==> !cancelled && sku != "" && 0 < quantity && available < quantity)
      && (result == Ok(()) <==> !cancelled && sku != "" && 0 < quantity <= available)
      && (result.Err? ==> stock' == stock)
      && (result.Ok? ==>
            && stock'.Keys == stock.Keys && stock'[sku] + quantity == stock[sku]
            && forall other :: other in stock && other != sku ==> stock'[other] == stock[other])
  {
  }

  /** A release adds the quantity to a product that is configured, and is refused otherwise. */
  lemma ReleaseOutcome(stock: Stock, sku: string, quantity: int)
    ensures
      var (stock', result) := ReleaseIn(stock, sku, quantity);
      && (result == Ok(()) <==> sku != "" && 0 < quantity && sku in stock)
      && (result.Err? ==> result.error == InvalidReservation && stock' == stock)
      && (result.Ok? ==>
            && stock'.Keys == stock.Keys
            && IsInt64(stock'[sku]) && (stock'[sku] - stock[sku] - quantity) % 0x1_0000_0000_0000_0000 == 0
            && forall other :: other in stock && other != sku ==> stock'[other] == stock[other])
  {
    if sku in stock {
      WrapExact(stock[sku] + quantity);
    }
    hide Wrap64;
  }

  /** A release right after a reservation restores the stock exactly. */
  lemma ReleaseUndoesReserve(stock: Stock, sku: string, quantity: int)
    requires ReserveIn(stock, false, sku, quantity).1.Ok? && IsInt64(stock[sku])
    ensures ReleaseIn(ReserveIn(stock, false, sku, quantity).0, sku, quantity) == (stock, Ok(()))
  {
    var reserved := ReserveIn(stock, false, sku, quantity).0;
    assert reserved[sku] + quantity == stock[sku];
    WrapExact(stock[sku]);
    assert reserved[sku := stock[sku]] == stock;
  }
}
