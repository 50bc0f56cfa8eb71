/** Payment authorization: an append-only ledger of approvals with derived IDs. */
module Payments {
  import opened Records
  import opened Text

  datatype Authorization = Authorization(id: string, reference: string, amount: int)

  function AuthorizeIn(approved: seq<Authorization>, maximumCents: int, cancelled: bool, reference: string, amount: int)
    : (seq<Authorization>, Result<Authorization>)
  {
    if cancelled then (approved, Err(Cancelled))
    else if TrimSpace(reference) == "" || amount <= 0 then (approved, Err(InvalidPayment))
    else if amount > maximumCents then (approved, Err(Declined))
    else
      var authorization := Authorization(PaymentID(|approved| + 1), reference, amount);
      (approved + [authorization], Ok(authorization))
  }

  /** Which answer a payment gets, and what it leaves: at most one approval, at the end of the ledger,
      numbered by its position. */
  lemma AuthorizeOutcome(approved: seq<Authorization>, maximumCents: int, cancelled: bool, reference: string,
                         amount: int)
    ensures
      var (approved', result) := AuthorizeIn(approved, maximumCents, cancelled, reference, amount);
      && (result == Err(Cancelled) <==> cancelled)
      && (result == Err(InvalidPayment) <==> !cancelled && (Spaces(reference) || amount <= 0))
      && (result == Err(Declined) <==> !cancelled && !Spaces(reference) && 0 < amount && maximumCents < amount)
      && (result.Ok? <==> !cancelled && !Spaces(reference) && 0 < amount <= maximumCents)
      && (result.Err? ==> approved' == approved)
      && (result.Ok? ==>
            && |approved'| == |approved| + 1 && approved <= approved' && approved'[|approved|] == result.value
            && result.value.reference == reference && result.value.amount == amount
            && result.value.id == PaymentID(|approved'|))
  {
    BlankIff(reference);
    hide Spaces, TrimSpace, PaymentID;
  }

  class Service {
    const maximumCents: int
    var approved: seq<Authorization>

    constructor (maximumCents: int)
      ensures this.maximumCents == maximumCents && approved == []
    {
      this.maximumCents := maximumCents;
      approved := [];
    }

    method Authorize(cancelled: bool, reference: string, amount: int) returns (result: Result<Authorization>)
      modifies this
      ensures (approved, result) == AuthorizeIn(old(approved), maximumCents, cancelled, reference, amount)
    {
      if cancelled {
        return Err(Cancelled);
      }
      if TrimSpace(reference) == "" || amount <= 0 {
        return Err(InvalidPayment);
      }
      if amount > maximumCents {
        return Err(Declined);
      }
      var authorization := Authorization(PaymentID(|approved| + 1), reference, amount);
      approved := approved + [authorization];
      return Ok(authorization);
    }
  }

  method NewService(maximumCents: int) returns (result: Result<Service>)
    ensures result.Ok? <==> maximumCents > 0
    ensures result.Err? ==> result.error == InvalidPayment
    ensures result.Ok? ==>
              fresh(result.value) && result.value.maximumCents == maximumCents && result.value.approved == []
  {
    if maximumCents <= 0 {
      return Err(InvalidPayment);
    }
    var service := new Service(maximumCents);
    return Ok(service);
  }
}
