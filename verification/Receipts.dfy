/** The validation of receipts: every committed order passes it when the product name is a safe
    identifier. */
module Receipts {
  import opened Records
  import opened Text
  import opened Orders
  import opened Saga
  import opened SagaInvariant
  import opened SagaTheorems

  predicate SafeCharacter(c: char) {
    'a' <= c <= 'z' || 'A' <= c <= 'Z' || '0' <= c <= '9' || c == '-' || c == '_'
  }

  /** The bytes that the encoding of a character takes. */
  function Width(c: char): nat {
    if c < '\U{0080}' then 1 else if c < '\U{0800}' then 2 else if c < '\U{10000}' then 3 else 4
  }

  /** The length of a text in bytes, which is what the program limits. */
  function ByteLength(s: string): nat {
    if s == "" then 0 else Width(s[0]) + ByteLength(s[1..])
  }

  predicate SafeIdentifier(s: string) {
    s != "" && ByteLength(s) <= 128 && forall i :: 0 <= i < |s| ==> SafeCharacter(s[i])
  }

  /** The check as it is made: character by character, stopping at the first unsafe one. */
  method CheckIdentifier(s: string) returns (safe: bool)
    ensures safe == SafeIdentifier(s)
    ensures safe <==>
              && s != "" && |s| <= 128
              && forall i :: 0 <= i < |s| ==>
                   || 'a' <= s[i] <= 'z' || 'A' <= s[i] <= 'Z' || '0' <= s[i] <= '9' || s[i] == '-' || s[i] == '_'
  {
    if forall i :: 0 <= i < |s| ==> SafeCharacter(s[i]) {
      SafeBytes(s);
    }
    if s == "" || ByteLength(s) > 128 {
      return false;
    }
    for i := 0 to |s|
      invariant forall j :: 0 <= j < i ==> SafeCharacter(s[j])
    {
      var c := s[i];
      if ('a' <= c <= 'z') || ('A' <= c <= 'Z') || ('0' <= c <= '9') || c == '-' || c == '_' {
        continue;
      }
      return false;
    }
    return true;
  }

  predicate ValidReceipt(r: Record) {
    && SafeIdentifier(r.id) && SafeIdentifier(r.sku) && SafeIdentifier(r.authorizationID)
    && r.quantity > 0 && r.totalCents > 0
  }

  method ValidateReceipt(r: Record) returns (valid: bool)
    ensures valid == ValidReceipt(r)
    ensures valid <==>
              && r.quantity > 0 && r.totalCents > 0
              && SafeIdentifier(r.id) && SafeIdentifier(r.sku) && SafeIdentifier(r.authorizationID)
  {
    var id := CheckIdentifier(r.id);
    var sku := CheckIdentifier(r.sku);
    var authorizationID := CheckIdentifier(r.authorizationID);
    return id && sku && authorizationID && r.quantity > 0 && r.totalCents > 0;
  }

  /** For safe characters the byte limit is a character limit. */
  lemma {:induction false} SafeBytes(s: string)
    requires forall i :: 0 <= i < |s| ==> SafeCharacter(s[i])
    ensures ByteLength(s) == |s|
  {
    if s != "" {
      SafeBytes(s[1..]);
    }
  }

  /** An ID made of a safe prefix and a counter is safe for every 64-bit counter. */
  lemma SafeID(prefix: string, n: nat)
    requires n <= MAX_INT64 && |prefix| <= 100 && forall i :: 0 <= i < |prefix| ==> SafeCharacter(prefix[i])
    ensures SafeIdentifier(prefix + PadSix(n))
  {
    assert n < Power10(19) by {
      assert Power10(19) == 10 * Power10(18) == 100 * Power10(17) == 1000 * Power10(16) == 10000 * Power10(15);
      assert Power10(15) == 100000 * Power10(10) && Power10(10) == 100000 * Power10(5) && Power10(5) == 100000;
    }
    DigitsLength(n, 19);
    SafeBytes(prefix + PadSix(n));
  }

  lemma SafeIDs(n: nat)
    requires n <= MAX_INT64
    ensures SafeIdentifier(OrderID(n)) && SafeIdentifier(PaymentID(n))
  {
    SafeID("order-", n);
    SafeID("payment-", n);
  }

  /** Every committed order of every run passes the receipt validation, as long as the counters fit
      64 bits, if and only if the configured product name is a safe identifier. */
  lemma ReceiptValidIff(g: Config, moves: seq<Move>, id: string)
    requires ValidConfig(g) && id in After(g, moves).store.records
    requires After(g, moves).nextID <= MAX_INT64 && |After(g, moves).approved| <= MAX_INT64
    ensures ValidReceipt(After(g, moves).store.records[id]) <==> SafeIdentifier(g.sku)
  {
    RunKeeps(g, moves);
    hide After;
    CommittedReceipt(g, After(g, moves), id);
  }

  lemma CommittedReceipt(g: Config, s: State, id: string)
    requires ValidConfig(g) && Invariant(g, s) && id in s.store.records
    requires s.nextID <= MAX_INT64 && |s.approved| <= MAX_INT64
    ensures ValidReceipt(s.store.records[id]) <==> SafeIdentifier(g.sku)
  {
    var i := PlacementOf(g, s, id);
    CommittedTotals(g, s, id);
    hide Invariant, SafeIdentifier, OrderID, PaymentID, Total;
    SafeIDs(s.placements[i].number);
    SafeIDs(s.placements[i].approval.value + 1);
  }
}
