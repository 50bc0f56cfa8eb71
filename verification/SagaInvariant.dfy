/** Every move keeps the invariant of the saga. */
module SagaInvariant {
  import opened Records
  import opened MemoryStore
  import opened OrderRepository
  import opened Orders
  import opened Sums
  import opened Saga
  import Text
  import Statements
  import Inventory
  import Payments

  // ---------- Updates of one placement ----------

  /** While a placement is not yet completed, the records do not depend on it. */
  lemma RecordsFrame(g: Config, s: State, s': State, p: nat, x: Placement)
    requires RecordsMatch(g, s) && p < |s.placements|
    requires s'.store == s.store && s'.committed == s.committed && s'.placements == s.placements[p := x]
    requires s.placements[p].stage != Placed && x.stage != Placed
    ensures RecordsMatch(g, s')
  {
    MirrorsUnchosen(g, s.placements, s.store.records, InDatabase(s.committed), p, x);
    forall t | 0 <= t < |s.store.transactions|
      ensures Mirrors(g, s'.placements, s'.store.transactions[t].overlay.records, StagedIn(t))
    {
      MirrorsUnchosen(g, s.placements, s.store.transactions[t].overlay.records, StagedIn(t), p, x);
    }
  }

  /** The stock changes by what the placement stops or starts to hold. */
  lemma StockFrame(g: Config, s: State, s': State, p: nat, x: Placement)
    requires StockMatches(g, s) && p < |s.placements| && s'.placements == s.placements[p := x]
    requires s'.stock == s.stock[Key(g) := s.stock[Key(g)] + Held(s.placements[p]) - Held(x)]
    requires s'.stock[Key(g)] >= 0
    ensures StockMatches(g, s')
  {
    SumUpdate(s.placements, p, x, Held);
  }

  lemma LedgerFrame(g: Config, s: State, s': State, p: nat, x: Placement)
    requires LedgerMatches(g, s) && p < |s.placements| && s'.placements == s.placements[p := x]
    requires s'.approved == s.approved
    requires x.approval == s.placements[p].approval && x.quantity == s.placements[p].quantity
    ensures LedgerMatches(g, s')
  {
    SumUpdate(s.placements, p, x, Paid(g));
    forall k | 0 <= k < |s'.approved|
      ensures Approves(s'.placements, k)
    {
      assert Approves(s.placements, k);
      var i :| 0 <= i < |s.placements| && s.placements[i].approval == Some(k);
      assert s'.placements[i].approval == Some(k);
    }
  }

  /** Numbers and approvals only accumulate, so the other placements stay sound. */
  lemma SoundFrame(g: Config, s: State, s': State, p: nat, x: Placement)
    requires PlacementsSound(g, s) && p < |s.placements| && s'.placements == s.placements[p := x]
    requires s.nextID <= s'.nextID && s.approved <= s'.approved
    requires Sound(g, s', x)
    requires HasID(x) ==> x.number > s.nextID || (HasID(s.placements[p]) && x.number == s.placements[p].number)
    ensures PlacementsSound(g, s')
  {
    forall i | 0 <= i < |s'.placements|
      ensures Sound(g, s', s'.placements[i])
    {
      if i != p {
        assert Sound(g, s, s.placements[i]);
      }
    }
    forall i, j | 0 <= i < j < |s'.placements| && HasID(s'.placements[i]) && HasID(s'.placements[j])
      ensures s'.placements[i].number != s'.placements[j].number
    {
      assert Sound(g, s, s.placements[i]) && Sound(g, s, s.placements[j]);
    }
  }

  // ---------- The moves ----------

  lemma RequestKeepsRecords(g: Config, s: State, x: Placement)
    requires RecordsMatch(g, s) && x.stage == Requested
    ensures RecordsMatch(g, s.(placements := s.placements + [x]))
  {
    MirrorsAppend(g, s.placements, s.store.records, InDatabase(s.committed), x);
    forall t | 0 <= t < |s.store.transactions|
      ensures Mirrors(g, s.placements + [x], s.store.transactions[t].overlay.records, StagedIn(t))
    {
      MirrorsAppend(g, s.placements, s.store.transactions[t].overlay.records, StagedIn(t), x);
    }
  }

  lemma RequestKeepsLedger(g: Config, s: State, x: Placement)
    requires LedgerMatches(g, s) && x.approval.None?
    ensures LedgerMatches(g, s.(placements := s.placements + [x]))
  {
    var after := s.placements + [x];
    SumAppend(s.placements, x, Paid(g));
    forall k | 0 <= k < |s.approved| ensures Approves(after, k) {
      assert Approves(s.placements, k);
      var i :| 0 <= i < |s.placements| && s.placements[i].approval == Some(k);
      assert after[i].approval == Some(k);
    }
  }

  lemma RequestKeepsSound(g: Config, s: State, x: Placement)
    requires PlacementsSound(g, s) && x.stage == Requested && x.number == 0 && x.approval.None?
    ensures PlacementsSound(g, s.(placements := s.placements + [x]))
  {
    hide Total, Key, Text.OrderID, Text.PaymentID;
    var s' := s.(placements := s.placements + [x]);
    forall i | 0 <= i < |s'.placements| ensures Sound(g, s', s'.placements[i]) {
      if i < |s.placements| {
        assert Sound(g, s, s.placements[i]);
      }
    }
  }

  lemma RequestKeeps(g: Config, s: State, quantity: int, executor: Executor)
    requires Invariant(g, s)
    ensures Invariant(g, Apply(g, s, Request(quantity, executor)))
  {
    hide RecordsMatch, LedgerMatches, PlacementsSound, Key;
    var x := Placement(quantity, executor, Requested, 0, None);
    RequestKeepsRecords(g, s, x);
    RequestKeepsLedger(g, s, x);
    RequestKeepsSound(g, s, x);
    SumAppend(s.placements, x, Held);
  }

  lemma AdmitKeeps(g: Config, s: State, p: nat, cancelled: bool)
    requires Invariant(g, s) && At(s, p, Requested)
    ensures Invariant(g, Apply(g, s, Admit(p, cancelled)))
  {
    assert Sound(g, s, s.placements[p]);
    hide RecordsMatch, PlacementsSound, LedgerMatches, Text.OrderID, Text.PaymentID, Text.TrimSpace;
    var s' := Apply(g, s, Admit(p, cancelled));
    var x := s'.placements[p];
    RecordsFrame(g, s, s', p, x);
    assert s.stock == s.stock[Key(g) := s.stock[Key(g)]];
    StockFrame(g, s, s', p, x);
    LedgerFrame(g, s, s', p, x);
    SoundFrame(g, s, s', p, x);
  }

  lemma ReserveKeeps(g: Config, s: State, p: nat, cancelled: bool)
    requires Invariant(g, s) && At(s, p, Numbered)
    ensures Invariant(g, Apply(g, s, Reserve(p, cancelled)))
  {
    assert Sound(g, s, s.placements[p]);
    hide RecordsMatch, PlacementsSound, LedgerMatches, Text.OrderID, Text.PaymentID, Text.TrimSpace;
    var s' := Apply(g, s, Reserve(p, cancelled));
    var x := s'.placements[p];
    RecordsFrame(g, s, s', p, x);
    assert s.stock == s.stock[Key(g) := s.stock[Key(g)]];
    StockFrame(g, s, s', p, x);
    LedgerFrame(g, s, s', p, x);
    SoundFrame(g, s, s', p, x);
  }

  lemma RefusedKeeps(g: Config, s: State, s': State, p: nat, x: Placement)
    requires Invariant(g, s) && At(s, p, Reserved) && x == s.placements[p].(stage := Unpaid)
    requires s' == s.(placements := s.placements[p := x])
    ensures Invariant(g, s')
  {
    assert Sound(g, s, s.placements[p]);
    hide RecordsMatch, PlacementsSound, LedgerMatches, Text.OrderID, Text.PaymentID, Text.TrimSpace;
    RecordsFrame(g, s, s', p, x);
    assert s.stock == s.stock[Key(g) := s.stock[Key(g)]];
    StockFrame(g, s, s', p, x);
    SoundFrame(g, s, s', p, x);
    LedgerFrame(g, s, s', p, x);
  }

  lemma ApprovedKeeps(g: Config, s: State, s': State, p: nat, x: Placement)
    requires Invariant(g, s) && At(s, p, Reserved)
    requires x == s.placements[p].(stage := Authorized, approval := Some(|s.approved|))
    requires
      var id, reference := Text.PaymentID(|s.approved| + 1), Text.OrderID(x.number);
      var approval := Payments.Authorization(id, reference, Total(g, x.quantity));
      s' == s.(approved := s.approved + [approval], placements := s.placements[p := x])
    requires 0 < Total(g, x.quantity) <= g.maximumCents
    ensures Invariant(g, s')
  {
    HeldWithinInitial(g, s, p);
    assert Sound(g, s, s.placements[p]);
    hide RecordsMatch, PlacementsSound, LedgerMatches, Total, Text.OrderID, Text.PaymentID, Text.TrimSpace;
    RecordsFrame(g, s, s', p, x);
    assert s.stock == s.stock[Key(g) := s.stock[Key(g)]];
    StockFrame(g, s, s', p, x);
    SoundFrame(g, s, s', p, x);
    LedgerGrows(g, s, s', p, x);
  }

  lemma AuthorizeKeeps(g: Config, s: State, p: nat, cancelled: bool)
    requires Invariant(g, s) && At(s, p, Reserved)
    ensures Invariant(g, Apply(g, s, Authorize(p, cancelled)))
  {
    hide Invariant, Total, Text.OrderID, Text.PaymentID, Text.TrimSpace;
    var s' := Apply(g, s, Authorize(p, cancelled));
    if s'.placements[p].stage == Unpaid {
      RefusedKeeps(g, s, s', p, s'.placements[p]);
    } else {
      ApprovedKeeps(g, s, s', p, s'.placements[p]);
    }
  }

  /** A new approval belongs to the placement it was made for. */
  lemma LedgerGrows(g: Config, s: State, s': State, p: nat, x: Placement)
    requires LedgerMatches(g, s) && p < |s.placements| && s'.placements == s.placements[p := x]
    requires s.placements[p].approval.None? && x.approval == Some(|s.approved|)
    requires |s'.approved| == |s.approved| + 1 && s'.approved == s.approved + [s'.approved[|s.approved|]]
    requires s'.approved[|s.approved|].amount == Total(g, x.quantity)
    ensures LedgerMatches(g, s')
  {
    SumUpdate(s.placements, p, x, Paid(g));
    SumAppend(s.approved, s'.approved[|s.approved|], Amount);
    forall k | 0 <= k < |s'.approved|
      ensures Approves(s'.placements, k)
    {
      if k == |s.approved| {
        assert s'.placements[p].approval == Some(k);
      } else {
        assert Approves(s.placements, k);
        var i :| 0 <= i < |s.placements| && s.placements[i].approval == Some(k);
        assert s'.placements[i].approval == Some(k);
      }
    }
  }

  lemma HeldWithinInitial(g: Config, s: State, p: nat)
    requires StockMatches(g, s) && PlacementsSound(g, s) && p < |s.placements|
    ensures 0 <= s.stock[Key(g)] + Held(s.placements[p]) <= g.initialStock
  {
    forall y | y in s.placements ensures Held(y) >= 0 {
      assert Sound(g, s, y);
    }
    SumBounds(s.placements, Held);
    assert s.placements[p] in s.placements;
  }

  /** The addition of a release is exact: it never exceeds the initial stock. */
  lemma ReleaseIsExact(g: Config, s: State, p: nat)
    requires ValidConfig(g) && StockMatches(g, s) && PlacementsSound(g, s)
    requires p < |s.placements| && HoldsStock(s.placements[p])
    ensures
      var quantity := s.placements[p].quantity;
      && 0 < quantity <= g.initialStock
      && Inventory.ReleaseIn(s.stock, g.sku, quantity)
      == (s.stock[Key(g) := s.stock[Key(g)] + quantity], Ok(()))
  {
    assert Sound(g, s, s.placements[p]);
    HeldWithinInitial(g, s, p);
    WrapExact(s.stock[Key(g)] + s.placements[p].quantity);
    Text.NonBlankIsNonEmpty(g.sku);
  }

  lemma ReleaseKeeps(g: Config, s: State, p: nat)
    requires ValidConfig(g) && Invariant(g, s) && (At(s, p, Unpaid) || At(s, p, Unsaved))
    ensures Invariant(g, Apply(g, s, Release(p)))
  {
    hide RecordsMatch, LedgerMatches, Text.OrderID, Text.PaymentID, Text.TrimSpace, Inventory.ReleaseIn;
    var s' := Apply(g, s, Release(p));
    var x := s'.placements[p];
    ReleaseIsExact(g, s, p);
    assert Sound(g, s, s.placements[p]);
    RecordsFrame(g, s, s', p, x);
    StockFrame(g, s, s', p, x);
    LedgerFrame(g, s, s', p, x);
    SoundFrame(g, s, s', p, x);
  }

  /** The record of an authorized placement fits 64 bits and is valid, and its ID is new, so the
      driver accepts it: its save is refused only for the context or for an ended transaction. */
  lemma SaveAccepted(g: Config, s: State, p: nat, c: nat)
    requires ValidConfig(g) && Invariant(g, s) && At(s, p, Authorized) && !Waits(s, p, c)
    requires SaveConnection(s, p, c).Some?
    ensures
      var r := RecordOf(g, s.placements[p]);
      var connection := SaveConnection(s, p, c).value;
      && Statements.Int64Record(r) && ValidRecord(r) && Connected(s.store, connection)
      && InsertIn(ViewOf(s.store, connection), r).1 == Ok(1)
  {
    hide Mirrors, Text.OrderID, Text.PaymentID, Text.TrimSpace;
    var x := s.placements[p];
    var r := RecordOf(g, x);
    var connection := SaveConnection(s, p, c).value;
    assert Sound(g, s, x);
    ReleaseIsExact(g, s, p);
    WrapExact(x.quantity * g.unitPriceCents);
    Text.IdentifiersTrimmed(x.number);
    Text.IdentifiersTrimmed(x.approval.value + 1);
    UnsavedIDIsNew(g, s, p, s.store.records, InDatabase(s.committed));
    if s.store.current[connection].Some? {
      var t := s.store.current[connection].value;
      UnsavedIDIsNew(g, s, p, s.store.transactions[t].overlay.records, StagedIn(t));
    }
  }

  /** The save of the saga is the save of the repository, through whichever connection it runs. */
  lemma SaveThroughIsSaveIn(s: Store, c: nat, cancellation: Cancellation, r: Record)
    requires Lifecycle(s) && Connected(s, c) && Statements.Int64Record(r)
    ensures
      var (view, result) := SaveIn(ViewOf(s, c), cancellation, r);
      SaveThrough(s, c, cancellation, r) == (WithView(s, c, view), result.Ok?)
  {
    SaveIsInsert(ViewOf(s, c), cancellation, r);
    if s.current[c].Some? {
      var t := s.current[c].value;
      assert s.transactions[t := s.transactions[t].(overlay := s.transactions[t].overlay)] == s.transactions;
    }
  }

  lemma OverlaysFrame(g: Config, s: State, p: nat, x: Placement, t: nat)
    requires RecordsMatch(g, s) && p < |s.placements| && t < |s.store.transactions|
    requires s.placements[p].stage != Placed && x.executor != Within(t)
    ensures Mirrors(g, s.placements[p := x], s.store.transactions[t].overlay.records, StagedIn(t))
  {
    MirrorsUnchosen(g, s.placements, s.store.transactions[t].overlay.records, StagedIn(t), p, x);
  }

  /** A completed save through the pool adds the record to the database. */
  lemma PooledRecordsMatch(g: Config, s: State, s': State, p: nat, x: Placement)
    requires RecordsMatch(g, s) && At(s, p, Authorized) && x == s.placements[p].(stage := Placed)
    requires x.executor.Pool? && RecordOf(g, x).id !in s.store.records
    requires s'.store == s.store.(records := s.store.records[RecordOf(g, x).id := RecordOf(g, x)])
    requires s'.committed == s.committed && s'.placements == s.placements[p := x]
    ensures RecordsMatch(g, s')
  {
    MirrorsChosen(g, s.placements, s.store.records, InDatabase(s.committed), p, x);
    forall t | 0 <= t < |s'.store.transactions|
      ensures Mirrors(g, s'.placements, s'.store.transactions[t].overlay.records, StagedIn(t))
    {
      OverlaysFrame(g, s, p, x, t);
    }
  }

  /** A completed save within a transaction adds the record to its overlay. */
  lemma StagedRecordsMatch(g: Config, s: State, s': State, p: nat, x: Placement, own: nat)
    requires RecordsMatch(g, s) && At(s, p, Authorized) && x == s.placements[p].(stage := Placed)
    requires x.executor == Within(own) && Begun(s.store, own) && Active(s.store, own)
    requires RecordOf(g, x).id !in s.store.transactions[own].overlay.records
    requires
      var tx := s.store.transactions[own];
      var staged := tx.overlay.(records := tx.overlay.records[RecordOf(g, x).id := RecordOf(g, x)]);
      s'.store == s.store.(transactions := s.store.transactions[own := tx.(overlay := staged)])
    requires s'.committed == s.committed && s'.placements == s.placements[p := x]
    ensures RecordsMatch(g, s')
  {
    hide Mirrors, RecordOf;
    MirrorsUnchosen(g, s.placements, s.store.records, InDatabase(s.committed), p, x);
    forall t | 0 <= t < |s'.store.transactions|
      ensures Mirrors(g, s'.placements, s'.store.transactions[t].overlay.records, StagedIn(t))
    {
      if t == own {
        MirrorsChosen(g, s.placements, s.store.transactions[t].overlay.records, StagedIn(t), p, x);
      } else {
        OverlaysFrame(g, s, p, x, t);
      }
    }
  }

  /** A completed save leaves the records matching, wherever it put the record. */
  lemma SavedRecordsMatch(g: Config, s: State, s': State, p: nat, x: Placement, connection: nat)
    requires RecordsMatch(g, s) && At(s, p, Authorized) && x == s.placements[p].(stage := Placed)
    requires Connected(s.store, connection)
    requires InsertIn(ViewOf(s.store, connection), RecordOf(g, x)).1.Ok?
    requires match x.executor
             case Pool => s.store.current[connection].None?
             case Within(t) => s.store.current[connection] == Some(t)
    requires s'.store == Step(s.store, Insert(connection, RecordOf(g, x))).store
    requires s'.committed == s.committed && s'.placements == s.placements[p := x]
    ensures RecordsMatch(g, s')
  {
    match x.executor
    case Pool => PooledRecordsMatch(g, s, s', p, x);
    case Within(own) => StagedRecordsMatch(g, s, s', p, x, own);
  }

  lemma SaveThroughKeepsRecords(g: Config, s: State, s': State, p: nat, x: Placement,
                                connection: nat, cancellation: Cancellation)
    requires RecordsMatch(g, s) && At(s, p, Authorized) && Connected(s.store, connection)
    requires match x.executor
             case Pool => s.store.current[connection].None?
             case Within(t) => s.store.current[connection] == Some(t)
    requires
      var (store, saved) := SaveThrough(s.store, connection, cancellation, RecordOf(g, x));
      s'.store == store && x == s.placements[p].(stage := if saved then Placed else Unsaved)
    requires s'.committed == s.committed && s'.placements == s.placements[p := x]
    ensures RecordsMatch(g, s')
  {
    hide RecordsMatch, RecordOf, ValidRecord;
    if x.stage == Placed {
      SavedRecordsMatch(g, s, s', p, x, connection);
    } else {
      RecordsFrame(g, s, s', p, x);
    }
  }

  lemma RecordIgnoresStage(g: Config, x: Placement, y: Placement)
    requires y == x.(stage := y.stage)
    ensures RecordOf(g, y) == RecordOf(g, x)
  {
  }

  lemma SaveKeepsRecords(g: Config, s: State, p: nat, c: nat, cancellation: Cancellation)
    requires RecordsMatch(g, s) && At(s, p, Authorized) && !Waits(s, p, c)
    ensures RecordsMatch(g, Apply(g, s, Save(p, c, cancellation)))
  {
    hide SaveThrough, RecordOf, Mirrors;
    var s' := Apply(g, s, Save(p, c, cancellation));
    var x := s'.placements[p];
    var connection := SaveConnection(s, p, c);
    if connection.Some? {
      RecordIgnoresStage(g, s.placements[p], x);
      SaveThroughKeepsRecords(g, s, s', p, x, connection.value, cancellation);
    } else {
      RecordsFrame(g, s, s', p, x);
    }
  }

  lemma SaveKeeps(g: Config, s: State, p: nat, c: nat, cancellation: Cancellation)
    requires ValidConfig(g) && Invariant(g, s) && At(s, p, Authorized) && !Waits(s, p, c)
    ensures Invariant(g, Apply(g, s, Save(p, c, cancellation)))
  {
    hide RecordsMatch, SaveThrough, RecordOf, StockMatches, PlacementsSound, LedgerMatches;
    var s' := Apply(g, s, Save(p, c, cancellation));
    var x := s'.placements[p];
    SaveKeepsRecords(g, s, p, c, cancellation);
    PaidStageKeeps(g, s, s', p, x);
  }

  /** Stock, numbers and ledger do not change when an authorized placement is saved or not. */
  lemma PaidStageKeeps(g: Config, s: State, s': State, p: nat, x: Placement)
    requires Invariant(g, s) && At(s, p, Authorized)
    requires x == s.placements[p].(stage := Placed) || x == s.placements[p].(stage := Unsaved)
    requires s'.placements == s.placements[p := x]
    requires s'.stock == s.stock && s'.approved == s.approved && s'.nextID == s.nextID
    ensures StockMatches(g, s') && PlacementsSound(g, s') && LedgerMatches(g, s')
  {
    hide RecordsMatch, Text.OrderID, Text.PaymentID, Text.TrimSpace;
    assert Sound(g, s, s.placements[p]);
    assert s.stock == s.stock[Key(g) := s.stock[Key(g)]];
    StockFrame(g, s, s', p, x);
    LedgerFrame(g, s, s', p, x);
    SoundFrame(g, s, s', p, x);
  }

  lemma NotSavedTwice(g: Config, s: State, t: nat, id: string, r: Record, r': Record)
    requires PlacementsSound(g, s)
    requires Backed(g, s.placements, id, r, InDatabase(s.committed))
    requires Backed(g, s.placements, id, r', StagedIn(t))
    ensures t in s.committed
  {
    var i :| 0 <= i < |s.placements| && InDatabase(s.committed)(s.placements[i])
             && Text.OrderID(s.placements[i].number) == id;
    var j :| 0 <= j < |s.placements| && StagedIn(t)(s.placements[j])
             && Text.OrderID(s.placements[j].number) == id;
    SameIDSamePlacement(g, s, i, j);
  }

  /** No key that an open transaction staged is committed: records of different placements have
      different IDs. So a commit never finds a duplicate. */
  lemma StagedKeysAreNew(g: Config, s: State, t: nat)
    requires PlacementsSound(g, s) && RecordsMatch(g, s)
    requires t < |s.store.transactions| && !s.store.transactions[t].done
    ensures s.store.records.Keys !! s.store.transactions[t].overlay.records.Keys
  {
    var records, staged := s.store.records, s.store.transactions[t].overlay.records;
    assert Mirrors(g, s.placements, staged, StagedIn(t));
    forall id | id in records ensures id !in staged {
      if id in staged {
        NotSavedTwice(g, s, t, id, records[id], staged[id]);
      }
    }
  }

  lemma StorageKeepsRecords(g: Config, s: State, a: Action, o: Outcome)
    requires RecordsMatch(g, s) && !a.Insert? && o == Step(s.store, a)
    ensures Mirrors(g, s.placements, o.store.records,
                    InDatabase(if a.Commit? && o.reply == Done then s.committed + {a.t} else s.committed))
  {
    OnlyCommitsChangeRecords(s.store, a);
    if a.Commit? && o.reply == Done {
      CommittedRecordsMatch(g, s, a.t, o.store.records);
    }
  }

  lemma CommittedRecordsMatch(g: Config, s: State, t: nat, records: map<string, Record>)
    requires RecordsMatch(g, s) && t < |s.store.transactions|
    requires s.store.records.Keys !! s.store.transactions[t].overlay.records.Keys
    requires records == s.store.records + s.store.transactions[t].overlay.records
    ensures Mirrors(g, s.placements, records, InDatabase(s.committed + {t}))
  {
    MirrorsUnion(g, s.placements, s.store.records, s.store.transactions[t].overlay.records, s.committed, t);
  }

  lemma OnlyInsertsStage(s: Store, a: Action, t: nat)
    requires Lifecycle(s) && !a.Insert? && t < |Step(s, a).store.transactions|
    ensures if t < |s.transactions|
            then Step(s, a).store.transactions[t].overlay.records == s.transactions[t].overlay.records
            else Step(s, a).store.transactions[t].overlay.records == map[]
  {
  }

  lemma OverlaysStillMatch(g: Config, s: State, a: Action, t: nat)
    requires RecordsMatch(g, s) && !a.Insert? && t < |Step(s.store, a).store.transactions|
    ensures Mirrors(g, s.placements, Step(s.store, a).store.transactions[t].overlay.records, StagedIn(t))
  {
    OnlyInsertsStage(s.store, a, t);
    if t >= |s.store.transactions| {
      assert forall i :: 0 <= i < |s.placements| ==> !StagedIn(t)(s.placements[i]);
    }
  }

  lemma StorageKeepsMatch(g: Config, s: State, a: Action, o: Outcome, committed: set<nat>)
    requires RecordsMatch(g, s) && !a.Insert? && o == Step(s.store, a)
    requires committed == if a.Commit? && o.reply == Done then s.committed + {a.t} else s.committed
    ensures RecordsMatch(g, s.(store := o.store, committed := committed))
  {
    StepKeepsLifecycle(s.store, a);
    StepExtends(s.store, a);
    StorageKeepsRecords(g, s, a, o);
    CommittedAreDone(s, a);
    forall t | 0 <= t < |o.store.transactions|
      ensures Mirrors(g, s.placements, o.store.transactions[t].overlay.records, StagedIn(t))
    {
      OverlaysStillMatch(g, s, a, t);
    }
    hide Step, Mirrors;
  }

  lemma SoundIgnoresStore(g: Config, s: State, s': State, x: Placement)
    requires Sound(g, s, x) && s'.nextID == s.nextID && s'.approved == s.approved
    ensures Sound(g, s', x)
  {
    hide Total, Key, Text.OrderID, Text.PaymentID;
  }

  /** Stock, numbers and ledger do not look at the store. */
  lemma StoreFrame(g: Config, s: State, store: Store, committed: set<nat>)
    requires StockMatches(g, s) && PlacementsSound(g, s) && LedgerMatches(g, s)
    ensures
      var s' := s.(store := store, committed := committed);
      StockMatches(g, s') && PlacementsSound(g, s') && LedgerMatches(g, s')
  {
    var s' := s.(store := store, committed := committed);
    hide Sound, Total, Key, RecordsMatch;
    forall i | 0 <= i < |s'.placements| ensures Sound(g, s', s'.placements[i]) {
      SoundIgnoresStore(g, s, s', s.placements[i]);
    }
  }

  lemma StorageKeeps(g: Config, s: State, a: Action)
    requires Invariant(g, s) && !a.Insert?
    ensures Invariant(g, Apply(g, s, Storage(a)))
  {
    hide RecordsMatch, StockMatches, PlacementsSound, LedgerMatches, Step;
    var o := Step(s.store, a);
    var committed := if a.Commit? && o.reply == Done then s.committed + {a.t} else s.committed;
    StorageKeepsMatch(g, s, a, o, committed);
    StoreFrame(g, s, o.store, committed);
  }

  lemma CommittedAreDone(s: State, a: Action)
    requires Lifecycle(s.store)
    requires forall t :: t in s.committed ==> t < |s.store.transactions| && s.store.transactions[t].done
    ensures
      var o := Step(s.store, a);
      var committed := if a.Commit? && o.reply == Done then s.committed + {a.t} else s.committed;
      forall t :: t in committed ==> t < |o.store.transactions| && o.store.transactions[t].done
  {
    StepExtends(s.store, a);
  }

  lemma ApplyKeeps(g: Config, s: State, m: Move)
    requires ValidConfig(g) && Invariant(g, s)
    ensures Invariant(g, Apply(g, s, m))
  {
    match m
    case Request(quantity, executor) => RequestKeeps(g, s, quantity, executor);
    case Admit(p, cancelled) => if At(s, p, Requested) { AdmitKeeps(g, s, p, cancelled); }
    case Reserve(p, cancelled) => if At(s, p, Numbered) { ReserveKeeps(g, s, p, cancelled); }
    case Authorize(p, cancelled) => if At(s, p, Reserved) { AuthorizeKeeps(g, s, p, cancelled); }
    case Save(p, c, cancellation) =>
      if At(s, p, Authorized) && !Waits(s, p, c) { SaveKeeps(g, s, p, c, cancellation); }
    case Release(p) => if At(s, p, Unpaid) || At(s, p, Unsaved) { ReleaseKeeps(g, s, p); }
    case Storage(a) => if !a.Insert? { StorageKeeps(g, s, a); }
  }

  /** The invariant holds after every run. */
  lemma {:induction false} RunKeeps(g: Config, moves: seq<Move>)
    requires ValidConfig(g)
    ensures Invariant(g, After(g, moves))
  {
    if moves == [] {
      var s := Initial(g);
      assert Sum(s.placements, Held) == 0 && Sum(s.placements, Paid(g)) == 0 && Sum(s.approved, Amount) == 0;
    } else {
      RunKeeps(g, moves[..|moves| - 1]);
      ApplyKeeps(g, After(g, moves[..|moves| - 1]), moves[|moves| - 1]);
    }
  }
}
