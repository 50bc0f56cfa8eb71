/** What each move of the saga does in every reachable state, however many placements and
    transactions are under way: the store takes exactly the steps of the store machine, a commit
    publishes what was placed within its transaction, and every unfinished placement can finish. */
module SagaSteps {
  import opened Records
  import opened MemoryStore
  import opened OrderRepository
  import opened Orders
  import opened MemoryDriver
  import opened Serializability
  import opened Saga
  import opened SagaInvariant
  import opened SagaTheorems
  import opened Uninterrupted
  import Text
  import Statements
  import Inventory
  import Payments

  // ---------- The start ----------

  /** The application as it is put together: the services of a valid configuration and a connection
      to a new database. Placement starts exactly in the initial state of the saga. */
  method Assemble(g: Config) returns (service: Service?, connection: MemoryConnection?)
    requires IsInt64(g.unitPriceCents) && IsInt64(g.maximumCents) && IsInt64(g.initialStock)
    ensures (service != null <==> ValidConfig(g)) && (connection != null <==> ValidConfig(g))
    ensures service != null && connection != null ==>
              && fresh(service) && fresh(connection) && connection.Valid()
              && service.settings == g && service.payments.maximumCents == g.maximumCents
              && var start := Saga.Initial(g);
                 service.State(Reaching(connection))
                 == World(start.stock, start.approved, start.nextID,
                          Reaching(View(start.store.records, start.store.schema, None)))
  {
    service, connection := null, null;
    var services := NewServices(g);
    if services.Ok? {
      var database := new MemoryDatabase();
      service := services.value;
      connection := new MemoryConnection(database);
    }
  }

  // ---------- The store of the saga is a run of the store machine ----------

  /** The save reaches a connection: the free one of the pool that it is handed, or that of its open
      transaction. */
  predicate Reaches(s: State, p: nat, c: nat)
    requires p < |s.placements|
  {
    match s.placements[p].executor
    case Pool => c < |s.store.current| && s.store.current[c].None?
    case Within(t) => t < |s.store.transactions| && !s.store.transactions[t].done
  }

  function ConnectionFor(s: State, p: nat, c: nat): nat
    requires p < |s.placements| && Reaches(s, p, c)
  {
    match s.placements[p].executor
    case Pool => c
    case Within(t) => s.store.transactions[t].connection
  }

  /** What a move does to the store: the owners' actions are carried out as they are, and a save that
      reaches a connection in an uncancelled context inserts the record of its placement. */
  function ActionOf(g: Config, s: State, m: Move): Option<Action> {
    match m
    case Storage(a) => if a.Insert? then None else Some(a)
    case Save(p, c, k) =>
      if At(s, p, Authorized) && Reaches(s, p, c) && !k.before && !k.inDriver
      then Some(Insert(ConnectionFor(s, p, c), RecordOf(g, s.placements[p])))
      else None
    case _ => None
  }

  function ActionsOf(g: Config, moves: seq<Move>): seq<Action> {
    if moves == [] then []
    else
      var front := moves[..|moves| - 1];
      ActionsOf(g, front)
      + match ActionOf(g, After(g, front), moves[|moves| - 1]) case Some(a) => [a] case None => []
  }

  lemma ReachesIff(s: State, p: nat, c: nat)
    requires Lifecycle(s.store) && p < |s.placements|
    ensures Reaches(s, p, c) <==> !Waits(s, p, c) && SaveConnection(s, p, c).Some?
    ensures Reaches(s, p, c) ==> SaveConnection(s, p, c) == Some(ConnectionFor(s, p, c))
    ensures Waits(s, p, c) <==> s.placements[p].executor.Pool? && !Reaches(s, p, c)
  {
  }

  lemma SaveTakesStep(g: Config, s: State, p: nat, c: nat, k: Cancellation)
    requires ValidConfig(g) && Invariant(g, s) && At(s, p, Authorized) && Reaches(s, p, c)
    ensures
      var s' := Apply(g, s, Save(p, c, k));
      var accepted := !k.before && !k.inDriver;
      var o := Step(s.store, Insert(ConnectionFor(s, p, c), RecordOf(g, s.placements[p])));
      && s' == s.(store := s'.store, placements := s'.placements)
      && s'.placements == s.placements[p := s.placements[p].(stage := if accepted then Placed else Unsaved)]
      && (accepted ==> o.reply == Done && s'.store == o.store)
      && (!accepted ==> s'.store == s.store)
  {
    hide Invariant, ValidConfig, Lifecycle, Step, InsertIn, RecordOf, WithView, ViewOf, Reaches, ConnectionFor;
    hide Waits, SaveConnection, SaveThrough, ValidRecord, Statements.Int64Record, Connected;
    InvariantLifecycle(g, s);
    ReachesIff(s, p, c);
    SaveAccepted(g, s, p, c);
    SaveThroughStep(s.store, ConnectionFor(s, p, c), k, RecordOf(g, s.placements[p]));
  }

  lemma SaveThroughStep(s: Store, c: nat, k: Cancellation, r: Record)
    requires Connected(s, c) && ValidRecord(r) && InsertIn(ViewOf(s, c), r).1.Ok?
    ensures
      var accepted, o := !k.before && !k.inDriver, Step(s, Insert(c, r));
      SaveThrough(s, c, k, r) == (if accepted then o.store else s, accepted) && o.reply == Done
  {
    hide ViewOf, InsertIn, WithView, ValidRecord;
    InsertStep(s, c, r);
  }

  lemma MoveTakesAction(g: Config, s: State, m: Move)
    requires ValidConfig(g) && Invariant(g, s)
    ensures Apply(g, s, m).store
         == match ActionOf(g, s, m) case Some(a) => Step(s.store, a).store case None => s.store
  {
    hide Step, RecordOf, Inventory.ReserveIn, Inventory.ReleaseIn, Payments.AuthorizeIn, SaveThrough;
    match m
    case Save(p, c, k) =>
      if At(s, p, Authorized) {
        InvariantLifecycle(g, s);
        ReachesIff(s, p, c);
        if Reaches(s, p, c) {
          SaveTakesStep(g, s, p, c, k);
        }
      }
    case _ =>
  }

  /** In every run the store of the saga is what the store machine comes to with exactly these
      actions; so all that is known of the runs of the store holds in the saga. */
  lemma {:induction false} StoreIsRun(g: Config, moves: seq<Move>)
    requires ValidConfig(g)
    ensures After(g, moves).store == Run(NEW_DATABASE, ActionsOf(g, moves))
  {
    if moves != [] {
      var front, last := moves[..|moves| - 1], moves[|moves| - 1];
      StoreIsRun(g, front);
      RunKeeps(g, front);
      hide Apply, ActionOf, Step, Invariant;
      MoveTakesAction(g, After(g, front), last);
      var actions := ActionsOf(g, front);
      match ActionOf(g, After(g, front), last) {
        case Some(a) =>
          assert ActionsOf(g, moves) == actions + [a] && (actions + [a])[..|actions|] == actions;
        case None =>
          assert ActionsOf(g, moves) == actions + [] == actions;
      }
    }
  }

  /** The committed orders of the saga are those of the serial execution of its transactions, in the
      order of their commits. */
  lemma SagaIsSerializable(g: Config, moves: seq<Move>)
    requires ValidConfig(g)
    ensures
      var h := ObserveAll(ActionsOf(g, moves));
      After(g, moves).store == h.store && Serial(h.committed) == h.store.records && SerialAgrees(h.committed, false)
  {
    StoreIsRun(g, moves);
    CommitOrderSerializable(ActionsOf(g, moves));
  }

  // ---------- A commit publishes ----------

  /** The order of the placement is committed and is found on every connection. */
  ghost predicate Published(g: Config, s: State, p: nat)
    requires p < |s.placements|
  {
    var r := RecordOf(g, s.placements[p]);
    && r.id in s.store.records && s.store.records[r.id] == r
    && forall c :: Connected(s.store, c) ==> FindOrderIn(ViewOf(s.store, c), false, r.id) == Ok(Some(r))
  }

  /** From every reachable state, committing an open transaction ends it, frees its connection, and
      publishes every order that was placed within it. */
  lemma CommitPublishesOrders(g: Config, moves: seq<Move>, t: nat)
    requires ValidConfig(g)
    requires t < |After(g, moves).store.transactions| && !After(g, moves).store.transactions[t].done
    ensures
      var s, s' := After(g, moves), Apply(g, After(g, moves), Storage(Commit(t)));
      && t in s'.committed && s'.store.transactions[t].done
      && s'.store.current == s.store.current[s.store.transactions[t].connection := None]
      && s'.store.records == s.store.records + s.store.transactions[t].overlay.records
      && s'.placements == s.placements && s'.stock == s.stock && s'.approved == s.approved
      && forall p :: 0 <= p < |s.placements| && StagedIn(t)(s.placements[p]) ==> Published(g, s', p)
  {
    RunKeeps(g, moves);
    var s := After(g, moves);
    hide After;
    ApplyKeeps(g, s, Storage(Commit(t)));
    CommitEffect(g, s, t);
    var s' := Apply(g, s, Storage(Commit(t)));
    hide Apply, Invariant, Published, Step;
    forall p | 0 <= p < |s.placements| && StagedIn(t)(s.placements[p]) ensures Published(g, s', p) {
      CommittedIsPublished(g, s', p);
    }
  }

  lemma CommitEffect(g: Config, s: State, t: nat)
    requires Invariant(g, s) && t < |s.store.transactions| && !s.store.transactions[t].done
    ensures
      var s' := Apply(g, s, Storage(Commit(t)));
      && s'.committed == s.committed + {t} && t < |s'.store.transactions| && s'.store.transactions[t].done
      && s.store.transactions[t].connection < |s.store.current|
      && s'.store.current == s.store.current[s.store.transactions[t].connection := None]
      && s'.store.records == s.store.records + s.store.transactions[t].overlay.records
      && s' == s.(store := s'.store, committed := s'.committed)
  {
    hide Mirrors, Step;
    assert Begun(s.store, t) && Active(s.store, t);
    StagedKeysAreNew(g, s, t);
    EndEffect(s.store, Commit(t));
  }

  lemma CommittedIsPublished(g: Config, s: State, p: nat)
    requires Invariant(g, s) && p < |s.placements| && InDatabase(s.committed)(s.placements[p])
    ensures Published(g, s, p)
  {
    var id := Text.OrderID(s.placements[p].number);
    assert Mirrors(g, s.placements, s.store.records, InDatabase(s.committed));
    assert id in s.store.records && s.store.records[id] == RecordOf(g, s.placements[p]);
    hide Invariant, FindOrderIn, Mirrors, Text.OrderID;
    forall c | Connected(s.store, c)
      ensures FindOrderIn(ViewOf(s.store, c), false, id) == Ok(Some(RecordOf(g, s.placements[p])))
    {
      CommittedOrderFound(g, s, id, c);
    }
  }

  // ---------- Every move, in every state ----------

  /** Only the placement that makes a move is changed by it, and never its quantity or executor. */
  lemma OnlyItsOwnPlacement(g: Config, s: State, m: Move, q: nat)
    requires q < |s.placements|
    ensures
      var s' := Apply(g, s, m);
      && q < |s'.placements|
      && s'.placements[q].quantity == s.placements[q].quantity && s'.placements[q].executor == s.placements[q].executor
      && (s'.placements[q] != s.placements[q] ==> !m.Request? && !m.Storage? && m.p == q)
  {
    hide Step, SaveThrough, RecordOf, Inventory.ReserveIn, Inventory.ReleaseIn, Payments.AuthorizeIn, SaveConnection;
  }

  /** A request becomes a new placement, and waits to be looked at. */
  lemma RequestArrives(g: Config, s: State, quantity: int, executor: Executor)
    ensures
      var s' := Apply(g, s, Request(quantity, executor));
      && s' == s.(placements := s'.placements) && |s'.placements| == |s.placements| + 1
      && s.placements <= s'.placements && At(s', |s.placements|, Requested)
      && s'.placements[|s.placements|].quantity == quantity && s'.placements[|s.placements|].executor == executor
  {
  }

  /** Only the placement changed, and this is all that became of it. */
  ghost predicate Becomes(s: State, s': State, p: nat, stage: Stage)
    requires p < |s.placements|
  {
    && |s'.placements| == |s.placements| && s'.placements[p].stage == stage
    && s'.placements == s.placements[p := s'.placements[p]]
    && s'.placements[p].quantity == s.placements[p].quantity && s'.placements[p].executor == s.placements[p].executor
    && s'.committed == s.committed
  }

  lemma AdmitOutcome(g: Config, s: State, p: nat, cancelled: bool)
    requires At(s, p, Requested)
    ensures
      var s' := Apply(g, s, Admit(p, cancelled));
      var admitted := s.placements[p].quantity > 0 && !cancelled;
      && Becomes(s, s', p, if admitted then Numbered else Rejected)
      && s'.nextID == (if admitted then s.nextID + 1 else s.nextID)
      && (admitted ==> s'.placements[p].number == s'.nextID)
      && s'.stock == s.stock && s'.approved == s.approved && s'.store == s.store
  {
  }

  lemma ReserveOutcome(g: Config, s: State, p: nat, cancelled: bool)
    requires ValidConfig(g) && Invariant(g, s) && At(s, p, Numbered)
    ensures
      var s', q := Apply(g, s, Reserve(p, cancelled)), s.placements[p].quantity;
      var reserved := !cancelled && g.sku in s.stock && q <= s.stock[g.sku];
      && Becomes(s, s', p, if reserved then Reserved else Failed)
      && s'.stock == (if reserved then s.stock[g.sku := s.stock[g.sku] - q] else s.stock)
      && s'.nextID == s.nextID && s'.approved == s.approved && s'.store == s.store
  {
    assert Sound(g, s, s.placements[p]);
    hide Invariant, Text.TrimSpace;
    Text.NonBlankIsNonEmpty(g.sku);
    Inventory.ReserveOutcome(s.stock, cancelled, g.sku, s.placements[p].quantity);
  }

  lemma AuthorizeOutcome(g: Config, s: State, p: nat, cancelled: bool)
    requires At(s, p, Reserved)
    ensures
      var s', x := Apply(g, s, Authorize(p, cancelled)), s.placements[p];
      var paid := !cancelled && 0 < Total(g, x.quantity) <= g.maximumCents;
      && Becomes(s, s', p, if paid then Authorized else Unpaid)
      && (paid ==>
            && s'.placements[p].approval == Some(|s.approved|) && |s'.approved| == |s.approved| + 1
            && s.approved <= s'.approved
            && s'.approved[|s.approved|].reference == Text.OrderID(x.number)
            && s'.approved[|s.approved|].amount == Total(g, x.quantity))
      && (!paid ==> s'.approved == s.approved)
      && s'.nextID == s.nextID && s'.stock == s.stock && s'.store == s.store
  {
    var x := s.placements[p];
    Payments.AuthorizeOutcome(s.approved, g.maximumCents, cancelled, Text.OrderID(x.number), Total(g, x.quantity));
    Text.IdentifiersTrimmed(x.number);
    Text.BlankIff(Text.OrderID(x.number));
    hide Text.OrderID, Text.PaymentID, Text.TrimSpace, Text.Spaces, Total, Payments.AuthorizeIn;
  }

  lemma SaveMoveOutcome(g: Config, s: State, p: nat, c: nat, k: Cancellation)
    requires ValidConfig(g) && Invariant(g, s) && At(s, p, Authorized)
    requires s.placements[p].executor.Pool? ==> Reaches(s, p, c)
    ensures
      var s' := Apply(g, s, Save(p, c, k));
      var saved := Reaches(s, p, c) && !k.before && !k.inDriver;
      && Becomes(s, s', p, if saved then Placed else Unsaved)
      && s'.nextID == s.nextID && s'.stock == s.stock && s'.approved == s.approved
      && (!saved ==> s'.store == s.store)
  {
    hide Invariant, ValidConfig, Lifecycle, Apply, Step, RecordOf, SaveVia;
    hide Reaches, Waits, SaveConnection, ConnectionFor;
    InvariantLifecycle(g, s);
    ReachesIff(s, p, c);
    if Reaches(s, p, c) {
      SaveTakesStep(g, s, p, c, k);
    } else {
      SaveDoneStep(g, s, p, c, k);
    }
  }

  lemma ReleaseOutcome(g: Config, s: State, p: nat)
    requires ValidConfig(g) && Invariant(g, s) && (At(s, p, Unpaid) || At(s, p, Unsaved))
    ensures
      var s', q := Apply(g, s, Release(p)), s.placements[p].quantity;
      && Becomes(s, s', p, Failed)
      && Key(g) in s.stock && s'.stock == s.stock[Key(g) := s.stock[Key(g)] + q]
      && s'.nextID == s.nextID && s'.approved == s.approved && s'.store == s.store
  {
    ReleaseIsExact(g, s, p);
    hide Invariant, ValidConfig, Inventory.ReleaseIn, Text.TrimSpace;
  }

  // ---------- Every placement can finish ----------

  predicate Finished(x: Placement) {
    x.stage in {Rejected, Failed, Placed}
  }

  /** The rest of a placement succeeds: the save, with the payment before it, with the reservation
      before that. */
  predicate WillSave(s: State, p: nat, c: nat, checks: Checks)
    requires p < |s.placements|
  {
    Reaches(s, p, c) && !checks.atSave.before && !checks.atSave.inDriver
  }

  predicate WillPay(g: Config, s: State, p: nat, checks: Checks)
    requires p < |s.placements|
  {
    !checks.atAuthorize && 0 < Total(g, s.placements[p].quantity) <= g.maximumCents
  }

  predicate WillReserve(g: Config, s: State, p: nat, checks: Checks)
    requires p < |s.placements|
  {
    !checks.atReserve && g.sku in s.stock && s.placements[p].quantity <= s.stock[g.sku]
  }

  predicate WillComplete(g: Config, s: State, p: nat, c: nat, checks: Checks)
    requires p < |s.placements|
  {
    match s.placements[p].stage
    case Requested =>
      s.placements[p].quantity > 0 && !checks.atStart
      && WillReserve(g, s, p, checks) && WillPay(g, s, p, checks) && WillSave(s, p, c, checks)
    case Numbered => WillReserve(g, s, p, checks) && WillPay(g, s, p, checks) && WillSave(s, p, c, checks)
    case Reserved => WillPay(g, s, p, checks) && WillSave(s, p, c, checks)
    case Authorized => WillSave(s, p, c, checks)
    case Placed => true
    case _ => false
  }

  /** The placement ended, completed or not, and no other placement was touched. */
  ghost predicate EndsAs(s: State, s': State, p: nat, completed: bool)
    requires p < |s.placements|
  {
    && |s'.placements| == |s.placements| && s'.placements == s.placements[p := s'.placements[p]]
    && Finished(s'.placements[p]) && (s'.placements[p].stage == Placed <==> completed)
    && s'.placements[p].quantity == s.placements[p].quantity && s'.placements[p].executor == s.placements[p].executor
  }

  lemma FinishEnds(g: Config, s: State, p: nat, c: nat, checks: Checks)
    requires ValidConfig(g) && Invariant(g, s) && p < |s.placements|
    requires s.placements[p].stage in {Unpaid, Authorized, Unsaved}
    requires s.placements[p].executor.Pool? ==> Reaches(s, p, c)
    ensures EndsAs(s, Finish(g, s, p, c, checks), p, At(s, p, Authorized) && WillSave(s, p, c, checks))
  {
    hide Apply, Invariant, ValidConfig, Reaches;
    var saved := Apply(g, s, Save(p, c, checks.atSave));
    if At(s, p, Authorized) {
      SaveMoveOutcome(g, s, p, c, checks.atSave);
      ApplyKeeps(g, s, Save(p, c, checks.atSave));
    } else {
      NothingToDo(g, s, p, c, checks);
    }
    if At(saved, p, Unpaid) || At(saved, p, Unsaved) {
      ReleaseOutcome(g, saved, p);
    } else {
      NothingToRelease(g, saved, p);
    }
  }

  /** Moves for which the placement is not at the right stage do nothing. */
  lemma NothingToDo(g: Config, s: State, p: nat, c: nat, checks: Checks)
    ensures !At(s, p, Requested) ==> Apply(g, s, Admit(p, checks.atStart)) == s
    ensures !At(s, p, Numbered) ==> Apply(g, s, Reserve(p, checks.atReserve)) == s
    ensures !At(s, p, Reserved) ==> Apply(g, s, Authorize(p, checks.atAuthorize)) == s
    ensures !At(s, p, Authorized) ==> Apply(g, s, Save(p, c, checks.atSave)) == s
    ensures !At(s, p, Unpaid) && !At(s, p, Unsaved) ==> Apply(g, s, Release(p)) == s
  {
  }

  lemma ContinueEnds(g: Config, s: State, p: nat, c: nat, checks: Checks)
    requires ValidConfig(g) && Invariant(g, s) && p < |s.placements|
    requires s.placements[p].stage in {Reserved, Unpaid, Authorized, Unsaved, Rejected, Failed, Placed}
    requires s.placements[p].executor.Pool? ==> Reaches(s, p, c)
    ensures EndsAs(s, Continue(g, s, p, c, checks), p, WillComplete(g, s, p, c, checks))
  {
    hide Apply, Invariant, ValidConfig, Finish, Total;
    NothingToDo(g, s, p, c, checks);
    if At(s, p, Reserved) {
      AuthorizeOutcome(g, s, p, checks.atAuthorize);
      ApplyKeeps(g, s, Authorize(p, checks.atAuthorize));
      FinishEnds(g, Apply(g, s, Authorize(p, checks.atAuthorize)), p, c, checks);
    } else if s.placements[p].stage in {Unpaid, Authorized, Unsaved} {
      FinishEnds(g, s, p, c, checks);
    } else {
      FinishedStays(g, s, p, c, checks);
    }
  }

  lemma FinishedStays(g: Config, s: State, p: nat, c: nat, checks: Checks)
    requires p < |s.placements| && Finished(s.placements[p])
    ensures Continue(g, s, p, c, checks) == s
  {
    hide Apply;
    NothingToDo(g, s, p, c, checks);
  }

  lemma ReserveEnds(g: Config, s: State, p: nat, c: nat, checks: Checks)
    requires ValidConfig(g) && Invariant(g, s) && p < |s.placements| && !At(s, p, Requested) && !At(s, p, Stranded)
    requires s.placements[p].executor.Pool? ==> Reaches(s, p, c)
    ensures EndsAs(s, Continue(g, Apply(g, s, Reserve(p, checks.atReserve)), p, c, checks), p,
                   WillComplete(g, s, p, c, checks))
  {
    hide Apply, Invariant, ValidConfig, Continue, Total;
    NothingToDo(g, s, p, c, checks);
    if At(s, p, Numbered) {
      ReserveOutcome(g, s, p, checks.atReserve);
      ApplyKeeps(g, s, Reserve(p, checks.atReserve));
      ContinueEnds(g, Apply(g, s, Reserve(p, checks.atReserve)), p, c, checks);
    } else {
      ContinueEnds(g, s, p, c, checks);
    }
  }

  lemma PlaceEnds(g: Config, s: State, p: nat, c: nat, checks: Checks)
    requires ValidConfig(g) && Invariant(g, s) && p < |s.placements| && !At(s, p, Stranded)
    requires s.placements[p].executor.Pool? ==> Reaches(s, p, c)
    ensures EndsAs(s, PlaceAlone(g, s, p, c, checks), p, WillComplete(g, s, p, c, checks))
  {
    hide Apply, Invariant, ValidConfig, Continue, Total;
    NothingToDo(g, s, p, c, checks);
    if At(s, p, Requested) {
      AdmitOutcome(g, s, p, checks.atStart);
      ApplyKeeps(g, s, Admit(p, checks.atStart));
      ReserveEnds(g, Apply(g, s, Admit(p, checks.atStart)), p, c, checks);
    } else {
      ReserveEnds(g, s, p, c, checks);
    }
  }

  /** From every reachable state, whatever else is under way, every placement can be brought to its
      end by its own moves, wherever it stands; it completes if and only if what it still has to do
      succeeds, and it touches no other placement. */
  lemma EveryPlacementFinishes(g: Config, moves: seq<Move>, p: nat, c: nat, checks: Checks)
    requires ValidConfig(g) && p < |After(g, moves).placements|
    requires After(g, moves).placements[p].executor.Pool? ==> Reaches(After(g, moves), p, c)
    ensures
      var s := After(g, moves);
      EndsAs(s, PlaceAlone(g, s, p, c, checks), p, WillComplete(g, s, p, c, checks))
  {
    RunKeeps(g, moves);
    assert Sound(g, After(g, moves), After(g, moves).placements[p]);
    hide After, PlaceAlone, EndsAs, WillComplete, Invariant, ValidConfig, Reaches;
    PlaceEnds(g, After(g, moves), p, c, checks);
  }
}
