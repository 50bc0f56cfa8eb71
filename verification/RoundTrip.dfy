/** Saving and then finding, over any runs on any number of connections. */
module RoundTrip {
  import opened Records
  import opened Text
  import opened MemoryStore
  import opened Statements
  import opened OrderRepository
  import SingleConnection
  import opened Atomicity

  /** The store after any run over a new database. */
  ghost function Reached(actions: seq<Action>): (s: Store)
    ensures s == Run(NEW_DATABASE, actions)
    ensures Lifecycle(s) && s.schema
    ensures forall c :: 0 <= c < |s.current| ==> Connected(s, c)
  {
    SchemaAlwaysReady(actions);
    Run(NEW_DATABASE, actions)
  }

  function Saved(s: Store, c: nat, cancellation: Cancellation, r: Record): Store
    requires Connected(s, c)
  {
    WithView(s, c, SaveIn(ViewOf(s, c), cancellation, r).0)
  }

  /** What was saved in transaction t, if in any, is not dropped: no rollback of t is accepted, and its
      commit is not refused because someone else committed one of its keys before. */
  predicate NotDropped(s: Store, t: Option<nat>, later: seq<Action>) {
    t.Some? ==> forall i :: 0 <= i < |later| ==> Spares(Run(s, later[..i]), t.value, later[i])
  }

  predicate Spares(s: Store, t: nat, a: Action) {
    && (a == Rollback(t) ==> Step(s, a).reply != Done)
    && (a == Commit(t) ==> Step(s, a).reply != Refused(DuplicateKey))
  }

  /** The record is committed and nothing on connection c hides it, or it is staged in the open
      transaction t of connection c. */
  ghost predicate Stored(s: Store, c: nat, r: Record, t: Option<nat>) {
    && Lifecycle(s) && s.schema && c < |s.current|
    && (Committed(s, c, r) || (t.Some? && Staged(s, c, r, t.value)))
  }

  predicate Committed(s: Store, c: nat, r: Record)
    requires c < |s.current|
  {
    && r.id in s.records && s.records[r.id] == r
    && (s.current[c].Some? ==>
          s.current[c].value < |s.transactions| && r.id !in s.transactions[s.current[c].value].overlay.records)
  }

  predicate Staged(s: Store, c: nat, r: Record, t: nat)
    requires c < |s.current|
  {
    && s.current[c] == Some(t) && t < |s.transactions|
    && r.id in s.transactions[t].overlay.records && s.transactions[t].overlay.records[r.id] == r
  }

  lemma WorkKeepsStored(s: Store, c: nat, r: Record, t: Option<nat>, a: Action)
    requires Stored(s, c, r, t) && Known(s, a) && (a.Insert? || a.Find? || a.CreateSchema?)
    ensures Stored(Step(s, a).store, c, r, t)
  {
    StepKeepsLifecycle(s, a);
    StepExtends(s, a);
    if s.current[a.c].Some? {
      InnerEffect(s, a);
    } else {
      OuterEffect(s, a);
      hide Step;
    }
    hide Lifecycle;
  }

  lemma EndKeepsStored(s: Store, c: nat, r: Record, t: Option<nat>, a: Action)
    requires Stored(s, c, r, t) && Known(s, a) && (a.Commit? || a.Rollback?)
    requires t.Some? ==> Spares(s, t.value, a)
    ensures Stored(Step(s, a).store, c, r, t)
  {
    StepKeepsLifecycle(s, a);
    EndEffect(s, a);
    StepExtends(s, a);
    hide Step;
  }

  lemma StepKeepsStored(s: Store, c: nat, r: Record, t: Option<nat>, a: Action)
    requires Stored(s, c, r, t)
    requires t.Some? ==> Spares(s, t.value, a)
    ensures Stored(Step(s, a).store, c, r, t)
  {
    hide WithView, InsertIn, CommitIn;
    if Known(s, a) {
      if a.Commit? || a.Rollback? {
        EndKeepsStored(s, c, r, t, a);
      } else if a.Connect? || a.Begin? {
        StepKeepsLifecycle(s, a);
      } else {
        WorkKeepsStored(s, c, r, t, a);
      }
    }
  }

  lemma {:induction false} RunKeepsStored(s: Store, c: nat, r: Record, t: Option<nat>, later: seq<Action>)
    requires Stored(s, c, r, t) && NotDropped(s, t, later)
    ensures Stored(Run(s, later), c, r, t)
  {
    if later != [] {
      var front := later[..|later| - 1];
      assert forall i :: 0 <= i < |front| ==> front[..i] == later[..i];
      RunKeepsStored(s, c, r, t, front);
      StepKeepsStored(Run(s, front), c, r, t, later[|later| - 1]);
    }
  }

  lemma SavedIsStored(s: Store, c: nat, cancellation: Cancellation, r: Record)
    requires Lifecycle(s) && s.schema && Connected(s, c) && Int64Record(r)
    requires SaveIn(ViewOf(s, c), cancellation, r).1.Ok?
    ensures Saved(s, c, cancellation, r) == Step(s, Insert(c, r)).store && TrimSpace(r.id) != ""
    ensures Stored(Saved(s, c, cancellation, r), c, r, s.current[c])
  {
    SaveIsInsert(ViewOf(s, c), cancellation, r);
    SaveIsStep(s, c, cancellation, r);
    StepKeepsLifecycle(s, Insert(c, r));
    hide SaveIn, TrimSpace, Int64Record, Lifecycle;
  }

  // ---------- Each record is stored under its own ID ----------

  ghost predicate OwnIDs(s: Store) {
    && Lifecycle(s)
    && (forall id :: id in s.records ==> s.records[id].id == id)
    && forall t, id :: 0 <= t < |s.transactions| && id in s.transactions[t].overlay.records ==>
         s.transactions[t].overlay.records[id].id == id
  }

  lemma WithViewKeepsOwnIDs(s: Store, c: nat, v: View)
    requires OwnIDs(s) && Connected(s, c)
    requires forall id :: id in v.records ==> v.records[id].id == id
    requires v.overlay.Some? ==>
               forall id :: id in v.overlay.value.records ==> v.overlay.value.records[id].id == id
    ensures OwnIDs(WithView(s, c, v))
  {
    WithViewKeepsLifecycle(s, c, v);
    hide Lifecycle;
  }

  lemma StepKeepsOwnIDs(s: Store, a: Action)
    requires OwnIDs(s)
    ensures OwnIDs(Step(s, a).store)
  {
    StepKeepsLifecycle(s, a);
    hide WithView, Lifecycle;
    if Known(s, a) {
      match a
      case CreateSchema(c) => WithViewKeepsOwnIDs(s, c, CreateSchemaIn(ViewOf(s, c)));
      case Insert(c, r) => WithViewKeepsOwnIDs(s, c, InsertIn(ViewOf(s, c), r).0);
      case Commit(t) =>
        if Active(s, t) {
          WithViewKeepsOwnIDs(s, s.transactions[t].connection, CommitIn(ViewOf(s, s.transactions[t].connection)).0);
        }
      case _ =>
    }
  }

  lemma {:induction false} RunKeepsOwnIDs(s: Store, actions: seq<Action>)
    requires OwnIDs(s)
    ensures OwnIDs(Run(s, actions))
  {
    if actions != [] {
      RunKeepsOwnIDs(s, actions[..|actions| - 1]);
      StepKeepsOwnIDs(Run(s, actions[..|actions| - 1]), actions[|actions| - 1]);
    }
  }

  // ---------- The round trip ----------

  /** A stored record is found under its ID exactly when the ID has no surrounding whitespace, which
      a lookup trims and a save does not. */
  lemma StoredIsFound(s: Store, c: nat, r: Record, t: Option<nat>)
    requires Stored(s, c, r, t) && OwnIDs(s) && Connected(s, c) && TrimSpace(r.id) != ""
    ensures FindOrderIn(ViewOf(s, c), false, r.id) == Ok(Some(r)) <==> Trimmed(r.id)
  {
    var v, key := ViewOf(s, c), TrimSpace(r.id);
    TrimSpaceNormalizes(r.id);
    FindTrims(v, r.id);
    FindReturnsVisible(v, key);
    hide Lifecycle, FindOrderIn, TrimSpace, Trimmed;
    assert key in Visible(v) ==> Visible(v)[key].id == key;
  }

  /** After any run, a successful save on any connection, and any later run in which the transaction
      of the save, if there is one, is neither rolled back nor refused at its commit, finding the ID
      on that connection returns exactly the saved record, if and only if the ID has no surrounding
      whitespace. */
  lemma SaveFindRoundTrip(before: seq<Action>, c: nat, r: Record, cancellation: Cancellation, later: seq<Action>)
    requires Int64Record(r) && c < |Reached(before).current|
    requires SaveIn(ViewOf(Reached(before), c), cancellation, r).1.Ok?
    requires NotDropped(Saved(Reached(before), c, cancellation, r), Reached(before).current[c], later)
    ensures
      var s' := Run(Saved(Reached(before), c, cancellation, r), later);
      && Connected(s', c)
      && (FindOrderIn(ViewOf(s', c), false, r.id) == Ok(Some(r)) <==> Trimmed(r.id))
  {
    hide NotDropped, FindOrderIn, SaveIn, Saved, Int64Record, Trimmed, TrimSpace, ViewOf, Step;
    var s := Reached(before);
    var saved := Saved(s, c, cancellation, r);
    SavedIsStored(s, c, cancellation, r);
    RunKeepsStored(saved, c, r, s.current[c], later);
    RunKeepsOwnIDs(NEW_DATABASE, before);
    StepKeepsOwnIDs(s, Insert(c, r));
    RunKeepsOwnIDs(saved, later);
    StoredIsFound(Run(saved, later), c, r, s.current[c]);
  }

  /** Under the same conditions a second save of the ID on that connection is refused as a duplicate,
      whatever else it would save. */
  lemma SecondSaveIsDuplicate(before: seq<Action>, c: nat, r: Record, cancellation: Cancellation, later: seq<Action>,
                              second: Record)
    requires Int64Record(r) && c < |Reached(before).current|
    requires SaveIn(ViewOf(Reached(before), c), cancellation, r).1.Ok?
    requires NotDropped(Saved(Reached(before), c, cancellation, r), Reached(before).current[c], later)
    requires second.id == r.id && ValidRecord(second) && Int64Record(second)
    ensures
      var s' := Run(Saved(Reached(before), c, cancellation, r), later);
      && Connected(s', c)
      && SaveIn(ViewOf(s', c), Cancellation(false, false, false), second) == (ViewOf(s', c), Err(DuplicateKey))
  {
    hide NotDropped, SaveIn, Saved, Int64Record, TrimSpace, Step, ValidRecord, Run;
    var s := Reached(before);
    var saved := Saved(s, c, cancellation, r);
    SavedIsStored(s, c, cancellation, r);
    RunKeepsStored(saved, c, r, s.current[c], later);
    StoredIsDuplicate(Run(saved, later), c, r, s.current[c], second);
  }

  lemma StoredIsDuplicate(s: Store, c: nat, r: Record, t: Option<nat>, second: Record)
    requires Stored(s, c, r, t) && second.id == r.id && ValidRecord(second) && Int64Record(second)
    ensures Connected(s, c)
    ensures SaveIn(ViewOf(s, c), Cancellation(false, false, false), second) == (ViewOf(s, c), Err(DuplicateKey))
  {
    var v := ViewOf(s, c);
    BlankIff(second.id);
    BlankIff(second.sku);
    BlankIff(second.authorizationID);
    SaveOutcome(v, Cancellation(false, false, false), second);
    SaveIsInsert(v, Cancellation(false, false, false), second);
    assert r.id in Visible(v);
    hide SaveIn, InsertIn, TrimSpace, Spaces;
  }

  lemma OneConnectionRun(before: seq<Action>, a: Action, later: seq<Action>)
    ensures Run(Step(Run(NEW_DATABASE, [Connect] + before), a).store, later)
         == Run(SingleConnection.ONE_CONNECTION, before + [a] + later)
  {
    assert (before + [a])[..|before|] == before;
    assert Run(NEW_DATABASE, [Connect]) == SingleConnection.ONE_CONNECTION by {
      assert [Connect][..0] == [];
    }
    hide Step;
    RunAppend(NEW_DATABASE, [Connect], before);
    RunAppend(SingleConnection.ONE_CONNECTION, before + [a], later);
  }

  lemma CommitsOverOneConnection(before: seq<Action>, a: Action, later: seq<Action>, t: nat)
    requires SingleConnection.NoConnect(before + [a] + later)
    ensures
      var s := Run(Step(Run(NEW_DATABASE, [Connect] + before), a).store, later);
      Step(s, Commit(t)).reply != Refused(DuplicateKey)
  {
    hide Run, Step;
    OneConnectionRun(before, a, later);
    SingleConnection.CommitNeverFindsDuplicates(before + [a] + later, t);
  }

  /** Every rollback of t comes after a commit of t. */
  predicate CommittedFirst(t: nat, later: seq<Action>) {
    forall i :: 0 <= i < |later| && later[i] == Rollback(t) ==> Commit(t) in later[..i]
  }

  predicate NoEnd(t: nat, later: seq<Action>) {
    forall i :: 0 <= i < |later| ==> Keeps(t, later[i])
  }

  /** After an attempt to commit it, a transaction is done, whatever follows. */
  lemma CommitEnds(s: Store, t: nat, later: seq<Action>, j: nat)
    requires Lifecycle(s) && Begun(s, t) && j < |later| && later[j] == Commit(t)
    ensures
      var s' := Run(s, later);
      Lifecycle(s') && Begun(s', t) && s'.transactions[t].done
  {
    var before, rest := Run(s, later[..j]), later[j + 1..];
    RunKeepsLifecycle(s, later[..j]);
    RunExtends(s, later[..j]);
    EndEffect(before, Commit(t));
    StepKeepsLifecycle(before, Commit(t));
    StepExtends(before, Commit(t));
    hide Step;
    assert later[..j + 1][..j] == later[..j];
    RunKeepsLifecycle(Run(s, later[..j + 1]), rest);
    RunExtends(Run(s, later[..j + 1]), rest);
    RunAppend(s, later[..j + 1], rest);
    assert later[..j + 1] + rest == later;
  }

  /** A rollback is accepted exactly when the transaction is open. */
  lemma RollbackAcceptedIff(s: Store, t: nat)
    requires Lifecycle(s) && Begun(s, t)
    ensures Step(s, Rollback(t)).reply == Done <==> !s.transactions[t].done
  {
    EndEffect(s, Rollback(t));
  }

  /** The first end of an open transaction decides: it is not rolled back if and only if every
      rollback comes after a commit. */
  lemma {:induction false} RollbacksRefusedIff(s: Store, t: nat, later: seq<Action>)
    requires Lifecycle(s) && Begun(s, t) && Active(s, t)
    ensures CommittedFirst(t, later)
       <==> forall i :: 0 <= i < |later| && later[i] == Rollback(t) ==> Step(Run(s, later[..i]), later[i]).reply != Done
  {
    if CommittedFirst(t, later) {
      forall i | 0 <= i < |later| && later[i] == Rollback(t)
        ensures Step(Run(s, later[..i]), later[i]).reply != Done
      {
        var j :| 0 <= j < |later[..i]| && later[..i][j] == Commit(t);
        CommitEnds(s, t, later[..i], j);
        RollbackAcceptedIff(Run(s, later[..i]), t);
      }
    } else {
      var i := FirstEnd(t, later);
      StaysActive(s, t, later[..i]);
      RollbackAcceptedIff(Run(s, later[..i]), t);
    }
  }

  /** The first rollback that no commit precedes. */
  lemma {:induction false} FirstEnd(t: nat, later: seq<Action>) returns (i: nat)
    requires !CommittedFirst(t, later)
    ensures i < |later| && later[i] == Rollback(t) && NoEnd(t, later[..i])
  {
    i :| 0 <= i < |later| && later[i] == Rollback(t) && Commit(t) !in later[..i];
    if !NoEnd(t, later[..i]) {
      assert later[..i][..i] == later[..i];
      var j :| 0 <= j < i && later[..i][j] == Rollback(t);
      assert later[..i][..j] == later[..j] && Commit(t) !in later[..j];
      assert !CommittedFirst(t, later[..i]);
      var k := FirstEnd(t, later[..i]);
      assert later[..i][..k] == later[..k];
      i := k;
    }
  }

  /** Over the pool's one connection a commit is never refused as a duplicate, so there a saved
      record is dropped if and only if its transaction is rolled back before it is committed. */
  lemma OnlyRollbackDrops(before: seq<Action>, r: Record, cancellation: Cancellation, later: seq<Action>)
    requires SingleConnection.NoConnect(before) && SingleConnection.NoConnect(later) && Int64Record(r)
    requires |Reached([Connect] + before).current| > 0
    requires SaveIn(ViewOf(Reached([Connect] + before), 0), cancellation, r).1.Ok?
    ensures
      var s := Reached([Connect] + before);
      NotDropped(Saved(s, 0, cancellation, r), s.current[0], later)
      <==> (s.current[0].Some? ==> CommittedFirst(s.current[0].value, later))
  {
    hide Step, SaveIn, Int64Record, Run, Saved, ViewOf, CommittedFirst;
    var s := Reached([Connect] + before);
    SavedIsStored(s, 0, cancellation, r);
    if s.current[0].Some? {
      var t, saved := s.current[0].value, Saved(s, 0, cancellation, r);
      StaysOpen(s, 0, Insert(0, r));
      RollbacksRefusedIff(saved, t, later);
      forall i | 0 <= i < |later|
        ensures Step(Run(saved, later[..i]), Commit(t)).reply != Refused(DuplicateKey)
      {
        CommitsOverOneConnection(before, Insert(0, r), later[..i], t);
      }
    }
  }

  /** An insert leaves the transaction of its connection open. */
  lemma StaysOpen(s: Store, c: nat, a: Action)
    requires Lifecycle(s) && c < |s.current| && s.current[c].Some? && a.Insert? && a.c == c
    ensures
      var s', t := Step(s, a).store, s.current[c].value;
      Lifecycle(s') && Begun(s', t) && Active(s', t)
  {
    StepKeepsLifecycle(s, a);
    InnerEffect(s, a);
    hide Step;
  }

  /** A save accepts an ID with surrounding whitespace, and no lookup of that ID returns its record. */
  lemma UntrimmedSaveIsAccepted(r: Record)
    requires r == Record(" x", "sku", 1, 1, "payment")
    ensures Int64Record(r) && !Trimmed(r.id) && |Reached([Connect]).current| == 1
    ensures SaveIn(ViewOf(Reached([Connect]), 0), Cancellation(false, false, false), r).1.Ok?
  {
    var s := Reached([Connect]);
    assert s == NEW_DATABASE.(current := [None]) by {
      assert [Connect][..0] == [];
    }
    TrimSpaceNormalizes("sku");
    TrimSpaceNormalizes("payment");
    assert TrimSpace(r.id) == "x" by {
      assert r.id[1..] == "x";
    }
    SaveIsInsert(ViewOf(s, 0), Cancellation(false, false, false), r);
  }
}
