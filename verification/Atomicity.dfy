/** A transaction takes effect as a whole at its commit, or not at all. */
module Atomicity {
  import opened Records
  import opened MemoryStore
  import opened Serializability

  /** The records whose insertion a transaction saw accepted. */
  function Accepted(log: seq<Event>): Database {
    if log == [] then map[]
    else
      var e := log[|log| - 1];
      var front := Accepted(log[..|log| - 1]);
      if e.Insertion? && e.accepted then front[e.record.id := e.record] else front
  }

  ghost predicate OverlaysAreAccepted(h: History) {
    && Aligned(h) && Lifecycle(h.store)
    && forall t :: 0 <= t < |h.logs| ==> h.store.transactions[t].overlay.records == Accepted(h.logs[t])
  }

  lemma AcceptOneMore(log: seq<Event>, e: Event)
    ensures Accepted(log + [e])
         == if e.Insertion? && e.accepted then Accepted(log)[e.record.id := e.record] else Accepted(log)
  {
    assert (log + [e])[..|log + [e]| - 1] == log;
  }

  /** One step changes an overlay only by an accepted insert, which is then logged. */
  lemma OverlayStep(h: History, a: Action, t: nat)
    requires OverlaysAreAccepted(h) && t < |Observe(h, a).logs|
    ensures
      var h' := Observe(h, a);
      if t >= |h.logs| then h'.store.transactions[t].overlay.records == map[] && h'.logs[t] == []
      else
        || (h'.store.transactions[t].overlay.records == h.store.transactions[t].overlay.records
            && h'.logs[t] == h.logs[t])
        || exists e ::
             && h'.logs[t] == h.logs[t] + [e]
             && h'.store.transactions[t].overlay.records
                == var staged := h.store.transactions[t].overlay.records;
                   if e.Insertion? && e.accepted then staged[e.record.id := e.record] else staged
  {
    hide Accepted;
    if t < |h.logs| && Observe(h, a).logs[t] != h.logs[t] {
      var e := Seen(a, Step(h.store, a).reply)[0];
      assert Observe(h, a).logs[t] == h.logs[t] + [e];
    }
  }

  lemma ObserveKeepsOverlays(h: History, a: Action)
    requires OverlaysAreAccepted(h)
    ensures OverlaysAreAccepted(Observe(h, a))
  {
    hide Step, Observe;
    StepKeepsLifecycle(h.store, a);
    var h' := Observe(h, a);
    forall t | 0 <= t < |h'.logs|
      ensures h'.store.transactions[t].overlay.records == Accepted(h'.logs[t])
    {
      OverlayStep(h, a, t);
      if t < |h.logs| && h'.logs[t] != h.logs[t] {
        AcceptOneMore(h.logs[t], h'.logs[t][|h.logs[t]|]);
      }
    }
  }

  lemma {:induction false} OverlaysAlwaysAccepted(actions: seq<Action>)
    ensures OverlaysAreAccepted(ObserveAll(actions))
  {
    if actions != [] {
      OverlaysAlwaysAccepted(actions[..|actions| - 1]);
      ObserveKeepsOverlays(ObserveAll(actions[..|actions| - 1]), actions[|actions| - 1]);
    }
  }

  /** An action of some run that does not end transaction t. */
  predicate Keeps(t: nat, a: Action) {
    a != Commit(t) && a != Rollback(t)
  }

  ghost predicate StillActive(s: Store, t: nat, s': Store) {
    && Begun(s', t) && Active(s', t)
    && (|s'.current| == 1 ==> s'.records == s.records)
  }

  lemma WorkStaysActive(s: Store, t: nat, a: Action)
    requires Lifecycle(s) && Begun(s, t) && Active(s, t)
    requires Known(s, a) && (a.Insert? || a.Find? || a.CreateSchema?)
    ensures StillActive(s, t, Step(s, a).store)
  {
    hide Step;
    if s.current[a.c].Some? {
      InnerEffect(s, a);
    } else {
      OuterEffect(s, a);
    }
  }

  lemma EndStaysActive(s: Store, t: nat, a: Action)
    requires Lifecycle(s) && Begun(s, t) && Active(s, t) && Keeps(t, a)
    requires Known(s, a) && (a.Commit? || a.Rollback?)
    ensures StillActive(s, t, Step(s, a).store)
  {
    hide Step;
    EndEffect(s, a);
  }

  lemma StepStaysActive(s: Store, t: nat, a: Action)
    requires Lifecycle(s) && Begun(s, t) && Active(s, t) && Keeps(t, a)
    ensures StillActive(s, t, Step(s, a).store)
  {
    hide WithView;
    if Known(s, a) {
      if a.Commit? || a.Rollback? {
        EndStaysActive(s, t, a);
      } else if !a.Connect? && !a.Begin? {
        WorkStaysActive(s, t, a);
      }
    }
  }

  lemma {:induction false} StaysActive(s: Store, t: nat, body: seq<Action>)
    requires Lifecycle(s) && Begun(s, t) && Active(s, t)
    requires forall i :: 0 <= i < |body| ==> Keeps(t, body[i])
    ensures Lifecycle(Run(s, body)) && Begun(Run(s, body), t) && Active(Run(s, body), t)
    ensures |Run(s, body).current| == 1 ==> Run(s, body).records == s.records
  {
    hide Step;
    RunKeepsLifecycle(s, body);
    if body != [] {
      var front, last := body[..|body| - 1], body[|body| - 1];
      StaysActive(s, t, front);
      StepExtends(Run(s, front), last);
      StepStaysActive(Run(s, front), t, last);
      assert 1 <= |Run(s, front).current|;
    }
  }

  /** The history right before transaction t of connection c is ended. */
  ghost predicate EndsWhole(h: History, t: nat) {
    && Aligned(h) && Begun(h.store, t) && Active(h.store, t)
    && var committed, rolledBack := Step(h.store, Commit(t)), Step(h.store, Rollback(t));
    && rolledBack.reply == Done && rolledBack.store.records == h.store.records
    && (if h.store.records.Keys !! Accepted(h.logs[t]).Keys
        then committed.reply == Done && committed.store.records == h.store.records + Accepted(h.logs[t])
        else committed.reply == Refused(DuplicateKey) && committed.store.records == h.store.records)
  }

  lemma ActiveEndsWhole(h: History, t: nat)
    requires OverlaysAreAccepted(h) && Begun(h.store, t) && Active(h.store, t)
    ensures EndsWhole(h, t)
  {
    var v := ViewOf(h.store, h.store.transactions[t].connection);
    assert v.overlay.value.records == Accepted(h.logs[t]);
    assert Conflicts(v) <==> !(v.records.Keys !! v.overlay.value.records.Keys);
  }

  lemma ActiveSinceBegin(before: seq<Action>, c: nat, body: seq<Action>)
    requires
      var s := Run(NEW_DATABASE, before);
      && c < |s.current| && s.current[c].None?
      && forall i :: 0 <= i < |body| ==> Keeps(|s.transactions|, body[i])
    ensures
      var s, s' := Run(NEW_DATABASE, before), Run(NEW_DATABASE, before + [Begin(c)] + body);
      && Begun(s', |s.transactions|) && Active(s', |s.transactions|)
      && (|s'.current| == 1 ==> s'.records == s.records)
  {
    var s := Run(NEW_DATABASE, before);
    var begun := Step(s, Begin(c)).store;
    RunKeepsLifecycle(NEW_DATABASE, before);
    StepKeepsLifecycle(s, Begin(c));
    assert (before + [Begin(c)])[..|before|] == before;
    RunAppend(NEW_DATABASE, before + [Begin(c)], body);
    StaysActive(begun, |s.transactions|, body);
  }

  /** Whatever runs between the begin of a transaction and its end, the transaction is open until
      then, and ending it either adds exactly the records whose insertion it saw accepted, all of
      them new, or adds nothing. A commit is refused exactly when one of them exists by then; with
      a single connection that never happens, because nothing else was committed meanwhile. */
  lemma AllOrNothing(before: seq<Action>, c: nat, body: seq<Action>)
    requires
      var s := Run(NEW_DATABASE, before);
      && c < |s.current| && s.current[c].None?
      && forall i :: 0 <= i < |body| ==> Keeps(|s.transactions|, body[i])
    ensures
      var s := Run(NEW_DATABASE, before);
      var h := ObserveAll(before + [Begin(c)] + body);
      && EndsWhole(h, |s.transactions|)
      && (|h.store.current| == 1 ==>
            h.store.records == s.records && Step(h.store, Commit(|s.transactions|)).reply == Done)
  {
    var actions := before + [Begin(c)] + body;
    var t := |Run(NEW_DATABASE, before).transactions|;
    ActiveSinceBegin(before, c, body);
    OverlaysAlwaysAccepted(actions);
    ActiveEndsWhole(ObserveAll(actions), t);
    if |Run(NEW_DATABASE, actions).current| == 1 {
      HistoriesConsistent(actions, true);
      assert Explained(ObserveAll(actions).store.records, ObserveAll(actions).store.transactions[t].overlay.records,
                       ObserveAll(actions).logs[t], true);
    }
  }
}
