/** Isolation over whole runs: until a transaction commits, what is done inside it makes no
    difference to anybody else. */
module Isolation {
  import opened Records
  import opened MemoryStore
  import opened Serializability
  import opened Atomicity

  /** The action reads or writes within transaction t, which is open. */
  predicate Inside(s: Store, t: nat, a: Action) {
    (a.Insert? || a.Find? || a.CreateSchema?) && Connected(s, a.c) && s.current[a.c] == Some(t)
  }

  /** The actions of a run that are not inside transaction t. */
  function Outside(s: Store, t: nat, actions: seq<Action>): seq<Action> {
    if actions == [] then []
    else
      var front, last := actions[..|actions| - 1], actions[|actions| - 1];
      Outside(s, t, front) + if Inside(Run(s, front), t, last) then [] else [last]
  }

  /** What the actions outside transaction t are answered in the whole run. */
  function OutsideReplies(s: Store, t: nat, actions: seq<Action>): seq<Reply> {
    if actions == [] then []
    else
      var front, last := actions[..|actions| - 1], actions[|actions| - 1];
      OutsideReplies(s, t, front)
      + if Inside(Run(s, front), t, last) then [] else [Step(Run(s, front), last).reply]
  }

  /** The action commits transaction t while it is open. */
  predicate Commits(s: Store, t: nat, a: Action) {
    a == Commit(t) && Begun(s, t) && Active(s, t)
  }

  predicate NeverCommits(s: Store, t: nat, actions: seq<Action>) {
    forall i :: 0 <= i < |actions| ==> !Commits(Run(s, actions[..i]), t, actions[i])
  }

  /** The two stores differ in the overlay of transaction t at most. */
  ghost predicate SameUpTo(t: nat, s: Store, s': Store) {
    && s.records == s'.records && s.schema == s'.schema && s.current == s'.current
    && |s.transactions| == |s'.transactions|
    && forall u :: 0 <= u < |s.transactions| ==>
         && s.transactions[u].connection == s'.transactions[u].connection
         && s.transactions[u].done == s'.transactions[u].done
         && (u != t ==> s.transactions[u] == s'.transactions[u])
  }

  lemma InsideStep(t: nat, s: Store, s': Store, a: Action)
    requires Lifecycle(s) && SameUpTo(t, s, s') && Inside(s, t, a)
    ensures SameUpTo(t, Step(s, a).store, s')
  {
    hide Step;
    InnerEffect(s, a);
  }

  /** Two steps with the same answer, to stores that still differ in that overlay at most. */
  ghost predicate Alike(t: nat, o: Outcome, o': Outcome) {
    SameUpTo(t, o.store, o'.store) && o.reply == o'.reply
  }

  lemma SameViews(t: nat, s: Store, s': Store, c: nat)
    requires SameUpTo(t, s, s') && Connected(s, c) && s.current[c] != Some(t)
    ensures Connected(s', c) && ViewOf(s, c) == ViewOf(s', c)
    ensures ViewOf(s, c).overlay.Some? <==> s.current[c].Some?
  {
  }

  lemma SameWithView(t: nat, s: Store, s': Store, c: nat, v: View)
    requires SameUpTo(t, s, s') && Connected(s, c) && s.current[c] != Some(t)
    ensures Connected(s', c) && SameUpTo(t, WithView(s, c, v), WithView(s', c, v))
  {
  }

  lemma SameEnded(t: nat, s: Store, s': Store, c: nat)
    requires SameUpTo(t, s, s') && Connected(s, c) && s.current[c].Some?
    ensures Connected(s', c) && SameUpTo(t, Ended(s, c), Ended(s', c))
  {
  }

  lemma OpeningStep(t: nat, s: Store, s': Store, a: Action)
    requires SameUpTo(t, s, s') && (a.Connect? || a.Begin?)
    ensures Alike(t, Step(s, a), Step(s', a))
  {
  }

  lemma WorkingStep(t: nat, s: Store, s': Store, a: Action)
    requires SameUpTo(t, s, s') && (a.Insert? || a.Find? || a.CreateSchema?) && !Inside(s, t, a)
    ensures Alike(t, Step(s, a), Step(s', a))
  {
    hide WithView, ViewOf, InsertIn, FindIn;
    if Known(s, a) {
      SameViews(t, s, s', a.c);
      match a
      case Insert(c, r) => SameWithView(t, s, s', c, InsertIn(ViewOf(s, c), r).0);
      case CreateSchema(c) => SameWithView(t, s, s', c, CreateSchemaIn(ViewOf(s, c)));
      case _ =>
    }
  }

  lemma EndingStep(t: nat, s: Store, s': Store, a: Action)
    requires Lifecycle(s) && SameUpTo(t, s, s') && (a.Commit? || a.Rollback?) && !Commits(s, t, a)
    ensures Alike(t, Step(s, a), Step(s', a))
  {
    hide WithView, ViewOf, CommitIn, Ended;
    if Known(s, a) && Active(s, a.t) {
      var c := s.transactions[a.t].connection;
      if a.Rollback? {
        SameEnded(t, s, s', c);
      } else {
        SameViews(t, s, s', c);
        SameWithView(t, s, s', c, CommitIn(ViewOf(s, c)).0);
      }
    }
  }

  lemma OutsideStep(t: nat, s: Store, s': Store, a: Action)
    requires Lifecycle(s) && SameUpTo(t, s, s') && !Inside(s, t, a) && !Commits(s, t, a)
    ensures Alike(t, Step(s, a), Step(s', a))
  {
    hide Step, Alike, SameUpTo;
    if a.Connect? || a.Begin? {
      OpeningStep(t, s, s', a);
    } else if a.Commit? || a.Rollback? {
      EndingStep(t, s, s', a);
    } else {
      WorkingStep(t, s, s', a);
    }
  }

  /** Leave out of a run everything done inside a transaction that does not commit in it: nobody
      else can tell. Every other action gets the same answer, and in the end the committed records,
      the schema, the connections and all other transactions are the same. */
  lemma {:induction false} InvisibleUntilCommitted(s: Store, t: nat, actions: seq<Action>)
    requires Lifecycle(s) && NeverCommits(s, t, actions)
    ensures OutsideReplies(s, t, actions) == Replies(s, Outside(s, t, actions))
    ensures SameUpTo(t, Run(s, actions), Run(s, Outside(s, t, actions)))
  {
    if actions != [] {
      var front, last := actions[..|actions| - 1], actions[|actions| - 1];
      assert forall i :: 0 <= i < |front| ==> front[..i] == actions[..i];
      InvisibleUntilCommitted(s, t, front);
      RunKeepsLifecycle(s, front);
      var before, rest := Run(s, front), Outside(s, t, front);
      hide Step, SameUpTo, Inside, Commits, Lifecycle;
      if Inside(before, t, last) {
        assert Outside(s, t, actions) == rest;
        InsideStep(t, before, Run(s, rest), last);
      } else {
        OutsideStep(t, before, Run(s, rest), last);
        assert Outside(s, t, actions) == rest + [last] && (rest + [last])[..|rest|] == rest;
      }
    }
  }

  /** What connection c finds in a run: the committed records, overlaid with the records whose
      insertion its own open transaction saw accepted. */
  function Readable(h: History, c: nat): Database
    requires Aligned(h) && Connected(h.store, c)
  {
    if h.store.current[c].None? then h.store.records
    else h.store.records + Accepted(h.logs[h.store.current[c].value])
  }

  lemma ReadableIsVisible(h: History, c: nat)
    requires OverlaysAreAccepted(h) && Connected(h.store, c)
    ensures Readable(h, c) == Visible(ViewOf(h.store, c)) && ViewOf(h.store, c).schema == h.store.schema
  {
    hide Accepted, Lifecycle;
  }

  /** In every run, every lookup answers from the committed records and the accepted inserts of the
      connection's own open transaction, and from nothing else. */
  lemma FindsCommittedOrOwn(actions: seq<Action>, c: nat, id: string)
    requires Connected(Run(NEW_DATABASE, actions), c)
    ensures
      var h := ObserveAll(actions);
      Step(h.store, Find(c, id)).reply
      == Row(if id in Readable(h, c) then Some(Readable(h, c)[id]) else None)
  {
    hide ObserveAll, Accepted, Run, FindIn, Readable, Visible, ViewOf, OverlaysAreAccepted, Lifecycle;
    OverlaysAlwaysAccepted(actions);
    SchemaAlwaysReady(actions);
    ReadableIsVisible(ObserveAll(actions), c);
    FindReadsThrough(ViewOf(ObserveAll(actions).store, c), id);
  }
}
