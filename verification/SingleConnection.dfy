/** With the pool limited to one connection, the overlay store behaves as a plain map that is
    copied when a transaction begins and restored when it rolls back. */
module SingleConnection {
  import opened Records
  import opened MemoryStore

  /** `saved` is the copy taken by the open transaction, which is always the last one begun. */
  datatype Plain = Plain(records: map<string, Record>, saved: Option<map<string, Record>>, begun: nat)

  datatype PlainOutcome = PlainOutcome(plain: Plain, reply: Reply)

  function PlainStep(p: Plain, a: Action): PlainOutcome {
    match a
    case Connect => PlainOutcome(p, Refused(NoSuchHandle))
    case Begin(c) =>
      if c != 0 then PlainOutcome(p, Refused(NoSuchHandle))
      else if p.saved.Some? then PlainOutcome(p, Refused(TransactionActive))
      else PlainOutcome(Plain(p.records, Some(p.records), p.begun + 1), Handle(p.begun))
    case CreateSchema(c) =>
      PlainOutcome(p, if c == 0 then Done else Refused(NoSuchHandle))
    case Insert(c, r) =>
      if c != 0 then PlainOutcome(p, Refused(NoSuchHandle))
      else if r.id in p.records then PlainOutcome(p, Refused(DuplicateKey))
      else PlainOutcome(p.(records := p.records[r.id := r]), Done)
    case Find(c, id) =>
      PlainOutcome(p, if c != 0 then Refused(NoSuchHandle)
                      else Row(if id in p.records then Some(p.records[id]) else None))
    case Commit(t) =>
      if t >= p.begun then PlainOutcome(p, Refused(NoSuchHandle))
      else if p.saved.None? || t + 1 != p.begun then PlainOutcome(p, Refused(TransactionComplete))
      else PlainOutcome(p.(saved := None), Done)
    case Rollback(t) =>
      if t >= p.begun then PlainOutcome(p, Refused(NoSuchHandle))
      else if p.saved.None? || t + 1 != p.begun then PlainOutcome(p, Refused(TransactionDone))
      else PlainOutcome(p.(records := p.saved.value, saved := None), Done)
  }

  const ONE_CONNECTION := NEW_DATABASE.(current := [None])

  const NEW_PLAIN := Plain(map[], None, 0)

  /** The visible records are the plain map; the committed ones are its saved copy, and no staged
      key is ever among them. */
  ghost predicate Refines(s: Store, p: Plain) {
    && Lifecycle(s) && s.schema && |s.current| == 1
    && p.begun == |s.transactions|
    && p.records == Visible(ViewOf(s, 0))
    && (if s.current[0].None? then p.saved.None?
        else
          && s.current[0].value + 1 == p.begun
          && p.saved == Some(s.records)
          && s.records.Keys !! s.transactions[s.current[0].value].overlay.records.Keys)
  }

  /** The two steps agree. */
  ghost predicate Agree(o: Outcome, q: PlainOutcome) {
    Refines(o.store, q.plain) && o.reply == q.reply
  }

  lemma InsertRefines(s: Store, p: Plain, r: Record)
    requires Refines(s, p)
    ensures Agree(Step(s, Insert(0, r)), PlainStep(p, Insert(0, r)))
  {
    StepKeepsLifecycle(s, Insert(0, r));
    hide Lifecycle;
    if s.current[0].Some? {
      var staged := s.transactions[s.current[0].value].overlay.records;
      assert s.records + staged[r.id := r] == (s.records + staged)[r.id := r];
    }
  }

  lemma EndRefines(s: Store, p: Plain, a: Action)
    requires Refines(s, p) && (a.Commit? || a.Rollback?)
    ensures Agree(Step(s, a), PlainStep(p, a))
  {
    StepKeepsLifecycle(s, a);
    if Known(s, a) {
      EndEffect(s, a);
    }
    hide WithView, CommitIn;
  }

  lemma OtherRefines(s: Store, p: Plain, a: Action)
    requires Refines(s, p) && (a.Begin? || a.Find? || a.CreateSchema?)
    ensures Agree(Step(s, a), PlainStep(p, a))
  {
    StepKeepsLifecycle(s, a);
    hide Lifecycle;
    assert s.records + map[] == s.records;
  }

  lemma StepRefines(s: Store, p: Plain, a: Action)
    requires Refines(s, p) && !a.Connect?
    ensures Agree(Step(s, a), PlainStep(p, a))
  {
    match a
    case Insert(c, r) => if c == 0 { InsertRefines(s, p, r); }
    case Commit(t) => EndRefines(s, p, a);
    case Rollback(t) => EndRefines(s, p, a);
    case _ => OtherRefines(s, p, a);
  }

  function PlainRun(p: Plain, actions: seq<Action>): Plain {
    if actions == [] then p else PlainStep(PlainRun(p, actions[..|actions| - 1]), actions[|actions| - 1]).plain
  }

  function PlainReplies(p: Plain, actions: seq<Action>): seq<Reply> {
    if actions == [] then []
    else
      var front := actions[..|actions| - 1];
      PlainReplies(p, front) + [PlainStep(PlainRun(p, front), actions[|actions| - 1]).reply]
  }

  predicate NoConnect(actions: seq<Action>) {
    forall i :: 0 <= i < |actions| ==> !actions[i].Connect?
  }

  /** Every operation sequence gets the same answers from both, missed lookups included. */
  lemma {:induction false} RunRefines(actions: seq<Action>)
    requires NoConnect(actions)
    ensures Replies(ONE_CONNECTION, actions) == PlainReplies(NEW_PLAIN, actions)
    ensures Refines(Run(ONE_CONNECTION, actions), PlainRun(NEW_PLAIN, actions))
  {
    if actions != [] {
      var front, last := actions[..|actions| - 1], actions[|actions| - 1];
      RunRefines(front);
      StepRefines(Run(ONE_CONNECTION, front), PlainRun(NEW_PLAIN, front), last);
    }
  }

  /** So the duplicate branch of a commit is never taken over one connection. */
  lemma CommitNeverFindsDuplicates(actions: seq<Action>, t: nat)
    requires NoConnect(actions)
    ensures Step(Run(ONE_CONNECTION, actions), Commit(t)).reply != Refused(DuplicateKey)
  {
    RunRefines(actions);
    StepRefines(Run(ONE_CONNECTION, actions), PlainRun(NEW_PLAIN, actions), Commit(t));
  }
}
