/** The consumer that feeds the serving index (processor/serving_index.py). */
module ServingConsumer {
  import opened Outcomes
  import opened ServingProjection

  // It polls, applies in a local transaction, acknowledges to Kafka, and declares the topic caught up. Crashes
  // fall between any two steps; producers append and retention expires old records at any time. Each topic has its
  // consumer and its table: `R` are the topic's records, `T` is the table and `apply` adds one poll to it.

  datatype Message = Message(partition: nat, offset: nat)

  /** Retained logs: `None` is a tombstone or an unreadable record, which is deliberately skipped. */
  datatype Topic<R> = Topic(log: map<nat, seq<Option<R>>>, low: map<nat, nat>)

  datatype Stage = Polling | Polled(batch: seq<Message>) | Applying(batch: seq<Message>) | Acked(batch: seq<Message>)

  /** One consumer process: fetch positions and the two dictionaries of its catch-up check. */
  datatype Session = Session(position: map<nat, nat>, target: map<nat, nat>, progress: map<nat, nat>, stage: Stage)

  /**
   `committed` is Kafka's, `table` is the local database's. `polls` and `handled` are history: the records of every
   applied poll, and every record applied or deliberately skipped.
   */
  datatype System<R, T> = System(
    topic: Topic<R>, committed: map<nat, nat>, table: T, session: Option<Session>,
    caughtUp: Option<map<nat, nat>>, polls: seq<seq<R>>, handled: set<Message>)

  datatype Action<R> =
    | Produce(partition: nat, record: Option<R>)
    | Expire(partition: nat, low: nat)
    | Subscribe
    | Assign(partitions: set<nat>)
    | Poll(order: seq<nat>)
    | Apply
    | Acknowledge
    | Advance
    | Stop
    | Crash

  function LogOf<R>(t: Topic<R>, p: nat): seq<Option<R>> { if p in t.log then t.log[p] else [] }

  function LowOf<R>(t: Topic<R>, p: nat): nat { if p in t.low then t.low[p] else 0 }

  function Boot<R, T>(empty: T): System<R, T> { System(Topic(map[], map[]), map[], empty, None, None, [], {}) }

  // ---- Steps ---------------------------------------------------------------------------------

  /** The next records of the listed partitions; an expired position restarts at the earliest record. */
  function Fetch<R>(t: Topic<R>, position: map<nat, nat>, order: seq<nat>): (seq<Message>, map<nat, nat>) {
    if order == [] then ([], position)
    else
      var before := Fetch(t, position, order[..|order| - 1]);
      var p := order[|order| - 1];
      if p !in before.1 then before
      else
        var o := if before.1[p] < LowOf(t, p) then LowOf(t, p) else before.1[p];
        if o < |LogOf(t, p)| then (before.0 + [Message(p, o)], before.1[p := o + 1]) else before
  }

  function Records<R>(t: Topic<R>, batch: seq<Message>): seq<R> {
    if batch == [] then []
    else
      var m := batch[|batch| - 1];
      Records(t, batch[..|batch| - 1])
      + if m.offset < |LogOf(t, m.partition)| && LogOf(t, m.partition)[m.offset].Some?
        then [LogOf(t, m.partition)[m.offset].value] else []
  }

  function Start<R, T>(s: System<R, T>, p: nat): nat { if p in s.committed then s.committed[p] else LowOf(s.topic, p) }

  predicate Reached(session: Session) {
    session.target != map[] && forall p | p in session.target :: p in session.progress && session.progress[p] >= session.target[p]
  }

  function Marked<R, T>(s: System<R, T>, session: Session): System<R, T> {
    s.(session := Some(session), caughtUp := if Reached(session) then Some(session.target) else s.caughtUp)
  }

  function Progressed(progress: map<nat, nat>, batch: seq<Message>): map<nat, nat> {
    if batch == [] then progress
    else
      var before := Progressed(progress, batch[..|batch| - 1]);
      var m := batch[|batch| - 1];
      var current := if m.partition in before then before[m.partition] else 0;
      before[m.partition := if current < m.offset + 1 then m.offset + 1 else current]
  }

  /** The positions of the partitions that delivered something. */
  function Acknowledged(position: map<nat, nat>, batch: seq<Message>): map<nat, nat> {
    map p | p in position && (exists m | m in batch :: m.partition == p) :: position[p]
  }

  function SessionStep<R, T>(apply: (T, seq<R>) -> T, s: System<R, T>, session: Session, a: Action<R>): System<R, T> {
    match (a, session.stage)
    case (Assign(partitions), Polling) =>
      Marked(s, Session(
        map p | p in partitions :: Start(s, p),
        session.target + map p | p in partitions :: |LogOf(s.topic, p)|,
        session.progress + map p | p in partitions :: Start(s, p),
        Polling))
    case (Poll(order), Polling) =>
      var fetched := Fetch(s.topic, session.position, order);
      if fetched.0 == [] then s
      else s.(session := Some(session.(position := fetched.1, stage := Polled(fetched.0))))
    case (Apply, Polled(batch)) =>
      var records := Records(s.topic, batch);
      s.(table := apply(s.table, records), polls := s.polls + [records],
         handled := s.handled + (set m | m in batch), session := Some(session.(stage := Applying(batch))))
    case (Acknowledge, Applying(batch)) =>
      s.(committed := s.committed + Acknowledged(session.position, batch),
         session := Some(session.(stage := Acked(batch))))
    case (Advance, Acked(batch)) =>
      Marked(s, session.(progress := Progressed(session.progress, batch), stage := Polling))
    case _ => s
  }

  function Step<R, T>(apply: (T, seq<R>) -> T, s: System<R, T>, a: Action<R>): System<R, T> {
    match a
    case Produce(p, record) => s.(topic := s.topic.(log := s.topic.log[p := LogOf(s.topic, p) + [record]]))
    case Expire(p, low) =>
      if LowOf(s.topic, p) <= low <= |LogOf(s.topic, p)| then s.(topic := s.topic.(low := s.topic.low[p := low])) else s
    case Subscribe => if s.session.None? then s.(session := Some(Session(map[], map[], map[], Polling))) else s
    case Stop => s.(session := None)
    case Crash => s.(session := None, caughtUp := None)
    case _ => if s.session.Some? then SessionStep(apply, s, s.session.value, a) else s
  }

  function Run<R, T>(apply: (T, seq<R>) -> T, s: System<R, T>, actions: seq<Action<R>>): System<R, T> {
    if |actions| == 0 then s else Step(apply, Run(apply, s, actions[..|actions| - 1]), actions[|actions| - 1])
  }

  // ---- Invariant -----------------------------------------------------------------------------

  /** Every record of `p` before `offset` was applied or skipped, or is no longer retained. */
  ghost predicate Covered<R, T>(s: System<R, T>, p: nat, offset: nat) {
    forall o: nat | o < offset :: Message(p, o) in s.handled || o < LowOf(s.topic, p)
  }

  ghost predicate AllCovered<R, T>(s: System<R, T>, offsets: map<nat, nat>) {
    forall p | p in offsets :: Covered(s, p, offsets[p])
  }

  function BatchOf(stage: Stage): seq<Message> { if stage.Polling? then [] else stage.batch }

  /** Positions run ahead of the handled records only by the polled batch. */
  ghost predicate PositionsOk<R, T>(s: System<R, T>, session: Session) {
    && (forall m | m in BatchOf(session.stage) ::
          && m.partition in session.position && m.offset < session.position[m.partition]
          && m.offset < |LogOf(s.topic, m.partition)|
          && (!session.stage.Polled? ==> m in s.handled))
    && (forall p, o: nat | p in session.position && o < session.position[p] ::
          Message(p, o) in s.handled || o < LowOf(s.topic, p) || Message(p, o) in BatchOf(session.stage))
  }

  ghost predicate SessionOk<R, T>(s: System<R, T>) {
    s.session.Some? ==> AllCovered(s, s.session.value.progress) && PositionsOk(s, s.session.value)
  }

  /** A handled decision has been delivered to the table. */
  ghost predicate HandledDelivered<R, T>(s: System<R, T>) {
    forall m | m in s.handled ::
      && m.offset < |LogOf(s.topic, m.partition)|
      && (LogOf(s.topic, m.partition)[m.offset].Some? ==> LogOf(s.topic, m.partition)[m.offset].value in Flattened(s.polls))
  }

  ghost predicate Invariant<R, T>(apply: (T, seq<R>) -> T, empty: T, s: System<R, T>) {
    && AllCovered(s, s.committed)
    && (s.caughtUp.Some? ==> AllCovered(s, s.caughtUp.value))
    && SessionOk(s)
    && HandledDelivered(s)
    && s.table == Folded(apply, empty, s.polls)
  }

  lemma {:induction false} FetchOk<R, T>(s: System<R, T>, session: Session, order: seq<nat>)
    requires PositionsOk(s, session) && session.stage.Polling?
    ensures var f := Fetch(s.topic, session.position, order);
            PositionsOk(s, session.(position := f.1, stage := Polled(f.0)))
  {
    if order != [] {
      FetchOk(s, session, order[..|order| - 1]);
    }
  }

  lemma {:induction false} ProgressedOk<R, T>(s: System<R, T>, session: Session, progress: map<nat, nat>, batch: seq<Message>)
    requires AllCovered(s, progress)
    requires forall m | m in batch :: Covered(s, m.partition, m.offset + 1)
    ensures AllCovered(s, Progressed(progress, batch))
  {
    if batch != [] {
      ProgressedOk(s, session, progress, batch[..|batch| - 1]);
    }
  }

  lemma {:induction false} RecordsContain<R>(t: Topic<R>, batch: seq<Message>, m: Message)
    requires m in batch && m.offset < |LogOf(t, m.partition)| && LogOf(t, m.partition)[m.offset].Some?
    ensures LogOf(t, m.partition)[m.offset].value in Records(t, batch)
  {
    if m != batch[|batch| - 1] {
      RecordsContain(t, batch[..|batch| - 1], m);
    }
  }

  lemma ApplyDelivers<R, T>(apply: (T, seq<R>) -> T, s: System<R, T>, session: Session, batch: seq<Message>)
    requires HandledDelivered(s) && PositionsOk(s, session) && session.stage == Polled(batch)
    ensures HandledDelivered(SessionStep(apply, s, session, Apply))
  {
    var records := Records(s.topic, batch);
    assert (s.polls + [records])[..|s.polls|] == s.polls;
    assert Flattened(s.polls + [records]) == Flattened(s.polls) + records;
    hide Records, Flattened, Acknowledged, Progressed, Fetch;
    forall m | m in batch && LogOf(s.topic, m.partition)[m.offset].Some?
      ensures LogOf(s.topic, m.partition)[m.offset].value in records
    {
      RecordsContain(s.topic, batch, m);
    }
  }

  lemma ApplyOk<R, T>(apply: (T, seq<R>) -> T, empty: T, s: System<R, T>, session: Session, batch: seq<Message>)
    requires Invariant(apply, empty, s) && s.session == Some(session) && session.stage == Polled(batch)
    ensures Invariant(apply, empty, SessionStep(apply, s, session, Apply))
  {
    hide Records, Flattened, HandledDelivered, Acknowledged, Progressed, Fetch;
    ApplyDelivers(apply, s, session, batch);
    var records := Records(s.topic, batch);
    assert (s.polls + [records])[..|s.polls|] == s.polls;
    assert Folded(apply, empty, s.polls + [records]) == apply(Folded(apply, empty, s.polls), records);
    hide Folded;
  }

  lemma AssignOk<R, T>(apply: (T, seq<R>) -> T, empty: T, s: System<R, T>, session: Session, partitions: set<nat>)
    requires Invariant(apply, empty, s) && s.session == Some(session) && session.stage.Polling?
    ensures Invariant(apply, empty, SessionStep(apply, s, session, Assign(partitions)))
  {
    hide Folded, Progressed, Fetch, Records, Acknowledged;
    var start := map p | p in partitions :: Start(s, p);
    forall p | p in start ensures Covered(s, p, start[p]) {
      assert p in s.committed ==> Covered(s, p, s.committed[p]);
    }
    assert AllCovered(s, session.progress + start);
    var next := Session(start, session.target + map p | p in partitions :: |LogOf(s.topic, p)|, session.progress + start, Polling);
    assert PositionsOk(s, next) by {
      forall p, o: nat | p in start && o < start[p] ensures Message(p, o) in s.handled || o < LowOf(s.topic, p) {
        assert Covered(s, p, start[p]);
      }
    }
  }

  lemma AcknowledgeOk<R, T>(apply: (T, seq<R>) -> T, empty: T, s: System<R, T>, session: Session, batch: seq<Message>)
    requires Invariant(apply, empty, s) && s.session == Some(session) && session.stage == Applying(batch)
    ensures Invariant(apply, empty, SessionStep(apply, s, session, Acknowledge))
  {
    hide Folded;
    var next := SessionStep(apply, s, session, Acknowledge);
    var acked := Acknowledged(session.position, batch);
    forall p | p in acked ensures Covered(s, p, acked[p]) {
      forall m | m in batch ensures m in s.handled {
      }
    }
    assert AllCovered(s, next.committed);
  }

  lemma AdvanceOk<R, T>(apply: (T, seq<R>) -> T, empty: T, s: System<R, T>, session: Session, batch: seq<Message>)
    requires Invariant(apply, empty, s) && s.session == Some(session) && session.stage == Acked(batch)
    ensures Invariant(apply, empty, SessionStep(apply, s, session, Advance))
  {
    hide Folded;
    ProgressedOk(s, session, session.progress, batch);
  }

  lemma SessionStepOk<R, T>(apply: (T, seq<R>) -> T, empty: T, s: System<R, T>, session: Session, a: Action<R>)
    requires Invariant(apply, empty, s) && s.session == Some(session)
    ensures Invariant(apply, empty, SessionStep(apply, s, session, a))
  {
    hide Folded;
    match (a, session.stage)
    case (Assign(partitions), Polling) => AssignOk(apply, empty, s, session, partitions);
    case (Poll(order), Polling) => FetchOk(s, session, order);
    case (Apply, Polled(batch)) => ApplyOk(apply, empty, s, session, batch);
    case (Acknowledge, Applying(batch)) => AcknowledgeOk(apply, empty, s, session, batch);
    case (Advance, Acked(batch)) => AdvanceOk(apply, empty, s, session, batch);
    case _ =>
  }

  lemma StepOk<R, T>(apply: (T, seq<R>) -> T, empty: T, s: System<R, T>, a: Action<R>)
    requires Invariant(apply, empty, s)
    ensures Invariant(apply, empty, Step(apply, s, a))
  {
    hide Folded, SessionStep;
    match a
    case Produce(p, record) =>
      var next := Step(apply, s, a);
      assert forall q :: LogOf(s.topic, q) <= LogOf(next.topic, q);
    case Expire(p, low) =>
      var next := Step(apply, s, a);
      assert forall q :: LowOf(s.topic, q) <= LowOf(next.topic, q) && LogOf(next.topic, q) == LogOf(s.topic, q);
    case Subscribe =>
    case Stop =>
    case Crash =>
    case _ =>
      if s.session.Some? {
        SessionStepOk(apply, empty, s, s.session.value, a);
      }
  }

  lemma {:induction false} RunOk<R, T>(apply: (T, seq<R>) -> T, empty: T, actions: seq<Action<R>>)
    ensures Invariant(apply, empty, Run(apply, Boot(empty), actions))
  {
    if |actions| != 0 {
      RunOk(apply, empty, actions[..|actions| - 1]);
      StepOk(apply, empty, Run(apply, Boot(empty), actions[..|actions| - 1]), actions[|actions| - 1]);
    }
  }

  // ---- Promises, for either topic ------------------------------------------------------------

  /** The acknowledged offset never passes the applied prefix of what is retained. */
  lemma AcknowledgedIsApplied<R, T>(apply: (T, seq<R>) -> T, empty: T, actions: seq<Action<R>>, p: nat, o: nat)
    requires var s := Run(apply, Boot(empty), actions); p in s.committed && o < s.committed[p] && LowOf(s.topic, p) <= o
    ensures Message(p, o) in Run(apply, Boot(empty), actions).handled
  {
    RunOk(apply, empty, actions);
    var s := Run(apply, Boot(empty), actions);
    assert Covered(s, p, s.committed[p]);
  }

  // ---- Nothing acknowledged comes again --------------------------------------------------------

  /** Positions never fall behind what is acknowledged, and what is polled is beyond it until it is acknowledged itself. */
  ghost predicate Ahead<R, T>(s: System<R, T>, session: Session) {
    && (forall p | p in session.position && p in s.committed :: s.committed[p] <= session.position[p])
    && (forall m | m in BatchOf(session.stage) :: m.partition in session.position && m.offset < session.position[m.partition])
    && (session.stage.Polled? || session.stage.Applying? ==>
          forall m | m in session.stage.batch && m.partition in s.committed :: s.committed[m.partition] <= m.offset)
    && (session.stage.Acked? ==>
          forall m | m in session.stage.batch :: m.partition in s.committed && m.offset < s.committed[m.partition])
  }

  lemma {:induction false} FetchAhead<R>(t: Topic<R>, position: map<nat, nat>, order: seq<nat>)
    ensures var f := Fetch(t, position, order);
            && f.1.Keys == position.Keys
            && (forall p | p in position :: position[p] <= f.1[p])
            && forall m | m in f.0 :: m.partition in position && position[m.partition] <= m.offset < f.1[m.partition]
  {
    if order != [] {
      FetchAhead(t, position, order[..|order| - 1]);
    }
  }

  lemma AheadStep<R, T>(apply: (T, seq<R>) -> T, s: System<R, T>, a: Action<R>)
    requires s.session.Some? ==> Ahead(s, s.session.value)
    ensures var next := Step(apply, s, a); next.session.Some? ==> Ahead(next, next.session.value)
  {
    hide Fetch, Records, Progressed, Reached;
    if s.session.Some? {
      var session := s.session.value;
      match (a, session.stage)
      case (Poll(order), Polling) => FetchAhead(s.topic, session.position, order);
      case (Acknowledge, Applying(batch)) =>
        forall m | m in batch ensures m.partition in Acknowledged(session.position, batch) {
        }
      case _ =>
    }
  }

  lemma {:induction false} RunAhead<R, T>(apply: (T, seq<R>) -> T, empty: T, actions: seq<Action<R>>)
    ensures var s := Run(apply, Boot(empty), actions); s.session.Some? ==> Ahead(s, s.session.value)
  {
    hide Step, Ahead;
    if |actions| != 0 {
      RunAhead(apply, empty, actions[..|actions| - 1]);
      AheadStep(apply, Run(apply, Boot(empty), actions[..|actions| - 1]), actions[|actions| - 1]);
    }
  }

  /**
   In every run a record is delivered only while it is not acknowledged, and once its poll is acknowledged the
   acknowledged offset is past it: redelivery needs a crash or a stop in between.
   */
  lemma AcknowledgedIsNotRedelivered<R, T>(apply: (T, seq<R>) -> T, empty: T, actions: seq<Action<R>>, m: Message)
    requires var s := Run(apply, Boot(empty), actions); s.session.Some? && m in BatchOf(s.session.value.stage)
    ensures var s := Run(apply, Boot(empty), actions);
            var acknowledged := m.partition in s.committed && m.offset < s.committed[m.partition];
            acknowledged <==> s.session.value.stage.Acked?
  {
    RunAhead(apply, empty, actions);
  }

  // ---- The marks -----------------------------------------------------------------------------

  /** Where an assignment of `p` happened in a run, and how long its log was at that moment. */
  ghost predicate MarkAt<R, T>(apply: (T, seq<R>) -> T, empty: T, actions: seq<Action<R>>, n: nat, p: nat, mark: nat) {
    && n < |actions| && actions[n].Assign? && p in actions[n].partitions
    && mark == |LogOf(Run(apply, Boot(empty), actions[..n]).topic, p)|
  }

  ghost predicate IsMark<R, T>(apply: (T, seq<R>) -> T, empty: T, actions: seq<Action<R>>, p: nat, mark: nat) {
    exists n: nat :: MarkAt(apply, empty, actions, n, p, mark)
  }

  /** The partitions assigned since the current session began. */
  function AssignedSince<R, T>(apply: (T, seq<R>) -> T, empty: T, actions: seq<Action<R>>): set<nat> {
    if |actions| == 0 then {}
    else
      var front, a := actions[..|actions| - 1], actions[|actions| - 1];
      var s := Run(apply, Boot(empty), front);
      if s.session.None? then {}
      else if a.Stop? || a.Crash? then {}
      else if a.Assign? && s.session.value.stage.Polling? then AssignedSince(apply, empty, front) + a.partitions
      else AssignedSince(apply, empty, front)
  }

  ghost predicate SessionMarksOk<R, T>(apply: (T, seq<R>) -> T, empty: T, actions: seq<Action<R>>) {
    var s := Run(apply, Boot(empty), actions);
    s.session.Some? ==>
      && s.session.value.target.Keys == AssignedSince(apply, empty, actions)
      && forall p | p in s.session.value.target :: IsMark(apply, empty, actions, p, s.session.value.target[p])
  }

  ghost predicate CaughtUpMarksOk<R, T>(apply: (T, seq<R>) -> T, empty: T, actions: seq<Action<R>>, marks: map<nat, nat>) {
    && marks != map[]
    && (forall p | p in marks :: IsMark(apply, empty, actions, p, marks[p]))
    && exists k: nat :: k <= |actions| && marks.Keys == AssignedSince(apply, empty, actions[..k])
  }

  ghost predicate MarksOk<R, T>(apply: (T, seq<R>) -> T, empty: T, actions: seq<Action<R>>) {
    var s := Run(apply, Boot(empty), actions);
    SessionMarksOk(apply, empty, actions) && (s.caughtUp.Some? ==> CaughtUpMarksOk(apply, empty, actions, s.caughtUp.value))
  }

  lemma MarkStays<R, T>(apply: (T, seq<R>) -> T, empty: T, actions: seq<Action<R>>, a: Action<R>, p: nat, mark: nat)
    requires IsMark(apply, empty, actions, p, mark)
    ensures IsMark(apply, empty, actions + [a], p, mark)
  {
    var n: nat :| MarkAt(apply, empty, actions, n, p, mark);
    assert (actions + [a])[..n] == actions[..n];
    assert MarkAt(apply, empty, actions + [a], n, p, mark);
  }

  lemma NewMark<R, T>(apply: (T, seq<R>) -> T, empty: T, actions: seq<Action<R>>, a: Action<R>, p: nat)
    requires a.Assign? && p in a.partitions
    ensures IsMark(apply, empty, actions + [a], p, |LogOf(Run(apply, Boot(empty), actions).topic, p)|)
  {
    assert (actions + [a])[..|actions|] == actions;
    assert MarkAt(apply, empty, actions + [a], |actions|, p, |LogOf(Run(apply, Boot(empty), actions).topic, p)|);
  }

  lemma {:induction false} RunMarks<R, T>(apply: (T, seq<R>) -> T, empty: T, actions: seq<Action<R>>)
    ensures MarksOk(apply, empty, actions)
  {
    if |actions| != 0 {
      var front, a := actions[..|actions| - 1], actions[|actions| - 1];
      RunMarks(apply, empty, front);
      StepMarks(apply, empty, front, a);
      assert front + [a] == actions;
    } else {
      assert Run(apply, Boot(empty), actions) == Boot(empty);
    }
  }

  lemma StepMarks<R, T>(apply: (T, seq<R>) -> T, empty: T, front: seq<Action<R>>, a: Action<R>)
    requires MarksOk(apply, empty, front)
    ensures MarksOk(apply, empty, front + [a])
  {
    var actions := front + [a];
    var s := Run(apply, Boot(empty), front);
    assert actions[..|front|] == front && actions[..|actions|] == actions;
    TargetAfter(apply, s, a);
    var next := Step(apply, s, a);
    assert Run(apply, Boot(empty), actions) == next;
    hide Run, IsMark, Step, LogOf, AssignedSince, CaughtUpMarksOk;
    if next.session.Some? {
      SessionMarks(apply, empty, front, a, next.session.value.target);
    }
    if next.caughtUp.Some? && next.caughtUp == s.caughtUp {
      CaughtUpMarksStay(apply, empty, front, a, s.caughtUp.value);
    } else if next.caughtUp.Some? {
      NewCaughtUpMarks(apply, empty, actions, next.caughtUp.value);
    }
  }

  lemma CaughtUpMarksStay<R, T>(apply: (T, seq<R>) -> T, empty: T, front: seq<Action<R>>, a: Action<R>, marks: map<nat, nat>)
    requires CaughtUpMarksOk(apply, empty, front, marks)
    ensures CaughtUpMarksOk(apply, empty, front + [a], marks)
  {
    hide IsMark, AssignedSince;
    forall p | p in marks ensures IsMark(apply, empty, front + [a], p, marks[p]) {
      MarkStays(apply, empty, front, a, p, marks[p]);
    }
    var k: nat :| k <= |front| && marks.Keys == AssignedSince(apply, empty, front[..k]);
    assert (front + [a])[..k] == front[..k];
  }

  lemma NewCaughtUpMarks<R, T>(apply: (T, seq<R>) -> T, empty: T, actions: seq<Action<R>>, marks: map<nat, nat>)
    requires marks != map[] && marks.Keys == AssignedSince(apply, empty, actions)
    requires forall p | p in marks :: IsMark(apply, empty, actions, p, marks[p])
    ensures CaughtUpMarksOk(apply, empty, actions, marks)
  {
    hide IsMark, AssignedSince;
    assert actions[..|actions|] == actions;
  }

  lemma SessionMarks<R, T>(apply: (T, seq<R>) -> T, empty: T, front: seq<Action<R>>, a: Action<R>, target: map<nat, nat>)
    requires SessionMarksOk(apply, empty, front)
    requires var next := Step(apply, Run(apply, Boot(empty), front), a); next.session.Some? && next.session.value.target == target
    ensures target.Keys == AssignedSince(apply, empty, front + [a])
    ensures forall p | p in target :: IsMark(apply, empty, front + [a], p, target[p])
  {
    hide Run, IsMark, Step, LogOf, AssignedSince;
    var s := Run(apply, Boot(empty), front);
    TargetAfter(apply, s, a);
    AssignedAfter(apply, empty, front, a);
    forall p | p in target ensures IsMark(apply, empty, front + [a], p, target[p]) {
      if a.Assign? && p in a.partitions && s.session.value.stage.Polling? {
        NewMark(apply, empty, front, a, p);
      } else {
        MarkStays(apply, empty, front, a, p, target[p]);
      }
    }
  }

  lemma AssignedAfter<R, T>(apply: (T, seq<R>) -> T, empty: T, front: seq<Action<R>>, a: Action<R>)
    ensures var s := Run(apply, Boot(empty), front);
            AssignedSince(apply, empty, front + [a]) ==
              if s.session.None? || a.Stop? || a.Crash? then {}
              else if a.Assign? && s.session.value.stage.Polling? then AssignedSince(apply, empty, front) + a.partitions
              else AssignedSince(apply, empty, front)
  {
    hide Run;
    assert (front + [a])[..|front|] == front;
  }

  /** Only an assignment adds marks, and only the session's marks are declared reached. */
  lemma TargetAfter<R, T>(apply: (T, seq<R>) -> T, s: System<R, T>, a: Action<R>)
    ensures var next := Step(apply, s, a);
            && (a.Stop? || a.Crash? ==> next.session.None?)
            && (next.session.Some? && s.session.None? ==> next.session.value.target == map[])
            && (next.session.Some? && s.session.Some? ==>
                  next.session.value.target ==
                    if a.Assign? && s.session.value.stage.Polling?
                    then s.session.value.target + map p | p in a.partitions :: |LogOf(s.topic, p)| else s.session.value.target)
            && (next.caughtUp.Some? && next.caughtUp != s.caughtUp ==>
                  next.session.Some? && next.caughtUp.value == next.session.value.target && next.caughtUp.value != map[])
  {
  }

  /** What was in the log of `p` when it was assigned, and is still retained, has been applied or skipped. */
  ghost predicate HandledSince<R, T>(apply: (T, seq<R>) -> T, empty: T, actions: seq<Action<R>>, n: nat, p: nat)
    requires n <= |actions|
  {
    var s := Run(apply, Boot(empty), actions);
    forall o: nat | LowOf(s.topic, p) <= o < |LogOf(Run(apply, Boot(empty), actions[..n]).topic, p)| :: Message(p, o) in s.handled
  }

  /**
   Caught up: the topic's assigned partitions, at least one, have marks, and each mark is the length its log had at
   one of its assignments. Every record then in that log and still retained has been applied or deliberately skipped.
   */
  lemma CaughtUpMeans<R, T>(apply: (T, seq<R>) -> T, empty: T, actions: seq<Action<R>>)
    requires Run(apply, Boot(empty), actions).caughtUp.Some?
    ensures var marks := Run(apply, Boot(empty), actions).caughtUp.value;
            && marks != map[]
            && (exists k: nat :: k <= |actions| && marks.Keys == AssignedSince(apply, empty, actions[..k]))
            && forall p | p in marks ::
                 exists n: nat :: MarkAt(apply, empty, actions, n, p, marks[p]) && HandledSince(apply, empty, actions, n, p)
  {
    RunMarks(apply, empty, actions);
    RunOk(apply, empty, actions);
    var s := Run(apply, Boot(empty), actions);
    forall p | p in s.caughtUp.value
      ensures exists n: nat :: MarkAt(apply, empty, actions, n, p, s.caughtUp.value[p]) && HandledSince(apply, empty, actions, n, p)
    {
      assert Covered(s, p, s.caughtUp.value[p]);
      var n: nat :| MarkAt(apply, empty, actions, n, p, s.caughtUp.value[p]);
      assert HandledSince(apply, empty, actions, n, p);
    }
  }

  // ---- A consumer left alone catches up ------------------------------------------------------

  predicate OwnAction<R>(a: Action<R>) { a.Poll? || a.Apply? || a.Acknowledge? || a.Advance? }

  ghost predicate OwnActions<R>(actions: seq<Action<R>>) { forall a | a in actions :: OwnAction(a) }

  /** The log of `p` has unread records, and at least one of them is still retained. */
  predicate CanRead<R>(t: Topic<R>, p: nat, from: nat) { from < |LogOf(t, p)| ==> LowOf(t, p) < |LogOf(t, p)| }

  /** A session between two polls whose marks are the ends of its partitions' logs. */
  ghost predicate Ready<R, T>(s: System<R, T>, ps: set<nat>) {
    && s.session.Some? && s.session.value.stage.Polling?
    && s.session.value.position == s.session.value.progress && s.session.value.progress.Keys == ps
    && s.session.value.target == (map p | p in ps :: |LogOf(s.topic, p)|)
    && (forall p | p in ps :: s.session.value.progress[p] <= |LogOf(s.topic, p)|)
    && (Reached(s.session.value) ==> s.caughtUp == Some(s.session.value.target))
  }

  function Turn<R>(p: nat): seq<Action<R>> { [Poll([p]), Apply, Acknowledge, Advance] }

  lemma RunTurn<R, T>(apply: (T, seq<R>) -> T, s: System<R, T>, a: Action<R>, b: Action<R>, c: Action<R>, d: Action<R>)
    ensures Run(apply, s, [a, b, c, d]) == Step(apply, Step(apply, Step(apply, Step(apply, s, a), b), c), d)
  {
    hide Step;
    var none: seq<Action<R>> := [];
    assert [a, b, c, d][..3] == [a, b, c] && [a, b, c][..2] == [a, b] && [a, b][..1] == [a] && [a][..0] == none;
    assert Run(apply, s, none) == s;
    assert Run(apply, s, [a]) == Step(apply, s, a);
    assert Run(apply, s, [a, b]) == Step(apply, Step(apply, s, a), b);
    assert Run(apply, s, [a, b, c]) == Step(apply, Step(apply, Step(apply, s, a), b), c);
  }

  lemma {:induction false} RunThen<R, T>(apply: (T, seq<R>) -> T, s: System<R, T>, first: seq<Action<R>>, second: seq<Action<R>>)
    ensures Run(apply, s, first + second) == Run(apply, Run(apply, s, first), second)
  {
    if |second| == 0 {
      assert first + second == first;
    } else {
      var front := second[..|second| - 1];
      assert (first + second)[..|first + second| - 1] == first + front;
      RunThen(apply, s, first, front);
    }
  }

  /** The next record of `p`: the first unread one that is still retained. */
  function NextOffset<R>(t: Topic<R>, p: nat, from: nat): nat { if from < LowOf(t, p) then LowOf(t, p) else from }

  lemma FetchOne<R>(t: Topic<R>, position: map<nat, nat>, p: nat)
    requires p in position && NextOffset(t, p, position[p]) < |LogOf(t, p)|
    ensures var o := NextOffset(t, p, position[p]); Fetch(t, position, [p]) == ([Message(p, o)], position[p := o + 1])
  {
    var order := [p];
    assert order[..|order| - 1] == [];
    assert Fetch(t, position, order[..|order| - 1]) == ([], position);
    var none: seq<Message> := [];
    assert none + [Message(p, NextOffset(t, p, position[p]))] == [Message(p, NextOffset(t, p, position[p]))];
  }

  lemma OneDelivered(position: map<nat, nat>, progress: map<nat, nat>, p: nat, o: nat)
    requires p in progress && progress[p] <= o && p in position
    ensures Progressed(progress, [Message(p, o)]) == progress[p := o + 1]
  {
    var batch := [Message(p, o)];
    assert batch[..0] == [];
    assert Progressed(progress, batch[..0]) == progress;
  }

  /** One turn over `p` reads, applies, acknowledges and passes one record. */
  lemma ReadOne<R, T>(apply: (T, seq<R>) -> T, s: System<R, T>, ps: set<nat>, p: nat)
    requires Ready(s, ps) && p in ps && NextOffset(s.topic, p, s.session.value.progress[p]) < |LogOf(s.topic, p)|
    ensures var after := Run(apply, s, Turn(p));
            && Ready(after, ps) && after.topic == s.topic
            && after.session.value.progress == s.session.value.progress[p := NextOffset(s.topic, p, s.session.value.progress[p]) + 1]
  {
    hide Run, Step;
    RunTurn(apply, s, Poll([p]), Apply, Acknowledge, Advance);
    var o := NextOffset(s.topic, p, s.session.value.progress[p]);
    var batch := [Message(p, o)];
    PollsOne(apply, s, ps, p);
    var polled := Step(apply, s, Poll([p]));
    Settles(apply, polled, batch);
    var acked := Step(apply, Step(apply, polled, Apply), Acknowledge);
    AdvancesOne(apply, s, acked, ps, p, o);
  }

  lemma PollsOne<R, T>(apply: (T, seq<R>) -> T, s: System<R, T>, ps: set<nat>, p: nat)
    requires Ready(s, ps) && p in ps && NextOffset(s.topic, p, s.session.value.progress[p]) < |LogOf(s.topic, p)|
    ensures var o := NextOffset(s.topic, p, s.session.value.progress[p]);
            var session := s.session.value.(position := s.session.value.position[p := o + 1], stage := Polled([Message(p, o)]));
            Step(apply, s, Poll([p])) == s.(session := Some(session))
  {
    hide Fetch, NextOffset, Reached;
    FetchOne(s.topic, s.session.value.position, p);
  }

  /** Applying and acknowledging a batch leave the session's dictionaries alone. */
  lemma Settles<R, T>(apply: (T, seq<R>) -> T, s: System<R, T>, batch: seq<Message>)
    requires s.session.Some? && s.session.value.stage == Polled(batch)
    ensures var after := Step(apply, Step(apply, s, Apply), Acknowledge);
            && after.topic == s.topic && after.caughtUp == s.caughtUp
            && after.session == Some(s.session.value.(stage := Acked(batch)))
  {
    hide Records, Acknowledged;
  }

  lemma AdvancesOne<R, T>(apply: (T, seq<R>) -> T, s: System<R, T>, acked: System<R, T>, ps: set<nat>, p: nat, o: nat)
    requires Ready(s, ps) && p in ps && s.session.value.progress[p] <= o < |LogOf(s.topic, p)|
    requires acked.topic == s.topic && acked.caughtUp == s.caughtUp
    requires acked.session == Some(s.session.value.(position := s.session.value.position[p := o + 1], stage := Acked([Message(p, o)])))
    ensures var after := Step(apply, acked, Advance);
            Ready(after, ps) && after.topic == s.topic && after.session.value.progress == s.session.value.progress[p := o + 1]
  {
    hide Progressed;
    OneDelivered(s.session.value.position, s.session.value.progress, p, o);
  }

  lemma {:induction false} ReadRest<R, T>(apply: (T, seq<R>) -> T, s: System<R, T>, ps: set<nat>, p: nat) returns (more: seq<Action<R>>)
    requires Ready(s, ps) && p in ps && CanRead(s.topic, p, s.session.value.progress[p])
    ensures OwnActions(more)
    ensures var after := Run(apply, s, more);
            && Ready(after, ps) && after.topic == s.topic
            && after.session.value.progress == s.session.value.progress[p := |LogOf(s.topic, p)|]
    decreases |LogOf(s.topic, p)| - s.session.value.progress[p]
  {
    var progress := s.session.value.progress;
    if progress[p] == |LogOf(s.topic, p)| {
      more := [];
      assert progress[p := |LogOf(s.topic, p)|] == progress;
    } else {
      ReadOne(apply, s, ps, p);
      var after := Run(apply, s, Turn(p));
      var rest := ReadRest(apply, after, ps, p);
      RunThen(apply, s, Turn(p), rest);
      more := Turn(p) + rest;
    }
  }

  lemma {:induction false} ReadAll<R, T>(apply: (T, seq<R>) -> T, s: System<R, T>, ps: set<nat>, todo: set<nat>) returns (more: seq<Action<R>>)
    requires Ready(s, ps) && todo <= ps && forall p | p in todo :: CanRead(s.topic, p, s.session.value.progress[p])
    ensures OwnActions(more)
    ensures var after := Run(apply, s, more);
            && Ready(after, ps) && after.topic == s.topic
            && forall p | p in ps ::
                 after.session.value.progress[p] == if p in todo then |LogOf(s.topic, p)| else s.session.value.progress[p]
    decreases |todo|
  {
    if todo == {} {
      more := [];
    } else {
      var p :| p in todo;
      var first := ReadRest(apply, s, ps, p);
      var after := Run(apply, s, first);
      var rest := ReadAll(apply, after, ps, todo - {p});
      RunThen(apply, s, first, rest);
      more := first + rest;
    }
  }

  /** A session that waits on `p`, of which nothing that is left to read is retained. */
  ghost predicate Stuck<R, T>(s: System<R, T>, p: nat) {
    && s.session.Some? && s.caughtUp.None? && LowOf(s.topic, p) == |LogOf(s.topic, p)|
    && p in s.session.value.target && p in s.session.value.progress && s.session.value.progress[p] < s.session.value.target[p]
    && forall m | m in BatchOf(s.session.value.stage) :: m.partition != p
  }

  lemma {:induction false} FetchSkips<R>(t: Topic<R>, position: map<nat, nat>, order: seq<nat>, p: nat)
    requires LowOf(t, p) == |LogOf(t, p)|
    ensures forall m | m in Fetch(t, position, order).0 :: m.partition != p
  {
    if order != [] {
      FetchSkips(t, position, order[..|order| - 1], p);
    }
  }

  lemma {:induction false} ProgressSkips(progress: map<nat, nat>, batch: seq<Message>, p: nat)
    requires p in progress && forall m | m in batch :: m.partition != p
    ensures p in Progressed(progress, batch) && Progressed(progress, batch)[p] == progress[p]
  {
    if batch != [] {
      ProgressSkips(progress, batch[..|batch| - 1], p);
    }
  }

  lemma StuckStays<R, T>(apply: (T, seq<R>) -> T, s: System<R, T>, p: nat, a: Action<R>)
    requires Stuck(s, p) && OwnAction(a)
    ensures Stuck(Step(apply, s, a), p)
  {
    hide Fetch, Progressed, Records, Acknowledged;
    var session := s.session.value;
    match (a, session.stage)
    case (Poll(order), Polling) => FetchSkips(s.topic, session.position, order, p);
    case (Advance, Acked(batch)) => ProgressSkips(session.progress, batch, p);
    case _ =>
  }

  lemma {:induction false} StuckForever<R, T>(apply: (T, seq<R>) -> T, s: System<R, T>, p: nat, more: seq<Action<R>>)
    requires Stuck(s, p) && OwnActions(more)
    ensures Stuck(Run(apply, s, more), p)
  {
    hide Stuck;
    if |more| != 0 {
      StuckForever(apply, s, p, more[..|more| - 1]);
      StuckStays(apply, Run(apply, s, more[..|more| - 1]), p, more[|more| - 1]);
    }
  }

  ghost predicate LowsWithin<R>(t: Topic<R>) { forall p | p in t.low :: t.low[p] <= |LogOf(t, p)| }

  lemma {:induction false} LowsOk<R, T>(apply: (T, seq<R>) -> T, empty: T, actions: seq<Action<R>>)
    ensures LowsWithin(Run(apply, Boot(empty), actions).topic)
  {
    if |actions| != 0 {
      LowsOk(apply, empty, actions[..|actions| - 1]);
      TopicAfter(apply, Run(apply, Boot(empty), actions[..|actions| - 1]), actions[|actions| - 1]);
    }
  }

  lemma TopicAfter<R, T>(apply: (T, seq<R>) -> T, s: System<R, T>, a: Action<R>)
    requires LowsWithin(s.topic)
    ensures LowsWithin(Step(apply, s, a).topic)
  {
  }

  /** In a reachable state no committed offset is past the end of its log. */
  lemma StartsOk<R, T>(apply: (T, seq<R>) -> T, empty: T, actions: seq<Action<R>>, p: nat)
    ensures var s := Run(apply, Boot(empty), actions); Start(s, p) <= |LogOf(s.topic, p)|
  {
    RunOk(apply, empty, actions);
    LowsOk(apply, empty, actions);
    var s := Run(apply, Boot(empty), actions);
    if p in s.committed && s.committed[p] != 0 {
      assert Covered(s, p, s.committed[p]);
      var last := s.committed[p] - 1;
      assert Message(p, last) in s.handled || last < LowOf(s.topic, p);
    }
  }

  function Begun<R, T>(apply: (T, seq<R>) -> T, s: System<R, T>, ps: set<nat>): System<R, T> {
    Step(apply, Step(apply, s, Subscribe), Assign(ps))
  }

  /** Left alone after an assignment, the consumer comes to be caught up with it. */
  ghost predicate CanCatchUp<R(!new), T>(apply: (T, seq<R>) -> T, s: System<R, T>, ps: set<nat>) {
    exists more: seq<Action<R>> :: OwnActions(more) && Run(apply, Begun(apply, s, ps), more).caughtUp.Some?
  }

  /**
   A new session over some partitions can catch up by itself exactly when none of them has unread records all of
   which have expired: such a partition is waited for until a producer adds to it.
   */
  lemma CatchesUpIff<R(!new), T>(apply: (T, seq<R>) -> T, empty: T, actions: seq<Action<R>>, ps: set<nat>)
    requires var s := Run(apply, Boot(empty), actions); s.session.None? && s.caughtUp.None? && ps != {}
    ensures var s := Run(apply, Boot(empty), actions);
            CanCatchUp(apply, s, ps) <==> forall p | p in ps :: CanRead(s.topic, p, Start(s, p))
  {
    var s := Run(apply, Boot(empty), actions);
    LowsOk(apply, empty, actions);
    forall p: nat ensures Start(s, p) <= |LogOf(s.topic, p)| {
      StartsOk(apply, empty, actions, p);
    }
    hide Run;
    if forall p | p in ps :: CanRead(s.topic, p, Start(s, p)) {
      ReadableCatchesUp(apply, s, ps);
    } else {
      var p :| p in ps && !CanRead(s.topic, p, Start(s, p));
      ExpiredIsStuck(apply, s, ps, p);
    }
  }

  lemma ReadableCatchesUp<R(!new), T>(apply: (T, seq<R>) -> T, s: System<R, T>, ps: set<nat>)
    requires s.session.None? && s.caughtUp.None? && ps != {} && forall p: nat :: Start(s, p) <= |LogOf(s.topic, p)|
    requires forall p | p in ps :: CanRead(s.topic, p, Start(s, p))
    ensures CanCatchUp(apply, s, ps)
  {
    var begun := Begun(apply, s, ps);
    BegunReady(apply, s, ps);
    hide Run, Begun;
    var more := ReadAll(apply, begun, ps, ps);
    var after := Run(apply, begun, more);
    var p :| p in ps;
    assert p in after.session.value.target;
    assert Reached(after.session.value);
  }

  lemma ExpiredIsStuck<R(!new), T>(apply: (T, seq<R>) -> T, s: System<R, T>, ps: set<nat>, p: nat)
    requires s.session.None? && s.caughtUp.None? && p in ps && LowsWithin(s.topic) && !CanRead(s.topic, p, Start(s, p))
    ensures !CanCatchUp(apply, s, ps)
  {
    var begun := Begun(apply, s, ps);
    hide Run;
    assert begun.session.value.progress[p] < begun.session.value.target[p];
    assert Stuck(begun, p);
    forall more: seq<Action<R>> | OwnActions(more) ensures Run(apply, begun, more).caughtUp.None? {
      StuckForever(apply, begun, p, more);
    }
  }

  lemma BegunReady<R, T>(apply: (T, seq<R>) -> T, s: System<R, T>, ps: set<nat>)
    requires s.session.None? && s.caughtUp.None? && forall p: nat :: Start(s, p) <= |LogOf(s.topic, p)|
    ensures var begun := Begun(apply, s, ps);
            Ready(begun, ps) && begun.topic == s.topic && begun.session.value.progress == map p | p in ps :: Start(s, p)
  {
    var begun := Begun(apply, s, ps);
    assert begun.session.value.progress == map p | p in ps :: Start(s, p);
    assert begun.session.value.target == map p | p in ps :: |LogOf(s.topic, p)|;
  }

  // ---- The decision topic --------------------------------------------------------------------

  function RunDecisions(actions: seq<Action<Decision>>): System<Decision, seq<Decision>> { Run(Applied, Boot([]), actions) }

  /** Whatever crashed and was redelivered, the table is the ranking view of the delivered records. */
  lemma TableIsTheViewOfDelivered(actions: seq<Action<Decision>>)
    ensures var s := RunDecisions(actions); Projects(s.table, Flattened(s.polls))
  {
    RunOk(Applied, [], actions);
    TableIsTheView(RunDecisions(actions).polls);
  }

  /** The table has a row for the record's key, of a trace at most its own. */
  ghost predicate AnswersDecision(table: seq<Decision>, record: Decision) {
    exists row :: row in table && row.key == record.key && AtMost(row.trace, record.trace)
  }

  /** Ready to serve: the table answers every retained decision that a partition's log held when it was assigned. */
  lemma CaughtUpTableAnswers(actions: seq<Action<Decision>>, p: nat)
    requires var s := RunDecisions(actions); s.caughtUp.Some? && p in s.caughtUp.value
    ensures var s := RunDecisions(actions);
            exists n: nat :: MarkAt(Applied, [], actions, n, p, s.caughtUp.value[p]) &&
              forall o: nat | LowOf(s.topic, p) <= o < s.caughtUp.value[p] && o < |LogOf(s.topic, p)| && LogOf(s.topic, p)[o].Some? ::
                AnswersDecision(s.table, LogOf(s.topic, p)[o].value)
  {
    CaughtUpMeans(Applied, [], actions);
    RunOk(Applied, [], actions);
    var s := RunDecisions(actions);
    AllAppliedHoldsBest(s.polls);
    var n: nat :| MarkAt(Applied, [], actions, n, p, s.caughtUp.value[p]) && HandledSince(Applied, [], actions, n, p);
    forall o: nat | LowOf(s.topic, p) <= o < s.caughtUp.value[p] && o < |LogOf(s.topic, p)| && LogOf(s.topic, p)[o].Some?
      ensures AnswersDecision(s.table, LogOf(s.topic, p)[o].value)
    {
      assert Message(p, o) in s.handled;
      DeliveredIsAnswered(s.table, Flattened(s.polls), LogOf(s.topic, p)[o].value);
    }
  }

  lemma DeliveredIsAnswered(table: seq<Decision>, delivered: seq<Decision>, record: Decision)
    requires HoldsBest(table, delivered) && record in delivered
    ensures AnswersDecision(table, record)
  {
    var i :| 0 <= i < |delivered| && delivered[i] == record;
    BestIsRankedFirst(delivered, record.key);
    var best := Best(delivered, record.key).value;
    assert best in table;
    var n: nat :| n < |delivered| && delivered[n] == best && delivered[n].key == record.key && RankedFirst(delivered, n);
    assert AtMost(best.trace, record.trace);
  }

  // ---- The admission topic -------------------------------------------------------------------

  function RunAdmissions(actions: seq<Action<Admission>>): System<Admission, seq<Admission>> {
    Run(AdmissionsApplied, Boot([]), actions)
  }

  /** Whatever crashed and was redelivered, the admission table holds the last delivery of every identifier. */
  lemma AdmissionsAreTheLastDelivered(actions: seq<Action<Admission>>)
    ensures var s := RunAdmissions(actions);
            DistinctIds(s.table) && forall r :: r in s.table <==> InLastView(Flattened(s.polls), r)
  {
    RunOk(AdmissionsApplied, [], actions);
    AdmissionTableIsTheLast(RunAdmissions(actions).polls);
  }

  /** Ready to serve: the table answers every retained admission that a partition's log held when it was assigned. */
  lemma CaughtUpAdmissionsAnswer(actions: seq<Action<Admission>>, p: nat)
    requires var s := RunAdmissions(actions); s.caughtUp.Some? && p in s.caughtUp.value
    ensures var s := RunAdmissions(actions);
            exists n: nat :: MarkAt(AdmissionsApplied, [], actions, n, p, s.caughtUp.value[p]) &&
              forall o: nat | LowOf(s.topic, p) <= o < s.caughtUp.value[p] && o < |LogOf(s.topic, p)| && LogOf(s.topic, p)[o].Some? ::
                exists row :: row in s.table && row.id == LogOf(s.topic, p)[o].value.id
  {
    CaughtUpMeans(AdmissionsApplied, [], actions);
    RunOk(AdmissionsApplied, [], actions);
    var s := RunAdmissions(actions);
    AllAdmissionsHoldLast(s.polls);
    var n: nat :| MarkAt(AdmissionsApplied, [], actions, n, p, s.caughtUp.value[p]) && HandledSince(AdmissionsApplied, [], actions, n, p);
    forall o: nat | LowOf(s.topic, p) <= o < s.caughtUp.value[p] && o < |LogOf(s.topic, p)| && LogOf(s.topic, p)[o].Some?
      ensures exists row :: row in s.table && row.id == LogOf(s.topic, p)[o].value.id
    {
      assert Message(p, o) in s.handled;
      DeliveredHasLast(Flattened(s.polls), LogOf(s.topic, p)[o].value);
    }
  }

  lemma {:induction false} DeliveredHasLast(delivered: seq<Admission>, record: Admission)
    requires record in delivered
    ensures LastOf(delivered, record.id).Some? && LastOf(delivered, record.id).value.id == record.id
  {
    if delivered[|delivered| - 1].id != record.id {
      DeliveredHasLast(delivered[..|delivered| - 1], record);
    }
  }
}
