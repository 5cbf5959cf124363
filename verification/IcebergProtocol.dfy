/** Any number of writers sharing two tables (processor/iceberg_writer.py). */
module IcebergProtocol {
  import opened IcebergRows

  // An append is a compare-and-swap on the metadata version that its key scan read. It commits, is refused,
  // or its outcome stays unknown; an unknown append may still take effect at any later time. Writers crash
  // and the log redelivers any records.

  const COMMIT_ATTEMPTS: nat := 8

  datatype Target = Decisions | Gold
  datatype Table = Table(rows: seq<Row>, version: nat)
  datatype Request = Request(target: Target, base: nat, rows: seq<Row>)

  datatype Phase =
    | Filling
    | Loading(target: Target, attempt: nat)
    | Appending(attempt: nat, request: Request)

  /** The buffer holds offsets of the decision log. */
  datatype Writer = Writer(buffer: seq<nat>, phase: Phase)

  datatype System = System(
    decisions: Table, gold: Table, writers: map<string, Writer>, inFlight: seq<Request>, flushed: set<nat>)

  datatype Outcome = Committed | Refused | Unknown(applied: bool) | Raised(applied: bool)

  datatype Action =
    | Consume(w: string, offset: nat)
    | BeginFlush(w: string)
    | Scan(w: string)
    | Append(w: string, outcome: Outcome)
    | Fail(w: string)
    | Crash(w: string)
    | Deliver(request: nat)
    | OtherCommit(target: Target)

  function Boot(ids: set<string>): System {
    System(Table([], 0), Table([], 0), map id | id in ids :: Writer([], Filling), [], {})
  }

  function TableOf(s: System, t: Target): Table { if t == Decisions then s.decisions else s.gold }

  function WithTable(s: System, t: Target, table: Table): System {
    if t == Decisions then s.(decisions := table) else s.(gold := table)
  }

  predicate InLog(log: seq<Row>, buffer: seq<nat>) { forall i | 0 <= i < |buffer| :: buffer[i] < |log| }

  function Buffered(log: seq<Row>, buffer: seq<nat>): seq<Row>
    requires InLog(log, buffer)
  {
    seq(|buffer|, i requires 0 <= i < |buffer| => log[buffer[i]])
  }

  /** The rows a flush offers to a table: every decision, then the clean ones. */
  function Offered(log: seq<Row>, buffer: seq<nat>, t: Target): seq<Row>
    requires InLog(log, buffer)
  {
    if t == Decisions then Buffered(log, buffer) else Accepted(Buffered(log, buffer))
  }

  function SetWriter(s: System, id: string, w: Writer): System { s.(writers := s.writers[id := w]) }

  /** A compare-and-swap append. */
  function Apply(s: System, r: Request): System {
    var table := TableOf(s, r.target);
    if table.version == r.base then WithTable(s, r.target, Table(table.rows + r.rows, table.version + 1)) else s
  }

  /** The table for `t` holds the buffer's rows: go on to Gold, or finish the flush. */
  function Advance(log: seq<Row>, s: System, id: string, t: Target): System
    requires id in s.writers && InLog(log, s.writers[id].buffer)
  {
    var w := s.writers[id];
    if t == Decisions && Offered(log, w.buffer, Gold) != [] then SetWriter(s, id, w.(phase := Loading(Gold, 0)))
    else SetWriter(s, id, Writer([], Filling)).(flushed := s.flushed + set o | o in w.buffer)
  }

  /** A refused or unknown append reloads the table, until the attempts are used up. */
  function Retry(s: System, id: string, t: Target, attempt: nat): System
    requires id in s.writers
  {
    SetWriter(s, id, s.writers[id].(phase := if attempt + 1 < COMMIT_ATTEMPTS then Loading(t, attempt + 1) else Filling))
  }

  function Responded(log: seq<Row>, s: System, id: string, outcome: Outcome): System
    requires id in s.writers && s.writers[id].phase.Appending? && InLog(log, s.writers[id].buffer)
  {
    var w := s.writers[id];
    var r := w.phase.request;
    var current := TableOf(s, r.target).version == r.base;
    match outcome
    case Committed => if current then Advance(log, Apply(s, r), id, r.target) else Retry(s, id, r.target, w.phase.attempt)
    case Refused => Retry(s, id, r.target, w.phase.attempt)
    case Unknown(applied) =>
      Retry(if applied then Apply(s, r) else s.(inFlight := s.inFlight + [r]), id, r.target, w.phase.attempt)
    case Raised(applied) =>
      SetWriter(if applied then Apply(s, r) else s, id, w.(phase := Filling))
  }

  function WriterStep(log: seq<Row>, s: System, id: string, a: Action): System
    requires id in s.writers && InLog(log, s.writers[id].buffer)
  {
    var w := s.writers[id];
    match a
    case Consume(_, offset) =>
      if w.phase.Filling? && offset < |log| then SetWriter(s, id, w.(buffer := w.buffer + [offset])) else s
    case BeginFlush(_) =>
      if w.phase.Filling? && w.buffer != [] then SetWriter(s, id, w.(phase := Loading(Decisions, 0))) else s
    case Scan(_) =>
      if !w.phase.Loading? then s
      else
        var table := TableOf(s, w.phase.target);
        var pending := FreshRows(Keys(table.rows), Offered(log, w.buffer, w.phase.target));
        if pending == [] then Advance(log, s, id, w.phase.target)
        else SetWriter(s, id, w.(phase := Appending(w.phase.attempt, Request(w.phase.target, table.version, pending))))
    case Append(_, outcome) => if w.phase.Appending? then Responded(log, s, id, outcome) else s
    case Fail(_) => SetWriter(s, id, w.(phase := Filling))
    case Crash(_) =>
      SetWriter(if w.phase.Appending? then s.(inFlight := s.inFlight + [w.phase.request]) else s, id, Writer([], Filling))
    case _ => s
  }

  function Step(log: seq<Row>, s: System, a: Action): System {
    match a
    case Deliver(n) => if n < |s.inFlight| then Apply(s, s.inFlight[n]) else s
    case OtherCommit(t) => WithTable(s, t, TableOf(s, t).(version := TableOf(s, t).version + 1))
    case _ => if a.w in s.writers && InLog(log, s.writers[a.w].buffer) then WriterStep(log, s, a.w, a) else s
  }

  function Run(log: seq<Row>, s: System, actions: seq<Action>): System {
    if actions == [] then s else Step(log, Run(log, s, actions[..|actions| - 1]), actions[|actions| - 1])
  }

  // ---- What every step keeps -----------------------------------------------------------------

  /** A row may enter a table only from the log, and Gold only clean and already decided. */
  ghost predicate Allowed(log: seq<Row>, s: System, t: Target, rows: seq<Row>) {
    forall r | r in rows :: r in log && (t == Gold ==> Trainable(r) && r.key in Keys(s.decisions.rows))
  }

  /** While its table has not moved on, the request's rows are new to it. */
  ghost predicate RequestOk(log: seq<Row>, s: System, r: Request) {
    var table := TableOf(s, r.target);
    && r.base <= table.version
    && Allowed(log, s, r.target, r.rows)
    && (r.base == table.version ==> Distinct(r.rows) && Keys(table.rows) !! Keys(r.rows))
  }

  /** Once appended, the request leaves nothing of the buffer out of its table. */
  ghost predicate Covers(log: seq<Row>, s: System, w: Writer, r: Request)
    requires InLog(log, w.buffer)
  {
    var table := TableOf(s, r.target);
    r.base == table.version ==> Keys(Offered(log, w.buffer, r.target)) <= Keys(table.rows) + Keys(r.rows)
  }

  ghost predicate WriterOk(log: seq<Row>, s: System, w: Writer) {
    && InLog(log, w.buffer)
    && (w.phase.Loading? && w.phase.target == Gold ==> Keys(Buffered(log, w.buffer)) <= Keys(s.decisions.rows))
    && (w.phase.Appending? ==>
          && RequestOk(log, s, w.phase.request)
          && Covers(log, s, w, w.phase.request)
          && (w.phase.request.target == Gold ==> Keys(Buffered(log, w.buffer)) <= Keys(s.decisions.rows)))
  }

  ghost predicate TablesOk(log: seq<Row>, s: System) {
    && Distinct(s.decisions.rows) && Distinct(s.gold.rows)
    && Allowed(log, s, Decisions, s.decisions.rows)
    && Allowed(log, s, Gold, s.gold.rows)
  }

  ghost predicate FlushedOk(log: seq<Row>, s: System) {
    forall o | o in s.flushed ::
      && o < |log|
      && log[o].key in Keys(s.decisions.rows)
      && (Trainable(log[o]) ==> log[o].key in Keys(s.gold.rows))
  }

  ghost predicate Invariant(log: seq<Row>, s: System) {
    && TablesOk(log, s)
    && FlushedOk(log, s)
    && (forall r | r in s.inFlight :: RequestOk(log, s, r))
    && (forall id | id in s.writers :: WriterOk(log, s, s.writers[id]))
  }

  /** Tables only grow, and every change of contents is a new version. */
  ghost predicate Grown(s: System, next: System) {
    && Keys(s.decisions.rows) <= Keys(next.decisions.rows)
    && Keys(s.gold.rows) <= Keys(next.gold.rows)
    && s.decisions.version <= next.decisions.version
    && s.gold.version <= next.gold.version
    && (s.decisions.version == next.decisions.version ==> s.decisions == next.decisions)
    && (s.gold.version == next.gold.version ==> s.gold == next.gold)
  }

  /** A step that leaves writers and requests alone needs only its tables checked. */
  lemma GrownKeeps(log: seq<Row>, s: System, next: System)
    requires Invariant(log, s) && Grown(s, next) && TablesOk(log, next)
    requires next.writers == s.writers && next.inFlight == s.inFlight && next.flushed == s.flushed
    ensures Invariant(log, next)
  {
    forall r | r in s.inFlight ensures RequestOk(log, next, r) {
    }
    forall id | id in s.writers ensures WriterOk(log, next, s.writers[id]) {
    }
  }

  lemma ApplyKeeps(log: seq<Row>, s: System, r: Request)
    requires Invariant(log, s) && RequestOk(log, s, r)
    ensures Invariant(log, Apply(s, r)) && Grown(s, Apply(s, r))
    ensures TableOf(s, r.target).version == r.base ==>
              Keys(TableOf(Apply(s, r), r.target).rows) == Keys(TableOf(s, r.target).rows) + Keys(r.rows)
  {
    var table := TableOf(s, r.target);
    if table.version == r.base {
      KeysAppend(table.rows, r.rows);
      AppendKeepsDistinct(table.rows, r.rows);
      GrownKeeps(log, s, Apply(s, r));
    }
  }

  /** Changing one writer, with a request possibly left in flight. */
  lemma WriterKeeps(log: seq<Row>, s: System, id: string, w: Writer)
    requires Invariant(log, s) && WriterOk(log, s, w)
    ensures Invariant(log, SetWriter(s, id, w))
  {
    var next := SetWriter(s, id, w);
    forall r | r in s.inFlight ensures RequestOk(log, next, r) {
      assert RequestOk(log, s, r);
    }
    forall i | i in next.writers ensures WriterOk(log, next, next.writers[i]) {
      assert i != id ==> WriterOk(log, s, s.writers[i]);
    }
  }

  lemma AdvanceKeeps(log: seq<Row>, s: System, id: string, t: Target)
    requires Invariant(log, s) && id in s.writers
    requires Keys(Offered(log, s.writers[id].buffer, t)) <= Keys(TableOf(s, t).rows)
    requires t == Gold ==> Keys(Buffered(log, s.writers[id].buffer)) <= Keys(s.decisions.rows)
    ensures Invariant(log, Advance(log, s, id, t))
  {
    var w := s.writers[id];
    if t == Decisions && Offered(log, w.buffer, Gold) != [] {
      WriterKeeps(log, s, id, w.(phase := Loading(Gold, 0)));
    } else {
      var rows := Buffered(log, w.buffer);
      forall o | o in w.buffer
        ensures log[o].key in Keys(s.decisions.rows) && (Trainable(log[o]) ==> log[o].key in Keys(s.gold.rows))
      {
        var i :| 0 <= i < |w.buffer| && w.buffer[i] == o;
        assert rows[i] == log[o];
        assert log[o].key in Keys(rows);
        AcceptedElements(rows, log[o]);
      }
      WriterKeeps(log, s.(flushed := s.flushed + set o | o in w.buffer), id, Writer([], Filling));
    }
  }

  lemma RetryKeeps(log: seq<Row>, s: System, id: string)
    requires Invariant(log, s) && id in s.writers && s.writers[id].phase.Appending?
    ensures Invariant(log, Retry(s, id, s.writers[id].phase.request.target, s.writers[id].phase.attempt))
  {
    var w := s.writers[id];
    var attempt := w.phase.attempt;
    WriterKeeps(log, s, id, w.(phase := if attempt + 1 < COMMIT_ATTEMPTS then Loading(w.phase.request.target, attempt + 1) else Filling));
  }

  lemma OfferedAllowed(log: seq<Row>, s: System, w: Writer, t: Target)
    requires InLog(log, w.buffer) && (t == Gold ==> Keys(Buffered(log, w.buffer)) <= Keys(s.decisions.rows))
    ensures Allowed(log, s, t, Offered(log, w.buffer, t))
  {
    var rows := Buffered(log, w.buffer);
    forall r | r in Offered(log, w.buffer, t)
      ensures r in log && (t == Gold ==> Trainable(r) && r.key in Keys(s.decisions.rows))
    {
      AcceptedElements(rows, r);
      var i :| 0 <= i < |rows| && rows[i] == r;
      assert log[w.buffer[i]] == r;
      assert r.key in Keys(rows);
    }
  }

  lemma ScanKeeps(log: seq<Row>, s: System, id: string)
    requires Invariant(log, s) && id in s.writers && s.writers[id].phase.Loading?
    ensures Invariant(log, WriterStep(log, s, id, Scan(id)))
  {
    var w := s.writers[id];
    var t := w.phase.target;
    var table, offered := TableOf(s, t), Offered(log, w.buffer, t);
    var pending := FreshRows(Keys(table.rows), offered);
    FreshRowsComplete(Keys(table.rows), offered);
    OfferedAllowed(log, s, w, t);
    if pending == [] {
      NothingMissing(Keys(offered), Keys(table.rows), pending);
      AdvanceKeeps(log, s, id, t);
    } else {
      WriterKeeps(log, s, id, w.(phase := Appending(w.phase.attempt, Request(t, table.version, pending))));
    }
  }

  lemma RespondedKeeps(log: seq<Row>, s: System, id: string, outcome: Outcome)
    requires Invariant(log, s) && id in s.writers && s.writers[id].phase.Appending?
    ensures Invariant(log, Responded(log, s, id, outcome))
  {
    var w := s.writers[id];
    var r := w.phase.request;
    assert WriterOk(log, s, w);
    ApplyKeeps(log, s, r);
    match outcome
    case Committed =>
      if TableOf(s, r.target).version == r.base {
        AdvanceKeeps(log, Apply(s, r), id, r.target);
      } else {
        RetryKeeps(log, s, id);
      }
    case Refused => RetryKeeps(log, s, id);
    case Unknown(applied) =>
      RetryKeeps(log, if applied then Apply(s, r) else s.(inFlight := s.inFlight + [r]), id);
    case Raised(applied) =>
      var after := if applied then Apply(s, r) else s;
      WriterKeeps(log, after, id, w.(phase := Filling));
  }

  lemma StepKeeps(log: seq<Row>, s: System, a: Action)
    requires Invariant(log, s)
    ensures Invariant(log, Step(log, s, a))
  {
    match a
    case Deliver(n) =>
      if n < |s.inFlight| {
        assert s.inFlight[n] in s.inFlight;
        ApplyKeeps(log, s, s.inFlight[n]);
      }
    case OtherCommit(t) => GrownKeeps(log, s, Step(log, s, a));
    case _ =>
      if a.w in s.writers {
        WriterStepKeeps(log, s, a.w, a);
      }
  }

  lemma WriterStepKeeps(log: seq<Row>, s: System, id: string, a: Action)
    requires Invariant(log, s) && id in s.writers
    ensures InLog(log, s.writers[id].buffer) && Invariant(log, WriterStep(log, s, id, a))
  {
    var w := s.writers[id];
    assert WriterOk(log, s, w);
    match a
    case Consume(_, offset) =>
      if w.phase.Filling? && offset < |log| {
        WriterKeeps(log, s, id, w.(buffer := w.buffer + [offset]));
      }
    case BeginFlush(_) =>
      if w.phase.Filling? && w.buffer != [] {
        WriterKeeps(log, s, id, w.(phase := Loading(Decisions, 0)));
      }
    case Scan(_) =>
      if w.phase.Loading? {
        ScanKeeps(log, s, id);
      }
    case Append(_, outcome) =>
      if w.phase.Appending? {
        RespondedKeeps(log, s, id, outcome);
      }
    case Fail(_) => WriterKeeps(log, s, id, w.(phase := Filling));
    case Crash(_) =>
      if w.phase.Appending? {
        WriterKeeps(log, s.(inFlight := s.inFlight + [w.phase.request]), id, Writer([], Filling));
      } else {
        WriterKeeps(log, s, id, Writer([], Filling));
      }
    case _ =>
  }

  lemma {:induction false} RunKeeps(log: seq<Row>, ids: set<string>, actions: seq<Action>)
    ensures Invariant(log, Run(log, Boot(ids), actions))
  {
    if actions != [] {
      RunKeeps(log, ids, actions[..|actions| - 1]);
      StepKeeps(log, Run(log, Boot(ids), actions[..|actions| - 1]), actions[|actions| - 1]);
    }
  }

  // ---- The protocol's promises ---------------------------------------------------------------

  /** No interleaving of any number of writers ever stores two rows with one decision key. */
  lemma NoDuplicateKeys(log: seq<Row>, ids: set<string>, actions: seq<Action>)
    ensures var s := Run(log, Boot(ids), actions); Distinct(s.decisions.rows) && Distinct(s.gold.rows)
  {
    RunKeeps(log, ids, actions);
  }

  /** In every reachable state, whatever is in Gold has its decision stored too. */
  lemma GoldKeysAreDecisionKeys(log: seq<Row>, ids: set<string>, actions: seq<Action>)
    ensures var s := Run(log, Boot(ids), actions); Keys(s.gold.rows) <= Keys(s.decisions.rows) <= Keys(log)
  {
    RunKeeps(log, ids, actions);
  }

  /**
   Once every record of the log was part of some finished flush, the tables hold exactly the log's keys and
   exactly the keys of its trainable records.
   */
  lemma FlushedLogIsComplete(log: seq<Row>, ids: set<string>, actions: seq<Action>)
    requires forall o: nat | o < |log| :: o in Run(log, Boot(ids), actions).flushed
    ensures var s := Run(log, Boot(ids), actions);
            && Keys(s.decisions.rows) == Keys(log)
            && Keys(s.gold.rows) == Keys(Accepted(log))
  {
    RunKeeps(log, ids, actions);
    var s := Run(log, Boot(ids), actions);
    forall r | r in log ensures r.key in Keys(s.decisions.rows) && (Trainable(r) ==> r.key in Keys(s.gold.rows)) {
      var o: nat :| o < |log| && log[o] == r;
      assert o in s.flushed;
    }
    forall r ensures r in Accepted(log) <==> r in log && Trainable(r) {
      AcceptedElements(log, r);
    }
  }

  /** The only steps that empty a buffer are a crash and a flush that stored all of it. */
  lemma FailureKeepsBuffer(log: seq<Row>, s: System, a: Action, id: string)
    requires id in s.writers && Step(log, s, a).writers[id].buffer != s.writers[id].buffer && !a.Consume?
    ensures a == Crash(id) || (forall o | o in s.writers[id].buffer :: o in Step(log, s, a).flushed)
  {
    hide FreshRows, Offered, Distinct, Keys;
    match a
    case Scan(_) =>
    case Append(_, _) =>
    case _ =>
  }

  /**
   What an answer leads to: a refused or unknown append is tried again from a fresh scan, eight attempts in all, and
   any other error ends the flush. The writer keeps its buffer in either case.
   */
  lemma AnswerMeans(log: seq<Row>, s: System, id: string, outcome: Outcome)
    requires id in s.writers && InLog(log, s.writers[id].buffer) && s.writers[id].phase.Appending?
    ensures var w, next := s.writers[id], Step(log, s, Append(id, outcome));
            && (outcome.Refused? || outcome.Unknown? ==>
                  next.writers[id] == Writer(w.buffer, if w.phase.attempt < 7 then Loading(w.phase.request.target, w.phase.attempt + 1) else Filling))
            && (outcome.Raised? ==> next.writers[id] == Writer(w.buffer, Filling))
            && (outcome.Refused? ==> next.decisions == s.decisions && next.gold == s.gold)
  {
    hide FreshRows, Offered, Distinct, Keys;
  }

  // ---- An undisturbed writer always finishes ---------------------------------------------------

  lemma {:induction false} RunAppend(log: seq<Row>, s: System, a: seq<Action>, b: seq<Action>)
    ensures Run(log, s, a + b) == Run(log, Run(log, s, a), b)
  {
    if b == [] {
      assert a + b == a;
    } else {
      assert (a + b)[..|a + b| - 1] == a + b[..|b| - 1];
      RunAppend(log, s, a, b[..|b| - 1]);
    }
  }

  lemma RunOne(log: seq<Row>, s: System, a: Action)
    ensures Run(log, s, [a]) == Step(log, s, a)
  {
    assert [a][..0] == [];
  }

  ghost predicate Has(s: System, id: string, buffer: seq<nat>, phase: Phase) {
    id in s.writers && s.writers[id] == Writer(buffer, phase)
  }

  lemma {:induction false} ConsumeAll(log: seq<Row>, s: System, id: string, buffer: seq<nat>, n: nat) returns (actions: seq<Action>)
    requires Has(s, id, buffer, Filling) && InLog(log, buffer) && n <= |log|
    ensures var after := Run(log, s, actions);
            && Has(after, id, buffer + seq(n, i => i), Filling)
            && InLog(log, buffer + seq(n, i => i))
  {
    if n == 0 {
      actions := [];
      assert buffer + seq(0, i => i) == buffer;
    } else {
      var before := ConsumeAll(log, s, id, buffer, n - 1);
      actions := before + [Consume(id, n - 1)];
      RunAppend(log, s, before, [Consume(id, n - 1)]);
      RunOne(log, Run(log, s, before), Consume(id, n - 1));
      assert buffer + seq(n, i => i) == buffer + seq(n - 1, i => i) + [n - 1];
    }
  }

  /** A scan, and the append it calls for, take a flush past one table. */
  lemma PassTable(log: seq<Row>, s: System, id: string, buffer: seq<nat>, t: Target, attempt: nat) returns (actions: seq<Action>)
    requires Has(s, id, buffer, Loading(t, attempt)) && InLog(log, buffer)
    ensures var after := Run(log, s, actions);
            || (t == Decisions && Has(after, id, buffer, Loading(Gold, 0)))
            || (Has(after, id, [], Filling) && forall o | o in buffer :: o in after.flushed)
  {
    hide FreshRows, Offered;
    actions := [Scan(id)];
    RunOne(log, s, Scan(id));
    var scanned := Step(log, s, Scan(id));
    if scanned.writers[id].phase.Appending? {
      actions := [Scan(id)] + [Append(id, Committed)];
      RunAppend(log, s, [Scan(id)], [Append(id, Committed)]);
      RunOne(log, scanned, Append(id, Committed));
    }
  }

  /** From every state in which some writer is between flushes, the whole log can still be flushed. */
  lemma LogCanBeFlushed(log: seq<Row>, s: System, id: string, buffer: seq<nat>) returns (actions: seq<Action>)
    requires Has(s, id, buffer, Filling) && InLog(log, buffer)
    ensures forall o: nat | o < |log| :: o in Run(log, s, actions).flushed
  {
    actions := [];
    if log != [] {
      hide Run, Step;
      var consume := ConsumeAll(log, s, id, buffer, |log|);
      var all := buffer + seq(|log|, i => i);
      forall o: nat | o < |log| ensures o in all {
        assert all[|buffer| + o] == o;
      }
      var full := Run(log, s, consume);
      RunOne(log, full, BeginFlush(id));
      var begun := Run(log, full, [BeginFlush(id)]);
      BeginsLoading(log, full, id, all);
      var first := PassTable(log, begun, id, all, Decisions, 0);
      var middle := Run(log, begun, first);
      var rest := [BeginFlush(id)] + first;
      RunAppend(log, full, [BeginFlush(id)], first);
      if Has(middle, id, all, Loading(Gold, 0)) {
        var second := PassTable(log, middle, id, all, Gold, 0);
        RunAppend(log, full, rest, second);
        rest := rest + second;
      }
      actions := consume + rest;
      RunAppend(log, s, consume, rest);
    }
  }

  lemma BeginsLoading(log: seq<Row>, s: System, id: string, buffer: seq<nat>)
    requires Has(s, id, buffer, Filling) && InLog(log, buffer) && buffer != []
    ensures Has(Step(log, s, BeginFlush(id)), id, buffer, Loading(Decisions, 0))
  {
  }
}
