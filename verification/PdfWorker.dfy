/** The isolated PDF worker and its child process (processor/pdf_worker.py). */
module PdfWorker {
  import opened Outcomes

  // A parent owns at most one child process and its pipe; the child runs a receive loop. Deadlines, crashes and
  // malformed replies strike anywhere.

  /** Every call is numbered, so that two calls for one document stay distinguishable. */
  datatype Request = Request(call: nat, document: string)

  /** What the native stack makes of a request. */
  datatype Handled = Converted(result: string) | Refused(error: string) | Broke(error: string)

  datatype Reply =
    | Ready
    | StartupError(message: string)
    | Malformed
    | Unrecognised(status: string)
    | Success(result: Option<string>)
    | DocumentError(error: string)
    | ProcessingError(error: string)

  datatype ChildPhase = Starting | Awaiting | Working(request: Request)

  /** The child and both directions of its pipe; unread replies outlive the process. */
  datatype Child = Child(alive: bool, phase: ChildPhase, inbox: seq<Request>, outbox: seq<Reply>)

  const SPAWNED := Child(true, Starting, [], [])

  /** How a reply comes out of the pipe: as sent, or not decodable at some layer. */
  datatype Fault = Intact | NotJson | BadStatus(status: string) | BadPayload

  datatype ChildAction = BecomeReady(fault: Fault) | FailStartup(message: string) | Take | Answer(fault: Fault) | Die

  function Answered(handler: Request -> Handled, request: Request, fault: Fault): Reply {
    match fault
    case NotJson => Malformed
    case BadStatus(status) => Unrecognised(status)
    case BadPayload => Success(None)
    case Intact =>
      match handler(request)
      case Converted(result) => Success(Some(result))
      case Refused(error) => DocumentError(error)
      case Broke(error) => ProcessingError(error)
  }

  /** One step of `_pdf_worker_main`. */
  function ChildStep(handler: Request -> Handled, c: Child, a: ChildAction): Child {
    if !c.alive then c
    else
      match (a, c.phase)
      case (Die, _) => c.(alive := false)
      case (BecomeReady(fault), Starting) =>
        c.(phase := Awaiting,
           outbox := c.outbox + [match fault case Intact => Ready case NotJson => Malformed
                                 case BadStatus(status) => Unrecognised(status) case BadPayload => Success(None)])
      case (FailStartup(message), Starting) => c.(alive := false, outbox := c.outbox + [StartupError(message)])
      case (Take, Awaiting) => if c.inbox == [] then c else c.(phase := Working(c.inbox[0]), inbox := c.inbox[1..])
      case (Answer(fault), Working(request)) =>
        c.(phase := Awaiting, outbox := c.outbox + [Answered(handler, request, fault)])
      case _ => c
  }

  /** Nothing in either direction, and a live child waits for a request. */
  predicate Quiet(c: Child) { c.inbox == [] && c.outbox == [] && (c.alive ==> c.phase == Awaiting) }

  /** At most the one startup reply is on its way. */
  predicate Booting(c: Child) {
    && c.inbox == [] && |c.outbox| <= 1
    && (c.alive ==> (c.phase == Starting && c.outbox == []) || (c.phase == Awaiting && c.outbox != []))
    && (c.outbox != [] && c.outbox[0] == Ready && c.alive ==> c.phase == Awaiting)
  }

  /** The child owes exactly the answer to `request`, or has sent it. */
  predicate Serving(handler: Request -> Handled, c: Child, request: Request) {
    && |c.outbox| <= 1 && (c.outbox != [] ==> c.inbox == [])
    && (c.alive ==>
          || (c.phase == Awaiting && c.inbox == [request] && c.outbox == [])
          || (c.phase == Working(request) && c.inbox == [] && c.outbox == [])
          || (c.phase == Awaiting && c.inbox == [] && c.outbox != []))
    && forall r | r in c.outbox :: r == Malformed || r.Unrecognised? || r == Success(None) || r == Answered(handler, request, Intact)
  }

  // The child's loop, whatever it does, keeps each of these.

  lemma ChildKeepsQuiet(handler: Request -> Handled, c: Child, a: ChildAction)
    requires Quiet(c)
    ensures Quiet(ChildStep(handler, c, a))
  {
  }

  lemma ChildKeepsBooting(handler: Request -> Handled, c: Child, a: ChildAction)
    requires Booting(c)
    ensures Booting(ChildStep(handler, c, a))
  {
  }

  lemma ChildKeepsServing(handler: Request -> Handled, c: Child, a: ChildAction, request: Request)
    requires Serving(handler, c, request)
    ensures Serving(handler, ChildStep(handler, c, a), request)
  {
  }

  // ---- The parent and the child interleaved --------------------------------------------------

  /** How a call ends: the conversion, or one of the errors a caller can tell apart. */
  datatype Outcome =
    | Returned(result: string)
    | DocumentRejected(error: string)
    | ProcessingFailed(error: string)
    | TimedOut
    | Crashed

  /** `job` is the request of a `process` call, none for a bare `start`. */
  datatype Parent =
    | Outside
    | Ensuring(job: Option<Request>)
    | AwaitingReady(job: Option<Request>)
    | Sending(request: Request)
    | Waiting(request: Request)

  datatype Record = Record(request: Request, outcome: Outcome)

  datatype System = System(parent: Parent, child: Option<Child>, calls: nat, history: seq<Record>)

  datatype Action =
    | CallProcess(document: string)
    | CallStart
    | CallClose
    | Ensure(spawned: bool)
    | StartupDeadline
    | StartupReply
    | Send(delivered: bool)
    | Deadline
    | Receive
    | Step(child: ChildAction)

  /** The call ends with an error; a `process` call has terminated the child. */
  function Fail(s: System, job: Option<Request>, child: Option<Child>, outcome: Outcome): System {
    s.(parent := Outside, child := if job.Some? then None else child,
       history := s.history + if job.Some? then [Record(job.value, outcome)] else [])
  }

  function Ensured(s: System, job: Option<Request>): System {
    s.(parent := if job.Some? then Sending(job.value) else Outside)
  }

  function Received(s: System, request: Request, c: Child): System
    requires c.outbox != []
  {
    match c.outbox[0]
    case Success(Some(result)) =>
      s.(parent := Outside, child := Some(c.(outbox := c.outbox[1..])), history := s.history + [Record(request, Returned(result))])
    case DocumentError(error) => Fail(s, Some(request), None, DocumentRejected(error))
    case ProcessingError(error) => Fail(s, Some(request), None, ProcessingFailed(error))
    case _ => Fail(s, Some(request), None, Crashed)
  }

  function SystemStep(handler: Request -> Handled, s: System, a: Action): System {
    match (a, s.parent)
    case (CallProcess(document), Outside) => s.(parent := Ensuring(Some(Request(s.calls, document))), calls := s.calls + 1)
    case (CallStart, Outside) => s.(parent := Ensuring(None))
    case (CallClose, Outside) => s.(child := None)
    case (Ensure(spawned), Ensuring(job)) =>
      if s.child.Some? && s.child.value.alive then Ensured(s, job)
      else if spawned then s.(child := Some(SPAWNED), parent := AwaitingReady(job))
      else Fail(s, job, None, Crashed)
    case (StartupDeadline, AwaitingReady(job)) => Fail(s, job, None, Crashed)
    case (StartupReply, AwaitingReady(job)) =>
      if s.child.None? then s
      else
        var c := s.child.value;
        if c.outbox == [] then (if c.alive then s else Fail(s, job, None, Crashed))
        else if c.outbox[0] == Ready then Ensured(s.(child := Some(c.(outbox := c.outbox[1..]))), job)
        // An undecodable startup reply escapes `start` without a termination.
        else if c.outbox[0] == Malformed then Fail(s, job, Some(c.(outbox := c.outbox[1..])), Crashed)
        else Fail(s, job, None, Crashed)
    case (Send(delivered), Sending(request)) =>
      if s.child.Some? && delivered
      then s.(parent := Waiting(request), child := Some(s.child.value.(inbox := s.child.value.inbox + [request])))
      else Fail(s, Some(request), None, Crashed)
    case (Deadline, Waiting(request)) => Fail(s, Some(request), None, TimedOut)
    case (Receive, Waiting(request)) =>
      if s.child.None? then s
      else if s.child.value.outbox != [] then Received(s, request, s.child.value)
      else if s.child.value.alive then s
      else Fail(s, Some(request), None, Crashed)
    case (Step(action), _) =>
      if s.child.Some? then s.(child := Some(ChildStep(handler, s.child.value, action))) else s
    case _ => s
  }

  function Run(handler: Request -> Handled, s: System, actions: seq<Action>): System {
    if actions == [] then s else SystemStep(handler, Run(handler, s, actions[..|actions| - 1]), actions[|actions| - 1])
  }

  const BOOT := System(Outside, None, 0, [])

  /** A result, and an error about the document or its processing, was produced from this very request. */
  predicate OwnOutcome(handler: Request -> Handled, request: Request, outcome: Outcome) {
    match outcome
    case Returned(result) => handler(request) == Converted(result)
    case DocumentRejected(error) => handler(request) == Refused(error)
    case ProcessingFailed(error) => handler(request) == Broke(error)
    case _ => true
  }

  ghost predicate Invariant(handler: Request -> Handled, s: System) {
    && (forall r | r in s.history :: OwnOutcome(handler, r.request, r.outcome))
    && match s.parent
       case Outside => s.child.Some? ==> Quiet(s.child.value)
       case Ensuring(_) => s.child.Some? ==> Quiet(s.child.value)
       case AwaitingReady(_) => s.child.Some? && Booting(s.child.value)
       case Sending(_) => s.child.Some? && Quiet(s.child.value)
       case Waiting(request) => s.child.Some? && Serving(handler, s.child.value, request)
  }

  lemma StepOk(handler: Request -> Handled, s: System, a: Action)
    requires Invariant(handler, s)
    ensures Invariant(handler, SystemStep(handler, s, a))
  {
    match a
    case Receive =>
    case Step(action) =>
      if s.child.Some? {
        match s.parent
        case Waiting(request) => ChildKeepsServing(handler, s.child.value, action, request);
        case AwaitingReady(_) => ChildKeepsBooting(handler, s.child.value, action);
        case _ => ChildKeepsQuiet(handler, s.child.value, action);
      }
    case _ => OtherStepOk(handler, s, a);
  }

  lemma OtherStepOk(handler: Request -> Handled, s: System, a: Action)
    requires Invariant(handler, s) && !a.Receive? && !a.Step?
    ensures Invariant(handler, SystemStep(handler, s, a))
  {
  }

  lemma {:induction false} RunOk(handler: Request -> Handled, actions: seq<Action>)
    ensures Invariant(handler, Run(handler, BOOT, actions))
  {
    if actions != [] {
      RunOk(handler, actions[..|actions| - 1]);
      StepOk(handler, Run(handler, BOOT, actions[..|actions| - 1]), actions[|actions| - 1]);
    }
  }

  /** No cross-talk: in every run, what a call reports about its document was produced from its own request. */
  lemma NoCrossTalk(handler: Request -> Handled, actions: seq<Action>, r: Record)
    requires r in Run(handler, BOOT, actions).history
    ensures r.outcome.Returned? ==> handler(r.request) == Converted(r.outcome.result)
    ensures r.outcome.DocumentRejected? ==> handler(r.request) == Refused(r.outcome.error)
    ensures r.outcome.ProcessingFailed? ==> handler(r.request) == Broke(r.outcome.error)
  {
    RunOk(handler, actions);
    assert OwnOutcome(handler, r.request, r.outcome);
  }

  /** Between calls either no child is live, or the live child's pipe is empty and it awaits a request. */
  lemma QuietBetweenCalls(handler: Request -> Handled, actions: seq<Action>)
    requires Run(handler, BOOT, actions).parent.Outside?
    ensures var s := Run(handler, BOOT, actions);
            s.child.Some? && s.child.value.alive ==>
              s.child.value.inbox == [] && s.child.value.outbox == [] && s.child.value.phase == Awaiting
  {
    RunOk(handler, actions);
  }

  /** A `process` call that raises leaves no child behind, and one that returns leaves an idle one. */
  lemma FailureRecycles(handler: Request -> Handled, s: System, a: Action)
    requires |SystemStep(handler, s, a).history| == |s.history| + 1
    ensures var next := SystemStep(handler, s, a);
            !next.history[|s.history|].outcome.Returned? <==> next.child.None?
  {
  }

  // ---- A failed startup ------------------------------------------------------------------------

  /** The reply that `start` or `process` is about to read as the answer of a starting child. */
  predicate Delivers(s: System, a: Action, replies: set<Reply>) {
    a == StartupReply && s.child.Some? && s.child.value.outbox != [] && s.child.value.outbox[0] in replies
  }

  /**
   A call that ends while its child starts leaves that child running exactly when it is a bare `start` that
   read a ready or an undecodable reply. The ready child is the successful start; so among failures, only a
   bare `start` with an undecodable reply does not terminate the child.
   */
  lemma StartupSurvivors(handler: Request -> Handled, s: System, a: Action)
    requires s.parent.AwaitingReady? && SystemStep(handler, s, a).parent.Outside?
    ensures SystemStep(handler, s, a).child.Some? <==> s.parent.job.None? && Delivers(s, a, {Ready, Malformed})
  {
  }

  /** The failing case exists: `start` raises, and the child of the undecodable reply lives on. */
  lemma UndecodableStartupEscapes(handler: Request -> Handled)
    ensures var before := Run(handler, BOOT, [CallStart, Ensure(true), Step(BecomeReady(NotJson))]);
            && Delivers(before, StartupReply, {Malformed})
            && Run(handler, BOOT, [CallStart, Ensure(true), Step(BecomeReady(NotJson)), StartupReply])
               == System(Outside, Some(SPAWNED.(phase := Awaiting)), 0, [])
  {
    hide Run;
    var actions := [CallStart, Ensure(true), Step(BecomeReady(NotJson)), StartupReply];
    RunSnoc(handler, [], actions[0]);
    RunSnoc(handler, actions[..1], actions[1]);
    RunSnoc(handler, actions[..2], actions[2]);
    RunSnoc(handler, actions[..3], actions[3]);
    assert actions[..1] == [] + [actions[0]] && actions[..2] == actions[..1] + [actions[1]];
    assert actions[..3] == actions[..2] + [actions[2]] && actions == actions[..3] + [actions[3]];
    assert actions[..3] == [CallStart, Ensure(true), Step(BecomeReady(NotJson))];
    assert Run(handler, BOOT, actions[..1]) == System(Ensuring(None), None, 0, []);
    assert Run(handler, BOOT, actions[..2]) == System(AwaitingReady(None), Some(SPAWNED), 0, []);
    var sent := Child(true, Awaiting, [], [Malformed]);
    assert ChildStep(handler, SPAWNED, BecomeReady(NotJson)).outbox == sent.outbox && sent.outbox[1..] == [];
    assert Run(handler, BOOT, actions[..3])
        == System(AwaitingReady(None), Some(sent), 0, []);
  }

  lemma RunSnoc(handler: Request -> Handled, actions: seq<Action>, a: Action)
    ensures Run(handler, BOOT, []) == BOOT
    ensures Run(handler, BOOT, actions + [a]) == SystemStep(handler, Run(handler, BOOT, actions), a)
  {
    assert (actions + [a])[..|actions|] == actions;
  }

  // ---- One call ------------------------------------------------------------------------------

  /**
   What happens around one call: the child's steps up to each point at which the parent looks at the pipe, whether a
   process can be spawned, and whether the request can be written. A poll that still finds nothing from a live child
   has reached its deadline.
   */
  datatype Surroundings = Surroundings(
    idle: seq<ChildAction>, spawned: bool, boot: seq<ChildAction>, rest: seq<ChildAction>, delivered: bool, work: seq<ChildAction>)

  function ChildRun(handler: Request -> Handled, c: Child, actions: seq<ChildAction>): Child {
    if |actions| == 0 then c else ChildStep(handler, ChildRun(handler, c, actions[..|actions| - 1]), actions[|actions| - 1])
  }

  predicate Alive(child: Option<Child>) { child.Some? && child.value.alive }

  function Later(handler: Request -> Handled, child: Option<Child>, actions: seq<ChildAction>): Option<Child> {
    if child.Some? then Some(ChildRun(handler, child.value, actions)) else None
  }

  function AfterRead(c: Child): Child
    requires c.outbox != []
  {
    c.(outbox := c.outbox[1..])
  }

  datatype Startup = Running | TerminatedStartup | EscapedStartup

  /** `_ensure_started`: a live child is kept, otherwise the first reply of a new one decides. */
  function Started(handler: Request -> Handled, child: Option<Child>, e: Surroundings): (Startup, Option<Child>) {
    var kept, c := Later(handler, child, e.idle), ChildRun(handler, SPAWNED, e.boot);
    if Alive(kept) then (Running, kept)
    else if !e.spawned || c.outbox == [] then (TerminatedStartup, None)
    else if c.outbox[0] == Ready then (Running, Some(AfterRead(c)))
    else if c.outbox[0] == Malformed then (EscapedStartup, Some(AfterRead(c)))
    else (TerminatedStartup, None)
  }

  /** How a call ends when the child is left as `c` by the time the parent stops waiting. */
  function Finished(c: Child): (Outcome, Option<Child>) {
    if c.outbox == [] then (if c.alive then TimedOut else Crashed, None)
    else
      match c.outbox[0]
      case Success(Some(result)) => (Returned(result), Some(AfterRead(c)))
      case DocumentError(error) => (DocumentRejected(error), None)
      case ProcessingError(error) => (ProcessingFailed(error), None)
      case _ => (Crashed, None)
  }

  /** `process`. */
  function Processed(handler: Request -> Handled, child: Option<Child>, request: Request, e: Surroundings): (Outcome, Option<Child>) {
    var started := Started(handler, child, e);
    if started.0 != Running || started.1.None? || !e.delivered then (Crashed, None)
    else
      var c := ChildRun(handler, started.1.value, e.rest);
      Finished(ChildRun(handler, c.(inbox := c.inbox + [request]), e.work))
  }

  /**
   Once a child is up and has the request, the call ends by the first thing the parent reads before its deadline, and
   the child is kept exactly when that is a decodable result.
   */
  lemma OutcomeFollowsReply(handler: Request -> Handled, child: Option<Child>, request: Request, e: Surroundings, up: Child)
    requires Started(handler, child, e) == (Running, Some(up)) && e.delivered
    ensures var c := ChildRun(handler, up, e.rest);
            var last := ChildRun(handler, c.(inbox := c.inbox + [request]), e.work);
            var r := Processed(handler, child, request, e);
            && (r.0 == TimedOut <==> last.alive && last.outbox == [])
            && (forall x :: r.0 == Returned(x) <==> last.outbox != [] && last.outbox[0] == Success(Some(x)))
            && (forall x :: r.0 == DocumentRejected(x) <==> last.outbox != [] && last.outbox[0] == DocumentError(x))
            && (forall x :: r.0 == ProcessingFailed(x) <==> last.outbox != [] && last.outbox[0] == ProcessingError(x))
            && (r.1.Some? <==> last.outbox != [] && last.outbox[0].Success? && last.outbox[0].result.Some?)
  {
    hide ChildRun, Started;
  }

  // ---- A call is a run of the protocol -------------------------------------------------------

  function StepsOf(actions: seq<ChildAction>): seq<Action> {
    if |actions| == 0 then [] else StepsOf(actions[..|actions| - 1]) + [Step(actions[|actions| - 1])]
  }

  function StartTrace(handler: Request -> Handled, child: Option<Child>, e: Surroundings): seq<Action> {
    StepsOf(e.idle) + [Ensure(e.spawned)]
    + if Alive(Later(handler, child, e.idle)) || !e.spawned then []
      else
        var c := ChildRun(handler, SPAWNED, e.boot);
        StepsOf(e.boot) + [if c.alive && c.outbox == [] then StartupDeadline else StartupReply]
  }

  function ServeTrace(handler: Request -> Handled, c: Child, request: Request, e: Surroundings): seq<Action> {
    StepsOf(e.rest) + [Send(e.delivered)]
    + if !e.delivered then []
      else
        var sent := ChildRun(handler, c, e.rest);
        var done := ChildRun(handler, sent.(inbox := sent.inbox + [request]), e.work);
        StepsOf(e.work) + [if done.alive && done.outbox == [] then Deadline else Receive]
  }

  function CallTrace(handler: Request -> Handled, s: System, document: string, e: Surroundings): seq<Action> {
    var started := Started(handler, s.child, e);
    [CallProcess(document)] + StartTrace(handler, s.child, e)
    + if started.0 == Running && started.1.Some? then ServeTrace(handler, started.1.value, Request(s.calls, document), e) else []
  }

  lemma {:induction false} RunThen(handler: Request -> Handled, s: System, first: seq<Action>, second: seq<Action>)
    ensures Run(handler, s, first + second) == Run(handler, Run(handler, s, first), second)
  {
    hide SystemStep;
    if second == [] {
      assert first + second == first;
    } else {
      var front := second[..|second| - 1];
      assert (first + second)[..|first + second| - 1] == first + front;
      RunThen(handler, s, first, front);
    }
  }

  lemma RunOne(handler: Request -> Handled, s: System, a: Action)
    ensures Run(handler, s, [a]) == SystemStep(handler, s, a)
  {
    hide SystemStep;
    assert [a][..0] == [];
    assert Run(handler, s, [a][..0]) == s;
  }

  lemma {:induction false} StepsRun(handler: Request -> Handled, s: System, actions: seq<ChildAction>)
    ensures Run(handler, s, StepsOf(actions)) == s.(child := Later(handler, s.child, actions))
  {
    hide ChildStep;
    if |actions| != 0 {
      var front, a := actions[..|actions| - 1], actions[|actions| - 1];
      StepsRun(handler, s, front);
      RunThen(handler, s, StepsOf(front), [Step(a)]);
      RunOne(handler, Run(handler, s, StepsOf(front)), Step(a));
    }
  }

  /** Where the parent is after `_ensure_started` on behalf of `job`. */
  lemma StartedIsARun(handler: Request -> Handled, s: System, job: Option<Request>, e: Surroundings)
    requires s.parent == Ensuring(job)
    ensures var started := Started(handler, s.child, e);
            Run(handler, s, StartTrace(handler, s.child, e)) ==
              if started.0 == Running then Ensured(s.(child := started.1), job) else Fail(s, job, started.1, Crashed)
  {
    hide ChildStep, Run, ChildRun;
    StepsRun(handler, s, e.idle);
    var idled := s.(child := Later(handler, s.child, e.idle));
    RunThen(handler, s, StepsOf(e.idle), [Ensure(e.spawned)]);
    RunOne(handler, idled, Ensure(e.spawned));
    var ensured := SystemStep(handler, idled, Ensure(e.spawned));
    var first := StepsOf(e.idle) + [Ensure(e.spawned)];
    if Alive(idled.child) || !e.spawned {
      assert StartTrace(handler, s.child, e) == first;
    } else {
      var c := ChildRun(handler, SPAWNED, e.boot);
      var last := if c.alive && c.outbox == [] then StartupDeadline else StartupReply;
      assert StartTrace(handler, s.child, e) == first + StepsOf(e.boot) + [last];
      RunThen(handler, s, first, StepsOf(e.boot));
      StepsRun(handler, ensured, e.boot);
      RunThen(handler, s, first + StepsOf(e.boot), [last]);
      RunOne(handler, ensured.(child := Some(c)), last);
    }
  }

  lemma ServedIsARun(handler: Request -> Handled, s: System, request: Request, e: Surroundings)
    requires s.parent == Sending(request) && s.child.Some?
    ensures var c := ChildRun(handler, s.child.value, e.rest);
            var r := if e.delivered then Finished(ChildRun(handler, c.(inbox := c.inbox + [request]), e.work)) else (Crashed, None);
            Run(handler, s, ServeTrace(handler, s.child.value, request, e))
            == s.(parent := Outside, child := r.1, history := s.history + [Record(request, r.0)])
  {
    hide ChildStep, Run, ChildRun;
    StepsRun(handler, s, e.rest);
    var c := ChildRun(handler, s.child.value, e.rest);
    var rested := s.(child := Some(c));
    RunThen(handler, s, StepsOf(e.rest), [Send(e.delivered)]);
    RunOne(handler, rested, Send(e.delivered));
    var sent := SystemStep(handler, rested, Send(e.delivered));
    var first := StepsOf(e.rest) + [Send(e.delivered)];
    if !e.delivered {
      assert ServeTrace(handler, s.child.value, request, e) == first;
    } else {
      var done := ChildRun(handler, c.(inbox := c.inbox + [request]), e.work);
      var last := if done.alive && done.outbox == [] then Deadline else Receive;
      assert ServeTrace(handler, s.child.value, request, e) == first + StepsOf(e.work) + [last];
      RunThen(handler, s, first, StepsOf(e.work));
      StepsRun(handler, sent, e.work);
      RunThen(handler, s, first + StepsOf(e.work), [last]);
      RunOne(handler, sent.(child := Some(done)), last);
    }
  }

  /** Whatever happens around it, one call of `process` is a run of the protocol that records the call's outcome. */
  lemma ProcessedIsARun(handler: Request -> Handled, s: System, document: string, e: Surroundings)
    requires s.parent.Outside?
    ensures var r := Processed(handler, s.child, Request(s.calls, document), e);
            Run(handler, s, CallTrace(handler, s, document, e))
            == System(Outside, r.1, s.calls + 1, s.history + [Record(Request(s.calls, document), r.0)])
  {
    hide Run, ChildRun, StartTrace, ServeTrace, Finished;
    var request := Request(s.calls, document);
    RunOne(handler, s, CallProcess(document));
    var called := SystemStep(handler, s, CallProcess(document));
    StartedIsARun(handler, called, Some(request), e);
    RunThen(handler, s, [CallProcess(document)], StartTrace(handler, s.child, e));
    var started := Started(handler, s.child, e);
    var first := [CallProcess(document)] + StartTrace(handler, s.child, e);
    if started.0 == Running && started.1.Some? {
      ServedIsARun(handler, called.(parent := Sending(request), child := started.1), request, e);
      RunThen(handler, s, first, ServeTrace(handler, started.1.value, request, e));
    } else {
      assert CallTrace(handler, s, document, e) == first;
    }
  }

  // ---- A served call answers -----------------------------------------------------------------

  const PROMPT := Surroundings([], true, [BecomeReady(Intact)], [], true, [Take, Answer(Intact)])

  lemma PromptStart(handler: Request -> Handled, child: Option<Child>)
    requires child.Some? ==> Quiet(child.value)
    ensures Started(handler, child, PROMPT) == (Running, Some(SPAWNED.(phase := Awaiting)))
  {
    var boot := PROMPT.boot;
    assert boot[..0] == [] && ChildRun(handler, SPAWNED, boot[..0]) == SPAWNED;
    var c := ChildRun(handler, SPAWNED, boot);
    assert c == ChildStep(handler, SPAWNED, BecomeReady(Intact));
    assert c.outbox == [Ready] && c.outbox[1..] == [];
  }

  lemma PromptWork(handler: Request -> Handled, c: Child, request: Request)
    requires c == Child(true, Awaiting, [request], [])
    ensures ChildRun(handler, c, PROMPT.work) == Child(true, Awaiting, [], [Answered(handler, request, Intact)])
  {
    var work := PROMPT.work;
    assert work[..1] == [Take] && work[..1][..0] == [];
    assert ChildRun(handler, c, work[..1][..0]) == c;
    assert c.inbox[1..] == [];
    assert ChildRun(handler, c, work[..1]) == Child(true, Working(request), [], []);
    assert ChildRun(handler, c, work) == ChildStep(handler, ChildRun(handler, c, work[..1]), Answer(Intact));
  }

  /** A prompt child answers with what the native stack makes of the request, and stays exactly for a conversion. */
  lemma PromptCall(handler: Request -> Handled, child: Option<Child>, request: Request)
    requires child.Some? ==> Quiet(child.value)
    ensures var r := Processed(handler, child, request, PROMPT);
            match handler(request)
            case Converted(result) => r == (Returned(result), Some(Child(true, Awaiting, [], [])))
            case Refused(error) => r == (DocumentRejected(error), None)
            case Broke(error) => r == (ProcessingFailed(error), None)
  {
    PromptStart(handler, child);
    var c := SPAWNED.(phase := Awaiting);
    assert ChildRun(handler, c, PROMPT.rest) == c;
    assert c.inbox + [request] == [request];
    PromptWork(handler, c.(inbox := [request]), request);
    assert [Answered(handler, request, Intact)][1..] == [];
    hide ChildRun, Started;
  }

  /** Between calls, after any run, a further call can be served: it records what its own request was made into. */
  lemma CallCanBeServed(handler: Request -> Handled, actions: seq<Action>, document: string)
    requires Run(handler, BOOT, actions).parent.Outside?
    ensures var s := Run(handler, BOOT, actions);
            var request := Request(s.calls, document);
            exists more: seq<Action> ::
              var after := Run(handler, BOOT, actions + more);
              && after.parent.Outside? && |after.history| == |s.history| + 1 && after.history[..|s.history|] == s.history
              && after.history[|s.history|].request == request
              && match handler(request)
                 case Converted(result) => after.history[|s.history|].outcome == Returned(result) && Alive(after.child)
                 case Refused(error) => after.history[|s.history|].outcome == DocumentRejected(error) && after.child.None?
                 case Broke(error) => after.history[|s.history|].outcome == ProcessingFailed(error) && after.child.None?
  {
    var s := Run(handler, BOOT, actions);
    RunOk(handler, actions);
    hide Run, Processed, CallTrace;
    PromptCall(handler, s.child, Request(s.calls, document));
    ProcessedIsARun(handler, s, document, PROMPT);
    RunThen(handler, BOOT, actions, CallTrace(handler, s, document, PROMPT));
  }

  // ---- The controller ------------------------------------------------------------------------

  lemma {:induction false} ChildRunQuiet(handler: Request -> Handled, c: Child, actions: seq<ChildAction>)
    requires Quiet(c)
    ensures Quiet(ChildRun(handler, c, actions))
  {
    if |actions| != 0 {
      ChildRunQuiet(handler, c, actions[..|actions| - 1]);
      ChildKeepsQuiet(handler, ChildRun(handler, c, actions[..|actions| - 1]), actions[|actions| - 1]);
    }
  }

  lemma {:induction false} ChildRunBooting(handler: Request -> Handled, c: Child, actions: seq<ChildAction>)
    requires Booting(c)
    ensures Booting(ChildRun(handler, c, actions))
  {
    if |actions| != 0 {
      ChildRunBooting(handler, c, actions[..|actions| - 1]);
      ChildKeepsBooting(handler, ChildRun(handler, c, actions[..|actions| - 1]), actions[|actions| - 1]);
    }
  }

  lemma {:induction false} ChildRunServing(handler: Request -> Handled, c: Child, actions: seq<ChildAction>, request: Request)
    requires Serving(handler, c, request)
    ensures Serving(handler, ChildRun(handler, c, actions), request)
  {
    if |actions| != 0 {
      ChildRunServing(handler, c, actions[..|actions| - 1], request);
      ChildKeepsServing(handler, ChildRun(handler, c, actions[..|actions| - 1]), actions[|actions| - 1], request);
    }
  }

  class PdfProcessWorker {
    const handler: Request -> Handled
    var child: Option<Child>

    ghost predicate Valid()
      reads this
    {
      child.Some? ==> Quiet(child.value)
    }

    constructor (handler: Request -> Handled)
      ensures Valid() && this.handler == handler && child.None?
    {
      this.handler := handler;
      child := None;
    }

    /** The child runs on its own for a while. */
    method LetChildRun(actions: seq<ChildAction>)
      modifies this
      ensures child == Later(handler, old(child), actions)
    {
      if child.None? {
        return;
      }
      for n := 0 to |actions|
        invariant child == Later(handler, old(child), actions[..n])
      {
        assert actions[..n + 1][..n] == actions[..n];
        child := Some(ChildStep(handler, child.value, actions[n]));
      }
      assert actions[..|actions|] == actions;
    }

    method TerminateCurrent()
      modifies this
      ensures child.None?
    {
      child := None;
    }

    /** `poll` then `recv_bytes`: nothing within the deadline, end of file, or the next reply. */
    method Await(actions: seq<ChildAction>) returns (ready: bool, reply: Option<Reply>)
      requires child.Some?
      modifies this
      ensures var c := ChildRun(handler, old(child).value, actions);
              && ready == (c.outbox != [] || !c.alive)
              && reply == (if c.outbox != [] then Some(c.outbox[0]) else None)
              && child == Some(if c.outbox != [] then AfterRead(c) else c)
    {
      LetChildRun(actions);
      ready, reply := false, None;
      if child.value.outbox != [] {
        ready, reply := true, Some(child.value.outbox[0]);
        child := Some(AfterRead(child.value));
      } else if !child.value.alive {
        ready := true;
      }
    }

    method EnsureStarted(e: Surroundings) returns (outcome: Startup)
      requires Valid()
      modifies this
      ensures (outcome, child) == Started(handler, old(child), e)
      ensures Valid() && (outcome == Running ==> child.Some?)
    {
      if child.Some? {
        ChildRunQuiet(handler, child.value, e.idle);
        LetChildRun(e.idle);
        if child.value.alive {
          return Running;
        }
      }
      TerminateCurrent();
      if !e.spawned {
        return TerminatedStartup;
      }
      child := Some(SPAWNED);
      ChildRunBooting(handler, SPAWNED, e.boot);
      var ready, reply := Await(e.boot);
      if !ready || reply.None? {
        TerminateCurrent();
        return TerminatedStartup;
      }
      // An undecodable reply escapes without a termination.
      if reply.value == Malformed {
        return EscapedStartup;
      }
      if reply.value != Ready {
        TerminateCurrent();
        return TerminatedStartup;
      }
      return Running;
    }

    method Start(e: Surroundings) returns (ok: bool)
      requires Valid()
      modifies this
      ensures Valid() && child == Started(handler, old(child), e).1
      ensures ok <==> Started(handler, old(child), e).0 == Running
      ensures ok ==> child.Some?
    {
      var outcome := EnsureStarted(e);
      ok := outcome == Running;
    }

    /** Return the conversion of this very request, or terminate the child and raise; an error reply is its own too. */
    method Process(request: Request, e: Surroundings) returns (r: Outcome)
      requires Valid()
      modifies this
      ensures (r, child) == Processed(handler, old(child), request, e)
      ensures Valid() && OwnOutcome(handler, request, r)
      ensures r.Returned? <==> child.Some?
    {
      var outcome := EnsureStarted(e);
      if outcome != Running || !e.delivered {
        TerminateCurrent();
        return Crashed;
      }
      ChildRunQuiet(handler, child.value, e.rest);
      LetChildRun(e.rest);
      child := Some(child.value.(inbox := child.value.inbox + [request]));
      ChildRunServing(handler, child.value, e.work, request);
      ghost var c := ChildRun(handler, child.value, e.work);
      var ready, reply := Await(e.work);
      if !ready {
        TerminateCurrent();
        return TimedOut;
      }
      if reply.None? {
        TerminateCurrent();
        return Crashed;
      }
      assert reply.value in c.outbox;
      match reply.value {
        case Success(Some(result)) =>
          return Returned(result);
        case DocumentError(error) =>
          r := DocumentRejected(error);
        case ProcessingError(error) =>
          r := ProcessingFailed(error);
        case _ =>
          r := Crashed;
      }
      TerminateCurrent();
    }

    method Close()
      modifies this
      ensures Valid() && child.None?
    {
      TerminateCurrent();
    }
  }
}
