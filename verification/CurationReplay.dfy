/** Crash and replay of a single curating worker (processor/curate.py). */
module CurationReplay {
  import opened Outcomes
  import opened Curation
  import opened CurationRecipe
  import opened CurationBatch
  import Near = NearDuplicateIndex

  // The near-duplicate index and the decision cache are durable, the batch in hand is not, and the input log
  // redelivers any batches in any order. A turn is three steps that a crash can separate: observe the index,
  // put the decision, hand the finished batch to the sink.

  /** The batch in hand; `observed` holds the decision of a record observed but not yet stored. */
  datatype Work =
    | Idle
    | Busy(batch: seq<string>, skips: Option<set<string>>, results: seq<Outcome>, observed: Option<Decision>)

  datatype Emission = Emission(payload: string, decision: Decision)

  /** The worker and, as history, what it emitted and observed and which observations it threw away. */
  datatype Worker = Worker(
    durable: State, work: Work, emitted: seq<Emission>,
    observes: multiset<string>, crashed: multiset<string>, failed: multiset<string>)

  datatype Action =
    | Start(batch: seq<string>, shared: bool)
    | Proceed
    | Fail
    | Finish
    | Crash

  function Boot(durable: State): Worker { Worker(durable, Idle, [], multiset{}, multiset{}, multiset{}) }

  predicate AtItem(w: Worker) { w.work.Busy? && |w.work.results| < |w.work.batch| }

  function Item(w: Worker): string
    requires AtItem(w)
  {
    w.work.batch[|w.work.results|]
  }

  /** The record observed whose decision is not stored yet. */
  function InFlight(w: Worker): multiset<string> {
    if AtItem(w) && w.work.observed.Some? then multiset{Item(w)} else multiset{}
  }

  function Settle(w: Worker, outcome: Outcome): Worker
    requires w.work.Busy?
  {
    w.(work := w.work.(results := w.work.results + [outcome], observed := None))
  }

  /** The current item's next step. */
  function Advance(m: Recipe, w: Worker): Worker
    requires AtItem(w)
  {
    var p := Item(w);
    var cache := w.durable.cache;
    if m.loads(p).None? then Settle(w, Error)
    else if w.work.observed.Some? then
      Settle(w, Value(w.work.observed.value)).(
        durable := w.durable.(cache := if p in cache then cache else cache[p := w.work.observed.value]))
    else if p in cache then Settle(w, Value(cache[p]))
    else
      var silver := m.loads(p).value;
      var skips := w.work.skips.GetOr(Skips(m, w.durable.index, Pending(m, w.durable, [p])));
      var r := Materialized(m, w.durable, p, silver, silver.docId in skips);
      w.(durable := w.durable.(index := r.1.index),
         work := w.work.(observed := Some(r.0)),
         observes := w.observes + multiset{p})
  }

  function Emissions(batch: seq<string>, results: seq<Outcome>): seq<Emission>
    requires |batch| == |results|
  {
    if batch == [] then []
    else (match results[0] case Error => [] case Value(d) => [Emission(batch[0], d)]) + Emissions(batch[1..], results[1..])
  }

  function Step(m: Recipe, w: Worker, a: Action): Worker {
    match a
    case Start(batch, shared) =>
      if w.work.Busy? then w
      else w.(work := Busy(batch, if shared then Some(Skips(m, w.durable.index, Pending(m, w.durable, batch))) else None, [], None))
    case Proceed => if AtItem(w) then Advance(m, w) else w
    case Fail => if AtItem(w) then Settle(w, Error).(failed := w.failed + InFlight(w)) else w
    case Finish =>
      if w.work.Busy? && |w.work.results| == |w.work.batch|
      then w.(work := Idle, emitted := w.emitted + Emissions(w.work.batch, w.work.results)) else w
    case Crash => w.(work := Idle, crashed := w.crashed + InFlight(w))
  }

  function Run(m: Recipe, w: Worker, actions: seq<Action>): Worker {
    if actions == [] then w else Step(m, Run(m, w, actions[..|actions| - 1]), actions[|actions| - 1])
  }

  // ---- Every emission is the stored decision -------------------------------------------------

  ghost predicate Stored(cache: map<string, Decision>, e: Emission) {
    e.payload in cache && cache[e.payload] == e.decision
  }

  ghost predicate ResultsStored(w: Worker) {
    w.work.Busy? ==>
      && |w.work.results| <= |w.work.batch|
      && forall i | 0 <= i < |w.work.results| && w.work.results[i].Value? ::
           Stored(w.durable.cache, Emission(w.work.batch[i], w.work.results[i].decision))
  }

  /** Results and emissions are the stored decisions, and an observed record is not stored yet. */
  ghost predicate Consistent(w: Worker) {
    && (forall e | e in w.emitted :: Stored(w.durable.cache, e))
    && ResultsStored(w)
    && (w.work.Busy? && w.work.observed.Some? ==> AtItem(w) && Item(w) !in w.durable.cache)
  }

  predicate IsInFlight(w: Worker, p: string) { AtItem(w) && w.work.observed.Some? && Item(w) == p }

  /** Every observation of `p` led to a stored decision, is in flight, or was thrown away. */
  ghost predicate Accounted(w: Worker, before: set<string>, p: string) {
    && before <= w.durable.cache.Keys
    && w.observes[p] == w.crashed[p] + w.failed[p]
                        + (if p in w.durable.cache && p !in before then 1 else 0)
                        + (if IsInFlight(w, p) then 1 else 0)
  }

  lemma {:induction false} EmissionsStored(cache: map<string, Decision>, batch: seq<string>, results: seq<Outcome>)
    requires |batch| == |results|
    requires forall i | 0 <= i < |results| && results[i].Value? :: Stored(cache, Emission(batch[i], results[i].decision))
    ensures forall e | e in Emissions(batch, results) :: Stored(cache, e)
  {
    if batch != [] {
      EmissionsStored(cache, batch[1..], results[1..]);
    }
  }

  lemma SettleConsistent(w: Worker, outcome: Outcome, cache: map<string, Decision>)
    requires Consistent(w) && AtItem(w)
    requires forall p | p in w.durable.cache :: p in cache && cache[p] == w.durable.cache[p]
    requires outcome.Value? ==> Stored(cache, Emission(Item(w), outcome.decision))
    ensures Consistent(Settle(w, outcome).(durable := w.durable.(cache := cache)))
  {
  }

  lemma AdvanceConsistent(m: Recipe, w: Worker)
    requires Consistent(w) && AtItem(w)
    ensures Consistent(Advance(m, w))
  {
    hide Materialized, Skips;
    var p, cache := Item(w), w.durable.cache;
    if m.loads(p).None? {
      SettleConsistent(w, Error, cache);
    } else if w.work.observed.Some? {
      SettleConsistent(w, Value(w.work.observed.value), cache[p := w.work.observed.value]);
    } else if p in cache {
      SettleConsistent(w, Value(cache[p]), cache);
    }
  }

  lemma UnstoredItem(w: Worker)
    requires Consistent(w) && w.work.Busy? && w.work.observed.Some?
    ensures AtItem(w) && Item(w) !in w.durable.cache
  {
  }

  lemma AdvanceAccounted(m: Recipe, w: Worker, before: set<string>, p: string)
    requires Consistent(w) && ObservedReadable(m, w) && Accounted(w, before, p) && AtItem(w)
    ensures Accounted(Advance(m, w), before, p)
  {
    hide Materialized, Skips, Consistent, Pending;
    if w.work.observed.Some? {
      UnstoredItem(w);
    }
  }

  lemma StepAccounted(m: Recipe, w: Worker, a: Action, before: set<string>, p: string)
    requires Consistent(w) && ObservedReadable(m, w) && Accounted(w, before, p)
    ensures Accounted(Step(m, w, a), before, p)
  {
    hide Advance, Skips, Consistent, Emissions, Pending;
    if w.work.Busy? && w.work.observed.Some? {
      UnstoredItem(w);
    }
    if a == Proceed && AtItem(w) {
      AdvanceAccounted(m, w, before, p);
    }
  }

  /** Only readable records are observed. */
  ghost predicate ObservedReadable(m: Recipe, w: Worker) {
    AtItem(w) && w.work.observed.Some? ==> m.loads(Item(w)).Some?
  }

  lemma StepConsistent(m: Recipe, w: Worker, a: Action)
    requires Consistent(w) && ObservedReadable(m, w)
    ensures Consistent(Step(m, w, a)) && ObservedReadable(m, Step(m, w, a))
  {
    hide Materialized, Skips, Pending;
    match a
    case Start(_, _) =>
    case Proceed =>
      if AtItem(w) {
        AdvanceConsistent(m, w);
      }
    case Fail =>
      if AtItem(w) {
        SettleConsistent(w, Error, w.durable.cache);
      }
    case Finish =>
      if w.work.Busy? && |w.work.results| == |w.work.batch| {
        EmissionsStored(w.durable.cache, w.work.batch, w.work.results);
      }
    case Crash =>
  }

  lemma {:induction false} RunKeeps(m: Recipe, durable: State, actions: seq<Action>, p: string)
    ensures var w := Run(m, Boot(durable), actions);
            Consistent(w) && ObservedReadable(m, w) && Accounted(w, durable.cache.Keys, p)
  {
    if actions != [] {
      var before := Run(m, Boot(durable), actions[..|actions| - 1]);
      RunKeeps(m, durable, actions[..|actions| - 1], p);
      StepConsistent(m, before, actions[|actions| - 1]);
      StepAccounted(m, before, actions[|actions| - 1], durable.cache.Keys, p);
      hide Consistent, ObservedReadable, Accounted, Step;
    }
  }

  /** Over any crashes and redeliveries, every emission of one payload is the same stored decision. */
  lemma EmissionsOfOnePayloadAgree(m: Recipe, durable: State, actions: seq<Action>, e: Emission, f: Emission)
    requires var emitted := Run(m, Boot(durable), actions).emitted; e in emitted && f in emitted
    requires e.payload == f.payload
    ensures e == f && Stored(Run(m, Boot(durable), actions).durable.cache, e)
  {
    hide Run;
    RunKeeps(m, durable, actions, e.payload);
  }

  /**
   A payload is observed again only after an observation that a crash separated from its put, or that a
   record-local error discarded; one decided before the run is never observed.
   */
  lemma ObservedAgainOnlyAfterLoss(m: Recipe, durable: State, actions: seq<Action>, p: string)
    ensures var w := Run(m, Boot(durable), actions);
            w.observes[p] <= w.crashed[p] + w.failed[p] + if p in durable.cache then 0 else 1
  {
    hide Run;
    RunKeeps(m, durable, actions, p);
    var w := Run(m, Boot(durable), actions);
    if AtItem(w) && w.work.observed.Some? {
      UnstoredItem(w);
    }
  }

  /** Nothing is thrown away unless a crash or a record error strikes between an observation and its put. */
  lemma LossNeedsTheWindow(m: Recipe, w: Worker, a: Action, p: string)
    ensures var next := Step(m, w, a);
            next.crashed[p] + next.failed[p] > w.crashed[p] + w.failed[p] ==>
              (a == Crash || a == Fail) && IsInFlight(w, p)
  {
    hide Materialized, Skips, Pending, Emissions;
  }

  // ---- Without a crash the steps are the batch -----------------------------------------------

  lemma {:induction false} RunAppend(m: Recipe, w: Worker, actions: seq<Action>, a: Action)
    ensures Run(m, w, actions + [a]) == Step(m, Run(m, w, actions), a)
  {
    assert (actions + [a])[..|actions|] == actions;
  }

  ghost predicate InHand(w: Worker, batch: seq<string>, skips: set<string>, r: (seq<Outcome>, State)) {
    w.durable == r.1 && w.work == Busy(batch, Some(skips), r.0, None)
  }

  /** One or two steps take the current record's turn. */
  lemma StepsOfOneTurn(m: Recipe, w: Worker, batch: seq<string>, skips: set<string>, r: (seq<Outcome>, State))
    requires InHand(w, batch, skips, r) && AtItem(w)
    ensures var turn := Turn(m, r.1, Item(w), skips);
            var once := Step(m, w, Proceed);
            || InHand(once, batch, skips, (r.0 + [turn.0], turn.1))
            || InHand(Step(m, once, Proceed), batch, skips, (r.0 + [turn.0], turn.1))
  {
    hide Skips, Pending, Near.Observed;
  }

  /** A run without crashes or record errors reaches exactly the batch's results and state. */
  lemma {:induction false} CrashFreeRunIsTheBatch(m: Recipe, durable: State, batch: seq<string>, n: nat) returns (actions: seq<Action>)
    requires n <= |batch|
    ensures var skips := Skips(m, durable.index, Pending(m, durable, batch));
            InHand(Run(m, Boot(durable), actions), batch, skips, Turns(m, durable, batch[..n], skips))
    ensures forall a | a in actions :: a == Proceed || a == Start(batch, true)
  {
    hide Skips, Pending, Turn, Advance;
    var skips := Skips(m, durable.index, Pending(m, durable, batch));
    if n == 0 {
      actions := [Start(batch, true)];
      RunAppend(m, Boot(durable), [], Start(batch, true));
      assert [] + [Start(batch, true)] == actions;
    } else {
      hide Step, Run;
      var before := CrashFreeRunIsTheBatch(m, durable, batch, n - 1);
      var w, r := Run(m, Boot(durable), before), Turns(m, durable, batch[..n - 1], skips);
      assert batch[..n] == batch[..n - 1] + [batch[n - 1]];
      OneFurther(m, durable, batch[..n - 1], batch[n - 1], skips);
      StepsOfOneTurn(m, w, batch, skips, r);
      RunAppend(m, Boot(durable), before, Proceed);
      actions := before + [Proceed];
      if !InHand(Run(m, Boot(durable), actions), batch, skips, Turns(m, durable, batch[..n], skips)) {
        RunAppend(m, Boot(durable), actions, Proceed);
        actions := actions + [Proceed];
      }
    }
  }

  /** `emitted` are the decisions from record `n` on, in order: `at` are the places of the results that have one. */
  ghost predicate EmitsAt(batch: seq<string>, results: seq<Outcome>, n: nat, emitted: seq<Emission>, at: seq<nat>)
    requires |batch| == |results|
  {
    && |at| == |emitted|
    && (forall j, k | 0 <= j < k < |at| :: at[j] < at[k])
    && (forall k | 0 <= k < |at| ::
          n <= at[k] < |results| && results[at[k]].Value? && emitted[k] == Emission(batch[at[k]], results[at[k]].decision))
    && forall i: nat | n <= i < |results| && results[i].Value? :: i in at
  }

  lemma {:induction false} EmissionPlaces(batch: seq<string>, results: seq<Outcome>, n: nat) returns (at: seq<nat>)
    requires |batch| == |results| && n <= |batch|
    ensures EmitsAt(batch, results, n, Emissions(batch[n..], results[n..]), at)
    decreases |batch| - n
  {
    hide EmitsAt;
    if n == |batch| {
      at := [];
      NoEmissions(batch, results);
    } else {
      var rest := EmissionPlaces(batch, results, n + 1);
      var emitted := Emissions(batch[n + 1..], results[n + 1..]);
      assert batch[n..][1..] == batch[n + 1..] && results[n..][1..] == results[n + 1..];
      if results[n].Value? {
        at := [n] + rest;
        OneMorePlace(batch, results, n, emitted, rest);
      } else {
        at := rest;
        NoMorePlace(batch, results, n, emitted, rest);
        assert [] + emitted == emitted;
      }
    }
  }

  lemma NoEmissions(batch: seq<string>, results: seq<Outcome>)
    requires |batch| == |results|
    ensures EmitsAt(batch, results, |batch|, [], [])
  {
  }

  lemma OneMorePlace(batch: seq<string>, results: seq<Outcome>, n: nat, emitted: seq<Emission>, rest: seq<nat>)
    requires n < |batch| == |results| && EmitsAt(batch, results, n + 1, emitted, rest) && results[n].Value?
    ensures EmitsAt(batch, results, n, [Emission(batch[n], results[n].decision)] + emitted, [n] + rest)
  {
    forall i: nat | n <= i < |results| && results[i].Value? ensures i in [n] + rest {
      assert i == n || i in rest;
    }
  }

  lemma NoMorePlace(batch: seq<string>, results: seq<Outcome>, n: nat, emitted: seq<Emission>, rest: seq<nat>)
    requires n < |batch| == |results| && EmitsAt(batch, results, n + 1, emitted, rest) && !results[n].Value?
    ensures EmitsAt(batch, results, n, emitted, rest)
  {
  }

  /** Some run without crashes or errors finishes the batch and emits just that. */
  ghost predicate FinishedBy(m: Recipe, durable: State, batch: seq<string>, actions: seq<Action>) {
    var r, after := Batch(m, durable, batch), Run(m, Boot(durable), actions);
    && (forall a | a in actions :: a == Start(batch, true) || a == Proceed || a == Finish)
    && after.durable == r.1 && after.work.Idle?
    && exists at: seq<nat> :: EmitsAt(batch, r.0, 0, after.emitted, at)
  }

  /** A batch that meets no crash ends by handing the sink one emission for each readable record, in order. */
  lemma FinishedBatchEmits(m: Recipe, durable: State, batch: seq<string>)
    ensures exists actions: seq<Action> :: FinishedBy(m, durable, batch, actions)
  {
    hide Run, Emissions, EmitsAt, Skips, Pending;
    var steps := CrashFreeRunIsTheBatch(m, durable, batch, |batch|);
    assert batch[..|batch|] == batch;
    var r := Batch(m, durable, batch);
    NothingEmittedYet(m, Boot(durable), steps, batch);
    RunAppend(m, Boot(durable), steps, Finish);
    var at := EmissionPlaces(batch, r.0, 0);
    assert batch[0..] == batch && r.0[0..] == r.0;
    var actions := steps + [Finish];
    assert [] + Emissions(batch, r.0) == Emissions(batch, r.0);
    assert Run(m, Boot(durable), actions).emitted == Emissions(batch, r.0);
    assert FinishedBy(m, durable, batch, actions);
  }

  lemma {:induction false} NothingEmittedYet(m: Recipe, w: Worker, actions: seq<Action>, batch: seq<string>)
    requires forall a | a in actions :: a == Proceed || a == Start(batch, true)
    ensures Run(m, w, actions).emitted == w.emitted
  {
    hide Advance, Skips, Pending;
    if actions != [] {
      var front, last := actions[..|actions| - 1], actions[|actions| - 1];
      assert forall a | a in front :: a in actions;
      NothingEmittedYet(m, w, front, batch);
      assert last in actions;
      AdvanceEmitsNothing(m, Run(m, w, front));
    }
  }

  lemma AdvanceEmitsNothing(m: Recipe, w: Worker)
    ensures AtItem(w) ==> Advance(m, w).emitted == w.emitted
  {
    hide Materialized, Skips, Pending;
  }
}
