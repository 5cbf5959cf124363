/** A micro-batch against one-at-a-time processing (processor/curate.py). */
module CurationBatch {
  import opened Outcomes
  import opened Curation
  import opened CurationRecipe
  import opened CurationRules
  import Near = NearDuplicateIndex

  // A batch decides its classifier skips against the state it starts from, and then finalizes its records
  // in order against the decision cache and the growing near-duplicate index.

  datatype Outcome = Value(decision: Decision) | Error
  datatype State = State(index: Near.Index, cache: map<string, Decision>)

  /** The speculative check made while prefetching: hard gates, then a probe of the index. */
  predicate NeedsSkip(m: Recipe, index: Near.Index, silver: Silver) {
    m.hard(silver) || Near.Verdict(m.lsh, index, silver.docId, m.signature(silver)).duplicate
  }

  /** The documents of `payloads` that are neither unreadable nor already decided. */
  function Pending(m: Recipe, st: State, payloads: seq<string>): seq<Silver> {
    if payloads == [] then []
    else
      var last := payloads[|payloads| - 1];
      Pending(m, st, payloads[..|payloads| - 1])
      + if m.loads(last).Some? && last !in st.cache then [m.loads(last).value] else []
  }

  /** The skip set names documents, not records. */
  function Skips(m: Recipe, index: Near.Index, silvers: seq<Silver>): set<string> {
    set s | s in silvers && NeedsSkip(m, index, s) :: s.docId
  }

  /** Curate, observe the projection, and store the decision unless one is stored already. */
  function Materialized(m: Recipe, st: State, payload: string, silver: Silver, skipped: bool): (Decision, State) {
    var observed := Near.Observed(m.lsh, st.index, silver.docId, m.signature(silver));
    var decision := m.decide(silver, skipped, observed.0);
    (decision, State(observed.1, if payload in st.cache then st.cache else st.cache[payload := decision]))
  }

  function Turn(m: Recipe, st: State, payload: string, skips: set<string>): (Outcome, State) {
    if m.loads(payload).None? then (Error, st)
    else if payload in st.cache then (Value(st.cache[payload]), st)
    else
      var silver := m.loads(payload).value;
      var r := Materialized(m, st, payload, silver, silver.docId in skips);
      (Value(r.0), r.1)
  }

  function Turns(m: Recipe, st: State, payloads: seq<string>, skips: set<string>): (r: (seq<Outcome>, State))
    ensures |r.0| == |payloads|
  {
    if payloads == [] then ([], st)
    else
      var before := Turns(m, st, payloads[..|payloads| - 1], skips);
      var turn := Turn(m, before.1, payloads[|payloads| - 1], skips);
      (before.0 + [turn.0], turn.1)
  }

  function Batch(m: Recipe, st: State, payloads: seq<string>): (r: (seq<Outcome>, State))
    ensures |r.0| == |payloads|
  {
    Turns(m, st, payloads, Skips(m, st.index, Pending(m, st, payloads)))
  }

  /** Every payload in a batch of its own. */
  function Serial(m: Recipe, st: State, payloads: seq<string>): (r: (seq<Outcome>, State))
    ensures |r.0| == |payloads|
  {
    if payloads == [] then ([], st)
    else
      var before := Serial(m, st, payloads[..|payloads| - 1]);
      var one := Batch(m, before.1, [payloads[|payloads| - 1]]);
      (before.0 + one.0, one.1)
  }

  /** Readable payloads of one batch that share a document identifier are byte-identical. */
  ghost predicate OnePayloadPerDocument(m: Recipe, payloads: seq<string>) {
    forall p, q | p in payloads && q in payloads && m.loads(p).Some? && m.loads(q).Some?
      && m.loads(p).value.docId == m.loads(q).value.docId :: p == q
  }

  // ---- Skips ---------------------------------------------------------------------------------

  lemma {:induction false} PendingElements(m: Recipe, st: State, payloads: seq<string>, silver: Silver)
    ensures silver in Pending(m, st, payloads) <==>
              exists p | p in payloads :: m.loads(p) == Some(silver) && p !in st.cache
  {
    if payloads != [] {
      var before, last := payloads[..|payloads| - 1], payloads[|payloads| - 1];
      PendingElements(m, st, before, silver);
      assert forall p :: p in payloads <==> p in before || p == last;
    }
  }

  lemma OneTurn(m: Recipe, st: State, payload: string, skips: set<string>)
    ensures Turns(m, st, [payload], skips) == ([Turn(m, st, payload, skips).0], Turn(m, st, payload, skips).1)
  {
    var none: seq<string> := [];
    assert [payload][..|[payload]| - 1] == none;
    assert Turns(m, st, none, skips) == ([], st);
    assert [] + [Turn(m, st, payload, skips).0] == [Turn(m, st, payload, skips).0];
  }

  /** A document alone in its batch is skipped exactly when its own check says so. */
  lemma SingletonSkip(m: Recipe, st: State, payload: string)
    requires payload !in st.cache && m.loads(payload).Some?
    ensures var silver := m.loads(payload).value;
            silver.docId in Skips(m, st.index, Pending(m, st, [payload])) <==> NeedsSkip(m, st.index, silver)
  {
    var silver := m.loads(payload).value;
    assert [payload][..|[payload]| - 1] == [];
    assert Pending(m, st, [payload]) == [silver];
    assert silver in [silver];
  }

  /** Under the premise on identifiers, the shared skip set still asks each pending record's own question. */
  lemma SharedSkip(m: Recipe, st: State, payloads: seq<string>, payload: string)
    requires OnePayloadPerDocument(m, payloads) && payload in payloads
    requires payload !in st.cache && m.loads(payload).Some?
    ensures var silver := m.loads(payload).value;
            silver.docId in Skips(m, st.index, Pending(m, st, payloads)) <==> NeedsSkip(m, st.index, silver)
  {
    var silver := m.loads(payload).value;
    var pending := Pending(m, st, payloads);
    PendingElements(m, st, payloads, silver);
    if silver.docId in Skips(m, st.index, pending) {
      var s :| s in pending && NeedsSkip(m, st.index, s) && s.docId == silver.docId;
      PendingElements(m, st, payloads, s);
    }
  }

  // ---- What a run of turns keeps -------------------------------------------------------------

  /** What a run observes: each readable payload without a stored decision, at its first occurrence. */
  function Undecided(m: Recipe, st: State, payloads: seq<string>): seq<Near.Observation> {
    if payloads == [] then []
    else
      var before, last := payloads[..|payloads| - 1], payloads[|payloads| - 1];
      Undecided(m, st, before)
      + if m.loads(last).Some? && last !in st.cache && last !in before
        then [Near.Observation(m.loads(last).value.docId, m.signature(m.loads(last).value))] else []
  }

  lemma {:induction false} UndecidedElements(m: Recipe, st: State, payloads: seq<string>, o: Near.Observation)
    requires o in Undecided(m, st, payloads)
    ensures exists p | p in payloads :: m.loads(p).Some? && m.loads(p).value.docId == o.docId
  {
    var before, last := payloads[..|payloads| - 1], payloads[|payloads| - 1];
    if o in Undecided(m, st, before) {
      UndecidedElements(m, st, before, o);
    }
  }

  /** The state a run over `payloads` leaves, whatever it skips: index, keys and earlier decisions. */
  ghost predicate Follows(m: Recipe, st: State, later: State, payloads: seq<string>) {
    && later.index == Near.ObserveAll(m.lsh, st.index, Undecided(m, st, payloads))
    && (forall p :: p in later.cache <==> p in st.cache || (p in payloads && m.loads(p).Some?))
    && (forall p | p in st.cache :: p in later.cache && later.cache[p] == st.cache[p])
  }

  /** The observation and the stored entry of one undecided, readable payload. */
  lemma TurnEffect(m: Recipe, st: State, payload: string, skips: set<string>) returns (o: Near.Observation, d: Decision)
    requires m.loads(payload).Some? && payload !in st.cache
    ensures var silver := m.loads(payload).value; o == Near.Observation(silver.docId, m.signature(silver))
    ensures Turn(m, st, payload, skips)
         == (Value(d), State(Near.Observed(m.lsh, st.index, o.docId, o.signature).1, st.cache[payload := d]))
  {
    var silver := m.loads(payload).value;
    o := Near.Observation(silver.docId, m.signature(silver));
    d := Materialized(m, st, payload, silver, silver.docId in skips).0;
  }

  lemma FollowsOneMore(m: Recipe, st: State, mid: State, before: seq<string>, payload: string, skips: set<string>)
    requires Follows(m, st, mid, before)
    ensures Follows(m, st, Turn(m, mid, payload, skips).1, before + [payload])
  {
    assert (before + [payload])[..|before|] == before;
    if m.loads(payload).Some? && payload !in mid.cache {
      var o, _ := TurnEffect(m, mid, payload, skips);
      ObserveAllSnoc(m.lsh, st.index, Undecided(m, st, before), o);
    } else {
      assert Turn(m, mid, payload, skips).1 == mid;
      assert Undecided(m, st, before + [payload]) == Undecided(m, st, before);
    }
  }

  lemma {:induction false} ObserveAllSnoc(cfg: Near.Config, index: Near.Index, seen: seq<Near.Observation>, o: Near.Observation)
    ensures Near.ObserveAll(cfg, index, seen + [o])
         == Near.Observed(cfg, Near.ObserveAll(cfg, index, seen), o.docId, o.signature).1
    decreases |seen|
  {
    if seen == [] {
      assert seen + [o] == [o] && [o][1..] == [];
    } else {
      assert (seen + [o])[1..] == seen[1..] + [o];
      ObserveAllSnoc(cfg, Near.Observed(cfg, index, seen[0].docId, seen[0].signature).1, seen[1..], o);
    }
  }

  /** A run of turns observes exactly the undecided payloads, and changes no stored decision. */
  lemma {:induction false} TurnsObserve(m: Recipe, st: State, payloads: seq<string>, skips: set<string>)
    ensures Follows(m, st, Turns(m, st, payloads, skips).1, payloads)
  {
    hide Turn;
    if payloads != [] {
      hide Follows;
      var before, last := payloads[..|payloads| - 1], payloads[|payloads| - 1];
      TurnsObserve(m, st, before, skips);
      FollowsOneMore(m, st, Turns(m, st, before, skips).1, before, last, skips);
      assert before + [last] == payloads;
    }
  }

  lemma {:induction false} TurnsValid(m: Recipe, st: State, payloads: seq<string>, skips: set<string>)
    requires Near.Valid(st.index)
    ensures Near.Valid(Turns(m, st, payloads, skips).1.index)
  {
    if payloads != [] {
      var before, last := payloads[..|payloads| - 1], payloads[|payloads| - 1];
      TurnsValid(m, st, before, skips);
      var mid := Turns(m, st, before, skips).1;
      if m.loads(last).Some? && last !in mid.cache {
        var o, _ := TurnEffect(m, mid, last, skips);
        Near.ObserveValid(m.lsh, mid.index, o.docId, o.signature);
      }
    }
  }

  /** A record found duplicate when the batch started is still duplicate when its turn comes. */
  lemma DuplicateUntilTurn(m: Recipe, st: State, payloads: seq<string>, skips: set<string>, payload: string)
    requires Near.Valid(st.index) && OnePayloadPerDocument(m, payloads + [payload]) && m.loads(payload).Some?
    requires payload !in Turns(m, st, payloads, skips).1.cache
    ensures var silver := m.loads(payload).value;
            var sig := m.signature(silver);
            Near.Verdict(m.lsh, st.index, silver.docId, sig).duplicate ==>
            Near.Verdict(m.lsh, Turns(m, st, payloads, skips).1.index, silver.docId, sig).duplicate
  {
    var silver := m.loads(payload).value;
    var sig := m.signature(silver);
    var seen := Undecided(m, st, payloads);
    TurnsObserve(m, st, payloads, skips);
    forall o | o in seen ensures o.docId != silver.docId {
      UndecidedElements(m, st, payloads, o);
      var p :| p in payloads && m.loads(p).Some? && m.loads(p).value.docId == o.docId;
      assert p in payloads + [payload] && payload in payloads + [payload];
    }
    if Near.Verdict(m.lsh, st.index, silver.docId, sig).duplicate {
      Near.DuplicateIsMonotone(m.lsh, st.index, silver.docId, sig, seen);
    }
  }

  // ---- Batch refines serial ------------------------------------------------------------------

  predicate SameOutcome(a: Outcome, b: Outcome) {
    match (a, b)
    case (Error, Error) => true
    case (Value(d), Value(e)) => SameFlags(d, e)
    case _ => false
  }

  ghost predicate SameOutcomes(a: seq<Outcome>, b: seq<Outcome>) {
    |a| == |b| && forall i | 0 <= i < |a| :: SameOutcome(a[i], b[i])
  }

  ghost predicate Agree(a: State, b: State) {
    && a.index == b.index
    && a.cache.Keys == b.cache.Keys
    && forall p | p in a.cache :: SameFlags(a.cache[p], b.cache[p])
  }

  lemma AgreeAfterStore(b: State, s: State, index: Near.Index, payload: string, d: Decision, e: Decision)
    requires Agree(b, s) && SameFlags(d, e)
    ensures Agree(State(index, b.cache[payload := d]), State(index, s.cache[payload := e]))
  {
  }

  /** One turn from agreeing states, whose skips differ at most for a hard rejection or a duplicate. */
  lemma TurnAgrees(m: Recipe, b: State, s: State, payload: string, skips: set<string>, own: set<string>)
    requires Lawful(m) && Agree(b, s)
    requires m.loads(payload).Some? && payload !in b.cache ==>
               var silver := m.loads(payload).value;
               || (silver.docId in skips <==> silver.docId in own)
               || m.hard(silver)
               || Near.Verdict(m.lsh, b.index, silver.docId, m.signature(silver)).duplicate
    ensures SameOutcome(Turn(m, b, payload, skips).0, Turn(m, s, payload, own).0)
    ensures Agree(Turn(m, b, payload, skips).1, Turn(m, s, payload, own).1)
  {
    if m.loads(payload).Some? && payload !in b.cache {
      var silver := m.loads(payload).value;
      var sig := m.signature(silver);
      var observed := Near.Observed(m.lsh, b.index, silver.docId, sig);
      Near.ProbeIsObserveVerdict(m.lsh, b.index, silver.docId, sig);
      AgreeAfterStore(b, s, observed.1, payload, m.decide(silver, silver.docId in skips, observed.0),
                      m.decide(silver, silver.docId in own, observed.0));
    }
  }

  /** At its turn, a record that the shared skip set treats differently has become a duplicate meanwhile. */
  lemma SkipsDifferOnlyOnDuplicates(m: Recipe, st: State, payloads: seq<string>, n: nat, s: State)
    requires Near.Valid(st.index) && OnePayloadPerDocument(m, payloads) && n < |payloads|
    requires Agree(Turns(m, st, payloads[..n], Skips(m, st.index, Pending(m, st, payloads))).1, s)
    requires m.loads(payloads[n]).Some? && payloads[n] !in s.cache
    ensures var silver := m.loads(payloads[n]).value;
            || (silver.docId in Skips(m, st.index, Pending(m, st, payloads))
                <==> silver.docId in Skips(m, s.index, Pending(m, s, [payloads[n]])))
            || m.hard(silver)
            || Near.Verdict(m.lsh, s.index, silver.docId, m.signature(silver)).duplicate
  {
    hide Turns, Skips, Pending, Near.Verdict;
    var skips := Skips(m, st.index, Pending(m, st, payloads));
    var p := payloads[n];
    TurnsObserve(m, st, payloads[..n], skips);
    SingletonSkip(m, s, p);
    SharedSkip(m, st, payloads, p);
    assert forall q | q in payloads[..n] + [p] :: q in payloads;
    DuplicateUntilTurn(m, st, payloads[..n], skips, p);
  }

  /** The two runs one payload further, in terms of the runs before it. */
  lemma OneFurther(m: Recipe, st: State, before: seq<string>, p: string, skips: set<string>)
    ensures var b, s := Turns(m, st, before, skips), Serial(m, st, before);
            var own := Skips(m, s.1.index, Pending(m, s.1, [p]));
            && Turns(m, st, before + [p], skips) == (b.0 + [Turn(m, b.1, p, skips).0], Turn(m, b.1, p, skips).1)
            && Serial(m, st, before + [p]) == (s.0 + [Turn(m, s.1, p, own).0], Turn(m, s.1, p, own).1)
  {
    var s := Serial(m, st, before);
    assert (before + [p])[..|before|] == before;
    OneTurn(m, s.1, p, Skips(m, s.1.index, Pending(m, s.1, [p])));
  }

  lemma {:induction false} RefinesUpTo(m: Recipe, st: State, payloads: seq<string>, n: nat)
    requires Lawful(m) && Near.Valid(st.index) && OnePayloadPerDocument(m, payloads) && n <= |payloads|
    ensures var b := Turns(m, st, payloads[..n], Skips(m, st.index, Pending(m, st, payloads)));
            var s := Serial(m, st, payloads[..n]);
            SameOutcomes(b.0, s.0) && Agree(b.1, s.1)
  {
    hide Turn, Skips, Pending, Materialized;
    if n != 0 {
      var skips := Skips(m, st.index, Pending(m, st, payloads));
      var before, p := payloads[..n - 1], payloads[n - 1];
      assert payloads[..n] == before + [p];
      RefinesUpTo(m, st, payloads, n - 1);
      var b, s := Turns(m, st, before, skips).1, Serial(m, st, before).1;
      if m.loads(p).Some? && p !in b.cache {
        SkipsDifferOnlyOnDuplicates(m, st, payloads, n - 1, s);
      }
      TurnAgrees(m, b, s, p, skips, Skips(m, s.index, Pending(m, s, [p])));
      OneFurther(m, st, before, p, skips);
    }
  }

  /**
   Batching keeps serial state semantics: every item gets the trainable flag and route that one-at-a-time
   processing gives it, and the near-duplicate index and the cached keys end up the same.
   */
  lemma BatchRefinesSerial(m: Recipe, st: State, payloads: seq<string>)
    requires Lawful(m) && Near.Valid(st.index) && OnePayloadPerDocument(m, payloads)
    ensures var b := Batch(m, st, payloads);
            var s := Serial(m, st, payloads);
            SameOutcomes(b.0, s.0) && Agree(b.1, s.1)
  {
    RefinesUpTo(m, st, payloads, |payloads|);
    assert payloads[..|payloads|] == payloads;
  }

  // ---- No acceptance without a passing report ------------------------------------------------

  /** Every decision the run added to the cache is scored. */
  ghost predicate NewDecisionsScored(st: State, later: State) {
    forall p | p in later.cache && p !in st.cache :: Scored(later.cache[p])
  }

  /** Under the shared skip set, the turn of an undecided record yields a scored decision. */
  lemma TurnScored(m: Recipe, st: State, payloads: seq<string>, n: nat)
    requires Lawful(m) && Near.Valid(st.index) && OnePayloadPerDocument(m, payloads) && n < |payloads|
    requires var mid := Turns(m, st, payloads[..n], Skips(m, st.index, Pending(m, st, payloads))).1;
             m.loads(payloads[n]).Some? && payloads[n] !in mid.cache && payloads[n] !in st.cache
    ensures var skips := Skips(m, st.index, Pending(m, st, payloads));
            var mid := Turns(m, st, payloads[..n], skips).1;
            var turn := Turn(m, mid, payloads[n], skips);
            turn.0.Value? && Scored(turn.0.decision) && turn.1.cache == mid.cache[payloads[n] := turn.0.decision]
  {
    hide Skips, Pending, Turns;
    var skips := Skips(m, st.index, Pending(m, st, payloads));
    var before, p := payloads[..n], payloads[n];
    var mid := Turns(m, st, before, skips).1;
    var silver := m.loads(p).value;
    var sig := m.signature(silver);
    SharedSkip(m, st, payloads, p);
    assert forall q | q in before + [p] :: q in payloads;
    DuplicateUntilTurn(m, st, before, skips, p);
    Near.ProbeIsObserveVerdict(m.lsh, mid.index, silver.docId, sig);
  }

  lemma {:induction false} ScoredUpTo(m: Recipe, st: State, payloads: seq<string>, n: nat)
    requires Lawful(m) && Near.Valid(st.index) && OnePayloadPerDocument(m, payloads) && n <= |payloads|
    ensures var r := Turns(m, st, payloads[..n], Skips(m, st.index, Pending(m, st, payloads)));
            && NewDecisionsScored(st, r.1)
            && forall i | 0 <= i < n && payloads[i] !in st.cache && r.0[i].Value? :: Scored(r.0[i].decision)
  {
    hide Skips, Pending, Scored, Materialized;
    if n != 0 {
      var skips := Skips(m, st.index, Pending(m, st, payloads));
      var before, p := payloads[..n - 1], payloads[n - 1];
      assert payloads[..n][..n - 1] == before;
      ScoredUpTo(m, st, payloads, n - 1);
      TurnsGrow(m, st, before, skips);
      var mid := Turns(m, st, before, skips).1;
      if m.loads(p).Some? && p !in mid.cache {
        TurnScored(m, st, payloads, n - 1);
      }
    }
  }

  /**
   Skipping inference creates no acceptance rule: whatever a batch newly decides is trainable only with a
   quality report that passed its cutoff.
   */
  lemma BatchAcceptsOnlyScored(m: Recipe, st: State, payloads: seq<string>)
    requires Lawful(m) && Near.Valid(st.index) && OnePayloadPerDocument(m, payloads)
    ensures var r := Batch(m, st, payloads);
            && NewDecisionsScored(st, r.1)
            && forall i | 0 <= i < |payloads| && payloads[i] !in st.cache && r.0[i].Value? :: Scored(r.0[i].decision)
  {
    ScoredUpTo(m, st, payloads, |payloads|);
    assert payloads[..|payloads|] == payloads;
  }

  // ---- Acceptance without the premise on identifiers ------------------------------------------

  /**
   Record `k` is decided here, its document is in the shared skip set although it is not hard itself, the
   index that observed the undecided records before it calls it original, and nothing else stops it.
   */
  predicate SlipsThrough(m: Models, st: State, payloads: seq<string>, k: nat)
    requires k < |payloads|
  {
    var r := RecipeOf(m);
    && m.loads(payloads[k]).Some?
    && payloads[k] !in st.cache
    && payloads[k] !in payloads[..k]
    && var silver := m.loads(payloads[k]).value;
       AcceptedWithoutReport(
         m, silver,
         silver.docId in Skips(r, st.index, Pending(r, st, payloads)),
         Near.Verdict(r.lsh, Near.ObserveAll(r.lsh, st.index, Undecided(r, st, payloads[..k])),
                      silver.docId, r.signature(silver)).duplicate)
  }

  lemma TurnSlipsThrough(m: Models, st: State, payloads: seq<string>, k: nat)
    requires k < |payloads|
    ensures var r := RecipeOf(m);
            var skips := Skips(r, st.index, Pending(r, st, payloads));
            var mid := Turns(r, st, payloads[..k], skips).1;
            var turn := Turn(r, mid, payloads[k], skips);
            NewDecisionsScored(st, turn.1) <==> NewDecisionsScored(st, mid) && !SlipsThrough(m, st, payloads, k)
  {
    hide Skips, Pending, Turns, Scored, Near.ObserveAll, Decide, AcceptedWithoutReport;
    var r, p := RecipeOf(m), payloads[k];
    var skips := Skips(r, st.index, Pending(r, st, payloads));
    TurnsObserve(r, st, payloads[..k], skips);
    var mid := Turns(r, st, payloads[..k], skips).1;
    if m.loads(p).Some? && p !in mid.cache {
      var silver := m.loads(p).value;
      var near := Near.Observed(r.lsh, mid.index, silver.docId, r.signature(silver)).0;
      Near.ProbeIsObserveVerdict(r.lsh, mid.index, silver.docId, r.signature(silver));
      ScoredUnlessAccepted(m, silver, silver.docId in skips, near);
      var d := Decide(m, silver, silver.docId in skips, near);
      StoredScored(st, mid, Turn(r, mid, p, skips).1, p, d);
    }
  }

  lemma StoredScored(st: State, mid: State, later: State, p: string, d: Decision)
    requires p !in mid.cache && p !in st.cache && later.cache == mid.cache[p := d]
    ensures NewDecisionsScored(st, later) <==> NewDecisionsScored(st, mid) && Scored(d)
  {
    hide Scored;
    if NewDecisionsScored(st, later) {
      assert later.cache[p] == d;
      forall q | q in mid.cache && q !in st.cache ensures Scored(mid.cache[q]) {
        assert later.cache[q] == mid.cache[q];
      }
    }
  }

  lemma {:induction false} SlipsUpTo(m: Models, st: State, payloads: seq<string>, n: nat)
    requires n <= |payloads|
    ensures var r := RecipeOf(m);
            NewDecisionsScored(st, Turns(r, st, payloads[..n], Skips(r, st.index, Pending(r, st, payloads))).1)
            <==> forall k | 0 <= k < n :: !SlipsThrough(m, st, payloads, k)
  {
    hide SlipsThrough, Skips, Pending, Turn, RecipeOf;
    if n != 0 {
      hide NewDecisionsScored;
      assert payloads[..n][..n - 1] == payloads[..n - 1];
      SlipsUpTo(m, st, payloads, n - 1);
      TurnSlipsThrough(m, st, payloads, n - 1);
    }
  }

  /**
   Without any premise, the acceptance rule holds of everything a batch newly decides exactly when no record
   slips through: skipped for another record's sake, original, and stopped by nothing but the classifier.
   */
  lemma AcceptanceRuleIff(m: Models, st: State, payloads: seq<string>)
    ensures NewDecisionsScored(st, Batch(RecipeOf(m), st, payloads).1)
            <==> forall k | 0 <= k < |payloads| :: !SlipsThrough(m, st, payloads, k)
  {
    SlipsUpTo(m, st, payloads, |payloads|);
    assert payloads[..|payloads|] == payloads;
  }

  // ---- When a batch equals serial processing to the byte -------------------------------------

  /**
   Record `k` is neither hard nor a near duplicate in the starting index, but it is one in the index that
   has observed the undecided records before it.
   */
  predicate Promoted(m: Recipe, st: State, payloads: seq<string>, k: nat)
    requires k < |payloads|
  {
    && m.loads(payloads[k]).Some?
    && payloads[k] !in st.cache
    && payloads[k] !in payloads[..k]
    && var silver := m.loads(payloads[k]).value;
       && !NeedsSkip(m, st.index, silver)
       && Near.Verdict(m.lsh, Near.ObserveAll(m.lsh, st.index, Undecided(m, st, payloads[..k])),
                       silver.docId, m.signature(silver)).duplicate
  }

  lemma {:induction false} EqualUpTo(m: Recipe, st: State, payloads: seq<string>, n: nat)
    requires Lawful(m) && Near.Valid(st.index) && OnePayloadPerDocument(m, payloads) && n <= |payloads|
    requires forall k | 0 <= k < n :: !Promoted(m, st, payloads, k)
    ensures Turns(m, st, payloads[..n], Skips(m, st.index, Pending(m, st, payloads))) == Serial(m, st, payloads[..n])
  {
    if n != 0 {
      var skips := Skips(m, st.index, Pending(m, st, payloads));
      var before, p := payloads[..n - 1], payloads[n - 1];
      assert payloads[..n] == before + [p];
      EqualUpTo(m, st, payloads, n - 1);
      var s := Serial(m, st, before).1;
      OneFurther(m, st, before, p, skips);
      if m.loads(p).Some? && p !in s.cache {
        var silver := m.loads(p).value;
        TurnsObserve(m, st, before, skips);
        Near.ProbeIsObserveVerdict(m.lsh, s.index, silver.docId, m.signature(silver));
        SharedSkip(m, st, payloads, p);
        SingletonSkip(m, s, p);
        assert forall q | q in before + [p] :: q in payloads;
        DuplicateUntilTurn(m, st, before, skips, p);
        assert !Promoted(m, st, payloads, n - 1);
        hide Skips, Pending;
      }
    }
  }

  lemma {:induction false} TurnsPrefix(m: Recipe, st: State, payloads: seq<string>, skips: set<string>, n: nat)
    requires n <= |payloads|
    ensures Turns(m, st, payloads, skips).0[..n] == Turns(m, st, payloads[..n], skips).0
    ensures Serial(m, st, payloads).0[..n] == Serial(m, st, payloads[..n]).0
    decreases |payloads|
  {
    if n == |payloads| {
      assert payloads[..n] == payloads;
    } else {
      var before := payloads[..|payloads| - 1];
      TurnsPrefix(m, st, before, skips, n);
      assert before[..n] == payloads[..n];
    }
  }

  lemma ScoredTurnDiffers(m: Recipe, b: State, s: State, payload: string, skips: set<string>, own: set<string>)
    requires b.index == s.index && payload !in b.cache && payload !in s.cache && m.loads(payload).Some?
    requires SkipShows(m) && !m.hard(m.loads(payload).value)
    requires m.loads(payload).value.docId !in skips && m.loads(payload).value.docId in own
    ensures Turn(m, b, payload, skips).0 != Turn(m, s, payload, own).0
  {
    var silver := m.loads(payload).value;
    var near := Near.Observed(m.lsh, s.index, silver.docId, m.signature(silver)).0;
    assert m.decide(silver, true, near) != m.decide(silver, false, near);
  }

  /** When its turn comes, a promoted record is undecided and a near duplicate. */
  lemma PromotedAtTurn(m: Recipe, st: State, payloads: seq<string>, k: nat, skips: set<string>)
    requires k < |payloads| && Promoted(m, st, payloads, k)
    ensures var mid := Turns(m, st, payloads[..k], skips).1;
            payloads[k] !in mid.cache && NeedsSkip(m, mid.index, m.loads(payloads[k]).value)
    ensures !m.hard(m.loads(payloads[k]).value) && !NeedsSkip(m, st.index, m.loads(payloads[k]).value)
  {
    TurnsObserve(m, st, payloads[..k], skips);
  }

  lemma PromotedTurnDiffers(m: Recipe, st: State, payloads: seq<string>, k: nat)
    requires Near.Valid(st.index) && OnePayloadPerDocument(m, payloads) && Lawful(m) && SkipShows(m)
    requires k < |payloads| && Promoted(m, st, payloads, k)
    ensures TurnsDiffer(m, st, payloads, k)
  {
    PromotedAtTurn(m, st, payloads, k, Skips(m, st.index, Pending(m, st, payloads)));
    RefinesUpTo(m, st, payloads, k);
    hide Turn, Skips, Pending, Turns, Serial, Promoted, NeedsSkip, OnePayloadPerDocument, SkipShows, Lawful, SameOutcomes;
    var skips := Skips(m, st.index, Pending(m, st, payloads));
    var before, p := payloads[..k], payloads[k];
    var b, s := Turns(m, st, before, skips).1, Serial(m, st, before).1;
    SharedSkip(m, st, payloads, p);
    SingletonSkip(m, s, p);
    ScoredTurnDiffers(m, b, s, p, skips, Skips(m, s.index, Pending(m, s, [p])));
  }

  /** The two runs answer record `k` differently at its turn. */
  ghost predicate TurnsDiffer(m: Recipe, st: State, payloads: seq<string>, k: nat)
    requires k < |payloads|
  {
    var skips := Skips(m, st.index, Pending(m, st, payloads));
    var b, s := Turns(m, st, payloads[..k], skips).1, Serial(m, st, payloads[..k]).1;
    Turn(m, b, payloads[k], skips).0 != Turn(m, s, payloads[k], Skips(m, s.index, Pending(m, s, [payloads[k]]))).0
  }

  /** Item `k` of either run is what its turn answered. */
  lemma ItemIsTurn(m: Recipe, st: State, payloads: seq<string>, skips: set<string>, k: nat)
    requires k < |payloads|
    ensures Turns(m, st, payloads, skips).0[k] == Turn(m, Turns(m, st, payloads[..k], skips).1, payloads[k], skips).0
    ensures var s := Serial(m, st, payloads[..k]).1;
            Serial(m, st, payloads).0[k] == Turn(m, s, payloads[k], Skips(m, s.index, Pending(m, s, [payloads[k]]))).0
  {
    hide Turn, Skips, Pending;
    OneFurther(m, st, payloads[..k], payloads[k], skips);
    TurnsPrefix(m, st, payloads, skips, k + 1);
    hide Turns, Serial;
    assert payloads[..k + 1] == payloads[..k] + [payloads[k]];
    var b, s := Turns(m, st, payloads[..k], skips), Serial(m, st, payloads[..k]);
    LastOf(Turns(m, st, payloads, skips).0, b.0, Turn(m, b.1, payloads[k], skips).0);
    LastOf(Serial(m, st, payloads).0, s.0, Turn(m, s.1, payloads[k], Skips(m, s.1.index, Pending(m, s.1, [payloads[k]]))).0);
  }

  /** A promoted record is scored in the batch and unscored on its own. */
  lemma PromotedDiffers(m: Recipe, st: State, payloads: seq<string>, k: nat)
    requires Near.Valid(st.index) && OnePayloadPerDocument(m, payloads) && Lawful(m) && SkipShows(m)
    requires k < |payloads| && Promoted(m, st, payloads, k)
    ensures Batch(m, st, payloads).0[k] != Serial(m, st, payloads).0[k]
  {
    PromotedTurnDiffers(m, st, payloads, k);
    hide Turns, Turn, Skips, Pending, Serial, Promoted, OnePayloadPerDocument, SkipShows, Lawful;
    ItemIsTurn(m, st, payloads, Skips(m, st.index, Pending(m, st, payloads)), k);
  }

  lemma LastOf(all: seq<Outcome>, before: seq<Outcome>, last: Outcome)
    requires |before| < |all| && all[..|before| + 1] == before + [last]
    ensures all[|before|] == last
  {
    assert all[..|before| + 1][|before|] == last;
  }

  lemma TurnsGrow(m: Recipe, st: State, payloads: seq<string>, skips: set<string>)
    ensures forall p | p in st.cache :: p in Turns(m, st, payloads, skips).1.cache
  {
    TurnsObserve(m, st, payloads, skips);
  }

  /**
   The batch reproduces serial processing to the byte exactly when no record turned into a near duplicate
   of an earlier record of its own batch. Otherwise the promoted record carries a classifier report that
   one-at-a-time processing would not have computed.
   */
  lemma BatchEqualsSerialIff(m: Recipe, st: State, payloads: seq<string>)
    requires Near.Valid(st.index) && OnePayloadPerDocument(m, payloads) && Lawful(m) && SkipShows(m)
    ensures Batch(m, st, payloads) == Serial(m, st, payloads)
            <==> forall k | 0 <= k < |payloads| :: !Promoted(m, st, payloads, k)
  {
    assert payloads[..|payloads|] == payloads;
    if forall k | 0 <= k < |payloads| :: !Promoted(m, st, payloads, k) {
      EqualUpTo(m, st, payloads, |payloads|);
    } else {
      var k :| 0 <= k < |payloads| && Promoted(m, st, payloads, k);
      PromotedDiffers(m, st, payloads, k);
    }
  }

  /** Record by record: what a batch newly decides is trainable without a report exactly if it slips through. */
  lemma SlippedDecision(m: Models, st: State, payloads: seq<string>, k: nat)
    requires k < |payloads| && m.loads(payloads[k]).Some?
    requires payloads[k] !in st.cache && payloads[k] !in payloads[..k]
    ensures var o := Batch(RecipeOf(m), st, payloads).0[k];
            && o.Value?
            && (Unscored(o.decision) <==> SlipsThrough(m, st, payloads, k))
            && (Scored(o.decision) <==> !SlipsThrough(m, st, payloads, k))
  {
    hide Skips, Pending, Turns, Scored, Unscored, Near.ObserveAll, Decide, AcceptedWithoutReport;
    var r, silver := RecipeOf(m), m.loads(payloads[k]).value;
    var skips := Skips(r, st.index, Pending(r, st, payloads));
    TurnsObserve(r, st, payloads[..k], skips);
    var mid := Turns(r, st, payloads[..k], skips).1;
    Near.ProbeIsObserveVerdict(r.lsh, mid.index, silver.docId, r.signature(silver));
    ScoredUnlessAccepted(m, silver, silver.docId in skips, Near.Observed(r.lsh, mid.index, silver.docId, r.signature(silver)).0);
    ItemIsTurn(r, st, payloads, skips, k);
  }
}

/** Where batches and one-at-a-time processing part, at concrete inputs (processor/curate.py). */
module CurationCounterexamples {
  import opened Outcomes
  import opened Curation
  import opened CurationRules
  import opened CurationRecipe
  import opened CurationBatch
  import opened CurationText
  import Text
  import Near = NearDuplicateIndex
  import Agg = SegmentAggregation

  /** `n` words. */
  function Repeated(n: nat): string {
    if n == 0 then "" else if n == 1 then "a" else "a " + Repeated(n - 1)
  }

  lemma {:induction false} RepeatedWords(n: nat)
    ensures Text.WordsFrom(Repeated(n), false) == n
    ensures n != 0 ==> Repeated(n) != "" && Repeated(n)[0] == 'a' && Repeated(n)[|Repeated(n)| - 1] == 'a'
  {
    if n == 1 {
      assert "a"[1..] == "";
    } else if n != 0 {
      var s := Repeated(n);
      assert s[1..][1..] == Repeated(n - 1);
      RepeatedWords(n - 1);
    }
  }

  const SIGNATURE: Near.Signature := seq(Near.NUM_PERMS, _ => 0)
  const EMPTY := State(Near.Index(map[], map[], map[], 0), map[])

  /** A model card of fifty words. */
  function Card(docId: string, lang: string): Silver {
    Silver(docId, "trace", ModelCard, "hf-models", None, [], Repeated(MINIMUM_WORDS), "", lang, 1.0, [], Unrestricted, 0,
           false, false, None, false)
  }

  /** A German and an English card of one document, and a copy of the English one under another identifier. */
  function Loads(payload: string): Option<Silver> {
    if payload == "de" then Some(Card("card", "de"))
    else if payload == "en" then Some(Card("card", "en"))
    else if payload == "copy" then Some(Card("copy", "en"))
    else None
  }

  /** Models under which only the language gate can reject a card. */
  function Permissive(): Models {
    Models(
      Loads,
      Near.Config(_ => "", 1.0),
      s => Sanitization(s, []),
      s => Sanitization(s, []),
      _ => C4(true, true, true),
      _ => true,
      _ => false,
      (_, _, _, _) => true,
      (_, _, _) => false,
      (_, _) => true,
      _ => true,
      _ => true,
      _ => SIGNATURE,
      (_, _) => [],
      _ => QualityScore(0.0, 1, ""),
      _ => Perplexity(0.0, Agg.Head),
      (_, _, _, _) => 0.0,
      _ => Disabled,
      "classifier", "revision", 0)
  }

  /** Text without outer white space is its own body. */
  lemma BodyOfOne(s: Segment)
    requires s.text != "" && !Text.IsSpace(s.text[0]) && !Text.IsSpace(s.text[|s.text| - 1])
    ensures Body([s]) == s.text
  {
    assert Text.Strip(s.text) == s.text;
    assert seq(|[s]|, (i: nat) requires i < |[s]| => Text.Strip([s][i].text)) == [s.text];
  }

  lemma CardText(docId: string, lang: string)
    ensures var m, silver := Permissive(), Card(docId, lang);
            && SourceSegments(silver) == [Segment("document", "Document", "body", silver.body)]
            && Body(PreflightKept(m, ModelCard, SafeSegments(m, SourceSegments(silver)))) == silver.body
            && Text.Words(TrainingProjection(m.sameTitle, silver.title, PreflightKept(m, ModelCard, SafeSegments(m, SourceSegments(silver))), "")) >= MINIMUM_WORDS
  {
    hide Repeated, Body, PreflightKept;
    RepeatedWords(MINIMUM_WORDS);
    var m, silver := Permissive(), Card(docId, lang);
    var s := Segment("document", "Document", "body", silver.body);
    assert Text.Words(silver.body) == MINIMUM_WORDS;
    hide Text.Words, Text.WordsFrom, TrainingProjection;
    assert SafeSegments(m, [s]) == [s];
    assert [s][1..] == [] && Kept(m, ModelCard, [s]) == [s];
    PreflightKeptIsKept(m, ModelCard, [s]);
    BodyOfOne(s);
    ProjectedWords(m.sameTitle, s);
  }

  /** A section's words are among those of its projection. */
  lemma ProjectedWords(sameTitle: (string, string) -> bool, s: Segment)
    ensures Text.Words(TrainingProjection(sameTitle, None, [s], "")) >= Text.Words(s.text)
  {
    ProjectionKeepsWords(sameTitle, None, [s], "");
    Text.WordsAreCounted(TrainingProjection(sameTitle, None, [s], ""), "");
    Text.WordsAreCounted(s.text, "");
    assert SectionWords(sameTitle, None, false, [s][1..]) == [];
  }

  lemma CardPreflight(docId: string, lang: string)
    ensures Preflight(Permissive(), Card(docId, lang)).0 <==> lang != "en"
  {
    hide Repeated, Body, PreflightKept, SafeSegments, SourceSegments, Text.Words, TrainingProjection;
    CardText(docId, lang);
  }

  lemma {:induction false} EmptyScan(cfg: Near.Config, docId: string, keys: seq<Near.BandKey>)
    ensures Near.Scan(cfg, EMPTY.index, docId, SIGNATURE, keys).None?
  {
    if keys != [] {
      EmptyScan(cfg, docId, keys[1..]);
    }
  }

  // ---- One document identifier, two payloads --------------------------------------------------

  lemma BothSkipped()
    ensures "card" in Skips(RecipeOf(Permissive()), EMPTY.index, Pending(RecipeOf(Permissive()), EMPTY, ["de", "en"]))
  {
    hide Preflight, Project, Decide, Near.Verdict;
    var m, payloads := RecipeOf(Permissive()), ["de", "en"];
    CardPreflight("card", "de");
    PendingElements(m, EMPTY, payloads, Card("card", "de"));
    assert payloads[0] == "de" && m.loads("de") == Some(Card("card", "de"));
    assert Card("card", "de") in Pending(m, EMPTY, payloads);
    assert NeedsSkip(m, EMPTY.index, Card("card", "de"));
    assert Card("card", "de").docId in Skips(m, EMPTY.index, Pending(m, EMPTY, payloads));
  }

  /** The second card is its own anchor, so the index does not call it a duplicate. */
  lemma SecondCardIsOriginal()
    ensures var cfg := Permissive().lsh;
            var first := Near.Observed(cfg, EMPTY.index, "card", SIGNATURE).1;
            !Near.Verdict(cfg, first, "card", SIGNATURE).duplicate
  {
    var cfg := Permissive().lsh;
    var keys := Near.BandKeys(cfg, SIGNATURE);
    EmptyScan(cfg, "card", keys);
    Near.ScanAfterOwnRegister(cfg, EMPTY.index, "card", SIGNATURE, keys);
  }

  /** What the index holds before the second item of a batch that starts from the empty state. */
  function AfterFirst(m: Recipe, silver: Silver): Near.Index {
    Near.Observed(m.lsh, EMPTY.index, silver.docId, m.signature(silver)).1
  }

  lemma FirstObserved(m: Recipe, p: string, q: string)
    requires m.loads(p).Some?
    ensures Near.ObserveAll(m.lsh, EMPTY.index, Undecided(m, EMPTY, [p, q][..1])) == AfterFirst(m, m.loads(p).value)
  {
    hide Near.Observed;
    var silver := m.loads(p).value;
    var o := Near.Observation(silver.docId, m.signature(silver));
    assert [p, q][..1] == [p] && [p][..0] == [] && Undecided(m, EMPTY, [p]) == [o];
    assert [o][1..] == [];
  }

  lemma SecondSlips(m: Models, p: string, q: string, a: Silver, b: Silver)
    requires p != q && m.loads(p) == Some(a) && m.loads(q) == Some(b)
    requires b.docId in Skips(RecipeOf(m), EMPTY.index, Pending(RecipeOf(m), EMPTY, [p, q]))
    requires !Preflight(m, b).0 && PolicyOf(b.kind).kenlm == Off && m.handoff(b) == Disabled
    requires !Near.Verdict(m.lsh, AfterFirst(RecipeOf(m), a), b.docId, RecipeOf(m).signature(b)).duplicate
    ensures SlipsThrough(m, EMPTY, [p, q], 1)
  {
    hide Preflight, Project, Skips, Pending, Near.Verdict, AfterFirst, Near.ObserveAll, Undecided, Decide;
    FirstObserved(RecipeOf(m), p, q);
  }

  lemma SecondPromoted(m: Recipe, p: string, q: string, a: Silver, b: Silver)
    requires p != q && m.loads(p) == Some(a) && m.loads(q) == Some(b)
    requires !m.hard(b) && !Near.Verdict(m.lsh, EMPTY.index, b.docId, m.signature(b)).duplicate
    requires Near.Verdict(m.lsh, AfterFirst(m, a), b.docId, m.signature(b)).duplicate
    ensures Promoted(m, EMPTY, [p, q], 1)
  {
    hide Near.Verdict, AfterFirst, Near.ObserveAll, Undecided;
    FirstObserved(m, p, q);
  }

  /** What the recipe makes of a card. */
  lemma CardFacts(docId: string, lang: string)
    ensures var m, silver := RecipeOf(Permissive()), Card(docId, lang);
            && m.lsh == Permissive().lsh && m.signature(silver) == SIGNATURE && (m.hard(silver) <==> lang != "en")
            && PolicyOf(silver.kind).kenlm == Off && Permissive().handoff(silver) == Disabled && silver.docId == docId
  {
    CardPreflight(docId, lang);
    hide Preflight, Project, Repeated;
  }

  lemma CardsLoad()
    ensures var m := Permissive();
            && m.loads("de") == Some(Card("card", "de")) && m.loads("en") == Some(Card("card", "en"))
            && m.loads("copy") == Some(Card("copy", "en"))
    ensures "de" != "en" && "en" != "copy" && "card" != "copy"
  {
    assert "de"[0] != "en"[0] && "en"[0] != "copy"[0] && "card"[1] != "copy"[1];
  }

  lemma SecondCardSlips()
    ensures SlipsThrough(Permissive(), EMPTY, ["de", "en"], 1)
  {
    hide Preflight, Project, Decide, Skips, Pending, Near.Observed, Near.Verdict, SlipsThrough, Card, Repeated;
    CardsLoad();
    CardFacts("card", "de");
    CardFacts("card", "en");
    BothSkipped();
    SecondCardIsOriginal();
    hide Permissive;
    SecondSlips(Permissive(), "de", "en", Card("card", "de"), Card("card", "en"));
  }

  /**
   Without the premise the acceptance theorem fails: a batch of two cards of one document, the first in
   the wrong language, makes the second one trainable without any report.
   */
  lemma SharedIdentifierSkipsQuality()
    ensures var r := Batch(RecipeOf(Permissive()), EMPTY, ["de", "en"]).0[1]; r.Value? && Unscored(r.decision)
    ensures !OnePayloadPerDocument(RecipeOf(Permissive()), ["de", "en"])
  {
    hide Batch, Card, SlipsThrough, Scored, Unscored, Permissive;
    CardsLoad();
    CardFacts("card", "de");
    CardFacts("card", "en");
    SecondCardSlips();
    var payloads := ["de", "en"];
    assert payloads[0] == "de" && payloads[1] == "en" && payloads[1] !in payloads[..1];
    SlippedDecision(Permissive(), EMPTY, payloads, 1);
  }

  // ---- A near duplicate inside its own batch --------------------------------------------------

  /** The copy meets the bucket of the first card, whose signature is its own. */
  lemma CopyIsDuplicate()
    ensures var cfg := Permissive().lsh;
            && !Near.Verdict(cfg, EMPTY.index, "copy", SIGNATURE).duplicate
            && Near.Verdict(cfg, Near.Observed(cfg, EMPTY.index, "card", SIGNATURE).1, "copy", SIGNATURE).duplicate
  {
    var cfg := Permissive().lsh;
    var keys := Near.BandKeys(cfg, SIGNATURE);
    EmptyScan(cfg, "card", keys);
    EmptyScan(cfg, "copy", keys);
    hide Near.BandKeys, Near.Scan;
    assert "card"[1] != "copy"[1];
    Near.CopyIsDuplicate(cfg, EMPTY.index, "card", "copy", SIGNATURE);
  }

  lemma CopyIsPromoted()
    ensures Promoted(RecipeOf(Permissive()), EMPTY, ["en", "copy"], 1)
    ensures OnePayloadPerDocument(RecipeOf(Permissive()), ["en", "copy"])
  {
    hide Preflight, Project, Decide, Near.Observed, Near.Verdict, Promoted, Card, Repeated;
    CardsLoad();
    CardFacts("card", "en");
    CardFacts("copy", "en");
    CopyIsDuplicate();
    hide Permissive;
    SecondPromoted(RecipeOf(Permissive()), "en", "copy", Card("card", "en"), Card("copy", "en"));
  }

  /**
   Byte equality with one-at-a-time processing fails: of a card and its copy under another identifier, the
   batch scores the copy and serial processing does not.
   */
  lemma CopyDiffersFromSerial()
    ensures var m := RecipeOf(Permissive());
            && OnePayloadPerDocument(m, ["en", "copy"]) && Lawful(m) && SkipShows(m) && Near.Valid(EMPTY.index)
            && Batch(m, EMPTY, ["en", "copy"]) != Serial(m, EMPTY, ["en", "copy"])
  {
    assert "classifier"[0] != NOT_RUN[0];
    SkipsShow(Permissive());
    RecipeIsLawful(Permissive());
    hide Batch, Serial, Lawful, SkipShows, Permissive, RecipeOf, Promoted, OnePayloadPerDocument;
    CopyIsPromoted();
    BatchEqualsSerialIff(RecipeOf(Permissive()), EMPTY, ["en", "copy"]);
  }

  // ---- Two workers, one cache and one index ---------------------------------------------------

  /** Without a lookup in between, the loser of the put still returns the decision it computed. */
  lemma LoserKeepsItsDecision(m: Recipe, st: State, payload: string, silver: Silver)
    requires SkipShows(m) && !m.hard(silver) && payload !in st.cache
    requires Near.Observed(m.lsh, st.index, silver.docId, m.signature(silver)).1 == st.index
    ensures var winner := Materialized(m, st, payload, silver, true);
            var loser := Materialized(m, winner.1, payload, silver, false);
            && winner.1.cache[payload] == winner.0
            && loser.0 != winner.0 && loser.1.cache == winner.1.cache
  {
    var near := Near.Observed(m.lsh, st.index, silver.docId, m.signature(silver)).0;
    assert m.decide(silver, true, near) != m.decide(silver, false, near);
  }

  lemma DuplicateChangesNothing(cfg: Near.Config, index: Near.Index, docId: string, sig: Near.Signature)
    requires Near.Verdict(cfg, index, docId, sig).duplicate
    ensures Near.Observed(cfg, index, docId, sig).1 == index
  {
  }

  /**
   Two workers can emit different decisions of one payload. The first prefetches the copy of a card, the second
   then decides the card itself and prefetches the copy too; both look the copy up before either puts it. The
   second skipped the classifier and its decision is stored; the first emits a scored one.
   */
  lemma TwoWorkersDisagree()
    ensures var m, silver := RecipeOf(Permissive()), Card("copy", "en");
            var shared := Turn(m, EMPTY, "en", {}).1;
            var winner := Materialized(m, shared, "copy", silver, true);
            var loser := Materialized(m, winner.1, "copy", silver, false);
            && m.loads("copy") == Some(silver) && "copy" !in EMPTY.cache && "copy" !in shared.cache
            && silver.docId !in Skips(m, EMPTY.index, Pending(m, EMPTY, ["copy"]))
            && silver.docId in Skips(m, shared.index, Pending(m, shared, ["copy"]))
            && winner.1.cache["copy"] == winner.0 && loser.0 != winner.0 && loser.1.cache == winner.1.cache
  {
    hide Preflight, Project, Decide, Near.Observed, Near.Verdict, Card, Repeated, Skips, Pending;
    assert "classifier"[0] != NOT_RUN[0];
    SkipsShow(Permissive());
    CardsLoad();
    CardFacts("card", "en");
    CardFacts("copy", "en");
    CopyIsDuplicate();
    var m, silver := RecipeOf(Permissive()), Card("copy", "en");
    var shared := Turn(m, EMPTY, "en", {}).1;
    hide SkipShows, Permissive;
    assert shared.index == AfterFirst(m, Card("card", "en")) && "copy" !in shared.cache;
    SingletonSkip(m, EMPTY, "copy");
    SingletonSkip(m, shared, "copy");
    DuplicateChangesNothing(m.lsh, shared.index, "copy", SIGNATURE);
    LoserKeepsItsDecision(m, shared, "copy", silver);
  }
}
