/**
 The curator's loops over mutable state (processor/curate.py): prefetched scorers, the shared decision
 cache and the near-duplicate index.
 */
module CurationWorker {
  import opened Outcomes
  import opened Curation
  import opened CurationRules
  import opened CurationRecipe
  import opened CurationBatch
  import Text
  import Near = NearDuplicateIndex
  import Agg = SegmentAggregation

  /** `dict.fromkeys` over texts. */
  method UniqueTexts(texts: seq<string>) returns (unique: seq<string>)
    ensures forall t :: t in unique <==> t in texts
    ensures forall i, j | 0 <= i < j < |unique| :: unique[i] != unique[j]
  {
    unique := [];
    for n := 0 to |texts|
      invariant forall t :: t in unique <==> t in texts[..n]
      invariant forall i, j | 0 <= i < j < |unique| :: unique[i] != unique[j]
    {
      assert texts[..n + 1] == texts[..n] + [texts[n]];
      if texts[n] !in unique {
        unique := unique + [texts[n]];
      }
    }
    assert texts[..|texts|] == texts;
  }

  /** Serves results prepared across several documents and scores the rest on demand. */
  class PrefetchedScorer<R> {
    const scorer: string -> R
    var scores: map<string, R>

    ghost predicate Exact()
      reads this
    {
      forall t | t in scores :: scores[t] == scorer(t)
    }

    constructor (scorer: string -> R)
      ensures this.scorer == scorer && scores == map[] && Exact()
    {
      this.scorer := scorer;
      scores := map[];
    }

    /** Score the distinct texts in bounded requests. */
    method Fill(texts: seq<string>, batchSize: nat)
      requires Exact() && batchSize >= 1
      modifies this
      ensures Exact()
      ensures scores.Keys == old(scores.Keys) + set t | t in texts
    {
      var unique := UniqueTexts(texts);
      var offset := 0;
      while offset < |unique|
        invariant 0 <= offset <= |unique| && Exact()
        invariant scores.Keys == old(scores.Keys) + set t | t in unique[..offset]
      {
        var end := if offset + batchSize < |unique| then offset + batchSize else |unique|;
        var batch := unique[offset..end];
        scores := scores + map t | t in batch :: scorer(t);
        assert unique[..end] == unique[..offset] + batch;
        offset := end;
      }
      assert unique[..|unique|] == unique;
    }

    method ScoreMany(texts: seq<string>) returns (results: seq<R>)
      requires Exact()
      modifies this
      ensures Exact()
      ensures |results| == |texts| && forall i | 0 <= i < |texts| :: results[i] == scorer(texts[i])
    {
      var missing: seq<string> := [];
      for n := 0 to |texts|
        invariant forall t | t in texts[..n] :: t in scores || t in missing
      {
        assert texts[..n + 1] == texts[..n] + [texts[n]];
        if texts[n] !in scores {
          missing := missing + [texts[n]];
        }
      }
      assert texts[..|texts|] == texts;
      scores := scores + map t | t in missing :: scorer(t);
      results := [];
      for n := 0 to |texts|
        invariant |results| == n && forall i | 0 <= i < n :: results[i] == scorer(texts[i])
      {
        assert texts[n] in texts;
        results := results + [scores[texts[n]]];
      }
    }
  }

  /** Append the failed checks' reasons, then keep the first occurrence of each. */
  method RecordReasons(f: Findings) returns (reject: seq<Reason>)
    ensures reject == Reasons(f)
  {
    var checks := Checks(f);
    var raw: seq<Reason> := [];
    for n := 0 to |checks|
      invariant raw == Failed(checks[..n])
    {
      assert checks[..n + 1][..n] == checks[..n];
      if checks[n].failed {
        raw := raw + [checks[n].reason];
      }
    }
    assert checks[..|checks|] == checks;
    reject := [];
    for n := 0 to |raw|
      invariant reject == Unique(raw[..n])
    {
      assert raw[..n + 1][..n] == raw[..n];
      if raw[n] !in reject {
        reject := reject + [raw[n]];
      }
    }
    assert raw[..|raw|] == raw;
  }

  function Inputs(sections: seq<Section>): seq<string> {
    seq(|sections|, i requires 0 <= i < |sections| => sections[i].input)
  }

  function Texts(segments: seq<Segment>): seq<string> {
    seq(|segments|, i requires 0 <= i < |segments| => segments[i].text)
  }

  lemma {:induction false} KeptSnoc(m: Models, kind: SourceKind, safe: seq<Segment>, s: Segment)
    ensures Kept(m, kind, safe + [s]) == Kept(m, kind, safe) + if Excluded(m, kind, s.text) then [] else [s]
  {
    if safe == [] {
      assert safe + [s] == [s] && [s][1..] == [];
    } else {
      assert (safe + [s])[1..] == safe[1..] + [s];
      KeptSnoc(m, kind, safe[1..], s);
    }
  }

  lemma {:induction false} BlockingSnoc(sanitize: string -> Sanitization, segments: seq<Segment>, s: Segment)
    ensures BlockingFlags(sanitize, segments + [s]) == BlockingFlags(sanitize, segments) + sanitize(s.text).blocking
  {
    if segments == [] {
      assert segments + [s] == [s] && [s][1..] == [];
    } else {
      assert (segments + [s])[1..] == segments[1..] + [s];
      BlockingSnoc(sanitize, segments[1..], s);
    }
  }

  class Curator {
    const m: Models
    const index: Near.LshBloomIndex
    var cache: map<string, Decision>

    ghost predicate Valid()
      reads this
    {
      index.cfg == m.lsh
    }

    ghost function View(): State
      reads this, index
    {
      State(index.View(), cache)
    }

    constructor (m: Models, index: Near.LshBloomIndex)
      requires index.cfg == m.lsh
      ensures Valid() && this.m == m && this.index == index && cache == map[]
    {
      this.m := m;
      this.index := index;
      cache := map[];
    }

    /** The sanitized source segments and every blocking flag found in them. */
    method Sanitize(segments: seq<Segment>) returns (safe: seq<Segment>, blocking: seq<string>)
      ensures safe == SafeSegments(m, segments) && blocking == BlockingFlags(m.sanitize, segments)
    {
      safe, blocking := [], [];
      for n := 0 to |segments|
        invariant safe == SafeSegments(m, segments[..n]) && blocking == BlockingFlags(m.sanitize, segments[..n])
      {
        var sanitization := m.sanitize(segments[n].text);
        assert segments[..n + 1] == segments[..n] + [segments[n]];
        BlockingSnoc(m.sanitize, segments[..n], segments[n]);
        safe := safe + [segments[n].(text := sanitization.text)];
        blocking := blocking + sanitization.blocking;
      }
      assert segments[..|segments|] == segments;
    }

    /** The sections that stay in the projection, and a score row for every section. */
    method ScoreSegments(kenlm: PrefetchedScorer<Perplexity>, kind: SourceKind, safe: seq<Segment>)
      returns (kept: seq<Segment>, scores: seq<Agg.SegmentScore>)
      requires kenlm.scorer == m.perplexity && kenlm.Exact()
      modifies kenlm
      ensures kenlm.Exact()
      ensures kept == Kept(m, kind, safe) && scores == SegmentScores(m, kind, safe)
    {
      var signals: map<string, Perplexity> := map[];
      if PolicyOf(kind).kenlm != Off {
        for n := 0 to |safe|
          invariant kenlm.Exact() && signals == Signals(m, safe[..n])
        {
          assert safe[..n + 1][..n] == safe[..n];
          var result := kenlm.ScoreMany([safe[n].text]);
          signals := signals[safe[n].id := result[0]];
        }
        assert safe[..|safe|] == safe;
      }
      kept, scores := [], [];
      for n := 0 to |safe|
        invariant kenlm.Exact() && kept == Kept(m, kind, safe[..n])
        invariant |scores| == n && forall i | 0 <= i < n :: scores[i] == SegmentScoreOf(m, kind, signals, safe[i])
      {
        assert safe[..n + 1] == safe[..n] + [safe[n]];
        KeptSnoc(m, kind, safe[..n], safe[n]);
        scores := scores + [SegmentScoreOf(m, kind, signals, safe[n])];
        if !Excluded(m, kind, safe[n].text) {
          kept := kept + [safe[n]];
        }
      }
      assert safe[..|safe|] == safe;
    }

    /** One row per section and the two running totals. */
    method ScoreRows(quality: PrefetchedScorer<QualityScore>, sections: seq<Section>)
      returns (rows: seq<Row>, total: nat, sum: real, revision: string)
      requires quality.scorer == m.quality && quality.Exact()
      modifies quality
      ensures quality.Exact()
      ensures |rows| == |sections| && forall i | 0 <= i < |sections| :: rows[i] == RowOf(m, sections[i])
      ensures total == TokenTotal(rows) && sum == TokenSum(rows)
      ensures revision == if sections == [] then m.qualityRevision else m.quality(sections[0].input).revision
    {
      var inputs := Inputs(sections);
      var results := quality.ScoreMany(inputs);
      revision := if sections == [] then m.qualityRevision else results[0].revision;
      rows, total, sum := [], 0, 0.0;
      for n := 0 to |sections|
        invariant |rows| == n && forall i | 0 <= i < n :: rows[i] == RowOf(m, sections[i])
        invariant total == TokenTotal(rows) && sum == TokenSum(rows)
      {
        hide Weighted, Text.Words;
        var words := Text.Words(sections[n].text);
        var row := Row(results[n].score,
                       if results[n].tokens != 0 then results[n].tokens else if words < 1 then 1 else words);
        assert inputs[n] == sections[n].input;
        assert (rows + [row])[..n] == rows;
        rows := rows + [row];
        total := total + row.tokens;
        sum := sum + Weighted(row);
      }
    }

    /** The token-weighted report over the retained projection's sections. */
    method SourceQualityReport(quality: PrefetchedScorer<QualityScore>, silver: Silver, text: string) returns (report: Report)
      requires quality.scorer == m.quality && quality.Exact()
      modifies quality
      ensures quality.Exact() && report == ReportOf(m, silver, text)
    {
      var sections := m.sections(silver.feed, text);
      var rows, total, sum, revision := ScoreRows(quality, sections);
      hide TokenTotal, TokenSum, RowOf;
      var score := if total == 0 then 0.0 else sum / total as real;
      assert score == TokenMean(rows);
      hide TokenMean;
      report := Report(rows, score, score >= QualityCutoff(silver.feed), revision);
      assert rows == ReportOf(m, silver, text).rows;
    }

    /** The full curation of one record; the only mutation of ordered state is the observation. */
    method CurateOne(
      quality: PrefetchedScorer<QualityScore>, kenlm: PrefetchedScorer<Perplexity>, skips: set<string>, silver: Silver)
      returns (gold: Gold)
      requires Valid() && quality.scorer == m.quality && quality.Exact() && kenlm.scorer == m.perplexity && kenlm.Exact()
      modifies quality, kenlm, index
      ensures Valid() && quality.Exact() && kenlm.Exact()
      ensures var observed := Near.Observed(m.lsh, old(index.View()), silver.docId, m.minhash(Project(m, silver).text));
              gold == Curated(m, silver, silver.docId in skips, observed.0) && index.View() == observed.1
    {
      hide TrainingProjection, Kept, Body, Assembled;
      var policy := PolicyOf(silver.kind);
      var segments := SourceSegments(silver);
      var safe, blocking := Sanitize(segments);
      var hardRejected := Preflight(m, silver).0;
      var kept, scores := ScoreSegments(kenlm, silver.kind, safe);
      var modelText := Body(kept);
      var structured := m.structured(silver.structured);
      var text := TrainingProjection(m.sameTitle, silver.title, kept, structured.text);
      var p := Projected(safe, kept, blocking + structured.blocking, modelText, text);
      assert p == Project(m, silver);
      var report: Option<Report> := None;
      if policy.trainingText && !hardRejected && silver.docId !in skips {
        var r := SourceQualityReport(quality, silver, text);
        report := Some(r);
      }
      var near := index.Observe(silver.docId, m.minhash(text));
      var reject := RecordReasons(FindingsOf(m, silver, p, report, near.duplicate));
      gold := Assembled(m, silver, p, report, scores, reject, near);
    }

    /** First writer wins: a stored decision is never replaced. */
    method PutDecision(payload: string, decision: Decision)
      modifies this`cache
      ensures cache == if payload in old(cache) then old(cache) else old(cache)[payload := decision]
    {
      if payload !in cache {
        cache := cache[payload := decision];
      }
    }

    method MaterializeUncachedDecision(
      quality: PrefetchedScorer<QualityScore>, kenlm: PrefetchedScorer<Perplexity>, skips: set<string>,
      payload: string, silver: Silver)
      returns (decision: Decision)
      requires Valid() && quality.scorer == m.quality && quality.Exact() && kenlm.scorer == m.perplexity && kenlm.Exact()
      modifies quality, kenlm, index, this`cache
      ensures Valid() && quality.Exact() && kenlm.Exact()
      ensures (decision, View()) == Materialized(RecipeOf(m), old(View()), payload, silver, silver.docId in skips)
    {
      hide Curated, HandedOff, Trainable, Project;
      var gold := CurateOne(quality, kenlm, skips, silver);
      gold := HandedOff(m, silver, gold);
      decision := Decision(gold, Trainable(gold));
      PutDecision(payload, decision);
    }

    /** Whether one pending record needs the classifier, and the texts its inference will ask for. */
    method PrefetchOne(silver: Silver) returns (skip: bool, qualityTexts: seq<string>, kenlmTexts: seq<string>)
      requires Valid()
      ensures skip == NeedsSkip(RecipeOf(m), index.View(), silver)
    {
      PreflightFindings(m, silver, None, false);
      hide Preflight, Project, Near.Verdict, BlockingFlags;
      var safe, _ := Sanitize(SourceSegments(silver));
      var preflight := Preflight(m, silver);
      var near := index.Probe(silver.docId, m.minhash(preflight.1));
      skip := preflight.0 || near.duplicate;
      qualityTexts := if skip then [] else Inputs(m.sections(silver.feed, preflight.1));
      kenlmTexts := if PolicyOf(silver.kind).kenlm == Off then [] else Texts(safe);
    }

    /** Preflight and probe every pending record, in order, without touching index or cache. */
    method PrefetchAll(silvers: seq<Silver>) returns (skips: set<string>, qualityTexts: seq<string>, kenlmTexts: seq<string>)
      requires Valid()
      ensures skips == Skips(RecipeOf(m), index.View(), silvers)
    {
      hide Skips, NeedsSkip, RecipeOf;
      skips, qualityTexts, kenlmTexts := {}, [], [];
      SkipsNone(RecipeOf(m), index.View());
      assert silvers[..0] == [];
      for n := 0 to |silvers|
        invariant skips == Skips(RecipeOf(m), index.View(), silvers[..n])
      {
        var silver := silvers[n];
        var skip, q, k := PrefetchOne(silver);
        assert silvers[..n + 1] == silvers[..n] + [silver];
        SkipsOneMore(RecipeOf(m), index.View(), silvers[..n], silver);
        if skip {
          skips := skips + {silver.docId};
        }
        qualityTexts, kenlmTexts := qualityTexts + q, kenlmTexts + k;
      }
      assert silvers[..|silvers|] == silvers;
    }

    /** Decide the skips, then score the survivors' texts. */
    method PrefetchedCurateState(silvers: seq<Silver>, batchSize: nat)
      returns (quality: PrefetchedScorer<QualityScore>, kenlm: PrefetchedScorer<Perplexity>, skips: set<string>)
      requires Valid() && batchSize >= 1
      ensures fresh(quality) && fresh(kenlm)
      ensures quality.scorer == m.quality && quality.Exact() && kenlm.scorer == m.perplexity && kenlm.Exact()
      ensures skips == Skips(RecipeOf(m), index.View(), silvers)
    {
      hide Skips, RecipeOf;
      var qualityTexts, kenlmTexts;
      skips, qualityTexts, kenlmTexts := PrefetchAll(silvers);
      quality := new PrefetchedScorer<QualityScore>(m.quality);
      kenlm := new PrefetchedScorer<Perplexity>(m.perplexity);
      quality.Fill(qualityTexts, batchSize);
      kenlm.Fill(kenlmTexts, 1);
    }

    /** The first pass: unreadable payloads, stored decisions, and the positions left to decide. */
    method LookUp(payloads: seq<string>) returns (found: seq<Option<Outcome>>, pending: seq<Undecided>, silvers: seq<Silver>)
      ensures |found| == |payloads| && forall i | 0 <= i < |payloads| :: found[i] == Known(RecipeOf(m), View(), payloads[i])
      ensures PendingIndices(RecipeOf(m), View(), payloads, |payloads|, pending)
      ensures silvers == Pending(RecipeOf(m), View(), payloads)
    {
      hide LookedUp, Known, Decide, Preflight, Project;
      found, pending, silvers := [], [], [];
      LookUpNothing(RecipeOf(m), View(), payloads);
      for n := 0 to |payloads|
        invariant LookedUp(RecipeOf(m), View(), payloads, n, found, pending, silvers)
      {
        var payload := payloads[n];
        LookUpOneMore(RecipeOf(m), View(), payloads, n, found, pending, silvers);
        if m.loads(payload).None? {
          found := found + [Some(Error)];
        } else if payload in cache {
          found := found + [Some(Value(cache[payload]))];
        } else {
          found := found + [None];
          pending := pending + [Undecided(n, payload, m.loads(payload).value)];
          silvers := silvers + [m.loads(payload).value];
        }
      }
      LookUpDone(RecipeOf(m), View(), payloads, found, pending, silvers);
    }

    /** Take one undecided payload's turn, with a prefetch of its own unless the batch shared one. */
    method FinalizeItem(
      quality: PrefetchedScorer<QualityScore>, kenlm: PrefetchedScorer<Perplexity>, skips: set<string>,
      item: Undecided, batchSize: nat, shared: bool)
      returns (outcome: Outcome)
      requires Valid() && batchSize >= 1 && m.loads(item.payload) == Some(item.silver)
      requires quality.scorer == m.quality && quality.Exact() && kenlm.scorer == m.perplexity && kenlm.Exact()
      modifies quality, kenlm, index, this`cache
      ensures Valid() && quality.Exact() && kenlm.Exact()
      ensures (outcome, View()) == Turn(RecipeOf(m), old(View()), item.payload, if shared then skips else AloneSkips(RecipeOf(m), old(View()), item.payload))
    {
      hide Materialized, Skips;
      ghost var own := if shared then skips else AloneSkips(RecipeOf(m), View(), item.payload);
      if item.payload in cache {
        return Value(cache[item.payload]);
      }
      TurnMiss(RecipeOf(m), View(), item.payload, own);
      var q, k, effective := quality, kenlm, skips;
      if !shared {
        q, k, effective := PrefetchedCurateState([item.silver], batchSize);
      }
      var value := MaterializeUncachedDecision(q, k, effective, item.payload, item.silver);
      outcome := Value(value);
    }

    /**
     Score a bounded batch: look every payload up, prefetch the undecided ones together, and finalize
     them in order. When the shared prefetch is refused (`shared` is false) every record is prefetched on
     its own at its turn.
     */
    method ProcessSilverDecisionPayloads(payloads: seq<string>, batchSize: nat, shared: bool) returns (results: seq<Outcome>)
      requires Valid() && batchSize >= 1
      modifies index, this`cache
      ensures Valid()
      ensures (results, View()) == if shared then Batch(RecipeOf(m), old(View()), payloads) else Serial(RecipeOf(m), old(View()), payloads)
    {
      hide Skips, Pending, Progress, Turn, PendingIndices, Known, Batch, Serial;
      ghost var st := View();
      var found, pending, silvers := LookUp(payloads);
      var quality, kenlm, skips := PrefetchedCurateState(silvers, batchSize);
      ghost var at: nat := 0;
      ProgressStart(RecipeOf(m), st, payloads, pending, found, shared);
      for j := 0 to |pending|
        invariant Valid() && quality.scorer == m.quality && quality.Exact() && kenlm.scorer == m.perplexity && kenlm.Exact()
        invariant fresh(quality) && fresh(kenlm)
        invariant Progress(RecipeOf(m), st, payloads, pending, found, j, at, shared, View())
      {
        var item := pending[j];
        ProgressStep(RecipeOf(m), st, payloads, pending, found, j, at, shared, View());
        var outcome := FinalizeItem(quality, kenlm, skips, item, batchSize, shared);
        found := found[item.position := Some(outcome)];
        at := item.position + 1;
      }
      ProgressEnd(RecipeOf(m), st, payloads, pending, found, at, shared, View());
      results := seq(|payloads|, i requires 0 <= i < |payloads| && i < |found| && found[i].Some? => found[i].value);
      assert results == (if shared then Batch(RecipeOf(m), st, payloads) else Serial(RecipeOf(m), st, payloads)).0;
    }
  }

  // ---- The run position by position ----------------------------------------------------------

  datatype Undecided = Undecided(position: nat, payload: string, silver: Silver)

  /** What the first lookup already settles. */
  function Known(m: Recipe, st: State, payload: string): Option<Outcome> {
    if m.loads(payload).None? then Some(Error)
    else if payload in st.cache then Some(Value(st.cache[payload]))
    else None
  }

  /** The batch or the one-at-a-time run over the first `n` payloads. */
  ghost function RunTo(m: Recipe, st: State, payloads: seq<string>, n: nat, shared: bool): (r: (seq<Outcome>, State))
    requires n <= |payloads|
    ensures |r.0| == n
  {
    if shared then Turns(m, st, payloads[..n], Skips(m, st.index, Pending(m, st, payloads)))
    else Serial(m, st, payloads[..n])
  }

  ghost predicate PendingIndices(m: Recipe, st: State, payloads: seq<string>, n: nat, pending: seq<Undecided>)
    requires n <= |payloads|
  {
    && (forall i, j | 0 <= i < j < |pending| :: pending[i].position < pending[j].position)
    && (forall i | 0 <= i < |pending| ::
          && pending[i].position < n
          && pending[i].payload == payloads[pending[i].position]
          && m.loads(pending[i].payload) == Some(pending[i].silver)
          && pending[i].payload !in st.cache)
    && (forall i | 0 <= i < n && Known(m, st, payloads[i]).None? :: exists j :: 0 <= j < |pending| && pending[j].position == i)
  }

  function AloneSkips(m: Recipe, st: State, payload: string): set<string> {
    Skips(m, st.index, Pending(m, st, [payload]))
  }

  /** The skip set that applies at one payload's turn. */
  function TurnSkips(m: Recipe, st: State, payloads: seq<string>, now: State, payload: string, shared: bool): set<string> {
    if shared then Skips(m, st.index, Pending(m, st, payloads)) else AloneSkips(m, now, payload)
  }

  /** The finalizing loop: `at` payloads are settled as in the run, the rest as the first lookup left them. */
  ghost predicate Progress(
    m: Recipe, st: State, payloads: seq<string>, pending: seq<Undecided>, found: seq<Option<Outcome>>, j: nat, at: nat,
    shared: bool, now: State)
  {
    && PendingIndices(m, st, payloads, |payloads|, pending)
    && j <= |pending| && at <= |payloads| && |found| == |payloads|
    && (j < |pending| ==> at <= pending[j].position)
    && (forall i | 0 <= i < j :: pending[i].position < at)
    && now == RunTo(m, st, payloads, at, shared).1
    && (forall i | 0 <= i < at :: found[i] == Some(RunTo(m, st, payloads, at, shared).0[i]))
    && (forall i | at <= i < |payloads| :: found[i] == Known(m, st, payloads[i]))
  }

  lemma ProgressStart(m: Recipe, st: State, payloads: seq<string>, pending: seq<Undecided>, found: seq<Option<Outcome>>, shared: bool)
    requires PendingIndices(m, st, payloads, |payloads|, pending)
    requires |found| == |payloads| && forall i | 0 <= i < |payloads| :: found[i] == Known(m, st, payloads[i])
    ensures Progress(m, st, payloads, pending, found, 0, 0, shared, st)
  {
    hide Known, Skips, Pending;
    assert payloads[..0] == [];
  }

  lemma ProgressStep(
    m: Recipe, st: State, payloads: seq<string>, pending: seq<Undecided>, found: seq<Option<Outcome>>, j: nat, at: nat,
    shared: bool, now: State)
    requires j < |pending| && Progress(m, st, payloads, pending, found, j, at, shared, now)
    ensures var item := pending[j];
            var turn := Turn(m, now, item.payload, TurnSkips(m, st, payloads, now, item.payload, shared));
            && m.loads(item.payload) == Some(item.silver) && item.position < |found|
            && Progress(m, st, payloads, pending, found[item.position := Some(turn.0)], j + 1, item.position + 1, shared, turn.1)
  {
    hide Known, Turn, RunTo, Skips, Pending;
    var item := pending[j];
    SkipKnown(m, st, payloads, at, item.position, shared);
    RunOneFurther(m, st, payloads, item.position, shared);
  }

  lemma ProgressEnd(
    m: Recipe, st: State, payloads: seq<string>, pending: seq<Undecided>, found: seq<Option<Outcome>>, at: nat,
    shared: bool, now: State)
    requires Progress(m, st, payloads, pending, found, |pending|, at, shared, now)
    ensures var all := if shared then Batch(m, st, payloads) else Serial(m, st, payloads);
            && now == all.1 && |found| == |payloads|
            && forall i | 0 <= i < |payloads| :: found[i] == Some(all.0[i])
  {
    hide Known, Turn, Skips, Pending, Turns, Serial;
    SkipKnown(m, st, payloads, at, |payloads|, shared);
    assert payloads[..|payloads|] == payloads;
  }

  /** The first pass after `n` payloads. */
  ghost predicate LookedUp(
    m: Recipe, st: State, payloads: seq<string>, n: nat, found: seq<Option<Outcome>>, pending: seq<Undecided>, silvers: seq<Silver>)
  {
    && n <= |payloads|
    && |found| == n && (forall i | 0 <= i < n :: found[i] == Known(m, st, payloads[i]))
    && PendingIndices(m, st, payloads, n, pending)
    && silvers == Pending(m, st, payloads[..n])
  }

  lemma LookUpNothing(m: Recipe, st: State, payloads: seq<string>)
    ensures LookedUp(m, st, payloads, 0, [], [], [])
  {
    assert payloads[..0] == [];
  }

  lemma LookUpOneMore(
    m: Recipe, st: State, payloads: seq<string>, n: nat, found: seq<Option<Outcome>>, pending: seq<Undecided>, silvers: seq<Silver>)
    requires n < |payloads| && LookedUp(m, st, payloads, n, found, pending, silvers)
    ensures m.loads(payloads[n]).None? ==> LookedUp(m, st, payloads, n + 1, found + [Some(Error)], pending, silvers)
    ensures m.loads(payloads[n]).Some? && payloads[n] in st.cache ==>
              LookedUp(m, st, payloads, n + 1, found + [Some(Value(st.cache[payloads[n]]))], pending, silvers)
    ensures m.loads(payloads[n]).Some? && payloads[n] !in st.cache ==>
              LookedUp(m, st, payloads, n + 1, found + [None],
                       pending + [Undecided(n, payloads[n], m.loads(payloads[n]).value)],
                       silvers + [m.loads(payloads[n]).value])
  {
    hide PendingIndices, Pending, Known;
    PendingStep(m, st, payloads, n, pending);
    PendingOneMore(m, st, payloads, n);
    KnownCases(m, st, payloads[n]);
    assert silvers + [] == silvers;
  }

  lemma KnownCases(m: Recipe, st: State, payload: string)
    ensures m.loads(payload).None? ==> Known(m, st, payload) == Some(Error)
    ensures m.loads(payload).Some? && payload in st.cache ==> Known(m, st, payload) == Some(Value(st.cache[payload]))
    ensures m.loads(payload).Some? && payload !in st.cache ==> Known(m, st, payload) == None
  {
  }

  lemma LookUpDone(
    m: Recipe, st: State, payloads: seq<string>, found: seq<Option<Outcome>>, pending: seq<Undecided>, silvers: seq<Silver>)
    requires LookedUp(m, st, payloads, |payloads|, found, pending, silvers)
    ensures |found| == |payloads| && forall i | 0 <= i < |payloads| :: found[i] == Known(m, st, payloads[i])
    ensures PendingIndices(m, st, payloads, |payloads|, pending) && silvers == Pending(m, st, payloads)
  {
    hide PendingIndices, Pending, Known;
    assert payloads[..|payloads|] == payloads;
  }

  lemma PendingStep(m: Recipe, st: State, payloads: seq<string>, n: nat, pending: seq<Undecided>)
    requires n < |payloads| && PendingIndices(m, st, payloads, n, pending)
    ensures Known(m, st, payloads[n]).Some? ==> PendingIndices(m, st, payloads, n + 1, pending)
    ensures Known(m, st, payloads[n]).None? ==>
              PendingIndices(m, st, payloads, n + 1, pending + [Undecided(n, payloads[n], m.loads(payloads[n]).value)])
  {
    if Known(m, st, payloads[n]).None? {
      var more := pending + [Undecided(n, payloads[n], m.loads(payloads[n]).value)];
      forall i | 0 <= i < n + 1 && Known(m, st, payloads[i]).None?
        ensures exists j :: 0 <= j < |more| && more[j].position == i
      {
        if i < n {
          var j :| 0 <= j < |pending| && pending[j].position == i;
          assert more[j] == pending[j];
        } else {
          assert more[|pending|].position == i;
        }
      }
    }
  }

  lemma PendingOneMore(m: Recipe, st: State, payloads: seq<string>, n: nat)
    requires n < |payloads|
    ensures Pending(m, st, payloads[..n + 1])
         == Pending(m, st, payloads[..n]) + if Known(m, st, payloads[n]).None? then [m.loads(payloads[n]).value] else []
  {
    assert payloads[..n + 1][..n] == payloads[..n];
  }

  lemma TurnMiss(m: Recipe, st: State, payload: string, own: set<string>)
    requires m.loads(payload).Some? && payload !in st.cache
    ensures var silver := m.loads(payload).value;
            var r := Materialized(m, st, payload, silver, silver.docId in own);
            Turn(m, st, payload, own) == (Value(r.0), r.1)
    ensures Pending(m, st, [payload]) == [m.loads(payload).value]
  {
    hide Materialized;
    assert [payload][..|[payload]| - 1] == [];
  }

  lemma RunOneFurther(m: Recipe, st: State, payloads: seq<string>, n: nat, shared: bool)
    requires n < |payloads|
    ensures var before := RunTo(m, st, payloads, n, shared);
            var turn := Turn(m, before.1, payloads[n], TurnSkips(m, st, payloads, before.1, payloads[n], shared));
            RunTo(m, st, payloads, n + 1, shared) == (before.0 + [turn.0], turn.1)
  {
    hide Turn, Turns, Serial, Skips, Pending;
    assert payloads[..n + 1] == payloads[..n] + [payloads[n]];
    OneFurther(m, st, payloads[..n], payloads[n], Skips(m, st.index, Pending(m, st, payloads)));
  }

  lemma TurnKeepsCache(m: Recipe, st: State, payload: string, skips: set<string>, stored: string)
    requires stored in st.cache
    ensures var later := Turn(m, st, payload, skips).1;
            stored in later.cache && later.cache[stored] == st.cache[stored]
  {
  }

  lemma {:induction false} RunKeepsCache(m: Recipe, st: State, payloads: seq<string>, n: nat, shared: bool, payload: string)
    requires n <= |payloads| && payload in st.cache
    ensures var later := RunTo(m, st, payloads, n, shared).1;
            payload in later.cache && later.cache[payload] == st.cache[payload]
  {
    hide Turn, TurnSkips, Skips, Pending;
    if n != 0 {
      hide RunTo;
      var before := RunTo(m, st, payloads, n - 1, shared);
      RunKeepsCache(m, st, payloads, n - 1, shared, payload);
      RunOneFurther(m, st, payloads, n - 1, shared);
      TurnKeepsCache(m, before.1, payloads[n - 1], TurnSkips(m, st, payloads, before.1, payloads[n - 1], shared), payload);
    }
  }

  lemma KnownTurn(m: Recipe, st: State, later: State, payload: string, own: set<string>)
    requires Known(m, st, payload).Some?
    requires payload in st.cache ==> payload in later.cache && later.cache[payload] == st.cache[payload]
    ensures Turn(m, later, payload, own) == (Known(m, st, payload).value, later)
  {
  }

  ghost predicate Skipped(m: Recipe, st: State, payloads: seq<string>, lo: nat, hi: nat, a: (seq<Outcome>, State), b: (seq<Outcome>, State))
    requires lo <= hi <= |payloads| && |a.0| == lo && |b.0| == hi
  {
    && a.1 == b.1
    && (forall i | 0 <= i < lo :: b.0[i] == a.0[i])
    && (forall i | lo <= i < hi :: Some(b.0[i]) == Known(m, st, payloads[i]))
  }

  lemma SkippedExtend(
    m: Recipe, st: State, payloads: seq<string>, lo: nat, hi: nat, a: (seq<Outcome>, State), b: (seq<Outcome>, State),
    settled: Outcome)
    requires lo <= hi < |payloads| && |a.0| == lo && |b.0| == hi && Skipped(m, st, payloads, lo, hi, a, b)
    requires Known(m, st, payloads[hi]) == Some(settled)
    ensures Skipped(m, st, payloads, lo, hi + 1, a, (b.0 + [settled], b.1))
  {
    hide Known;
  }

  /** Payloads the first lookup settled leave the state alone and keep their outcome at their turn. */
  lemma {:induction false} SkipKnown(m: Recipe, st: State, payloads: seq<string>, lo: nat, hi: nat, shared: bool)
    requires lo <= hi <= |payloads| && forall i | lo <= i < hi :: Known(m, st, payloads[i]).Some?
    ensures Skipped(m, st, payloads, lo, hi, RunTo(m, st, payloads, lo, shared), RunTo(m, st, payloads, hi, shared))
    decreases hi
  {
    hide Turn, Skips, Pending, Known, RunTo;
    if lo < hi {
      hide Skipped;
      var n := hi - 1;
      SkipKnown(m, st, payloads, lo, n, shared);
      var before := RunTo(m, st, payloads, n, shared);
      var own := TurnSkips(m, st, payloads, before.1, payloads[n], shared);
      RunOneFurther(m, st, payloads, n, shared);
      if payloads[n] in st.cache {
        RunKeepsCache(m, st, payloads, n, shared, payloads[n]);
      }
      assert Known(m, st, payloads[n]).Some?;
      KnownTurn(m, st, before.1, payloads[n], own);
      SkippedExtend(m, st, payloads, lo, n, RunTo(m, st, payloads, lo, shared), before,
                    Known(m, st, payloads[n]).value);
    }
  }

  lemma SkipsNone(m: Recipe, index: Near.Index)
    ensures Skips(m, index, []) == {}
  {
  }

  lemma SkipsOneMore(m: Recipe, index: Near.Index, silvers: seq<Silver>, silver: Silver)
    ensures Skips(m, index, silvers + [silver])
         == Skips(m, index, silvers) + if NeedsSkip(m, index, silver) then {silver.docId} else {}
  {
    hide NeedsSkip;
    assert forall s :: s in silvers + [silver] <==> s in silvers || s == silver;
  }
}
