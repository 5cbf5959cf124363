/** What the gates of one document's curation decide together (processor/curate.py). */
module CurationRules {
  import opened Outcomes
  import opened Curation
  import Near = NearDuplicateIndex
  import Agg = SegmentAggregation

  // ---- The preflight is exact ----------------------------------------------------------------

  /** The reasons that only inference, or the ordered near-duplicate index, can give. */
  predicate NeedsInferenceOrIndex(reason: Reason) { reason in {LowQuality, HighPerplexity, NearDuplicate} }

  lemma {:induction false} PreflightKeptIsKept(m: Models, kind: SourceKind, safe: seq<Segment>)
    ensures PreflightKept(m, kind, safe) == Kept(m, kind, safe)
  {
    if safe != [] {
      PreflightKeptIsKept(m, kind, safe[1..]);
    }
  }

  lemma {:induction false} UniqueElements(reasons: seq<Reason>, r: Reason)
    ensures r in Unique(reasons) <==> r in reasons
  {
    if reasons != [] {
      UniqueElements(reasons[..|reasons| - 1], r);
      UniqueElements(reasons[..|reasons| - 1], reasons[|reasons| - 1]);
      assert reasons == reasons[..|reasons| - 1] + [reasons[|reasons| - 1]];
    }
  }

  lemma {:induction false} FailedElements(checks: seq<Check>, r: Reason)
    ensures r in Failed(checks) <==> Check(true, r) in checks
  {
    if checks != [] {
      FailedElements(checks[..|checks| - 1], r);
      assert checks == checks[..|checks| - 1] + [checks[|checks| - 1]];
    }
  }

  lemma {:induction false} BlockingFlagsExist(sanitize: string -> Sanitization, segments: seq<Segment>)
    ensures BlockingFlags(sanitize, segments) != [] <==> exists s | s in segments :: sanitize(s.text).blocking != []
  {
    if segments != [] {
      BlockingFlagsExist(sanitize, segments[1..]);
      assert forall s :: s in segments <==> s == segments[0] || s in segments[1..];
    }
  }

  /** When each reason is recorded. */
  predicate Fires(f: Findings, r: Reason) {
    match r
    case LowQuality => f.low
    case MetadataOnly => f.metadata
    case InsufficientScientificBody => f.short && f.scientific
    case InsufficientBody => f.short && !f.scientific
    case PiiDetected => f.blocked
    case C4Filter => f.allRemovedForC4 || (f.c4 && !f.short)
    case GopherFilter => f.gopher && !f.short
    case HighPerplexity => f.perplexity
    case CardQuality => f.card
    case LanguageFilter => f.language
    case LicenseExcluded => f.license
    case IncompleteExtraction => f.incomplete
    case DocumentTemplate => f.template
    case NearDuplicate => f.duplicate
  }

  lemma ReasonRecorded(f: Findings, r: Reason)
    ensures r in Reasons(f) <==> Fires(f, r)
  {
    UniqueElements(Failed(Checks(f)), r);
    FailedElements(Checks(f), r);
  }

  /** Under a web gate every section can be removed, but then the body is already too short. */
  lemma AllRemovedMeansShort(m: Models, silver: Silver, report: Option<Report>, duplicate: bool)
    ensures var f := FindingsOf(m, silver, Project(m, silver), report, duplicate); f.allRemovedForC4 ==> f.short
  {
  }

  /** A gate that needs neither inference nor the index. */
  predicate HardFinding(f: Findings) {
    || f.metadata || f.short || f.blocked || f.gopher || f.c4 || f.card || f.language || f.license
    || f.incomplete || f.template
  }

  function HardReason(f: Findings): Reason
    requires HardFinding(f)
  {
    if f.metadata then MetadataOnly
    else if f.short then (if f.scientific then InsufficientScientificBody else InsufficientBody)
    else if f.blocked then PiiDetected
    else if f.gopher then GopherFilter
    else if f.c4 then C4Filter
    else if f.card then CardQuality
    else if f.language then LanguageFilter
    else if f.license then LicenseExcluded
    else if f.incomplete then IncompleteExtraction
    else DocumentTemplate
  }

  lemma HardFindingRecorded(f: Findings)
    requires f.allRemovedForC4 ==> f.short
    ensures HardFinding(f) <==> exists r | r in Reasons(f) :: !NeedsInferenceOrIndex(r)
  {
    if HardFinding(f) {
      ReasonRecorded(f, HardReason(f));
    }
    forall r | r in Reasons(f) && !NeedsInferenceOrIndex(r) ensures HardFinding(f) {
      ReasonRecorded(f, r);
    }
  }

  /**
   The preflight fires exactly when the full curation records a reason that neither inference nor the
   index is needed for, whatever the classifier and the index answer.
   */
  lemma PreflightExact(m: Models, silver: Silver, report: Option<Report>, duplicate: bool)
    ensures var f := FindingsOf(m, silver, Project(m, silver), report, duplicate);
            Preflight(m, silver).0 <==> exists r | r in Reasons(f) :: !NeedsInferenceOrIndex(r)
  {
    PreflightFindings(m, silver, report, duplicate);
    AllRemovedMeansShort(m, silver, report, duplicate);
    HardFindingRecorded(FindingsOf(m, silver, Project(m, silver), report, duplicate));
  }

  // ---- What makes a record trainable ---------------------------------------------------------

  lemma BlockedMeansPii(p: Projected)
    ensures p.blocking == [] <==> SetOf(p.blocking) == {}
  {
    if p.blocking != [] {
      assert p.blocking[0] in SetOf(p.blocking);
    }
  }

  lemma NoReasons(f: Findings)
    requires f.allRemovedForC4 ==> f.short
    ensures Reasons(f) == [] <==> !HardFinding(f) && !f.low && !f.perplexity && !f.duplicate
  {
    HardFindingRecorded(f);
    ReasonRecorded(f, LowQuality);
    ReasonRecorded(f, HighPerplexity);
    ReasonRecorded(f, NearDuplicate);
    if Reasons(f) != [] {
      ReasonRecorded(f, Reasons(f)[0]);
    }
  }

  lemma CleanRoute(m: Models, silver: Silver, reject: seq<Reason>, reasoning: real, pii: set<string>)
    requires PiiDetected in reject <==> pii != {}
    ensures reject == [] <==>
              && Risk(reject, pii) == 1
              && FinalRoute(m, silver, reject, reasoning).route in {Pretrain, PosttrainCandidate}
              && reject == [] && pii == {}
  {
  }

  lemma PiiRecorded(m: Models, silver: Silver, report: Option<Report>, duplicate: bool)
    ensures var p := Project(m, silver);
            PiiDetected in Reasons(FindingsOf(m, silver, p, report, duplicate)) <==> SetOf(p.blocking) != {}
  {
    BlockedMeansPii(Project(m, silver));
    ReasonRecorded(FindingsOf(m, silver, Project(m, silver), report, duplicate), PiiDetected);
  }

  /** The hand-off never makes a record trainable, and never touches its report. */
  lemma HandOffOnlyWithdraws(m: Models, silver: Silver, gold: Gold)
    ensures Trainable(HandedOff(m, silver, gold)) ==> Trainable(gold)
    ensures HandedOff(m, silver, gold).report == gold.report
    ensures HandedOff(m, silver, gold).backend == gold.backend
  {
  }

  /** The one way to be accepted unscored: a skip that no gate of this record confirms. */
  lemma AcceptedUnscored(m: Models, silver: Silver, skipped: bool, near: Near.NearDup)
    ensures var gold := Curated(m, silver, skipped, near);
            Trainable(gold) && gold.report.None? <==>
              && skipped
              && !Preflight(m, silver).0
              && !PerplexityTooHigh(silver.kind, gold.segmentScores)
              && !near.duplicate
  {
    AcceptanceRule(m, silver, skipped, near);
  }

  /** The exact acceptance rule, with and without a classifier report. */
  lemma AcceptanceRule(m: Models, silver: Silver, skipped: bool, near: Near.NearDup)
    ensures var gold := Curated(m, silver, skipped, near);
            Trainable(gold) <==>
              && !Preflight(m, silver).0
              && !PerplexityTooHigh(silver.kind, gold.segmentScores)
              && !near.duplicate
              && (gold.report.Some? ==> gold.report.value.passed)
  {
    var gold := Curated(m, silver, skipped, near);
    TrainableIffNoReason(m, silver, skipped, near);
    PreflightFindings(m, silver, gold.report, near.duplicate);
    AllRemovedMeansShort(m, silver, gold.report, near.duplicate);
    NoReasons(FindingsOf(m, silver, Project(m, silver), gold.report, near.duplicate));
  }

  /** Before the evidence hand-off a record is trainable exactly when it has no reject reason. */
  lemma TrainableIffNoReason(m: Models, silver: Silver, skipped: bool, near: Near.NearDup)
    ensures var gold := Curated(m, silver, skipped, near); Trainable(gold) <==> gold.reject == []
  {
    var gold := Curated(m, silver, skipped, near);
    var p := Project(m, silver);
    PiiRecorded(m, silver, gold.report, near.duplicate);
    CleanRoute(m, silver, gold.reject, m.reasoning(silver, p.kept, p.text, gold.sourceQuality), gold.pii);
  }

  /** A near duplicate is quarantined and not trainable, scored or not. */
  lemma DuplicateIsQuarantined(m: Models, silver: Silver, skipped: bool, near: Near.NearDup)
    requires near.duplicate
    ensures var gold := HandedOff(m, silver, Curated(m, silver, skipped, near));
            gold.route == Quarantine && !Trainable(gold)
  {
    hide Checks, Preflight, Project, SegmentScores, ReportOf, PosttrainEligible;
    var gold := Curated(m, silver, skipped, near);
    var f := FindingsOf(m, silver, Project(m, silver), gold.report, near.duplicate);
    ReasonRecorded(f, NearDuplicate);
    assert !IsRetryable(NearDuplicate) && NearDuplicate in gold.reject;
  }

  /** The preflight's verdict in terms of the gates' outcomes. */
  lemma PreflightFindings(m: Models, silver: Silver, report: Option<Report>, duplicate: bool)
    ensures var f := FindingsOf(m, silver, Project(m, silver), report, duplicate);
            Preflight(m, silver).0 <==> HardFinding(f)
    ensures Preflight(m, silver).1 == Project(m, silver).text
  {
    PreflightKeptIsKept(m, silver.kind, Project(m, silver).safe);
    BlockingFlagsExist(m.sanitize, SourceSegments(silver));
  }

  // ---- The route -----------------------------------------------------------------------------

  /** Which records are retried, trained on or quarantined, and for which uses they stay eligible. */
  lemma RouteRule(m: Models, silver: Silver, reject: seq<Reason>, reasoning: real)
    ensures var r := FinalRoute(m, silver, reject, reasoning);
            && (r.route == Retry <==>
                  && reject != [] && (forall x | x in reject :: IsRetryable(x))
                  && silver.hasRawBody && silver.retryAttempt < m.maxRetries && silver.arxivUrl)
            && (r.route in {Pretrain, PosttrainCandidate} <==> reject == [])
            && r.route in r.eligible
            && (Pretrain in r.eligible <==> reject == [] && silver.usage != PosttrainTransformOnly)
            && (PosttrainCandidate in r.eligible <==>
                  && reject == []
                  && (silver.usage == PosttrainTransformOnly || (reasoning >= 0.55 && PosttrainEligible(silver))))
  {
    if reject != [] {
      assert reject[0] in reject;
    }
  }

  /** What the evidence hand-off demands of an accepted record: preserved evidence, or none that it must keep. */
  predicate KeptByHandOff(m: Models, silver: Silver) {
    var lost := match m.handoff(silver)
                case Disabled => false
                case Preserved(uri) => silver.feed == "arxiv-html-fetcher" && uri.GetOr("") == ""
                case EvidenceUnavailable => true;
    lost ==> !silver.hasEvidence && silver.usage != PosttrainTransformOnly
  }

  /** Exactly which trainable records the hand-off withdraws. */
  lemma HandOffRule(m: Models, silver: Silver, skipped: bool, near: Near.NearDup)
    ensures var gold := Curated(m, silver, skipped, near);
            Trainable(HandedOff(m, silver, gold)) <==> Trainable(gold) && KeptByHandOff(m, silver)
    ensures var gold := Curated(m, silver, skipped, near);
            var after := HandedOff(m, silver, gold);
            && (Trainable(gold) && !KeptByHandOff(m, silver) ==>
                  after.route == Quarantine && after.risk == 3 && after.reject == [IncompleteExtraction])
            && (m.handoff(silver) == EvidenceUnavailable && Trainable(gold) && KeptByHandOff(m, silver) ==>
                  after.eligible == [Pretrain] && after.route == Pretrain && after.artifact.None?)
            && after == gold.(route := after.route, eligible := after.eligible, artifact := after.artifact,
                              risk := after.risk, reject := after.reject)
  {
    var gold := Curated(m, silver, skipped, near);
    var p := Project(m, silver);
    RouteRule(m, silver, gold.reject, m.reasoning(silver, p.kept, p.text, gold.sourceQuality));
    hide Project, SegmentScores, ReportOf, FindingsOf, Reasons, FinalRoute, Risk, Preflight;
  }

  // ---- The quality report --------------------------------------------------------------------

  lemma {:induction false} TokenSumBounds(rows: seq<Row>, lo: real, hi: real)
    requires forall i | 0 <= i < |rows| :: lo <= rows[i].score <= hi
    ensures Agg.Scaled(lo, TokenTotal(rows)) <= TokenSum(rows) <= Agg.Scaled(hi, TokenTotal(rows))
  {
    if rows != [] {
      var front, last := rows[..|rows| - 1], rows[|rows| - 1];
      TokenSumBounds(front, lo, hi);
      Agg.ScaledMonotone(lo, last.score, last.tokens);
      Agg.ScaledMonotone(last.score, hi, last.tokens);
      Agg.ScaledAdds(lo, TokenTotal(front), last.tokens);
      Agg.ScaledAdds(hi, TokenTotal(front), last.tokens);
      assert Weighted(last) == Agg.Scaled(last.score, last.tokens);
      hide Agg.Scaled, Weighted;
    }
  }

  lemma {:induction false} TokensPositive(rows: seq<Row>)
    requires forall i | 0 <= i < |rows| :: rows[i].tokens >= 1
    ensures TokenTotal(rows) >= |rows|
  {
    if rows != [] {
      TokensPositive(rows[..|rows| - 1]);
    }
  }

  /** A document's quality score lies between its least and greatest section scores. */
  lemma ReportWithinScores(m: Models, silver: Silver, text: string, lo: real, hi: real)
    requires var sections := m.sections(silver.feed, text);
             sections != [] && forall s | s in sections :: lo <= m.quality(s.input).score <= hi
    ensures lo <= ReportOf(m, silver, text).score <= hi
    ensures ReportOf(m, silver, text).passed <==> ReportOf(m, silver, text).score >= QualityCutoff(silver.feed)
  {
    var sections := m.sections(silver.feed, text);
    var rows := ReportOf(m, silver, text).rows;
    forall i | 0 <= i < |rows| ensures lo <= rows[i].score <= hi && rows[i].tokens >= 1 {
      assert sections[i] in sections;
    }
    TokensPositive(rows);
    TokenSumBounds(rows, lo, hi);
    Agg.QuotientBetween(lo, hi, TokenSum(rows), TokenTotal(rows));
  }
}

/**
 A curation recipe as batches see it (processor/curate.py): how a payload reads, whether its hard gates
 fire, what the near-duplicate index is asked, and the decision made of the index's answer.
 */
module CurationRecipe {
  import opened Outcomes
  import opened Curation
  import opened CurationRules
  import Near = NearDuplicateIndex

  datatype Decision = Decision(gold: Gold, trainable: bool)

  datatype Recipe = Recipe(
    loads: string -> Option<Silver>,
    lsh: Near.Config,
    hard: Silver -> bool,
    signature: Silver -> Near.Signature,
    decide: (Silver, bool, Near.NearDup) -> Decision)

  function Decide(m: Models, silver: Silver, skipped: bool, near: Near.NearDup): Decision {
    var gold := HandedOff(m, silver, Curated(m, silver, skipped, near));
    Decision(gold, Trainable(gold))
  }

  function RecipeOf(m: Models): Recipe {
    Recipe(
      m.loads,
      m.lsh,
      (silver: Silver) => Preflight(m, silver).0,
      (silver: Silver) => m.minhash(Project(m, silver).text),
      (silver: Silver, skipped: bool, near: Near.NearDup) => Decide(m, silver, skipped, near))
  }

  // ---- The laws batches rely on --------------------------------------------------------------

  predicate SameFlags(d: Decision, e: Decision) {
    d.trainable == e.trainable && d.gold.route == e.gold.route && d.gold.docId == e.gold.docId
  }

  predicate Scored(d: Decision) {
    d.trainable ==> d.gold.report.Some? && d.gold.report.value.passed
  }

  predicate Unscored(d: Decision) { d.trainable && d.gold.report.None? }

  /** A skip that the record's own gates or the index confirm is harmless, and only such a skip is. */
  ghost predicate Lawful(r: Recipe) {
    && (forall s, n | r.hard(s) :: r.decide(s, true, n) == r.decide(s, false, n))
    && (forall s, n: Near.NearDup | n.duplicate :: SameFlags(r.decide(s, true, n), r.decide(s, false, n)))
    && (forall s, k, n: Near.NearDup | k ==> r.hard(s) || n.duplicate :: Scored(r.decide(s, k, n)))
  }

  /** An unconfirmed skip always shows: the scored and the unscored decision differ. */
  ghost predicate SkipShows(r: Recipe) {
    forall s, n | !r.hard(s) :: r.decide(s, true, n) != r.decide(s, false, n)
  }

  lemma HardSkipIsNeutral(m: Models, silver: Silver, near: Near.NearDup)
    requires Preflight(m, silver).0
    ensures Decide(m, silver, true, near) == Decide(m, silver, false, near)
  {
    hide Preflight, Project, FindingsOf, Reasons, SegmentScores, ReportOf, FinalRoute, Risk, HandedOff;
  }

  lemma DuplicateFlags(m: Models, silver: Silver, near: Near.NearDup)
    requires near.duplicate
    ensures SameFlags(Decide(m, silver, true, near), Decide(m, silver, false, near))
  {
    hide Preflight, Project, FindingsOf, Reasons, SegmentScores, ReportOf, FinalRoute, Risk;
    DuplicateIsQuarantined(m, silver, true, near);
    DuplicateIsQuarantined(m, silver, false, near);
  }

  /** A confirmed skip never lets a record through unscored. */
  lemma ConfirmedSkipScores(m: Models, silver: Silver, skipped: bool, near: Near.NearDup)
    requires skipped ==> Preflight(m, silver).0 || near.duplicate
    ensures Scored(Decide(m, silver, skipped, near))
  {
    AcceptanceRule(m, silver, skipped, near);
    AcceptedUnscored(m, silver, skipped, near);
    HandOffOnlyWithdraws(m, silver, Curated(m, silver, skipped, near));
    hide Curated, HandedOff, Preflight;
  }

  /** The one way for a decision to be trainable without a passing report. */
  predicate AcceptedWithoutReport(m: Models, silver: Silver, skipped: bool, duplicate: bool) {
    && skipped
    && !Preflight(m, silver).0
    && !PerplexityTooHigh(silver.kind, SegmentScores(m, silver.kind, Project(m, silver).safe))
    && !duplicate
    && KeptByHandOff(m, silver)
  }

  lemma ScoredUnlessAccepted(m: Models, silver: Silver, skipped: bool, near: Near.NearDup)
    ensures Unscored(Decide(m, silver, skipped, near)) <==> AcceptedWithoutReport(m, silver, skipped, near.duplicate)
    ensures Scored(Decide(m, silver, skipped, near)) <==> !AcceptedWithoutReport(m, silver, skipped, near.duplicate)
  {
    var gold := Curated(m, silver, skipped, near);
    assert gold.segmentScores == SegmentScores(m, silver.kind, Project(m, silver).safe);
    AcceptanceRule(m, silver, skipped, near);
    AcceptedUnscored(m, silver, skipped, near);
    HandOffOnlyWithdraws(m, silver, gold);
    HandOffRule(m, silver, skipped, near);
    hide Curated, HandedOff, Preflight, KeptByHandOff, PerplexityTooHigh;
  }

  lemma BackendsDiffer(m: Models, silver: Silver, near: Near.NearDup)
    requires m.qualityBackend != NOT_RUN && !Preflight(m, silver).0
    ensures Decide(m, silver, true, near).gold.backend == NOT_RUN
    ensures Decide(m, silver, false, near).gold.backend == m.qualityBackend
  {
    PreflightFindings(m, silver, None, false);
    HandOffOnlyWithdraws(m, silver, Curated(m, silver, false, near));
    HandOffOnlyWithdraws(m, silver, Curated(m, silver, true, near));
    hide HandedOff, Preflight;
  }

  /** Every curation recipe obeys the laws. */
  lemma RecipeIsLawful(m: Models)
    ensures Lawful(RecipeOf(m))
  {
    hide Decide, Preflight, Project;
    var r := RecipeOf(m);
    forall s, n | r.hard(s) ensures r.decide(s, true, n) == r.decide(s, false, n) {
      HardSkipIsNeutral(m, s, n);
    }
    forall s, n: Near.NearDup | n.duplicate ensures SameFlags(r.decide(s, true, n), r.decide(s, false, n)) {
      DuplicateFlags(m, s, n);
    }
    forall s, k, n: Near.NearDup | k ==> r.hard(s) || n.duplicate ensures Scored(r.decide(s, k, n)) {
      ConfirmedSkipScores(m, s, k, n);
    }
  }

  /** Unless the classifier is itself called the not-run marker, an unconfirmed skip shows in the record. */
  lemma SkipsShow(m: Models)
    requires m.qualityBackend != NOT_RUN
    ensures SkipShows(RecipeOf(m))
  {
    hide Decide, Preflight, Project;
    var r := RecipeOf(m);
    forall s, n | !r.hard(s) ensures r.decide(s, true, n) != r.decide(s, false, n) {
      BackendsDiffer(m, s, n);
    }
  }
}
