/** One document's curation: projection, preflight, reasons, route (processor/curate.py). */
module Curation {
  import opened Outcomes
  import Ordering
  import Text
  import Near = NearDuplicateIndex
  import Agg = SegmentAggregation

  // ---- Records -------------------------------------------------------------------------------

  datatype SourceKind = ScientificPaper | WebProse | TechnicalDocumentation | ModelCard | DatasetCard | DiscoveryMetadata
  datatype KenlmMode = Gate | Diagnostic | Off
  datatype Policy = Policy(trainingText: bool, languageGate: bool, webHeuristicGate: bool, kenlm: KenlmMode)
  datatype Usage = Unrestricted | PosttrainTransformOnly

  datatype Segment = Segment(id: string, title: string, role: string, text: string)
  datatype Section = Section(input: string, text: string)

  datatype Silver = Silver(
    docId: string, traceId: string, kind: SourceKind, feed: string, title: Option<string>,
    segments: seq<Segment>, body: string, structured: string, lang: string, langScore: real,
    warnings: seq<string>, usage: Usage, retryAttempt: nat, hasRawBody: bool, arxivUrl: bool,
    artifact: Option<string>, hasEvidence: bool)

  datatype Sanitization = Sanitization(text: string, blocking: seq<string>)
  datatype C4 = C4(curlyBrace: bool, loremIpsum: bool, noPunct: bool)
  datatype QualityScore = QualityScore(score: real, tokens: nat, revision: string)
  datatype Perplexity = Perplexity(value: real, bucket: Agg.Bucket)
  datatype Handoff = Disabled | Preserved(uri: Option<string>) | EvidenceUnavailable

  /** Everything the curator treats as a pinned, stateless computation. */
  datatype Models = Models(
    loads: string -> Option<Silver>,
    lsh: Near.Config,
    sanitize: string -> Sanitization,
    structured: string -> Sanitization,
    c4: string -> C4,
    gopher: string -> bool,
    placeholder: string -> bool,
    cardAccepted: (SourceKind, Option<string>, string, seq<Segment>) -> bool,
    template: (Option<string>, string, seq<Segment>) -> bool,
    sameTitle: (string, string) -> bool,
    trainingPermitted: Silver -> bool,
    transformPermitted: Silver -> bool,
    minhash: string -> Near.Signature,
    sections: (string, string) -> seq<Section>,
    quality: string -> QualityScore,
    perplexity: string -> Perplexity,
    reasoning: (Silver, seq<Segment>, string, real) -> real,
    handoff: Silver -> Handoff,
    qualityBackend: string,
    qualityRevision: string,
    maxRetries: nat)

  datatype Reason =
    LowQuality | MetadataOnly | InsufficientScientificBody | InsufficientBody | PiiDetected | C4Filter
    | GopherFilter | HighPerplexity | CardQuality | LanguageFilter | LicenseExcluded
    | IncompleteExtraction | DocumentTemplate | NearDuplicate

  datatype Route = Pretrain | PosttrainCandidate | Quarantine | Retry
  datatype RouteDecision = RouteDecision(route: Route, eligible: seq<Route>)
  datatype Row = Row(score: real, tokens: nat)
  datatype Report = Report(rows: seq<Row>, score: real, passed: bool, revision: string)

  datatype Gold = Gold(
    docId: string, traceId: string, text: string, report: Option<Report>, sourceQuality: real,
    segmentScores: seq<Agg.SegmentScore>, perplexity: real, route: Route, eligible: seq<Route>,
    reject: seq<Reason>, risk: nat, pii: set<string>, near: Near.NearDup, backend: string,
    revision: string, artifact: Option<string>)

  const MINIMUM_WORDS := 50
  const NOT_RUN := "not-run:deterministic-reject"

  function PolicyOf(kind: SourceKind): Policy {
    match kind
    case ScientificPaper => Policy(true, true, false, Off)
    case WebProse => Policy(true, true, true, Gate)
    case TechnicalDocumentation => Policy(true, true, false, Off)
    case ModelCard => Policy(true, true, false, Off)
    case DatasetCard => Policy(true, true, false, Off)
    case DiscoveryMetadata => Policy(false, false, false, Off)
  }

  predicate IsCard(kind: SourceKind) { kind == ModelCard || kind == DatasetCard }

  // ---- The projection both gates look at -----------------------------------------------------

  function FirstWithRole(segments: seq<Segment>, role: string): nat {
    if segments == [] || segments[0].role == role then 0 else 1 + FirstWithRole(segments[1..], role)
  }

  /** The abstract, else the introduction, else the whole document. */
  function BodyStart(segments: seq<Segment>): (start: nat)
    ensures start <= |segments|
  {
    FirstWithRoleBound(segments, "abstract");
    FirstWithRoleBound(segments, "introduction");
    var abstractAt := FirstWithRole(segments, "abstract");
    var introductionAt := FirstWithRole(segments, "introduction");
    if abstractAt < |segments| then abstractAt
    else if introductionAt < |segments| then introductionAt
    else 0
  }

  lemma {:induction false} FirstWithRoleBound(segments: seq<Segment>, role: string)
    ensures FirstWithRole(segments, role) <= |segments|
  {
    if segments != [] {
      FirstWithRoleBound(segments[1..], role);
    }
  }

  function SourceSegments(silver: Silver): seq<Segment> {
    var segments := if silver.kind == ScientificPaper
                    then silver.segments[BodyStart(silver.segments)..] else silver.segments;
    if segments != [] then segments
    else [Segment("document", if silver.title.GetOr("") == "" then "Document" else silver.title.value, "body", silver.body)]
  }

  function SafeSegments(m: Models, segments: seq<Segment>): seq<Segment> {
    seq(|segments|, (i: nat) requires i < |segments| =>
      segments[i].(text := m.sanitize(segments[i].text).text))
  }

  function BlockingFlags(sanitize: string -> Sanitization, segments: seq<Segment>): seq<string> {
    if segments == [] then [] else sanitize(segments[0].text).blocking + BlockingFlags(sanitize, segments[1..])
  }

  /** A section leaves the projection alone, without rejecting the document. */
  predicate Excluded(m: Models, kind: SourceKind, text: string) {
    || (IsCard(kind) && m.placeholder(text))
    || (PolicyOf(kind).webHeuristicGate && !m.c4(text).curlyBrace)
    || (PolicyOf(kind).webHeuristicGate && !m.c4(text).loremIpsum)
  }

  function Kept(m: Models, kind: SourceKind, safe: seq<Segment>): seq<Segment> {
    if safe == [] then []
    else if Excluded(m, kind, safe[0].text) then Kept(m, kind, safe[1..])
    else [safe[0]] + Kept(m, kind, safe[1..])
  }

  predicate RemovedForC4(m: Models, kind: SourceKind, safe: seq<Segment>) {
    && PolicyOf(kind).webHeuristicGate
    && exists i | 0 <= i < |safe| :: !m.c4(safe[i].text).curlyBrace || !m.c4(safe[i].text).loremIpsum
  }

  function Body(kept: seq<Segment>): string {
    Text.Strip(Text.Join("\n\n", seq(|kept|, (i: nat) requires i < |kept| => Text.Strip(kept[i].text))))
  }

  /** A section below its heading, unless that repeats the document's title. */
  function ProjectedBlock(sameTitle: (string, string) -> bool, title: Option<string>, first: bool, s: Segment): string {
    if first && title.Some? && sameTitle(s.title, title.value) then Text.Strip(s.text)
    else "## " + s.title + "\n" + Text.Strip(s.text)
  }

  function ProjectedBlocks(
    sameTitle: (string, string) -> bool, title: Option<string>, segments: seq<Segment>, structured: string): seq<string>
  {
    (if title.GetOr("") != "" then ["# " + title.value] else [])
    + seq(|segments|, (i: nat) requires i < |segments| => ProjectedBlock(sameTitle, title, i == 0, segments[i]))
    + (if Text.Strip(structured) != "" then [Text.Strip(structured)] else [])
  }

  /** The text a record is trained on: title, kept sections, sanitized structured evidence. */
  function TrainingProjection(
    sameTitle: (string, string) -> bool, title: Option<string>, segments: seq<Segment>, structured: string): string
  {
    Text.Strip(Text.Join("\n\n",
      Ordering.Filter((b: string) => Text.Strip(b) != "", ProjectedBlocks(sameTitle, title, segments, structured))))
  }

  datatype Projected = Projected(
    safe: seq<Segment>, kept: seq<Segment>, blocking: seq<string>, modelText: string, text: string)

  function Project(m: Models, silver: Silver): Projected {
    var segments := SourceSegments(silver);
    var safe := SafeSegments(m, segments);
    var kept := Kept(m, silver.kind, safe);
    var structured := m.structured(silver.structured);
    Projected(safe, kept, BlockingFlags(m.sanitize, segments) + structured.blocking, Body(kept),
              TrainingProjection(m.sameTitle, silver.title, kept, structured.text))
  }

  function MeasuredBody(silver: Silver, p: Projected): string {
    if IsCard(silver.kind) then p.text else p.modelText
  }

  /** The record without its text, which is all that licence checks see. */
  function Metadata(silver: Silver): Silver { silver.(segments := [], body := "", structured := "") }

  predicate LicenseRejected(m: Models, silver: Silver) {
    && !(silver.usage == PosttrainTransformOnly && m.transformPermitted(Metadata(silver)))
    && !m.trainingPermitted(Metadata(silver))
  }

  predicate StartsWith(s: string, prefix: string) { prefix <= s }

  predicate ExtractionIncomplete(silver: Silver) {
    && silver.kind == ScientificPaper
    && exists w | w in silver.warnings ::
         StartsWith(w, "figure_enrichment_failed:") || w in {"figure_limit_reached", "page_limit_reached"}
  }

  predicate LanguageRejected(silver: Silver) {
    PolicyOf(silver.kind).languageGate && (silver.lang != "en" || silver.langScore < 0.5)
  }

  // ---- The preflight -------------------------------------------------------------------------

  /** The preflight's own comprehension over the sanitized segments. */
  function PreflightKept(m: Models, kind: SourceKind, safe: seq<Segment>): seq<Segment> {
    Ordering.Filter(
      (s: Segment) =>
        !(IsCard(kind) && m.placeholder(s.text))
        && !(PolicyOf(kind).webHeuristicGate && (!m.c4(s.text).curlyBrace || !m.c4(s.text).loremIpsum)),
      safe)
  }

  /** Whether inference is unnecessary, and the projection it was decided on. */
  function Preflight(m: Models, silver: Silver): (bool, string) {
    var policy := PolicyOf(silver.kind);
    var segments := SourceSegments(silver);
    var kept := PreflightKept(m, silver.kind, SafeSegments(m, segments));
    var modelText := Body(kept);
    var structured := m.structured(silver.structured);
    var text := TrainingProjection(m.sameTitle, silver.title, kept, structured.text);
    var measured := if IsCard(silver.kind) then text else modelText;
    var c4 := m.c4(modelText);
    var rejected :=
      || !policy.trainingText
      || Text.Words(measured) < MINIMUM_WORDS
      || (exists s | s in segments :: m.sanitize(s.text).blocking != [])
      || structured.blocking != []
      || (policy.webHeuristicGate && (!m.gopher(modelText) || !(c4.noPunct && c4.loremIpsum && c4.curlyBrace)))
      || (IsCard(silver.kind) && !m.cardAccepted(silver.kind, silver.title, modelText, kept))
      || LanguageRejected(silver)
      || LicenseRejected(m, silver)
      || ExtractionIncomplete(silver)
      || (silver.kind == ScientificPaper && m.template(silver.title, text, kept));
    (rejected, text)
  }

  // ---- Scores --------------------------------------------------------------------------------

  function QualityCutoff(feed: string): real {
    if feed in {"hf-models", "hf-datasets"} then 3.5 else 3.0
  }

  function RowOf(m: Models, section: Section): Row {
    var result := m.quality(section.input);
    var words := Text.Words(section.text);
    Row(result.score, if result.tokens != 0 then result.tokens else if words < 1 then 1 else words)
  }

  function TokenTotal(rows: seq<Row>): nat {
    if rows == [] then 0 else TokenTotal(rows[..|rows| - 1]) + rows[|rows| - 1].tokens
  }

  function Weighted(row: Row): real { row.score * row.tokens as real }

  function TokenSum(rows: seq<Row>): real {
    if rows == [] then 0.0 else TokenSum(rows[..|rows| - 1]) + Weighted(rows[|rows| - 1])
  }

  /** The token-weighted mean over the rows, zero when there is no token to weigh. */
  function TokenMean(rows: seq<Row>): real {
    if TokenTotal(rows) == 0 then 0.0 else TokenSum(rows) / TokenTotal(rows) as real
  }

  function ReportOf(m: Models, silver: Silver, text: string): Report {
    var sections := m.sections(silver.feed, text);
    var rows := seq(|sections|, (i: nat) requires i < |sections| => RowOf(m, sections[i]));
    var score := TokenMean(rows);
    Report(rows, score, score >= QualityCutoff(silver.feed),
           if sections == [] then m.qualityRevision else m.quality(sections[0].input).revision)
  }

  /** KenLM signals are keyed by segment identifier, so a repeated identifier keeps the last result. */
  function Signals(m: Models, safe: seq<Segment>): map<string, Perplexity> {
    if safe == [] then map[]
    else Signals(m, safe[..|safe| - 1])[safe[|safe| - 1].id := m.perplexity(safe[|safe| - 1].text)]
  }

  function SegmentScoreOf(m: Models, kind: SourceKind, signals: map<string, Perplexity>, s: Segment): Agg.SegmentScore {
    var signal := if s.id in signals then Some(signals[s.id]) else None;
    Agg.SegmentScore(
      s.id, Text.Words(s.text), None,
      if signal.Some? then Some(signal.value.value) else None,
      if signal.Some? then Some(signal.value.bucket) else None,
      !Excluded(m, kind, s.text))
  }

  function SegmentScores(m: Models, kind: SourceKind, safe: seq<Segment>): seq<Agg.SegmentScore> {
    var signals := if PolicyOf(kind).kenlm == Off then map[] else Signals(m, safe);
    seq(|safe|, (i: nat) requires i < |safe| => SegmentScoreOf(m, kind, signals, safe[i]))
  }

  function Buckets(scores: seq<Agg.SegmentScore>): seq<Agg.Bucket> {
    if scores == [] then []
    else
      var last := scores[|scores| - 1];
      Buckets(scores[..|scores| - 1]) + (if last.included && last.bucket.Some? then [last.bucket.value] else [])
  }

  function Tails(buckets: seq<Agg.Bucket>): nat {
    if buckets == [] then 0 else Tails(buckets[..|buckets| - 1]) + if buckets[|buckets| - 1] == Agg.Tail then 1 else 0
  }

  /** Three quarters of the measured sections in the tail (vacuously when none is measured), above 2000. */
  predicate PerplexityTooHigh(kind: SourceKind, scores: seq<Agg.SegmentScore>) {
    var buckets := Buckets(scores);
    && PolicyOf(kind).kenlm == Gate
    && (buckets == [] || 4 * Tails(buckets) >= 3 * |buckets|)
    && Agg.AggregateOf(scores).perplexity > 2000.0
  }

  // ---- Reasons, route and record -------------------------------------------------------------

  datatype Check = Check(failed: bool, reason: Reason)

  /** The reasons of the failed checks, in order. */
  function Failed(checks: seq<Check>): seq<Reason> {
    if checks == [] then []
    else Failed(checks[..|checks| - 1])
         + (if checks[|checks| - 1].failed then [checks[|checks| - 1].reason] else [])
  }

  /** `dict.fromkeys`: the first occurrence of each reason, in order. */
  function Unique(reasons: seq<Reason>): seq<Reason> {
    if reasons == [] then []
    else
      var before := Unique(reasons[..|reasons| - 1]);
      if reasons[|reasons| - 1] in before then before else before + [reasons[|reasons| - 1]]
  }

  /** Every gate's outcome for one document. */
  datatype Findings = Findings(
    scientific: bool, low: bool, metadata: bool, short: bool, blocked: bool, allRemovedForC4: bool, gopher: bool,
    c4: bool, perplexity: bool, card: bool, language: bool, license: bool, incomplete: bool, template: bool,
    duplicate: bool)

  function FindingsOf(m: Models, silver: Silver, p: Projected, report: Option<Report>, duplicate: bool): Findings {
    var policy := PolicyOf(silver.kind);
    var c4 := m.c4(p.modelText);
    Findings(
      silver.kind == ScientificPaper,
      report.Some? && !report.value.passed,
      !policy.trainingText,
      Text.Words(MeasuredBody(silver, p)) < MINIMUM_WORDS,
      p.blocking != [],
      RemovedForC4(m, silver.kind, p.safe) && p.kept == [],
      policy.webHeuristicGate && !m.gopher(p.modelText),
      policy.webHeuristicGate && !(c4.noPunct && c4.loremIpsum && c4.curlyBrace),
      PerplexityTooHigh(silver.kind, SegmentScores(m, silver.kind, p.safe)),
      IsCard(silver.kind) && !m.cardAccepted(silver.kind, silver.title, p.modelText, p.kept),
      LanguageRejected(silver),
      LicenseRejected(m, silver),
      ExtractionIncomplete(silver),
      silver.kind == ScientificPaper && m.template(silver.title, p.text, p.kept),
      duplicate)
  }

  /** The checks in the order their reasons are appended. A short body silences the web heuristics. */
  function Checks(f: Findings): seq<Check> {
    [ Check(f.low, LowQuality),
      Check(f.metadata, MetadataOnly),
      Check(f.short, if f.scientific then InsufficientScientificBody else InsufficientBody),
      Check(f.blocked, PiiDetected),
      Check(f.allRemovedForC4, C4Filter),
      Check(f.gopher && !f.short, GopherFilter),
      Check(f.c4 && !f.short, C4Filter),
      Check(f.perplexity, HighPerplexity),
      Check(f.card, CardQuality),
      Check(f.language, LanguageFilter),
      Check(f.license, LicenseExcluded),
      Check(f.incomplete, IncompleteExtraction),
      Check(f.template, DocumentTemplate),
      Check(f.duplicate, NearDuplicate) ]
  }

  function Reasons(f: Findings): seq<Reason> { Unique(Failed(Checks(f))) }

  predicate IsRetryable(reason: Reason) { reason == InsufficientScientificBody || reason == IncompleteExtraction }

  predicate PosttrainEligible(silver: Silver) {
    && silver.kind == ScientificPaper
    && silver.artifact.Some?
    && exists s | s in silver.segments :: Text.Strip(s.text) != ""
  }

  function RouteDocument(silver: Silver, reject: seq<Reason>, reasoning: real): RouteDecision {
    if exists r | r in reject :: !IsRetryable(r) then RouteDecision(Quarantine, [Quarantine])
    else if reject != [] then RouteDecision(Retry, [Retry])
    else if reasoning >= 0.55 && PosttrainEligible(silver) then
      RouteDecision(PosttrainCandidate, [Pretrain, PosttrainCandidate])
    else RouteDecision(Pretrain, [Pretrain])
  }

  /** The bounded alternate retry and the transform-only restriction are applied to the routed document. */
  function FinalRoute(m: Models, silver: Silver, reject: seq<Reason>, reasoning: real): RouteDecision {
    var routed := RouteDocument(silver, reject, reasoning);
    var bounded :=
      if routed.route == Retry && (!silver.hasRawBody || silver.retryAttempt >= m.maxRetries || !silver.arxivUrl)
      then RouteDecision(Quarantine, [Quarantine]) else routed;
    if silver.usage == PosttrainTransformOnly && bounded.route !in {Quarantine, Retry}
    then RouteDecision(PosttrainCandidate, [PosttrainCandidate]) else bounded
  }

  function Risk(reject: seq<Reason>, pii: set<string>): nat {
    if PiiDetected in reject || pii != {} then 3 else if reject != [] then 2 else 1
  }

  function SetOf(xs: seq<string>): set<string> { set x | x in xs }

  predicate Trainable(gold: Gold) {
    gold.risk == 1 && gold.route in {Pretrain, PosttrainCandidate} && gold.reject == [] && gold.pii == {}
  }

  /** Whether the classifier is left out: a hard rejection, or a skip recorded while prefetching. */
  predicate QualitySkipped(m: Models, silver: Silver, skipped: bool) {
    !PolicyOf(silver.kind).trainingText || Preflight(m, silver).0 || skipped
  }

  /** The record of a projection, its optional report, its section scores, its reasons and the index's answer. */
  function Assembled(
    m: Models, silver: Silver, p: Projected, report: Option<Report>, scores: seq<Agg.SegmentScore>, reject: seq<Reason>,
    near: Near.NearDup): Gold
  {
    var quality := if report.Some? then report.value.score else 0.0;
    var route := FinalRoute(m, silver, reject, m.reasoning(silver, p.kept, p.text, quality));
    Gold(silver.docId, silver.traceId, p.text, report, quality, scores, Agg.AggregateOf(scores).perplexity,
         route.route, route.eligible, reject, Risk(reject, SetOf(p.blocking)), SetOf(p.blocking), near,
         if report.Some? then m.qualityBackend else NOT_RUN,
         if report.Some? then report.value.revision else NOT_RUN,
         silver.artifact)
  }

  /** The record `curate_one` builds, given the index's answer for the projected text. */
  function Curated(m: Models, silver: Silver, skipped: bool, near: Near.NearDup): Gold {
    var p := Project(m, silver);
    var report := if QualitySkipped(m, silver, skipped) then None else Some(ReportOf(m, silver, p.text));
    Assembled(m, silver, p, report, SegmentScores(m, silver.kind, p.safe),
              Reasons(FindingsOf(m, silver, p, report, near.duplicate)), near)
  }

  /** Preserving structured evidence may still withdraw a trainable record, or only its post-training use. */
  function HandedOff(m: Models, silver: Silver, gold: Gold): Gold {
    if !Trainable(gold) then gold
    else
      match m.handoff(silver)
      case Disabled => gold
      case Preserved(uri) =>
        if silver.feed == "arxiv-html-fetcher" && (uri.None? || uri.value == "") then Withdrawn(silver, gold)
        else gold.(artifact := uri)
      case EvidenceUnavailable => Withdrawn(silver, gold)
  }

  function Withdrawn(silver: Silver, gold: Gold): Gold {
    if !silver.hasEvidence && Pretrain in gold.eligible
    then gold.(route := Pretrain, eligible := [Pretrain], artifact := None)
    else gold.(route := Quarantine, eligible := [Quarantine], risk := 3,
               reject := gold.reject + [IncompleteExtraction])
  }
}
