/** What acceptance and scores mean, gate by gate and number by number (processor/curate.py). */
module CurationPromises {
  import opened Outcomes
  import opened Curation
  import opened CurationRules
  import opened CurationText
  import Text
  import Near = NearDuplicateIndex
  import Agg = SegmentAggregation

  // ---- Acceptance ----------------------------------------------------------------------------

  /** The sections that stayed and were measured by the language model. */
  function Measured(scores: seq<Agg.SegmentScore>): set<int> {
    set i | 0 <= i < |scores| && scores[i].included && scores[i].bucket.Some?
  }

  function InTail(scores: seq<Agg.SegmentScore>): set<int> {
    set i | 0 <= i < |scores| && scores[i].included && scores[i].bucket == Some(Agg.Tail)
  }

  lemma {:induction false} BucketCounts(scores: seq<Agg.SegmentScore>)
    ensures |Buckets(scores)| == |Measured(scores)| && Tails(Buckets(scores)) == |InTail(scores)|
  {
    hide Measured, InTail;
    if scores == [] {
      NoneMeasured();
    } else {
      var front, last := scores[..|scores| - 1], scores[|scores| - 1];
      BucketCounts(front);
      assert scores == front + [last];
      OneMoreMeasured(front, last);
      OneMoreInTail(front, last);
      assert Buckets(front) + [] == Buckets(front);
      if last.included && last.bucket.Some? {
        TailsSnoc(Buckets(front), last.bucket.value);
        assert Buckets(scores) == Buckets(front) + [last.bucket.value];
      }
    }
  }

  lemma NoneMeasured()
    ensures |Measured([])| == 0 && |InTail([])| == 0
  {
    assert Measured([]) == {} && InTail([]) == {};
  }

  /** The positions of the rows with a property. */
  ghost function Having(scores: seq<Agg.SegmentScore>, p: Agg.SegmentScore -> bool): set<int> {
    set i | 0 <= i < |scores| && p(scores[i])
  }

  lemma OneMoreHaving(front: seq<Agg.SegmentScore>, last: Agg.SegmentScore, p: Agg.SegmentScore -> bool)
    ensures |Having(front + [last], p)| == |Having(front, p)| + if p(last) then 1 else 0
  {
    var all, n := front + [last], |front|;
    forall i ensures i in Having(all, p) <==> i in Having(front, p) || (i == n && p(last)) {
      assert 0 <= i < n ==> all[i] == front[i];
    }
    assert n !in Having(front, p);
    assert Having(all, p) == Having(front, p) + if p(last) then {n} else {};
  }

  lemma OneMoreMeasured(front: seq<Agg.SegmentScore>, last: Agg.SegmentScore)
    ensures |Measured(front + [last])| == |Measured(front)| + if last.included && last.bucket.Some? then 1 else 0
  {
    var p := (s: Agg.SegmentScore) => s.included && s.bucket.Some?;
    assert Measured(front) == Having(front, p) && Measured(front + [last]) == Having(front + [last], p);
    hide Having, Measured;
    OneMoreHaving(front, last, p);
  }

  lemma OneMoreInTail(front: seq<Agg.SegmentScore>, last: Agg.SegmentScore)
    ensures |InTail(front + [last])| == |InTail(front)| + if last.included && last.bucket == Some(Agg.Tail) then 1 else 0
  {
    var p := (s: Agg.SegmentScore) => s.included && s.bucket == Some(Agg.Tail);
    assert InTail(front) == Having(front, p) && InTail(front + [last]) == Having(front + [last], p);
    hide Having, InTail;
    OneMoreHaving(front, last, p);
  }

  lemma TailsSnoc(buckets: seq<Agg.Bucket>, last: Agg.Bucket)
    ensures Tails(buckets + [last]) == Tails(buckets) + if last == Agg.Tail then 1 else 0
  {
    assert (buckets + [last])[..|buckets|] == buckets;
  }

  /** The promises that need no model beyond those named: kind, length, private data, language, licence, extraction. */
  predicate Admissible(m: Models, silver: Silver, text: string, body: string) {
    && silver.kind != DiscoveryMetadata
    && |Text.SplitWords(if silver.kind == ModelCard || silver.kind == DatasetCard then text else body)| >= 50
    && (forall s | s in SourceSegments(silver) :: m.sanitize(s.text).blocking == [])
    && m.structured(silver.structured).blocking == []
    && silver.lang == "en" && silver.langScore >= 0.5
    && ((silver.usage == PosttrainTransformOnly && m.transformPermitted(Metadata(silver))) || m.trainingPermitted(Metadata(silver)))
    && (silver.kind == ScientificPaper ==>
          forall w | w in silver.warnings ::
            !("figure_enrichment_failed:" <= w) && w != "figure_limit_reached" && w != "page_limit_reached")
  }

  /** The promises of the models that judge content. */
  predicate WellFormed(m: Models, silver: Silver, kept: seq<Segment>, text: string, body: string) {
    && (silver.kind == WebProse ==>
          m.gopher(body) && m.c4(body).noPunct && m.c4(body).loremIpsum && m.c4(body).curlyBrace)
    && (silver.kind == ModelCard || silver.kind == DatasetCard ==> m.cardAccepted(silver.kind, silver.title, body, kept))
    && (silver.kind == ScientificPaper ==> !m.template(silver.title, text, kept))
  }

  lemma WordCount(s: string)
    ensures Text.Words(s) == |Text.SplitWords(s)|
  {
    Text.WordsAreCounted(s, "");
  }

  lemma PreflightMeans(m: Models, silver: Silver)
    ensures var p := Project(m, silver);
            !Preflight(m, silver).0 <==>
              Admissible(m, silver, p.text, p.modelText) && WellFormed(m, silver, p.kept, p.text, p.modelText)
  {
    hide Preflight, SegmentScores, PerplexityTooHigh, SourceSegments;
    hide Text.SplitWords, Text.SplitFrom, Text.WordsFrom, Text.Words;
    var p := Project(m, silver);
    PreflightFindings(m, silver, None, false);
    BlockingFlagsExist(m.sanitize, SourceSegments(silver));
    WordCount(p.text);
    WordCount(p.modelText);
    assert p.blocking == [] <==>
             BlockingFlags(m.sanitize, SourceSegments(silver)) == [] && m.structured(silver.structured).blocking == [];
    hide Project, BlockingFlags;
  }

  /**
   What makes a record trainable before the evidence hand-off, in full: every gate spelled out, the perplexity of a
   web page, the index, and the score of any report against its source's cutoff.
   */
  lemma TrainableMeans(m: Models, silver: Silver, skipped: bool, near: Near.NearDup)
    ensures var gold, p := Curated(m, silver, skipped, near), Project(m, silver);
            Trainable(gold) <==>
              && Admissible(m, silver, p.text, p.modelText)
              && WellFormed(m, silver, p.kept, p.text, p.modelText)
              && !(silver.kind == WebProse && 4 * |InTail(gold.segmentScores)| >= 3 * |Measured(gold.segmentScores)|
                   && gold.perplexity > 2000.0)
              && !near.duplicate
              && (gold.report.Some? ==>
                    gold.report.value.score >= if silver.feed == "hf-models" || silver.feed == "hf-datasets" then 3.5 else 3.0)
  {
    hide Project, Preflight, SegmentScores, Admissible, WellFormed, Measured, InTail, PerplexityTooHigh, Reasons, FindingsOf, FinalRoute;
    var gold := Curated(m, silver, skipped, near);
    AcceptanceRule(m, silver, skipped, near);
    PreflightMeans(m, silver);
    PerplexityMeans(m, silver, skipped, near);
    PassedMeans(m, silver, skipped, near);
    hide Curated;
  }

  /** The classifier runs exactly on records that pass every gate and are not skipped; without it the quality is zero. */
  lemma ScoredWhen(m: Models, silver: Silver, skipped: bool, near: Near.NearDup)
    ensures var gold, p := Curated(m, silver, skipped, near), Project(m, silver);
            && (gold.report.Some? <==>
                  !skipped && Admissible(m, silver, p.text, p.modelText) && WellFormed(m, silver, p.kept, p.text, p.modelText))
            && (gold.report.Some? ==> gold.report.value == ReportOf(m, silver, p.text))
            && gold.sourceQuality == (if gold.report.Some? then gold.report.value.score else 0.0)
            && (gold.backend == if gold.report.Some? then m.qualityBackend else NOT_RUN)
  {
    hide Project, Preflight, SegmentScores, Admissible, WellFormed, Reasons, FindingsOf, FinalRoute, ReportOf;
    PreflightMeans(m, silver);
    MetadataIsHard(m, silver);
  }

  lemma MetadataIsHard(m: Models, silver: Silver)
    ensures !PolicyOf(silver.kind).trainingText ==> Preflight(m, silver).0
  {
  }

  lemma PassedMeans(m: Models, silver: Silver, skipped: bool, near: Near.NearDup)
    ensures var report := Curated(m, silver, skipped, near).report;
            report.Some? ==>
              (report.value.passed <==>
                 report.value.score >= if silver.feed == "hf-models" || silver.feed == "hf-datasets" then 3.5 else 3.0)
  {
    hide Project, Preflight, SegmentScores, Reasons, FindingsOf, FinalRoute, TokenMean;
  }

  lemma PerplexityMeans(m: Models, silver: Silver, skipped: bool, near: Near.NearDup)
    ensures var gold := Curated(m, silver, skipped, near);
            PerplexityTooHigh(silver.kind, gold.segmentScores)
            <==> silver.kind == WebProse && 4 * |InTail(gold.segmentScores)| >= 3 * |Measured(gold.segmentScores)|
                 && gold.perplexity > 2000.0
  {
    hide Project, Preflight, SegmentScores, Measured, InTail, Reasons, FindingsOf, FinalRoute;
    BucketCounts(Curated(m, silver, skipped, near).segmentScores);
  }

  // ---- The rows of the section scores --------------------------------------------------------

  lemma {:induction false} SignalIsLast(m: Models, safe: seq<Segment>, id: string)
    ensures id in Signals(m, safe) <==> exists i :: 0 <= i < |safe| && safe[i].id == id
    ensures forall i | 0 <= i < |safe| && safe[i].id == id && (forall j | i < j < |safe| :: safe[j].id != id) ::
              Signals(m, safe)[id] == m.perplexity(safe[i].text)
  {
    if safe != [] {
      var n := |safe| - 1;
      var front := safe[..n];
      SignalIsLast(m, front, id);
      var before := Signals(m, front);
      assert Signals(m, safe) == before[safe[n].id := m.perplexity(safe[n].text)];
      hide Signals;
      if id in before {
        var i :| 0 <= i < n && front[i].id == id;
        assert safe[i].id == id;
      }
      if i :| 0 <= i < |safe| && safe[i].id == id {
        assert i == n || front[i].id == id;
      }
      forall i | 0 <= i < |safe| && safe[i].id == id && (forall j | i < j < |safe| :: safe[j].id != id)
        ensures Signals(m, safe)[id] == m.perplexity(safe[i].text)
      {
        if i < n {
          assert front[i].id == id && forall j | i < j < n :: front[j].id != id;
        }
      }
    }
  }

  /**
   Every sanitized section has its score row: its words, whether it stayed in the projection, and on web pages
   the language model's signal of the last section with its identifier.
   */
  lemma ScoreRowMeans(m: Models, silver: Silver, i: nat)
    requires i < |Project(m, silver).safe|
    ensures var safe := Project(m, silver).safe;
            var scores := SegmentScores(m, silver.kind, safe);
            && |scores| == |safe|
            && scores[i].segmentId == safe[i].id
            && scores[i].wordCount == |Text.SplitWords(safe[i].text)|
            && scores[i].quality.None?
            && (scores[i].included <==> safe[i] in Project(m, silver).kept)
            && (scores[i].perplexity.Some? <==> silver.kind == WebProse)
            && (scores[i].bucket.Some? <==> silver.kind == WebProse)
            && forall j | i <= j < |safe| && safe[j].id == safe[i].id && (forall k | j < k < |safe| :: safe[k].id != safe[i].id) ::
                 silver.kind == WebProse ==>
                   scores[i].perplexity == Some(m.perplexity(safe[j].text).value) && scores[i].bucket == Some(m.perplexity(safe[j].text).bucket)
  {
    var safe := Project(m, silver).safe;
    WordCount(safe[i].text);
    KeptElements(m, silver.kind, safe, safe[i]);
    SignalIsLast(m, safe, safe[i].id);
    hide Signals, Text.SplitFrom, Text.WordsFrom;
  }

  // ---- The quality report --------------------------------------------------------------------

  /** A row holds its section's score, weighed by the model's tokens, or by its words, at least one, when it counts none. */
  lemma ReportRowMeans(m: Models, silver: Silver, text: string, i: nat)
    requires i < |m.sections(silver.feed, text)|
    ensures var section, rows := m.sections(silver.feed, text)[i], ReportOf(m, silver, text).rows;
            && |rows| == |m.sections(silver.feed, text)|
            && rows[i].score == m.quality(section.input).score
            && (m.quality(section.input).tokens != 0 ==> rows[i].tokens == m.quality(section.input).tokens)
            && (m.quality(section.input).tokens == 0 && Text.SplitWords(section.text) != [] ==>
                  rows[i].tokens == |Text.SplitWords(section.text)|)
            && (m.quality(section.input).tokens == 0 && Text.SplitWords(section.text) == [] ==> rows[i].tokens == 1)
  {
    WordCount(m.sections(silver.feed, text)[i].text);
  }

  lemma {:induction false} TotalsAppend(a: seq<Row>, b: seq<Row>)
    ensures TokenTotal(a + b) == TokenTotal(a) + TokenTotal(b)
    ensures TokenSum(a + b) == TokenSum(a) + TokenSum(b)
  {
    if b == [] {
      assert a + b == a;
    } else {
      assert (a + b)[..|a + b| - 1] == a + b[..|b| - 1];
      TotalsAppend(a, b[..|b| - 1]);
    }
  }

  lemma OneTotal(r: Row)
    ensures TokenTotal([r]) == r.tokens && TokenSum([r]) == r.score * r.tokens as real
  {
    assert [r][..0] == [];
  }

  /**
   The score is the token-weighted mean: one row has its own score, and a mean weighs the means of two parts by
   their tokens. These laws leave no other function.
   */
  lemma ScoreIsTheWeightedMean(r: Row, a: seq<Row>, b: seq<Row>)
    ensures TokenTotal([]) == 0 && TokenMean([]) == 0.0
    ensures TokenTotal([r]) == r.tokens && (r.tokens != 0 ==> TokenMean([r]) == r.score)
    ensures TokenTotal(a + b) == TokenTotal(a) + TokenTotal(b)
    ensures TokenTotal(a) != 0 && TokenTotal(b) != 0 ==>
              TokenMean(a + b) * TokenTotal(a + b) as real
              == TokenMean(a) * TokenTotal(a) as real + TokenMean(b) * TokenTotal(b) as real
  {
    TotalsAppend(a, b);
    OneTotal(r);
    if r.tokens != 0 {
      Agg.DivideBack(r.score, r.tokens as real);
    }
    if TokenTotal(a) != 0 && TokenTotal(b) != 0 {
      Agg.DivideBack(TokenSum(a), TokenTotal(a) as real);
      Agg.DivideBack(TokenSum(b), TokenTotal(b) as real);
      Agg.DivideBack(TokenSum(a + b), TokenTotal(a + b) as real);
      hide TokenSum, TokenTotal;
    }
  }

  /** The whole report: the mean of its rows, passed at the source's cutoff, under the first section's model revision. */
  lemma ReportMeans(m: Models, silver: Silver, text: string)
    ensures var report, sections := ReportOf(m, silver, text), m.sections(silver.feed, text);
            && report.score == TokenMean(report.rows)
            && (report.passed <==> report.score >= if silver.feed == "hf-models" || silver.feed == "hf-datasets" then 3.5 else 3.0)
            && report.revision == if sections == [] then m.qualityRevision else m.quality(sections[0].input).revision
  {
  }
}
